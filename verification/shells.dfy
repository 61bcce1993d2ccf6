/** The shells the activation hint distinguishes (`crate::shell::Shell`). */
module Shells {

  datatype Shell = Bash | Fish | Powershell | Cmd | Zsh | Nushell | Csh
}
