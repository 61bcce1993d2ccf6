/**
 * The decisions `uv venv` makes around creating an environment: which seed
 * packages to install, which activation command to suggest, and how a
 * failure of the creation steps becomes the command's exit status.
 */
module Venv {
  import opened Results
  import opened Text
  import opened Shells
  import opened Shlex
  import PosixWords
  import CmdWords

  // ---------------------------------------------------------------------
  // Seed packages

  /** A byte: the interpreter reports its version as a `(u8, u8)` pair. */
  newtype u8 = x: int | 0 <= x < 256

  /** Rust's ordering of pairs: by major version, then by minor version. */
  predicate TupleLess(a: (u8, u8), b: (u8, u8)): (r: bool)
    ensures r ==> a.0 <= b.0 && a != b
    ensures a.0 < b.0 ==> r
  {
    a.0 < b.0 || (a.0 == b.0 && a.1 < b.1)
  }

  /** The first Python version whose seed set drops `setuptools` and `wheel`. */
  const SeedCutoff: (u8, u8) := (3, 12)

  /** The names of the seed requirements for an interpreter of version `python`. */
  function SeedRequirements(python: (u8, u8)): (r: seq<string>)
    ensures |r| >= 1 && r[0] == "pip"
  {
    if TupleLess(python, SeedCutoff) then ["pip", "setuptools", "wheel"] else ["pip"]
  }

  /** The requirements `venv` resolves and installs: none unless seeding was asked for. */
  function SeedPlan(seed: bool, python: (u8, u8)): (r: seq<string>)
    ensures !seed ==> r == []
    ensures seed ==> r == SeedRequirements(python)
  {
    if seed then SeedRequirements(python) else []
  }

  /** The pair ordering is the ordering of the number `256 * major + minor`. */
  lemma TupleLessAsNumber(a: (u8, u8), b: (u8, u8))
    ensures TupleLess(a, b) <==> 256 * (a.0 as int) + (a.1 as int) < 256 * (b.0 as int) + (b.1 as int)
  {
  }

  /**
   * Before Python 3.12 the seeds are `pip`, `setuptools` and `wheel` in that
   * order; from 3.12 on only `pip`. The list never repeats a name.
   */
  lemma SeedRequirementsByVersion(python: (u8, u8))
    ensures var before := python.0 < 3 || (python.0 == 3 && python.1 < 12);
      && ("setuptools" in SeedRequirements(python) <==> before)
      && ("wheel" in SeedRequirements(python) <==> before)
      && SeedRequirements(python) == (if before then ["pip", "setuptools", "wheel"] else ["pip"])
    ensures forall i, j | 0 <= i < j < |SeedRequirements(python)| ::
      SeedRequirements(python)[i] != SeedRequirements(python)[j]
  {
  }

  /** A newer interpreter never gets more seeds: its list is a prefix of an older one's. */
  lemma SeedRequirementsShrink(older: (u8, u8), newer: (u8, u8))
    requires !TupleLess(newer, older)
    ensures |SeedRequirements(newer)| <= |SeedRequirements(older)|
    ensures SeedRequirements(newer) == SeedRequirements(older)[..|SeedRequirements(newer)|]
  {
  }

  /** `setuptools` is resolved exactly when seeding is asked for on a Python before 3.12. */
  lemma SeedPlanContents(seed: bool, python: (u8, u8))
    ensures "pip" in SeedPlan(seed, python) <==> seed
    ensures "setuptools" in SeedPlan(seed, python) <==> seed && TupleLess(python, SeedCutoff)
  {
    SeedRequirementsByVersion(python);
  }

  lemma SeedRequirementsExamples()
    ensures |SeedRequirements((3, 11))| == 3 && |SeedRequirements((2, 7))| == 3
    ensures SeedRequirements((3, 12)) == ["pip"] && SeedRequirements((4, 0)) == ["pip"]
  {
  }

  // ---------------------------------------------------------------------
  // Activation command

  /**
   * The activation command for the detected shell, if any. `script(name)`
   * is the displayed path of `name` inside the environment's scripts
   * directory.
   */
  function Activation(shell: Option<Shell>, script: string -> string): (r: Option<string>)
    ensures r.Some? <==> shell.Some?
  {
    match shell
    case None => None
    case Some(Bash) => Some("source " + ShlexPosix(script("activate")))
    case Some(Zsh) => Some("source " + ShlexPosix(script("activate")))
    case Some(Fish) => Some("source " + ShlexPosix(script("activate.fish")))
    case Some(Nushell) => Some("overlay use " + ShlexPosix(script("activate.nu")))
    case Some(Csh) => Some("source " + ShlexPosix(script("activate.csh")))
    case Some(Powershell) => Some(ShlexWindows(script("activate"), Powershell))
    case Some(Cmd) => Some(ShlexWindows(script("activate"), Cmd))
  }

  /** The line written to stderr for an activation command, if there is one. */
  function ActivationMessage(activation: Option<string>): (m: Option<string>)
    ensures m.Some? <==> activation.Some?
    ensures activation.Some? ==> m.value == "Activate with: " + activation.value
  {
    match activation
    case None => None
    case Some(act) => Some("Activate with: " + act)
  }

  /**
   * Shells whose activation path is quoted with `shlex_posix`; the model
   * judges all of them by POSIX quote removal.
   */
  predicate PosixFamily(shell: Shell) {
    shell == Bash || shell == Zsh || shell == Fish || shell == Nushell || shell == Csh
  }

  /** The activation script each shell sources. */
  function ScriptName(shell: Shell): string {
    match shell
    case Fish => "activate.fish"
    case Nushell => "activate.nu"
    case Csh => "activate.csh"
    case _ => "activate"
  }

  /** The command word put before the script path. */
  function CommandPrefix(shell: Shell): string {
    match shell
    case Nushell => "overlay use "
    case Powershell => ""
    case Cmd => ""
    case _ => "source "
  }

  /** A message is written exactly when a shell was detected. */
  lemma ActivationMessageIffShell(shell: Option<Shell>, script: string -> string)
    ensures ActivationMessage(Activation(shell, script)).Some? <==> shell.Some?
  {
  }

  /**
   * For a detected shell the command is its prefix followed by the quoted
   * path of its own activation script (POSIX quoting for the POSIX-like
   * shells, Windows quoting otherwise), and the quote-removal reading
   * (POSIX or `cmd`) gives back the script's path: always when the path holds a space, and
   * otherwise exactly when the path needs no quoting. On `cmd` a quoted
   * path must also be free of double quotes.
   */
  lemma ActivationNamesScript(shell: Shell, script: string -> string)
    ensures Activation(Some(shell), script).Some?
    ensures
      var cmd := Activation(Some(shell), script).value;
      var path := script(ScriptName(shell));
      var prefix := CommandPrefix(shell);
      && |prefix| <= |cmd| && cmd[..|prefix|] == prefix
      && cmd == prefix + (if PosixFamily(shell) then ShlexPosix(path) else ShlexWindows(path, shell))
      && (PosixFamily(shell) ==>
            (PosixWords.Unquote(cmd[|prefix|..]) == Some(path)
             <==> HasSpace(path) || PosixWords.Plain(path)))
      && (shell == Cmd ==>
            (CmdWords.Unquote(cmd, false) == Some(path)
             <==> if HasSpace(path) then '"' !in path else CmdWords.Plain(path)))
      && (shell == Powershell ==>
            cmd == (if HasSpace(path) then "& " else "") + ShlexWindows(path, Cmd))
  {
    var cmd := Activation(Some(shell), script).value;
    var path := script(ScriptName(shell));
    var prefix := CommandPrefix(shell);
    if PosixFamily(shell) {
      assert cmd == prefix + ShlexPosix(path);
      assert cmd[|prefix|..] == ShlexPosix(path);
      ShlexPosixReadsBack(path);
    } else if shell == Cmd {
      ShlexWindowsCmdReadsBack(path, Cmd);
    } else {
      ShlexWindowsByShell(path, Powershell);
    }
  }

  // ---------------------------------------------------------------------
  // Exit status

  datatype ExitStatus = Success | Failure

  /** The error kinds `venv_impl` reports; `Diagnostic` covers the errors it converts with `into_diagnostic`. */
  datatype VenvError = Creation | Seed | Tags | FlatIndex | Diagnostic

  /** The fallible steps of `venv_impl`, each ending in `?`. */
  datatype Step =
    | FindInterpreter | ReportInterpreter | ReportLocation | CreateVenv
    | ExtractTags | FetchFlatIndex | ResolveSeeds | InstallSeeds | ReportSeeds
    | ReportActivation

  /** The steps that install the seed packages, in the order they run. */
  const SeedSteps: seq<Step> := [ExtractTags, FetchFlatIndex, ResolveSeeds, InstallSeeds, ReportSeeds]

  /** The error a failing step is reported as (the `map_err` of each step). */
  function ErrorOf(step: Step): (e: VenvError)
    ensures e == Creation <==> step == CreateVenv
    ensures e == Seed <==> step == ResolveSeeds || step == InstallSeeds
    ensures e == Tags <==> step == ExtractTags
    ensures e == FlatIndex <==> step == FetchFlatIndex
  {
    match step
    case CreateVenv => Creation
    case ExtractTags => Tags
    case FetchFlatIndex => FlatIndex
    case ResolveSeeds => Seed
    case InstallSeeds => Seed
    case _ => Diagnostic
  }

  /** The steps `venv_impl` runs, in order, for the given options. */
  function Steps(seed: bool, activation: Option<string>): (steps: seq<Step>)
    ensures |steps| == 4 + (if seed then 5 else 0) + (if activation.Some? then 1 else 0)
    ensures steps[..4] == [FindInterpreter, ReportInterpreter, ReportLocation, CreateVenv]
    ensures forall s | s in SeedSteps :: s in steps <==> seed
    ensures seed ==> steps[4..9] == SeedSteps
    ensures activation.Some? <==> ReportActivation in steps
    ensures activation.Some? ==> steps[|steps| - 1] == ReportActivation
  {
    [FindInterpreter, ReportInterpreter, ReportLocation, CreateVenv]
    + (if seed then SeedSteps else [])
    + (if activation.Some? then [ReportActivation] else [])
  }

  /**
   * Runs `steps` in order, stopping at the first one that fails (`fails`
   * says which steps fail) with that step's error.
   */
  function Run(steps: seq<Step>, fails: Step -> bool): (r: Result<ExitStatus, VenvError>)
    ensures r.Ok? <==> forall i | 0 <= i < |steps| :: !fails(steps[i])
    ensures r.Ok? ==> r.value == Success
    ensures r.Err? ==> exists i | 0 <= i < |steps| ::
      && fails(steps[i]) && r.error == ErrorOf(steps[i])
      && forall j | 0 <= j < i :: !fails(steps[j])
  {
    if steps == [] then Ok(Success)
    else if fails(steps[0]) then Err(ErrorOf(steps[0]))
    else Run(steps[1..], fails)
  }

  /** `venv_impl`, seen through its exit status. */
  function VenvImpl(seed: bool, shell: Option<Shell>, script: string -> string, fails: Step -> bool): (r: Result<ExitStatus, VenvError>)
    ensures r.Ok? ==> r.value == Success
    ensures r.Err? && (r.error == Seed || r.error == Tags || r.error == FlatIndex) ==> seed
  {
    Run(Steps(seed, Activation(shell, script)), fails)
  }

  /** `venv`: every error of the inner command becomes the `Failure` exit status. */
  function Venv<E>(inner: Result<ExitStatus, E>): (r: Result<ExitStatus, E>)
    ensures r.Ok?
    ensures inner.Ok? ==> r == inner
    ensures inner.Err? ==> r.value == Failure
  {
    match inner
    case Ok(status) => Ok(status)
    case Err(_) => Ok(Failure)
  }

  /** What `venv` writes to stderr for the inner result: the error, if any. */
  function VenvReport<E>(inner: Result<ExitStatus, E>): (e: Option<E>)
    ensures e.Some? <==> inner.Err?
  {
    match inner
    case Ok(_) => None
    case Err(err) => Some(err)
  }

  /**
   * End to end: `venv` succeeds exactly when no step fails, never returns an
   * error, and otherwise reports the error of the first failing step.
   */
  lemma VenvOutcome(seed: bool, shell: Option<Shell>, script: string -> string, fails: Step -> bool)
    ensures var steps := Steps(seed, Activation(shell, script));
      var inner := VenvImpl(seed, shell, script, fails);
      && Venv(inner) == Ok(if forall i | 0 <= i < |steps| :: !fails(steps[i]) then Success else Failure)
      && (VenvReport(inner).Some? ==> exists i | 0 <= i < |steps| ::
            && fails(steps[i]) && VenvReport(inner).value == ErrorOf(steps[i])
            && forall j | 0 <= j < i :: !fails(steps[j]))
  {
  }

  /** Seed, tag and find-links errors can only arise when seeding was asked for. */
  lemma SeedErrorsNeedSeed(shell: Option<Shell>, script: string -> string, fails: Step -> bool)
    ensures var inner := VenvImpl(false, shell, script, fails);
      inner.Err? ==> inner.error in {Creation, Diagnostic}
  {
  }
}
