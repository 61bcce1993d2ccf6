# uv `venv` command: quoting, activation hint, seed packages, exit status

A Dafny model of the pure decisions that `uv venv` makes in
`crates/uv/src/commands/venv.rs`. The command creates a Python virtual
environment and then makes these decisions:

- **Seed packages.** With `--seed`, it installs `pip`. It also installs
  `setuptools` and `wheel` when the interpreter's `(major, minor)` version
  sorts before `(3, 12)`.
- **Activation hint.** It suggests an activation command for the detected
  shell. The command is a prefix followed by the script's path. The path is
  quoted by `shlex_posix` (bash, zsh, fish, csh, nushell) or `shlex_windows`
  (PowerShell, cmd), and only when it contains a space. Whether the quoting
  works is judged by quote removal alone: POSIX quote removal for the first
  group, `cmd` quote removal for the second. No other expansion a real
  shell performs is modelled.
- **Exit status.** Every error of the inner command becomes the `Failure`
  exit status. The command never returns an error.

Files:

- `results.dfy`: `Option` and `Result`.
- `text.dfy`: the space test and character counting.
- `shells.dfy`: the seven shells.
- `posix_words.dfy`: a reference reading of one POSIX shell word. It follows
  the quoting rules of the Shell Command Language in POSIX.1-2017: section
  2.2.1 (backslash), 2.2.2 (single quotes) and 2.2.3 (double quotes).
  `shlex_posix` is proved against this reading.
- `cmd_words.dfy`: a reference reading of one `cmd` word, in which double
  quotes toggle quoting. `shlex_windows` is proved against this reading.
- `shlex.dfy`: `shlex_posix` and `shlex_windows`, with their round-trip
  lemmas.
- `venv.dfy`: seed selection, the activation `match`, the steps of
  `venv_impl` and the `Ok`/`Err` folding in `venv`.

The quoting is complete only in the case it handles. `shlex_posix` returns a
path without a space unchanged, even when that path contains `'`, `$`, `;`
or a backslash. The source comment cites Python's `shlex.quote`, which
quotes `$'b` as `'$'"'"'b'`, but the code returns `$'b` unchanged.
`ShlexPosixReadsBack` proves exactly when POSIX quote removal gives the
path back from the output. `ShlexPosixCommentExample` shows the comment's
example string.
The model keeps the code's behaviour.

## Model

| member | source | states |
|---|---|---|
| `Shlex.EscapeQuotes` | crates/uv/src/commands/venv.rs:298 | escaping never shortens a string; its exact behaviour is stated by `EscapeQuotesChar` together with `EscapeQuotesAppend` |
| `Shlex.EscapeQuotesChar` | crates/uv/src/commands/venv.rs:298 | a single quote becomes `'"'"'` (close the span, a double-quoted quote, reopen) and every other character is kept |
| `Shlex.ShlexPosix` | crates/uv/src/commands/venv.rs:290-302 | a path without a space is returned unchanged; a path with a space becomes `'` + the escaped path + `'`, as `ShlexPosixShape` states, and reads back by `ShlexPosixReadsBack` |
| `Shlex.ShlexWindows` | crates/uv/src/commands/venv.rs:305-321 | a path without a space is returned unchanged for both shells; with a space it grows by four characters on PowerShell (`& "…"`) and by two otherwise; the exact text, `& "` + path + `"` or `"` + path + `"` with the path copied as is, is stated by `ShlexWindowsForm` |
| `Shlex.EscapeQuotesAppend` | crates/uv/src/commands/venv.rs:298 | `replace('\'', …)` rewrites character by character: escaping a concatenation is the concatenation of the escapes |
| `Shlex.EscapeQuotesLength` | crates/uv/src/commands/venv.rs:298 | escaping adds exactly four characters per single quote and changes no other length |
| `Shlex.EscapeQuotesIdentity` | crates/uv/src/commands/venv.rs:298 | escaping leaves a string unchanged if and only if it has no single quote |
| `Shlex.ShlexPosixShape` | crates/uv/src/commands/venv.rs:297-301 | a path without a space is returned unchanged, whatever else it holds; a path with a space comes back as `'` + `EscapeQuotes(path)` + `'`, two characters longer plus four for each single quote in it |
| `Shlex.EscapedSpan` | crates/uv/src/commands/venv.rs:294-298 | inside an open single-quoted span, the escaped form of any text reads back under POSIX quoting as that text |
| `Shlex.ShlexPosixReadsBack` | crates/uv/src/commands/venv.rs:289-302 | round trip: POSIX quote removal gives the path back from the output if and only if the path has a space or needs no quoting at all |
| `Shlex.ShlexPosixCommentExample` | crates/uv/src/commands/venv.rs:294-301 | the comment's `$'b` has no space, so it is returned bare and does not read back |
| `Shlex.ShlexPosixSpacedExample` | crates/uv/src/commands/venv.rs:297-298 | `a $'b` becomes `'a $'"'"'b'` and reads back under POSIX quote removal |
| `Shlex.ShlexWindowsForm` | crates/uv/src/commands/venv.rs:310-320 | a path with a space is wrapped in double quotes with nothing inside escaped, preceded by `& ` on PowerShell only |
| `Shlex.ShlexWindowsCmdReadsBack` | crates/uv/src/commands/venv.rs:304-321 | for any shell other than PowerShell, `cmd` quote removal gives the path back from the output if and only if: the path has a space and no double quote (the path is embedded verbatim), or the path needs no quoting |
| `Shlex.ShlexWindowsByShell` | crates/uv/src/commands/venv.rs:309-320 | a path without a space is unchanged for every shell; with a space, PowerShell gets `& ` followed by the `cmd` form; every other shell gets the `cmd` form |
| `Venv.TupleLess` | crates/uv/src/commands/venv.rs:225 | a smaller pair never has a larger major version and differs from the other pair; a smaller major version always makes the pair smaller |
| `Venv.SeedRequirements` | crates/uv/src/commands/venv.rs:225-238 | the seed list is never empty and starts with `pip` |
| `Venv.SeedPlan` | crates/uv/src/commands/venv.rs:163-238 | without `--seed` nothing is resolved; with it, exactly the version-dependent seed list |
| `Venv.SeedPlanContents` | crates/uv/src/commands/venv.rs:163-238 | `pip` is resolved if and only if seeding was asked for; `setuptools` if and only if seeding was asked for on a Python before 3.12 |
| `Venv.TupleLessAsNumber` | crates/uv/src/commands/venv.rs:225 | lexicographic order on `(u8, u8)` is the order of `256·major + minor` |
| `Venv.SeedRequirementsByVersion` | crates/uv/src/commands/venv.rs:225-238 | below 3.12 the list is exactly `pip, setuptools, wheel` in that order; otherwise it is exactly `pip`; `setuptools` and `wheel` appear if and only if the version is below 3.12; no name repeats |
| `Venv.SeedRequirementsShrink` | crates/uv/src/commands/venv.rs:225-238 | a newer interpreter's seed list is a prefix of an older one's |
| `Venv.SeedRequirementsExamples` | crates/uv/src/commands/venv.rs:225-238 | (3, 11) and (2, 7) give three seeds; (3, 12) and (4, 0) give only `pip` |
| `Venv.Activation` | crates/uv/src/commands/venv.rs:258-281 | there is an activation command if and only if a shell was detected; its exact text is stated by `ActivationNamesScript` |
| `Venv.ActivationMessage` | crates/uv/src/commands/venv.rs:282-284 | a line is written if and only if there is an activation command, and that line is `Activate with: ` followed by the command |
| `Venv.ActivationMessageIffShell` | crates/uv/src/commands/venv.rs:258-284 | the activation message appears if and only if a shell was detected |
| `Venv.ActivationNamesScript` | crates/uv/src/commands/venv.rs:258-281 | each detected shell gets its own prefix (`source `, `overlay use ` for nushell, none for PowerShell and cmd) and its own script (`activate`, `.fish`, `.nu`, `.csh`); the command is exactly that prefix followed by the POSIX-quoted path (bash, zsh, fish, csh, nushell) or the Windows-quoted path (PowerShell, cmd), so a path without a space follows the prefix bare. Quote removal (POSIX for bash, zsh, fish, csh and nushell; `cmd` for cmd) gives that script's path back from the quoted part, under the round-trip conditions above. PowerShell gets `& ` followed by the `cmd` form exactly when the path has a space |
| `Venv.Steps` | crates/uv/src/commands/venv.rs:119-284 | discovery, two stderr lines and creation always run first, in that order; each of the five seed steps runs if and only if seeding was asked for, right after creation and in source order (tags, find-links, resolve, install, report); the activation line is written if and only if there is a command, and it is the last step |
| `Venv.ErrorOf` | crates/uv/src/commands/venv.rs:160-254 | creation fails as `Creation`; resolve and install fail as `Seed`; tags as `Tags`; find-links as `FlatIndex`; every other step as a converted diagnostic |
| `Venv.Run` | crates/uv/src/commands/venv.rs:118-286 | the `?` chain succeeds with `Success` if and only if no step fails; otherwise it stops with the error of the first failing step |
| `Venv.VenvImpl` | crates/uv/src/commands/venv.rs:102-287 | a successful run ends with `Success`; a `Seed`, `Tags` or `FlatIndex` error occurs only when seeding was asked for |
| `Venv.Venv` | crates/uv/src/commands/venv.rs:54-78 | never returns `Err`; an inner `Ok(status)` passes through unchanged; an inner `Err` becomes `Ok(Failure)` |
| `Venv.VenvReport` | crates/uv/src/commands/venv.rs:74-76 | an error is written to stderr if and only if the inner command failed |
| `Venv.VenvOutcome` | crates/uv/src/commands/venv.rs:54-286 | end to end: `venv` gives `Ok(Success)` if no step fails and `Ok(Failure)` otherwise; the reported error belongs to the first failing step |
| `Venv.SeedErrorsNeedSeed` | crates/uv/src/commands/venv.rs:160-251 | without `--seed`, the only errors are `Creation` and the converted diagnostics; `Seed`, `Tags` and `FlatIndex` need seeding |

## Left out

- Interpreter discovery, `create_venv`, tag extraction (`interpreter.tags()`, venv.rs:180), the find-links fetch (venv.rs:182-185) and the resolve/install of seeds through `BuildDispatch` are I/O against code that is not part of this model. Each appears only as a step of `Venv.Steps` that may fail. Credential storage (venv.rs:133-135), building the registry client (venv.rs:168-176) and building the flat index, in-memory index and build dispatch (venv.rs:186-222) cannot fail, and they are omitted.
- Reading the shell from the environment (`Shell::from_env`) is not modelled. The detected shell is an input.
- Path joining and display rendering (`scripts().join(name)`, `user_display()`) are not modelled. The displayed path of each script is an input function `script`.
- Parsing of the `pip`, `setuptools` and `wheel` requirements (PEP 508) is not modelled. Requirements are their name strings.
- Terminal colouring of the messages and the text of the `VenvError` messages and diagnostic codes are not modelled.
- ShlexWindowsByShell: PowerShell's own rules inside double quotes (`$` expansion, backtick escapes) are not modelled. The lemma relates the PowerShell form to the `cmd` form and does not decode it.
- The `cmd` reading treats an unterminated quote as an error, although `cmd` itself tolerates one.
- The POSIX reading refuses expansions (`$`, backquote) instead of performing them. It treats a trailing unquoted backslash as an error.
- ShlexPosixReadsBack: the POSIX reading does no pathname expansion (`*`, `?`, `[`), no tilde expansion and no comment handling. A bare path such as `/x/a*b` counts as reading back, although `sh` would glob it.
- ShlexWindowsCmdReadsBack: the `cmd` reading does not expand `%VAR%`, which `cmd` performs even inside double quotes.
- ActivationNamesScript: fish, csh and nushell are judged by POSIX quote removal, although their own quoting differs. For example, fish takes `\'` inside single quotes as an escaped quote, and csh expands `!` history references inside single quotes. The clause is exact only for bash and zsh.
- crates/uv-resolver/src/python_requirement.rs is not modelled: it stores two versions and reads them back.
- The installation engine in crates/uv-installer (planner, satisfaction check, downloader, installer, uninstaller) is not part of this model. Its crate root only re-exports modules whose bodies are not modelled.
