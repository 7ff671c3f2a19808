# Lissto end-to-end harness helpers, modelled in Dafny

The lissto-dev/e2e repository drives the `lissto` command-line tool and a
Kubernetes cluster through Ginkgo scenarios. Almost all of it is I/O glue. This
project models the part that is pure logic, and proves what that logic promises:

- **Identifier extraction** (`ExtractBlueprintID`, `ExtractStackID`). The CLI
  output is cut into lines at `\n`. The first line whose trimmed form starts
  with `ID:` gives the identifier: the trimmed text after that line's first
  `:`. Without such a line, the whole trimmed output is the identifier.
  Module `CliOutput`, over Go's `strings` helpers in module `Text`.
- **The CLI runner** (`CLIRunner`). Module `Cli` covers:
  - the switch to a role's context before every command (`RunAs`);
  - the argument vector and role of every wrapper, from `BlueprintCreate` to
    `StackDelete`;
  - `EnvExists`, `GetCurrentContext` and the "use, else create then use" rule
    of `EnsureEnv`;
  - the error messages the runner builds.

  Running the binary is an *oracle*: a function from the state of the outside
  world and a command line to the next state and the process's reply. A
  session logs every command with its reply, so contracts speak about the
  command trace. Module `IdealCli` is one concrete oracle with the CLI
  behaviour the harness relies on. In it, `EnsureEnv` provably creates a
  missing environment and selects it.
- **Namespace naming** (`GetUserNamespace` and the namespace constants).
  Module `Fixtures`.
- **Scoped identifiers** (`namespace/name` to `name`, as the stack, image
  update and cleanup scenarios do it). Module `ScopedId`, composed with
  extraction into the scenario's own example.

`Wrappers` holds the `Option` type.

Strings are sequences of Unicode scalar values. `Text.IsSpace` is Go's
`unicode.IsSpace`, character for character. In Latin-1 that is `\t`, `\n`,
`\v`, `\f`, `\r`, space, U+0085 and U+00A0. Above Latin-1 it is the
White_Space characters: U+1680, U+2000 to U+200A, U+2028, U+2029, U+202F,
U+205F and U+3000.

`EnsureEnv` does not always issue `env create` after a failed first
`env use`. `EnvCreate` runs through `RunAs` too, so when the context switch
before the creation fails, the creation is never issued and the switch's
error is returned. `Cli.EnvTrace` states this: the trace is a sequence of
`RunAs` segments (`Cli.RanAs`), each chosen by the outcome of the one before.
A failed switch makes the creation's segment that switch alone. Its wrapped
error is then the result, and nothing follows.

## Model

| member | source | states |
|---|---|---|
| Text.TrimSpace | tests/helpers/cli.go:194 | `strings.TrimSpace`: the result has no space at either end, is no longer than the input, and is empty exactly when the input is all spaces |
| Text.TrimSpaceSplits | tests/helpers/cli.go:197 | the trimmed result is a contiguous block of the input with only spaces before and after it |
| Text.TrimSpaceUnique | tests/helpers/cli.go:197 | spaces + a block without outer spaces + spaces always trims to exactly that block |
| Text.TrimmedIsFixed | tests/helpers/cli.go:202 | a string without outer spaces is returned unchanged |
| Text.TrimSpaceIdempotent | tests/helpers/cli.go:197 | trimming twice equals trimming once |
| Text.TrimSpaceKeepsCharacters | tests/helpers/cli.go:194-195 | every character of the trimmed line occurs in the untrimmed line |
| Text.Split | tests/helpers/cli.go:192 | `strings.Split` with a one-character separator: one more piece than separators, and no piece holds the separator |
| Text.JoinSplit | tests/helpers/cli.go:192 | joining the pieces of a split with the separator gives back the input |
| Text.SplitJoin | tests/03_stack_test.go:58 | splitting a join of separator-free pieces gives back the pieces |
| Text.SplitWithoutSeparator | tests/03_stack_test.go:58 | a string without the separator splits into itself alone |
| Text.SplitAfterPiece | tests/helpers/cli.go:192 | splitting `piece + sep + rest` yields `piece` and then the pieces of `rest` |
| Text.SplitFirst | tests/helpers/cli.go:195 | `strings.SplitN(s, ":", 2)`: two parts exactly when the separator occurs, the first free of it, and `first + sep + second` rebuilds the input; otherwise the input alone |
| Text.SplitFirstAt | tests/helpers/cli.go:195 | only the first separator cuts, so separators in the second part survive |
| CliOutput.IdLineHasColon | tests/helpers/cli.go:194-196 | a line whose trimmed form starts with `ID:` contains `:`, so SplitN gives two parts |
| CliOutput.ScanForId | tests/helpers/cli.go:192-200 | the loop over the lines: a found value has no outer spaces, and with no `ID:` line nothing is found |
| CliOutput.ScanFindsIdLine | tests/helpers/cli.go:193-198 | if any line is an `ID:` line the loop returns a value, so its `len(parts) == 2` check never fails |
| CliOutput.ScanTakesFirstIdLine | tests/helpers/cli.go:193-198 | the first `ID:` line decides: the result is its text after the first `:`, trimmed; later lines are ignored |
| CliOutput.ExtractBlueprintId | tests/helpers/cli.go:190-203 | the identifier has no outer spaces, and without an `ID:` line it is the trimmed output |
| CliOutput.ExtractTakesFirstIdLine | tests/helpers/cli.go:190-198 | over the whole output: the first `ID:` line's value, trimmed, colons in it kept |
| CliOutput.ExtractAnnouncedId | tests/helpers/cli.go:190-198 | round trip: output `ID: <id>\n...` yields `<id>` for any one-line `<id>` without outer spaces |
| CliOutput.ExtractFromFirstLine | tests/helpers/cli.go:192-197 | an `ID:` first line decides the identifier whatever lines follow |
| CliOutput.ExtractBareId | tests/helpers/cli.go:201-202 | fallback: a bare one-line identifier not starting with `ID:` is returned unchanged |
| CliOutput.ExtractStackId | tests/helpers/cli.go:206-208 | agrees with ExtractBlueprintId on every output, so it has no outer spaces |
| Cli.Message | tests/helpers/cli.go:95-96 | the two `fmt.Errorf` formats of the runner (cli.go:53 wraps, cli.go:95-96 reports); every message ends with the failed process's stderr and stdout verbatim, however often it was wrapped |
| Cli.OutcomeOf | tests/helpers/cli.go:90-99 | stdout is always returned, with an error exactly when the process failed; the message quotes reason, stderr and stdout |
| Cli.RunCommand | tests/helpers/cli.go:83-100 | exactly one command, the given one, is issued, and the result is that process's outcome |
| Cli.RunAs | tests/helpers/cli.go:50-56 | `context use role` comes first; if it fails nothing else is issued and the result is `""` with the wrapped error; otherwise exactly the target command follows and its result is returned |
| Cli.RoleFor | tests/helpers/cli.go:103-187 | every wrapper runs as one of the three roles: admin exactly for blueprint deletion, deploy exactly for global blueprint creation |
| Cli.ArgsFor | tests/helpers/cli.go:103-187 | the argument vector of every wrapper, with an independent parser (`Cli.Decode`) as its partner: role and vector decode back to exactly the wrapper call, so `--repository` is present exactly for a non-empty repository, `--branch` exactly for a non-empty branch, after the repository |
| Cli.WrappersDistinct | tests/helpers/cli.go:103-187 | two different wrapper calls never issue the same command line under the same role |
| Cli.Invoke | tests/helpers/cli.go:103-187 | a wrapper call is RunAs with the wrapper's role and arguments |
| Cli.EnvExists | tests/helpers/cli.go:149-152 | first `context use e2e-user`; `env get name` follows exactly when that switch succeeded, and nothing else is issued; the result is true exactly when that `env get` succeeded |
| Cli.GetCurrentContext | tests/helpers/cli.go:74-80 | one `context current`; its trimmed output on success, `""` and the error on failure |
| Cli.EnsureEnv | tests/helpers/cli.go:155-167 | the events it logs are replies the oracle really gave |
| Cli.EnsureEnvTrace | tests/helpers/cli.go:155-167 | the trace is up to three RunAs calls as user, each run exactly when the one before allows it: `env use`; if it succeeded, nothing more and success; otherwise `env create`; if that failed (its command or the switch before it), nothing more and its error; otherwise `env use` again, whose error is the result |
| Cli.EnsureEnvTraceRetry | tests/helpers/cli.go:160-166 | the same trace once the first use has failed |
| Cli.CreateFailsTrace | tests/helpers/cli.go:161-163 | a failed creation after a failed use: the two RunAs segments, and the creation's error as the result |
| Cli.UseAgainTrace | tests/helpers/cli.go:161-166 | a successful creation after a failed use: the three RunAs segments, and the second use's error as the result |
| IdealCli.EnsureEnvSelects | tests/helpers/cli.go:154-167 | with a CLI where `env use` fails only for a missing environment: success, the environment exists and is selected, no other one appears, and `env create` is issued exactly when it was missing |
| IdealCli.EnvExistsReports | tests/helpers/cli.go:148-152 | with that CLI, EnvExists is true exactly when the environment exists |
| IdealCli.CurrentContextAfterSwitch | tests/helpers/cli.go:73-80 | with that CLI, after switching to a context GetCurrentContext reports it, trailing newline trimmed |
| Fixtures.UserNamespace | tests/helpers/fixtures.go:51-53 | the namespace starts with `dev-`, the rest is the username, and it is four characters longer |
| Fixtures.UsernameOfUserNamespace | tests/helpers/fixtures.go:51-53 | stripping the prefix recovers the username |
| Fixtures.UserNamespaceOfUsername | tests/helpers/fixtures.go:51-53 | every namespace that starts with `dev-` is the namespace of the user it names |
| Fixtures.UserNamespaceInjective | tests/helpers/fixtures.go:51-53 | different users get different namespaces |
| Fixtures.UserNamespaceNotReserved | tests/helpers/fixtures.go:44-48 | no user namespace is `lissto-global` or `lissto-system` |
| Fixtures.E2eUserNamespace | tests/helpers/fixtures.go:51-53 | the namespace of `e2e-user` is `dev-e2e-user` |
| ScopedId.NameOf | tests/03_stack_test.go:58-63 | with no `/` or several, the name is the whole identifier; the name contains `/` exactly when the identifier has two or more |
| ScopedId.NameAfterOnlySlash | tests/03_stack_test.go:58-60 | with exactly one `/`, the name is the text after it |
| ScopedId.NameOfScoped | tests/03_stack_test.go:58-60 | round trip: the name of `ns/name` is `name` for slash-free parts |
| ScopedId.NestedIdKeptWhole | tests/03_stack_test.go:61-62 | `a/b/c` keeps its whole identifier as the name, not the last segment |
| ScopedId.AnnouncedStackName | tests/03_stack_test.go:54-63 | output `ID: ns/stack\n...` yields identifier `ns/stack` and stack name `stack` |
| ScopedId.AnnouncedUserStackName | tests/03_stack_test.go:54-63 | the same for a stack in a user's namespace |
| ScopedId.E2eStackExample | tests/03_stack_test.go:54-60 | output `ID: dev-e2e-user/foo\n` yields identifier `dev-e2e-user/foo`, in the namespace of `e2e-user`, and name `foo` |

## Left out

- tests/helpers/k8s.go is not part of this model. It wraps Kubernetes clients whose behaviour lives in the cluster, and polls with wall-clock sleeps.
- Process spawning and stream capture in `runCommand` become the oracle. The exec error appears only as its rendered text (`Failed(reason)`).
- `NewCLIRunner` and `NewK8sClient` are left out: they look things up in `PATH`, the environment and kubeconfig files.
- `GetFixturePath`, `FixtureExists` and `ReadFixture` are left out: they use the filesystem and the caller's source location. The fixture name constants are kept.
- `Run` is `RunCommand` itself. `RunAsAdmin`, `RunAsDeploy` and `RunAsUser` are `RunAs` with a fixed role, expressed through `Cli.RoleFor`.
- Behaviour of the CLI and the platform is not modelled, apart from the assumed `IdealCli`. That covers authorization, blueprint deduplication, cascade deletion and phase convergence.
- Ginkgo and Gomega orchestration is left out, as are the skipped image-update scenarios.
- Cli.EnsureEnv: its own contract says only that the logged replies are the oracle's. The trace it promises is stated by the lemma Cli.EnsureEnvTrace, which keeps each proof small.
- Output that is not valid UTF-8 is not modelled: strings are sequences of decoded characters.
- The blueprint-ID split in tests/02_blueprint_test.go:42-44 is not modelled. It is a different rule from `ScopedId.NameOf`: the scenario fails unless the identifier splits into exactly two parts.
- The blueprint-ID split in tests/05_cleanup_test.go:39-42 is not modelled. It is a different rule again: without exactly two parts the name stays `""` (declared at line 20), with no fallback to the whole identifier.
