# Command-safety gate of the cloud CLI tool servers

Three tool servers expose the AWS, Azure and Google Cloud command-line tools to a
language-model client. Before a command runs, each server passes it through its
own `_is_safe_command` gate. The gate lower-cases the command (ASCII) and scans a
denylist in order, stopping at the first pattern that occurs as a substring. It
then refuses a leading dash. The Azure gate adds a whole-word `delete` check. The
GCP gate adds a scan of the raw command for command-substitution and escape
sequences.

Around the gate the project models:

- the request prelude: strip the command, refuse an empty one, run the gate, and
  prefix the binary name (`aws`, `az`, `gcloud`, `gsutil` or `bq`);
- the argument vectors built for the help tools;
- the truncation of help output.

Modules, one per file:

- `Text` (text.dfy) has the string primitives the gates use: Python's
  `str.strip()` with its whitespace set, ASCII `lower()`, `startswith`,
  `endswith` and the substring test `p in s`.
- `Denylist` (denylist.dfy) has the in-order first-match scan shared by all
  gates, the variant with one conditionally excused entry, and the `Verdict`
  type.
- `AwsGate`, `AzureGate` and `GcpGate` hold one gate each, with its pattern
  lists in source order.
- `Gate` (gate.dfy) dispatches on a `Provider` (`AWS | Azure | GCP`; gcloud,
  gsutil and bq share the GCP gate). It holds the properties that compare the
  gates.
- `Prelude` (prelude.dfy) has the request prelude, help argv construction and
  help truncation.

Each gate is an `Evaluate` function that returns `Allowed` or
`Rejected(reason)`. The reason records which `return False` fired, which the
source only logs. `IsSafeCommand` is `Evaluate(..).Allowed?` and is the bool the
source returns.

The model exposes three quirks of the code, proved as facts about the gates as
written:

- **GCP.** `del` is scanned before `delete`, and is a substring of it. So the
  safe-delete `continue` (for `instances list`, `--dry-run`, `--help`, …) can
  never fire. Every command mentioning `delete` is refused. The comment at
  gcpcli_claude.py:496 says safe delete operations are allowed, but the code
  never allows one. The model follows the code.
- **Azure.** The whole-word ` delete ` check is dead: the plain `delete` entry
  at the head of the list always matches first. The six compound `… delete`
  entries are never the first match either.
- **AWS.** `rm` is matched inside any word, so `format` and every
  `cloudformation` command are refused. Azure lists `rm ` with a trailing
  space. Only GCP refuses `$(`, backticks, `${` and backslashes.

## Model

| member | source | states |
|---|---|---|
| Text.Strip | awscli_claude.py:109 | the stripped text sits inside the input with only Python whitespace on either side and starts and ends with a non-space; it is empty exactly when the input is all whitespace |
| Text.StripIdempotent | gcpcli_claude.py:165 | stripping an already stripped command changes nothing |
| Text.Lower | awscli_claude.py:297 | lower-casing keeps the length and maps each position independently, A-Z to a-z and every other character to itself |
| Text.LowerIdempotent | gcpcli_claude.py:491 | lower-casing a lower-cased command changes nothing |
| Text.LowerAppend | awscli_claude.py:297 | lower-casing distributes over concatenation |
| Text.ContainsAt | awscli_claude.py:300 | the substring test `p in s` holds exactly when `p` occurs at some index of `s` |
| Text.ContainsTransitive | gcpcli_claude.py:481-484 | a substring of an occurring substring occurs too |
| Text.ContainsAppendForeign | gcpcli_claude.py:511-513 | appending characters a pattern does not use cannot create or destroy an occurrence of it |
| Text.ContainsLowerLetterless | gcpcli_claude.py:511-513 | a pattern with no ASCII letter occurs in the lower-cased text exactly when it occurs in the text |
| Text.LowerFixesLowercase | azurecli_claude.py:367 | text without upper-case letters is its own lower-cased form |
| Denylist.Scan | awscli_claude.py:299-303 | the scan returns the first listed pattern that occurs at or after the start index, or nothing when none occurs |
| Denylist.ScanFromStart | azurecli_claude.py:370-373 | a full scan finds nothing exactly when no listed pattern occurs, and otherwise reports the first occurring pattern in list order |
| Denylist.ShadowedNeverFirst | gcpcli_claude.py:477-489 | an entry listed after one of its own substrings is never where the scan stops |
| Denylist.ScanExcept | gcpcli_claude.py:494-503 | the scan with one excused entry stops at the first occurring entry that is not excused, and every occurring entry it passes is the excused one |
| Denylist.ShadowedExceptionInert | gcpcli_claude.py:494-503 | excusing an entry that contains an earlier entry gives the same result as the plain scan |
| Denylist.ScanCongruent | gcpcli_claude.py:512-513 | two texts in which the same patterns occur are scanned alike |
| Denylist.OccurrenceSurvivesAppend | awscli_claude.py:299-303 | once some listed pattern occurs in a text, it still occurs after anything is appended |
| Denylist.ScanIgnoresCaseOfLetterless | gcpcli_claude.py:511-515 | a scan over letterless patterns gives the same result on the text and its lower-cased form |
| AwsGate.Evaluate | awscli_claude.py:287-310 | a denylist rejection names the first occurring pattern of the lower-cased command; a leading-dash rejection happens exactly when no pattern occurs and the command starts with `-`; no other reason is given |
| AwsGate.IsSafeCommand | awscli_claude.py:287-310 | accepted exactly when no listed pattern occurs in the lower-cased command and it does not start with `-` |
| AwsGate.DestructiveVerbRejected | awscli_claude.py:290-303 | a command containing `rm`, `delete`, `destroy` or `terminate` in any case, even inside a longer word, is refused |
| AwsGate.CloudFormationRejected | awscli_claude.py:291 | every command mentioning `cloudformation` is refused, because it contains `rm` |
| AwsGate.TerminateNeverFirst | awscli_claude.py:291 | `terminate` is never the pattern reported, because `rm` occurs in it and is listed first |
| AwsGate.ListedPatternRejected | awscli_claude.py:290-303 | any listed pattern occurring in the lower-cased command refuses it |
| AzureGate.Evaluate | azurecli_claude.py:353-385 | a denylist rejection names the first occurring pattern; a leading-dash rejection happens exactly when no pattern occurs and the command starts with `-`; there is never a suspicious-sequence rejection |
| AzureGate.HasDeleteWord | azurecli_claude.py:381 | ` delete ` occurs in the lower-cased command or it ends with ` delete` |
| AzureGate.DeleteWordContainsDelete | azurecli_claude.py:357-381 | any text the whole-word check matches contains the plain `delete` entry |
| AzureGate.DeleteWordCheckIsDead | azurecli_claude.py:381-383 | the whole-word ` delete ` check never decides a verdict |
| AzureGate.IsSafeCommand | azurecli_claude.py:353-385 | accepted exactly when no listed pattern occurs in the lower-cased command and it does not start with `-` |
| AzureGate.CompoundPatternsNeverFirst | azurecli_claude.py:362-365 | the scan never stops at one of the six compound `… delete` entries |
| AzureGate.DestructiveVerbRejected | azurecli_claude.py:357 | a command containing `delete`, `remove`, `destroy` or `purge` in any case is refused |
| AzureGate.ListedPatternRejected | azurecli_claude.py:356-373 | any listed pattern occurring in the lower-cased command refuses it |
| AzureGate.FormatPassesDenylist | azurecli_claude.py:360 | no Azure entry occurs in `format`, since `rm` is listed only with a trailing space |
| GcpGate.OnlyDeleteEntry | gcpcli_claude.py:497 | the test `pattern == "delete"` holds for exactly one list position |
| GcpGate.DeleteNeverReached | gcpcli_claude.py:481-484 | whenever `delete` occurs, the plain scan stops at `del` or earlier |
| GcpGate.InSafeDeleteContext | gcpcli_claude.py:497-500 | one of the seven safe-delete contexts (`instances list`, `projects list`, `images list`, `disks list`, `snapshots list`, `--dry-run`, `--help`) occurs in the lower-cased command |
| GcpGate.ScanWithDeleteException | gcpcli_claude.py:494-503 | the loop with the safe-delete `continue`, started anywhere up to `del` (in particular over the whole list), returns exactly what the plain first-match scan returns: the exception never fires |
| GcpGate.ShadowedPatternNeverFirst | gcpcli_claude.py:479-489 | `>>`, `<<`, `bash`, `delete`, `terminate`, `ssh` and `scp` are never the pattern the scan stops at |
| GcpGate.Evaluate | gcpcli_claude.py:474-517 | a denylist rejection names the first occurring pattern; a dash rejection happens exactly when no pattern occurs and the command starts with `-`; a suspicious-sequence rejection names the first occurring sequence of the raw command and happens only after both earlier checks pass |
| GcpGate.IsSafeCommand | gcpcli_claude.py:474-517 | accepted exactly when no listed pattern occurs in the lower-cased command, it does not start with `-`, and no suspicious sequence occurs in it |
| GcpGate.DeleteAlwaysRejected | gcpcli_claude.py:494-503 | every command containing `delete` in any case is refused, whatever safe-delete context it carries, and `delete` is never the reason given |
| GcpGate.SubstitutionRejected | gcpcli_claude.py:511-515 | a command containing `$(`, a backtick, `${` or a backslash is refused |
| GcpGate.ListedPatternRejected | gcpcli_claude.py:477-503 | any listed pattern occurring in the lower-cased command refuses it |
| Gate.ShellOperatorRejected | gcpcli_claude.py:479 | a command containing any of the eight shell operators (the two logical operators, the semicolon, the pipe and the four redirections) is refused by all three gates |
| Gate.LeadingDashRejected | gcpcli_claude.py:506-508 | a command starting with `-` is refused by all three gates |
| Gate.VerdictIgnoresCase | gcpcli_claude.py:491-515 | every gate gives the same verdict, reason included, for a command and for its lower-cased form |
| Gate.RejectionSurvivesAppend | awscli_claude.py:299-308 | a command any gate refuses stays refused whatever is appended to it |
| Gate.SubstitutionMarkerOnlySeenByGcp | gcpcli_claude.py:511-515 | appending `$(`, a backtick, `${` or a backslash to any command makes GCP refuse it and leaves the AWS and Azure verdicts unchanged |
| Gate.RmInsideWordSplitsAwsFromAzure | azurecli_claude.py:360 | AWS refuses `format`, because `rm` occurs in it, and Azure accepts it |
| Prelude.Prepare | awscli_claude.py:109-126 | no command is reported exactly when the command is all whitespace; a refusal means the gate refused the stripped command; a run line is the binary, a space and the stripped command, which the gate accepted, with the requested or default timeout |
| Prelude.EarlyReplies | awscli_claude.py:112-123 | a missing or whitespace-only command gets the reply "Error: No command provided"; a non-empty one whose stripped form the gate refuses gets "Error: Command contains potentially dangerous operations" |
| Prelude.PrepareSeesStrippedCommand | awscli_claude.py:109-119 | stripping the command beforehand does not change the outcome |
| Prelude.EmptyCommandNeverReachesGate | gcpcli_claude.py:165-172 | a missing or whitespace-only command gets the no-command reply from every tool, whatever the gate would say |
| Prelude.RejectedCommandNeverRuns | gcpcli_claude.py:175-182 | a command the gate refuses never becomes a command line |
| Prelude.GcpToolsDifferOnlyInBinary | gcpcli_claude.py:162-250 | gcloud, gsutil and bq accept and refuse the same commands, and their accepted command lines differ only in the binary name |
| Prelude.Truncate | gcpcli_claude.py:449-451 | text within the limit is returned unchanged; longer text becomes its first `limit` characters followed by the truncation marker |
| Prelude.TruncateIdempotent | azurecli_claude.py:274-276 | truncating truncated help text changes nothing |
| Prelude.HelpReply | awscli_claude.py:260-274 | on success the reply is the output itself when it fits the provider limit (2000 for AWS and Azure, 3000 for GCP), and otherwise its first `limit` characters followed by the truncation marker, so never longer than the limit plus the marker; on failure it is the error output behind `Error getting help: ` |
| Prelude.AwsHelpArgv | awscli_claude.py:244-247 | `aws [service] help`: the service appears exactly when it is non-empty, and no argument is empty |
| Prelude.AzureHelpArgv | azurecli_claude.py:256-259 | `az [service] --help`: the service appears exactly when it is non-empty, and no argument is empty |
| Prelude.GcloudHelpArgv | gcpcli_claude.py:429-434 | `gcloud [service [command]] --help`: a command is passed only together with a non-empty service, and no argument is empty |

## Left out

- Tokenizing with `shlex.split`, spawning the process, the `asyncio` timeouts and
  `communicate()`: these are library calls and operating-system work. The
  model ends at the full command line and the timeout value handed on. The
  fixed help-command timeouts (10 s for AWS and Azure, 15 s for GCP) are left
  out for the same reason.
- Formatting of the executed command's output and exit code: it only
  concatenates process results.
- UTF-8 decoding of process output: help output is taken as already-decoded
  text.
- Python's Unicode `str.lower()`: lower-casing is modelled for ASCII A-Z only,
  and every other character is kept as it is.
- The authentication, configuration and version probes: these are sequences of
  subprocess calls and JSON parsing.
- The tool-server wiring (tool schemas, dispatch, `run`/`main`): this is
  framework glue.
- awscli_mcp.py: a web app with no gate. setup.py: packaging metadata.
  Neither is part of this model.
- The logging inside the gates: it has no effect on the verdict. The model
  records the logged reason in `Verdict` instead.
- Argument values that are not strings, and the exception handlers that turn
  their errors into `Error executing command: …` or `Error getting help: …`
  replies: `Request` only carries an optional string command and an optional
  integer timeout.
