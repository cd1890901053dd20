/** The pure parts of a tool call around the gate: the command prelude shared by
    `aws_cli`, `azure_cli`, `gcloud_cli`, `gsutil_cli` and `bq_cli`, and the help
    tools' argument vectors and output truncation. */
module Prelude {
  import opened Text
  import opened Denylist
  import opened Gate

  /** The five command-running tools. gcloud, gsutil and bq share the GCP gate. */
  datatype Tool = Aws | Az | Gcloud | Gsutil | Bq

  function Binary(tool: Tool): string {
    match tool
    case Aws => "aws"
    case Az => "az"
    case Gcloud => "gcloud"
    case Gsutil => "gsutil"
    case Bq => "bq"
  }

  function GateFor(tool: Tool): Provider {
    match tool
    case Aws => AWS
    case Az => Azure
    case _ => GCP
  }

  /** Used when the call carries no `timeout`. */
  const DefaultTimeout: int := 30

  /** A tool call's arguments; either key may be missing. */
  datatype Request = Request(command: Option<string>, timeout: Option<int>)

  /** `arguments.get("command", "")`. */
  function CommandText(request: Request): string {
    match request.command
    case Some(c) => c
    case None => ""
  }

  /** `arguments.get("timeout", 30)`. */
  function TimeoutOf(request: Request): int {
    match request.timeout
    case Some(t) => t
    case None => DefaultTimeout
  }

  /** How the prelude ends: one of its two early error replies, or the full
      command line handed on for tokenizing and execution. */
  datatype Outcome = NoCommand | Dangerous | Run(fullCommand: string, timeout: int)

  function ErrorText(outcome: Outcome): string
    requires !outcome.Run?
  {
    match outcome
    case NoCommand => "Error: No command provided"
    case Dangerous => "Error: Command contains potentially dangerous operations"
  }

  /** Strip the command, refuse it if nothing is left, run the gate on the
      stripped text, and prefix the binary name. */
  function Prepare(tool: Tool, request: Request): (o: Outcome)
    ensures o.NoCommand? <==> AllSpace(CommandText(request))
    ensures o.Dangerous? ==> !IsSafe(GateFor(tool), Strip(CommandText(request)))
    ensures o.Run? ==> && StartsWith(o.fullCommand, Binary(tool) + " ")
                       && var argument := o.fullCommand[|Binary(tool)| + 1..];
                          && IsSafe(GateFor(tool), argument)
                          && argument == Strip(CommandText(request))
                          && |argument| > 0 && !IsSpace(argument[0])
    ensures o.Run? ==> o.timeout == TimeoutOf(request)
  {
    CommandLineParts(Binary(tool), Strip(CommandText(request)));
    Admit(tool, Strip(CommandText(request)), TimeoutOf(request))
  }

  lemma CommandLineParts(binary: string, command: string)
    ensures StartsWith(binary + " " + command, binary + " ")
    ensures (binary + " " + command)[|binary| + 1..] == command
  {
    assert (binary + " " + command)[..|binary| + 1] == binary + " ";
  }

  /** The prelude after stripping: the empty check, the gate, the binary prefix. */
  function Admit(tool: Tool, command: string, timeout: int): (o: Outcome)
    ensures o.NoCommand? <==> |command| == 0
    ensures o.Dangerous? <==> |command| > 0 && !IsSafe(GateFor(tool), command)
    ensures o.Run? ==> o.fullCommand == Binary(tool) + " " + command && o.timeout == timeout
  {
    if |command| == 0 then NoCommand
    else if !IsSafe(GateFor(tool), command) then Dangerous
    else
        Run(Binary(tool) + " " + command, timeout)
  }

  /** The gate only ever sees the stripped command: stripping beforehand changes
      nothing. */
  lemma PrepareSeesStrippedCommand(tool: Tool, command: string, timeout: Option<int>)
    ensures Prepare(tool, Request(Some(command), timeout)) == Prepare(tool, Request(Some(Strip(command)), timeout))
  {
    StripIdempotent(command);
    SameStrippedSamePrepare(tool, Request(Some(command), timeout), Request(Some(Strip(command)), timeout));
  }

  /** Requests whose commands strip to the same text and whose timeouts agree are
      prepared alike. */
  lemma SameStrippedSamePrepare(tool: Tool, r1: Request, r2: Request)
    requires Strip(CommandText(r1)) == Strip(CommandText(r2))
    requires TimeoutOf(r1) == TimeoutOf(r2)
    ensures Prepare(tool, r1) == Prepare(tool, r2)
  {
  }

  /** A missing or whitespace-only command gets the same reply from every tool,
      whatever the gate would have said. */
  lemma EmptyCommandNeverReachesGate(tool: Tool, request: Request)
    requires request.command.None? || AllSpace(request.command.value)
    ensures Prepare(tool, request) == NoCommand
  {
  }

  /** A command the gate refuses is never turned into a command line. */
  lemma RejectedCommandNeverRuns(tool: Tool, request: Request)
    requires !IsSafe(GateFor(tool), Strip(CommandText(request)))
    ensures !Prepare(tool, request).Run?
  {
  }

  /** The reply text of the two early exits: a missing or whitespace-only command
      gets "Error: No command provided"; a non-empty one the gate refuses after
      stripping gets "Error: Command contains potentially dangerous operations". */
  lemma EarlyReplies(tool: Tool, request: Request)
    ensures AllSpace(CommandText(request)) ==>
              ErrorText(Prepare(tool, request)) == "Error: No command provided"
    ensures !AllSpace(CommandText(request)) && !IsSafe(GateFor(tool), Strip(CommandText(request))) ==>
              ErrorText(Prepare(tool, request)) == "Error: Command contains potentially dangerous operations"
  {
  }

  /** gcloud, gsutil and bq accept and refuse the same commands, and on acceptance
      their command lines differ only in the binary name. */
  lemma GcpToolsDifferOnlyInBinary(t1: Tool, t2: Tool, request: Request)
    requires GateFor(t1) == GCP && GateFor(t2) == GCP
    ensures Prepare(t1, request).Run? <==> Prepare(t2, request).Run?
    ensures Prepare(t1, request).Run? ==>
              Prepare(t1, request).fullCommand[|Binary(t1)|..] == Prepare(t2, request).fullCommand[|Binary(t2)|..]
    ensures !Prepare(t1, request).Run? ==> Prepare(t1, request) == Prepare(t2, request)
  {
    var command := Strip(CommandText(request));
    assert Prepare(t1, request) == Admit(t1, command, TimeoutOf(request));
    assert Prepare(t2, request) == Admit(t2, command, TimeoutOf(request));
    AdmitSameGate(t1, t2, command, TimeoutOf(request));
  }

  lemma AdmitSameGate(t1: Tool, t2: Tool, command: string, timeout: int)
    requires GateFor(t1) == GateFor(t2)
    ensures Admit(t1, command, timeout).Run? <==> Admit(t2, command, timeout).Run?
    ensures Admit(t1, command, timeout).Run? ==>
              Admit(t1, command, timeout).fullCommand[|Binary(t1)|..] == Admit(t2, command, timeout).fullCommand[|Binary(t2)|..]
    ensures !Admit(t1, command, timeout).Run? ==> Admit(t1, command, timeout) == Admit(t2, command, timeout)
  {
    var o1 := Admit(t1, command, timeout);
    var o2 := Admit(t2, command, timeout);
    if o1.Run? {
      CommandLineSuffix(Binary(t1), command);
      CommandLineSuffix(Binary(t2), command);
    }
  }

  lemma CommandLineSuffix(binary: string, command: string)
    ensures (binary + " " + command)[|binary|..] == " " + command
  {
  }

  /** Appended after help text that was cut short. */
  const TruncationMarker: string := "\n... (truncated)"

  /** Help output longer than this many characters is cut: 2000 for AWS and
      Azure, 3000 for GCP. */
  function HelpLimit(provider: Provider): nat {
    match provider
    case AWS => 2000
    case Azure => 2000
    case GCP => 3000
  }

  /** Text within the limit comes back unchanged; longer text keeps its first
      `limit` characters followed by the marker. */
  function Truncate(text: string, limit: nat): (r: string)
    ensures |text| <= limit ==> r == text
    ensures |text| > limit ==> |r| == limit + |TruncationMarker|
    ensures |text| > limit ==> r[..limit] == text[..limit] && r[limit..] == TruncationMarker
  {
    if |text| > limit then text[..limit] + TruncationMarker else text
  }

  /** Truncating twice gives what truncating once gives. */
  lemma TruncateIdempotent(text: string, limit: nat)
    ensures Truncate(Truncate(text, limit), limit) == Truncate(text, limit)
  {
    var once := Truncate(text, limit);
    if |text| > limit {
      assert once[..limit] + TruncationMarker == once;
    }
  }

  /** The reply of a help tool: the truncated output when the CLI exits with 0,
      otherwise the CLI's error output behind a fixed prefix. */
  function HelpReply(provider: Provider, returncode: int, stdout: string, stderr: string): (r: string)
    ensures returncode == 0 ==> |r| <= HelpLimit(provider) + |TruncationMarker|
    ensures returncode == 0 && |stdout| <= HelpLimit(provider) ==> r == stdout
    ensures returncode == 0 && |stdout| > HelpLimit(provider) ==>
              r == stdout[..HelpLimit(provider)] + TruncationMarker
    ensures returncode != 0 ==> StartsWith(r, "Error getting help: ") && r[|"Error getting help: "|..] == stderr
  {
    if returncode == 0 then Truncate(stdout, HelpLimit(provider))
    else
      var r := "Error getting help: " + stderr;
      assert r[..|"Error getting help: "|] == "Error getting help: ";
      r
  }

  /** `aws [service] help`: the service slot is dropped when empty. */
  function AwsHelpArgv(service: string): (argv: seq<string>)
    ensures |argv| == if service == "" then 2 else 3
    ensures argv[0] == "aws" && argv[|argv| - 1] == "help"
    ensures forall k :: 0 <= k < |argv| ==> argv[k] != ""
    ensures service != "" ==> argv[1] == service
  {
    if service != "" then ["aws", service, "help"] else ["aws", "help"]
  }

  /** `az [service] --help`: the service slot is dropped when empty. */
  function AzureHelpArgv(service: string): (argv: seq<string>)
    ensures |argv| == if service == "" then 2 else 3
    ensures argv[0] == "az" && argv[|argv| - 1] == "--help"
    ensures forall k :: 0 <= k < |argv| ==> argv[k] != ""
    ensures service != "" ==> argv[1] == service
  {
    if service != "" then ["az", service, "--help"] else ["az", "--help"]
  }

  /** `gcloud [service [command]] --help`: a command is passed only together with
      a service; a command without a service is dropped. */
  function GcloudHelpArgv(service: string, command: string): (argv: seq<string>)
    ensures |argv| == if service == "" then 2 else if command == "" then 3 else 4
    ensures argv[0] == "gcloud" && argv[|argv| - 1] == "--help"
    ensures forall k :: 0 <= k < |argv| ==> argv[k] != ""
    ensures service != "" ==> argv[1] == service
    ensures service != "" && command != "" ==> argv[2] == command
  {
    if service != "" && command != "" then ["gcloud", service, command, "--help"]
    else if service != "" then ["gcloud", service, "--help"]
    else ["gcloud", "--help"]
  }
}
