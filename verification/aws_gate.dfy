/** The AWS CLI gate (`_is_safe_command` in awscli_claude.py): a substring scan of
    the lower-cased command over one denylist, then a leading-dash check. */
module AwsGate {
  import opened Text
  import opened Denylist

  /** The denylist, in the order the source scans it. */
  const Patterns: seq<string> := [
    "rm", "delete", "destroy", "terminate",
    "&&", "||", ";", "|", ">", "<",
    "sudo", "su", "chmod", "chown",
    "eval", "exec", "system"
  ]

  /** The gate with the check that fired recorded: the first denylisted pattern
      found in the lower-cased command, else a leading dash on the command as given. */
  function Evaluate(command: string): (v: Verdict)
    ensures v.Rejected? ==> v.reason.DeniedPattern? || v.reason == LeadingDash
    ensures v.Rejected? && v.reason.DeniedPattern? ==> IsFirstMatch(Patterns, Lower(command), v.reason.pattern)
    ensures v == Rejected(LeadingDash) <==> NoneOccur(Patterns, Lower(command)) && StartsWith(command, "-")
  {
    ScanFromStart(Patterns, Lower(command));
    DoubleDashIsDash(command);
    match Scan(Patterns, Lower(command), 0)
    case Some(i) => Rejected(DeniedPattern(Patterns[i]))
    case None =>
      if StartsWith(command, "-") || StartsWith(command, "--") then Rejected(LeadingDash)
      else Allowed
  }

  /** `_is_safe_command`: nothing else is checked beyond the denylist and the dash. */
  function IsSafeCommand(command: string): (safe: bool)
    ensures safe <==> NoneOccur(Patterns, Lower(command)) && !StartsWith(command, "-")
  {
    Evaluate(command).Allowed?
  }

  /** The four destructive verbs are matched anywhere, even inside a longer word:
      `cloudformation` contains `rm`. */
  lemma DestructiveVerbRejected(command: string, verb: string)
    requires verb in ["rm", "delete", "destroy", "terminate"]
    requires Contains(Lower(command), verb)
    ensures !IsSafeCommand(command)
  {
    assert verb == Patterns[0] || verb == Patterns[1] || verb == Patterns[2] || verb == Patterns[3];
  }

  /** Hence every CloudFormation command is turned away. */
  lemma CloudFormationRejected(command: string)
    requires Contains(Lower(command), "cloudformation")
    ensures !IsSafeCommand(command)
  {
    var w := "cloudformation";
    assert w[7..9] == "rm";
    ContainsWitness(w, "rm", 7);
    ContainsTransitive(Lower(command), w, "rm");
    DestructiveVerbRejected(command, "rm");
  }

  /** `terminate` is never the pattern reported: `rm`, listed first, occurs in it. */
  lemma TerminateNeverFirst(lower: string)
    ensures Scan(Patterns, lower, 0) != Some(3)
  {
    var t := "terminate";
    assert Patterns[0] == "rm" && Patterns[3] == t;
    assert MatchAt(t, "rm", 2);
    ContainsWitness(t, "rm", 2);
    ShadowedNeverFirst(Patterns, lower, 0, 3);
  }

  /** Any listed pattern found in the lower-cased command refuses it. */
  lemma ListedPatternRejected(command: string, j: nat)
    requires j < |Patterns| && Contains(Lower(command), Patterns[j])
    ensures !IsSafeCommand(command)
  {
  }

  /** Every character of every pattern is a lower-case letter, a shell operator
      character or a space. */
  lemma PatternAlphabet()
    ensures WithinAlphabet(Patterns, ShellSymbols)
  {
  }
}
