/** The gate shared by gcloud, gsutil and bq (`_is_safe_command` in
    gcpcli_claude.py): a substring scan of the lower-cased command with a
    safe-delete exception, a leading-dash check, then a scan of the raw command for
    command-substitution and escape sequences. */
module GcpGate {
  import opened Text
  import opened Denylist

  /** The denylist, in the order the source scans it. */
  const Patterns: seq<string> := [
    "&&", "||", ";", "|", ">", "<", ">>", "<<",
    "sudo", "su", "chmod", "chown", "rm", "del",
    "eval", "exec", "system", "sh", "bash",
    "delete", "destroy", "remove", "terminate",
    "mv", "cp", "move", "copy",
    "curl", "wget", "ssh", "scp", "rsync"
  ]

  const DelIndex: nat := 13

  /** The only `delete` in the list, the one entry the safe-delete exception names. */
  const DeleteIndex: nat := 19

  /** Substrings whose presence was meant to let a `delete` through. */
  const SafeDeleteContexts: seq<string> := [
    "instances list", "projects list", "images list",
    "disks list", "snapshots list", "--dry-run", "--help"
  ]

  /** Sequences refused in the command as given (not lower-cased). */
  const Suspicious: seq<string> := ["$(", "`", "${", "\\", "&&", "||"]

  predicate InSafeDeleteContext(lower: string) {
    exists k :: 0 <= k < |SafeDeleteContexts| && Contains(lower, SafeDeleteContexts[k])
  }

  /** `pattern == "delete"` picks out exactly the entry at `DeleteIndex`. */
  lemma OnlyDeleteEntry(j: nat)
    requires j < |Patterns|
    ensures Patterns[j] == "delete" <==> j == DeleteIndex
  {
  }

  /** The source's denylist loop, `continue` included: a match on `delete` is
      skipped when a safe-delete context occurs; any other match stops the scan.
      Started anywhere up to `del`, or on a text without `delete`, the exception
      never fires and the loop is the plain first-match scan. */
  function ScanWithDeleteException(lower: string, from: nat): (r: Option<nat>)
    requires from <= |Patterns|
    ensures from <= DelIndex || !Contains(lower, "delete") ==> r == Scan(Patterns, lower, from)
  {
    DeleteEntryContainsDel();
    if from <= DelIndex || !Contains(lower, Patterns[DeleteIndex]) then
      ShadowedExceptionInert(Patterns, lower, from, DeleteIndex, InSafeDeleteContext(lower), DelIndex);
      ScanExcept(Patterns, lower, from, DeleteIndex, InSafeDeleteContext(lower))
    else
      ScanExcept(Patterns, lower, from, DeleteIndex, InSafeDeleteContext(lower))
  }

  /** `del` is scanned before `delete` and is a substring of it. */
  lemma DeleteContainsDel(lower: string)
    requires Contains(lower, "delete")
    ensures Contains(lower, Patterns[DelIndex])
  {
    DeleteEntryContainsDel();
    ContainsTransitive(lower, "delete", "del");
  }

  lemma DeleteEntryContainsDel()
    ensures Patterns[DeleteIndex] == "delete" && Patterns[DelIndex] == "del"
    ensures Contains(Patterns[DeleteIndex], Patterns[DelIndex])
  {
    var w := "delete";
    assert w[0..3] == "del";
    ContainsWitness(w, "del", 0);
  }

  /** The plain scan never reaches `delete`: whenever `delete` occurs the scan has
      stopped at `del` or earlier. */
  lemma DeleteNeverReached(lower: string)
    requires Contains(lower, "delete")
    ensures Scan(Patterns, lower, 0).Some?
    ensures Scan(Patterns, lower, 0).value <= DelIndex
  {
    DeleteContainsDel(lower);
  }

  /** Seven entries can never be the pattern the scan stops at, each shadowed by a
      substring of it listed earlier: `>>` by `>`, `<<` by `<`, `bash` and `ssh`
      by `sh`, `delete` by `del`, `terminate` by `rm`, `scp` by `cp`. */
  lemma ShadowedPatternNeverFirst(lower: string, j: nat)
    requires j in {6, 7, 18, 19, 22, 29, 30}
    ensures Scan(Patterns, lower, 0) != Some(j)
  {
    if j == 6 {
      ShadowedBy(lower, 4, ">", 6, ">>", 0);
    } else if j == 7 {
      ShadowedBy(lower, 5, "<", 7, "<<", 0);
    } else if j == 18 {
      ShadowedBy(lower, 17, "sh", 18, "bash", 2);
    } else if j == 19 {
      ShadowedBy(lower, 13, "del", 19, "delete", 0);
    } else if j == 22 {
      ShadowedBy(lower, 12, "rm", 22, "terminate", 2);
    } else if j == 29 {
      ShadowedBy(lower, 17, "sh", 29, "ssh", 1);
    } else {
      ShadowedBy(lower, 24, "cp", 30, "scp", 1);
    }
  }

  lemma ShadowedBy(lower: string, i: nat, short: string, j: nat, long: string, at: nat)
    requires i < j < |Patterns| && Patterns[i] == short && Patterns[j] == long
    requires MatchAt(long, short, at)
    ensures Scan(Patterns, lower, 0) != Some(j)
  {
    ContainsWitness(long, short, at);
    ShadowedNeverFirst(Patterns, lower, i, j);
  }

  /** The gate with the check that fired recorded. */
  function Evaluate(command: string): (v: Verdict)
    ensures v.Rejected? && v.reason.DeniedPattern? ==> IsFirstMatch(Patterns, Lower(command), v.reason.pattern)
    ensures v == Rejected(LeadingDash) <==> NoneOccur(Patterns, Lower(command)) && StartsWith(command, "-")
    ensures v.Rejected? && v.reason.SuspiciousSequence? ==>
              && NoneOccur(Patterns, Lower(command)) && !StartsWith(command, "-")
              && IsFirstMatch(Suspicious, command, v.reason.chars)
    ensures v.Rejected? ==> !v.reason.DeleteWord?
  {
    ScanFromStart(Patterns, Lower(command));
    ScanFromStart(Suspicious, command);
    DoubleDashIsDash(command);
    Decide(ScanWithDeleteException(Lower(command), 0),
           StartsWith(command, "-") || StartsWith(command, "--"),
           Scan(Suspicious, command, 0))
  }

  /** The order of the three checks, given their outcomes: the denylist first, then
      the leading dash, then the suspicious sequences. */
  function Decide(denied: Option<nat>, dash: bool, suspicious: Option<nat>): Verdict
    requires denied.Some? ==> denied.value < |Patterns|
    requires suspicious.Some? ==> suspicious.value < |Suspicious|
  {
    match denied
    case Some(i) => Rejected(DeniedPattern(Patterns[i]))
    case None =>
      if dash then Rejected(LeadingDash)
      else match suspicious
        case Some(k) => Rejected(SuspiciousSequence(Suspicious[k]))
        case None => Allowed
  }

  /** `_is_safe_command`: accepted exactly when no denylisted pattern occurs in the
      lower-cased command, it does not start with a dash, and no suspicious
      sequence occurs in it. */
  function IsSafeCommand(command: string): (safe: bool)
    ensures safe <==> && NoneOccur(Patterns, Lower(command))
                      && !StartsWith(command, "-")
                      && NoneOccur(Suspicious, command)
  {
    ScanFromStart(Patterns, Lower(command));
    ScanFromStart(Suspicious, command);
    Evaluate(command).Allowed?
  }

  /** Every command mentioning `delete` is refused, whatever safe-delete context it
      carries, and `delete` is never the pattern reported for it. */
  lemma DeleteAlwaysRejected(command: string)
    requires Contains(Lower(command), "delete")
    ensures !IsSafeCommand(command)
    ensures Evaluate(command) != Rejected(DeniedPattern("delete"))
  {
    DeleteNeverReached(Lower(command));
    EarlyPatternsShort(Scan(Patterns, Lower(command), 0).value);
  }

  /** Every pattern up to `del` is shorter than `delete`. */
  lemma EarlyPatternsShort(i: nat)
    requires i <= DelIndex
    ensures |Patterns[i]| < |"delete"|
  {
  }

  /** Command substitution, variable expansion and backslash escapes are refused. */
  lemma SubstitutionRejected(command: string, marker: string)
    requires marker in ["$(", "`", "${", "\\"]
    requires Contains(command, marker)
    ensures !IsSafeCommand(command)
  {
    assert marker == Suspicious[0] || marker == Suspicious[1] || marker == Suspicious[2] || marker == Suspicious[3];
  }

  /** Any listed pattern found in the lower-cased command refuses it. */
  lemma ListedPatternRejected(command: string, j: nat)
    requires j < |Patterns| && Contains(Lower(command), Patterns[j])
    ensures !IsSafeCommand(command)
  {
  }
}
