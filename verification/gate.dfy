/** The three gates behind one provider-indexed interface, and the properties
    they share or on which they differ. */
module Gate {
  import opened Text
  import opened Denylist
  import AwsGate
  import AzureGate
  import GcpGate

  /** GCP covers gcloud, gsutil and bq, which share one gate. */
  datatype Provider = AWS | Azure | GCP

  function Evaluate(provider: Provider, command: string): Verdict {
    match provider
    case AWS => AwsGate.Evaluate(command)
    case Azure => AzureGate.Evaluate(command)
    case GCP => GcpGate.Evaluate(command)
  }

  predicate IsSafe(provider: Provider, command: string) {
    match provider
    case AWS => AwsGate.IsSafeCommand(command)
    case Azure => AzureGate.IsSafeCommand(command)
    case GCP => GcpGate.IsSafeCommand(command)
  }

  const ShellOperators: seq<string> := ["&&", "||", ";", "|", ">", "<", ">>", "<<"]

  /** Every shell operator is refused by every gate, in any position. AWS and Azure
      do not list `>>` and `<<`, but they list `>` and `<`, which occur in them. */
  lemma ShellOperatorRejected(provider: Provider, command: string, op: string)
    requires op in ShellOperators
    requires Contains(command, op)
    ensures !IsSafe(provider, command)
  {
    var k :| 0 <= k < |ShellOperators| && ShellOperators[k] == op;
    OperatorsLetterless(k);
    ContainsLowerLetterless(command, op);
    if provider == GCP {
      GcpListsOperators(k);
      GcpGate.ListedPatternRejected(command, k);
    } else {
      var basic := BasicOperator(Lower(command), k);
      AwsAzureListOperators(basic);
      if provider == AWS {
        AwsGate.ListedPatternRejected(command, basic + 4);
      } else {
        AzureGate.ListedPatternRejected(command, basic + 4);
      }
    }
  }

  lemma OperatorsLetterless(k: nat)
    requires k < |ShellOperators|
    ensures Letterless(ShellOperators[k])
  {
  }

  /** `>>` and `<<` are caught by the `>` and `<` they start with. */
  lemma BasicOperator(lower: string, k: nat) returns (basic: nat)
    requires k < |ShellOperators| && Contains(lower, ShellOperators[k])
    ensures basic < 6 && Contains(lower, ShellOperators[basic])
  {
    basic := if k < 6 then k else k - 2;
    if basic != k {
      var op := ShellOperators[k];
      assert op[0..1] == ShellOperators[basic];
      ContainsWitness(op, ShellOperators[basic], 0);
      ContainsTransitive(lower, op, ShellOperators[basic]);
    }
  }

  lemma GcpListsOperators(k: nat)
    requires k < |ShellOperators|
    ensures GcpGate.Patterns[k] == ShellOperators[k]
  {
  }

  lemma AwsAzureListOperators(k: nat)
    requires k < 6
    ensures AwsGate.Patterns[k + 4] == ShellOperators[k]
    ensures AzureGate.Patterns[k + 4] == ShellOperators[k]
  {
  }

  /** A command starting with `-` is refused by every gate. */
  lemma LeadingDashRejected(provider: Provider, command: string)
    requires StartsWith(command, "-")
    ensures !IsSafe(provider, command)
  {
  }

  /** Every gate gives the same verdict, reason included, for a command and for its
      ASCII lower-cased form. */
  lemma VerdictIgnoresCase(provider: Provider, command: string)
    ensures Evaluate(provider, Lower(command)) == Evaluate(provider, command)
  {
    LowerIdempotent(command);
    StartsWithLowerLetterless(command, "-");
    StartsWithLowerLetterless(command, "--");
    match provider
    case AWS =>
    case Azure =>
    case GCP => GcpIgnoresCase(command);
  }

  lemma GcpIgnoresCase(command: string)
    requires Lower(Lower(command)) == Lower(command)
    requires StartsWith(Lower(command), "-") <==> StartsWith(command, "-")
    requires StartsWith(Lower(command), "--") <==> StartsWith(command, "--")
    ensures GcpGate.Evaluate(Lower(command)) == GcpGate.Evaluate(command)
  {
    SuspiciousLetterless();
    ScanIgnoresCaseOfLetterless(GcpGate.Suspicious, command);
  }

  lemma SuspiciousLetterless()
    ensures forall j :: 0 <= j < |GcpGate.Suspicious| ==> Letterless(GcpGate.Suspicious[j])
  {
  }

  /** AWS refuses `rm` anywhere, even inside a word; Azure only refuses `rm `
      followed by a space. So `format` is refused by AWS and accepted by Azure. */
  lemma RmInsideWordSplitsAwsFromAzure()
    ensures !IsSafe(AWS, "format")
    ensures IsSafe(Azure, "format")
  {
    var w := "format";
    LowerFixesLowercase(w);
    AzureGate.FormatPassesDenylist();
    assert w[2..4] == "rm";
    ContainsWitness(w, "rm", 2);
    AwsGate.DestructiveVerbRejected(w, "rm");
  }

  /** A refused command stays refused whatever is appended to it. */
  lemma RejectionSurvivesAppend(provider: Provider, command: string, suffix: string)
    requires !IsSafe(provider, command)
    ensures !IsSafe(provider, command + suffix)
  {
    LowerAppend(command, suffix);
    if StartsWith(command, "-") {
      StartsWithAppend(command, suffix, "-");
    }
    match provider
    case AWS =>
      if !NoneOccur(AwsGate.Patterns, Lower(command)) {
        OccurrenceSurvivesAppend(AwsGate.Patterns, Lower(command), Lower(suffix));
      }
    case Azure =>
      if !NoneOccur(AzureGate.Patterns, Lower(command)) {
        OccurrenceSurvivesAppend(AzureGate.Patterns, Lower(command), Lower(suffix));
      }
    case GCP =>
      if !NoneOccur(GcpGate.Patterns, Lower(command)) {
        OccurrenceSurvivesAppend(GcpGate.Patterns, Lower(command), Lower(suffix));
      }
      if !NoneOccur(GcpGate.Suspicious, command) {
        OccurrenceSurvivesAppend(GcpGate.Suspicious, command, suffix);
      }
  }

  const SubstitutionMarkers: seq<string> := ["$(", "`", "${", "\\"]

  /** Only the GCP gate looks for command substitution, variable expansion and
      backslashes: appending one of these markers to a command refuses it under
      GCP and leaves the AWS and Azure verdicts as they were. */
  lemma SubstitutionMarkerOnlySeenByGcp(provider: Provider, command: string, marker: string)
    requires marker in SubstitutionMarkers
    ensures provider == GCP ==> !IsSafe(provider, command + marker)
    ensures provider != GCP ==> (IsSafe(provider, command + marker) <==> IsSafe(provider, command))
  {
    var extended := command + marker;
    if provider == GCP {
      ContainsWitness(extended, marker, |command|);
      GcpGate.SubstitutionRejected(extended, marker);
    } else {
      if |command| > 0 {
        assert extended[..1] == command[..1];
      } else {
        assert extended == marker;
      }
      MarkerLower(marker);
      LowerAppend(command, marker);
      if provider == AWS {
        AwsGate.PatternAlphabet();
        ForeignMarker(AwsGate.Patterns, marker);
        ForeignSuffixInvisible(AwsGate.Patterns, Lower(command), marker);
      } else {
        AzureGate.PatternAlphabet();
        ForeignMarker(AzureGate.Patterns, marker);
        ForeignSuffixInvisible(AzureGate.Patterns, Lower(command), marker);
      }
    }
  }

  lemma MarkerLower(marker: string)
    requires marker in SubstitutionMarkers
    ensures Lower(marker) == marker
  {
    LowerMatchesLetterless(marker, marker);
  }

  /** No character of a substitution marker occurs in a list of patterns made of
      lower-case letters and shell symbols. */
  lemma ForeignMarker(patterns: seq<string>, marker: string)
    requires WithinAlphabet(patterns, ShellSymbols)
    requires marker in SubstitutionMarkers
    ensures forall j, k :: 0 <= j < |patterns| && 0 <= k < |marker| ==> marker[k] !in patterns[j]
  {
    forall j, k, i | 0 <= j < |patterns| && 0 <= k < |marker| && 0 <= i < |patterns[j]|
      ensures patterns[j][i] != marker[k]
    {
    }
  }

  /** Appending characters that no pattern uses cannot make a pattern occur. */
  lemma ForeignSuffixInvisible(patterns: seq<string>, text: string, suffix: string)
    requires forall j, k :: 0 <= j < |patterns| && 0 <= k < |suffix| ==> suffix[k] !in patterns[j]
    ensures NoneOccur(patterns, text + suffix) <==> NoneOccur(patterns, text)
  {
    forall j | 0 <= j < |patterns| ensures Contains(text + suffix, patterns[j]) <==> Contains(text, patterns[j]) {
      if |patterns[j]| > 0 {
        ContainsAppendForeign(text, suffix, patterns[j]);
      } else {
        assert StartsWith(text, patterns[j]) && StartsWith(text + suffix, patterns[j]);
      }
    }
  }
}
