/** The Azure CLI gate (`_is_safe_command` in azurecli_claude.py): a substring scan
    of the lower-cased command over one denylist, a leading-dash check, then a
    whole-word `delete` check. */
module AzureGate {
  import opened Text
  import opened Denylist

  /** The denylist, in the order the source scans it. */
  const Patterns: seq<string> := [
    "delete", "remove", "destroy", "purge",
    "&&", "||", ";", "|", ">", "<",
    "sudo", "su", "chmod", "chown",
    "eval", "exec", "system", "rm ",
    "deployment delete", "group delete",
    "vm delete", "disk delete",
    "keyvault delete", "storage delete"
  ]

  /** Index of the first Azure-specific compound pattern (`deployment delete`). */
  const FirstCompound: nat := 18

  /** The last check: `" delete " in command_lower or command_lower.endswith(" delete")`. */
  predicate HasDeleteWord(lower: string) {
    Contains(lower, " delete ") || EndsWith(lower, " delete")
  }

  /** The gate with the check that fired recorded. */
  function Evaluate(command: string): (v: Verdict)
    ensures v.Rejected? && v.reason.DeniedPattern? ==> IsFirstMatch(Patterns, Lower(command), v.reason.pattern)
    ensures v == Rejected(LeadingDash) <==> NoneOccur(Patterns, Lower(command)) && StartsWith(command, "-")
    ensures v.Rejected? ==> !v.reason.SuspiciousSequence?
  {
    ScanFromStart(Patterns, Lower(command));
    DoubleDashIsDash(command);
    match Scan(Patterns, Lower(command), 0)
    case Some(i) => Rejected(DeniedPattern(Patterns[i]))
    case None =>
      if StartsWith(command, "-") || StartsWith(command, "--") then Rejected(LeadingDash)
      else if HasDeleteWord(Lower(command)) then Rejected(DeleteWord)
      else Allowed
  }

  /** Any text with a whole-word ` delete` in it contains the plain pattern `delete`. */
  lemma DeleteWordContainsDelete(lower: string)
    requires HasDeleteWord(lower)
    ensures Contains(lower, Patterns[0])
  {
    var w := " delete ";
    assert w[1..7] == "delete";
    ContainsWitness(w, "delete", 1);
    if Contains(lower, w) {
      ContainsTransitive(lower, w, "delete");
    } else {
      EndsWithContains(lower, " delete");
      var e := " delete";
      assert e[1..7] == "delete";
      ContainsWitness(e, "delete", 1);
      ContainsTransitive(lower, e, "delete");
    }
  }

  /** The whole-word delete check never fires: every input it would reject has
      already been rejected by the `delete` entry at the head of the denylist. */
  lemma DeleteWordCheckIsDead(command: string)
    ensures Evaluate(command) != Rejected(DeleteWord)
  {
    if HasDeleteWord(Lower(command)) {
      DeleteWordContainsDelete(Lower(command));
    }
  }

  /** `_is_safe_command`: the denylist and the dash check decide alone. There is
      no check for `$(`, backticks or backslashes. */
  function IsSafeCommand(command: string): (safe: bool)
    ensures safe <==> NoneOccur(Patterns, Lower(command)) && !StartsWith(command, "-")
  {
    DeleteWordCheckIsDead(command);
    Evaluate(command).Allowed?
  }

  /** Each compound pattern contains `delete`. */
  lemma CompoundContainsDelete(j: nat)
    requires FirstCompound <= j < |Patterns|
    ensures Contains(Patterns[j], "delete")
  {
    var p := Patterns[j];
    var at := if j == 18 then 11 else if j == 19 then 6 else if j == 20 then 3
              else if j == 21 then 5 else if j == 22 then 9 else 8;
    assert p[at..at + 6] == "delete";
    ContainsWitness(p, "delete", at);
  }

  /** The six Azure-specific `... delete` patterns are never the reason reported,
      because the plain `delete` at the head of the list matches first. */
  lemma CompoundPatternsNeverFirst(lower: string)
    ensures Scan(Patterns, lower, 0).Some? ==> Scan(Patterns, lower, 0).value < FirstCompound
  {
    var r := Scan(Patterns, lower, 0);
    if r.Some? && r.value >= FirstCompound {
      CompoundContainsDelete(r.value);
      ContainsTransitive(lower, Patterns[r.value], "delete");
      assert false;
    }
  }

  /** `delete`, `remove`, `destroy` and `purge` are refused in any form and any
      position; Azure has no exception for any of them. */
  lemma DestructiveVerbRejected(command: string, verb: string)
    requires verb in ["delete", "remove", "destroy", "purge"]
    requires Contains(Lower(command), verb)
    ensures !IsSafeCommand(command)
  {
    assert verb == Patterns[0] || verb == Patterns[1] || verb == Patterns[2] || verb == Patterns[3];
  }

  /** Any listed pattern found in the lower-cased command refuses it. */
  lemma ListedPatternRejected(command: string, j: nat)
    requires j < |Patterns| && Contains(Lower(command), Patterns[j])
    ensures !IsSafeCommand(command)
  {
  }

  /** For each entry, one of its characters that the word `format` lacks, in list
      order: `d` delete, `e` remove, `d` destroy, `p` purge, then each operator
      itself (`&` `|` `;` `|` `>` `<`), `s` sudo, `s` su, `c` chmod, `c` chown,
      `e` eval, `e` exec, `s` system, and a space for `rm ` and for each of the six
      compound `… delete` entries. */
  const FormatForeign: string := "dedp&|;|><ssccees" + "       "

  lemma ForeignToFormat(j: nat)
    requires j < |Patterns|
    ensures FormatForeign[j] in Patterns[j] && FormatForeign[j] !in "format"
  {
  }

  /** `rm` is listed only as `rm ` with its trailing space, so a word that merely
      contains `rm`, such as `format`, passes the whole denylist. */
  lemma FormatPassesDenylist()
    ensures NoneOccur(Patterns, "format")
  {
    forall j | 0 <= j < |Patterns| ensures !Contains("format", Patterns[j]) {
      ForeignToFormat(j);
      ContainsCharIn("format", Patterns[j], FormatForeign[j]);
    }
  }

  /** Every character of every pattern is a lower-case letter, a shell operator
      character or a space. */
  lemma PatternAlphabet()
    ensures WithinAlphabet(Patterns, ShellSymbols)
  {
  }
}
