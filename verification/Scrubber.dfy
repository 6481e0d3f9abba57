/** `scrub_identifiers` itself, and the vocabulary it is called with. */
module Scrubber {
  import opened Options
  import opened Phrases
  import opened Redaction

  function Phraser(table: PhraseTable): Phrasing { name => Humanise(table, name) }

  // --- longest name first -----------------------------------------------------

  function InsertByLength(name: string, sorted: seq<string>): (r: seq<string>)
    ensures multiset(r) == multiset{name} + multiset(sorted)
  {
    if sorted == [] then [name]
    else if |sorted[0]| < |name| then [name] + sorted
    else
      assert sorted == [sorted[0]] + sorted[1..];
      [sorted[0]] + InsertByLength(name, sorted[1..])
  }

  /** `sorted(names, key=len, reverse=True)`: longest first, ties in their original order. */
  function LongestFirst(names: seq<string>): (r: seq<string>)
    ensures multiset(r) == multiset(names)
  {
    if names == [] then []
    else
      assert names == names[..|names| - 1] + [names[|names| - 1]];
      InsertByLength(names[|names| - 1], LongestFirst(names[..|names| - 1]))
  }

  lemma {:induction false} SameNames(names: seq<string>)
    ensures NameSet(LongestFirst(names)) == NameSet(names)
  {
    forall n ensures n in LongestFirst(names) <==> n in names {
      assert n in multiset(LongestFirst(names)) <==> n in multiset(names);
    }
  }

  /** What `tool_names` has to look like for the scrubber to keep its promise. */
  predicate ScrubbableName(name: string) {
    name == "" || (IsName(name) && '_' in name && Speakable(name))
  }

  /** The scrubber: one substitution per name, longest first, over a `text` that is reassigned. */
  method ScrubIdentifiers(table: PhraseTable, text: Option<string>, names: seq<string>) returns (result: string)
    ensures text.None? ==> result == ""
    ensures text.Some? ==> result == ScrubInOrder(text.value, LongestFirst(names), Phraser(table))
    ensures text.Some? && CleanTable(table) && (forall n | n in names :: ScrubbableName(n))
        ==> result == MapTokens(text.value, NameSet(names), Phraser(table))
  {
    if text.None? {
      return "";
    }
    var ordered := LongestFirst(names);
    if text.value == "" {
      EmptyTextStaysEmpty(table, ordered);
    }
    result := text.value;
    var i := 0;
    while i < |ordered|
      invariant 0 <= i <= |ordered|
      invariant ScrubInOrder(result, ordered[i..], Phraser(table)) == ScrubInOrder(text.value, ordered, Phraser(table))
    {
      assert ordered[i..][1..] == ordered[i + 1..];
      if ordered[i] != "" {
        var phrase := HumaniseByCutting(table, ordered[i]);
        result := Substitute(result, ordered[i], phrase);
      }
      i := i + 1;
    }
    assert ordered[i..] == [];
    if CleanTable(table) && forall n | n in names :: ScrubbableName(n) {
      CleanPhrasesAreSafe(table, NameSet(names));
      SameNames(names);
      ScrubIsTokenPass(text.value, ordered, Phraser(table));
    }
  }

  lemma {:induction false} EmptyTextStaysEmpty(table: PhraseTable, names: seq<string>)
    ensures ScrubInOrder("", names, Phraser(table)) == ""
    decreases |names|
  {
    if names != [] {
      EmptyTextStaysEmpty(table, names[1..]);
    }
  }

  /** With a clean phrase table, underscored speakable names meet both conditions. */
  lemma {:induction false} CleanPhrasesAreSafe(table: PhraseTable, names: set<string>)
    requires CleanTable(table)
    requires forall n | n in names :: ScrubbableName(n) && n != ""
    ensures AreNames(names) && StablePhrases(names, Phraser(table)) && NamelessPhrases(names, Phraser(table))
  {
    forall n | n in names ensures '_' in n && '_' !in Phraser(table)(n) {
      assert n[0] in n && n[|n| - 1] in n;
      SpeakablePhraseIsClean(table, n);
    }
    UnderscoredNamesAreSafe(names, Phraser(table));
  }

  /** For any scrubbable names, no identifier reaches the reader, in any text, and scrubbing again changes nothing. */
  lemma {:induction false} NoIdentifierReachesTheReader(table: PhraseTable, text: string, names: seq<string>)
    requires CleanTable(table) && forall n | n in names :: ScrubbableName(n)
    ensures var shown := ScrubInOrder(text, LongestFirst(names), Phraser(table));
            && Tokens(shown) !! NameSet(names)
            && ScrubInOrder(shown, LongestFirst(names), Phraser(table)) == shown
  {
    var bare := NameSet(names);
    var phraser := Phraser(table);
    CleanPhrasesAreSafe(table, bare);
    SameNames(names);
    var shown := ScrubInOrder(text, LongestFirst(names), phraser);
    ScrubIsTokenPass(text, LongestFirst(names), phraser);
    ScrubIsTokenPass(shown, LongestFirst(names), phraser);
    LeakFreeIff(bare, phraser);
    IdempotentIffStable(bare, phraser);
    assert LeavesNoName(text, bare, phraser) && SecondPassChangesNothing(text, bare, phraser);
  }
}
