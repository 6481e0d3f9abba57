/** The identifier scrubber: N look-around substitutions against one pass over tokens. */
module Redaction {
  import opened Text

  /** The characters the look-arounds `(?<![\w`])` and `(?![\w`])` refuse. */
  predicate IsTokenChar(c: char) { IsWordChar(c) || c == '`' }

  /** Length of the run of token characters `text` starts with. */
  function RunLength(text: string): (n: nat)
    ensures n <= |text|
    ensures forall i :: 0 <= i < n ==> IsTokenChar(text[i])
    ensures n < |text| ==> !IsTokenChar(text[n])
  {
    if text == "" || !IsTokenChar(text[0]) then 0 else 1 + RunLength(text[1..])
  }

  lemma {:induction false} RunLengthIs(text: string, n: nat)
    requires n <= |text|
    requires forall i :: 0 <= i < n ==> IsTokenChar(text[i])
    requires n < |text| ==> !IsTokenChar(text[n])
    ensures RunLength(text) == n
  {
    var k := RunLength(text);
    if k < n {
      assert false;
    } else if n < k {
      assert false;
    }
  }

  type Phrasing = string -> string

  // --- the code: one regular-expression substitution per name -----------------

  /** Does the pattern for `name` match at position `i` of `text`? */
  predicate MatchAt(text: string, name: string, i: nat) {
    && OccursAt(text, name, i)
    && (i == 0 || !IsTokenChar(text[i - 1]))
    && (i + |name| == |text| || !IsTokenChar(text[i + |name|]))
  }

  /** `re.sub` from position `i` on: leftmost, non-overlapping, looking at the original text. */
  function SubFrom(text: string, name: string, phrase: string, i: nat): string
    requires name != "" && i <= |text|
    decreases |text| - i
  {
    if i == |text| then ""
    else if MatchAt(text, name, i) then phrase + SubFrom(text, name, phrase, i + |name|)
    else [text[i]] + SubFrom(text, name, phrase, i + 1)
  }

  function Substitute(text: string, name: string, phrase: string): string {
    if name == "" then text else SubFrom(text, name, phrase, 0)
  }

  /** The substitutions for `names`, in the order given. */
  function ScrubInOrder(text: string, names: seq<string>, phrasing: Phrasing): string
    decreases |names|
  {
    if names == [] then text
    else ScrubInOrder(Substitute(text, names[0], phrasing(names[0])), names[1..], phrasing)
  }

  // --- the specification: one pass over maximal runs --------------------------

  function MapTokens(text: string, names: set<string>, phrasing: Phrasing): string {
    if text == "" then ""
    else if !IsTokenChar(text[0]) then [text[0]] + MapTokens(text[1..], names, phrasing)
    else
      var k := RunLength(text);
      var token := text[..k];
      (if token in names then phrasing(token) else token) + MapTokens(text[k..], names, phrasing)
  }

  /** The tokens of a text: its maximal runs of token characters. */
  function Tokens(text: string): set<string> {
    if text == "" then {}
    else if !IsTokenChar(text[0]) then Tokens(text[1..])
    else {text[..RunLength(text)]} + Tokens(text[RunLength(text)..])
  }

  /** The separators, in order: everything that is not in a token. */
  function Separators(text: string): string {
    if text == "" then ""
    else if !IsTokenChar(text[0]) then [text[0]] + Separators(text[1..])
    else Separators(text[1..])
  }

  predicate IsName(name: string) { name != "" && forall c | c in name :: IsWordChar(c) }

  ghost predicate AreNames(names: set<string>) { forall n | n in names :: IsName(n) }

  /** No run of token characters continues from `a` into `b`. */
  predicate CleanCut(a: string, b: string) {
    a == "" || b == "" || !IsTokenChar(a[|a| - 1]) || !IsTokenChar(b[0])
  }

  lemma {:induction false} RunLengthConcat(a: string, b: string)
    requires a != "" && CleanCut(a, b)
    ensures RunLength(a + b) == RunLength(a)
  {
    RunLengthIs(a + b, RunLength(a));
  }

  /** The single pass distributes over every cut that does not split a token. */
  lemma {:induction false} MapTokensConcat(a: string, b: string, names: set<string>, phrasing: Phrasing)
    requires CleanCut(a, b)
    ensures MapTokens(a + b, names, phrasing) == MapTokens(a, names, phrasing) + MapTokens(b, names, phrasing)
  {
    if a == "" {
      assert a + b == b;
    } else if !IsTokenChar(a[0]) {
      assert (a + b)[1..] == a[1..] + b;
      MapTokensConcat(a[1..], b, names, phrasing);
      ConcatAssociative([a[0]], MapTokens(a[1..], names, phrasing), MapTokens(b, names, phrasing));
    } else {
      var k := RunLength(a);
      RunLengthConcat(a, b);
      assert (a + b)[..k] == a[..k];
      assert (a + b)[k..] == a[k..] + b;
      MapTokensConcat(a[k..], b, names, phrasing);
      ConcatAssociative(if a[..k] in names then phrasing(a[..k]) else a[..k],
                        MapTokens(a[k..], names, phrasing), MapTokens(b, names, phrasing));
    }
  }

  lemma {:induction false} TokensConcat(a: string, b: string)
    requires CleanCut(a, b)
    ensures Tokens(a + b) == Tokens(a) + Tokens(b)
  {
    if a == "" {
      assert a + b == b;
    } else if !IsTokenChar(a[0]) {
      assert (a + b)[1..] == a[1..] + b;
      TokensConcat(a[1..], b);
    } else {
      var k := RunLength(a);
      RunLengthConcat(a, b);
      assert (a + b)[..k] == a[..k];
      assert (a + b)[k..] == a[k..] + b;
      TokensConcat(a[k..], b);
    }
  }

  // --- one substitution is a pass over the tokens -----------------------------

  lemma {:induction false} MatchStartsOnTokenChar(text: string, name: string, i: nat)
    requires IsName(name) && i < |text|
    ensures MatchAt(text, name, i) ==> IsTokenChar(text[i])
  {
    if MatchAt(text, name, i) {
      assert text[i] == text[i..i + |name|][0] == name[0];
    }
  }

  /** Inside a run, past its first character, nothing can match. */
  lemma {:induction false} SubSkipsRun(text: string, name: string, phrase: string, i: nat, j: nat)
    requires name != "" && 0 < i <= j <= |text|
    requires forall k :: i - 1 <= k < j ==> IsTokenChar(text[k])
    ensures SubFrom(text, name, phrase, i) == text[i..j] + SubFrom(text, name, phrase, j)
    decreases j - i
  {
    var rest := SubFrom(text, name, phrase, j);
    if i < j {
      assert IsTokenChar(text[i - 1]);
      SubSkipsRun(text, name, phrase, i + 1, j);
      ConcatAssociative([text[i]], text[i + 1..j], rest);
      assert [text[i]] + text[i + 1..j] == text[i..j];
    } else {
      assert text[i..j] + rest == rest;
    }
  }

  /** At the start of a run, the substitution rewrites the whole run or none of it. */
  lemma {:induction false} SubAtRun(text: string, name: string, phrase: string, i: nat, j: nat)
    requires IsName(name) && i < j <= |text|
    requires i == 0 || !IsTokenChar(text[i - 1])
    requires forall k :: i <= k < j ==> IsTokenChar(text[k])
    requires j < |text| ==> !IsTokenChar(text[j])
    ensures SubFrom(text, name, phrase, i)
         == (if text[i..j] == name then phrase else text[i..j]) + SubFrom(text, name, phrase, j)
  {
    if text[i..j] == name {
      assert MatchAt(text, name, i);
    } else {
      if MatchAt(text, name, i) {
        RunIsName(text, name, i, j);
        assert false;
      }
      SubSkipsRun(text, name, phrase, i + 1, j);
      ConcatAssociative([text[i]], text[i + 1..j], SubFrom(text, name, phrase, j));
      assert [text[i]] + text[i + 1..j] == text[i..j];
    }
  }

  lemma {:induction false} RunIsName(text: string, name: string, i: nat, j: nat)
    requires IsName(name) && MatchAt(text, name, i) && i < j <= |text|
    requires forall k :: i <= k < j ==> IsTokenChar(text[k])
    requires j < |text| ==> !IsTokenChar(text[j])
    ensures text[i..j] == name
  {
    var e := i + |name|;
    forall m | i <= m < e ensures IsTokenChar(text[m]) {
      assert text[m] == text[i..e][m - i] == name[m - i];
    }
    if j < e {
      assert false;
    } else if e < j {
      assert false;
    }
  }

  lemma {:induction false} SubIsTokenPass(text: string, name: string, phrasing: Phrasing, i: nat)
    requires IsName(name) && i <= |text|
    requires CleanCut(text[..i], text[i..])
    ensures SubFrom(text, name, phrasing(name), i) == MapTokens(text[i..], {name}, phrasing)
    decreases |text| - i
  {
    if i == |text| {
    } else if !IsTokenChar(text[i]) {
      MatchStartsOnTokenChar(text, name, i);
      assert text[i..][1..] == text[i + 1..];
      SubIsTokenPass(text, name, phrasing, i + 1);
    } else {
      var k := RunLength(text[i..]);
      var j := i + k;
      assert text[i..][..k] == text[i..j];
      assert text[i..][k..] == text[j..];
      forall m | i <= m < j ensures IsTokenChar(text[m]) {
        assert text[m] == text[i..][m - i];
      }
      assert j < |text| ==> text[j] == text[i..][k];
      SubIsTokenPass(text, name, phrasing, j);
      SubAtRun(text, name, phrasing(name), i, j);
    }
  }

  /** One regular-expression substitution is one pass that rewrites a single token. */
  lemma {:induction false} SubstituteIsTokenPass(text: string, name: string, phrasing: Phrasing)
    requires IsName(name)
    ensures Substitute(text, name, phrasing(name)) == MapTokens(text, {name}, phrasing)
  {
    assert text[..0] == "" && text[0..] == text;
    SubIsTokenPass(text, name, phrasing, 0);
  }

  // --- phrases that survive ---------------------------------------------------

  /** A name met again inside a phrase is rewritten to itself. */
  ghost predicate StablePhrases(names: set<string>, phrasing: Phrasing) {
    forall n, t | n in names && t in names :: t in Tokens(phrasing(n)) ==> phrasing(t) == t
  }

  /** No phrase mentions a name as a token of its own. */
  ghost predicate NamelessPhrases(names: set<string>, phrasing: Phrasing) {
    forall n | n in names :: Tokens(phrasing(n)) !! names
  }

  /** Tokens outside `names`, and every separator, pass through untouched. */
  lemma {:induction false} OtherTokensUntouched(text: string, names: set<string>, phrasing: Phrasing)
    requires forall t | t in Tokens(text) && t in names :: phrasing(t) == t
    ensures MapTokens(text, names, phrasing) == text
  {
    if text == "" {
    } else if !IsTokenChar(text[0]) {
      OtherTokensUntouched(text[1..], names, phrasing);
      assert [text[0]] + text[1..] == text;
    } else {
      var k := RunLength(text);
      assert text[..k] in Tokens(text);
      OtherTokensUntouched(text[k..], names, phrasing);
      assert text[..k] + text[k..] == text;
    }
  }

  /** What follows a rewritten token still starts with a separator. */
  lemma MappedTailIsCut(head: string, tail: string, names: set<string>, phrasing: Phrasing)
    requires tail == "" || !IsTokenChar(tail[0])
    ensures CleanCut(head, MapTokens(tail, names, phrasing))
    ensures tail != "" ==> MapTokens(tail, names, phrasing) != "" && MapTokens(tail, names, phrasing)[0] == tail[0]
    ensures tail == "" ==> MapTokens(tail, names, phrasing) == ""
  {
  }

  /** Two passes fuse when the first one's phrases are fixed points of the second. */
  lemma {:induction false} PassesFuse(text: string, first: set<string>, second: set<string>, phrasing: Phrasing)
    requires forall n | n in first :: MapTokens(phrasing(n), second, phrasing) == phrasing(n)
    ensures MapTokens(MapTokens(text, first, phrasing), second, phrasing)
         == MapTokens(text, first + second, phrasing)
  {
    if text == "" {
    } else if !IsTokenChar(text[0]) {
      var rest := MapTokens(text[1..], first, phrasing);
      PassesFuse(text[1..], first, second, phrasing);
      assert ([text[0]] + rest)[1..] == rest;
    } else {
      var k := RunLength(text);
      var token := text[..k];
      var head := if token in first then phrasing(token) else token;
      var rest := MapTokens(text[k..], first, phrasing);
      MappedTailIsCut(head, text[k..], first, phrasing);
      MapTokensConcat(head, rest, second, phrasing);
      PassesFuse(text[k..], first, second, phrasing);
      if token !in first {
        SingleToken(token, second, phrasing);
      }
    }
  }

  lemma {:induction false} SingleToken(token: string, names: set<string>, phrasing: Phrasing)
    requires token != "" && forall c | c in token :: IsTokenChar(c)
    ensures MapTokens(token, names, phrasing) == if token in names then phrasing(token) else token
    ensures Tokens(token) == {token}
  {
    RunLengthIs(token, |token|);
    assert token[..|token|] == token && token[|token|..] == "";
    var out := if token in names then phrasing(token) else token;
    assert out + "" == out;
  }

  lemma {:induction false} StableUnderAnyPass(names: set<string>, second: set<string>, phrasing: Phrasing)
    requires StablePhrases(names, phrasing) && second <= names
    ensures forall n | n in names :: MapTokens(phrasing(n), second, phrasing) == phrasing(n)
  {
    forall n | n in names ensures MapTokens(phrasing(n), second, phrasing) == phrasing(n) {
      OtherTokensUntouched(phrasing(n), second, phrasing);
    }
  }

  // --- the main results -------------------------------------------------------

  ghost function NameSet(names: seq<string>): set<string> { set n | n in names && n != "" }

  lemma {:induction false} ScrubAfterPass(text: string, done: set<string>, names: seq<string>, phrasing: Phrasing)
    requires AreNames(done + NameSet(names)) && StablePhrases(done + NameSet(names), phrasing)
    ensures ScrubInOrder(MapTokens(text, done, phrasing), names, phrasing)
         == MapTokens(text, done + NameSet(names), phrasing)
    decreases |names|
  {
    if names == [] {
      assert done + NameSet(names) == done;
    } else {
      var name := names[0];
      var all := done + NameSet(names);
      assert names == [name] + names[1..];
      if name == "" {
        assert NameSet(names) == NameSet(names[1..]);
        ScrubAfterPass(text, done, names[1..], phrasing);
      } else {
        assert NameSet(names) == {name} + NameSet(names[1..]);
        assert (done + {name}) + NameSet(names[1..]) == all;
        StableUnderAnyPass(all, {name}, phrasing);
        SubstituteIsTokenPass(MapTokens(text, done, phrasing), name, phrasing);
        PassesFuse(text, done, {name}, phrasing);
        ScrubAfterPass(text, done + {name}, names[1..], phrasing);
      }
    }
  }

  /** Name by name, in whatever order, the scrubber computes the single pass. */
  lemma {:induction false} ScrubIsTokenPass(text: string, names: seq<string>, phrasing: Phrasing)
    requires AreNames(NameSet(names)) && StablePhrases(NameSet(names), phrasing)
    ensures ScrubInOrder(text, names, phrasing) == MapTokens(text, NameSet(names), phrasing)
  {
    OtherTokensUntouched(text, {}, phrasing);
    assert {} + NameSet(names) == NameSet(names);
    ScrubAfterPass(text, {}, names, phrasing);
  }

  /** The order the names are tried in cannot be seen in the result. */
  lemma {:induction false} ScrubOrderIrrelevant(text: string, names: seq<string>, others: seq<string>,
                                                phrasing: Phrasing)
    requires AreNames(NameSet(names)) && StablePhrases(NameSet(names), phrasing)
    requires NameSet(names) == NameSet(others)
    ensures ScrubInOrder(text, names, phrasing) == ScrubInOrder(text, others, phrasing)
  {
    ScrubIsTokenPass(text, names, phrasing);
    ScrubIsTokenPass(text, others, phrasing);
  }

  lemma {:induction false} SeparatorsGrow(text: string, names: set<string>, phrasing: Phrasing)
    ensures |Separators(MapTokens(text, names, phrasing))| >= |Separators(text)|
  {
    if text == "" {
    } else if !IsTokenChar(text[0]) {
      SeparatorsGrow(text[1..], names, phrasing);
      var rest := MapTokens(text[1..], names, phrasing);
      assert ([text[0]] + rest)[1..] == rest;
    } else {
      var k := RunLength(text);
      var head := if text[..k] in names then phrasing(text[..k]) else text[..k];
      var rest := MapTokens(text[k..], names, phrasing);
      SeparatorsGrow(text[k..], names, phrasing);
      SeparatorsConcat(head, rest);
      SeparatorsOfRun(text, k);
    }
  }

  lemma {:induction false} SeparatorsConcat(a: string, b: string)
    ensures Separators(a + b) == Separators(a) + Separators(b)
  {
    if a == "" {
      assert a + b == b;
    } else {
      assert (a + b)[1..] == a[1..] + b;
      SeparatorsConcat(a[1..], b);
    }
  }

  lemma {:induction false} SeparatorsOfRun(text: string, k: nat)
    requires k <= |text| && forall i | 0 <= i < k :: IsTokenChar(text[i])
    ensures Separators(text) == Separators(text[k..])
    decreases k
  {
    if k > 0 {
      SeparatorsOfRun(text[1..], k - 1);
      assert text[1..][k - 1..] == text[k..];
    } else {
      assert text[0..] == text;
    }
  }

  lemma {:induction false} NoSeparators(text: string)
    requires Separators(text) == ""
    ensures forall i | 0 <= i < |text| :: IsTokenChar(text[i])
  {
    if text != "" {
      NoSeparators(text[1..]);
      assert forall i | 1 <= i < |text| :: text[i] == text[1..][i - 1];
    }
  }

  /** A text is a fixed point exactly when every name in it is its own phrase. */
  lemma {:induction false} FixedPointIff(text: string, names: set<string>, phrasing: Phrasing)
    ensures MapTokens(text, names, phrasing) == text
       <==> forall t | t in Tokens(text) && t in names :: phrasing(t) == t
  {
    if forall t | t in Tokens(text) && t in names :: phrasing(t) == t {
      OtherTokensUntouched(text, names, phrasing);
    }
    if MapTokens(text, names, phrasing) == text {
      FixedTokens(text, names, phrasing);
    }
  }

  lemma {:induction false} FixedTokens(text: string, names: set<string>, phrasing: Phrasing)
    requires MapTokens(text, names, phrasing) == text
    ensures forall t | t in Tokens(text) && t in names :: phrasing(t) == t
  {
    if text == "" {
    } else if !IsTokenChar(text[0]) {
      assert text[1..] == ([text[0]] + MapTokens(text[1..], names, phrasing))[1..];
      FixedTokens(text[1..], names, phrasing);
    } else {
      var k := RunLength(text);
      var token := text[..k];
      var head := if token in names then phrasing(token) else token;
      var rest := MapTokens(text[k..], names, phrasing);
      assert head + rest == text;
      SeparatorsOfRun(text, k);
      SeparatorsConcat(head, rest);
      SeparatorsGrow(text[k..], names, phrasing);
      NoSeparators(head);
      MappedTailIsCut(head, text[k..], names, phrasing);
      assert forall i | 0 <= i < |head| :: text[i] == head[i];
      assert |head| < |text| ==> text[|head|] == rest[0];
      RunLengthIs(text, |head|);
      assert head == text[..|head|] && rest == text[|head|..];
      FixedTokens(text[k..], names, phrasing);
    }
  }

  ghost predicate SecondPassChangesNothing(text: string, names: set<string>, phrasing: Phrasing) {
    MapTokens(MapTokens(text, names, phrasing), names, phrasing) == MapTokens(text, names, phrasing)
  }

  /** Scrubbing twice changes nothing, for every text, exactly when the phrases are stable. */
  lemma {:induction false} IdempotentIffStable(names: set<string>, phrasing: Phrasing)
    requires AreNames(names)
    ensures StablePhrases(names, phrasing) <==> forall text :: SecondPassChangesNothing(text, names, phrasing)
  {
    if StablePhrases(names, phrasing) {
      forall text ensures SecondPassChangesNothing(text, names, phrasing) {
        StableUnderAnyPass(names, names, phrasing);
        PassesFuse(text, names, names, phrasing);
        assert names + names == names;
      }
    }
    if forall text :: SecondPassChangesNothing(text, names, phrasing) {
      forall n, t | n in names && t in names && t in Tokens(phrasing(n)) ensures phrasing(t) == t {
        SingleToken(n, names, phrasing);
        assert SecondPassChangesNothing(n, names, phrasing);
        FixedPointIff(phrasing(n), names, phrasing);
      }
    }
  }

  /** The output's tokens: the tokens of the phrases used, and the tokens left alone. */
  lemma {:induction false} OutputTokens(text: string, names: set<string>, phrasing: Phrasing)
    ensures forall t | t in Tokens(MapTokens(text, names, phrasing)) ::
              (t in Tokens(text) && t !in names)
              || exists n | n in names && n in Tokens(text) :: t in Tokens(phrasing(n))
  {
    if text == "" {
    } else if !IsTokenChar(text[0]) {
      var rest := MapTokens(text[1..], names, phrasing);
      OutputTokens(text[1..], names, phrasing);
      assert ([text[0]] + rest)[1..] == rest;
    } else {
      var k := RunLength(text);
      var token := text[..k];
      var head := if token in names then phrasing(token) else token;
      var rest := MapTokens(text[k..], names, phrasing);
      MappedTailIsCut(head, text[k..], names, phrasing);
      TokensConcat(head, rest);
      OutputTokens(text[k..], names, phrasing);
      if token !in names {
        SingleToken(token, names, phrasing);
      }
    }
  }

  ghost predicate LeavesNoName(text: string, names: set<string>, phrasing: Phrasing) {
    Tokens(MapTokens(text, names, phrasing)) !! names
  }

  /** No bare name is left, in any text, exactly when no phrase mentions one. */
  lemma {:induction false} LeakFreeIff(names: set<string>, phrasing: Phrasing)
    requires AreNames(names)
    ensures NamelessPhrases(names, phrasing) <==> forall text :: LeavesNoName(text, names, phrasing)
  {
    if NamelessPhrases(names, phrasing) {
      forall text ensures LeavesNoName(text, names, phrasing) {
        OutputTokens(text, names, phrasing);
      }
    }
    if forall text :: LeavesNoName(text, names, phrasing) {
      forall n | n in names ensures Tokens(phrasing(n)) !! names {
        SingleToken(n, names, phrasing);
        assert LeavesNoName(n, names, phrasing);
      }
    }
  }

  /** A name quoted in backticks is not bare, and survives between separators. */
  lemma {:induction false} BackquotedNameSurvives(before: string, name: string, after: string,
                                                  names: set<string>, phrasing: Phrasing)
    requires AreNames(names) && IsName(name)
    requires before == "" || !IsTokenChar(before[|before| - 1])
    requires after == "" || !IsTokenChar(after[0])
    ensures MapTokens(before + ("`" + name + "`") + after, names, phrasing)
         == MapTokens(before, names, phrasing) + ("`" + name + "`") + MapTokens(after, names, phrasing)
  {
    var quoted := "`" + name + "`";
    assert quoted[0] == '`' && '`' in quoted;
    SingleToken(quoted, names, phrasing);
    MapTokensConcat(before, quoted, names, phrasing);
    MapTokensConcat(before + quoted, after, names, phrasing);
  }

  lemma {:induction false} TokenCharsComeFromText(text: string)
    ensures forall t, c | t in Tokens(text) && c in t :: c in text
  {
    if text == "" {
    } else if !IsTokenChar(text[0]) {
      TokenCharsComeFromText(text[1..]);
    } else {
      var k := RunLength(text);
      TokenCharsComeFromText(text[k..]);
      assert text == text[..k] + text[k..];
    }
  }

  /** Names with an underscore and phrases without one are safe. */
  lemma {:induction false} UnderscoredNamesAreSafe(names: set<string>, phrasing: Phrasing)
    requires forall n | n in names :: '_' in n && '_' !in phrasing(n)
    ensures StablePhrases(names, phrasing) && NamelessPhrases(names, phrasing)
  {
    forall n | n in names ensures Tokens(phrasing(n)) !! names {
      TokenCharsComeFromText(phrasing(n));
    }
  }
}
