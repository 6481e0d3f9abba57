/** What an event may carry: `_safe` and `safe_metadata`. */
module Sanitiser {
  import opened Options
  import opened Text

  /**
   Any value a publisher can hand over. `Opaque` is an object that is described with `str`, which may
   raise (`None`). A list also stands for a tuple, or a set in its iteration order.
   */
  datatype Value =
    | Null
    | Bool(b: bool)
    | Int(i: int)
    | Float(f: real)
    | Str(s: string)
    | List(items: seq<Value>)
    | Dict(entries: seq<Entry>)
    | Opaque(text: Option<string>)

  /** One dictionary entry; a key whose `str` raises has no name. */
  datatype Entry = Entry(name: Option<string>, value: Value)

  const MAX_STR: nat := 240
  const MAX_ITEMS: nat := 12
  const MAX_ENTRIES: nat := 20
  const MAX_DEPTH: nat := 2
  const ELLIPSIS: string := "..."

  const SECRETISH: seq<string> :=
    ["key", "token", "secret", "password", "credential", "auth", "dsn", "conn", "cookie"]

  predicate LooksSecret(name: string) {
    exists i | 0 <= i < |SECRETISH| :: Contains(Lower(name), SECRETISH[i])
  }

  function Cut(s: string): string {
    if |s| <= MAX_STR then s else s[..MAX_STR] + ELLIPSIS
  }

  function Take<T>(xs: seq<T>, n: nat): seq<T> { if |xs| <= n then xs else xs[..n] }

  /** `out[name] = clean`: a name met again keeps its place and takes the new value. */
  function Put(out: seq<Entry>, name: string, value: Value): seq<Entry> {
    if out == [] then [Entry(Some(name), value)]
    else if out[0].name == Some(name) then [Entry(Some(name), value)] + out[1..]
    else [out[0]] + Put(out[1..], name, value)
  }

  predicate Vanishes(v: Value) { v == Null || v == List([]) || v == Dict([]) }

  /** `_safe`; `None` when describing the value raised. */
  function Safe(v: Value, depth: nat): Option<Value>
    decreases v, 1
  {
    match v
    case Null => Some(v)
    case Bool(_) => Some(v)
    case Int(_) => Some(v)
    case Float(_) => Some(v)
    case Str(s) => Some(Str(Cut(s)))
    case List(items) =>
      if depth >= MAX_DEPTH then Some(Null) else Some(List(SafeItems(Take(items, MAX_ITEMS), depth + 1)))
    case Dict(entries) =>
      if depth >= MAX_DEPTH then Some(Null) else Some(Dict(Fill(Take(entries, MAX_ENTRIES), depth + 1)))
    case Opaque(text) =>
      if depth >= MAX_DEPTH then Some(Null)
      else if text.None? then None
      else Some(Str(Cut(text.value)))
  }

  /** The items that survive, in order; one that raises or cleans to nothing is skipped. */
  function SafeItems(items: seq<Value>, depth: nat): seq<Value>
    decreases items, 0
  {
    if items == [] then []
    else
      var n := |items| - 1;
      var before := SafeItems(items[..n], depth);
      var clean := Safe(items[n], depth);
      if clean.None? || clean.value == Null then before else before + [clean.value]
  }

  /** The entries that survive; a bad key, a secret-looking name or an empty value costs one field. */
  function Fill(entries: seq<Entry>, depth: nat): seq<Entry>
    decreases entries, 0
  {
    if entries == [] then []
    else
      var n := |entries| - 1;
      var before := Fill(entries[..n], depth);
      var clean := CleanField(entries[n], depth);
      if clean.None? then before else Put(before, entries[n].name.value, clean.value)
  }

  /** The value one field is published with, if it is published at all. */
  function CleanField(e: Entry, depth: nat): (r: Option<Value>)
    ensures r.Some? ==> e.name.Some? && !LooksSecret(e.name.value) && !Vanishes(r.value)
    decreases e, 0
  {
    if e.name.None? || LooksSecret(e.name.value) then None
    else
      var clean := Safe(e.value, depth);
      if clean.None? || Vanishes(clean.value) then None else clean
  }

  function SafeMetadata(raw: Value, depth: nat): seq<Entry> {
    if raw.Dict? then Fill(Take(raw.entries, MAX_ENTRIES), depth) else []
  }

  // --- the loops as they run --------------------------------------------------

  method SafeValue(v: Value, depth: nat) returns (r: Option<Value>)
    ensures r == Safe(v, depth)
    decreases v, 1
  {
    match v
    case Str(s) => r := Some(Str(Cut(s)));
    case List(items) =>
      if depth >= MAX_DEPTH {
        return Some(Null);
      }
      var shown := Take(items, MAX_ITEMS);
      var kept: seq<Value> := [];
      for i := 0 to |shown|
        invariant kept == SafeItems(shown[..i], depth + 1)
      {
        assert shown[..i + 1][..i] == shown[..i];
        assert shown[i] == items[i];
        var clean := SafeValue(shown[i], depth + 1);
        if clean.Some? && clean.value != Null {
          kept := kept + [clean.value];
        }
      }
      assert shown[..|shown|] == shown;
      r := Some(List(kept));
    case Dict(entries) =>
      if depth >= MAX_DEPTH {
        return Some(Null);
      }
      var out := CleanEntries(entries, depth + 1);
      r := Some(Dict(out));
    case Opaque(text) =>
      if depth >= MAX_DEPTH {
        return Some(Null);
      }
      r := if text.None? then None else Some(Str(Cut(text.value)));
    case _ => r := Some(v);
  }

  method CleanEntries(entries: seq<Entry>, depth: nat) returns (out: seq<Entry>)
    ensures out == SafeMetadata(Dict(entries), depth)
    decreases entries, 0
  {
    var shown := Take(entries, MAX_ENTRIES);
    out := [];
    for i := 0 to |shown|
      invariant out == Fill(shown[..i], depth)
    {
      assert shown[..i + 1][..i] == shown[..i];
      var e := shown[i];
      assert e == entries[i];
      var clean := CleanOne(e, depth);
      if clean.Some? {
        out := Put(out, e.name.value, clean.value);
      }
    }
    assert shown[..|shown|] == shown;
  }

  method CleanOne(e: Entry, depth: nat) returns (r: Option<Value>)
    ensures r == CleanField(e, depth)
    decreases e, 0
  {
    if e.name.None? || LooksSecret(e.name.value) {
      return None;
    }
    r := SafeValue(e.value, depth);
    if r.Some? && Vanishes(r.value) {
      r := None;
    }
  }

  // --- what survives is settled -----------------------------------------------

  predicate SettledText(s: string) {
    |s| <= MAX_STR || (|s| == MAX_STR + |ELLIPSIS| && s[MAX_STR..] == ELLIPSIS)
  }

  /** The shape everything the sanitiser lets through has, at a given nesting depth. */
  ghost predicate Settled(v: Value, depth: nat)
    decreases v
  {
    match v
    case Str(s) => SettledText(s)
    case List(items) =>
      && depth < MAX_DEPTH && |items| <= MAX_ITEMS
      && forall i | 0 <= i < |items| :: items[i] != Null && Settled(items[i], depth + 1)
    case Dict(entries) =>
      && depth < MAX_DEPTH && |entries| <= MAX_ENTRIES && DistinctNames(entries)
      && forall i | 0 <= i < |entries| :: SettledEntry(entries[i]) && Settled(entries[i].value, depth + 1)
    case Opaque(_) => false
    case _ => true
  }

  ghost predicate SettledEntry(e: Entry) {
    e.name.Some? && !LooksSecret(e.name.value) && !Vanishes(e.value)
  }

  ghost predicate DistinctNames(entries: seq<Entry>) {
    forall i, j | 0 <= i < j < |entries| :: entries[i].name != entries[j].name
  }

  lemma {:induction false} PutPlaces(out: seq<Entry>, name: string, value: Value)
    ensures var r := Put(out, name, value);
            && |out| <= |r| <= |out| + 1
            && (forall i | 0 <= i < |out| :: r[i].name == out[i].name)
            && (|r| > |out| ==> r[|out|] == Entry(Some(name), value))
    ensures forall i | 0 <= i < |Put(out, name, value)| ::
              Put(out, name, value)[i] == Entry(Some(name), value) || (i < |out| && Put(out, name, value)[i] == out[i])
  {
    if out != [] && out[0].name != Some(name) {
      var p := Put(out[1..], name, value);
      PutPlaces(out[1..], name, value);
      assert Put(out, name, value) == [out[0]] + p;
      assert forall i | 0 <= i < |out[1..]| :: out[1..][i] == out[i + 1];
    }
  }

  lemma {:induction false} PutNew(out: seq<Entry>, name: string, value: Value)
    ensures (forall i | 0 <= i < |out| :: out[i].name != Some(name))
       <==> Put(out, name, value) == out + [Entry(Some(name), value)]
    ensures |Put(out, name, value)| > |out| <==> forall i | 0 <= i < |out| :: out[i].name != Some(name)
  {
    if out != [] {
      var rest := out[1..];
      assert forall i | 0 <= i < |rest| :: rest[i] == out[i + 1];
      assert forall i | 1 <= i < |out| :: out[i] == rest[i - 1];
      PutNew(rest, name, value);
      assert out == [out[0]] + rest;
      assert out + [Entry(Some(name), value)] == [out[0]] + (rest + [Entry(Some(name), value)]);
      if out[0].name == Some(name) {
        assert |Put(out, name, value)| == |out|;
      }
    }
  }

  lemma {:induction false} PutProperties(out: seq<Entry>, name: string, value: Value)
    requires DistinctNames(out)
    ensures var r := Put(out, name, value);
            && DistinctNames(r)
            && |out| <= |r| <= |out| + 1
            && (forall i | 0 <= i < |r| :: r[i] == Entry(Some(name), value) || (i < |out| && r[i] == out[i]))
            && (forall i | 0 <= i < |out| :: r[i].name == out[i].name)
            && (forall i | 0 <= i < |r| :: r[i].name == Some(name) || i < |out|)
    ensures (forall i | 0 <= i < |out| :: out[i].name != Some(name))
        ==> Put(out, name, value) == out + [Entry(Some(name), value)]
  {
    PutPlaces(out, name, value);
    PutNew(out, name, value);
    var r := Put(out, name, value);
    forall i, j | 0 <= i < j < |r| ensures r[i].name != r[j].name {
      if j < |out| {
        assert out[i].name != out[j].name;
      }
    }
  }

  lemma {:induction false} CutIsSettled(s: string)
    ensures SettledText(Cut(s))
    ensures SettledText(s) ==> Cut(s) == s
  {
    if SettledText(s) && |s| > MAX_STR {
      assert s == s[..MAX_STR] + s[MAX_STR..];
    }
  }

  /** Whatever is handed over, what comes out is settled. */
  lemma {:induction false} SafeIsSettled(v: Value, depth: nat)
    ensures Safe(v, depth).Some? ==> Settled(Safe(v, depth).value, depth)
    decreases v, 1
  {
    match v
    case Str(s) => CutIsSettled(s);
    case List(items) =>
      if depth < MAX_DEPTH {
        ItemsAreSettled(Take(items, MAX_ITEMS), depth + 1);
      }
    case Dict(entries) =>
      if depth < MAX_DEPTH {
        FillIsSettled(Take(entries, MAX_ENTRIES), depth + 1);
      }
    case Opaque(text) =>
      if text.Some? {
        CutIsSettled(text.value);
      }
    case _ =>
  }

  lemma {:induction false} ItemsAreSettled(items: seq<Value>, depth: nat)
    ensures |SafeItems(items, depth)| <= |items|
    ensures forall i | 0 <= i < |SafeItems(items, depth)| ::
              SafeItems(items, depth)[i] != Null && Settled(SafeItems(items, depth)[i], depth)
    decreases items, 0
  {
    if items != [] {
      var n := |items| - 1;
      ItemsAreSettled(items[..n], depth);
      SafeIsSettled(items[n], depth);
    }
  }

  lemma {:induction false} FillIsSettled(entries: seq<Entry>, depth: nat)
    ensures |Fill(entries, depth)| <= |entries|
    ensures DistinctNames(Fill(entries, depth))
    ensures forall i | 0 <= i < |Fill(entries, depth)| ::
              SettledEntry(Fill(entries, depth)[i]) && Settled(Fill(entries, depth)[i].value, depth)
    decreases entries, 0
  {
    if entries != [] {
      var n := |entries| - 1;
      var before := Fill(entries[..n], depth);
      FillIsSettled(entries[..n], depth);
      FieldIsSettled(entries[n], depth);
      var clean := CleanField(entries[n], depth);
      if clean.Some? {
        PutProperties(before, entries[n].name.value, clean.value);
      }
    }
  }

  lemma {:induction false} FieldIsSettled(e: Entry, depth: nat)
    ensures CleanField(e, depth).Some? ==> Settled(CleanField(e, depth).value, depth)
    decreases e, 0
  {
    SafeIsSettled(e.value, depth);
  }

  /** A settled value passes through unchanged. */
  lemma {:induction false} SettledIsFixed(v: Value, depth: nat)
    requires Settled(v, depth)
    ensures Safe(v, depth) == Some(v)
    decreases v, 1
  {
    match v
    case Str(s) => CutIsSettled(s);
    case List(items) => SettledItemsAreFixed(items, depth + 1);
    case Dict(entries) => SettledFieldsAreFixed(entries, depth + 1);
    case _ =>
  }

  lemma {:induction false} SettledItemsAreFixed(items: seq<Value>, depth: nat)
    requires forall i | 0 <= i < |items| :: items[i] != Null && Settled(items[i], depth)
    ensures SafeItems(items, depth) == items
    decreases items, 0
  {
    if items != [] {
      var n := |items| - 1;
      SettledItemsAreFixed(items[..n], depth);
      SettledIsFixed(items[n], depth);
      assert items == items[..n] + [items[n]];
    }
  }

  lemma {:induction false} SettledFieldsAreFixed(entries: seq<Entry>, depth: nat)
    requires DistinctNames(entries)
    requires forall i | 0 <= i < |entries| :: SettledEntry(entries[i]) && Settled(entries[i].value, depth)
    ensures Fill(entries, depth) == entries
    decreases entries, 0
  {
    if entries != [] {
      var n := |entries| - 1;
      var e := entries[n];
      SettledFieldsAreFixed(entries[..n], depth);
      SettledFieldIsFixed(e, depth);
      PutProperties(entries[..n], e.name.value, e.value);
      assert entries == entries[..n] + [e];
    }
  }

  lemma {:induction false} SettledFieldIsFixed(e: Entry, depth: nat)
    requires SettledEntry(e) && Settled(e.value, depth)
    ensures CleanField(e, depth) == Some(e.value)
    decreases e, 0
  {
    SettledIsFixed(e.value, depth);
  }

  // --- the main results -------------------------------------------------------

  /** Sanitising what was already sanitised changes nothing, whatever was handed over first. */
  lemma {:induction false} SafeMetadataIsIdempotent(raw: Value, depth: nat)
    ensures SafeMetadata(Dict(SafeMetadata(raw, depth)), depth) == SafeMetadata(raw, depth)
  {
    if raw.Dict? {
      FillIsSettled(Take(raw.entries, MAX_ENTRIES), depth);
      SettledFieldsAreFixed(SafeMetadata(raw, depth), depth);
    }
  }

  /** No secret-looking key, long value or deep container, counted in remaining container levels. */
  ghost predicate Bounded(v: Value, levels: nat)
    decreases v
  {
    match v
    case Str(s) => |s| <= MAX_STR + |ELLIPSIS|
    case List(items) =>
      && levels > 0 && |items| <= MAX_ITEMS
      && forall i | 0 <= i < |items| :: Bounded(items[i], levels - 1)
    case Dict(entries) =>
      && levels > 0 && |entries| <= MAX_ENTRIES
      && forall i | 0 <= i < |entries| ::
           && entries[i].name.Some? && !LooksSecret(entries[i].name.value)
           && Bounded(entries[i].value, levels - 1)
    case Opaque(_) => false
    case _ => true
  }

  function LevelsAt(depth: nat): nat { if depth < MAX_DEPTH then MAX_DEPTH - depth else 0 }

  lemma {:induction false} SettledIsBounded(v: Value, depth: nat)
    requires Settled(v, depth)
    ensures Bounded(v, LevelsAt(depth))
    decreases v
  {
    match v
    case List(items) =>
      forall i | 0 <= i < |items| ensures Bounded(items[i], LevelsAt(depth) - 1) {
        SettledIsBounded(items[i], depth + 1);
      }
    case Dict(entries) =>
      forall i | 0 <= i < |entries| ensures Bounded(entries[i].value, LevelsAt(depth) - 1) {
        SettledIsBounded(entries[i].value, depth + 1);
      }
    case _ =>
  }

  /** What is published holds at every depth: three container levels, short values, no secret-looking key. */
  lemma {:induction false} PublishedMetadataIsBounded(raw: Value)
    ensures Bounded(Dict(SafeMetadata(raw, 0)), 3)
  {
    if raw.Dict? {
      FillIsSettled(Take(raw.entries, MAX_ENTRIES), 0);
      var out := SafeMetadata(raw, 0);
      forall i | 0 <= i < |out| ensures Bounded(out[i].value, 2) {
        SettledIsBounded(out[i].value, 0);
      }
    }
  }

  ghost function Leaves(v: Value): nat
    decreases v, 1
  {
    match v
    case List(items) => ItemLeaves(items)
    case Dict(entries) => EntryLeaves(entries)
    case _ => 1
  }

  ghost function ItemLeaves(items: seq<Value>): nat
    decreases items, 0
  {
    if items == [] then 0 else Leaves(items[0]) + ItemLeaves(items[1..])
  }

  ghost function EntryLeaves(entries: seq<Entry>): nat
    decreases entries, 0
  {
    if entries == [] then 0 else FieldLeaves(entries[0]) + EntryLeaves(entries[1..])
  }

  ghost function FieldLeaves(e: Entry): nat
    decreases e, 0
  {
    Leaves(e.value)
  }

  ghost function Widest(levels: nat): nat {
    if levels == 0 then 1 else MAX_ENTRIES * Widest(levels - 1)
  }

  lemma {:induction false} BoundedLeaves(v: Value, levels: nat)
    requires Bounded(v, levels)
    ensures Leaves(v) <= Widest(levels)
    decreases v, 1
  {
    match v
    case List(items) =>
      ManyItemLeaves(items, levels - 1);
      Scale(|items|, Widest(levels - 1));
    case Dict(entries) =>
      ManyEntryLeaves(entries, levels - 1);
      Scale(|entries|, Widest(levels - 1));
    case _ => WidestIsPositive(levels);
  }

  lemma Scale(n: nat, w: nat)
    requires n <= MAX_ENTRIES
    ensures n * w <= MAX_ENTRIES * w
  {
  }

  lemma {:induction false} WidestIsPositive(levels: nat)
    ensures 1 <= Widest(levels)
  {
    if levels > 0 {
      WidestIsPositive(levels - 1);
    }
  }

  lemma {:induction false} ManyItemLeaves(items: seq<Value>, levels: nat)
    requires forall i | 0 <= i < |items| :: Bounded(items[i], levels)
    ensures ItemLeaves(items) <= |items| * Widest(levels)
    decreases items, 0
  {
    if items != [] {
      BoundedLeaves(items[0], levels);
      ManyItemLeaves(items[1..], levels);
    }
  }

  lemma {:induction false} ManyEntryLeaves(entries: seq<Entry>, levels: nat)
    requires forall i | 0 <= i < |entries| :: Bounded(entries[i].value, levels)
    ensures EntryLeaves(entries) <= |entries| * Widest(levels)
    decreases entries, 0
  {
    if entries != [] {
      BoundedField(entries[0], levels);
      ManyEntryLeaves(entries[1..], levels);
    }
  }

  lemma {:induction false} BoundedField(e: Entry, levels: nat)
    requires Bounded(e.value, levels)
    ensures FieldLeaves(e) <= Widest(levels)
    decreases e, 0
  {
    BoundedLeaves(e.value, levels);
  }

  /** So one event carries at most 8000 scalars. */
  lemma {:induction false} PublishedMetadataIsSmall(raw: Value)
    ensures Leaves(Dict(SafeMetadata(raw, 0))) <= 8000
  {
    PublishedMetadataIsBounded(raw);
    BoundedLeaves(Dict(SafeMetadata(raw, 0)), 3);
    assert Widest(0) == 1 && Widest(1) == 20 && Widest(2) == 400 && Widest(3) == 8000;
  }

  // --- names are never cut ----------------------------------------------------

  const LONGEST: nat := MAX_STR + |ELLIPSIS|

  /** Every string in a published value is short, the names included. */
  ghost predicate AllShort(v: Value)
    decreases v, 1
  {
    match v
    case Str(s) => |s| <= LONGEST
    case List(items) => forall i | 0 <= i < |items| :: AllShort(items[i])
    case Dict(entries) => forall i | 0 <= i < |entries| :: ShortEntry(entries[i])
    case _ => true
  }

  ghost predicate ShortEntry(e: Entry)
    decreases e, 0
  {
    (e.name.Some? ==> |e.name.value| <= LONGEST) && AllShort(e.value)
  }

  /** A name of any length goes through, unless it looks secret. */
  lemma {:induction false} LongNameSurvives(name: string, i: int)
    requires !LooksSecret(name)
    ensures SafeMetadata(Dict([Entry(Some(name), Int(i))]), 0) == [Entry(Some(name), Int(i))]
    ensures AllShort(Dict(SafeMetadata(Dict([Entry(Some(name), Int(i))]), 0))) <==> |name| <= LONGEST
  {
    var e := Entry(Some(name), Int(i));
    assert [e][..0] == [] && Fill([], 0) == [];
    assert CleanField(e, 0) == Some(Int(i));
    var out := SafeMetadata(Dict([e]), 0);
    assert out == [e];
    assert ShortEntry(out[0]) <==> |name| <= LONGEST;
  }

  /** No long name where the sanitiser will look: the condition on what is handed over. */
  ghost predicate NamesShort(v: Value, depth: nat)
    decreases v, 1
  {
    match v
    case List(items) => depth < MAX_DEPTH ==> ItemNamesShort(Take(items, MAX_ITEMS), depth + 1)
    case Dict(entries) => depth < MAX_DEPTH ==> FieldNamesShort(Take(entries, MAX_ENTRIES), depth + 1, {})
    case _ => true
  }

  ghost predicate ItemNamesShort(items: seq<Value>, depth: nat)
    decreases items, 0
  {
    forall i | 0 <= i < |items| :: NamesShort(items[i], depth)
  }

  /** From the last entry back, each published name counts where it is first met: a later one replaces the value. */
  ghost predicate FieldNamesShort(entries: seq<Entry>, depth: nat, met: set<string>)
    decreases entries, 0
  {
    entries == [] ||
    (var n := |entries| - 1;
     var e := entries[n];
     if CleanField(e, depth).None? then FieldNamesShort(entries[..n], depth, met)
     else (e.name.value in met || FieldShort(e, depth)) && FieldNamesShort(entries[..n], depth, met + {e.name.value}))
  }

  ghost predicate FieldShort(e: Entry, depth: nat)
    decreases e, 0
  {
    (e.name.Some? ==> |e.name.value| <= LONGEST) && NamesShort(e.value, depth)
  }

  lemma {:induction false} CutIsShort(s: string)
    ensures |Cut(s)| <= LONGEST
  {
  }

  /** Values come out with short strings exactly when no long name goes in where it will be published. */
  lemma {:induction false} SafeIsShortIff(v: Value, depth: nat)
    ensures Safe(v, depth).Some? ==> (AllShort(Safe(v, depth).value) <==> NamesShort(v, depth))
    decreases v, 1
  {
    match v
    case Str(s) => CutIsShort(s);
    case Opaque(text) =>
      if depth < MAX_DEPTH && text.Some? {
        CutIsShort(text.value);
      }
    case List(items) =>
      if depth < MAX_DEPTH {
        ItemsAreShortIff(Take(items, MAX_ITEMS), depth + 1);
      }
    case Dict(entries) =>
      if depth < MAX_DEPTH {
        FillIsShortIff(Take(entries, MAX_ENTRIES), depth + 1, {});
        NothingMet(Fill(Take(entries, MAX_ENTRIES), depth + 1));
      }
    case _ =>
  }

  ghost predicate ShortItems(items: seq<Value>) { forall i | 0 <= i < |items| :: AllShort(items[i]) }

  lemma {:induction false} ShortItemsAppend(items: seq<Value>, v: Value)
    ensures ShortItems(items + [v]) <==> ShortItems(items) && AllShort(v)
  {
    if ShortItems(items + [v]) {
      assert forall i | 0 <= i < |items| :: (items + [v])[i] == items[i];
      assert (items + [v])[|items|] == v;
    }
  }

  lemma {:induction false} UnpublishedIsShort(v: Value, depth: nat)
    requires Safe(v, depth).None? || Safe(v, depth).value == Null
    ensures NamesShort(v, depth)
  {
  }

  lemma {:induction false} ItemNamesStep(items: seq<Value>, depth: nat)
    requires items != []
    ensures ItemNamesShort(items, depth)
       <==> ItemNamesShort(items[..|items| - 1], depth) && NamesShort(items[|items| - 1], depth)
  {
    var n := |items| - 1;
    assert forall i | 0 <= i < n :: items[..n][i] == items[i];
  }

  lemma {:induction false} ItemsAreShortIff(items: seq<Value>, depth: nat)
    ensures ShortItems(SafeItems(items, depth)) <==> ItemNamesShort(items, depth)
    decreases items, 0
  {
    if items != [] {
      var n := |items| - 1;
      ItemsAreShortIff(items[..n], depth);
      SafeIsShortIff(items[n], depth);
      ItemNamesStep(items, depth);
      var clean := Safe(items[n], depth);
      if clean.None? || clean.value == Null {
        UnpublishedIsShort(items[n], depth);
      } else {
        ShortItemsAppend(SafeItems(items[..n], depth), clean.value);
      }
    }
  }

  /** The entries whose name was not met later are short. */
  ghost predicate ShortBut(out: seq<Entry>, met: set<string>) {
    forall i | 0 <= i < |out| && out[i].name.Some? && out[i].name.value !in met :: ShortEntry(out[i])
  }

  ghost predicate Named(out: seq<Entry>) { forall i | 0 <= i < |out| :: out[i].name.Some? }

  lemma {:induction false} NothingMet(out: seq<Entry>)
    requires Named(out)
    ensures ShortBut(out, {}) <==> AllShort(Dict(out))
  {
  }

  lemma {:induction false} PutIsShortIff(out: seq<Entry>, name: string, v: Value, met: set<string>)
    requires Named(out) && DistinctNames(out)
    ensures Named(Put(out, name, v))
    ensures ShortBut(Put(out, name, v), met)
       <==> (name in met || ShortEntry(Entry(Some(name), v))) && ShortBut(out, met + {name})
  {
    if out == [] {
      assert Put(out, name, v)[0] == Entry(Some(name), v);
    } else {
      var rest := out[1..];
      assert forall i | 0 <= i < |rest| :: rest[i] == out[i + 1];
      var r := Put(out, name, v);
      if out[0].name == Some(name) {
        assert r == [Entry(Some(name), v)] + rest;
        SplitFirst(r, met);
        SplitFirst(out, met + {name});
        AllElsewhere(rest, name, met);
      } else {
        PutIsShortIff(rest, name, v, met);
        assert r == [out[0]] + Put(rest, name, v);
        SplitFirst(r, met);
        SplitFirst(out, met + {name});
      }
    }
  }

  lemma {:induction false} SplitFirst(out: seq<Entry>, met: set<string>)
    requires out != [] && out[0].name.Some?
    ensures ShortBut(out, met) <==> (out[0].name.value in met || ShortEntry(out[0])) && ShortBut(out[1..], met)
  {
    assert forall i | 0 <= i < |out[1..]| :: out[1..][i] == out[i + 1];
    assert forall i | 1 <= i < |out| :: out[i] == out[1..][i - 1];
  }

  lemma {:induction false} AllElsewhere(rest: seq<Entry>, name: string, met: set<string>)
    requires forall i | 0 <= i < |rest| :: rest[i].name != Some(name)
    ensures ShortBut(rest, met) <==> ShortBut(rest, met + {name})
  {
  }

  lemma {:induction false} FieldIsShortIff(e: Entry, depth: nat)
    ensures CleanField(e, depth).Some? ==>
              (ShortEntry(Entry(e.name, CleanField(e, depth).value)) <==> FieldShort(e, depth))
    decreases e, 0
  {
    SafeIsShortIff(e.value, depth);
  }

  lemma {:induction false} FillIsShortIff(entries: seq<Entry>, depth: nat, met: set<string>)
    ensures Named(Fill(entries, depth)) && DistinctNames(Fill(entries, depth))
    ensures ShortBut(Fill(entries, depth), met) <==> FieldNamesShort(entries, depth, met)
    decreases entries, 0
  {
    if entries != [] {
      var n := |entries| - 1;
      var e := entries[n];
      var before := Fill(entries[..n], depth);
      var clean := CleanField(e, depth);
      if clean.None? {
        FillIsShortIff(entries[..n], depth, met);
      } else {
        FillIsShortIff(entries[..n], depth, met + {e.name.value});
        FieldIsShortIff(e, depth);
        PutProperties(before, e.name.value, clean.value);
        PutIsShortIff(before, e.name.value, clean.value, met);
      }
    }
  }

  /** Every string of an event's metadata is short exactly when every name that will be published is. */
  lemma {:induction false} PublishedStringsAreShortIff(raw: Value)
    ensures AllShort(Dict(SafeMetadata(raw, 0)))
       <==> (raw.Dict? ==> FieldNamesShort(Take(raw.entries, MAX_ENTRIES), 0, {}))
  {
    if raw.Dict? {
      FillIsShortIff(Take(raw.entries, MAX_ENTRIES), 0, {});
      NothingMet(SafeMetadata(raw, 0));
    }
  }
}
