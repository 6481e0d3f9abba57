/** Sorting strings as Python does, by code point. */
module StringOrder {
  predicate Distinct<T(==)>(xs: seq<T>) { forall i, j | 0 <= i < j < |xs| :: xs[i] != xs[j] }

  /** Python's order on strings: by code point, a prefix first. */
  predicate StringLess(a: string, b: string) {
    b != "" && (a == "" || a[0] < b[0] || (a[0] == b[0] && StringLess(a[1..], b[1..])))
  }

  function InsertString(x: string, xs: seq<string>): seq<string> {
    if xs == [] || !StringLess(xs[0], x) then [x] + xs else [xs[0]] + InsertString(x, xs[1..])
  }

  function SortStrings(xs: seq<string>): seq<string> {
    if xs == [] then [] else InsertString(xs[0], SortStrings(xs[1..]))
  }

  lemma {:induction false} InsertStringKeeps(x: string, xs: seq<string>)
    ensures multiset(InsertString(x, xs)) == multiset{x} + multiset(xs)
  {
    if xs != [] && StringLess(xs[0], x) {
      InsertStringKeeps(x, xs[1..]);
      assert xs == [xs[0]] + xs[1..];
    }
  }

  lemma {:induction false} SortStringsKeeps(xs: seq<string>)
    ensures multiset(SortStrings(xs)) == multiset(xs)
    ensures forall c :: c in SortStrings(xs) <==> c in xs
  {
    if xs != [] {
      SortStringsKeeps(xs[1..]);
      InsertStringKeeps(xs[0], SortStrings(xs[1..]));
      assert xs == [xs[0]] + xs[1..];
    }
    forall c ensures c in SortStrings(xs) <==> c in xs {
      assert c in multiset(SortStrings(xs)) <==> c in multiset(xs);
    }
  }

  lemma {:induction false} StringLessIrreflexive(a: string)
    ensures !StringLess(a, a)
  {
    if a != "" {
      StringLessIrreflexive(a[1..]);
    }
  }

  lemma {:induction false} StringLessTransitive(a: string, b: string, c: string)
    requires StringLess(a, b) && StringLess(b, c)
    ensures StringLess(a, c)
  {
    if a != "" && a[0] == b[0] && b[0] == c[0] {
      StringLessTransitive(a[1..], b[1..], c[1..]);
    }
  }

  lemma {:induction false} StringLessTotal(a: string, b: string)
    ensures a == b || StringLess(a, b) || StringLess(b, a)
  {
    if a != "" && b != "" && a[0] == b[0] {
      StringLessTotal(a[1..], b[1..]);
      assert a == [a[0]] + a[1..] && b == [b[0]] + b[1..];
    }
  }

  ghost predicate Ascending(xs: seq<string>) {
    forall i, j | 0 <= i < j < |xs| :: StringLess(xs[i], xs[j])
  }

  lemma {:induction false} SortedDistinct(xs: seq<string>)
    requires Ascending(xs)
    ensures Distinct(xs)
  {
    forall i, j | 0 <= i < j < |xs| ensures xs[i] != xs[j] {
      StringLessIrreflexive(xs[i]);
    }
  }

  lemma {:induction false} InsertAscending(x: string, xs: seq<string>)
    requires Ascending(xs) && x !in xs
    ensures Ascending(InsertString(x, xs))
  {
    var out := InsertString(x, xs);
    if xs != [] && StringLess(xs[0], x) {
      var rest := InsertString(x, xs[1..]);
      InsertAscending(x, xs[1..]);
      InsertStringKeeps(x, xs[1..]);
      forall j | 0 <= j < |rest| ensures StringLess(xs[0], rest[j]) {
        assert rest[j] in multiset(rest);
        if rest[j] != x {
          assert rest[j] in xs[1..];
          var k :| 0 <= k < |xs[1..]| && xs[1..][k] == rest[j];
          assert xs[k + 1] == rest[j];
        }
      }
    } else if xs != [] {
      StringLessTotal(x, xs[0]);
      forall j | 0 <= j < |xs| ensures StringLess(x, xs[j]) {
        if j > 0 {
          StringLessTransitive(x, xs[0], xs[j]);
        }
      }
    }
  }

  lemma {:induction false} SortStringsSorts(xs: seq<string>)
    requires Distinct(xs)
    ensures Ascending(SortStrings(xs))
  {
    if xs != [] {
      assert xs == [xs[0]] + xs[1..];
      SortStringsSorts(xs[1..]);
      SortStringsKeeps(xs[1..]);
      assert xs[0] !in xs[1..];
      InsertAscending(xs[0], SortStrings(xs[1..]));
    }
  }

  lemma {:induction false} TailMembers(xs: seq<string>)
    requires xs != [] && Distinct(xs)
    ensures forall x :: x in xs[1..] <==> x in xs && x != xs[0]
  {
    assert xs == [xs[0]] + xs[1..];
  }

  lemma {:induction false} NoMembersIsEmpty(b: seq<string>)
    ensures b == [] <==> forall x :: x !in b
  {
    if b != [] {
      assert b[0] in b;
    }
  }

  lemma {:induction false} AscendingIsUnique(a: seq<string>, b: seq<string>)
    requires Ascending(a) && Ascending(b) && forall x :: x in a <==> x in b
    ensures a == b
  {
    if a == [] {
      NoMembersIsEmpty(b);
    } else {
      assert a[0] in b;
      NoMembersIsEmpty(b);
      assert b[0] in a;
      assert a[0] == b[0] by {
        var i :| 0 <= i < |b| && b[i] == a[0];
        var j :| 0 <= j < |a| && a[j] == b[0];
        if i > 0 && j > 0 {
          StringLessTransitive(a[0], a[j], b[i]);
          StringLessIrreflexive(a[0]);
        }
      }
      SortedDistinct(a);
      SortedDistinct(b);
      TailMembers(a);
      TailMembers(b);
      AscendingIsUnique(a[1..], b[1..]);
      assert a == [a[0]] + a[1..] && b == [b[0]] + b[1..];
    }
  }
}
