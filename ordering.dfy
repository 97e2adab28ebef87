/** Python's ordering of `str` values and `sorted(..., reverse=True)` on a
    list of strings.

    Strings compare lexicographically by code point, a proper prefix first.
    The year columns are sorted with this order, which is why "2024년"
    precedes "2023년" and why an int column name, once turned into a string,
    sorts among them by its characters rather than its numeric value. */
module Ordering {

  /** Python's `a < b` on str. */
  predicate Less(a: string, b: string) {
    if a == [] then b != []
    else if b == [] then false
    else if a[0] != b[0] then a[0] < b[0]
    else Less(a[1..], b[1..])
  }

  lemma {:induction false} LessIrreflexive(a: string)
    ensures !Less(a, a)
  {
    if a != [] {
      LessIrreflexive(a[1..]);
    }
  }

  lemma {:induction false} LessTransitive(a: string, b: string, c: string)
    requires Less(a, b) && Less(b, c)
    ensures Less(a, c)
  {
    if a != [] && a[0] == b[0] && b[0] == c[0] {
      LessTransitive(a[1..], b[1..], c[1..]);
    }
  }

  /** Any two strings are equal or ordered one way. */
  lemma {:induction false} LessTotal(a: string, b: string)
    ensures a == b || Less(a, b) || Less(b, a)
  {
    if a != [] && b != [] && a[0] == b[0] {
      LessTotal(a[1..], b[1..]);
      if a[1..] == b[1..] {
        assert a == [a[0]] + a[1..] && b == [b[0]] + b[1..];
      }
    }
  }

  lemma LessAsymmetric(a: string, b: string)
    requires Less(a, b)
    ensures !Less(b, a)
  {
    if Less(b, a) {
      LessTransitive(a, b, a);
      LessIrreflexive(a);
    }
  }

  /** Non-increasing: no element is smaller than a later one. */
  predicate Descending(s: seq<string>) {
    forall i, j :: 0 <= i < j < |s| ==> !Less(s[i], s[j])
  }

  /** Strictly decreasing, hence also free of duplicates. */
  predicate StrictlyDescending(s: seq<string>) {
    forall i, j :: 0 <= i < j < |s| ==> Less(s[j], s[i])
  }

  predicate StrictlyAscending(s: seq<string>) {
    forall i, j :: 0 <= i < j < |s| ==> Less(s[i], s[j])
  }

  /** Inserts x before the first element it is not smaller than. */
  function Insert(x: string, s: seq<string>): (r: seq<string>)
    ensures multiset(r) == multiset(s) + multiset{x}
  {
    if s == [] then [x]
    else if !Less(x, s[0]) then [x] + s
    else
      assert s == [s[0]] + s[1..];
      [s[0]] + Insert(x, s[1..])
  }

  lemma {:induction false} InsertDescending(x: string, s: seq<string>)
    requires Descending(s)
    ensures Descending(Insert(x, s))
  {
    var r := Insert(x, s);
    if s == [] {
    } else if !Less(x, s[0]) {
      forall j | 1 <= j < |r|
        ensures !Less(x, r[j])
      {
        assert r[j] == s[j - 1];
        if Less(x, s[j - 1]) {
          LessTotal(s[0], s[j - 1]);
          if s[0] != s[j - 1] {
            LessTransitive(x, s[j - 1], s[0]);
          }
        }
      }
    } else {
      var rest := Insert(x, s[1..]);
      InsertDescending(x, s[1..]);
      LessAsymmetric(x, s[0]);
      forall j | 1 <= j < |r|
        ensures !Less(s[0], r[j])
      {
        assert r[j] == rest[j - 1];
        assert r[j] in multiset(rest);
        if r[j] != x {
          assert r[j] in multiset(s[1..]);
          var k :| 0 <= k < |s[1..]| && s[1..][k] == r[j];
          assert s[k + 1] == r[j];
        }
      }
    }
  }

  /** `sorted(s, reverse=True)` */
  function SortDescending(s: seq<string>): (r: seq<string>)
    ensures multiset(r) == multiset(s)
    ensures Descending(r)
  {
    if s == [] then []
    else
      var rest := SortDescending(s[1..]);
      InsertDescending(s[0], rest);
      assert s == [s[0]] + s[1..];
      Insert(s[0], rest)
  }

  predicate NoDuplicates(s: seq<string>) {
    forall i, j :: 0 <= i < j < |s| ==> s[i] != s[j]
  }

  /** Inserting a new element into a strictly descending list keeps it
      strictly descending. */
  lemma {:induction false} InsertStrict(x: string, s: seq<string>)
    requires StrictlyDescending(s) && x !in s
    ensures StrictlyDescending(Insert(x, s))
  {
    var r := Insert(x, s);
    if s == [] {
    } else if !Less(x, s[0]) {
      LessTotal(x, s[0]);
      forall j | 1 <= j < |r|
        ensures Less(r[j], x)
      {
        assert r[j] == s[j - 1];
        if j > 1 {
          LessTransitive(s[j - 1], s[0], x);
        }
      }
    } else {
      var rest := Insert(x, s[1..]);
      InsertStrict(x, s[1..]);
      forall j | 1 <= j < |r|
        ensures Less(r[j], s[0])
      {
        assert r[j] == rest[j - 1];
        assert r[j] in multiset(rest);
        if r[j] != x {
          assert r[j] in multiset(s[1..]);
          var k :| 0 <= k < |s[1..]| && s[1..][k] == r[j];
          assert s[k + 1] == r[j];
        }
      }
    }
  }

  /** Sorting a list without duplicates gives a strictly descending list. */
  lemma {:induction false} SortDistinct(s: seq<string>)
    requires NoDuplicates(s)
    ensures StrictlyDescending(SortDescending(s))
  {
    if s != [] {
      var rest := SortDescending(s[1..]);
      SortDistinct(s[1..]);
      assert s[0] !in s[1..];
      assert s[0] !in multiset(s[1..]);
      assert s[0] !in rest by {
        assert multiset(rest) == multiset(s[1..]);
      }
      InsertStrict(s[0], rest);
    }
  }

  /** A strictly descending list is determined by its elements: two of them
      holding the same strings are equal. */
  lemma {:induction false} StrictlyDescendingUnique(a: seq<string>, b: seq<string>)
    requires StrictlyDescending(a) && StrictlyDescending(b)
    requires forall x :: x in a <==> x in b
    ensures a == b
  {
    if a == [] {
      HeadIsMember(b);
    } else {
      assert a[0] in b;
      assert b != [];
      assert b[0] in a;
      if a[0] != b[0] {
        var k :| 0 <= k < |b| && b[k] == a[0];
        var m :| 0 <= m < |a| && a[m] == b[0];
        assert Less(b[k], b[0]) && Less(a[m], a[0]);
        LessAsymmetric(a[0], b[0]);
      }
      forall x
        ensures x in a[1..] <==> x in b[1..]
      {
        if x in a[1..] {
          var i :| 1 <= i < |a| && a[i] == x;
          assert Less(x, a[0]);
          LessIrreflexive(x);
          assert x in b && x != b[0];
        }
        if x in b[1..] {
          var i :| 1 <= i < |b| && b[i] == x;
          assert Less(x, b[0]);
          LessIrreflexive(x);
          assert x in a && x != a[0];
        }
      }
      StrictlyDescendingUnique(a[1..], b[1..]);
      assert a == [a[0]] + a[1..] && b == [b[0]] + b[1..];
    }
  }

  lemma HeadIsMember(b: seq<string>)
    ensures b != [] ==> b[0] in b
  {
  }

  function Reverse(s: seq<string>): (r: seq<string>)
    ensures |r| == |s|
    ensures forall i :: 0 <= i < |s| ==> r[i] == s[|s| - 1 - i]
    ensures multiset(r) == multiset(s)
  {
    if s == [] then []
    else
      assert s == [s[0]] + s[1..];
      Reverse(s[1..]) + [s[0]]
  }

  /** `sorted(s)` on distinct strings: ascending. */
  function SortAscending(s: seq<string>): seq<string> {
    Reverse(SortDescending(s))
  }

  lemma SortAscendingDistinct(s: seq<string>)
    requires NoDuplicates(s)
    ensures StrictlyAscending(SortAscending(s))
    ensures forall x :: x in SortAscending(s) <==> x in s
  {
    var d := SortDescending(s);
    SortDistinct(s);
    ReverseStrict(d);
    forall x
      ensures x in Reverse(d) <==> x in s
    {
      calc {
        x in Reverse(d);
        x in multiset(Reverse(d));
        x in multiset(s);
        x in s;
      }
    }
  }

  lemma ReverseStrict(d: seq<string>)
    requires StrictlyDescending(d)
    ensures StrictlyAscending(Reverse(d))
  {
    var r := Reverse(d);
    forall i, j | 0 <= i < j < |r|
      ensures Less(r[i], r[j])
    {
      assert r[i] == d[|d| - 1 - i] && r[j] == d[|d| - 1 - j];
    }
  }
}
