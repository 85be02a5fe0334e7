/** Python's ordering of strings, and `sorted` over lists and sets of strings. */
module StringOrder {

  /** Code point by code point; a proper prefix comes first. */
  predicate Leq(a: string, b: string) {
    a == [] || (b != [] && (a[0] < b[0] || (a[0] == b[0] && Leq(a[1..], b[1..]))))
  }

  /** The strings first differ at `k`, where the first one is smaller. */
  predicate SmallerAt(a: string, b: string, k: nat) {
    k < |a| && k < |b| && a[..k] == b[..k] && a[k] < b[k]
  }

  lemma {:induction false} FirstDifference(a: string, b: string) returns (k: nat)
    ensures Leq(a, b) ==> a <= b || SmallerAt(a, b, k)
  {
    k := 0;
    if a != [] && b != [] && a[0] == b[0] {
      k := FirstDifference(a[1..], b[1..]);
      assert a == [a[0]] + a[1..] && b == [b[0]] + b[1..];
      if SmallerAt(a[1..], b[1..], k) {
        assert a[..k + 1] == [a[0]] + a[1..][..k] && b[..k + 1] == [b[0]] + b[1..][..k];
        k := k + 1;
      }
    }
  }

  lemma {:induction false} SmallerIsLeq(a: string, b: string, k: nat)
    requires SmallerAt(a, b, k)
    ensures Leq(a, b)
  {
    if k > 0 {
      assert a[..k][0] == a[0] && b[..k][0] == b[0];
      assert a[1..][..k - 1] == a[..k][1..] && b[1..][..k - 1] == b[..k][1..];
      SmallerIsLeq(a[1..], b[1..], k - 1);
    }
  }

  lemma {:induction false} PrefixIsLeq(a: string, b: string)
    requires a <= b
    ensures Leq(a, b)
  {
    if a != [] { PrefixIsLeq(a[1..], b[1..]); }
  }

  /** One string comes before another as a prefix, or by the first character in which they differ. */
  lemma LeqByFirstDifference(a: string, b: string)
    ensures Leq(a, b) <==> a <= b || exists k :: SmallerAt(a, b, k)
  {
    var n := FirstDifference(a, b);
    if a <= b { PrefixIsLeq(a, b); }
    forall k | SmallerAt(a, b, k) ensures Leq(a, b) { SmallerIsLeq(a, b, k); }
  }

  lemma LeqTotal(a: string, b: string)
    ensures Leq(a, b) || Leq(b, a)
  {
  }

  lemma LeqAntisymmetric(a: string, b: string)
    requires Leq(a, b) && Leq(b, a)
    ensures a == b
  {
    if a != [] && b != [] {
      LeqAntisymmetric(a[1..], b[1..]);
      assert a == [a[0]] + a[1..] && b == [b[0]] + b[1..];
    }
  }

  lemma LeqTransitive(a: string, b: string, c: string)
    requires Leq(a, b) && Leq(b, c)
    ensures Leq(a, c)
  {
  }

  predicate Sorted(s: seq<string>) {
    forall i, j :: 0 <= i < j < |s| ==> Leq(s[i], s[j])
  }

  function Insert(x: string, s: seq<string>): seq<string> {
    if s == [] then [x]
    else if Leq(x, s[0]) then [x] + s
    else [s[0]] + Insert(x, s[1..])
  }

  function Sort(s: seq<string>): seq<string> {
    if s == [] then [] else Insert(s[0], Sort(s[1..]))
  }

  lemma {:induction false} InsertPermutes(x: string, s: seq<string>)
    ensures multiset(Insert(x, s)) == multiset{x} + multiset(s)
  {
    if s != [] {
      assert s == [s[0]] + s[1..];
      InsertPermutes(x, s[1..]);
    }
  }

  lemma {:induction false} InsertSorts(x: string, s: seq<string>)
    requires Sorted(s)
    ensures Sorted(Insert(x, s))
  {
    if s != [] {
      if Leq(x, s[0]) {
        forall j | 0 <= j < |s| ensures Leq(x, s[j]) {
          if 0 < j { LeqTransitive(x, s[0], s[j]); }
        }
      } else {
        LeqTotal(x, s[0]);
        InsertSorts(x, s[1..]);
        var r := Insert(x, s[1..]);
        InsertPermutes(x, s[1..]);
        forall j | 0 <= j < |r| ensures Leq(s[0], r[j]) {
          assert r[j] in multiset(r);
          assert r[j] == x || r[j] in s[1..];
        }
      }
    }
  }

  lemma {:induction false} SortSorts(s: seq<string>)
    ensures Sorted(Sort(s)) && multiset(Sort(s)) == multiset(s)
  {
    if s != [] {
      SortSorts(s[1..]);
      InsertSorts(s[0], Sort(s[1..]));
      InsertPermutes(s[0], Sort(s[1..]));
      assert s == [s[0]] + s[1..];
    }
  }

  lemma SortedListingHead(a: seq<string>, b: seq<string>)
    requires Sorted(a) && Sorted(b) && a != [] && b != []
    requires a[0] in b && b[0] in a
    ensures a[0] == b[0]
  {
    LeqTotal(a[0], a[0]);
    assert Leq(a[0], b[0]) && Leq(b[0], a[0]);
    LeqAntisymmetric(a[0], b[0]);
  }

  lemma TailMultiset(s: seq<string>)
    requires s != []
    ensures s == [s[0]] + s[1..] && multiset(s[1..]) == multiset(s) - multiset{s[0]}
  {
    assert s == [s[0]] + s[1..];
  }

  /** A multiset has one sorted listing only. */
  lemma {:induction false} SortedListingUnique(a: seq<string>, b: seq<string>)
    requires Sorted(a) && Sorted(b) && multiset(a) == multiset(b)
    ensures a == b
  {
    assert |multiset(a)| == |a| && |multiset(b)| == |b|;
    if a != [] {
      assert a[0] in multiset(b) && b[0] in multiset(a);
      SortedListingHead(a, b);
      TailMultiset(a);
      TailMultiset(b);
      SortedListingUnique(a[1..], b[1..]);
    }
  }

  /** Two lists sort to the same list exactly when they hold the same strings equally often. */
  lemma SortCanonical(a: seq<string>, b: seq<string>)
    ensures Sort(a) == Sort(b) <==> multiset(a) == multiset(b)
  {
    SortSorts(a);
    SortSorts(b);
    if multiset(a) == multiset(b) {
      SortedListingUnique(Sort(a), Sort(b));
    }
  }

  predicate IsLeast(x: string, s: set<string>) {
    x in s && forall y :: y in s ==> Leq(x, y)
  }

  lemma {:induction false} LeastExists(s: set<string>)
    requires s != {}
    ensures exists x :: IsLeast(x, s)
    decreases |s|
  {
    var e :| e in s;
    LeqTotal(e, e);
    if s == {e} {
      assert IsLeast(e, s);
    } else {
      LeastExists(s - {e});
      var x :| IsLeast(x, s - {e});
      if Leq(e, x) {
        forall y | y in s ensures Leq(e, y) {
          if y != e { LeqTransitive(e, x, y); }
        }
        assert IsLeast(e, s);
      } else {
        LeqTotal(e, x);
        assert IsLeast(x, s);
      }
    }
  }

  /** `sorted` over a set: its elements in increasing order, each once. */
  function SortedSet(s: set<string>): (r: seq<string>)
    ensures forall x :: x in s <==> x in r
    ensures Sorted(r) && forall i, j :: 0 <= i < j < |r| ==> r[i] != r[j]
    decreases |s|
  {
    if s == {} then []
    else
      LeastExists(s);
      assert forall x, y | IsLeast(x, s) && IsLeast(y, s) :: x == y by {
        forall x, y | IsLeast(x, s) && IsLeast(y, s) ensures x == y { LeqAntisymmetric(x, y); }
      }
      var x :| IsLeast(x, s);
      var rest := SortedSet(s - {x});
      [x] + rest
  }
}
