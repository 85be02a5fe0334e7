/** Levenshtein distance with two rolling rows, as used for OCR error rates. */
module EditDistance {

  function Min(a: nat, b: nat): nat { if a < b then a else b }

  function Cost<T(==)>(x: T, y: T): nat { if x == y then 0 else 1 }

  function Init<T>(s: seq<T>): seq<T>
    requires s != []
  {
    s[..|s| - 1]
  }

  function Last<T>(s: seq<T>): T
    requires s != []
  {
    s[|s| - 1]
  }

  /** A cell of the table from its three neighbours. */
  function Cell(left: nat, above: nat, diagonal: nat, cost: nat): nat {
    Min(Min(left + 1, above + 1), diagonal + cost)
  }

  /** The recursive minimum-edit distance. */
  function Distance<T(==)>(a: seq<T>, b: seq<T>): nat
    decreases |a| + |b|
  {
    if a == [] then |b|
    else if b == [] then |a|
    else Cell(Distance(a, Init(b)), Distance(Init(a), b), Distance(Init(a), Init(b)), Cost(Last(a), Last(b)))
  }

  lemma DistanceByCell<T>(a: seq<T>, b: seq<T>)
    requires a != [] && b != []
    ensures Distance(a, b) ==
            Cell(Distance(a, Init(b)), Distance(Init(a), b), Distance(Init(a), Init(b)), Cost(Last(a), Last(b)))
  {
  }

  lemma InitOfPrefix<T>(s: seq<T>, i: nat)
    requires i < |s|
    ensures Init(s[..i + 1]) == s[..i] && Last(s[..i + 1]) == s[i]
  {
  }

  /** `row[j]` holds the distance from `a` to the first `j` units of `b`. */
  ghost predicate IsRow<T>(row: seq<nat>, a: seq<T>, b: seq<T>, length: nat)
    requires length <= |b| + 1
  {
    |row| == length && forall j :: 0 <= j < length ==> row[j] == Distance(a, b[..j])
  }

  lemma NextCell<T>(a: seq<T>, b: seq<T>, i: nat, j: nat)
    requires i < |a| && j < |b|
    ensures Distance(a[..i + 1], b[..j + 1]) ==
            Cell(Distance(a[..i + 1], b[..j]), Distance(a[..i], b[..j + 1]), Distance(a[..i], b[..j]), Cost(a[i], b[j]))
  {
    InitOfPrefix(a, i);
    InitOfPrefix(b, j);
    DistanceByCell(a[..i + 1], b[..j + 1]);
  }

  lemma RowGrows<T>(row: seq<nat>, a: seq<T>, b: seq<T>, j: nat, cell: nat)
    requires j < |b| && IsRow(row, a, b, j + 1) && cell == Distance(a, b[..j + 1])
    ensures IsRow(row + [cell], a, b, j + 2)
  {
  }

  method NextRow<T(==)>(expected: seq<T>, predicted: seq<T>, i: nat, previous: seq<nat>) returns (current: seq<nat>)
    requires i < |expected| && IsRow(previous, expected[..i], predicted, |predicted| + 1)
    ensures IsRow(current, expected[..i + 1], predicted, |predicted| + 1)
  {
    current := [i + 1];
    for j := 0 to |predicted|
      invariant IsRow(current, expected[..i + 1], predicted, j + 1)
    {
      var cell := Cell(current[j], previous[j + 1], previous[j], Cost(expected[i], predicted[j]));
      NextCell(expected, predicted, i, j);
      RowGrows(current, expected[..i + 1], predicted, j, cell);
      current := current + [cell];
    }
  }

  method Levenshtein<T(==)>(expected: seq<T>, predicted: seq<T>) returns (distance: nat)
    ensures distance == Distance(expected, predicted)
  {
    var previous: seq<nat> := seq(|predicted| + 1, j => j);
    assert IsRow(previous, expected[..0], predicted, |predicted| + 1);
    for i := 0 to |expected|
      invariant IsRow(previous, expected[..i], predicted, |predicted| + 1)
    {
      previous := NextRow(expected, predicted, i, previous);
    }
    assert expected[..|expected|] == expected && predicted[..|predicted|] == predicted;
    return previous[|previous| - 1];
  }

  // An independent reading of the distance: the cheapest edit script.

  datatype Edit<T> = Keep(unit: T) | Replace(taken: T, given: T) | Delete(taken: T) | Insert(given: T) {
    function Source(): seq<T> {
      match this case Keep(u) => [u] case Replace(o, _) => [o] case Delete(o) => [o] case Insert(_) => []
    }

    function Target(): seq<T> {
      match this case Keep(u) => [u] case Replace(_, n) => [n] case Delete(_) => [] case Insert(n) => [n]
    }
  }

  function Before<T>(script: seq<Edit<T>>): seq<T> {
    if script == [] then [] else Before(Init(script)) + Last(script).Source()
  }

  function After<T>(script: seq<Edit<T>>): seq<T> {
    if script == [] then [] else After(Init(script)) + Last(script).Target()
  }

  /** Keeping a unit is free; replacing, deleting and inserting cost one each. */
  function Price<T>(script: seq<Edit<T>>): nat {
    if script == [] then 0 else Price(Init(script)) + if Last(script).Keep? then 0 else 1
  }

  lemma DistanceStep<T>(a: seq<T>, b: seq<T>, x: T)
    ensures Distance(a + [x], b) <= Distance(a, b) + 1
    ensures Distance(a, b + [x]) <= Distance(a, b) + 1
  {
    assert Init(a + [x]) == a && Init(b + [x]) == b;
  }

  lemma DistanceDiagonal<T>(a: seq<T>, b: seq<T>, x: T, y: T)
    ensures Distance(a + [x], b + [y]) <= Distance(a, b) + Cost(x, y)
  {
    assert Init(a + [x]) == a && Init(b + [y]) == b;
  }

  /** One more edit raises the distance by no more than it costs. */
  lemma EditCosts<T>(a: seq<T>, b: seq<T>, e: Edit<T>)
    ensures Distance(a + e.Source(), b + e.Target()) <= Distance(a, b) + if e.Keep? then 0 else 1
  {
    match e
    case Keep(u) => DistanceDiagonal(a, b, u, u);
    case Replace(o, n) => DistanceDiagonal(a, b, o, n);
    case Delete(o) =>
      DistanceStep(a, b, o);
      assert b + [] == b;
    case Insert(n) =>
      DistanceStep(a, b, n);
      assert a + [] == a;
  }

  /** No edit script is cheaper than the distance. */
  lemma {:induction false} ScriptsCostAtLeast<T>(script: seq<Edit<T>>)
    ensures Distance(Before(script), After(script)) <= Price(script)
  {
    if script != [] {
      ScriptsCostAtLeast(Init(script));
      EditCosts(Before(Init(script)), After(Init(script)), Last(script));
    }
  }

  lemma Extend<T>(script: seq<Edit<T>>, e: Edit<T>)
    ensures Before(script + [e]) == Before(script) + e.Source()
    ensures After(script + [e]) == After(script) + e.Target()
    ensures Price(script + [e]) == Price(script) + if e.Keep? then 0 else 1
  {
    assert Init(script + [e]) == script && Last(script + [e]) == e;
  }

  lemma InitLast<T>(s: seq<T>)
    ensures s != [] ==> Init(s) + [Last(s)] == s
  {
  }

  /** The last edit of a cheapest script, and what is left to edit before it. */
  function LastEdit<T(==)>(a: seq<T>, b: seq<T>): (r: (seq<T>, seq<T>, Edit<T>))
    requires a != [] || b != []
    ensures r.0 + r.2.Source() == a && r.1 + r.2.Target() == b
    ensures |r.0| + |r.1| < |a| + |b|
    ensures Distance(a, b) == Distance(r.0, r.1) + if r.2.Keep? then 0 else 1
  {
    InitLast(a);
    InitLast(b);
    if b == [] || (a != [] && Distance(a, b) == Distance(Init(a), b) + 1) then (Init(a), b, Delete(Last(a)))
    else if a == [] || Distance(a, b) == Distance(a, Init(b)) + 1 then (a, Init(b), Insert(Last(b)))
    else (Init(a), Init(b), if Last(a) == Last(b) then Keep(Last(a)) else Replace(Last(a), Last(b)))
  }

  /** Some edit script costs exactly the distance. */
  lemma {:induction false} SomeScriptCosts<T>(a: seq<T>, b: seq<T>) returns (script: seq<Edit<T>>)
    ensures Before(script) == a && After(script) == b && Price(script) == Distance(a, b)
    decreases |a| + |b|
  {
    if a == [] && b == [] {
      script := [];
    } else {
      var (a', b', e) := LastEdit(a, b);
      var rest := SomeScriptCosts(a', b');
      Extend(rest, e);
      script := rest + [e];
    }
  }

  // Metric laws.

  lemma {:induction false} DistanceBounds<T>(a: seq<T>, b: seq<T>)
    ensures |a| <= |b| + Distance(a, b) && |b| <= |a| + Distance(a, b)
    ensures Distance(a, b) <= if |a| < |b| then |b| else |a|
    decreases |a| + |b|
  {
    if a != [] && b != [] {
      DistanceBounds(a, Init(b));
      DistanceBounds(Init(a), b);
      DistanceBounds(Init(a), Init(b));
    }
  }

  lemma {:induction false} DistanceZeroIffEqual<T>(a: seq<T>, b: seq<T>)
    ensures Distance(a, b) == 0 <==> a == b
  {
    if a != [] && b != [] {
      DistanceZeroIffEqual(Init(a), Init(b));
      assert a == Init(a) + [Last(a)] && b == Init(b) + [Last(b)];
    }
  }

  lemma {:induction false} DistanceSymmetric<T>(a: seq<T>, b: seq<T>)
    ensures Distance(a, b) == Distance(b, a)
    decreases |a| + |b|
  {
    if a != [] && b != [] {
      DistanceSymmetric(a, Init(b));
      DistanceSymmetric(Init(a), b);
      DistanceSymmetric(Init(a), Init(b));
    }
  }

  lemma {:induction false} DistanceTriangle<T>(a: seq<T>, b: seq<T>, c: seq<T>)
    ensures Distance(a, c) <= Distance(a, b) + Distance(b, c)
    decreases |a| + |b| + |c|
  {
    DistanceBounds(a, b);
    DistanceBounds(b, c);
    DistanceBounds(a, c);
    if a != [] && b != [] && c != [] {
      if Distance(a, b) == Distance(Init(a), b) + 1 {
        DistanceTriangle(Init(a), b, c);
      } else if Distance(b, c) == Distance(b, Init(c)) + 1 {
        DistanceTriangle(a, b, Init(c));
      } else if Distance(a, b) == Distance(a, Init(b)) + 1 {
        if Distance(b, c) == Distance(Init(b), c) + 1 {
          DistanceTriangle(a, Init(b), c);
        } else {
          DistanceTriangle(a, Init(b), Init(c));
        }
      } else if Distance(b, c) == Distance(Init(b), c) + 1 {
        DistanceTriangle(Init(a), Init(b), c);
      } else {
        DistanceTriangle(Init(a), Init(b), Init(c));
      }
    }
  }
}
