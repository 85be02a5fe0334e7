/** What the number reader makes of printed quantities when documents are compared. */
module PrintedQuantities {
  import opened Wrappers
  import opened Reconciliation
  import opened NumberFormat
  import opened HoldDecision
  import Digits

  /** A quantity as it is printed: the number, the style, and whether thousands are grouped. */
  datatype Printed = Printed(number: nat, style: Style, grouped: bool)

  predicate Readable(p: Printed) {
    0 < p.number <= Digits.Power10(24)
  }

  /** The items show the printed quantities, confidently. */
  predicate Shows(items: seq<Item>, printed: seq<Printed>, thr: real) {
    && |items| == |printed|
    && forall i :: 0 <= i < |items| ==>
         && Readable(printed[i]) && items[i].quantity.confidence >= thr
         && items[i].quantity.value == Text(IntegerText(printed[i].style, printed[i].grouped, printed[i].number))
  }

  lemma PrintedIsRead(p: Printed, th: Theory)
    requires Readable(p)
    ensures Parse(Text(IntegerText(p.style, p.grouped, p.number)), WithParser(th)) == Some(p.number as real)
  {
    IntegersRoundTrip(p.style, p.grouped, p.number);
    assert Digits.Power10(0) == 1;
    assert Real(Dec(p.number, 0)) == p.number as real;
  }

  lemma ShownQuantity(items: seq<Item>, printed: seq<Printed>, thr: real, th: Theory, i: nat)
    requires Shows(items, printed, thr) && i < |items|
    ensures Quantity(items[i], thr, WithParser(th)) == Some(printed[i].number as real)
  {
    PrintedIsRead(printed[i], th);
  }

  /** The same as `QuantitiesConflict`, on the quantities themselves. */
  predicate ValuesConflict(values: seq<Option<real>>) {
    && (forall i :: 0 <= i < |values| ==> values[i].Some? && values[i].value > 0.0)
    && (exists i, j :: 0 <= i < j < |values| && values[i] != values[j])
  }

  lemma ConflictByValues(items: seq<Item>, values: seq<Option<real>>, thr: real, th: Theory)
    requires |values| == |items| && forall i :: 0 <= i < |items| ==> values[i] == Quantity(items[i], thr, th)
    ensures QuantitiesConflict(items, thr, th) <==> ValuesConflict(values)
  {
  }

  /**
   * However they are printed, plain or with thousands groups in either style, whole quantities are
   * in conflict exactly when two of the numbers differ.
   */
  lemma StyleDoesNotMatter(items: seq<Item>, printed: seq<Printed>, thr: real, th: Theory)
    requires Shows(items, printed, thr)
    ensures QuantitiesConflict(items, thr, WithParser(th)) <==>
            exists i, j :: 0 <= i < j < |printed| && printed[i].number != printed[j].number
  {
    var values := seq(|printed|, i requires 0 <= i < |printed| => Some(printed[i].number as real));
    forall i | 0 <= i < |items| ensures values[i] == Quantity(items[i], thr, WithParser(th)) {
      ShownQuantity(items, printed, thr, th, i);
    }
    ConflictByValues(items, values, thr, WithParser(th));
  }

  lemma PositiveReal(d: Dec)
    requires d.coefficient > 0
    ensures Real(d) > 0.0
  {
  }

  lemma ThousandTimes(d: Dec)
    requires d.coefficient > 0 && d.scale == 3
    ensures Real(Dec(d.coefficient, 0)) == 1000.0 * Real(d)
  {
    assert Digits.Power10(3) == 1000 && Digits.Power10(0) == 1;
  }

  lemma DecimalIsRead(style: Style, n: nat, fraction: string, th: Theory)
    requires fraction != [] && Digits.AllDigits(fraction)
    ensures Plausible(Exact(n, fraction)) ==>
              Parse(Text(DecimalText(style, false, n, fraction)), WithParser(th)) ==
              Some(Real(if Ambiguous(n, fraction) then Dec(Exact(n, fraction).coefficient, 0) else Exact(n, fraction)))
  {
    ParsePrintedDecimal(style, false, n, fraction);
    if Ambiguous(n, fraction) {
      ValueBelow(fraction);
      assert Digits.Power10(3) == 1000;
      SmallIsPlausible(n * 1000 + Digits.Value(fraction));
    }
  }

  lemma TwoValues(p: real, q: real)
    ensures ValuesConflict([Some(p), Some(q)]) <==> p > 0.0 && q > 0.0 && p != q
  {
    var values := [Some(p), Some(q)];
    assert values[0] == Some(p) && values[1] == Some(q);
  }

  lemma TwoQuantities(a: Item, b: Item, p: real, q: real, thr: real, th: Theory)
    requires Quantity(a, thr, th) == Some(p) && Quantity(b, thr, th) == Some(q)
    ensures QuantitiesConflict([a, b], thr, th) <==> p > 0.0 && q > 0.0 && p != q
  {
    ConflictByValues([a, b], [Some(p), Some(q)], thr, th);
    TwoValues(p, q);
  }

  /**
   * Two items with one decimal quantity, the first given as a number and the second printed without
   * groups, are in conflict exactly when the text is ambiguous: it is read a thousand times as large.
   */
  lemma MisreadIsConflict(
      a: Item, b: Item, style: Style, n: nat, fraction: string, repr: string, thr: real, th: Theory)
    requires fraction != [] && Digits.AllDigits(fraction) && Plausible(Exact(n, fraction))
    requires Exact(n, fraction).coefficient > 0
    requires a.quantity.confidence >= thr && b.quantity.confidence >= thr
    requires a.quantity.value == Number(repr, Some(Exact(n, fraction)))
    requires b.quantity.value == Text(DecimalText(style, false, n, fraction))
    ensures QuantitiesConflict([a, b], thr, WithParser(th)) <==> Ambiguous(n, fraction)
  {
    var exact := Exact(n, fraction);
    var read := Real(if Ambiguous(n, fraction) then Dec(exact.coefficient, 0) else exact);
    DecimalIsRead(style, n, fraction, th);
    TwoQuantities(a, b, Real(exact), read, thr, WithParser(th));
    PositiveReal(exact);
    if Ambiguous(n, fraction) { ThousandTimes(exact); }
  }
}
