/** Parsing of Indonesian and machine number formats, and what it does to printed numbers. */
module NumberFormat {
  import opened Digits
  import opened Wrappers

  /** An exact decimal: `coefficient` divided by ten to the power `scale`. */
  datatype Dec = Dec(coefficient: int, scale: nat)

  predicate SameValue(a: Dec, b: Dec) {
    a.coefficient * Power10(b.scale) == b.coefficient * Power10(a.scale)
  }

  function Magnitude(a: Dec): nat {
    if a.coefficient < 0 then -a.coefficient else a.coefficient
  }

  /**
   * The magnitude limit is 10^24. It is compared after rounding to 28 significant digits, which at
   * this magnitude keeps three decimals, so up to half a thousandth more still passes.
   */
  predicate Plausible(a: Dec) {
    2000 * Magnitude(a) <= (2000 * Power10(24) + 1) * Power10(a.scale)
  }

  // ---------------------------------------------------------------------------------------------
  // Text rewriting
  // ---------------------------------------------------------------------------------------------

  predicate IsSpace(c: char) {
    9 as char <= c <= 13 as char || 28 as char <= c <= ' ' || c == 0x85 as char || c == 0xA0 as char
  }

  function TrimLeft(s: string): string {
    if s != [] && IsSpace(s[0]) then TrimLeft(s[1..]) else s
  }

  function TrimRight(s: string): string {
    if s != [] && IsSpace(s[|s| - 1]) then TrimRight(s[..|s| - 1]) else s
  }

  /** Every occurrence of a two-letter word removed, from left to right. */
  function RemoveWord(s: string, a: char, b: char): string {
    if |s| < 2 then s
    else if s[0] == a && s[1] == b then RemoveWord(s[2..], a, b)
    else [s[0]] + RemoveWord(s[1..], a, b)
  }

  function RemoveChar(s: string, c: char): string {
    if s == [] then []
    else (if s[0] == c then [] else [s[0]]) + RemoveChar(s[1..], c)
  }

  function ReplaceChar(s: string, c: char, d: char): string {
    if s == [] then [] else [if s[0] == c then d else s[0]] + ReplaceChar(s[1..], c, d)
  }

  /** Surrounding white space, the currency mark and blanks removed. */
  function Clean(value: string): string {
    RemoveChar(RemoveWord(RemoveWord(TrimLeft(TrimRight(value)), 'R', 'p'), 'r', 'p'), ' ')
  }

  // ---------------------------------------------------------------------------------------------
  // Recognisers
  // ---------------------------------------------------------------------------------------------

  predicate Fraction(s: string, point: char) {
    |s| >= 2 && s[0] == point && AllDigits(s[1..])
  }

  /** One or more groups of a separator and three digits, then an optional fraction. */
  predicate Groups(s: string, separator: char, point: char) {
    && |s| >= 4 && s[0] == separator && AllDigits(s[1..4])
    && (s[4..] == [] || Fraction(s[4..], point) || Groups(s[4..], separator, point))
  }

  /** One to three digits, then groups. */
  predicate Grouped(s: string, separator: char, point: char) {
    var h := Leading(s);
    1 <= h <= 3 && Groups(s[h..], separator, point)
  }

  function Unsigned(s: string): string {
    if s != [] && s[0] == '-' then s[1..] else s
  }

  predicate IndonesianGrouped(s: string) { Grouped(s, '.', ',') }

  predicate MachineGrouped(s: string) { Grouped(s, ',', '.') }

  /** Digits with at most one point among them, and at least one digit. */
  function PlainDecimal(s: string): Option<Dec> {
    var h := Leading(s);
    if h == |s| then (if h > 0 then Some(Dec(Value(s[..h]), 0)) else None)
    else if s[h] == '.' && |s| > 1 && AllDigits(s[h + 1..]) then
      Some(Dec(Value(s[..h] + s[h + 1..]), |s| - h - 1))
    else None
  }

  function Negated(d: Option<Dec>): Option<Dec> {
    if d.Some? then Some(Dec(-d.value.coefficient, d.value.scale)) else None
  }

  /** The decimal constructor on plain ASCII notation: an optional sign before a plain decimal. */
  function ReadDecimal(s: string): Option<Dec> {
    if s != [] && s[0] == '-' then Negated(PlainDecimal(s[1..]))
    else if s != [] && s[0] == '+' then PlainDecimal(s[1..])
    else PlainDecimal(s)
  }

  function Guarded(d: Option<Dec>): Option<Dec> {
    if d.Some? && Plausible(d.value) then d else None
  }

  function Canonical(raw: string): string {
    if IndonesianGrouped(Unsigned(raw)) then ReplaceChar(RemoveChar(raw, '.'), ',', '.')
    else if MachineGrouped(Unsigned(raw)) then RemoveChar(raw, ',')
    else ReplaceChar(raw, ',', '.')
  }

  function ParseNumber(value: string): Option<Dec> {
    Guarded(ReadDecimal(Canonical(Clean(value))))
  }

  // ---------------------------------------------------------------------------------------------
  // Printers
  // ---------------------------------------------------------------------------------------------

  function Pad3(n: nat): string
    requires n < 1000
  {
    [Digit(n / 100), Digit(n / 10 % 10), Digit(n % 10)]
  }

  function WithThousands(n: nat, separator: char): string {
    if n < 1000 then Decimal(n) else WithThousands(n / 1000, separator) + [separator] + Pad3(n % 1000)
  }

  datatype Style = Indonesian | Machine {
    function Separator(): char { if Indonesian? then '.' else ',' }
    function Point(): char { if Indonesian? then ',' else '.' }
  }

  function IntegerText(style: Style, grouped: bool, n: nat): string {
    if grouped then WithThousands(n, style.Separator()) else Decimal(n)
  }

  function DecimalText(style: Style, grouped: bool, n: nat, fraction: string): string {
    IntegerText(style, grouped, n) + ([style.Point()] + fraction)
  }

  // ---------------------------------------------------------------------------------------------
  // Cleaning and rewriting leave numeric text alone
  // ---------------------------------------------------------------------------------------------

  predicate Numeric(s: string) {
    forall i :: 0 <= i < |s| ==> IsDigit(s[i]) || s[i] == '.' || s[i] == ','
  }

  lemma {:induction false} RemoveCharAbsent(s: string, c: char)
    requires c !in s
    ensures RemoveChar(s, c) == s
  {
    if s != [] { RemoveCharAbsent(s[1..], c); }
  }

  lemma {:induction false} ReplaceCharAbsent(s: string, c: char, d: char)
    requires c !in s
    ensures ReplaceChar(s, c, d) == s
  {
    if s != [] { ReplaceCharAbsent(s[1..], c, d); }
  }

  lemma {:induction false} RemoveWordAbsent(s: string, a: char, b: char)
    requires a !in s
    ensures RemoveWord(s, a, b) == s
  {
    if |s| >= 2 { RemoveWordAbsent(s[1..], a, b); }
  }

  lemma CleanNumeric(s: string)
    requires Numeric(s)
    ensures Clean(s) == s
  {
    RemoveWordAbsent(s, 'R', 'p');
    RemoveWordAbsent(s, 'r', 'p');
    RemoveCharAbsent(s, ' ');
  }

  lemma {:induction false} RemoveCharConcat(a: string, b: string, c: char)
    ensures RemoveChar(a + b, c) == RemoveChar(a, c) + RemoveChar(b, c)
  {
    if a == [] {
      assert a + b == b;
    } else {
      assert (a + b)[1..] == a[1..] + b;
      RemoveCharConcat(a[1..], b, c);
    }
  }

  lemma {:induction false} ReplaceCharConcat(a: string, b: string, c: char, d: char)
    ensures ReplaceChar(a + b, c, d) == ReplaceChar(a, c, d) + ReplaceChar(b, c, d)
  {
    if a == [] {
      assert a + b == b;
    } else {
      assert (a + b)[1..] == a[1..] + b;
      ReplaceCharConcat(a[1..], b, c, d);
    }
  }

  // ---------------------------------------------------------------------------------------------
  // Shape of grouped text
  // ---------------------------------------------------------------------------------------------

  lemma Pad3Value(n: nat)
    requires n < 1000
    ensures |Pad3(n)| == 3 && AllDigits(Pad3(n)) && Value(Pad3(n)) == n
  {
    var a, b, c := n / 100, n / 10 % 10, n % 10;
    DigitRoundTrip(a);
    DigitRoundTrip(b);
    DigitRoundTrip(c);
    var p := Pad3(n);
    assert p[..2][..1] == p[..1] && p[..1][..0] == [];
    assert Value(p[..1]) == a;
    assert Value(p[..2]) == 10 * a + b;
    assert n == 10 * (n / 10) + c && n / 10 == 10 * a + b;
  }

  lemma {:induction false} DecimalLength(n: nat, k: nat)
    ensures n < Power10(k + 1) ==> |Decimal(n)| <= k + 1
    ensures Power10(k) <= n && k > 0 ==> |Decimal(n)| > k
  {
    if n >= 10 {
      if k > 0 { DecimalLength(n / 10, k - 1); }
    } else if k > 0 {
      assert Power10(k) == 10 * Power10(k - 1);
    }
  }

  lemma SmallDecimalShort(n: nat)
    ensures n < 1000 <==> |Decimal(n)| <= 3
    ensures |Decimal(n)| >= 1
  {
    DecimalLength(n, 2);
    DecimalLength(n, 3);
    assert Power10(3) == 1000;
  }

  lemma GroupsStep(p: string, rest: string, separator: char, point: char)
    requires |p| == 3 && AllDigits(p)
    requires rest == [] || Fraction(rest, point) || Groups(rest, separator, point)
    ensures Groups([separator] + p + rest, separator, point)
  {
    var s := [separator] + p + rest;
    assert s[1..4] == p && s[4..] == rest;
  }

  lemma HeadThenGroups(head: string, tail: string, separator: char, point: char)
    requires AllDigits(head) && 1 <= |head| <= 3 && !IsDigit(separator) && Groups(tail, separator, point)
    ensures Leading(head + tail) == |head| && Grouped(head + tail, separator, point)
  {
    LeadingUnique(head, tail);
    assert (head + tail)[|head|..] == tail;
  }

  /** Printed with separators, a number of 1000 or more is a head of one to three digits and groups. */
  lemma {:induction false} ThousandsShape(n: nat, separator: char, rest: string, point: char)
    requires !IsDigit(separator)
    requires n >= 1000 && (rest == [] || Fraction(rest, point) || Groups(rest, separator, point))
    ensures Grouped(WithThousands(n, separator) + rest, separator, point)
    ensures var h := Leading(WithThousands(n, separator) + rest);
            1 <= h <= 3 && h < |WithThousands(n, separator)| && WithThousands(n, separator)[h] == separator
    decreases n
  {
    var p := Pad3(n % 1000);
    Pad3Value(n % 1000);
    GroupsStep(p, rest, separator, point);
    var tail := [separator] + p + rest;
    var head := WithThousands(n / 1000, separator);
    assert WithThousands(n, separator) + rest == head + tail;
    if n / 1000 >= 1000 {
      ThousandsShape(n / 1000, separator, tail, point);
    } else {
      SmallDecimalShort(n / 1000);
      DecimalDigits(n / 1000);
      HeadThenGroups(head, tail, separator, point);
    }
  }

  lemma ThousandsRemoved(n: nat, separator: char)
    requires !IsDigit(separator) && n >= 1000
    ensures RemoveChar(WithThousands(n, separator), separator) ==
            RemoveChar(WithThousands(n / 1000, separator), separator) + Pad3(n % 1000)
  {
    Pad3Value(n % 1000);
    var head, p := WithThousands(n / 1000, separator), Pad3(n % 1000);
    RemoveCharConcat(head + [separator], p, separator);
    RemoveCharConcat(head, [separator], separator);
    RemoveCharAbsent(p, separator);
    assert RemoveChar([separator], separator) == [];
  }

  lemma JoinThousands(head: string, p: string)
    requires AllDigits(head) && AllDigits(p) && |p| == 3
    ensures AllDigits(head + p) && Value(head + p) == Value(head) * 1000 + Value(p)
  {
    ValueConcat(head, p);
    assert Power10(3) == 1000;
  }

  /** Removing the separators leaves digits that denote the number. */
  lemma {:induction false} ThousandsDigits(n: nat, separator: char)
    requires !IsDigit(separator)
    ensures var d := RemoveChar(WithThousands(n, separator), separator);
            d != [] && AllDigits(d) && Value(d) == n
  {
    if n < 1000 {
      ValueOfDecimal(n);
      DecimalDigits(n);
      RemoveCharAbsent(Decimal(n), separator);
    } else {
      var head, p := RemoveChar(WithThousands(n / 1000, separator), separator), Pad3(n % 1000);
      ThousandsDigits(n / 1000, separator);
      Pad3Value(n % 1000);
      ThousandsRemoved(n, separator);
      JoinThousands(head, p);
      assert n == n / 1000 * 1000 + n % 1000;
    }
  }

  lemma {:induction false} ThousandsNumeric(n: nat, separator: char)
    ensures WithThousands(n, separator) != [] && IsDigit(WithThousands(n, separator)[0])
    ensures forall c :: c in WithThousands(n, separator) ==> IsDigit(c) || c == separator
  {
    if n < 1000 {
      DecimalDigits(n);
    } else {
      ThousandsNumeric(n / 1000, separator);
      Pad3Value(n % 1000);
    }
  }

  // ---------------------------------------------------------------------------------------------
  // Reading back what the printers print
  // ---------------------------------------------------------------------------------------------

  lemma PlainInteger(d: string)
    requires d != [] && AllDigits(d)
    ensures ReadDecimal(d) == Some(Dec(Value(d), 0))
  {
    assert d + "" == d;
    LeadingUnique(d, "");
    assert d[..|d|] == d;
  }

  lemma PlainFraction(d: string, f: string)
    requires d != [] && AllDigits(d) && AllDigits(f)
    ensures ReadDecimal(d + (['.'] + f)) == Some(Dec(Value(d + f), |f|))
  {
    var s := d + (['.'] + f);
    LeadingUnique(d, ['.'] + f);
    assert s[..|d|] == d && s[|d| + 1..] == f && s[0] == d[0];
  }

  lemma GroupedIntegerCanonical(style: Style, n: nat)
    requires n >= 1000
    ensures Canonical(WithThousands(n, style.Separator())) ==
            RemoveChar(WithThousands(n, style.Separator()), style.Separator())
  {
    var t, separator := WithThousands(n, style.Separator()), style.Separator();
    ThousandsNumeric(n, separator);
    assert t + "" == t;
    ThousandsShape(n, separator, "", style.Point());
    ThousandsDigits(n, separator);
    ReplaceCharAbsent(RemoveChar(t, separator), ',', '.');
  }

  lemma PlainIntegerCanonical(d: string)
    requires AllDigits(d)
    ensures Canonical(d) == d
  {
    assert d + "" == d;
    LeadingUnique(d, "");
    ReplaceCharAbsent(d, ',', '.');
  }

  /** What a printed number without a fraction is rewritten to. */
  lemma IntegerCanonical(style: Style, grouped: bool, n: nat)
    ensures var c := Canonical(Clean(IntegerText(style, grouped, n)));
            c != [] && AllDigits(c) && Value(c) == n
  {
    ThousandsNumeric(n, style.Separator());
    DecimalDigits(n);
    CleanNumeric(IntegerText(style, grouped, n));
    if grouped && n >= 1000 {
      GroupedIntegerCanonical(style, n);
      ThousandsDigits(n, style.Separator());
    } else {
      PlainIntegerCanonical(Decimal(n));
      ValueOfDecimal(n);
    }
  }

  /**
   * Every natural number up to 10^24, plain or with thousands groups in either style, parses back
   * to exactly itself; a larger one is refused.
   */
  lemma IntegersRoundTrip(style: Style, grouped: bool, n: nat)
    ensures ParseNumber(IntegerText(style, grouped, n)) == if n <= Power10(24) then Some(Dec(n, 0)) else None
  {
    IntegerCanonical(style, grouped, n);
    PlainInteger(Canonical(Clean(IntegerText(style, grouped, n))));
    assert Power10(0) == 1;
  }

  /** The integer part stands without groups and with at most three digits, the fraction has three. */
  predicate Ambiguous(n: nat, fraction: string) {
    n < 1000 && |fraction| == 3
  }

  function Exact(n: nat, fraction: string): Dec
    requires AllDigits(fraction)
  {
    Dec(n * Power10(|fraction|) + Value(fraction), |fraction|)
  }

  lemma ThousandsWithFraction(style: Style, n: nat, fraction: string)
    requires n >= 1000 && fraction != [] && AllDigits(fraction)
    ensures var t := DecimalText(style, true, n, fraction);
            && Unsigned(t) == t
            && (if style.Indonesian? then IndonesianGrouped(t) else !IndonesianGrouped(t) && MachineGrouped(t))
  {
    var separator, point := style.Separator(), style.Point();
    var head, rest := WithThousands(n, separator), [point] + fraction;
    assert rest[1..] == fraction;
    ThousandsShape(n, separator, rest, point);
    ThousandsNumeric(n, separator);
    var h := Leading(head + rest);
    assert (head + rest)[h] == head[h] == separator && (head + rest)[h..][0] == separator;
  }

  lemma PointReplaced(d: string, point: char, fraction: string)
    requires AllDigits(d) && AllDigits(fraction) && (point == ',' || point == '.')
    ensures ReplaceChar(d + ([point] + fraction), ',', '.') == d + (['.'] + fraction)
    ensures point == '.' ==> d + ([point] + fraction) == d + (['.'] + fraction)
  {
    var rest := [point] + fraction;
    assert rest[1..] == fraction;
    ReplaceCharConcat(d, rest, ',', '.');
    ReplaceCharAbsent(d, ',', '.');
    ReplaceCharAbsent(fraction, ',', '.');
    assert ReplaceChar(rest, ',', '.') == ['.'] + fraction;
  }

  /** With groups in its integer part, a printed decimal is recognised by its own style. */
  lemma GroupedDecimalCanonical(style: Style, n: nat, fraction: string)
    requires n >= 1000 && fraction != [] && AllDigits(fraction)
    ensures var d := RemoveChar(WithThousands(n, style.Separator()), style.Separator());
            Canonical(DecimalText(style, true, n, fraction)) == d + (['.'] + fraction)
  {
    var separator, point := style.Separator(), style.Point();
    var head, rest := WithThousands(n, separator), [point] + fraction;
    var d := RemoveChar(head, separator);
    ThousandsWithFraction(style, n, fraction);
    ThousandsDigits(n, separator);
    RemoveCharConcat(head, rest, separator);
    RemoveCharAbsent(rest, separator);
    PointReplaced(d, point, fraction);
  }

  lemma PointRemoved(d: string, point: char, fraction: string)
    requires AllDigits(d) && AllDigits(fraction) && !IsDigit(point)
    ensures RemoveChar(d + ([point] + fraction), point) == d + fraction
  {
    var rest := [point] + fraction;
    assert rest[1..] == fraction;
    RemoveCharConcat(d, rest, point);
    RemoveCharAbsent(d, point);
    RemoveCharAbsent(fraction, point);
    assert RemoveChar(rest, point) == fraction;
  }

  lemma NoGroupsInFraction(fraction: string, separator: char, point: char, other: char)
    requires AllDigits(fraction) && !IsDigit(separator) && !IsDigit(other)
    ensures Groups([point] + fraction, separator, other) <==> separator == point && |fraction| == 3
  {
    var s := [point] + fraction;
    if |s| >= 4 {
      assert s[1..4] == fraction[..3];
      assert s[4..] == fraction[3..];
    }
  }

  lemma PlainGrouping(style: Style, n: nat, fraction: string)
    requires fraction != [] && AllDigits(fraction)
    ensures var t := Decimal(n) + ([style.Point()] + fraction);
            && Unsigned(t) == t
            && (IndonesianGrouped(t) <==> Ambiguous(n, fraction) && style.Machine?)
            && (MachineGrouped(t) <==> Ambiguous(n, fraction) && style.Indonesian?)
  {
    var point, d := style.Point(), Decimal(n);
    var rest := [point] + fraction;
    DecimalDigits(n);
    SmallDecimalShort(n);
    LeadingUnique(d, rest);
    assert (d + rest)[|d|..] == rest && (d + rest)[0] == d[0];
    NoGroupsInFraction(fraction, '.', point, ',');
    NoGroupsInFraction(fraction, ',', point, '.');
  }

  /** Without groups in its integer part, a printed decimal is taken for a grouped integer just when it is ambiguous. */
  lemma PlainDecimalCanonical(style: Style, n: nat, fraction: string)
    requires fraction != [] && AllDigits(fraction)
    ensures Canonical(Decimal(n) + ([style.Point()] + fraction)) ==
            if Ambiguous(n, fraction) then Decimal(n) + fraction else Decimal(n) + (['.'] + fraction)
  {
    var point, d := style.Point(), Decimal(n);
    PlainGrouping(style, n, fraction);
    DecimalDigits(n);
    PointRemoved(d, point, fraction);
    ReplaceCharAbsent(d + fraction, ',', '.');
    PointReplaced(d, point, fraction);
  }

  lemma DecimalTextClean(style: Style, grouped: bool, n: nat, fraction: string)
    requires AllDigits(fraction)
    ensures Clean(DecimalText(style, grouped, n, fraction)) == DecimalText(style, grouped, n, fraction)
  {
    ThousandsNumeric(n, style.Separator());
    DecimalDigits(n);
    CleanNumeric(DecimalText(style, grouped, n, fraction));
  }

  lemma ExactDigits(d: string, fraction: string)
    requires AllDigits(d) && AllDigits(fraction)
    ensures Dec(Value(d + fraction), |fraction|) == Exact(Value(d), fraction)
  {
    ValueConcat(d, fraction);
  }

  lemma ParseGroupedDecimal(style: Style, n: nat, fraction: string)
    requires n >= 1000 && fraction != [] && AllDigits(fraction)
    ensures ReadDecimal(Canonical(DecimalText(style, true, n, fraction))) == Some(Exact(n, fraction))
  {
    var d := RemoveChar(WithThousands(n, style.Separator()), style.Separator());
    GroupedDecimalCanonical(style, n, fraction);
    ThousandsDigits(n, style.Separator());
    PlainFraction(d, fraction);
    ExactDigits(d, fraction);
  }

  lemma ReadJoinedDigits(d: string, fraction: string)
    requires d != [] && AllDigits(d) && AllDigits(fraction)
    ensures ReadDecimal(d + fraction) == Some(Dec(Value(d) * Power10(|fraction|) + Value(fraction), 0))
  {
    ValueConcat(d, fraction);
    PlainInteger(d + fraction);
  }

  lemma ParsePlainDecimal(style: Style, n: nat, fraction: string)
    requires fraction != [] && AllDigits(fraction)
    ensures ReadDecimal(Canonical(Decimal(n) + ([style.Point()] + fraction))) ==
            Some(if Ambiguous(n, fraction) then Dec(n * 1000 + Value(fraction), 0) else Exact(n, fraction))
  {
    PlainDecimalCanonical(style, n, fraction);
    ValueOfDecimal(n);
    DecimalDigits(n);
    PlainFraction(Decimal(n), fraction);
    ExactDigits(Decimal(n), fraction);
    ReadJoinedDigits(Decimal(n), fraction);
    assert Power10(3) == 1000;
  }

  /**
   * What parsing makes of any printed decimal: the exact number, or, when the text is ambiguous,
   * the integer a thousand times as large.
   */
  lemma ParsePrintedDecimal(style: Style, grouped: bool, n: nat, fraction: string)
    requires fraction != [] && AllDigits(fraction)
    ensures ParseNumber(DecimalText(style, grouped, n, fraction)) ==
            Guarded(Some(if Ambiguous(n, fraction) then Dec(n * 1000 + Value(fraction), 0) else Exact(n, fraction)))
  {
    DecimalTextClean(style, grouped, n, fraction);
    if grouped && n >= 1000 {
      ParseGroupedDecimal(style, n, fraction);
    } else {
      ParsePlainDecimal(style, n, fraction);
    }
  }

  lemma {:induction false} ValueBelow(s: string)
    requires AllDigits(s)
    ensures Value(s) < Power10(|s|)
  {
    if s != [] { ValueBelow(s[..|s| - 1]); }
  }

  lemma SmallIsPlausible(n: nat)
    requires n < 1000000
    ensures Plausible(Dec(n, 0))
  {
    assert Power10(0) == 1;
  }

  predicate SameReading(a: Option<Dec>, b: Option<Dec>) {
    a.Some? && b.Some? && SameValue(a.value, b.value)
  }

  /** A plausible printed decimal keeps its value exactly when it is not ambiguous, or zero. */
  lemma DecimalsRoundTripIff(style: Style, grouped: bool, n: nat, fraction: string)
    requires fraction != [] && AllDigits(fraction)
    ensures Plausible(Exact(n, fraction)) ==>
              (SameReading(ParseNumber(DecimalText(style, grouped, n, fraction)), Some(Exact(n, fraction))) <==>
               !Ambiguous(n, fraction) || (n == 0 && Value(fraction) == 0))
  {
    ParsePrintedDecimal(style, grouped, n, fraction);
    if Ambiguous(n, fraction) {
      ValueBelow(fraction);
      var m := n * 1000 + Value(fraction);
      assert Power10(3) == 1000 && Power10(0) == 1;
      assert Exact(n, fraction) == Dec(m, 3);
      SmallIsPlausible(m);
    }
  }

  // ---------------------------------------------------------------------------------------------
  // The extractor's number reader
  // ---------------------------------------------------------------------------------------------

  /** Like `Canonical`, except that a sign in front keeps grouped text from being recognised. */
  function ExtractorCanonical(raw: string): string {
    if IndonesianGrouped(raw) then ReplaceChar(RemoveChar(raw, '.'), ',', '.')
    else if MachineGrouped(raw) then RemoveChar(raw, ',')
    else ReplaceChar(raw, ',', '.')
  }

  /** The decimal the extractor reads, before it is turned into an integer or a float. */
  function ExtractorDecimal(value: string): Option<Dec> {
    if value == "" then None else Guarded(ReadDecimal(ExtractorCanonical(Clean(value))))
  }

  function ParseInteger(n: int): Option<Dec> {
    Guarded(Some(Dec(n, 0)))
  }

  predicate NegativeGrouped(raw: string) {
    raw != [] && raw[0] == '-' && (IndonesianGrouped(raw[1..]) || MachineGrouped(raw[1..]))
  }

  /** Text that is not a negative grouped number is rewritten alike by both readers. */
  lemma RewrittenAlike(raw: string)
    requires !NegativeGrouped(raw)
    ensures Canonical(raw) == ExtractorCanonical(raw)
  {
    if raw != [] && raw[0] == '-' {
      assert Leading(raw) == 0;
    } else {
      assert Unsigned(raw) == raw;
    }
  }

  lemma NothingIsRead(value: string)
    requires value == ""
    ensures ParseNumber(value) == None
  {
    assert Clean(value) == "" && Leading("") == 0;
    assert Canonical("") == "" && ReadDecimal("") == None;
  }

  lemma ReadersAgree(value: string)
    requires !NegativeGrouped(Clean(value))
    ensures ParseNumber(value) == ExtractorDecimal(value)
  {
    if value == "" {
      NothingIsRead(value);
    } else {
      RewrittenAlike(Clean(value));
    }
  }

  lemma MulStrict(a: int, b: int, p: nat)
    requires p >= 1 && a > b
    ensures a * p > b * p
  {
    assert a * p - b * p == (a - b) * p;
  }

  lemma ScaleDown(m: nat, p: nat, limit: nat)
    requires p >= 1 && 2000 * (m * p) <= limit * p
    ensures 2000 * m <= limit
  {
    assert 2000 * (m * p) == (2000 * m) * p;
    if 2000 * m > limit { MulStrict(2000 * m, limit, p); }
  }

  lemma MagnitudeScales(n: int, p: nat, scale: nat)
    ensures Magnitude(Dec(n * p, scale)) == Magnitude(Dec(n, 0)) * p
  {
    assert (-n) * p == -(n * p);
    if n >= 0 { assert n * p >= 0; } else { assert (-n) * p >= 0; }
  }

  lemma IntegralPart(d: Dec, n: int)
    requires Plausible(d) && d.coefficient == n * Power10(d.scale)
    ensures Plausible(Dec(n, 0)) && SameValue(Dec(n, 0), d)
  {
    MagnitudeScales(n, Power10(d.scale), d.scale);
    assert d == Dec(n * Power10(d.scale), d.scale);
    ScaleDown(Magnitude(Dec(n, 0)), Power10(d.scale), 2000 * Power10(24) + 1);
    assert Power10(0) == 1;
  }

  /** An integral number passes from the extractor through `parse_number` unchanged. */
  lemma ParseAfterExtraction(value: string, n: int)
    requires !NegativeGrouped(Clean(value)) && ExtractorDecimal(value).Some?
    requires ExtractorDecimal(value).value.coefficient == n * Power10(ExtractorDecimal(value).value.scale)
    ensures ParseInteger(n) == Some(Dec(n, 0)) && ParseNumber(value).Some?
    ensures SameValue(Dec(n, 0), ParseNumber(value).value)
  {
    ReadersAgree(value);
    IntegralPart(ExtractorDecimal(value).value, n);
  }

  /** A grouped number is a head, a separator, three digits and perhaps more, which then holds another mark. */
  lemma GroupedParts(t: string, separator: char, point: char) returns (head: string, group: string, rest: string)
    requires Grouped(t, separator, point) && !IsDigit(separator) && !IsDigit(point)
    ensures t == head + ([separator] + (group + rest)) && head != [] && AllDigits(head) && AllDigits(group)
    ensures |group| == 3 && |head| <= 3
    ensures rest == [] || rest[0] == separator || rest[0] == point
  {
    var h := Leading(t);
    var tail := t[h..];
    head, group, rest := t[..h], tail[1..4], tail[4..];
    assert Groups(tail, separator, point);
    assert rest == [] || Fraction(rest, point) || Groups(rest, separator, point);
    assert tail == [separator] + (group + rest);
    assert t == head + tail;
  }

  lemma MinusStays(t: string, c: char, d: char)
    requires c != '-'
    ensures RemoveChar(['-'] + t, c) == ['-'] + RemoveChar(t, c)
    ensures ReplaceChar(['-'] + t, c, d) == ['-'] + ReplaceChar(t, c, d)
  {
    assert (['-'] + t)[1..] == t;
  }

  lemma {:induction false} ReplaceCharAt(s: string, c: char, d: char, i: nat)
    requires i < |s|
    ensures |ReplaceChar(s, c, d)| == |s| && ReplaceChar(s, c, d)[i] == if s[i] == c then d else s[i]
  {
    if i > 0 {
      ReplaceCharAt(s[1..], c, d, i - 1);
    } else if |s| > 1 {
      ReplaceCharAt(s[1..], c, d, 0);
    }
  }

  /** Two decimal points are one too many. */
  lemma TwoPoints(head: string, group: string, rest: string, mark: char)
    requires AllDigits(head) && AllDigits(group) && rest != [] && rest[0] in {'.', ','} && mark in {'.', ','}
    ensures PlainDecimal(ReplaceChar(head + ([mark] + (group + rest)), ',', '.')) == None
  {
    var t := head + ([mark] + (group + rest));
    var r := ReplaceChar(t, ',', '.');
    var k := |head| + 1 + |group|;
    assert t[k] == rest[0] && t[|head|] == mark;
    ReplaceCharAt(t, ',', '.', k);
    ReplaceCharConcat(head, [mark] + (group + rest), ',', '.');
    ReplaceCharAbsent(head, ',', '.');
    ReplaceCharAt([mark] + (group + rest), ',', '.', 0);
    LeadingUnique(head, ReplaceChar([mark] + (group + rest), ',', '.'));
    assert r[|head| + 1..][|group|] == r[k] == '.';
  }

  /** With one group only, the extractor reads the group as a fraction. */
  lemma OneGroupIsFraction(head: string, group: string, mark: char)
    requires head != [] && AllDigits(head) && AllDigits(group) && |group| == 3 && mark in {'.', ','}
    ensures PlainDecimal(ReplaceChar(head + ([mark] + group), ',', '.')) == Some(Dec(Value(head + group), 3))
    ensures PlainDecimal(ReplaceChar(RemoveChar(head + ([mark] + group), mark), ',', '.')) ==
            Some(Dec(Value(head + group), 0))
  {
    PointReplaced(head, mark, group);
    PlainFraction(head, group);
    PointRemoved(head, mark, group);
    ReplaceCharAbsent(head + group, ',', '.');
    PlainInteger(head + group);
  }

  lemma ReadMinus(t: string, mark: char)
    requires mark != '-'
    ensures ReadDecimal(ReplaceChar(['-'] + t, ',', '.')) == Negated(PlainDecimal(ReplaceChar(t, ',', '.')))
    ensures ReadDecimal(ReplaceChar(RemoveChar(['-'] + t, mark), ',', '.')) ==
            Negated(PlainDecimal(ReplaceChar(RemoveChar(t, mark), ',', '.')))
  {
    MinusStays(t, ',', '.');
    MinusStays(t, mark, '.');
    MinusStays(RemoveChar(t, mark), ',', '.');
    var r, q := ReplaceChar(t, ',', '.'), ReplaceChar(RemoveChar(t, mark), ',', '.');
    assert (['-'] + r)[1..] == r && (['-'] + q)[1..] == q;
  }

  /** Read without removing its separators, grouped text is no number, or its only group is a fraction. */
  lemma SeparatorsKept(t: string, mark: char, point: char)
    requires (mark == '.' && point == ',') || (mark == ',' && point == '.')
    requires Grouped(t, mark, point)
    ensures var kept := PlainDecimal(ReplaceChar(t, ',', '.'));
            var removed := PlainDecimal(ReplaceChar(RemoveChar(t, mark), ',', '.'));
            kept == None || (kept.value.scale == 3 && removed == Some(Dec(kept.value.coefficient, 0)))
  {
    var head, group, rest := GroupedParts(t, mark, point);
    if rest != [] {
      TwoPoints(head, group, rest, mark);
    } else {
      assert group + rest == group;
      OneGroupIsFraction(head, group, mark);
    }
  }

  /** The second reading is none, or a thousandth of the first. */
  predicate Misread(parsed: Option<Dec>, extracted: Option<Dec>) {
    extracted == None || (extracted.value.scale == 3 && parsed == Some(Dec(extracted.value.coefficient, 0)))
  }

  lemma NegatedMisread(parsed: Option<Dec>, extracted: Option<Dec>)
    requires Misread(parsed, extracted)
    ensures Misread(Negated(parsed), Negated(extracted))
  {
  }

  /**
   * On negative grouped text the two readers part: the extractor reads nothing, or takes the only
   * group for a fraction and so reads a thousandth of what `parse_number` reads.
   */
  lemma NegativeIsMisread(t: string, mark: char, point: char)
    requires (mark == '.' && point == ',') || (mark == ',' && point == '.')
    requires Grouped(t, mark, point)
    ensures Misread(ReadDecimal(ReplaceChar(RemoveChar(['-'] + t, mark), ',', '.')),
                    ReadDecimal(ReplaceChar(['-'] + t, ',', '.')))
  {
    ReadMinus(t, mark);
    SeparatorsKept(t, mark, point);
    NegatedMisread(PlainDecimal(ReplaceChar(RemoveChar(t, mark), ',', '.')), PlainDecimal(ReplaceChar(t, ',', '.')));
  }

  lemma {:induction false} RemovedIsAbsent(s: string, c: char)
    ensures c !in RemoveChar(s, c)
  {
    if s != [] { RemovedIsAbsent(s[1..], c); }
  }

  lemma NegativeReadings(value: string) returns (t: string, mark: char, point: char)
    requires NegativeGrouped(Clean(value))
    ensures (mark == '.' && point == ',') || (mark == ',' && point == '.')
    ensures Grouped(t, mark, point)
    ensures ExtractorDecimal(value) == Guarded(ReadDecimal(ReplaceChar(['-'] + t, ',', '.')))
    ensures ParseNumber(value) == Guarded(ReadDecimal(ReplaceChar(RemoveChar(['-'] + t, mark), ',', '.')))
  {
    var raw := Clean(value);
    t := raw[1..];
    assert raw == ['-'] + t && Leading(raw) == 0;
    if IndonesianGrouped(t) {
      mark, point := '.', ',';
    } else {
      mark, point := ',', '.';
      RemovedIsAbsent(raw, ',');
      ReplaceCharAbsent(RemoveChar(raw, ','), ',', '.');
    }
  }

  /** A thousandth of a number other than zero is another number. */
  lemma MisreadDisagrees(extracted: Option<Dec>, parsed: Option<Dec>)
    requires extracted == None || (extracted.value.scale == 3 && parsed == Some(Dec(extracted.value.coefficient, 0)))
    requires Guarded(parsed).Some? && parsed.value.coefficient != 0
    ensures !(Guarded(extracted).Some? && SameValue(extracted.value, parsed.value))
  {
    assert Power10(3) == 1000 && Power10(0) == 1;
  }

  /**
   * For every text that `parse_number` reads as a number other than zero, the extractor reads the
   * same value exactly when the cleaned text is not a negative number with thousands groups.
   */
  lemma ReadersAgreeIff(value: string)
    requires ParseNumber(value).Some? && ParseNumber(value).value.coefficient != 0
    ensures SameReading(ExtractorDecimal(value), ParseNumber(value)) <==> !NegativeGrouped(Clean(value))
  {
    if NegativeGrouped(Clean(value)) {
      var t, mark, point := NegativeReadings(value);
      NegativeIsMisread(t, mark, point);
      MisreadDisagrees(ReadDecimal(ReplaceChar(['-'] + t, ',', '.')),
                       ReadDecimal(ReplaceChar(RemoveChar(['-'] + t, mark), ',', '.')));
    } else {
      ReadersAgree(value);
    }
  }
}
