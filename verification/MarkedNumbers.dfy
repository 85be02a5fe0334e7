/** What both readers of numbers make of printed numbers with currency marks, blanks and signs. */
module MarkedNumbers {
  import opened Digits
  import opened Wrappers
  import opened NumberFormat

  // ---------------------------------------------------------------------------------------------
  // What cleaning removes
  // ---------------------------------------------------------------------------------------------

  /** A text piece by piece: blanks, currency marks in either spelling, and the characters that count. */
  datatype Piece = Blank | Rp | LowerRp | Symbol(c: char)

  predicate Counts(c: char) {
    !IsSpace(c) && c != 'R' && c != 'r' && c != 'p'
  }

  predicate WellMarked(ps: seq<Piece>) {
    forall i :: 0 <= i < |ps| && ps[i].Symbol? ==> Counts(ps[i].c)
  }

  function Show(p: Piece): string {
    match p
    case Blank => " "
    case Rp => "Rp"
    case LowerRp => "rp"
    case Symbol(c) => [c]
  }

  function Print(ps: seq<Piece>): string {
    if ps == [] then "" else Show(ps[0]) + Print(ps[1..])
  }

  /** The characters that count, in order. */
  function Letters(ps: seq<Piece>): string {
    if ps == [] then "" else if ps[0].Symbol? then [ps[0].c] + Letters(ps[1..]) else Letters(ps[1..])
  }

  function Without(ps: seq<Piece>, p: Piece): seq<Piece> {
    if ps == [] then [] else (if ps[0] == p then [] else [ps[0]]) + Without(ps[1..], p)
  }

  /** Only tabs, line ends, separators and blanks of ASCII and Latin-1. */
  predicate Spaces(s: string) {
    forall i :: 0 <= i < |s| ==> s[i] as int in {9, 10, 11, 12, 13, 28, 29, 30, 31, 32, 133, 160}
  }

  lemma RemoveWordSkips(c: char, s: string, a: char, b: char)
    requires c != a
    ensures RemoveWord([c] + s, a, b) == [c] + RemoveWord(s, a, b)
  {
    assert ([c] + s)[1..] == s;
  }

  lemma RemoveWordHits(s: string, a: char, b: char)
    ensures RemoveWord([a, b] + s, a, b) == RemoveWord(s, a, b)
  {
    assert ([a, b] + s)[2..] == s;
  }

  lemma LowerKept(s: string)
    ensures RemoveWord(Show(LowerRp) + s, 'R', 'p') == Show(LowerRp) + RemoveWord(s, 'R', 'p')
  {
    RemoveWordSkips('r', ['p'] + s, 'R', 'p');
    RemoveWordSkips('p', s, 'R', 'p');
    assert Show(LowerRp) + s == ['r'] + (['p'] + s);
    assert Show(LowerRp) + RemoveWord(s, 'R', 'p') == ['r'] + (['p'] + RemoveWord(s, 'R', 'p'));
  }

  lemma UpperPiece(p: Piece, s: string)
    requires p.Symbol? ==> Counts(p.c)
    ensures RemoveWord(Show(p) + s, 'R', 'p') ==
            if p.Rp? then RemoveWord(s, 'R', 'p') else Show(p) + RemoveWord(s, 'R', 'p')
  {
    match p
    case Rp => RemoveWordHits(s, 'R', 'p');
    case Blank => RemoveWordSkips(' ', s, 'R', 'p');
    case Symbol(c) => RemoveWordSkips(c, s, 'R', 'p');
    case LowerRp => LowerKept(s);
  }

  lemma LowerPiece(p: Piece, s: string)
    requires !p.Rp? && (p.Symbol? ==> Counts(p.c))
    ensures RemoveWord(Show(p) + s, 'r', 'p') ==
            if p.LowerRp? then RemoveWord(s, 'r', 'p') else Show(p) + RemoveWord(s, 'r', 'p')
  {
    match p
    case LowerRp => RemoveWordHits(s, 'r', 'p');
    case Blank => RemoveWordSkips(' ', s, 'r', 'p');
    case Symbol(c) => RemoveWordSkips(c, s, 'r', 'p');
  }

  /** Without marks in the first spelling. */
  function Lowered(ps: seq<Piece>): string {
    if ps == [] then "" else if ps[0].Rp? then Lowered(ps[1..]) else Show(ps[0]) + Lowered(ps[1..])
  }

  /** Without marks. */
  function Unmarked(ps: seq<Piece>): string {
    if ps == [] then ""
    else if ps[0].Rp? || ps[0].LowerRp? then Unmarked(ps[1..])
    else Show(ps[0]) + Unmarked(ps[1..])
  }

  lemma {:induction false} UpperRemoved(ps: seq<Piece>)
    requires WellMarked(ps)
    ensures RemoveWord(Print(ps), 'R', 'p') == Lowered(ps)
  {
    if ps != [] {
      UpperPiece(ps[0], Print(ps[1..]));
      UpperRemoved(ps[1..]);
    }
  }

  lemma {:induction false} LowerRemoved(ps: seq<Piece>)
    requires WellMarked(ps)
    ensures RemoveWord(Lowered(ps), 'r', 'p') == Unmarked(ps)
  {
    if ps != [] {
      if !ps[0].Rp? { LowerPiece(ps[0], Lowered(ps[1..])); }
      LowerRemoved(ps[1..]);
    }
  }

  lemma {:induction false} BlanksRemoved(ps: seq<Piece>)
    requires WellMarked(ps)
    ensures RemoveChar(Unmarked(ps), ' ') == Letters(ps)
  {
    if ps != [] {
      BlanksRemoved(ps[1..]);
      if !ps[0].Rp? && !ps[0].LowerRp? { assert (Show(ps[0]) + Unmarked(ps[1..]))[1..] == Unmarked(ps[1..]); }
    }
  }

  function Inner(s: string): string {
    RemoveChar(RemoveWord(RemoveWord(s, 'R', 'p'), 'r', 'p'), ' ')
  }

  lemma InnerOfPrint(ps: seq<Piece>)
    requires WellMarked(ps)
    ensures Inner(Print(ps)) == Letters(ps)
  {
    UpperRemoved(ps);
    LowerRemoved(ps);
    BlanksRemoved(ps);
  }

  // White space around a text

  lemma {:induction false} TrimLeftSpaces(left: string, s: string)
    requires Spaces(left)
    ensures TrimLeft(left + s) == TrimLeft(s)
  {
    if left == [] {
      assert left + s == s;
    } else {
      assert (left + s)[1..] == left[1..] + s;
      TrimLeftSpaces(left[1..], s);
    }
  }

  lemma {:induction false} TrimRightSpaces(s: string, right: string)
    requires Spaces(right)
    ensures TrimRight(s + right) == TrimRight(s)
  {
    if right == [] {
      assert s + right == s;
    } else {
      assert (s + right)[..|s + right| - 1] == s + right[..|right| - 1];
      TrimRightSpaces(s, right[..|right| - 1]);
    }
  }

  lemma {:induction false} TrimRightKeeps(left: string, s: string)
    requires TrimRight(s) != ""
    ensures TrimRight(left + s) == left + TrimRight(s)
  {
    var last := |s| - 1;
    assert (left + s)[|left + s| - 1] == s[last];
    if IsSpace(s[last]) {
      assert (left + s)[..|left + s| - 1] == left + s[..last];
      TrimRightKeeps(left, s[..last]);
    }
  }

  predicate OnlyBlanks(s: string) {
    forall i :: 0 <= i < |s| && IsSpace(s[i]) ==> s[i] == ' '
  }

  lemma {:induction false} RemoveWordBeforeBlank(s: string, a: char, b: char)
    requires a != ' ' && b != ' '
    ensures RemoveWord(s + " ", a, b) == RemoveWord(s, a, b) + " "
  {
    var t := s + " ";
    if |s| == 1 {
      assert t[1..] == " ";
    } else if |s| >= 2 {
      assert t[1..] == s[1..] + " " && t[2..] == s[2..] + " ";
      if s[0] == a && s[1] == b {
        RemoveWordBeforeBlank(s[2..], a, b);
      } else {
        RemoveWordBeforeBlank(s[1..], a, b);
      }
    }
  }

  lemma InnerBlankEnds(s: string)
    ensures Inner(s + " ") == Inner(s) && Inner(" " + s) == Inner(s)
  {
    var u := RemoveWord(s, 'R', 'p');
    RemoveWordBeforeBlank(s, 'R', 'p');
    RemoveWordBeforeBlank(u, 'r', 'p');
    RemoveWordSkips(' ', s, 'R', 'p');
    RemoveWordSkips(' ', u, 'r', 'p');
    var v := RemoveWord(u, 'r', 'p');
    RemoveCharConcat(v, " ", ' ');
    RemoveCharConcat(" ", v, ' ');
    assert RemoveChar(" ", ' ') == "";
  }

  lemma {:induction false} InnerTrimRight(s: string)
    requires OnlyBlanks(s)
    ensures Inner(TrimRight(s)) == Inner(s) && OnlyBlanks(TrimRight(s))
  {
    if s != [] && IsSpace(s[|s| - 1]) {
      InnerTrimRight(s[..|s| - 1]);
      InnerBlankEnds(s[..|s| - 1]);
      assert s == s[..|s| - 1] + " ";
    }
  }

  lemma {:induction false} InnerTrimLeft(s: string)
    requires OnlyBlanks(s)
    ensures Inner(TrimLeft(s)) == Inner(s)
  {
    if s != [] && IsSpace(s[0]) {
      InnerTrimLeft(s[1..]);
      InnerBlankEnds(s[1..]);
      assert s == " " + s[1..];
    }
  }

  lemma {:induction false} PrintOnlyBlanks(ps: seq<Piece>)
    requires WellMarked(ps)
    ensures OnlyBlanks(Print(ps))
  {
    if ps != [] { PrintOnlyBlanks(ps[1..]); }
  }

  lemma {:induction false} TrimmedAway(s: string)
    requires TrimRight(s) == ""
    ensures Spaces(s)
  {
    if s != [] { TrimmedAway(s[..|s| - 1]); }
  }

  /**
   * Cleaning removes the currency marks, the blanks and the white space around a text, wherever
   * they stand, and keeps all other characters in their order.
   */
  lemma CleanKeepsLetters(left: string, ps: seq<Piece>, right: string)
    requires Spaces(left) && Spaces(right) && WellMarked(ps)
    ensures Clean(left + Print(ps) + right) == Letters(ps)
  {
    var t := Print(ps);
    InnerOfPrint(ps);
    PrintOnlyBlanks(ps);
    InnerTrimRight(t);
    TrimRightSpaces(left + t, right);
    if TrimRight(t) == "" {
      TrimmedAway(t);
      TrimRightSpaces("", left + t);
      assert "" + (left + t) == left + t && Clean(left + t + right) == Inner("");
    } else {
      TrimRightKeeps(left, t);
      TrimLeftSpaces(left, TrimRight(t));
      InnerTrimLeft(TrimRight(t));
    }
  }

  // ---------------------------------------------------------------------------------------------
  // Numbers without a sign
  // ---------------------------------------------------------------------------------------------

  /** The text is white space around the letters, with marks and blanks strewn among them. */
  predicate Marked(text: string, left: string, ps: seq<Piece>, right: string, letters: string) {
    && text == left + Print(ps) + right && Spaces(left) && Spaces(right) && WellMarked(ps)
    && Letters(ps) == letters
  }

  /** Both readers see the letters only. */
  lemma ReadersSeeLetters(text: string, left: string, ps: seq<Piece>, right: string, letters: string)
    requires Marked(text, left, ps, right, letters) && letters != ""
    ensures ParseNumber(text) == Guarded(ReadDecimal(Canonical(letters)))
    ensures ExtractorDecimal(text) == Guarded(ReadDecimal(ExtractorCanonical(letters)))
  {
    CleanKeepsLetters(left, ps, right);
    assert Clean("") == "";
  }

  lemma StartsWithDigit(style: Style, grouped: bool, n: nat)
    ensures IntegerText(style, grouped, n) != "" && IsDigit(IntegerText(style, grouped, n)[0])
    ensures Clean(IntegerText(style, grouped, n)) == IntegerText(style, grouped, n)
  {
    ThousandsNumeric(n, style.Separator());
    DecimalDigits(n);
    CleanNumeric(IntegerText(style, grouped, n));
  }

  lemma DigitFirstAlike(letters: string)
    requires letters != "" && IsDigit(letters[0])
    ensures Canonical(letters) == ExtractorCanonical(letters)
  {
    RewrittenAlike(letters);
  }

  /**
   * Marks, blanks and surrounding white space do not matter: both readers read every printed
   * natural number up to 10^24 as itself, in both styles, and refuse every larger one.
   */
  lemma MarkedIntegerReads(
      text: string, left: string, ps: seq<Piece>, right: string, style: Style, grouped: bool, n: nat)
    requires Marked(text, left, ps, right, IntegerText(style, grouped, n))
    ensures ParseNumber(text) == if n <= Power10(24) then Some(Dec(n, 0)) else None
    ensures ExtractorDecimal(text) == ParseNumber(text)
  {
    StartsWithDigit(style, grouped, n);
    ReadersSeeLetters(text, left, ps, right, IntegerText(style, grouped, n));
    IntegersRoundTrip(style, grouped, n);
    DigitFirstAlike(IntegerText(style, grouped, n));
  }

  lemma Times(a: nat, b: nat, p: nat)
    ensures (a + b) * p == a * p + b * p
    ensures b * p >= 0
  {
  }

  lemma NextMultiple(a: nat, b: nat, p: nat)
    requires a < b
    ensures a * p + p <= b * p
  {
    Times(a + 1, b - a - 1, p);
    Times(a, 1, p);
  }

  lemma Doubled(limit: nat, p: nat)
    ensures (2000 * limit + 1) * p == 2000 * (limit * p) + p
  {
  }

  lemma ScaledLimit(n: nat, limit: nat, p: nat, v: nat)
    requires v < p
    ensures 2000 * (n * p + v) <= (2000 * limit + 1) * p <==> n < limit || (n == limit && 2000 * v <= p)
  {
    Doubled(limit, p);
    var a, b := n * p, limit * p;
    if n < limit {
      NextMultiple(n, limit, p);
    } else if n > limit {
      NextMultiple(limit, n, p);
    }
    assert 2000 * (a + v) <= 2000 * b + p <==> n < limit || (n == limit && 2000 * v <= p);
  }

  /** The limit on printed decimals: below 10^24, or at most half a thousandth above. */
  predicate WithinLimit(n: nat, fraction: string)
    requires AllDigits(fraction)
  {
    n < Power10(24) || (n == Power10(24) && 2000 * Value(fraction) <= Power10(|fraction|))
  }

  lemma PlausibleNatural(c: nat, scale: nat, limit: nat, p: nat)
    requires limit == Power10(24) && p == Power10(scale)
    ensures Plausible(Dec(c, scale)) <==> 2000 * c <= (2000 * limit + 1) * p
  {
  }

  lemma SumIsNatural(n: nat, p: nat, v: nat)
    ensures n * p + v >= 0
  {
  }

  lemma PlausibleSum(n: nat, p: nat, v: nat, scale: nat, limit: nat)
    requires limit == Power10(24) && p == Power10(scale) && v < p
    ensures Plausible(Dec(n * p + v, scale)) <==> n < limit || (n == limit && 2000 * v <= p)
  {
    SumIsNatural(n, p, v);
    PlausibleNatural(n * p + v, scale, limit, p);
    ScaledLimit(n, limit, p, v);
  }

  lemma ExactIsPlausible(n: nat, fraction: string)
    requires AllDigits(fraction)
    ensures Plausible(Exact(n, fraction)) <==> WithinLimit(n, fraction)
  {
    ValueBelow(fraction);
    PlausibleSum(n, Power10(|fraction|), Value(fraction), |fraction|, Power10(24));
  }

  function ExactReading(n: nat, fraction: string): Option<Dec>
    requires AllDigits(fraction)
  {
    if WithinLimit(n, fraction) then Some(Dec(n * Power10(|fraction|) + Value(fraction), |fraction|)) else None
  }

  /** What a printed decimal is read as, when its separators are recognised. */
  function Reading(n: nat, fraction: string): Option<Dec>
    requires AllDigits(fraction)
  {
    if n < 1000 && |fraction| == 3 then Some(Dec(n * 1000 + Value(fraction), 0)) else ExactReading(n, fraction)
  }

  lemma GuardedReading(n: nat, fraction: string)
    requires AllDigits(fraction)
    ensures Guarded(Some(if Ambiguous(n, fraction) then Dec(n * 1000 + Value(fraction), 0) else Exact(n, fraction))) ==
            Reading(n, fraction)
  {
    ExactIsPlausible(n, fraction);
    ValueBelow(fraction);
    if Ambiguous(n, fraction) {
      assert Power10(3) == 1000;
      SmallIsPlausible(n * 1000 + Value(fraction));
    }
  }

  lemma ReadPrintedDecimal(style: Style, grouped: bool, n: nat, fraction: string)
    requires fraction != [] && AllDigits(fraction)
    ensures Guarded(ReadDecimal(Canonical(DecimalText(style, grouped, n, fraction)))) == Reading(n, fraction)
  {
    DecimalTextClean(style, grouped, n, fraction);
    ParsePrintedDecimal(style, grouped, n, fraction);
    GuardedReading(n, fraction);
  }

  /** The same of decimals; one of three digits and less before the point and three after is taken for an integer. */
  lemma MarkedDecimalReads(
      text: string, left: string, ps: seq<Piece>, right: string, style: Style, grouped: bool, n: nat, fraction: string)
    requires fraction != [] && AllDigits(fraction)
    requires Marked(text, left, ps, right, DecimalText(style, grouped, n, fraction))
    ensures ParseNumber(text) == Reading(n, fraction) && ExtractorDecimal(text) == Reading(n, fraction)
  {
    var letters := DecimalText(style, grouped, n, fraction);
    StartsWithDigit(style, grouped, n);
    ReadersSeeLetters(text, left, ps, right, letters);
    ReadPrintedDecimal(style, grouped, n, fraction);
    DigitFirstAlike(letters);
  }

  // ---------------------------------------------------------------------------------------------
  // Numbers with a sign
  // ---------------------------------------------------------------------------------------------

  function Opposite(negative: bool, d: Option<Dec>): Option<Dec> {
    if negative then Negated(d) else d
  }

  function Sign(negative: bool): char {
    if negative then '-' else '+'
  }

  lemma OppositeGuarded(negative: bool, d: Option<Dec>)
    ensures Guarded(Opposite(negative, d)) == Opposite(negative, Guarded(d))
  {
  }

  /** A minus sign is no obstacle to recognising the separators behind it. */
  lemma MinusParsed(t: string)
    requires t != "" && IsDigit(t[0])
    ensures ReadDecimal(Canonical(['-'] + t)) == Negated(ReadDecimal(Canonical(t)))
  {
    assert (['-'] + t)[1..] == t && Unsigned(t) == t;
    MinusStays(t, '.', '.');
    MinusStays(t, ',', '.');
    MinusStays(RemoveChar(t, '.'), ',', '.');
    var c := Canonical(t);
    assert Canonical(['-'] + t) == ['-'] + c;
    assert (['-'] + c)[1..] == c && IsDigit(c[0]);
  }

  /** A sign keeps the extractor from recognising separators, and a plus sign keeps `parse_number` from it. */
  lemma SignKeepsSeparators(t: string, negative: bool)
    ensures ReadDecimal(ExtractorCanonical([Sign(negative)] + t)) ==
            Opposite(negative, PlainDecimal(ReplaceChar(t, ',', '.')))
    ensures !negative ==> Canonical([Sign(negative)] + t) == ExtractorCanonical([Sign(negative)] + t)
  {
    var s := [Sign(negative)] + t;
    assert Leading(s) == 0 && s[1..] == t;
    assert ReplaceChar(s, ',', '.') == [Sign(negative)] + ReplaceChar(t, ',', '.');
    assert ([Sign(negative)] + ReplaceChar(t, ',', '.'))[1..] == ReplaceChar(t, ',', '.');
  }

  /** Grouped text with more than one group, or with a fraction, has two points too many for a decimal. */
  lemma LongGroupedIsNoDecimal(style: Style, t: string)
    requires Grouped(t, style.Separator(), style.Point())
    requires |t| > 7 || style.Point() in t
    ensures PlainDecimal(ReplaceChar(t, ',', '.')) == None
  {
    var head, group, rest := GroupedParts(t, style.Separator(), style.Point());
    assert |t| == |head| + 4 + |rest|;
    assert style.Point() !in head && style.Point() !in group && style.Point() != style.Separator();
    TwoPoints(head, group, rest, style.Separator());
  }

  lemma {:induction false} ThousandsLength(n: nat, separator: char)
    ensures n >= 1000 ==> |WithThousands(n, separator)| >= 5
    ensures n >= 1000000 ==> |WithThousands(n, separator)| > 7
  {
    SmallDecimalShort(n);
    SmallDecimalShort(n / 1000);
    if n >= 1000 { ThousandsLength(n / 1000, separator); }
  }

  lemma OneGroupText(n: nat, separator: char)
    requires 1000 <= n < 1000000
    ensures WithThousands(n, separator) == Decimal(n / 1000) + ([separator] + Pad3(n % 1000))
  {
    assert n / 1000 < 1000;
    assert WithThousands(n / 1000, separator) == Decimal(n / 1000);
  }

  lemma JoinedGroup(n: nat)
    ensures AllDigits(Decimal(n / 1000)) && AllDigits(Pad3(n % 1000)) && Decimal(n / 1000) != []
    ensures AllDigits(Decimal(n / 1000) + Pad3(n % 1000)) && Value(Decimal(n / 1000) + Pad3(n % 1000)) == n
  {
    DecimalDigits(n / 1000);
    ValueOfDecimal(n / 1000);
    Pad3Value(n % 1000);
    JoinThousands(Decimal(n / 1000), Pad3(n % 1000));
    assert n == n / 1000 * 1000 + n % 1000;
  }

  lemma KeptGroup(style: Style, n: nat)
    requires 1000 <= n < 1000000
    ensures PlainDecimal(ReplaceChar(WithThousands(n, style.Separator()), ',', '.')) == Some(Dec(n, 3))
  {
    OneGroupText(n, style.Separator());
    JoinedGroup(n);
    OneGroupIsFraction(Decimal(n / 1000), Pad3(n % 1000), style.Separator());
  }

  /** A grouped integer whose separators are kept: none, or a thousandth of what was printed. */
  lemma KeptInteger(style: Style, grouped: bool, n: nat)
    ensures PlainDecimal(ReplaceChar(IntegerText(style, grouped, n), ',', '.')) ==
            if !grouped || n < 1000 then Some(Dec(n, 0)) else if n < 1000000 then Some(Dec(n, 3)) else None
  {
    var separator, t := style.Separator(), IntegerText(style, grouped, n);
    if !grouped || n < 1000 {
      DecimalDigits(n);
      ValueOfDecimal(n);
      ReplaceCharAbsent(t, ',', '.');
      PlainInteger(t);
      assert t == Decimal(n) && IsDigit(t[0]);
    } else {
      assert t + "" == t;
      ThousandsShape(n, separator, "", style.Point());
      if n < 1000000 {
        KeptGroup(style, n);
      } else {
        ThousandsLength(n, separator);
        LongGroupedIsNoDecimal(style, t);
      }
    }
  }

  lemma KeptDecimal(style: Style, grouped: bool, n: nat, fraction: string)
    requires fraction != [] && AllDigits(fraction)
    ensures PlainDecimal(ReplaceChar(DecimalText(style, grouped, n, fraction), ',', '.')) ==
            if grouped && n >= 1000 then None else Some(Exact(n, fraction))
  {
    var t := DecimalText(style, grouped, n, fraction);
    if grouped && n >= 1000 {
      var rest := [style.Point()] + fraction;
      assert rest[1..] == fraction && rest[0] in t;
      ThousandsShape(n, style.Separator(), rest, style.Point());
      LongGroupedIsNoDecimal(style, t);
    } else {
      DecimalDigits(n);
      ValueOfDecimal(n);
      PointReplaced(Decimal(n), style.Point(), fraction);
      PlainFraction(Decimal(n), fraction);
      ExactDigits(Decimal(n), fraction);
      assert t == Decimal(n) + ([style.Point()] + fraction);
      assert IsDigit((Decimal(n) + (['.'] + fraction))[0]);
    }
  }

  lemma GuardedKeptDecimal(style: Style, grouped: bool, n: nat, fraction: string)
    requires fraction != [] && AllDigits(fraction)
    ensures Guarded(PlainDecimal(ReplaceChar(DecimalText(style, grouped, n, fraction), ',', '.'))) ==
            if grouped && n >= 1000 then None else ExactReading(n, fraction)
  {
    KeptDecimal(style, grouped, n, fraction);
    ExactIsPlausible(n, fraction);
  }

  /** What a printed integer is read as when a sign keeps its separators from being recognised. */
  function KeptReading(grouped: bool, n: nat): Option<Dec> {
    if !grouped || n < 1000 then (if n <= Power10(24) then Some(Dec(n, 0)) else None)
    else if n < 1000000 then Some(Dec(n, 3))
    else None
  }

  lemma GuardedKept(grouped: bool, n: nat)
    ensures Guarded(if !grouped || n < 1000 then Some(Dec(n, 0)) else if n < 1000000 then Some(Dec(n, 3)) else None) ==
            KeptReading(grouped, n)
  {
    assert Power10(0) == 1 && Power10(3) == 1000;
  }

  /** Both readers on signed letters, by what is behind the sign. */
  lemma SignedReads(text: string, left: string, ps: seq<Piece>, right: string, negative: bool, t: string)
    requires t != "" && IsDigit(t[0]) && Marked(text, left, ps, right, [Sign(negative)] + t)
    ensures ExtractorDecimal(text) == Opposite(negative, Guarded(PlainDecimal(ReplaceChar(t, ',', '.'))))
    ensures ParseNumber(text) ==
            if negative then Negated(Guarded(ReadDecimal(Canonical(t)))) else ExtractorDecimal(text)
  {
    ReadersSeeLetters(text, left, ps, right, [Sign(negative)] + t);
    SignKeepsSeparators(t, negative);
    OppositeGuarded(negative, PlainDecimal(ReplaceChar(t, ',', '.')));
    MinusParsed(t);
    OppositeGuarded(true, ReadDecimal(Canonical(t)));
  }

  /**
   * With a sign before it, `parse_number` reads every printed natural number up to 10^24 as its
   * negative after a minus; the extractor after either sign, and `parse_number` after a plus, take
   * one thousands group for a fraction and read no number with two.
   */
  lemma SignedIntegerReads(
      text: string, left: string, ps: seq<Piece>, right: string, negative: bool, style: Style, grouped: bool, n: nat)
    requires Marked(text, left, ps, right, [Sign(negative)] + IntegerText(style, grouped, n))
    ensures ExtractorDecimal(text) == Opposite(negative, KeptReading(grouped, n))
    ensures ParseNumber(text) ==
            if !negative then KeptReading(grouped, n)
            else if n <= Power10(24) then Negated(Some(Dec(n, 0)))
            else None
  {
    StartsWithDigit(style, grouped, n);
    SignedReads(text, left, ps, right, negative, IntegerText(style, grouped, n));
    KeptInteger(style, grouped, n);
    GuardedKept(grouped, n);
    IntegersRoundTrip(style, grouped, n);
  }

  /** The same of decimals: without their separators recognised they are read exactly, or not at all. */
  lemma SignedDecimalReads(
      text: string, left: string, ps: seq<Piece>, right: string, negative: bool, style: Style, grouped: bool, n: nat,
      fraction: string)
    requires fraction != [] && AllDigits(fraction)
    requires Marked(text, left, ps, right, [Sign(negative)] + DecimalText(style, grouped, n, fraction))
    ensures ExtractorDecimal(text) ==
            if grouped && n >= 1000 then None else Opposite(negative, ExactReading(n, fraction))
    ensures ParseNumber(text) == if negative then Negated(Reading(n, fraction)) else ExtractorDecimal(text)
  {
    StartsWithDigit(style, grouped, n);
    SignedReads(text, left, ps, right, negative, DecimalText(style, grouped, n, fraction));
    GuardedKeptDecimal(style, grouped, n, fraction);
    ReadPrintedDecimal(style, grouped, n, fraction);
  }
}
