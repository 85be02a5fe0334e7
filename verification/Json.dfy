/**
 * `json.dumps` with compact separators and ensure_ascii=False, for the value kinds a release
 * snapshot holds. Every writer takes the text that follows, so a whole document is a chain of
 * writers, and each writer has a cancellation lemma: equal outputs have equal values and equal
 * continuations. String escaping is that of section 7 of RFC 8259.
 */
module Json {
  import opened Digits
  import opened Wrappers

  function HexDigit(n: nat): char
    requires n < 16
  {
    "0123456789abcdef"[n]
  }

  function EscapeChar(c: char): string {
    if c == '\"' then "\\\""
    else if c == '\\' then "\\\\"
    else if c == '\n' then "\\n"
    else if c == '\r' then "\\r"
    else if c == '\t' then "\\t"
    else if c == 8 as char then "\\b"
    else if c == 12 as char then "\\f"
    else if c < ' ' then "\\u00" + [HexDigit(c as int / 16), HexDigit(c as int % 16)]
    else [c]
  }

  function EscapeTo(s: string, rest: string): string {
    if s == [] then "\"" + rest else EscapeChar(s[0]) + EscapeTo(s[1..], rest)
  }

  function StringTo(s: string, rest: string): string {
    "\"" + EscapeTo(s, rest)
  }

  function OptionalStringTo(s: Option<string>, rest: string): string {
    match s
    case None => "null" + rest
    case Some(v) => StringTo(v, rest)
  }

  function ElementsTo(items: seq<string>, rest: string): string {
    if items == [] then "]" + rest
    else if |items| == 1 then StringTo(items[0], "]" + rest)
    else StringTo(items[0], "," + ElementsTo(items[1..], rest))
  }

  function ListTo(items: seq<string>, rest: string): string {
    "[" + ElementsTo(items, rest)
  }

  function OptionalNatTo(n: Option<nat>, rest: string): string {
    match n
    case None => "null" + rest
    case Some(v) => Decimal(v) + rest
  }

  lemma Cancel<T>(prefix: seq<T>, x: seq<T>, y: seq<T>)
    requires prefix + x == prefix + y
    ensures x == y
  {
    assert x == (prefix + x)[|prefix|..];
    assert y == (prefix + y)[|prefix|..];
  }

  lemma HexDigitInjective(a: nat, b: nat)
    requires a < 16 && b < 16 && HexDigit(a) == HexDigit(b)
    ensures a == b
  {
  }

  lemma EscapeCharShape(c: char)
    ensures var e := EscapeChar(c);
            && |e| in {1, 2, 6}
            && (|e| == 1 <==> e[0] != '\\')
            && (|e| == 1 ==> e == [c] && c != '\"' && c != '\\')
            && (|e| == 6 ==> e[1] == 'u' && c < ' ')
            && (|e| == 6 ==> e[4] == HexDigit(c as int / 16) && e[5] == HexDigit(c as int % 16))
            && (|e| == 2 ==> e[1] in "\"\\nrtbf")
  {
  }

  lemma EscapePairInjective(c: char, d: char)
    requires |EscapeChar(c)| == 2 && |EscapeChar(d)| == 2 && EscapeChar(c)[1] == EscapeChar(d)[1]
    ensures c == d
  {
  }

  /** Escape sequences are self-delimiting. */
  lemma EscapeCharCancel(c: char, d: char, x: string, y: string)
    requires EscapeChar(c) + x == EscapeChar(d) + y
    ensures c == d && x == y
  {
    var e, f := EscapeChar(c), EscapeChar(d);
    EscapeCharShape(c);
    EscapeCharShape(d);
    assert forall i :: 0 <= i < |e| && i < |f| ==> (e + x)[i] == e[i] && (f + y)[i] == f[i];
    assert e[0] == f[0];
    assert |e| == |f| by {
      if |e| != 1 && |f| != 1 { assert e[1] == f[1]; }
    }
    if |e| == 2 {
      EscapePairInjective(c, d);
    } else if |e| == 6 {
      assert e[4] == f[4] && e[5] == f[5];
      HexDigitInjective(c as int / 16, d as int / 16);
      HexDigitInjective(c as int % 16, d as int % 16);
    }
    assert c == d;
    Cancel(e, x, y);
  }

  lemma EscapeHead(s: string, rest: string)
    ensures EscapeTo(s, rest) != []
    ensures EscapeTo(s, rest)[0] == '\"' <==> s == []
  {
    if s != [] { EscapeCharShape(s[0]); }
  }

  lemma {:induction false} EscapeCancel(a: string, b: string, x: string, y: string)
    requires EscapeTo(a, x) == EscapeTo(b, y)
    ensures a == b && x == y
  {
    EscapeHead(a, x);
    EscapeHead(b, y);
    if a == [] {
      Cancel("\"", x, y);
    } else {
      EscapeCharCancel(a[0], b[0], EscapeTo(a[1..], x), EscapeTo(b[1..], y));
      EscapeCancel(a[1..], b[1..], x, y);
      assert a == [a[0]] + a[1..] && b == [b[0]] + b[1..];
    }
  }

  lemma StringCancel(a: string, b: string, x: string, y: string)
    requires StringTo(a, x) == StringTo(b, y)
    ensures a == b && x == y
  {
    Cancel("\"", EscapeTo(a, x), EscapeTo(b, y));
    EscapeCancel(a, b, x, y);
  }

  lemma OptionalStringCancel(a: Option<string>, b: Option<string>, x: string, y: string)
    requires OptionalStringTo(a, x) == OptionalStringTo(b, y)
    ensures a == b && x == y
  {
    assert a.None? ==> OptionalStringTo(a, x)[0] == 'n';
    assert b.None? ==> OptionalStringTo(b, y)[0] == 'n';
    if a.Some? && b.Some? {
      StringCancel(a.value, b.value, x, y);
    } else if a.None? && b.None? {
      Cancel("null", x, y);
    }
  }

  /** What follows the first element. */
  function AfterElement(items: seq<string>, rest: string): string
    requires items != []
  {
    if |items| == 1 then "]" + rest else "," + ElementsTo(items[1..], rest)
  }

  lemma ElementsHead(items: seq<string>, rest: string)
    ensures items == [] ==> ElementsTo(items, rest) == "]" + rest && ElementsTo(items, rest)[0] == ']'
    ensures items != [] ==>
              && ElementsTo(items, rest) == StringTo(items[0], AfterElement(items, rest))
              && ElementsTo(items, rest)[0] == '\"'
  {
  }

  lemma AfterElementHead(items: seq<string>, rest: string)
    requires items != []
    ensures AfterElement(items, rest)[0] == if |items| == 1 then ']' else ','
  {
  }

  lemma AfterElementCancel(a: seq<string>, b: seq<string>, x: string, y: string)
    requires a != [] && b != [] && AfterElement(a, x) == AfterElement(b, y)
    ensures |a| == 1 <==> |b| == 1
    ensures if |a| == 1 then x == y else ElementsTo(a[1..], x) == ElementsTo(b[1..], y)
  {
    AfterElementHead(a, x);
    AfterElementHead(b, y);
    if |a| == 1 {
      Cancel("]", x, y);
    } else {
      Cancel(",", ElementsTo(a[1..], x), ElementsTo(b[1..], y));
    }
  }

  lemma {:induction false} ElementsCancel(a: seq<string>, b: seq<string>, x: string, y: string)
    requires ElementsTo(a, x) == ElementsTo(b, y)
    ensures a == b && x == y
  {
    ElementsHead(a, x);
    ElementsHead(b, y);
    if a == [] {
      Cancel("]", x, y);
    } else {
      StringCancel(a[0], b[0], AfterElement(a, x), AfterElement(b, y));
      AfterElementCancel(a, b, x, y);
      if |a| > 1 { ElementsCancel(a[1..], b[1..], x, y); }
      assert a == [a[0]] + a[1..] && b == [b[0]] + b[1..];
    }
  }

  lemma ListCancel(a: seq<string>, b: seq<string>, x: string, y: string)
    requires ListTo(a, x) == ListTo(b, y)
    ensures a == b && x == y
  {
    Cancel("[", ElementsTo(a, x), ElementsTo(b, y));
    ElementsCancel(a, b, x, y);
  }

  /** A number ends where the digits end. */
  lemma DecimalCancel(a: nat, b: nat, x: string, y: string)
    requires Decimal(a) + x == Decimal(b) + y
    requires x != [] && y != [] && !IsDigit(x[0]) && !IsDigit(y[0])
    ensures a == b && x == y
  {
    var p, q := Decimal(a), Decimal(b);
    DecimalDigits(a);
    DecimalDigits(b);
    assert !IsDigit((p + x)[|p|]) && forall i :: 0 <= i < |p| ==> IsDigit((p + x)[i]);
    assert !IsDigit((q + y)[|q|]) && forall i :: 0 <= i < |q| ==> IsDigit((q + y)[i]);
    assert p == (p + x)[..|p|] == (q + y)[..|p|] == q;
    DecimalInjective(a, b);
    Cancel(p, x, y);
  }

  lemma OptionalNatCancel(a: Option<nat>, b: Option<nat>, x: string, y: string)
    requires OptionalNatTo(a, x) == OptionalNatTo(b, y)
    requires x != [] && y != [] && !IsDigit(x[0]) && !IsDigit(y[0])
    ensures a == b && x == y
  {
    if a.Some? { DecimalDigits(a.value); assert IsDigit(OptionalNatTo(a, x)[0]); }
    if b.Some? { DecimalDigits(b.value); assert IsDigit(OptionalNatTo(b, y)[0]); }
    assert a.None? ==> OptionalNatTo(a, x)[0] == 'n';
    assert b.None? ==> OptionalNatTo(b, y)[0] == 'n';
    if a.Some? && b.Some? {
      DecimalCancel(a.value, b.value, x, y);
    } else if a.None? && b.None? {
      Cancel("null", x, y);
    }
  }

  // ---------------------------------------------------------------------------------------------
  // Reading strings back
  // ---------------------------------------------------------------------------------------------

  /** The character a two-character escape sequence stands for. */
  function ShortEscape(e: char): Option<char> {
    match e
    case '\"' => Some('\"')
    case '\\' => Some('\\')
    case '/' => Some('/')
    case 'b' => Some(8 as char)
    case 'f' => Some(12 as char)
    case 'n' => Some(10 as char)
    case 'r' => Some(13 as char)
    case 't' => Some(9 as char)
    case _ => None
  }

  function HexValue(c: char): Option<nat> {
    if '0' <= c <= '9' then Some(c as nat - '0' as nat)
    else if 'a' <= c <= 'f' then Some(c as nat - 'a' as nat + 10)
    else if 'A' <= c <= 'F' then Some(c as nat - 'A' as nat + 10)
    else None
  }

  /** The character four hexadecimal digits stand for, below 256. */
  function HexChar(a: char, b: char, c: char, d: char): Option<char> {
    if a == '0' && b == '0' && HexValue(c).Some? && HexValue(d).Some?
    then Some((16 * HexValue(c).value + HexValue(d).value) as char)
    else None
  }

  /** The first character of a quoted text and how many characters it takes there. */
  function NextChar(t: string): Option<(char, nat)> {
    if t == "" then None
    else if t[0] != '\\' then (if t[0] == '\"' || t[0] < ' ' then None else Some((t[0], 1)))
    else if |t| >= 6 && t[1] == 'u' then
      var c := HexChar(t[2], t[3], t[4], t[5]);
      if c.Some? then Some((c.value, 6)) else None
    else if |t| >= 2 then
      var c := ShortEscape(t[1]);
      if c.Some? then Some((c.value, 2)) else None
    else None
  }

  lemma HexDigitReads(n: nat)
    requires n < 16
    ensures HexValue(HexDigit(n)) == Some(n)
  {
  }

  lemma HexReads(n: nat)
    requires n < 32
    ensures HexChar('0', '0', HexDigit(n / 16), HexDigit(n % 16)) == Some(n as char)
  {
    HexDigitReads(n / 16);
    HexDigitReads(n % 16);
  }

  lemma LongEscapeReads(c: char, rest: string)
    requires |EscapeChar(c)| == 6
    ensures NextChar(EscapeChar(c) + rest) == Some((c, 6))
  {
    var t := EscapeChar(c) + rest;
    HexReads(c as nat);
    assert t[0] == '\\' && t[1] == 'u' && t[2] == '0' && t[3] == '0';
    assert t[4] == HexDigit(c as nat / 16) && t[5] == HexDigit(c as nat % 16);
  }

  lemma EscapeCharReads(c: char, rest: string)
    ensures NextChar(EscapeChar(c) + rest) == Some((c, |EscapeChar(c)|))
    ensures EscapeChar(c)[0] != '\"'
  {
    EscapeCharShape(c);
    if |EscapeChar(c)| == 6 { LongEscapeReads(c, rest); }
  }

  /** Reads quoted characters up to the closing quote. */
  function ReadChars(t: string): Option<(string, string)> {
    if t != "" && t[0] == '\"' then Some(("", t[1..]))
    else
      var next := NextChar(t);
      if next.None? || next.value.1 == 0 || next.value.1 > |t| then None
      else
        var more := ReadChars(t[next.value.1..]);
        if more.Some? then Some(([next.value.0] + more.value.0, more.value.1)) else None
  }

  function ReadString(t: string): Option<(string, string)> {
    if t != "" && t[0] == '\"' then ReadChars(t[1..]) else None
  }

  lemma {:induction false} CharsRead(s: string, rest: string)
    ensures ReadChars(EscapeTo(s, rest)) == Some((s, rest))
  {
    if s == [] {
      assert EscapeTo(s, rest)[1..] == rest;
    } else {
      var e, more := EscapeChar(s[0]), EscapeTo(s[1..], rest);
      EscapeCharReads(s[0], more);
      CharsRead(s[1..], rest);
      assert (e + more)[|e|..] == more;
      assert s == [s[0]] + s[1..];
    }
  }

  /** Reading undoes writing: every string comes back, and what follows it is left. */
  lemma StringRoundTrip(s: string, rest: string)
    ensures ReadString(StringTo(s, rest)) == Some((s, rest))
  {
    CharsRead(s, rest);
    assert StringTo(s, rest)[1..] == EscapeTo(s, rest);
  }
}
