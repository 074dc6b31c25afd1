/**
 json.dumps(..., ensure_ascii=True) on flat objects (section 7 of RFC 8259): no two values share a
 text, even when more text follows.
 */
module JsonText {

  datatype Value =
    | Str(s: string)
    | Num(n: nat)
    | Null

  datatype Item = Item(key: string, value: Value)

  // --- Characters -------------------------------------------------------

  function HexDigit(d: nat): char
    requires d < 16
  {
    "0123456789abcdef"[d]
  }

  function Hex4(n: nat): string
    requires n < 0x1_0000
  {
    [HexDigit(n / 4096), HexDigit(n / 256 % 16), HexDigit(n / 16 % 16), HexDigit(n % 16)]
  }

  function UnicodeEscape(n: nat): string
    requires n < 0x1_0000
  {
    ['\\', 'u'] + Hex4(n)
  }

  predicate IsShort(c: char) {
    c in "\"\\\n\r\t" || c == '\U{0C}' || c == '\U{08}'
  }

  function ShortEscape(c: char): char
    requires IsShort(c)
  {
    if c == '\n' then 'n' else if c == '\r' then 'r' else if c == '\t' then 't'
    else if c == '\U{0C}' then 'f' else if c == '\U{08}' then 'b' else c
  }

  /** Beyond the basic plane, a surrogate pair. */
  function EscapeChar(c: char): string {
    if IsShort(c) then ['\\', ShortEscape(c)]
    else if ' ' <= c <= '~' then [c]
    else if c as int < 0x1_0000 then UnicodeEscape(c as int)
    else
      var v := c as int - 0x1_0000;
      UnicodeEscape(0xD800 + v / 0x400) + UnicodeEscape(0xDC00 + v % 0x400)
  }

  lemma HexDigitInjective(d: nat, e: nat)
    requires d < 16 && e < 16 && HexDigit(d) == HexDigit(e)
    ensures d == e
  {
  }

  lemma Hex4Injective(n: nat, m: nat)
    requires n < 0x1_0000 && m < 0x1_0000 && Hex4(n) == Hex4(m)
    ensures n == m
  {
    assert Hex4(n)[0] == Hex4(m)[0] && Hex4(n)[1] == Hex4(m)[1] && Hex4(n)[2] == Hex4(m)[2] && Hex4(n)[3] == Hex4(m)[3];
    HexDigitInjective(n / 4096, m / 4096);
    HexDigitInjective(n / 256 % 16, m / 256 % 16);
    HexDigitInjective(n / 16 % 16, m / 16 % 16);
    HexDigitInjective(n % 16, m % 16);
    Digits16(n);
    Digits16(m);
  }

  lemma Digits16(n: nat)
    requires n < 0x1_0000
    ensures n == n / 4096 * 4096 + n / 256 % 16 * 256 + n / 16 % 16 * 16 + n % 16
  {
    LastDigit16(n);
    LastDigit16(n / 16);
    LastDigit16(n / 256);
    assert n / 16 / 16 == n / 256 && n / 256 / 16 == n / 4096;
  }

  lemma LastDigit16(n: nat)
    ensures n == n / 16 * 16 + n % 16
  {
  }

  /** What follows a `\u`, if the character is written that way: its first code unit. */
  function FirstUnit(c: char): nat
    requires !IsShort(c) && !(' ' <= c <= '~')
    ensures FirstUnit(c) < 0x1_0000
  {
    if c as int < 0x1_0000 then c as int else 0xD800 + (c as int - 0x1_0000) / 0x400
  }

  lemma EscapeShape(c: char)
    ensures var e := EscapeChar(c);
            if IsShort(c) then |e| == 2 && e[0] == '\\' && e[1] != 'u'
            else if ' ' <= c <= '~' then e == [c] && c != '\\' && c != '"'
            else |e| == (if c as int < 0x1_0000 then 6 else 12) && e[..6] == UnicodeEscape(FirstUnit(c))
                    && e[0] == '\\' && e[1] == 'u'
  {
  }

  lemma SameFirstUnit(c: char, d: char, x: string, y: string)
    requires !IsShort(c) && !(' ' <= c <= '~') && !IsShort(d) && !(' ' <= d <= '~')
    requires EscapeChar(c) + x == EscapeChar(d) + y
    ensures FirstUnit(c) == FirstUnit(d)
  {
    EscapeShape(c);
    EscapeShape(d);
    assert (EscapeChar(c) + x)[..6] == EscapeChar(c)[..6] && (EscapeChar(d) + y)[..6] == EscapeChar(d)[..6];
    assert Hex4(FirstUnit(c)) == UnicodeEscape(FirstUnit(c))[2..]
            && Hex4(FirstUnit(d)) == UnicodeEscape(FirstUnit(d))[2..];
    Hex4Injective(FirstUnit(c), FirstUnit(d));
  }

  function SecondUnit(c: char): nat
    requires c as int >= 0x1_0000
    ensures SecondUnit(c) < 0x1_0000
  {
    0xDC00 + (c as int - 0x1_0000) % 0x400
  }

  lemma SecondUnitIsThere(c: char, x: string)
    requires c as int >= 0x1_0000
    ensures |EscapeChar(c)| == 12 && (EscapeChar(c) + x)[8..12] == Hex4(SecondUnit(c))
  {
  }

  lemma SurrogatesDecide(c: char, d: char)
    requires c as int >= 0x1_0000 && d as int >= 0x1_0000
    requires FirstUnit(c) == FirstUnit(d) && SecondUnit(c) == SecondUnit(d)
    ensures c == d
  {
    var m, n := c as int - 0x1_0000, d as int - 0x1_0000;
    assert m == m / 0x400 * 0x400 + m % 0x400 && n == n / 0x400 * 0x400 + n % 0x400;
  }

  /** The code units tell the character: a basic character is no surrogate. */
  lemma UnitsDecide(c: char, d: char, x: string, y: string)
    requires !IsShort(c) && !(' ' <= c <= '~') && !IsShort(d) && !(' ' <= d <= '~')
    requires EscapeChar(c) + x == EscapeChar(d) + y
    ensures c == d
  {
    SameFirstUnit(c, d, x, y);
    if c as int >= 0x1_0000 && d as int >= 0x1_0000 {
      SecondUnitIsThere(c, x);
      SecondUnitIsThere(d, y);
      Hex4Injective(SecondUnit(c), SecondUnit(d));
      SurrogatesDecide(c, d);
    }
  }

  /** No escape is the beginning of another. */
  lemma EscapePrefixFree(c: char, d: char, x: string, y: string)
    requires EscapeChar(c) + x == EscapeChar(d) + y
    ensures c == d && x == y
  {
    EscapeShape(c);
    EscapeShape(d);
    var u, v := EscapeChar(c) + x, EscapeChar(d) + y;
    assert u[0] == EscapeChar(c)[0] && v[0] == EscapeChar(d)[0];
    if !(' ' <= c <= '~') || IsShort(c) {
      assert u[1] == EscapeChar(c)[1];
      assert v[1] == EscapeChar(d)[1];
      if !IsShort(c) {
        UnitsDecide(c, d, x, y);
      }
    }
    assert c == d;
    assert x == u[|EscapeChar(c)|..] && y == v[|EscapeChar(d)|..];
  }

  // --- Strings ----------------------------------------------------------

  function EscapeAll(s: string): string {
    if s == [] then [] else EscapeChar(s[0]) + EscapeAll(s[1..])
  }

  function Quote(s: string): string {
    "\"" + EscapeAll(s) + "\""
  }

  lemma NeverQuote(c: char, x: string)
    ensures (EscapeChar(c) + x)[0] != '"'
  {
    EscapeShape(c);
    assert (EscapeChar(c) + x)[0] == EscapeChar(c)[0];
  }

  lemma UnrollEscape(s: string, x: string)
    requires s != []
    ensures EscapeAll(s) + x == EscapeChar(s[0]) + (EscapeAll(s[1..]) + x)
  {
  }

  lemma {:induction false} EscapedEndsOnce(s: string, t: string, x: string, y: string)
    requires x != [] && x[0] == '"' && y != [] && y[0] == '"'
    requires EscapeAll(s) + x == EscapeAll(t) + y
    ensures s == t && x == y
  {
    if s == [] && t == [] {
      assert EscapeAll(s) + x == x && EscapeAll(t) + y == y;
    } else if s == [] {
      UnrollEscape(t, y);
      NeverQuote(t[0], EscapeAll(t[1..]) + y);
    } else if t == [] {
      UnrollEscape(s, x);
      NeverQuote(s[0], EscapeAll(s[1..]) + x);
    } else {
      UnrollEscape(s, x);
      UnrollEscape(t, y);
      EscapePrefixFree(s[0], t[0], EscapeAll(s[1..]) + x, EscapeAll(t[1..]) + y);
      EscapedEndsOnce(s[1..], t[1..], x, y);
      assert s == [s[0]] + s[1..] && t == [t[0]] + t[1..];
    }
  }

  lemma QuoteTail(s: string, x: string)
    ensures (Quote(s) + x)[1..] == EscapeAll(s) + ("\"" + x)
  {
    assert Quote(s) + x == "\"" + (EscapeAll(s) + ("\"" + x));
  }

  lemma QuotePrefixFree(s: string, t: string, x: string, y: string)
    requires Quote(s) + x == Quote(t) + y
    ensures s == t && x == y
  {
    QuoteTail(s, x);
    QuoteTail(t, y);
    EscapedEndsOnce(s, t, "\"" + x, "\"" + y);
    assert x == ("\"" + x)[1..] && y == ("\"" + y)[1..];
  }

  // --- Numbers ----------------------------------------------------------

  predicate IsDigit(c: char) {
    '0' <= c <= '9'
  }

  function Digit(d: nat): char
    requires d < 10
  {
    "0123456789"[d]
  }

  function Decimal(n: nat): string {
    if n < 10 then [Digit(n)] else Decimal(n / 10) + [Digit(n % 10)]
  }

  function ParseDecimal(s: string): nat
    requires forall i :: 0 <= i < |s| ==> IsDigit(s[i])
  {
    if s == [] then 0
    else
      assert IsDigit(s[|s| - 1]);
      ParseDecimal(s[..|s| - 1]) * 10 + (s[|s| - 1] as int - '0' as int)
  }

  /** Parsing what was printed gives the number back. */
  lemma {:induction false} DecimalRoundTrip(n: nat)
    ensures Decimal(n) != [] && forall i :: 0 <= i < |Decimal(n)| ==> IsDigit(Decimal(n)[i])
    ensures ParseDecimal(Decimal(n)) == n
  {
    var s := Decimal(n);
    if n < 10 {
      assert s[..0] == [];
    } else {
      DecimalRoundTrip(n / 10);
      assert s[..|s| - 1] == Decimal(n / 10);
    }
  }

  ghost predicate EndsNumber(x: string) {
    x == [] || !IsDigit(x[0])
  }

  lemma DecimalPrefixFree(n: nat, m: nat, x: string, y: string)
    requires Decimal(n) + x == Decimal(m) + y && EndsNumber(x) && EndsNumber(y)
    ensures n == m && x == y
  {
    DecimalRoundTrip(n);
    DecimalRoundTrip(m);
    var a, b, u, v := Decimal(n), Decimal(m), Decimal(n) + x, Decimal(m) + y;
    assert a == u[..|a|] && b == v[..|b|];
    assert x == u[|a|..] && y == v[|b|..];
  }

  // --- Objects ----------------------------------------------------------

  function ValueText(v: Value): string {
    match v
    case Str(s) => Quote(s)
    case Num(n) => Decimal(n)
    case Null => "null"
  }

  function ItemText(i: Item): string {
    Quote(i.key) + (": " + ValueText(i.value))
  }

  function Body(items: seq<Item>): string {
    if items == [] then "}"
    else if |items| == 1 then ItemText(items[0]) + "}"
    else ItemText(items[0]) + (", " + Body(items[1..]))
  }

  function Dumps(items: seq<Item>): string {
    "{" + Body(items)
  }

  lemma ValuePrefixFree(v: Value, w: Value, x: string, y: string)
    requires ValueText(v) + x == ValueText(w) + y && EndsNumber(x) && EndsNumber(y)
    ensures v == w && x == y
  {
    ValueHead(v);
    ValueHead(w);
    assert (ValueText(v) + x)[0] == ValueText(v)[0] && (ValueText(w) + y)[0] == ValueText(w)[0];
    match v {
      case Str(s) => QuotePrefixFree(s, w.s, x, y);
      case Num(n) => DecimalPrefixFree(n, w.n, x, y);
      case Null =>
        assert x == (ValueText(v) + x)[4..] && y == (ValueText(w) + y)[4..];
    }
  }

  lemma ValueHead(v: Value)
    ensures ValueText(v) != []
    ensures v.Str? <==> ValueText(v)[0] == '"'
    ensures v.Num? <==> IsDigit(ValueText(v)[0])
  {
    if v.Num? {
      DecimalRoundTrip(v.n);
    }
  }

  lemma ItemSplits(i: Item, x: string)
    ensures ItemText(i) + x == Quote(i.key) + (": " + (ValueText(i.value) + x))
  {
  }

  lemma ItemPrefixFree(i: Item, j: Item, x: string, y: string)
    requires ItemText(i) + x == ItemText(j) + y && EndsNumber(x) && EndsNumber(y)
    ensures i == j && x == y
  {
    var a, b := ": " + (ValueText(i.value) + x), ": " + (ValueText(j.value) + y);
    ItemSplits(i, x);
    ItemSplits(j, y);
    QuotePrefixFree(i.key, j.key, a, b);
    assert a[2..] == ValueText(i.value) + x && b[2..] == ValueText(j.value) + y;
    ValuePrefixFree(i.value, j.value, x, y);
  }

  lemma CommaPeels(x: string, y: string)
    requires ", " + x == ", " + y
    ensures x == y
  {
    assert (", " + x)[2..] == x && (", " + y)[2..] == y;
  }

  /** What follows the first member. */
  function Rest(items: seq<Item>): string
    requires items != []
  {
    if |items| == 1 then "}" else ", " + Body(items[1..])
  }

  lemma BodySplits(items: seq<Item>)
    requires items != []
    ensures Body(items) == ItemText(items[0]) + Rest(items) && Body(items)[0] == '"'
    ensures EndsNumber(Rest(items)) && (Rest(items)[0] == '}' <==> |items| == 1)
  {
  }

  /** Two objects have the same text only if they are the same. */
  lemma {:induction false} BodyInjective(a: seq<Item>, b: seq<Item>)
    requires Body(a) == Body(b)
    ensures a == b
  {
    if a == [] {
      if b != [] {
        BodySplits(b);
      }
    } else {
      BodySplits(a);
      if b != [] {
        BodySplits(b);
        ItemPrefixFree(a[0], b[0], Rest(a), Rest(b));
        if |a| > 1 {
          CommaPeels(Body(a[1..]), Body(b[1..]));
          BodyInjective(a[1..], b[1..]);
        }
        assert a == [a[0]] + a[1..] && b == [b[0]] + b[1..];
      }
    }
  }

  lemma DumpsInjective(a: seq<Item>, b: seq<Item>)
    requires Dumps(a) == Dumps(b)
    ensures a == b
  {
    assert Dumps(a)[1..] == Body(a) && Dumps(b)[1..] == Body(b);
    BodyInjective(a, b);
  }
}
