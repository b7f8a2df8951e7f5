/**
 The dependency-free JSON printer and parser of the Java demo, on UTF-16 code
 units. Functions give the exact meaning of every writer and parser method,
 exceptions included; JsonClasses.dfy proves the methods against them and
 JsonRoundTrip.dfy proves that parsing inverts printing.
*/
module Json {

  newtype Unit = u: int | 0 <= u < 0x1_0000

  type Text = seq<Unit>

  /**
   What the demo stores in an Object. Numbers keep their box: parseNumber gives
   an Integer whenever the value fits. Doubles are kept as their source text.
  */
  datatype Value =
    | Null
    | Bool(b: bool)
    | Int(n: int)
    | Long(n: int)
    | Double(text: Text)
    | String(s: Text)
    | Array(es: seq<Value>)
    | Object(ms: seq<Member>)

  /** LinkedHashMap entry; a map is the list of its entries in insertion order. */
  datatype Member = Member(key: Text, value: Value)

  const QUOTE: Unit := 34
  const PLUS: Unit := 43
  const COMMA: Unit := 44
  const MINUS: Unit := 45
  const DOT: Unit := 46
  const SLASH: Unit := 47
  const ZERO: Unit := 48
  const COLON: Unit := 58
  const OPEN_BRACKET: Unit := 91
  const BACKSLASH: Unit := 92
  const CLOSE_BRACKET: Unit := 93
  const OPEN_BRACE: Unit := 123
  const CLOSE_BRACE: Unit := 125
  const NEWLINE: Unit := 10
  const SPACE: Unit := 32

  const TEXT_NULL: Text := [110, 117, 108, 108]
  const TEXT_TRUE: Text := [116, 114, 117, 101]
  const TEXT_FALSE: Text := [102, 97, 108, 115, 101]

  const INT_MIN := -0x8000_0000
  const INT_MAX := 0x7fff_ffff
  const LONG_MIN := -0x8000_0000_0000_0000
  const LONG_MAX := 0x7fff_ffff_ffff_ffff

  // ----- printing -------------------------------------------------------------

  /** One digit of the lower-case "%04x" format. */
  function HexDigit(d: int): Unit
    requires 0 <= d < 16
  {
    if d < 10 then (48 + d) as Unit else (87 + d) as Unit
  }

  function EscapeUnit(c: Unit): Text {
    if c == BACKSLASH then [BACKSLASH, BACKSLASH]
    else if c == QUOTE then [BACKSLASH, QUOTE]
    else if c == 10 then [BACKSLASH, 110]
    else if c == 13 then [BACKSLASH, 114]
    else if c == 9 then [BACKSLASH, 116]
    else if c < 32 then [BACKSLASH, 117, ZERO, ZERO, HexDigit(c as int / 16), HexDigit(c as int % 16)]
    else [c]
  }

  function Escape(s: Text): Text {
    if s == [] then [] else EscapeUnit(s[0]) + Escape(s[1..])
  }

  /** Decimal digits of n without leading zeros. */
  function Decimal(n: nat): Text {
    if n < 10 then [(48 + n) as Unit] else Decimal(n / 10) + [(48 + n % 10) as Unit]
  }

  /** String.valueOf of an Integer or a Long. */
  function NumberText(n: int): Text {
    if n < 0 then [MINUS] + Decimal(-n) else Decimal(n)
  }

  function Spaces(n: nat): Text {
    seq(n, i => SPACE)
  }

  /** The line break before an entry at the given depth. */
  function Break(indent: int, depth: nat): Text {
    if indent > 0 then [NEWLINE] + Spaces(depth * indent) else []
  }

  function Quoted(s: Text): Text {
    [QUOTE] + Escape(s) + [QUOTE]
  }

  function Print(v: Value, indent: int, depth: nat): Text
    decreases v, 0
  {
    match v
    case Null => TEXT_NULL
    case Bool(b) => if b then TEXT_TRUE else TEXT_FALSE
    case Int(n) => NumberText(n)
    case Long(n) => NumberText(n)
    case Double(text) => text
    case String(s) => Quoted(s)
    case Array(es) => [OPEN_BRACKET] + (PrintElements(es, indent, depth, true) + Closing(es == [], indent, depth, CLOSE_BRACKET))
    case Object(ms) => [OPEN_BRACE] + (PrintMembers(ms, indent, depth, true) + Closing(ms == [], indent, depth, CLOSE_BRACE))
  }

  function Separator(first: bool): Text {
    if first then [] else [COMMA]
  }

  function Closing(empty: bool, indent: int, depth: nat, close: Unit): Text {
    if empty then [close] else Break(indent, depth) + [close]
  }

  function PrintElements(es: seq<Value>, indent: int, depth: nat, first: bool): Text
    decreases es, 1
  {
    if es == [] then [] else
      Separator(first) + (Break(indent, depth + 1)
        + (Print(es[0], indent, depth + 1) + PrintElements(es[1..], indent, depth, false)))
  }

  function Gap(indent: int): Text {
    if indent > 0 then [SPACE] else []
  }

  /** Key, colon and value. */
  function PrintEntry(m: Member, indent: int, depth: nat): Text
    decreases m, 1
  {
    Quoted(m.key) + ([COLON] + (Gap(indent) + Print(m.value, indent, depth + 1)))
  }

  function PrintMembers(ms: seq<Member>, indent: int, depth: nat, first: bool): Text
    decreases ms, 1
  {
    if ms == [] then [] else
      Separator(first) + (Break(indent, depth + 1)
        + (PrintEntry(ms[0], indent, depth) + PrintMembers(ms[1..], indent, depth, false)))
  }

  function ToJson(v: Value, indent: int): Text {
    Print(v, indent, 0)
  }

  // ----- parsing --------------------------------------------------------------

  /** Ok carries the value; Fail is the RuntimeException of expect. next is the cursor left behind. */
  datatype Parse<+T> = Ok(value: T, next: nat) | Fail(next: nat)

  predicate IsWs(c: Unit) {
    c == 32 || c == 10 || c == 13 || c == 9
  }

  predicate IsAsciiDigit(c: Unit) {
    48 <= c <= 57
  }

  /** Where the decimal digits outside ASCII start, ten in a row each: what Character.isDigit(char) accepts. */
  const DIGIT_BLOCKS: Text := [
    0x660, 0x6f0, 0x7c0, 0x966, 0x9e6, 0xa66, 0xae6, 0xb66, 0xbe6, 0xc66, 0xce6, 0xd66,
    0xde6, 0xe50, 0xed0, 0xf20, 0x1040, 0x1090, 0x17e0, 0x1810, 0x1946, 0x19d0, 0x1a80, 0x1a90,
    0x1b50, 0x1bb0, 0x1c40, 0x1c50, 0xa620, 0xa8d0, 0xa900, 0xa9d0, 0xa9f0, 0xaa50, 0xabf0, 0xff10
  ]

  /** The value of a digit of one of the blocks, or -1. */
  function BlockDigit(c: Unit, blocks: Text): (d: int)
    ensures -1 <= d < 10
  {
    if blocks == [] then -1
    else if blocks[0] <= c && c as int < blocks[0] as int + 10 then c as int - blocks[0] as int
    else BlockDigit(c, blocks[1..])
  }

  predicate IsDigit(c: Unit) {
    IsAsciiDigit(c) || (c >= 128 && BlockDigit(c, DIGIT_BLOCKS) >= 0)
  }

  predicate AllDigits(t: Text) {
    forall k :: 0 <= k < |t| ==> IsDigit(t[k])
  }

  predicate Peek(s: Text, i: nat, c: Unit) {
    i < |s| && s[i] == c
  }

  function SkipWs(s: Text, i: nat): (j: nat)
    ensures i <= j
    ensures j == i || j <= |s|
    ensures j < |s| ==> !IsWs(s[j])
    decreases |s| - i
  {
    if i < |s| && IsWs(s[i]) then SkipWs(s, i + 1) else i
  }

  function SkipDigits(s: Text, i: nat): (j: nat)
    ensures i <= j
    ensures j == i || j <= |s|
    ensures j < |s| ==> !IsDigit(s[j])
    ensures forall k :: i <= k < j ==> k < |s| && IsDigit(s[k])
    decreases |s| - i
  {
    if i < |s| && IsDigit(s[i]) then SkipDigits(s, i + 1) else i
  }

  function Expect(s: Text, i: nat, c: Unit): (r: Parse<()>)
    ensures i <= r.next
    ensures r.Ok? ==> i < r.next <= |s| && s[r.next - 1] == c
  {
    var j := SkipWs(s, i);
    if j >= |s| || s[j] != c then Fail(j) else Ok((), j + 1)
  }

  // Strings

  /** Character.digit(c, 16): ASCII, any decimal digit and the full-width letters, or -1. */
  function HexValue(c: Unit): (d: int)
    ensures -1 <= d < 16
  {
    if 48 <= c <= 57 then c as int - 48
    else if 97 <= c <= 102 then c as int - 87
    else if 65 <= c <= 70 then c as int - 55
    else if c < 128 then -1
    else if 0xff21 <= c <= 0xff26 then c as int - 0xff17
    else if 0xff41 <= c <= 0xff46 then c as int - 0xff37
    else BlockDigit(c, DIGIT_BLOCKS)
  }

  /** The digits' value in base 16, or -1 when one is not a hexadecimal digit. */
  function HexDigits(t: Text): int {
    if t == [] then 0 else
      var high := HexDigits(t[..|t| - 1]);
      var low := HexValue(t[|t| - 1]);
      if high < 0 || low < 0 then -1 else 16 * high + low
  }

  lemma HexDigitsRange(t: Text)
    requires |t| <= 4
    ensures -1 <= HexDigits(t) < 0x1_0000
    ensures |t| == 0 ==> HexDigits(t) < 1
    ensures |t| == 1 ==> HexDigits(t) < 16
    ensures |t| == 2 ==> HexDigits(t) < 256
    ensures |t| == 3 ==> HexDigits(t) < 4096
  {
    if t == [] {
    } else {
      HexDigitsRange(t[..|t| - 1]);
    }
  }

  /**
   (char) Integer.parseInt(hex, 16), or '?' when that throws. parseInt takes a
   leading sign, and the cast of a negative result wraps around.
  */
  function UnicodeEscape(hex: Text): Unit
    requires |hex| <= 4
  {
    HexDigitsRange(hex);
    var signed := hex != [] && (hex[0] == PLUS || hex[0] == MINUS);
    var digits := if signed then hex[1..] else hex;
    HexDigitsRange(digits);
    if digits == [] || HexDigits(digits) < 0 then 63
    else if signed && hex[0] == MINUS && HexDigits(digits) > 0 then (0x1_0000 - HexDigits(digits)) as Unit
    else HexDigits(digits) as Unit
  }

  function SimpleEscape(e: Unit): Unit {
    if e == 98 then 8          // \b
    else if e == 102 then 12   // \f
    else if e == 110 then 10   // \n
    else if e == 114 then 13   // \r
    else if e == 116 then 9    // \t
    else e                     // \" \\ \/ and every unknown escape
  }

  function Min(a: nat, b: nat): nat {
    if a < b then a else b
  }

  /** The loop of parseString: text and cursor from just after the opening quote. */
  function ScanString(s: Text, i: nat): (r: (Text, nat))
    ensures i <= r.1
    decreases |s| - i
  {
    if i >= |s| then ([], i)
    else if s[i] == QUOTE then ([], i + 1)
    else if s[i] != BACKSLASH then
      var (rest, j) := ScanString(s, i + 1);
      ([s[i]] + rest, j)
    else if i + 1 >= |s| then ([], i + 1)
    else if s[i + 1] == 117 then
      var hex := s[i + 2..Min(i + 6, |s|)];
      var (rest, j) := ScanString(s, i + 6);
      ([UnicodeEscape(hex)] + rest, j)
    else
      var (rest, j) := ScanString(s, i + 2);
      ([SimpleEscape(s[i + 1])] + rest, j)
  }

  function ParseString(s: Text, i: nat): (r: Parse<Text>)
    ensures i <= r.next
    ensures r.Ok? ==> i < r.next && i < |s|
  {
    var q := Expect(s, i, QUOTE);
    if q.Fail? then Fail(q.next) else
      var (text, j) := ScanString(s, q.next);
      Ok(text, j)
  }

  // Numbers

  function DigitValue(c: Unit): nat
    requires IsDigit(c)
  {
    if IsAsciiDigit(c) then c as int - 48 else BlockDigit(c, DIGIT_BLOCKS)
  }

  function DecimalValue(t: Text): nat
    requires AllDigits(t)
  {
    if t == [] then 0 else 10 * DecimalValue(t[..|t| - 1]) + DigitValue(t[|t| - 1])
  }

  /** Long.parseLong and the choice of box; 0 when parseLong throws. */
  function IntegerValue(negative: bool, digits: Text): Value
    requires AllDigits(digits)
  {
    var magnitude: int := DecimalValue(digits);
    var n := if negative then -magnitude else magnitude;
    if digits == [] || n < LONG_MIN || n > LONG_MAX then Int(0)
    else if INT_MIN <= n <= INT_MAX then Int(n)
    else Long(n)
  }

  function FractionEnd(s: Text, b: nat): (c: nat)
    ensures b <= c
  {
    if Peek(s, b, DOT) then SkipDigits(s, b + 1) else b
  }

  predicate HasExponent(s: Text, c: nat) {
    Peek(s, c, 101) || Peek(s, c, 69)
  }

  /** Where the exponent's digits start, after the letter and an optional sign. */
  function ExponentStart(s: Text, c: nat): nat {
    if Peek(s, c + 1, PLUS) || Peek(s, c + 1, MINUS) then c + 2 else c + 1
  }

  function ExponentEnd(s: Text, c: nat): (e: nat)
    ensures c <= e
  {
    if HasExponent(s, c) then SkipDigits(s, ExponentStart(s, c)) else c
  }

  /** The value of the number text s[i..e], whose parts end at a, b and c. */
  function NumberValue(s: Text, i: nat, a: nat, b: nat, c: nat, e: nat): Value
    requires i <= a <= b <= c <= e <= |s| && AllDigits(s[a..b])
  {
    if b == c && !HasExponent(s, c) then IntegerValue(a > i, s[a..b])
    else if (b > a || c > b + 1) && (HasExponent(s, c) ==> e > ExponentStart(s, c)) && AllAscii(s[i..e]) then Double(s[i..e])
    else Int(0)  // Double.parseDouble throws
  }

  predicate AllAscii(t: Text) {
    forall k :: 0 <= k < |t| ==> t[k] < 128
  }

  function ParseNumber(s: Text, i: nat): (r: Parse<Value>)
    requires i <= |s|
    ensures r.Ok? && i <= r.next
  {
    var a := if Peek(s, i, MINUS) then i + 1 else i;
    var b := SkipDigits(s, a);
    var c := FractionEnd(s, b);
    var e := ExponentEnd(s, c);
    Ok(NumberValue(s, i, a, b, c, e), e)
  }

  // Values

  predicate StartsWith(s: Text, t: Text, i: nat) {
    i + |t| <= |s| && s[i..i + |t|] == t
  }

  function ParseBoolean(s: Text, i: nat): Parse<Value> {
    if StartsWith(s, TEXT_TRUE, i) then Ok(Bool(true), i + 4)
    else if StartsWith(s, TEXT_FALSE, i) then Ok(Bool(false), i + 5)
    else Ok(Bool(false), i)
  }

  function ParseNull(s: Text, i: nat): Parse<Value> {
    if StartsWith(s, TEXT_NULL, i) then Ok(Null, i + 4) else Ok(Null, i)
  }

  /** LinkedHashMap.put: an existing key keeps its place and gets the new value. */
  function Put(ms: seq<Member>, key: Text, value: Value): seq<Member> {
    if ms == [] then [Member(key, value)]
    else if ms[0].key == key then [Member(key, value)] + ms[1..]
    else [ms[0]] + Put(ms[1..], key, value)
  }

  function Left(s: Text, i: nat): nat {
    if i < |s| then |s| - i else 0
  }

  /** parseValue. The cursor never moves back, and the recursion ends on every text. */
  function ParseValue(s: Text, i: nat): (r: Parse<Value>)
    ensures i <= r.next
    decreases Left(s, i), 1
  {
    var j := SkipWs(s, i);
    if j >= |s| then Ok(Null, j)
    else if s[j] == OPEN_BRACE then ParseObject(s, j)
    else if s[j] == OPEN_BRACKET then ParseArray(s, j)
    else if s[j] == QUOTE then
      var t := ParseString(s, j);
      if t.Fail? then Fail(t.next) else Ok(String(t.value), t.next)
    else if s[j] == 116 || s[j] == 102 then ParseBoolean(s, j)
    else if s[j] == 110 then ParseNull(s, j)
    else ParseNumber(s, j)
  }

  function ParseArray(s: Text, i: nat): (r: Parse<Value>)
    ensures i <= r.next
    decreases Left(s, i), 0
  {
    var open := Expect(s, i, OPEN_BRACKET);
    if open.Fail? then Fail(open.next) else
      var j := SkipWs(s, open.next);
      if Peek(s, j, CLOSE_BRACKET) then Ok(Array([]), j + 1)
      else ParseElements(s, j, [])
  }

  /** The while loop of parseArray, from the start of one round. */
  function ParseElements(s: Text, i: nat, arr: seq<Value>): (r: Parse<Value>)
    ensures i <= r.next
    decreases Left(s, i), 2
  {
    var v := ParseValue(s, i);
    if v.Fail? then Fail(v.next) else
      var j := SkipWs(s, v.next);
      if Peek(s, j, CLOSE_BRACKET) then Ok(Array(arr + [v.value]), j + 1)
      else
        var comma := Expect(s, j, COMMA);
        if comma.Fail? then Fail(comma.next)
        else ParseElements(s, comma.next, arr + [v.value])
  }

  function ParseObject(s: Text, i: nat): (r: Parse<Value>)
    ensures i <= r.next
    decreases Left(s, i), 0
  {
    var open := Expect(s, i, OPEN_BRACE);
    if open.Fail? then Fail(open.next) else
      var j := SkipWs(s, open.next);
      if Peek(s, j, CLOSE_BRACE) then Ok(Object([]), j + 1)
      else ParseMembers(s, j, [])
  }

  /** The while loop of parseObject, from the start of one round. */
  function ParseMembers(s: Text, i: nat, obj: seq<Member>): (r: Parse<Value>)
    ensures i <= r.next
    decreases Left(s, i), 2
  {
    var key := ParseString(s, SkipWs(s, i));
    if key.Fail? then Fail(key.next) else
      var colon := Expect(s, SkipWs(s, key.next), COLON);
      if colon.Fail? then Fail(colon.next) else
        var v := ParseValue(s, colon.next);
        if v.Fail? then Fail(v.next) else
          var j := SkipWs(s, v.next);
          if Peek(s, j, CLOSE_BRACE) then Ok(Object(Put(obj, key.value, v.value)), j + 1)
          else
            var comma := Expect(s, j, COMMA);
            if comma.Fail? then Fail(comma.next)
            else ParseMembers(s, comma.next, Put(obj, key.value, v.value))
  }
}
