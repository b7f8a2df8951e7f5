/**
 The parser reads every JSON text, not only printed ones. A tree records where
 the parts of a text stand, following the grammar of RFC 8259 sections 2 to 7:
 whitespace anywhere it is allowed, every way to write a character of a string,
 and numbers with fractions and exponents.
*/
module JsonGrammar {
  import opened Json
  import opened JsonText
  import opened Sequences

  datatype Tree =
    | Word(v: Value)                           // null, true, false
    | Number(intEnd: nat, fracEnd: nat)
    | Str(units: Text, ends: seq<nat>)         // the characters and where each one's spelling ends
    | Arr(items: seq<Item>, open: nat)         // open: where the whitespace of an empty one ends
    | Obj(fields: seq<Field>, open: nat)

  /** A value from start to end, then whitespace up to the comma or bracket at stop. */
  datatype Item = Item(start: nat, end: nat, stop: nat, tree: Tree)

  /** A key from start to keyEnd and a colon, before the value. */
  datatype Field = Field(start: nat, keyEnd: nat, colon: nat, key: Tree, item: Item)

  // ----- the grammar ----------------------------------------------------------------

  predicate AllWs(s: Text, i: nat, j: nat) {
    i <= j <= |s| && forall k :: i <= k < j ==> IsWs(s[k])
  }

  predicate Digits(s: Text, i: nat, j: nat) {
    i < j <= |s| && forall k :: i <= k < j ==> IsAsciiDigit(s[k])
  }

  function WordText(v: Value): Text {
    if v == Bool(true) then TEXT_TRUE else if v == Bool(false) then TEXT_FALSE else TEXT_NULL
  }

  function IntStart(s: Text, i: nat): nat {
    if Peek(s, i, MINUS) then i + 1 else i
  }

  /** RFC 8259 section 6, but for leading zeros, which the parser reads as well. */
  predicate IsNumber(s: Text, i: nat, j: nat, b: nat, c: nat) {
    && Digits(s, IntStart(s, i), b)
    && (c == b || (Peek(s, b, DOT) && Digits(s, b + 1, c)))
    && (j == c || (HasExponent(s, c) && Digits(s, ExponentStart(s, c), j)))
  }

  predicate NoLeadingZero(s: Text, a: nat, b: nat)
    requires a < b <= |s|
  {
    s[a] == ZERO ==> b == a + 1
  }

  /** The two-character escapes of section 7. */
  predicate IsShortEscape(e: Unit, c: Unit) {
    (e == c && c in {QUOTE, BACKSLASH, SLASH}) || (e, c) in {(98, 8), (102, 12), (110, 10), (114, 13), (116, 9)}
  }

  predicate AllHex(t: Text) {
    forall k :: 0 <= k < |t| ==> HexValue(t[k]) >= 0
  }

  /** The digits of section 7's four-digit escapes. */
  predicate IsAsciiHex(c: Unit) {
    48 <= c <= 57 || 65 <= c <= 70 || 97 <= c <= 102
  }

  predicate AllAsciiHex(t: Text) {
    forall k :: 0 <= k < |t| ==> IsAsciiHex(t[k])
  }

  /** s[k..m] is read as the unit c: more than section 7 allows. */
  predicate IsSpelling(s: Text, k: nat, m: nat, c: Unit) {
    m <= |s| &&
    (|| (m == k + 1 && s[k] == c && c != QUOTE && c != BACKSLASH)
     || (m == k + 2 && s[k] == BACKSLASH && IsShortEscape(s[k + 1], c))
     || (m == k + 6 && s[k] == BACKSLASH && s[k + 1] == 117 && AllHex(s[k + 2..m]) && HexDigits(s[k + 2..m]) == c as int))
  }

  /** s[k..m] is one way to write the unit c: a control character must be escaped, with ASCII digits. */
  predicate IsChar(s: Text, k: nat, m: nat, c: Unit) {
    && IsSpelling(s, k, m, c)
    && (m == k + 1 ==> c >= 32)
    && (m == k + 6 ==> AllAsciiHex(s[k + 2..m]))
  }

  predicate IsChars(s: Text, k: nat, j: nat, units: Text, ends: seq<nat>)
    decreases |units|
  {
    |units| == |ends| &&
    if units == [] then Peek(s, k, QUOTE) && j == k + 1
    else IsChar(s, k, ends[0], units[0]) && IsChars(s, ends[0], j, units[1..], ends[1..])
  }

  /** t is a derivation of s[i..j] as a value. */
  ghost predicate Derives(s: Text, i: nat, j: nat, t: Tree)
    decreases t, 0
  {
    i < j <= |s| &&
    match t
    case Word(v) => (v.Null? || v.Bool?) && At(s, i, WordText(v)) && j == i + |WordText(v)|
    case Number(b, c) => IsNumber(s, i, j, b, c) && NoLeadingZero(s, IntStart(s, i), b)
    case Str(units, ends) => s[i] == QUOTE && IsChars(s, i + 1, j, units, ends)
    case Arr(items, open) =>
      s[i] == OPEN_BRACKET &&
      if items == [] then AllWs(s, i + 1, open) && Peek(s, open, CLOSE_BRACKET) && j == open + 1 else IsItems(s, i + 1, j, items)
    case Obj(fields, open) =>
      s[i] == OPEN_BRACE &&
      if fields == [] then AllWs(s, i + 1, open) && Peek(s, open, CLOSE_BRACE) && j == open + 1 else IsFields(s, i + 1, j, fields)
  }

  ghost predicate IsItem(s: Text, i: nat, x: Item)
    decreases x, 1
  {
    AllWs(s, i, x.start) && Derives(s, x.start, x.end, x.tree) && AllWs(s, x.end, x.stop)
  }

  ghost predicate IsItems(s: Text, i: nat, j: nat, items: seq<Item>)
    requires items != []
    decreases items, 2
  {
    IsItem(s, i, items[0]) &&
    if |items| == 1 then Peek(s, items[0].stop, CLOSE_BRACKET) && j == items[0].stop + 1
    else Peek(s, items[0].stop, COMMA) && IsItems(s, items[0].stop + 1, j, items[1..])
  }

  ghost predicate IsField(s: Text, i: nat, f: Field)
    decreases f, 1
  {
    && AllWs(s, i, f.start) && f.key.Str? && Derives(s, f.start, f.keyEnd, f.key)
    && AllWs(s, f.keyEnd, f.colon) && Peek(s, f.colon, COLON)
    && IsItem(s, f.colon + 1, f.item)
  }

  ghost predicate IsFields(s: Text, i: nat, j: nat, fields: seq<Field>)
    requires fields != []
    decreases fields, 2
  {
    IsField(s, i, fields[0]) &&
    if |fields| == 1 then Peek(s, fields[0].item.stop, CLOSE_BRACE) && j == fields[0].item.stop + 1
    else Peek(s, fields[0].item.stop, COMMA) && IsFields(s, fields[0].item.stop + 1, j, fields[1..])
  }

  // ----- what a text means --------------------------------------------------------------

  /** The number n, in the smallest box; a number no long holds keeps its value here. */
  function IntegerMeaning(n: int): Value {
    if INT_MIN <= n <= INT_MAX then Int(n) else Long(n)
  }

  /** The integer a sign and decimal digits stand for. */
  function Signed(negative: bool, digits: Text): int
    requires AllDigits(digits)
  {
    var n: int := DecimalValue(digits);
    if negative then -n else n
  }

  /** Numbers with a fraction or an exponent stay text. */
  function NumberMeaning(s: Text, i: nat, j: nat, b: nat, c: nat): Value
    requires IsNumber(s, i, j, b, c)
  {
    var a := IntStart(s, i);
    if j == b then IntegerMeaning(Signed(a > i, s[a..b])) else Double(s[i..j])
  }

  /** Repeated keys keep their first place and their last value. */
  ghost function Meaning(s: Text, i: nat, j: nat, t: Tree): Value
    requires Derives(s, i, j, t)
    decreases t, 0
  {
    match t
    case Word(v) => v
    case Number(b, c) => NumberMeaning(s, i, j, b, c)
    case Str(units, _) => String(units)
    case Arr(items, _) => if items == [] then Array([]) else Array(Items(s, i + 1, j, items))
    case Obj(fields, _) => if fields == [] then Object([]) else Object(Members(s, i + 1, j, fields, []))
  }

  ghost function ItemMeaning(s: Text, i: nat, x: Item): Value
    requires IsItem(s, i, x)
    decreases x, 1
  {
    Meaning(s, x.start, x.end, x.tree)
  }

  ghost function Items(s: Text, i: nat, j: nat, items: seq<Item>): seq<Value>
    requires items != [] && IsItems(s, i, j, items)
    decreases items, 2
  {
    [ItemMeaning(s, i, items[0])] + if |items| == 1 then [] else Items(s, items[0].stop + 1, j, items[1..])
  }

  ghost function FieldMeaning(s: Text, i: nat, f: Field): Member
    requires IsField(s, i, f)
    decreases f, 1
  {
    Member(f.key.units, ItemMeaning(s, f.colon + 1, f.item))
  }

  ghost function Members(s: Text, i: nat, j: nat, fields: seq<Field>, obj: seq<Member>): seq<Member>
    requires fields != [] && IsFields(s, i, j, fields)
    decreases fields, 2
  {
    var m := FieldMeaning(s, i, fields[0]);
    var more := Put(obj, m.key, m.value);
    if |fields| == 1 then more else Members(s, fields[0].item.stop + 1, j, fields[1..], more)
  }

  // ----- what the parser makes of it ----------------------------------------------------------

  predicate FitsLong(n: int) {
    LONG_MIN <= n <= LONG_MAX
  }

  /** The value with 0 for every integer that no long holds. */
  function Clipped(v: Value): Value
    decreases v, 0
  {
    match v
    case Long(n) => if FitsLong(n) then v else Int(0)
    case Array(es) => Array(ClippedElements(es))
    case Object(ms) => Object(ClippedMembers(ms))
    case _ => v
  }

  function ClippedElements(es: seq<Value>): seq<Value>
    decreases es, 1
  {
    if es == [] then [] else [Clipped(es[0])] + ClippedElements(es[1..])
  }

  function ClippedMembers(ms: seq<Member>): seq<Member>
    decreases ms, 1
  {
    if ms == [] then [] else [ClippedMember(ms[0])] + ClippedMembers(ms[1..])
  }

  function ClippedMember(m: Member): Member
    decreases m, 1
  {
    Member(m.key, Clipped(m.value))
  }

  /** Every integer in v fits a long. */
  ghost predicate InRange(v: Value) {
    match v
    case Long(n) => FitsLong(n)
    case Array(es) => forall e :: e in es ==> InRange(e)
    case Object(ms) => forall m :: m in ms ==> InRange(m.value)
    case _ => true
  }

  lemma {:induction false} ClippedIsIdentity(v: Value)
    ensures Clipped(v) == v <==> InRange(v)
    decreases v, 0
  {
    match v
    case Array(es) => ClippedElementsIdentity(es);
    case Object(ms) => ClippedMembersIdentity(ms);
    case _ =>
  }

  lemma {:induction false} ClippedElementsIdentity(es: seq<Value>)
    ensures ClippedElements(es) == es <==> forall e :: e in es ==> InRange(e)
    decreases es, 1
  {
    if es == [] {
    } else {
      ClippedIsIdentity(es[0]);
      ClippedElementsIdentity(es[1..]);
      hide InRange, Clipped;
      assert es == [es[0]] + es[1..];
      assert ClippedElements(es)[1..] == ClippedElements(es[1..]);
    }
  }

  lemma {:induction false} ClippedMembersIdentity(ms: seq<Member>)
    ensures ClippedMembers(ms) == ms <==> forall m :: m in ms ==> InRange(m.value)
    decreases ms, 1
  {
    if ms == [] {
    } else {
      ClippedMemberIdentity(ms[0]);
      ClippedMembersIdentity(ms[1..]);
      hide InRange, ClippedMember;
      assert ms == [ms[0]] + ms[1..];
      assert ClippedMembers(ms)[1..] == ClippedMembers(ms[1..]);
    }
  }

  lemma {:induction false} ClippedMemberIdentity(m: Member)
    ensures ClippedMember(m) == m <==> InRange(m.value)
    decreases m, 1
  {
    ClippedIsIdentity(m.value);
  }

  lemma {:induction false} ClippedElementsConcat(es: seq<Value>, fs: seq<Value>)
    ensures ClippedElements(es + fs) == ClippedElements(es) + ClippedElements(fs)
  {
    hide Clipped;
    if es == [] {
      assert es + fs == fs;
    } else {
      ClippedElementsConcat(es[1..], fs);
      assert (es + fs)[1..] == es[1..] + fs;
      Assoc([Clipped(es[0])], ClippedElements(es[1..]), ClippedElements(fs));
    }
  }

  lemma {:induction false} PutClipped(ms: seq<Member>, key: Text, value: Value)
    ensures ClippedMembers(Put(ms, key, value)) == Put(ClippedMembers(ms), key, Clipped(value))
  {
    if ms == [] {
      assert [Member(key, value)][1..] == [];
    } else {
      PutClipped(ms[1..], key, value);
      hide Clipped;
      var put := Put(ms, key, value);
      assert put[1..] == if ms[0].key == key then ms[1..] else Put(ms[1..], key, value);
      assert ClippedMembers(ms)[1..] == ClippedMembers(ms[1..]);
    }
  }

  /** The value stored under a key. */
  function Lookup(ms: seq<Member>, key: Text): (r: seq<Value>)
    ensures |r| <= 1
  {
    if ms == [] then [] else if ms[0].key == key then [ms[0].value] else Lookup(ms[1..], key)
  }

  /** A repeated key has its last value, in its first place; other keys keep theirs. */
  lemma {:induction false} PutIsLast(ms: seq<Member>, key: Text, value: Value, other: Text)
    ensures Lookup(Put(ms, key, value), other) == if other == key then [value] else Lookup(ms, other)
    ensures var put := Put(ms, key, value);
      |put| >= |ms| && forall k :: 0 <= k < |ms| ==> put[k].key == ms[k].key
  {
    if ms == [] {
    } else {
      PutIsLast(ms[1..], key, value, other);
    }
  }

  // ----- the parser reads it ---------------------------------------------------------------

  lemma WsSkipped(s: Text, i: nat, j: nat)
    requires AllWs(s, i, j)
    ensures SkipWs(s, i) == SkipWs(s, j)
  {
    SkipRun(s, i, j);
  }

  lemma UnitAt(s: Text, i: nat, c: Unit)
    requires Peek(s, i, c) && !IsWs(c)
    ensures SkipWs(s, i) == i && Expect(s, i, c) == Ok((), i + 1)
  {
  }

  lemma {:induction false} HexIsValue(t: Text)
    requires AllHex(t)
    ensures HexDigits(t) >= 0
  {
    if t == [] {
    } else {
      HexIsValue(t[..|t| - 1]);
    }
  }

  lemma HexEscape(hex: Text, c: Unit)
    requires |hex| == 4 && AllHex(hex) && HexDigits(hex) == c as int
    ensures UnicodeEscape(hex) == c
  {
  }

  /** However a character is written, the loop of parseString reads it. */
  lemma CharIsRead(s: Text, k: nat, m: nat, c: Unit)
    requires IsSpelling(s, k, m, c)
    ensures var (rest, j) := ScanString(s, m);
      ScanString(s, k) == ([c] + rest, j)
  {
    if m == k + 6 && s[k] == BACKSLASH && s[k + 1] == 117 {
      assert Min(k + 6, |s|) == m;
      HexEscape(s[k + 2..m], c);
    }
  }

  lemma {:induction false} CharsAreRead(s: Text, k: nat, j: nat, units: Text, ends: seq<nat>)
    requires IsChars(s, k, j, units, ends)
    ensures ScanString(s, k) == (units, j)
    decreases |units|
  {
    if units == [] {
    } else {
      CharIsRead(s, k, ends[0], units[0]);
      hide ScanString, IsSpelling;
      CharsAreRead(s, ends[0], j, units[1..], ends[1..]);
      assert units == [units[0]] + units[1..];
    }
  }

  lemma StringIsRead(s: Text, i: nat, j: nat, units: Text, ends: seq<nat>)
    requires Peek(s, i, QUOTE) && IsChars(s, i + 1, j, units, ends)
    ensures ParseString(s, i) == Ok(units, j) && ParseValue(s, i) == Ok(String(units), j)
  {
    CharsAreRead(s, i + 1, j, units, ends);
    hide ScanString, IsChars, ParseElements, ParseMembers;
    UnitAt(s, i, QUOTE);
  }

  lemma DigitsAreRead(s: Text, i: nat, j: nat)
    requires Digits(s, i, j) && (j < |s| ==> !IsDigit(s[j]))
    ensures SkipDigits(s, i) == j && AllDigits(s[i..j])
  {
    SkipDigitRun(s, i, j);
  }

  /** The digits, the fraction and the exponent end where the tree says. */
  lemma NumberParts(s: Text, i: nat, j: nat, b: nat, c: nat)
    requires IsNumber(s, i, j, b, c) && Delimited(s, j)
    ensures SkipDigits(s, IntStart(s, i)) == b && FractionEnd(s, b) == c && ExponentEnd(s, c) == j
  {
    DigitsAreRead(s, IntStart(s, i), b);
    if c > b {
      DigitsAreRead(s, b + 1, c);
    }
    if j > c {
      DigitsAreRead(s, ExponentStart(s, c), j);
    }
    hide SkipDigits, Digits;
  }

  lemma NumberIsRead(s: Text, i: nat, j: nat, b: nat, c: nat)
    requires IsNumber(s, i, j, b, c) && Delimited(s, j)
    ensures ParseNumber(s, i) == Ok(Clipped(NumberMeaning(s, i, j, b, c)), j)
  {
    NumberParts(s, i, j, b, c);
    NumberIsAscii(s, i, j, b, c);
    hide SkipDigits, FractionEnd, ExponentEnd, Delimited;
  }

  lemma NumberIsAscii(s: Text, i: nat, j: nat, b: nat, c: nat)
    requires IsNumber(s, i, j, b, c)
    ensures AllAscii(s[i..j])
  {
  }

  /** What may follow a value: whitespace, a comma or a closing bracket never continues a number. */
  lemma ItemIsDelimited(s: Text, x: Item)
    requires AllWs(s, x.end, x.stop)
    requires x.stop < |s| && (s[x.stop] == COMMA || s[x.stop] == CLOSE_BRACKET || s[x.stop] == CLOSE_BRACE)
    ensures Delimited(s, x.end)
  {
  }

  /** A value starts neither with whitespace nor with a closing bracket. */
  lemma ValueStarts(s: Text, i: nat, j: nat, t: Tree)
    requires Derives(s, i, j, t)
    ensures i < |s| && SkipWs(s, i) == i && s[i] != CLOSE_BRACKET && s[i] != CLOSE_BRACE
  {
    hide IsItems, IsFields, IsChars;
    if t.Word? {
      assert s[i] == s[i..i + |WordText(t.v)|][0];
    }
  }

  lemma WordIsRead(s: Text, i: nat, v: Value)
    requires (v.Null? || v.Bool?) && At(s, i, WordText(v))
    ensures ParseValue(s, i) == Ok(v, i + |WordText(v)|)
  {
    hide ParseElements, ParseMembers, ParseString, ParseNumber;
    var t := WordText(v);
    assert s[i] == s[i..i + |t|][0] == t[0];
    if v == Bool(false) {
      assert s[i..i + 4] == s[i..i + |t|][..4];
      assert s[i..i + 4] != TEXT_TRUE;
    }
  }

  lemma NumberValueIsRead(s: Text, i: nat, j: nat, b: nat, c: nat)
    requires IsNumber(s, i, j, b, c) && Delimited(s, j)
    ensures ParseValue(s, i) == Ok(Clipped(NumberMeaning(s, i, j, b, c)), j)
  {
    NumberIsRead(s, i, j, b, c);
    assert s[i] == MINUS || IsDigit(s[i]);
    SkipNone(s, i);
    hide NumberMeaning, Clipped, ParseNumber, ParseElements, ParseMembers, ParseString;
  }

  /** An integer is read as its value if and only if a long holds it; otherwise it is read as 0. */
  lemma IntegerIsReadIff(s: Text, i: nat, j: nat)
    requires IsNumber(s, i, j, j, j) && Delimited(s, j)
    ensures var n := Signed(IntStart(s, i) > i, s[IntStart(s, i)..j]);
      && (ParseValue(s, i) == Ok(IntegerMeaning(n), j) <==> FitsLong(n))
      && (!FitsLong(n) ==> ParseValue(s, i) == Ok(Int(0), j))
  {
    NumberValueIsRead(s, i, j, j, j);
    hide ParseValue;
  }

  lemma EmptyIsRead(s: Text, i: nat, open: nat)
    requires AllWs(s, i + 1, open)
    ensures Peek(s, i, OPEN_BRACKET) && Peek(s, open, CLOSE_BRACKET) ==> ParseValue(s, i) == Ok(Array([]), open + 1)
    ensures Peek(s, i, OPEN_BRACE) && Peek(s, open, CLOSE_BRACE) ==> ParseValue(s, i) == Ok(Object([]), open + 1)
  {
    hide ParseElements, ParseMembers, ParseString, ParseNumber;
    WsSkipped(s, i + 1, open);
  }

  /** One more round of parseArray's loop. */
  lemma NextElement(s: Text, i: nat, arr: seq<Value>, v: Value, j: nat)
    requires ParseValue(s, i) == Ok(v, j) && Peek(s, SkipWs(s, j), COMMA)
    ensures ParseElements(s, i, arr) == ParseElements(s, SkipWs(s, j) + 1, arr + [v])
  {
    hide ParseValue;
    UnitAt(s, SkipWs(s, j), COMMA);
    hide Expect, SkipWs;
  }

  /** One round of parseObject's loop, up to the comma or brace. */
  lemma OneMember(s: Text, i: nat, obj: seq<Member>, m: Member, keyEnd: nat, colon: nat, j: nat)
    requires ParseString(s, SkipWs(s, i)) == Ok(m.key, keyEnd)
    requires SkipWs(s, keyEnd) == colon && Expect(s, colon, COLON) == Ok((), colon + 1)
    requires ParseValue(s, colon + 1) == Ok(m.value, j)
    ensures Peek(s, SkipWs(s, j), CLOSE_BRACE) ==>
      ParseMembers(s, i, obj) == Ok(Object(Put(obj, m.key, m.value)), SkipWs(s, j) + 1)
    ensures Peek(s, SkipWs(s, j), COMMA) ==>
      ParseMembers(s, i, obj) == ParseMembers(s, SkipWs(s, j) + 1, Put(obj, m.key, m.value))
  {
    hide ParseValue, ParseString, Put, Expect, SkipWs;
    if Peek(s, SkipWs(s, j), COMMA) {
      UnitAt(s, SkipWs(s, j), COMMA);
    }
  }

  /** Every value the grammar derives is read up to its end, with its meaning but for oversized integers. */
  lemma {:induction false} ValueIsRead(s: Text, i: nat, j: nat, t: Tree)
    requires Derives(s, i, j, t) && Delimited(s, j)
    ensures ParseValue(s, i) == Ok(Clipped(Meaning(s, i, j, t)), j)
    decreases t, 0
  {
    hide ParseValue, ParseElements, ParseMembers, NumberMeaning, IsNumber, NoLeadingZero, IsChars, At, WordText, AllWs, IsItems, IsFields, Items, Members;
    match t {
      case Word(v) => WordIsRead(s, i, v);
      case Number(b, c) => NumberValueIsRead(s, i, j, b, c);
      case Str(units, ends) => StringIsRead(s, i, j, units, ends);
      case Arr(items, open) =>
        if items == [] {
          EmptyIsRead(s, i, open);
        } else {
          ArrayIsRead(s, i, j, items);
        }
      case Obj(fields, open) =>
        if fields == [] {
          EmptyIsRead(s, i, open);
        } else {
          ObjectIsRead(s, i, j, fields);
        }
    }
  }

  lemma {:induction false} ArrayIsRead(s: Text, i: nat, j: nat, items: seq<Item>)
    requires Peek(s, i, OPEN_BRACKET) && items != [] && IsItems(s, i + 1, j, items)
    ensures ParseValue(s, i) == Ok(Array(ClippedElements(Items(s, i + 1, j, items))), j)
    decreases items, 3
  {
    FirstItem(s, i + 1, j, items);
    hide IsItems, Items, ParseValue, ParseElements;
    EnterArray(s, i);
    ElementsAfterWs(s, i + 1, []);
    ItemsAreRead(s, i + 1, j, items, []);
    assert [] + Items(s, i + 1, j, items) == Items(s, i + 1, j, items);
    assert ClippedElements([]) == [];
  }

  lemma {:induction false} ObjectIsRead(s: Text, i: nat, j: nat, fields: seq<Field>)
    requires Peek(s, i, OPEN_BRACE) && fields != [] && IsFields(s, i + 1, j, fields)
    ensures ParseValue(s, i) == Ok(Object(ClippedMembers(Members(s, i + 1, j, fields, []))), j)
    decreases fields, 3
  {
    FirstField(s, i + 1, j, fields);
    hide IsFields, Members, ParseValue, ParseMembers;
    EnterObject(s, i);
    MembersAfterWs(s, i + 1, []);
    FieldsAreRead(s, i + 1, j, fields, []);
    assert ClippedMembers([]) == [];
  }

  lemma FirstItem(s: Text, i: nat, j: nat, items: seq<Item>)
    requires items != [] && IsItems(s, i, j, items)
    ensures !Peek(s, SkipWs(s, i), CLOSE_BRACKET)
  {
    var x := items[0];
    assert IsItem(s, i, x);
    hide IsItems, Derives;
    WsSkipped(s, i, x.start);
    ValueStarts(s, x.start, x.end, x.tree);
  }

  lemma FirstField(s: Text, i: nat, j: nat, fields: seq<Field>)
    requires fields != [] && IsFields(s, i, j, fields)
    ensures !Peek(s, SkipWs(s, i), CLOSE_BRACE)
  {
    var f := fields[0];
    assert IsField(s, i, f);
    hide IsFields, Derives;
    WsSkipped(s, i, f.start);
    ValueStarts(s, f.start, f.keyEnd, f.key);
  }

  lemma {:induction false} ItemIsRead(s: Text, i: nat, x: Item)
    requires IsItem(s, i, x)
    requires x.stop < |s| && (s[x.stop] == COMMA || s[x.stop] == CLOSE_BRACKET || s[x.stop] == CLOSE_BRACE)
    ensures ParseValue(s, i) == Ok(Clipped(ItemMeaning(s, i, x)), x.end) && SkipWs(s, x.end) == x.stop
    decreases x, 1
  {
    hide Derives, Meaning, ParseValue;
    ItemIsDelimited(s, x);
    ValueIsRead(s, x.start, x.end, x.tree);
    WsSkipped(s, i, x.start);
    ValueAfterWs(s, i);
    ValueAfterWs(s, x.start);
    WsSkipped(s, x.end, x.stop);
  }

  lemma {:induction false} ItemsAreRead(s: Text, i: nat, j: nat, items: seq<Item>, arr: seq<Value>)
    requires items != [] && IsItems(s, i, j, items)
    ensures ParseElements(s, i, ClippedElements(arr)) == Ok(Array(ClippedElements(arr + Items(s, i, j, items))), j)
    decreases items, 2
  {
    hide IsItem, ItemMeaning, ParseElements, ParseValue, SkipWs, Clipped;
    var x := items[0];
    var v := ItemMeaning(s, i, x);
    ItemIsRead(s, i, x);
    ClippedElementsConcat(arr, [v]);
    assert ClippedElements([v]) == [Clipped(v)];
    hide ClippedElements;
    if |items| == 1 {
      LastElement(s, i, ClippedElements(arr), Clipped(v), x.end);
      assert Items(s, i, j, items) == [v];
    } else {
      NextElement(s, i, ClippedElements(arr), Clipped(v), x.end);
      ItemsAreRead(s, x.stop + 1, j, items[1..], arr + [v]);
      Assoc(arr, [v], Items(s, x.stop + 1, j, items[1..]));
    }
  }

  lemma {:induction false} FieldIsRead(s: Text, i: nat, f: Field, obj: seq<Member>)
    requires IsField(s, i, f)
    requires f.item.stop < |s| && (s[f.item.stop] == COMMA || s[f.item.stop] == CLOSE_BRACE)
    ensures var m := FieldMeaning(s, i, f);
      var more := Put(obj, m.key, Clipped(m.value));
      && (s[f.item.stop] == CLOSE_BRACE ==> ParseMembers(s, i, obj) == Ok(Object(more), f.item.stop + 1))
      && (s[f.item.stop] == COMMA ==> ParseMembers(s, i, obj) == ParseMembers(s, f.item.stop + 1, more))
    decreases f, 1
  {
    hide IsItem, ItemMeaning, ParseMembers, ParseValue, ParseString, IsChars, Expect, Put, Clipped;
    var m := FieldMeaning(s, i, f);
    WsSkipped(s, i, f.start);
    ValueStarts(s, f.start, f.keyEnd, f.key);
    StringIsRead(s, f.start, f.keyEnd, f.key.units, f.key.ends);
    WsSkipped(s, f.keyEnd, f.colon);
    UnitAt(s, f.colon, COLON);
    ItemIsRead(s, f.colon + 1, f.item);
    hide SkipWs, AllWs;
    OneMember(s, i, obj, Member(m.key, Clipped(m.value)), f.keyEnd, f.colon, f.item.end);
  }

  lemma {:induction false} FieldsAreRead(s: Text, i: nat, j: nat, fields: seq<Field>, obj: seq<Member>)
    requires fields != [] && IsFields(s, i, j, fields)
    ensures ParseMembers(s, i, ClippedMembers(obj)) == Ok(Object(ClippedMembers(Members(s, i, j, fields, obj))), j)
    decreases fields, 2
  {
    hide IsField, FieldMeaning, ParseMembers, Put, ClippedMembers, Clipped;
    var f, m := fields[0], FieldMeaning(s, i, fields[0]);
    PutClipped(obj, m.key, m.value);
    FieldIsRead(s, i, f, ClippedMembers(obj));
    if |fields| <= 1 {
    } else {
      FieldsAreRead(s, f.item.stop + 1, j, fields[1..], Put(obj, m.key, m.value));
    }
  }

  /**
   Every JSON text is read to the end of its value, whatever whitespace it has and
   however its strings are written, with 0 for every integer that no long holds.
  */
  lemma EveryTextIsRead(s: Text, i: nat, j: nat, t: Tree)
    requires AllWs(s, 0, i) && Derives(s, i, j, t) && AllWs(s, j, |s|)
    ensures ParseValue(s, 0) == Ok(Clipped(Meaning(s, i, j, t)), j)
  {
    hide Derives, Meaning, ParseValue;
    assert Delimited(s, j);
    WsSkipped(s, 0, i);
    ValueAfterWs(s, 0);
    ValueAfterWs(s, i);
    ValueIsRead(s, i, j, t);
  }

  /** A JSON text is read with its meaning if and only if every integer in that meaning fits a long. */
  lemma TextMeansWhatIsReadIff(s: Text, i: nat, j: nat, t: Tree)
    requires AllWs(s, 0, i) && Derives(s, i, j, t) && AllWs(s, j, |s|)
    ensures ParseValue(s, 0) == Ok(Meaning(s, i, j, t), j) <==> InRange(Meaning(s, i, j, t))
  {
    hide Derives, Meaning, ParseValue;
    EveryTextIsRead(s, i, j, t);
    ClippedIsIdentity(Meaning(s, i, j, t));
  }

  /** The converse does not hold: what cannot start a value is read as 0 without moving the cursor. */
  lemma GarbageIsReadAsZero(s: Text, i: nat)
    requires i < |s| && !IsWs(s[i]) && !IsDigit(s[i])
    requires s[i] !in {OPEN_BRACE, OPEN_BRACKET, QUOTE, MINUS, DOT, 116, 102, 110, 101, 69}
    ensures ParseValue(s, i) == Ok(Int(0), i)
    ensures forall j, t :: !Derives(s, i, j, t)
  {
    SkipNone(s, i);
    hide ParseElements, ParseMembers, ParseString;
    forall j, t
      ensures !Derives(s, i, j, t)
    {
      if Derives(s, i, j, t) {
        NoValueStartsHere(s, i, j, t);
      }
    }
  }

  /** A literal that begins like true, false or null is read as false or null, and the cursor stays. */
  lemma BrokenWordIsRead(s: Text, i: nat)
    requires i < |s| && s[i] in {116, 102, 110} && !At(s, i, TEXT_TRUE) && !At(s, i, TEXT_FALSE) && !At(s, i, TEXT_NULL)
    ensures ParseValue(s, i) == Ok(if s[i] == 110 then Null else Bool(false), i)
    ensures forall j, t :: !Derives(s, i, j, t)
  {
    SkipNone(s, i);
    hide ParseElements, ParseMembers, ParseString, ParseNumber, IsItems, IsFields, IsChars;
  }

  /** A text of whitespace only is read as null, wherever a value is expected. */
  lemma NothingIsReadAsNull(s: Text, i: nat)
    requires i <= |s| && AllWs(s, i, |s|)
    ensures ParseValue(s, i) == Ok(Null, |s|)
    ensures forall k, j, t :: i <= k ==> !Derives(s, k, j, t)
  {
    WsSkipped(s, i, |s|);
    hide ParseElements, ParseMembers, ParseString, ParseNumber;
    forall k: nat, j, t | i <= k
      ensures !Derives(s, k, j, t)
    {
      if Derives(s, k, j, t) {
        NoValueStartsHere(s, k, j, t);
      }
    }
  }

  /** A string that is never closed is read up to the end of the text. */
  lemma {:induction false} OpenStringIsRead(s: Text, k: nat)
    requires k <= |s| && forall l :: k <= l < |s| ==> s[l] != QUOTE && s[l] != BACKSLASH
    ensures ScanString(s, k) == (s[k..], |s|)
    decreases |s| - k
  {
    if k == |s| {
    } else {
      OpenStringIsRead(s, k + 1);
      assert s[k..] == [s[k]] + s[k + 1..];
    }
  }

  /** Four characters after a backslash and u that are no hexadecimal digits, or fewer than four, stand for a question mark. */
  lemma BadHexIsRead(s: Text, k: nat)
    requires k + 2 < |s| && s[k] == BACKSLASH && s[k + 1] == 117 && s[k + 2] != PLUS && s[k + 2] != MINUS
    requires HexDigits(s[k + 2..if k + 6 < |s| then k + 6 else |s|]) < 0
    ensures ScanString(s, k) == ([63] + ScanString(s, k + 6).0, ScanString(s, k + 6).1)
  {
  }

  /** An escape the grammar does not know stands for the character after the backslash. */
  lemma UnknownEscapeIsRead(s: Text, k: nat)
    requires k + 1 < |s| && s[k] == BACKSLASH && s[k + 1] !in {98, 102, 110, 114, 116, 117}
    ensures ScanString(s, k) == ([s[k + 1]] + ScanString(s, k + 2).0, ScanString(s, k + 2).1)
  {
  }

  /** Nor are numbers limited to ASCII: a decimal digit of any script is read as its value. */
  lemma ForeignDigitIsRead(c: Unit)
    requires IsDigit(c) && !IsAsciiDigit(c)
    ensures ParseValue([c], 0) == Ok(Int(BlockDigit(c, DIGIT_BLOCKS)), 1)
    ensures forall j, t :: !Derives([c], 0, j, t)
  {
    var s := [c];
    OneDigitNumber(c);
    SkipNone(s, 0);
    hide ParseElements, ParseMembers, ParseString, ParseNumber, BlockDigit;
    forall j, t
      ensures !Derives(s, 0, j, t)
    {
      if Derives(s, 0, j, t) {
        NoValueStartsHere(s, 0, j, t);
      }
    }
  }

  lemma OneDigitNumber(c: Unit)
    requires IsDigit(c) && !IsAsciiDigit(c)
    ensures ParseNumber([c], 0) == Ok(Int(BlockDigit(c, DIGIT_BLOCKS)), 1)
  {
    hide BlockDigit;
    var s := [c];
    SkipDigitRun(s, 0, 1);
    assert s[0..1] == s && s[..0] == [];
    assert DecimalValue([]) == 0;
    assert DecimalValue(s) == BlockDigit(c, DIGIT_BLOCKS);
    hide SkipDigits, IsDigit;
  }

  lemma NoValueStartsHere(s: Text, i: nat, j: nat, t: Tree)
    requires Derives(s, i, j, t)
    ensures IsAsciiDigit(s[i]) || s[i] in {OPEN_BRACE, OPEN_BRACKET, QUOTE, MINUS, 116, 102, 110}
  {
    hide IsItems, IsFields, IsChars;
    if t.Word? {
      assert s[i] == s[i..i + |WordText(t.v)|][0];
    }
  }
}
