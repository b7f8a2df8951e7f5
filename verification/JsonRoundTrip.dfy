/**
 What the printer writes is JSON: for every printable value and indent the text
 has a derivation in the grammar of RFC 8259, and its meaning is the value. Since
 the parser reads every such text, parsing inverts printing.
*/
module JsonRoundTrip {
  import opened Json
  import opened JsonText
  import opened JsonGrammar
  import opened Sequences

  // ----- pieces of text -----------------------------------------------------------

  lemma TextAt(s: Text, i: nat, t: Text, k: nat)
    requires At(s, i, t) && k < |t|
    ensures s[i + k] == t[k]
  {
    assert s[i..i + |t|][k] == s[i + k];
  }

  lemma EndsInside(s: Text, i: nat, t: Text)
    requires At(s, i, t)
    ensures i + |t| <= |s|
  {
  }

  lemma BreakIsWs(s: Text, i: nat, indent: int, depth: nat)
    requires At(s, i, Break(indent, depth))
    ensures AllWs(s, i, i + |Break(indent, depth)|)
  {
    var t := Break(indent, depth);
    forall k | i <= k < i + |t|
      ensures IsWs(s[k])
    {
      TextAt(s, i, t, k - i);
    }
  }

  lemma GapIsWs(s: Text, i: nat, indent: int)
    requires At(s, i, Gap(indent))
    ensures AllWs(s, i, i + |Gap(indent)|)
  {
    if indent > 0 {
      TextAt(s, i, Gap(indent), 0);
    }
  }

  // ----- strings --------------------------------------------------------------------

  lemma HexDigitIsAscii(d: int)
    requires 0 <= d < 16
    ensures IsAsciiHex(HexDigit(d)) && HexValue(HexDigit(d)) == d
  {
  }

  lemma HexOfControl(hex: Text, c: Unit)
    requires c < 32 && hex == [ZERO, ZERO, HexDigit(c as int / 16), HexDigit(c as int % 16)]
    ensures AllHex(hex) && AllAsciiHex(hex) && HexDigits(hex) == c as int
  {
    HexDigitIsAscii(0);
    HexDigitIsAscii(c as int / 16);
    HexDigitIsAscii(c as int % 16);
    var hi := HexDigit(c as int / 16);
    hide HexValue, HexDigit;
    assert hex[..3] == [ZERO, ZERO, hi] && hex[..3][..2] == [ZERO, ZERO] && hex[..3][..2][..1] == [ZERO];
    assert HexDigits([]) == 0;
    assert HexValue(ZERO) == 0 by {
      assert HexDigit(0) == ZERO;
    }
    assert HexDigits([ZERO]) == 0;
    assert HexDigits([ZERO, ZERO]) == 0;
    assert HexDigits([ZERO, ZERO, hi]) == c as int / 16;
  }

  /** The printer escapes a unit as section 7 demands. */
  lemma UnitIsChar(s: Text, k: nat, c: Unit)
    requires At(s, k, EscapeUnit(c))
    ensures IsChar(s, k, k + |EscapeUnit(c)|, c)
  {
    hide HexDigit, HexValue;
    var t := EscapeUnit(c);
    TextAt(s, k, t, 0);
    if |t| == 2 {
      TextAt(s, k, t, 1);
    } else if |t| == 6 {
      TextAt(s, k, t, 1);
      var hex := s[k + 2..k + 6];
      assert hex == s[k..k + 6][2..] == t[2..];
      HexOfControl(hex, c);
    }
  }

  lemma {:induction false} EscapedIsChars(s: Text, k: nat, t: Text) returns (ends: seq<nat>)
    requires At(s, k, Escape(t) + [QUOTE])
    ensures IsChars(s, k, k + |Escape(t)| + 1, t, ends)
    decreases |t|
  {
    hide EscapeUnit, IsChar, At;
    if t == [] {
      assert Escape(t) + [QUOTE] == [QUOTE];
      AtUnit(s, k, QUOTE);
      ends := [];
    } else {
      var e := EscapeUnit(t[0]);
      assert Escape(t) + [QUOTE] == e + (Escape(t[1..]) + [QUOTE]);
      AtConcat(s, k, e, Escape(t[1..]) + [QUOTE]);
      UnitIsChar(s, k, t[0]);
      var rest := EscapedIsChars(s, k + |e|, t[1..]);
      ends := [k + |e|] + rest;
      assert ends[1..] == rest;
    }
  }

  lemma QuotedDerives(s: Text, i: nat, t: Text) returns (ends: seq<nat>)
    requires At(s, i, Quoted(t))
    ensures Derives(s, i, i + |Quoted(t)|, Str(t, ends))
  {
    hide At, Escape, IsChars;
    Assoc([QUOTE], Escape(t), [QUOTE]);
    AtConcat(s, i, [QUOTE], Escape(t) + [QUOTE]);
    AtUnit(s, i, QUOTE);
    EndsInside(s, i, Quoted(t));
    ends := EscapedIsChars(s, i + 1, t);
  }

  // ----- numbers --------------------------------------------------------------------

  /** Decimal digits are ASCII, and zero is the only number that starts with a zero. */
  lemma {:induction false} DecimalIsPlain(n: nat)
    ensures var t := Decimal(n);
      && t != [] && (forall k :: 0 <= k < |t| ==> IsAsciiDigit(t[k]))
      && (t[0] == ZERO ==> n == 0 && |t| == 1)
  {
    if n < 10 {
    } else {
      DecimalIsPlain(n / 10);
    }
  }

  lemma DigitsDerive(s: Text, i: nat, a: nat, digits: Text)
    requires digits != [] && (forall k :: 0 <= k < |digits| ==> IsAsciiDigit(digits[k])) && (digits[0] == ZERO ==> |digits| == 1)
    requires At(s, a, digits) && IntStart(s, i) == a
    ensures var j := a + |digits|;
      && s[a..j] == digits && IsNumber(s, i, j, j, j) && NoLeadingZero(s, a, j)
  {
    forall k | a <= k < a + |digits|
      ensures s[k] == digits[k - a]
    {
      TextAt(s, a, digits, k - a);
    }
  }

  lemma NumberMeans(s: Text, i: nat, j: nat, n: int)
    requires IsNumber(s, i, j, j, j) && NoLeadingZero(s, IntStart(s, i), j) && i < j
    requires s[IntStart(s, i)..j] == Decimal(if n < 0 then -n else n) && (IntStart(s, i) > i <==> n < 0)
    ensures Derives(s, i, j, Number(j, j)) && Meaning(s, i, j, Number(j, j)) == IntegerMeaning(n)
  {
    DecimalValueOfDecimal(if n < 0 then -n else n);
    hide Decimal, DecimalValue, IsDigit, NoLeadingZero;
  }

  lemma NumberDerives(s: Text, i: nat, n: int)
    requires At(s, i, NumberText(n))
    ensures var j := i + |NumberText(n)|;
      && Derives(s, i, j, Number(j, j)) && Meaning(s, i, j, Number(j, j)) == IntegerMeaning(n)
  {
    var digits := Decimal(if n < 0 then -n else n);
    DecimalIsPlain(if n < 0 then -n else n);
    hide Decimal, IsDigit, Derives, Meaning, IntegerMeaning, IsNumber;
    var j := i + |NumberText(n)|;
    var a := j - |digits|;
    TextAt(s, i, NumberText(n), 0);
    if n < 0 {
      AtConcat(s, i, [MINUS], digits);
    }
    hide At;
    DigitsDerive(s, i, a, digits);
    NumberMeans(s, i, j, n);
  }

  // ----- values ---------------------------------------------------------------------

  lemma WordDerives(s: Text, i: nat, v: Value)
    requires (v.Null? || v.Bool?) && At(s, i, WordText(v))
    ensures Derives(s, i, i + |WordText(v)|, Word(v)) && Meaning(s, i, i + |WordText(v)|, Word(v)) == v
  {
  }

  lemma EmptyDerives(s: Text, i: nat, v: Value, indent: int, depth: nat) returns (t: Tree)
    requires (v == Array([]) || v == Object([])) && At(s, i, Print(v, indent, depth))
    ensures var j := i + |Print(v, indent, depth)|; Derives(s, i, j, t) && Meaning(s, i, j, t) == v
  {
    var text := Print(v, indent, depth);
    assert text == if v.Array? then [OPEN_BRACKET, CLOSE_BRACKET] else [OPEN_BRACE, CLOSE_BRACE];
    TextAt(s, i, text, 0);
    TextAt(s, i, text, 1);
    t := if v.Array? then Arr([], i + 1) else Obj([], i + 1);
  }

  /** What Derives says of an array and an object in terms of its entries. */
  lemma ArrayDerives(s: Text, i: nat, j: nat, items: seq<Item>)
    requires Peek(s, i, OPEN_BRACKET) && items != [] && i < j <= |s| && IsItems(s, i + 1, j, items)
    ensures Derives(s, i, j, Arr(items, 0)) && Meaning(s, i, j, Arr(items, 0)) == Array(Items(s, i + 1, j, items))
  {
    hide IsItems, Items;
  }

  lemma ObjectDerives(s: Text, i: nat, j: nat, fields: seq<Field>)
    requires Peek(s, i, OPEN_BRACE) && fields != [] && i < j <= |s| && IsFields(s, i + 1, j, fields)
    ensures Derives(s, i, j, Obj(fields, 0)) && Meaning(s, i, j, Obj(fields, 0)) == Object(Members(s, i + 1, j, fields, []))
  {
    hide IsFields, Members;
  }

  /** Every printed value derives, wherever it stands, and means itself with each integer in its smallest box. */
  lemma {:induction false} ValueDerives(s: Text, i: nat, v: Value, indent: int, depth: nat) returns (t: Tree)
    requires Printable(v) && At(s, i, Print(v, indent, depth))
    ensures var j := i + |Print(v, indent, depth)|; Derives(s, i, j, t) && Meaning(s, i, j, t) == Canonical(v)
    decreases v, 0
  {
    hide At, NumberText, Escape, Derives, Meaning, IsChars;
    match v
    case Null =>
      WordDerives(s, i, v);
      t := Word(v);
    case Bool(b) =>
      WordDerives(s, i, v);
      t := Word(v);
    case Int(n) =>
      NumberDerives(s, i, n);
      t := Number(i + |NumberText(n)|, i + |NumberText(n)|);
    case Long(n) =>
      NumberDerives(s, i, n);
      t := Number(i + |NumberText(n)|, i + |NumberText(n)|);
    case String(text) =>
      var ends := QuotedDerives(s, i, text);
      StringMeans(s, i, i + |Quoted(text)|, text, ends);
      t := Str(text, ends);
    case Array(es) =>
      if es == [] {
        t := EmptyDerives(s, i, v, indent, depth);
      } else {
        var items := ListDerives(s, i, es, indent, depth);
        t := Arr(items, 0);
      }
    case Object(ms) =>
      if ms == [] {
        t := EmptyDerives(s, i, v, indent, depth);
      } else {
        var fields := MapDerives(s, i, ms, indent, depth);
        t := Obj(fields, 0);
      }
  }

  lemma StringMeans(s: Text, i: nat, j: nat, text: Text, ends: seq<nat>)
    requires Derives(s, i, j, Str(text, ends))
    ensures Meaning(s, i, j, Str(text, ends)) == String(text)
  {
    hide IsChars;
  }

  lemma {:induction false} ListDerives(s: Text, i: nat, es: seq<Value>, indent: int, depth: nat) returns (items: seq<Item>)
    requires es != [] && (forall e :: e in es ==> Printable(e)) && At(s, i, Print(Array(es), indent, depth))
    ensures var j := i + |Print(Array(es), indent, depth)|;
      Derives(s, i, j, Arr(items, 0)) && Meaning(s, i, j, Arr(items, 0)) == Array(CanonicalElements(es))
    decreases es, 2
  {
    hide *;
    var tail := Break(indent, depth + 1) + ListTail(es, indent, depth);
    ListText(es, indent, depth);
    AtConcat(s, i, [OPEN_BRACKET], tail);
    AtUnit(s, i, OPEN_BRACKET);
    items := ElementsDerive(s, i + 1, es, indent, depth);
    EndsInside(s, i + 1, tail);
    ArrayDerives(s, i, i + 1 + |tail|, items);
  }

  /** One item: whitespace, a value, whitespace. */
  lemma OneItem(s: Text, i: nat, x: Item, v: Value)
    requires AllWs(s, i, x.start) && Derives(s, x.start, x.end, x.tree) && AllWs(s, x.end, x.stop)
    requires Meaning(s, x.start, x.end, x.tree) == v
    ensures IsItem(s, i, x) && ItemMeaning(s, i, x) == v
  {
    hide Derives, Meaning, AllWs;
  }

  lemma LastItem(s: Text, i: nat, x: Item, v: Value)
    requires IsItem(s, i, x) && ItemMeaning(s, i, x) == v && Peek(s, x.stop, CLOSE_BRACKET)
    ensures IsItems(s, i, x.stop + 1, [x]) && Items(s, i, x.stop + 1, [x]) == [v]
  {
    hide IsItem, ItemMeaning;
  }

  lemma MoreItems(s: Text, i: nat, j: nat, x: Item, v: Value, rest: seq<Item>, vs: seq<Value>)
    requires IsItem(s, i, x) && ItemMeaning(s, i, x) == v && Peek(s, x.stop, COMMA)
    requires rest != [] && IsItems(s, x.stop + 1, j, rest) && Items(s, x.stop + 1, j, rest) == vs
    ensures IsItems(s, i, j, [x] + rest) && Items(s, i, j, [x] + rest) == [v] + vs
  {
    hide IsItem, ItemMeaning;
    assert ([x] + rest)[1..] == rest;
  }

  /** A value with the break before it. */
  lemma {:induction false} ElementDerives(s: Text, i: nat, v: Value, indent: int, depth: nat) returns (t: Tree)
    requires Printable(v) && At(s, i, Break(indent, depth)) && At(s, i + |Break(indent, depth)|, Print(v, indent, depth))
    ensures var k := i + |Break(indent, depth)|;
      var j := k + |Print(v, indent, depth)|;
      AllWs(s, i, k) && Derives(s, k, j, t) && Meaning(s, k, j, t) == Canonical(v)
    decreases v, 1
  {
    hide *;
    BreakIsWs(s, i, indent, depth);
    t := ValueDerives(s, i + |Break(indent, depth)|, v, indent, depth);
  }

  lemma NoWs(s: Text, i: nat)
    requires i <= |s|
    ensures AllWs(s, i, i)
  {
  }

  lemma {:induction false} ElementsDerive(s: Text, i: nat, es: seq<Value>, indent: int, depth: nat) returns (items: seq<Item>)
    requires es != [] && (forall e :: e in es ==> Printable(e))
    requires At(s, i, Break(indent, depth + 1) + ListTail(es, indent, depth))
    ensures var j := i + |Break(indent, depth + 1) + ListTail(es, indent, depth)|;
      items != [] && IsItems(s, i, j, items) && Items(s, i, j, items) == CanonicalElements(es)
    decreases es, 1
  {
    hide *;
    var head, text := Break(indent, depth + 1), Print(es[0], indent, depth + 1);
    var start := i + |head|;
    var end := start + |text|;
    AtConcat(s, i, head, ListTail(es, indent, depth));
    if |es| == 1 {
      var close := Break(indent, depth);
      ListTailLast(es, indent, depth);
      AtConcat(s, start, text, close + [CLOSE_BRACKET]);
      AtConcat(s, end, close, [CLOSE_BRACKET]);
      AtUnit(s, end + |close|, CLOSE_BRACKET);
      BreakIsWs(s, end, indent, depth);
      var t := ElementDerives(s, i, es[0], indent, depth + 1);
      var x := Item(start, end, end + |close|, t);
      OneItem(s, i, x, Canonical(es[0]));
      LastItem(s, i, x, Canonical(es[0]));
      items := [x];
    } else {
      var tail := ListTail(es[1..], indent, depth);
      ListTailNext(es, indent, depth);
      Assoc([COMMA], head, tail);
      AtConcat(s, start, text, [COMMA] + (head + tail));
      AtConcat(s, end, [COMMA], head + tail);
      AtUnit(s, end, COMMA);
      EndsInside(s, end, [COMMA]);
      NoWs(s, end);
      var t := ElementDerives(s, i, es[0], indent, depth + 1);
      var x := Item(start, end, end, t);
      OneItem(s, i, x, Canonical(es[0]));
      var rest := ElementsDerive(s, end + 1, es[1..], indent, depth);
      MoreItems(s, i, end + 1 + |head + tail|, x, Canonical(es[0]), rest, CanonicalElements(es[1..]));
      items := [x] + rest;
    }
  }

  lemma {:induction false} MapDerives(s: Text, i: nat, ms: seq<Member>, indent: int, depth: nat) returns (fields: seq<Field>)
    requires ms != [] && UniqueKeys(ms) && (forall m :: m in ms ==> Printable(m.value)) && At(s, i, Print(Object(ms), indent, depth))
    ensures var j := i + |Print(Object(ms), indent, depth)|;
      Derives(s, i, j, Obj(fields, 0)) && Meaning(s, i, j, Obj(fields, 0)) == Object(CanonicalMembers(ms))
    decreases ms, 3
  {
    hide *;
    var tail := Break(indent, depth + 1) + MapTail(ms, indent, depth);
    MapText(ms, indent, depth);
    AtConcat(s, i, [OPEN_BRACE], tail);
    AtUnit(s, i, OPEN_BRACE);
    NoKeysYet(ms);
    fields := EntriesDerive(s, i + 1, ms, [], indent, depth);
    EndsInside(s, i + 1, tail);
    ObjectDerives(s, i, i + 1 + |tail|, fields);
    assert [] + CanonicalMembers(ms) == CanonicalMembers(ms);
  }

  /** Whitespace, key, colon, gap and value. */
  lemma {:induction false} EntryDerives(s: Text, i: nat, m: Member, indent: int, depth: nat, stop: nat) returns (f: Field)
    requires Printable(m.value) && At(s, i, Break(indent, depth + 1))
    requires At(s, i + |Break(indent, depth + 1)|, PrintEntry(m, indent, depth))
    requires AllWs(s, i + |Break(indent, depth + 1)| + |PrintEntry(m, indent, depth)|, stop)
    ensures IsField(s, i, f) && f.item.stop == stop && FieldMeaning(s, i, f) == Member(m.key, Canonical(m.value))
    decreases m, 1
  {
    hide *;
    var start := i + |Break(indent, depth + 1)|;
    var key, value := Quoted(m.key), Print(m.value, indent, depth + 1);
    var keyEnd := start + |key|;
    var open := keyEnd + 1 + |Gap(indent)|;
    BreakIsWs(s, i, indent, depth + 1);
    EntryText(m, indent, depth);
    AtConcat(s, start, key, [COLON] + (Gap(indent) + value));
    AtConcat(s, keyEnd, [COLON], Gap(indent) + value);
    AtConcat(s, keyEnd + 1, Gap(indent), value);
    AtUnit(s, keyEnd, COLON);
    GapIsWs(s, keyEnd + 1, indent);
    EndsInside(s, start, key);
    NoWs(s, keyEnd);
    var ends := QuotedDerives(s, start, m.key);
    var t := ValueDerives(s, open, m.value, indent, depth + 1);
    var x := Item(open, open + |value|, stop, t);
    OneItem(s, keyEnd + 1, x, Canonical(m.value));
    f := Field(start, keyEnd, keyEnd, Str(m.key, ends), x);
    OneField(s, i, f, Canonical(m.value));
  }

  lemma OneField(s: Text, i: nat, f: Field, v: Value)
    requires AllWs(s, i, f.start) && f.key.Str? && Derives(s, f.start, f.keyEnd, f.key)
    requires AllWs(s, f.keyEnd, f.colon) && Peek(s, f.colon, COLON)
    requires IsItem(s, f.colon + 1, f.item) && ItemMeaning(s, f.colon + 1, f.item) == v
    ensures IsField(s, i, f) && FieldMeaning(s, i, f) == Member(f.key.units, v)
  {
    hide Derives, IsItem, ItemMeaning, AllWs;
  }

  lemma LastField(s: Text, i: nat, f: Field, m: Member, obj: seq<Member>)
    requires IsField(s, i, f) && FieldMeaning(s, i, f) == m && Peek(s, f.item.stop, CLOSE_BRACE)
    ensures IsFields(s, i, f.item.stop + 1, [f]) && Members(s, i, f.item.stop + 1, [f], obj) == Put(obj, m.key, m.value)
  {
    hide IsField, FieldMeaning, Put;
  }

  lemma MoreFields(s: Text, i: nat, j: nat, f: Field, m: Member, rest: seq<Field>, obj: seq<Member>)
    requires IsField(s, i, f) && FieldMeaning(s, i, f) == m && Peek(s, f.item.stop, COMMA)
    requires rest != [] && IsFields(s, f.item.stop + 1, j, rest)
    ensures IsFields(s, i, j, [f] + rest)
    ensures Members(s, i, j, [f] + rest, obj) == Members(s, f.item.stop + 1, j, rest, Put(obj, m.key, m.value))
  {
    hide IsField, FieldMeaning, Put;
    assert ([f] + rest)[1..] == rest;
  }

  lemma {:induction false} EntriesDerive(s: Text, i: nat, ms: seq<Member>, obj: seq<Member>, indent: int, depth: nat) returns (fields: seq<Field>)
    requires ms != [] && (forall m :: m in ms ==> Printable(m.value)) && FreshKeys(obj, ms)
    requires At(s, i, Break(indent, depth + 1) + MapTail(ms, indent, depth))
    ensures var j := i + |Break(indent, depth + 1) + MapTail(ms, indent, depth)|;
      fields != [] && IsFields(s, i, j, fields) && Members(s, i, j, fields, obj) == obj + CanonicalMembers(ms)
    decreases ms, 2
  {
    hide *;
    var m := Member(ms[0].key, Canonical(ms[0].value));
    var head, text := Break(indent, depth + 1), PrintEntry(ms[0], indent, depth);
    var start := i + |head|;
    var end := start + |text|;
    AtConcat(s, i, head, MapTail(ms, indent, depth));
    FreshKeysNext(obj, ms, m.value);
    if |ms| == 1 {
      var close := Break(indent, depth);
      MapTailLast(ms, indent, depth);
      AtConcat(s, start, text, close + [CLOSE_BRACE]);
      AtConcat(s, end, close, [CLOSE_BRACE]);
      AtUnit(s, end + |close|, CLOSE_BRACE);
      BreakIsWs(s, end, indent, depth);
      var f := EntryDerives(s, i, ms[0], indent, depth, end + |close|);
      LastField(s, i, f, m, obj);
      fields := [f];
    } else {
      var tail := MapTail(ms[1..], indent, depth);
      MapTailNext(ms, indent, depth);
      Assoc([COMMA], head, tail);
      AtConcat(s, start, text, [COMMA] + (head + tail));
      AtConcat(s, end, [COMMA], head + tail);
      AtUnit(s, end, COMMA);
      EndsInside(s, end, [COMMA]);
      NoWs(s, end);
      var f := EntryDerives(s, i, ms[0], indent, depth, end);
      var rest := EntriesDerive(s, end + 1, ms[1..], obj + [m], indent, depth);
      MoreFields(s, i, end + 1 + |head + tail|, f, m, rest, obj);
      Assoc(obj, [m], CanonicalMembers(ms[1..]));
      fields := [f] + rest;
    }
  }

  ghost predicate IsJsonFor(s: Text, v: Value) {
    exists t :: Derives(s, 0, |s|, t) && Meaning(s, 0, |s|, t) == v
  }

  /**
   Whatever is printed, with any indent, is a JSON text by RFC 8259, and it means
   the value printed, each integer in its smallest box.
  */
  lemma PrintedIsJson(v: Value, indent: int)
    requires Printable(v)
    ensures IsJsonFor(ToJson(v, indent), Canonical(v))
  {
    var s := ToJson(v, indent);
    assert s[0..0 + |s|] == s;
    assert At(s, 0, Print(v, indent, 0));
    hide Print, Derives, Meaning, At;
    var t := ValueDerives(s, 0, v, indent, 0);
  }

  // ----- and the parser reads it ------------------------------------------------------

  lemma {:induction false} CanonicalInRange(v: Value)
    requires Printable(v)
    ensures InRange(Canonical(v))
    decreases v, 0
  {
    match v
    case Array(es) => ElementsInRange(es);
    case Object(ms) => MembersInRange(ms);
    case _ =>
  }

  lemma {:induction false} ElementsInRange(es: seq<Value>)
    requires forall e :: e in es ==> Printable(e)
    ensures forall e :: e in CanonicalElements(es) ==> InRange(e)
    decreases es, 1
  {
    if es == [] {
    } else {
      CanonicalInRange(es[0]);
      ElementsInRange(es[1..]);
      hide Printable, InRange, Canonical;
    }
  }

  lemma {:induction false} MembersInRange(ms: seq<Member>)
    requires forall m :: m in ms ==> Printable(m.value)
    ensures forall m :: m in CanonicalMembers(ms) ==> InRange(m.value)
    decreases ms, 1
  {
    if ms == [] {
    } else {
      CanonicalInRange(ms[0].value);
      MembersInRange(ms[1..]);
      hide Printable, InRange, Canonical;
    }
  }

  /** A printed value parses back wherever it stands, if nothing after it continues a number. */
  lemma RoundTrip(s: Text, i: nat, v: Value, indent: int, depth: nat)
    requires Printable(v)
    requires At(s, i, Print(v, indent, depth)) && Delimited(s, i + |Print(v, indent, depth)|)
    ensures ParseValue(s, i) == Ok(Canonical(v), i + |Print(v, indent, depth)|)
  {
    hide *;
    var t := ValueDerives(s, i, v, indent, depth);
    ValueIsRead(s, i, i + |Print(v, indent, depth)|, t);
    CanonicalInRange(v);
    ClippedIsIdentity(Canonical(v));
  }

  /**
   The round trip the demo relies on: whatever is printed, with any indent,
   parses back to the same value, every number in its smallest box, and the
   cursor ends exactly at the end of the text.
  */
  lemma PrintThenParse(v: Value, indent: int)
    requires Printable(v)
    ensures ParseValue(ToJson(v, indent), 0) == Ok(Canonical(v), |ToJson(v, indent)|)
  {
    var s := ToJson(v, indent);
    assert s[0..0 + |s|] == s;
    RoundTrip(s, 0, v, indent, 0);
  }

  /** The identity holds exactly for values without an oversized number box. */
  lemma PrintThenParseIsIdentity(v: Value, indent: int)
    requires Printable(v)
    ensures ParseValue(ToJson(v, indent), 0) == Ok(v, |ToJson(v, indent)|) <==> MinimalBoxes(v)
  {
    PrintThenParse(v, indent);
    CanonicalIsIdentity(v);
  }

  lemma {:induction false} CanonicalIsIdentity(v: Value)
    ensures Canonical(v) == v <==> MinimalBoxes(v)
    decreases v, 0
  {
    match v
    case Array(es) => CanonicalElementsIdentity(es);
    case Object(ms) => CanonicalMembersIdentity(ms);
    case _ =>
  }

  lemma {:induction false} CanonicalElementsIdentity(es: seq<Value>)
    ensures CanonicalElements(es) == es <==> forall e :: e in es ==> MinimalBoxes(e)
    decreases es, 1
  {
    if es == [] {
    } else {
      assert es == [es[0]] + es[1..];
      CanonicalIsIdentity(es[0]);
      CanonicalElementsIdentity(es[1..]);
    }
  }

  lemma {:induction false} CanonicalMembersIdentity(ms: seq<Member>)
    ensures CanonicalMembers(ms) == ms <==> forall m :: m in ms ==> MinimalBoxes(m.value)
    decreases ms, 1
  {
    if ms == [] {
    } else {
      assert ms == [ms[0]] + ms[1..];
      CanonicalIsIdentity(ms[0].value);
      CanonicalMembersIdentity(ms[1..]);
    }
  }
}
