/** The values that are printed, the text they are printed as, and text at a position. */
module JsonText {
  import opened Json
  import opened Sequences

  // ----- the values the claim is about ----------------------------------------

  ghost predicate UniqueKeys(ms: seq<Member>) {
    forall i, j :: 0 <= i < j < |ms| ==> ms[i].key != ms[j].key
  }

  /** Null, booleans, boxed integers, strings, lists and maps with distinct keys; no doubles. */
  ghost predicate Printable(v: Value) {
    match v
    case Int(n) => INT_MIN <= n <= INT_MAX
    case Long(n) => LONG_MIN <= n <= LONG_MAX
    case Double(_) => false
    case Array(es) => forall e :: e in es ==> Printable(e)
    case Object(ms) => UniqueKeys(ms) && forall m :: m in ms ==> Printable(m.value)
    case _ => true
  }

  /** The same value with every number in the box parseNumber chooses. */
  function Canonical(v: Value): Value
    decreases v, 0
  {
    match v
    case Long(n) => if INT_MIN <= n <= INT_MAX then Int(n) else v
    case Array(es) => Array(CanonicalElements(es))
    case Object(ms) => Object(CanonicalMembers(ms))
    case _ => v
  }

  function CanonicalElements(es: seq<Value>): (r: seq<Value>)
    ensures |r| == |es|
    decreases es, 1
  {
    if es == [] then [] else [Canonical(es[0])] + CanonicalElements(es[1..])
  }

  function CanonicalMembers(ms: seq<Member>): (r: seq<Member>)
    ensures |r| == |ms| && forall i :: 0 <= i < |ms| ==> r[i].key == ms[i].key
    decreases ms, 1
  {
    if ms == [] then [] else [Member(ms[0].key, Canonical(ms[0].value))] + CanonicalMembers(ms[1..])
  }

  /** No Long anywhere that would have fitted an Integer. */
  ghost predicate MinimalBoxes(v: Value) {
    match v
    case Long(n) => n < INT_MIN || n > INT_MAX
    case Array(es) => forall e :: e in es ==> MinimalBoxes(e)
    case Object(ms) => forall m :: m in ms ==> MinimalBoxes(m.value)
    case _ => true
  }

  // ----- text at a position ---------------------------------------------------

  ghost predicate At(s: Text, i: nat, t: Text) {
    i + |t| <= |s| && s[i..i + |t|] == t
  }

  lemma AtConcat(s: Text, i: nat, a: Text, b: Text)
    ensures At(s, i, a + b) <==> At(s, i, a) && At(s, i + |a|, b)
  {
    if At(s, i, a + b) {
      var t := s[i..i + |a + b|];
      assert t[..|a|] == a && t[|a|..] == b;
      assert s[i..i + |a|] == t[..|a|];
      assert s[i + |a|..i + |a| + |b|] == t[|a|..];
    }
    if At(s, i, a) && At(s, i + |a|, b) {
      assert s[i..i + |a + b|] == s[i..i + |a|] + s[i + |a|..i + |a| + |b|];
    }
  }

  lemma AtUnit(s: Text, i: nat, c: Unit)
    ensures At(s, i, [c]) <==> Peek(s, i, c)
  {
    if i < |s| {
      assert s[i..i + 1] == [s[i]];
    }
  }

  // ----- whitespace -----------------------------------------------------------

  lemma {:induction false} SkipRun(s: Text, i: nat, j: nat)
    requires i <= j <= |s| && forall k :: i <= k < j ==> IsWs(s[k])
    ensures SkipWs(s, i) == SkipWs(s, j)
    decreases j - i
  {
    if i == j {
    } else {
      SkipRun(s, i + 1, j);
    }
  }

  lemma SkipNone(s: Text, i: nat)
    requires i < |s| && !IsWs(s[i])
    ensures SkipWs(s, i) == i
  {
  }

  /** Where parsing starts inside leading whitespace does not matter. */
  lemma ValueAfterWs(s: Text, i: nat)
    ensures ParseValue(s, i) == ParseValue(s, SkipWs(s, i))
  {
  }

  // ----- strings --------------------------------------------------------------

  // ----- numbers --------------------------------------------------------------

  lemma {:induction false} DecimalIsDigits(n: nat)
    ensures Decimal(n) != [] && AllDigits(Decimal(n))
  {
    if n < 10 {
    } else {
      DecimalIsDigits(n / 10);
    }
  }

  lemma {:induction false} DecimalValueOfDecimal(n: nat)
    ensures AllDigits(Decimal(n))
    ensures DecimalValue(Decimal(n)) == n
  {
    DecimalIsDigits(n);
    var t := Decimal(n);
    if n < 10 {
      assert t[..0] == [];
      assert DecimalValue(t[..0]) == 0;
    } else {
      DecimalValueOfDecimal(n / 10);
      assert t[..|t| - 1] == Decimal(n / 10);
    }
  }

  /** The units that would be read as part of a number. */
  ghost predicate Delimited(s: Text, i: nat) {
    i < |s| ==> !IsDigit(s[i]) && s[i] != DOT && s[i] != 101 && s[i] != 69
  }

  lemma {:induction false} SkipDigitRun(s: Text, i: nat, j: nat)
    requires i <= j <= |s| && forall k :: i <= k < j ==> IsDigit(s[k])
    requires j < |s| ==> !IsDigit(s[j])
    ensures SkipDigits(s, i) == j
    decreases j - i
  {
    if i == j {
    } else {
      SkipDigitRun(s, i + 1, j);
    }
  }

  // ----- values ---------------------------------------------------------------

  lemma PutFresh(ms: seq<Member>, key: Text, value: Value)
    requires forall m :: m in ms ==> m.key != key
    ensures Put(ms, key, value) == ms + [Member(key, value)]
  {
    if ms == [] {
    } else {
      PutFresh(ms[1..], key, value);
      assert ms == [ms[0]] + ms[1..];
    }
  }

  /** parseArray's and parseObject's loops do not care for whitespace at their start. */
  lemma ElementsAfterWs(s: Text, i: nat, arr: seq<Value>)
    ensures ParseElements(s, i, arr) == ParseElements(s, SkipWs(s, i), arr)
  {
    ValueAfterWs(s, i);
  }

  lemma MembersAfterWs(s: Text, i: nat, obj: seq<Member>)
    ensures ParseMembers(s, i, obj) == ParseMembers(s, SkipWs(s, i), obj)
  {
  }

  // The rest of a list from its first element on, without the leading break.

  function ListTail(es: seq<Value>, indent: int, depth: nat): Text
    requires es != []
  {
    Print(es[0], indent, depth + 1)
    + (PrintElements(es[1..], indent, depth, false) + (Break(indent, depth) + [CLOSE_BRACKET]))
  }

  /** (b + (p + r)) + c regrouped. */
  lemma Regroup(b: Text, p: Text, r: Text, c: Text)
    ensures (b + (p + r)) + c == b + (p + (r + c))
  {
    hide *;
    Assoc(b, p + r, c);
    Assoc(p, r, c);
  }

  lemma RegroupNext(a: Text, b: Text, p: Text, r: Text, c: Text)
    ensures (a + (b + (p + r))) + c == (a + b) + (p + (r + c))
  {
    hide *;
    Assoc(a, b, p + r);
    Regroup(a + b, p, r, c);
  }

  lemma ListTailNext(es: seq<Value>, indent: int, depth: nat)
    requires |es| >= 2
    ensures ListTail(es, indent, depth) ==
      Print(es[0], indent, depth + 1) + (([COMMA] + Break(indent, depth + 1)) + ListTail(es[1..], indent, depth))
    ensures CanonicalElements(es) == [Canonical(es[0])] + CanonicalElements(es[1..])
  {
    hide Print, Break;
    var rest := es[1..];
    RegroupNext([COMMA], Break(indent, depth + 1), Print(rest[0], indent, depth + 1),
      PrintElements(rest[1..], indent, depth, false), Break(indent, depth) + [CLOSE_BRACKET]);
  }

  lemma ListTailLast(es: seq<Value>, indent: int, depth: nat)
    requires |es| == 1
    ensures ListTail(es, indent, depth) == Print(es[0], indent, depth + 1) + (Break(indent, depth) + [CLOSE_BRACKET])
    ensures CanonicalElements(es) == [Canonical(es[0])]
  {
  }

  /** The last round of parseArray's loop. */
  lemma LastElement(s: Text, i: nat, arr: seq<Value>, v: Value, j: nat)
    requires ParseValue(s, i) == Ok(v, j) && Peek(s, SkipWs(s, j), CLOSE_BRACKET)
    ensures ParseElements(s, i, arr) == Ok(Array(arr + [v]), SkipWs(s, j) + 1)
  {
  }

  /** From the opening bracket to the first element. */
  lemma EnterArray(s: Text, i: nat)
    requires Peek(s, i, OPEN_BRACKET) && !Peek(s, SkipWs(s, i + 1), CLOSE_BRACKET)
    ensures ParseValue(s, i) == ParseElements(s, SkipWs(s, i + 1), [])
  {
    hide ParseElements, ParseMembers;
    SkipNone(s, i);
  }

  lemma ListText(es: seq<Value>, indent: int, depth: nat)
    requires es != []
    ensures Print(Array(es), indent, depth) == [OPEN_BRACKET] + (Break(indent, depth + 1) + ListTail(es, indent, depth))
  {
    hide Break;
    Regroup(Break(indent, depth + 1), Print(es[0], indent, depth + 1),
      PrintElements(es[1..], indent, depth, false), Break(indent, depth) + [CLOSE_BRACKET]);
    assert forall x: Text {:trigger [] + x} :: [] + x == x;
  }

  // The rest of a map from its first entry on, without the leading break.

  function MapTail(ms: seq<Member>, indent: int, depth: nat): Text
    requires ms != []
  {
    PrintEntry(ms[0], indent, depth)
    + (PrintMembers(ms[1..], indent, depth, false) + (Break(indent, depth) + [CLOSE_BRACE]))
  }

  lemma MapTailLast(ms: seq<Member>, indent: int, depth: nat)
    requires |ms| == 1
    ensures MapTail(ms, indent, depth) == PrintEntry(ms[0], indent, depth) + (Break(indent, depth) + [CLOSE_BRACE])
    ensures CanonicalMembers(ms) == [Member(ms[0].key, Canonical(ms[0].value))]
  {
    hide PrintEntry;
  }

  lemma MapTailNext(ms: seq<Member>, indent: int, depth: nat)
    requires |ms| >= 2
    ensures MapTail(ms, indent, depth) ==
      PrintEntry(ms[0], indent, depth) + (([COMMA] + Break(indent, depth + 1)) + MapTail(ms[1..], indent, depth))
    ensures CanonicalMembers(ms) == [Member(ms[0].key, Canonical(ms[0].value))] + CanonicalMembers(ms[1..])
  {
    hide PrintEntry, Break;
    var rest := ms[1..];
    RegroupNext([COMMA], Break(indent, depth + 1), PrintEntry(rest[0], indent, depth),
      PrintMembers(rest[1..], indent, depth, false), Break(indent, depth) + [CLOSE_BRACE]);
  }

  lemma MapText(ms: seq<Member>, indent: int, depth: nat)
    requires ms != []
    ensures Print(Object(ms), indent, depth) == [OPEN_BRACE] + (Break(indent, depth + 1) + MapTail(ms, indent, depth))
  {
    hide Break, PrintEntry;
    Regroup(Break(indent, depth + 1), PrintEntry(ms[0], indent, depth),
      PrintMembers(ms[1..], indent, depth, false), Break(indent, depth) + [CLOSE_BRACE]);
    assert forall x: Text {:trigger [] + x} :: [] + x == x;
  }

  lemma EntryText(m: Member, indent: int, depth: nat)
    ensures PrintEntry(m, indent, depth) == Quoted(m.key) + ([COLON] + (Gap(indent) + Print(m.value, indent, depth + 1)))
  {
  }

  /** No key of ms occurs in obj, and ms repeats none. */
  ghost predicate FreshKeys(obj: seq<Member>, ms: seq<Member>) {
    UniqueKeys(ms) && forall i, j :: 0 <= i < |obj| && 0 <= j < |ms| ==> obj[i].key != ms[j].key
  }

  lemma FreshKeysNext(obj: seq<Member>, ms: seq<Member>, value: Value)
    requires ms != [] && FreshKeys(obj, ms)
    ensures Put(obj, ms[0].key, value) == obj + [Member(ms[0].key, value)]
    ensures FreshKeys(obj + [Member(ms[0].key, value)], ms[1..])
  {
    PutFresh(obj, ms[0].key, value);
  }

  lemma EnterObject(s: Text, i: nat)
    requires Peek(s, i, OPEN_BRACE) && !Peek(s, SkipWs(s, i + 1), CLOSE_BRACE)
    ensures ParseValue(s, i) == ParseMembers(s, SkipWs(s, i + 1), [])
  {
    hide ParseElements, ParseMembers;
    SkipNone(s, i);
  }

  lemma NoKeysYet(ms: seq<Member>)
    requires UniqueKeys(ms)
    ensures FreshKeys([], ms)
  {
  }
}
