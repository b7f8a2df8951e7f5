/** How printed text is laid out in lines. */
module JsonLayout {
  import opened Json
  import opened JsonText
  import opened JsonRoundTrip
  import opened Sequences

  /** Every line but the first moved n columns to the right. */
  function Shifted(t: Text, n: nat): Text {
    if t == [] then [] else [t[0]] + ((if t[0] == NEWLINE then Spaces(n) else []) + Shifted(t[1..], n))
  }

  lemma {:induction false} ShiftedConcat(a: Text, b: Text, n: nat)
    ensures Shifted(a + b, n) == Shifted(a, n) + Shifted(b, n)
  {
    if a == [] {
      assert a + b == b;
    } else {
      var pad := if a[0] == NEWLINE then Spaces(n) else [];
      assert (a + b)[1..] == a[1..] + b;
      ShiftedConcat(a[1..], b, n);
      Assoc(pad, Shifted(a[1..], n), Shifted(b, n));
      Assoc([a[0]], pad + Shifted(a[1..], n), Shifted(b, n));
    }
  }

  /** No control character at all, line feeds included. */
  predicate IsOneLine(t: Text) {
    forall k :: 0 <= k < |t| ==> t[k] >= 32
  }

  lemma {:induction false} OneLineStays(t: Text, n: nat)
    requires IsOneLine(t)
    ensures Shifted(t, n) == t
  {
    if t == [] {
    } else {
      OneLineStays(t[1..], n);
    }
  }

  lemma {:induction false} EscapeIsOneLine(t: Text)
    ensures IsOneLine(Escape(t))
  {
    if t == [] {
    } else {
      EscapeIsOneLine(t[1..]);
    }
  }

  lemma QuotedIsOneLine(t: Text)
    ensures IsOneLine(Quoted(t))
  {
    EscapeIsOneLine(t);
  }

  lemma NumberIsOneLine(n: int)
    ensures IsOneLine(NumberText(n))
  {
    DecimalIsPlain(if n < 0 then -n else n);
    hide Decimal;
  }

  /** Depth e is n columns further right than depth d. */
  predicate IsDeeper(indent: int, d: nat, e: nat, n: nat) {
    indent > 0 && e * indent == d * indent + n
  }

  lemma NextIsDeeper(indent: int, d: nat, e: nat, n: nat)
    requires IsDeeper(indent, d, e, n)
    ensures IsDeeper(indent, d + 1, e + 1, n)
  {
  }

  lemma BreakMoves(indent: int, d: nat, e: nat, n: nat)
    requires IsDeeper(indent, d, e, n)
    ensures Break(indent, e) == Shifted(Break(indent, d), n)
  {
    var spaces := Spaces(d * indent);
    OneLineStays(spaces, n);
    assert ([NEWLINE] + spaces)[1..] == spaces;
    assert Spaces(e * indent) == Spaces(n) + spaces;
  }

  lemma Shifted4(a: Text, b: Text, c: Text, d: Text, n: nat)
    ensures Shifted(a + (b + (c + d)), n) == Shifted(a, n) + (Shifted(b, n) + (Shifted(c, n) + Shifted(d, n)))
  {
    hide Shifted;
    ShiftedConcat(a, b + (c + d), n);
    ShiftedConcat(b, c + d, n);
    ShiftedConcat(c, d, n);
  }

  lemma {:induction false} ValueShifted(v: Value, indent: int, d: nat, e: nat, n: nat)
    requires Printable(v) && IsDeeper(indent, d, e, n)
    ensures Print(v, indent, e) == Shifted(Print(v, indent, d), n)
    decreases v, 0
  {
    match v
    case Int(i) =>
      NumberIsOneLine(i);
      OneLineStays(NumberText(i), n);
    case Long(i) =>
      NumberIsOneLine(i);
      OneLineStays(NumberText(i), n);
    case String(s) =>
      QuotedIsOneLine(s);
      OneLineStays(Quoted(s), n);
    case Array(es) =>
      ElementsShifted(es, indent, d, e, n, true);
      EntriesShifted(PrintElements(es, indent, d, true), es == [], indent, d, e, n, OPEN_BRACKET, CLOSE_BRACKET);
    case Object(ms) =>
      MembersShifted(ms, indent, d, e, n, true);
      EntriesShifted(PrintMembers(ms, indent, d, true), ms == [], indent, d, e, n, OPEN_BRACE, CLOSE_BRACE);
    case Null => OneLineStays(TEXT_NULL, n);
    case Bool(b) => OneLineStays(Print(v, indent, d), n);
  }

  lemma EntriesShifted(entries: Text, empty: bool, indent: int, d: nat, e: nat, n: nat, open: Unit, close: Unit)
    requires IsDeeper(indent, d, e, n) && open >= 32 && close >= 32
    ensures Shifted([open] + (entries + Closing(empty, indent, d, close)), n)
         == [open] + (Shifted(entries, n) + Closing(empty, indent, e, close))
  {
    var closing := Closing(empty, indent, d, close);
    BreakMoves(indent, d, e, n);
    OneLineStays([open], n);
    OneLineStays([close], n);
    hide Break, Shifted;
    ShiftedConcat([open], entries + closing, n);
    ShiftedConcat(entries, closing, n);
    if !empty {
      ShiftedConcat(Break(indent, d), [close], n);
    }
  }

  lemma SeparatorStays(first: bool, n: nat)
    ensures Shifted(Separator(first), n) == Separator(first)
  {
    OneLineStays(Separator(first), n);
  }

  lemma FirstElementText(es: seq<Value>, indent: int, d: nat, first: bool)
    requires es != []
    ensures PrintElements(es, indent, d, first) ==
      Separator(first) + (Break(indent, d + 1) + (Print(es[0], indent, d + 1) + PrintElements(es[1..], indent, d, false)))
  {
  }

  lemma FirstMemberText(ms: seq<Member>, indent: int, d: nat, first: bool)
    requires ms != []
    ensures PrintMembers(ms, indent, d, first) ==
      Separator(first) + (Break(indent, d + 1) + (PrintEntry(ms[0], indent, d) + PrintMembers(ms[1..], indent, d, false)))
  {
  }

  lemma NothingPrinted(indent: int, d: nat, first: bool, n: nat)
    ensures PrintElements([], indent, d, first) == PrintMembers([], indent, d, first) == Shifted([], n) == []
  {
  }

  lemma {:induction false} ElementsShifted(es: seq<Value>, indent: int, d: nat, e: nat, n: nat, first: bool)
    requires IsDeeper(indent, d, e, n) && forall v :: v in es ==> Printable(v)
    ensures PrintElements(es, indent, e, first) == Shifted(PrintElements(es, indent, d, first), n)
    decreases es, 1
  {
    if es == [] {
      NothingPrinted(indent, d, first, n);
      NothingPrinted(indent, e, first, n);
    } else {
      hide *;
      NextIsDeeper(indent, d, e, n);
      ValueShifted(es[0], indent, d + 1, e + 1, n);
      ElementsShifted(es[1..], indent, d, e, n, false);
      BreakMoves(indent, d + 1, e + 1, n);
      SeparatorStays(first, n);
      FirstElementText(es, indent, d, first);
      FirstElementText(es, indent, e, first);
      Shifted4(Separator(first), Break(indent, d + 1), Print(es[0], indent, d + 1), PrintElements(es[1..], indent, d, false), n);
    }
  }

  lemma {:induction false} EntryShifted(m: Member, indent: int, d: nat, e: nat, n: nat)
    requires IsDeeper(indent, d, e, n) && Printable(m.value)
    ensures PrintEntry(m, indent, e) == Shifted(PrintEntry(m, indent, d), n)
    decreases m, 1
  {
    NextIsDeeper(indent, d, e, n);
    hide IsDeeper;
    ValueShifted(m.value, indent, d + 1, e + 1, n);
    QuotedIsOneLine(m.key);
    OneLineStays(Quoted(m.key), n);
    OneLineStays([COLON], n);
    OneLineStays(Gap(indent), n);
    hide Print, Shifted, Quoted, Gap;
    Shifted4(Quoted(m.key), [COLON], Gap(indent), Print(m.value, indent, d + 1), n);
  }

  lemma {:induction false} MembersShifted(ms: seq<Member>, indent: int, d: nat, e: nat, n: nat, first: bool)
    requires IsDeeper(indent, d, e, n) && forall m :: m in ms ==> Printable(m.value)
    ensures PrintMembers(ms, indent, e, first) == Shifted(PrintMembers(ms, indent, d, first), n)
    decreases ms, 1
  {
    if ms == [] {
      NothingPrinted(indent, d, first, n);
      NothingPrinted(indent, e, first, n);
    } else {
      hide *;
      NextIsDeeper(indent, d, e, n);
      EntryShifted(ms[0], indent, d, e, n);
      MembersShifted(ms[1..], indent, d, e, n, false);
      BreakMoves(indent, d + 1, e + 1, n);
      SeparatorStays(first, n);
      FirstMemberText(ms, indent, d, first);
      FirstMemberText(ms, indent, e, first);
      Shifted4(Separator(first), Break(indent, d + 1), PrintEntry(ms[0], indent, d), PrintMembers(ms[1..], indent, d, false), n);
    }
  }

  /** A value nested k levels deeper is printed as the same lines, k indents further right. */
  lemma NestedIsShifted(v: Value, indent: int, depth: nat, k: nat)
    requires Printable(v) && indent > 0
    ensures Print(v, indent, depth + k) == Shifted(Print(v, indent, depth), k * indent)
  {
    hide Print, Shifted;
    assert (depth + k) * indent == depth * indent + k * indent;
    ValueShifted(v, indent, depth, depth + k, k * indent);
  }

  /** Without an indent the text is one line, whatever characters the strings have. */
  lemma {:induction false} CompactIsOneLine(v: Value, indent: int, depth: nat)
    requires Printable(v) && indent <= 0
    ensures IsOneLine(Print(v, indent, depth))
    decreases v, 0
  {
    match v
    case Int(n) => NumberIsOneLine(n);
    case Long(n) => NumberIsOneLine(n);
    case String(s) => QuotedIsOneLine(s);
    case Array(es) => ElementsOneLine(es, indent, depth, true);
    case Object(ms) => MembersOneLine(ms, indent, depth, true);
    case _ =>
  }

  lemma {:induction false} ElementsOneLine(es: seq<Value>, indent: int, depth: nat, first: bool)
    requires indent <= 0 && forall e :: e in es ==> Printable(e)
    ensures IsOneLine(PrintElements(es, indent, depth, first))
    decreases es, 1
  {
    if es == [] {
    } else {
      CompactIsOneLine(es[0], indent, depth + 1);
      ElementsOneLine(es[1..], indent, depth, false);
      hide Print;
    }
  }

  lemma {:induction false} MembersOneLine(ms: seq<Member>, indent: int, depth: nat, first: bool)
    requires indent <= 0 && forall m :: m in ms ==> Printable(m.value)
    ensures IsOneLine(PrintMembers(ms, indent, depth, first))
    decreases ms, 1
  {
    if ms == [] {
    } else {
      EntryOneLine(ms[0], indent, depth);
      MembersOneLine(ms[1..], indent, depth, false);
      hide PrintEntry;
    }
  }

  lemma {:induction false} EntryOneLine(m: Member, indent: int, depth: nat)
    requires indent <= 0 && Printable(m.value)
    ensures IsOneLine(PrintEntry(m, indent, depth))
    decreases m, 1
  {
    QuotedIsOneLine(m.key);
    CompactIsOneLine(m.value, indent, depth + 1);
    hide Print, Quoted;
  }
}
