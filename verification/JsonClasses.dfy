/**
 The printer with its StringBuilder and the parser with its cursor, each method
 proved to do what the functions of module Json say. An exception is None.
*/
module JsonClasses {
  import opened Options
  import opened Json

  function Result<T>(p: Parse<T>): Option<T> {
    if p.Ok? then Some(p.value) else None
  }

  class JsonWriter {
    var sb: Text

    constructor ()
      ensures sb == []
    {
      sb := [];
    }

    method WriteUnit(c: Unit)
      modifies this
      ensures sb == old(sb) + EscapeUnit(c)
    {
      if c == BACKSLASH {
        sb := sb + [BACKSLASH, BACKSLASH];
      } else if c == QUOTE {
        sb := sb + [BACKSLASH, QUOTE];
      } else if c == 10 {
        sb := sb + [BACKSLASH, 110];
      } else if c == 13 {
        sb := sb + [BACKSLASH, 114];
      } else if c == 9 {
        sb := sb + [BACKSLASH, 116];
      } else if c < 32 {
        sb := sb + [BACKSLASH, 117, ZERO, ZERO, HexDigit(c as int / 16), HexDigit(c as int % 16)];
      } else {
        sb := sb + [c];
      }
    }

    method WriteEscaped(text: Text)
      modifies this
      ensures sb == old(sb) + Escape(text)
    {
      hide EscapeUnit;
      for k := 0 to |text|
        invariant sb + Escape(text[k..]) == old(sb) + Escape(text)
      {
        assert text[k..][0] == text[k] && text[k..][1..] == text[k + 1..];
        ghost var before := sb;
        WriteUnit(text[k]);
        assert before + (EscapeUnit(text[k]) + Escape(text[k + 1..])) == sb + Escape(text[k + 1..]);
      }
    }

    method WriteQuoted(text: Text)
      modifies this
      ensures sb == old(sb) + Quoted(text)
    {
      sb := sb + [QUOTE];
      WriteEscaped(text);
      sb := sb + [QUOTE];
    }

    method WriteBreak(indent: int, depth: nat)
      modifies this
      ensures sb == old(sb) + Break(indent, depth)
    {
      if indent > 0 {
        sb := sb + [NEWLINE] + Spaces(depth * indent);
      }
    }

    method WriteJson(v: Value, indent: int, depth: nat)
      modifies this
      ensures sb == old(sb) + Print(v, indent, depth)
      decreases v, 0
    {
      match v
      case Null => sb := sb + TEXT_NULL;
      case Bool(b) => sb := sb + if b then TEXT_TRUE else TEXT_FALSE;
      case Int(n) => sb := sb + NumberText(n);
      case Long(n) => sb := sb + NumberText(n);
      case Double(text) => sb := sb + text;
      case String(s) => WriteQuoted(s);
      case Array(es) => WriteArray(es, indent, depth);
      case Object(ms) => WriteObject(ms, indent, depth);
    }

    method WriteArray(es: seq<Value>, indent: int, depth: nat)
      modifies this
      ensures sb == old(sb) + Print(Array(es), indent, depth)
      decreases es, 1
    {
      hide Break;
      sb := sb + [OPEN_BRACKET];
      var first := true;
      ghost var tail := Closing(es == [], indent, depth, CLOSE_BRACKET);
      for k := 0 to |es|
        invariant first == (k == 0)
        invariant sb + (PrintElements(es[k..], indent, depth, first) + tail) == old(sb) + Print(Array(es), indent, depth)
      {
        ElementText(es, k, indent, depth, first, tail);
        ghost var before := sb;
        if !first {
          sb := sb + [COMMA];
        }
        first := false;
        WriteBreak(indent, depth + 1);
        WriteJson(es[k], indent, depth + 1);
        Appended(before, Separator(k == 0), Break(indent, depth + 1), Print(es[k], indent, depth + 1),
          PrintElements(es[k + 1..], indent, depth, false) + tail);
      }
      if es != [] {
        WriteBreak(indent, depth);
      }
      sb := sb + [CLOSE_BRACKET];
    }

    method WriteObject(ms: seq<Member>, indent: int, depth: nat)
      modifies this
      ensures sb == old(sb) + Print(Object(ms), indent, depth)
      decreases ms, 1
    {
      hide Break, PrintEntry;
      sb := sb + [OPEN_BRACE];
      var first := true;
      ghost var tail := Closing(ms == [], indent, depth, CLOSE_BRACE);
      for k := 0 to |ms|
        invariant first == (k == 0)
        invariant sb + (PrintMembers(ms[k..], indent, depth, first) + tail) == old(sb) + Print(Object(ms), indent, depth)
      {
        MemberText(ms, k, indent, depth, first, tail);
        ghost var before := sb;
        if !first {
          sb := sb + [COMMA];
        }
        first := false;
        WriteBreak(indent, depth + 1);
        WriteEntry(ms[k], indent, depth);
        Appended(before, Separator(k == 0), Break(indent, depth + 1), PrintEntry(ms[k], indent, depth),
          PrintMembers(ms[k + 1..], indent, depth, false) + tail);
      }
      if ms != [] {
        WriteBreak(indent, depth);
      }
      sb := sb + [CLOSE_BRACE];
    }

    method WriteEntry(m: Member, indent: int, depth: nat)
      modifies this
      ensures sb == old(sb) + PrintEntry(m, indent, depth)
      decreases m, 1
    {
      hide Quoted, Print;
      ghost var before := sb;
      WriteQuoted(m.key);
      sb := sb + [COLON];
      if indent > 0 {
        sb := sb + [SPACE];
      }
      WriteJson(m.value, indent, depth + 1);
      Appended(before, Quoted(m.key), [COLON], Gap(indent), Print(m.value, indent, depth + 1));
    }
  }

  lemma ElementText(es: seq<Value>, k: nat, indent: int, depth: nat, first: bool, tail: Text)
    requires k < |es|
    ensures PrintElements(es[k..], indent, depth, first) + tail ==
      Separator(first) + (Break(indent, depth + 1) + (Print(es[k], indent, depth + 1) + (PrintElements(es[k + 1..], indent, depth, false) + tail)))
  {
    hide Print, Break;
    assert es[k..][0] == es[k] && es[k..][1..] == es[k + 1..];
  }

  lemma MemberText(ms: seq<Member>, k: nat, indent: int, depth: nat, first: bool, tail: Text)
    requires k < |ms|
    ensures PrintMembers(ms[k..], indent, depth, first) + tail ==
      Separator(first) + (Break(indent, depth + 1) + (PrintEntry(ms[k], indent, depth) + (PrintMembers(ms[k + 1..], indent, depth, false) + tail)))
  {
    hide PrintEntry, Break;
    assert ms[k..][0] == ms[k] && ms[k..][1..] == ms[k + 1..];
  }

  lemma Appended(sb: Text, a: Text, b: Text, c: Text, rest: Text)
    ensures sb + (a + (b + (c + rest))) == sb + a + b + c + rest
  {
  }

  function Prepend(out: Text, r: (Text, nat)): (Text, nat) {
    (out + r.0, r.1)
  }

  lemma PrependNothing(r: (Text, nat))
    ensures Prepend([], r) == r
  {
    assert [] + r.0 == r.0;
  }

  /** One round of parseString's loop: it stops, or moves one unit from the text to out. */
  lemma ScanRound(s: Text, i: nat, out: Text)
    requires i < |s|
    ensures Prepend(out, ScanString(s, i)) ==
      if s[i] == QUOTE || (s[i] == BACKSLASH && i + 1 >= |s|) then (out, i + 1)
      else if s[i] != BACKSLASH then Prepend(out + [s[i]], ScanString(s, i + 1))
      else if s[i + 1] == 117 then Prepend(out + [UnicodeEscape(s[i + 2..Min(i + 6, |s|)])], ScanString(s, i + 6))
      else Prepend(out + [SimpleEscape(s[i + 1])], ScanString(s, i + 2))
  {
    hide UnicodeEscape, SimpleEscape;
    assert out + [] == out;
    forall u: Unit, rest: Text
      ensures out + ([u] + rest) == (out + [u]) + rest
    {
    }
  }

  lemma ScanStops(s: Text, i: nat, out: Text)
    requires i >= |s|
    ensures Prepend(out, ScanString(s, i)) == (out, i)
  {
    assert out + [] == out;
  }

  lemma PartsInside(s: Text, c: nat)
    requires c <= |s|
    ensures FractionEnd(s, c) <= |s| && ExponentEnd(s, c) <= |s|
  {
  }

  lemma DigitRun(s: Text, a: nat)
    requires a <= |s|
    ensures AllDigits(s[a..SkipDigits(s, a)])
  {
  }

  class JsonParser {
    const s: Text
    var i: nat

    constructor (s: Text)
      ensures this.s == s && i == 0
    {
      this.s := s;
      i := 0;
    }

    method SkipWhitespace()
      modifies this
      ensures i == SkipWs(s, old(i))
    {
      while i < |s|
        invariant SkipWs(s, i) == SkipWs(s, old(i))
      {
        if IsWs(s[i]) {
          i := i + 1;
        } else {
          break;
        }
      }
    }

    method ExpectUnit(c: Unit) returns (ok: bool)
      modifies this
      ensures ok == Expect(s, old(i), c).Ok? && i == Expect(s, old(i), c).next
    {
      SkipWhitespace();
      if i >= |s| || s[i] != c {
        return false;
      }
      i := i + 1;
      return true;
    }

    method ReadString() returns (r: Option<Text>)
      modifies this
      ensures r == Result(ParseString(s, old(i))) && i == ParseString(s, old(i)).next
    {
      hide ScanString, UnicodeEscape, SimpleEscape, Prepend;
      var ok := ExpectUnit(QUOTE);
      if !ok {
        return None;
      }
      var out: Text := [];
      ghost var whole := ScanString(s, i);
      PrependNothing(whole);
      while i < |s|
        invariant Prepend(out, ScanString(s, i)) == whole
        decreases |s| - i
      {
        ScanRound(s, i, out);
        var c := s[i];
        i := i + 1;
        if c == QUOTE {
          return Some(out);
        }
        if c == BACKSLASH {
          if i >= |s| {
            return Some(out);
          }
          var e := s[i];
          i := i + 1;
          if e == 117 {
            var hex := s[i..Min(i + 4, |s|)];
            i := i + 4;
            out := out + [UnicodeEscape(hex)];
          } else {
            out := out + [SimpleEscape(e)];
          }
        } else {
          out := out + [c];
        }
      }
      ScanStops(s, i, out);
      return Some(out);
    }

    method ReadBoolean() returns (r: Value)
      modifies this
      ensures ParseBoolean(s, old(i)) == Ok(r, i)
    {
      if StartsWith(s, TEXT_TRUE, i) {
        i := i + 4;
        return Bool(true);
      }
      if StartsWith(s, TEXT_FALSE, i) {
        i := i + 5;
        return Bool(false);
      }
      return Bool(false);
    }

    method ReadNull() returns (r: Value)
      modifies this
      ensures ParseNull(s, old(i)) == Ok(r, i)
    {
      if StartsWith(s, TEXT_NULL, i) {
        i := i + 4;
      }
      return Null;
    }

    method AdvanceDigits()
      modifies this
      ensures i == SkipDigits(s, old(i))
    {
      while i < |s| && IsDigit(s[i])
        invariant SkipDigits(s, i) == SkipDigits(s, old(i))
      {
        i := i + 1;
      }
    }

    method ReadFraction()
      modifies this
      ensures i == FractionEnd(s, old(i))
    {
      if Peek(s, i, DOT) {
        i := i + 1;
        AdvanceDigits();
      }
    }

    method ReadExponent()
      modifies this
      ensures i == ExponentEnd(s, old(i))
    {
      if HasExponent(s, i) {
        i := i + 1;
        if Peek(s, i, PLUS) || Peek(s, i, MINUS) {
          i := i + 1;
        }
        AdvanceDigits();
      }
    }

    method ReadNumber() returns (r: Value)
      requires i <= |s|
      modifies this
      ensures ParseNumber(s, old(i)) == Ok(r, i)
    {
      hide NumberValue, SkipDigits, AllDigits, FractionEnd, ExponentEnd;
      var start := i;
      if Peek(s, i, MINUS) {
        i := i + 1;
      }
      var digits := i;
      AdvanceDigits();
      var mantissa := i;
      DigitRun(s, digits);
      ReadFraction();
      var fraction := i;
      ReadExponent();
      PartsInside(s, mantissa);
      PartsInside(s, fraction);
      r := NumberValue(s, start, digits, mantissa, fraction, i);
    }

    method ReadValue() returns (r: Option<Value>)
      modifies this
      ensures r == Result(ParseValue(s, old(i))) && i == ParseValue(s, old(i)).next
      decreases Left(s, i), 1
    {
      SkipWhitespace();
      if i >= |s| {
        return Some(Null);
      }
      var c := s[i];
      if c == OPEN_BRACE {
        r := ReadObject();
      } else if c == OPEN_BRACKET {
        r := ReadArray();
      } else if c == QUOTE {
        var t := ReadString();
        r := if t.Some? then Some(String(t.value)) else None;
      } else if c == 116 || c == 102 {
        var b := ReadBoolean();
        r := Some(b);
      } else if c == 110 {
        var n := ReadNull();
        r := Some(n);
      } else {
        var n := ReadNumber();
        r := Some(n);
      }
    }

    method ReadArray() returns (r: Option<Value>)
      modifies this
      ensures r == Result(ParseArray(s, old(i))) && i == ParseArray(s, old(i)).next
      decreases Left(s, i), 0
    {
      var ok := ExpectUnit(OPEN_BRACKET);
      if !ok {
        return None;
      }
      var arr: seq<Value> := [];
      SkipWhitespace();
      if Peek(s, i, CLOSE_BRACKET) {
        ok := ExpectUnit(CLOSE_BRACKET);
        return Some(Array(arr));
      }
      ghost var whole := ParseElements(s, i, []);
      while true
        invariant ParseElements(s, i, arr) == whole
        invariant Left(s, i) < Left(s, old(i))
        decreases Left(s, i)
      {
        var val := ReadValue();
        if val.None? {
          return None;
        }
        SkipWhitespace();
        arr := arr + [val.value];
        if Peek(s, i, CLOSE_BRACKET) {
          ok := ExpectUnit(CLOSE_BRACKET);
          break;
        }
        ok := ExpectUnit(COMMA);
        if !ok {
          return None;
        }
      }
      return Some(Array(arr));
    }

    method ReadObject() returns (r: Option<Value>)
      modifies this
      ensures r == Result(ParseObject(s, old(i))) && i == ParseObject(s, old(i)).next
      decreases Left(s, i), 0
    {
      var ok := ExpectUnit(OPEN_BRACE);
      if !ok {
        return None;
      }
      var obj: seq<Member> := [];
      SkipWhitespace();
      if Peek(s, i, CLOSE_BRACE) {
        ok := ExpectUnit(CLOSE_BRACE);
        return Some(Object(obj));
      }
      ghost var whole := ParseMembers(s, i, []);
      while true
        invariant ParseMembers(s, i, obj) == whole
        invariant Left(s, i) < Left(s, old(i))
        decreases Left(s, i)
      {
        SkipWhitespace();
        var key := ReadString();
        if key.None? {
          return None;
        }
        SkipWhitespace();
        ok := ExpectUnit(COLON);
        if !ok {
          return None;
        }
        var val := ReadValue();
        if val.None? {
          return None;
        }
        obj := Put(obj, key.value, val.value);
        SkipWhitespace();
        if Peek(s, i, CLOSE_BRACE) {
          ok := ExpectUnit(CLOSE_BRACE);
          break;
        }
        ok := ExpectUnit(COMMA);
        if !ok {
          return None;
        }
      }
      return Some(Object(obj));
    }
  }
}
