/**
 The stdio transport: messages are wrapped as JSON-RPC 2.0 notifications, written
 one per line, and read back from a socket that delivers the text in arbitrary
 chunks. JSON.stringify and JSON.parse are a codec given from outside.
*/
module Framing {
  import opened Options
  import opened Sequences

  /** A parsed JSON value; numbers and arrays are not looked into. */
  datatype Json = Null | Text(s: string) | Atom(id: int) | Obj(fields: map<string, Json>)

  // ----- the envelope (jsonrpc.ts) --------------------------------------------------

  function Field(o: map<string, Json>, key: string): Option<Json> {
    if key in o then Some(o[key]) else None
  }

  /** The ?? operator: undefined and null fall through. */
  function OrElse(v: Option<Json>, default: Json): Json {
    if v.None? || v.value == Null then default else v.value
  }

  function WrapNotification(data: map<string, Json>): map<string, Json> {
    var params := data - {"type"};
    var msg := map["jsonrpc" := Text("2.0"), "method" := OrElse(Field(data, "type"), Text("unknown"))];
    if params != map[] then msg["params" := Obj(params)] else msg
  }

  function UnwrapMessage(raw: map<string, Json>): map<string, Json> {
    var params := OrElse(Field(raw, "params"), Obj(map[]));
    map["type" := OrElse(Field(raw, "method"), Text("unknown"))] + if params.Obj? then params.fields else map[]
  }

  predicate IsJsonRpc(raw: map<string, Json>) {
    Field(raw, "jsonrpc") == Some(Text("2.0"))
  }

  /** The envelope names the version, the type as the method, and carries everything else as params, if there is anything. */
  lemma EnvelopeIs(data: map<string, Json>)
    requires "type" in data && data["type"] != Null
    ensures var msg, rest := WrapNotification(data), map k | k in data && k != "type" :: data[k];
      && Field(msg, "jsonrpc") == Some(Text("2.0")) && Field(msg, "method") == Some(data["type"])
      && msg - {"jsonrpc", "method"} == if rest == map[] then map[] else map["params" := Obj(rest)]
  {
    assert data - {"type"} == map k | k in data && k != "type" :: data[k];
  }

  /** Unwrapping undoes wrapping exactly for the messages that have a type. */
  lemma UnwrapInvertsWrapIff(data: map<string, Json>)
    ensures IsJsonRpc(WrapNotification(data))
    ensures UnwrapMessage(WrapNotification(data)) == data <==> "type" in data && data["type"] != Null
  {
    var back := UnwrapMessage(WrapNotification(data));
    var params := data - {"type"};
    assert back == map["type" := OrElse(Field(data, "type"), Text("unknown"))] + params;
    if "type" in data && data["type"] != Null {
      assert back == data;
    } else {
      assert back["type"] == Text("unknown");
    }
  }

  // ----- lines --------------------------------------------------------------------------

  /** buffer.indexOf('\n'), or the length when there is none. */
  function NewlineIndex(text: string): (k: nat)
    ensures k <= |text|
    ensures k < |text| ==> text[k] == '\n'
    ensures forall j :: 0 <= j < k ==> text[j] != '\n'
  {
    if text == "" || text[0] == '\n' then 0 else 1 + NewlineIndex(text[1..])
  }

  /** The complete lines of a text, and what follows its last newline. */
  function Lines(text: string): (seq<string>, string)
    decreases |text|
  {
    var k := NewlineIndex(text);
    if k == |text| then ([], text)
    else
      var (rest, tail) := Lines(text[k + 1..]);
      ([text[..k]] + rest, tail)
  }

  /** The leftover is the text after the last newline. */
  lemma {:induction false} TailIsAfterLastNewline(text: string)
    ensures var tail := Lines(text).1;
      && '\n' !in tail && |tail| <= |text| && text[|text| - |tail|..] == tail
      && (|tail| < |text| ==> text[|text| - |tail| - 1] == '\n')
    decreases |text|
  {
    var k := NewlineIndex(text);
    if k == |text| {
    } else {
      TailIsAfterLastNewline(text[k + 1..]);
    }
  }

  lemma {:induction false} NewlineIndexConcat(a: string, b: string)
    ensures NewlineIndex(a + b) == if NewlineIndex(a) < |a| then NewlineIndex(a) else |a| + NewlineIndex(b)
  {
    if a == "" {
      assert a + b == b;
    } else if a[0] != '\n' {
      assert (a + b)[1..] == a[1..] + b;
      NewlineIndexConcat(a[1..], b);
    }
  }

  /** Reading a then b is reading a, and then b after what a left over. */
  lemma {:induction false} LinesConcat(a: string, b: string)
    ensures Lines(a + b) == (Lines(a).0 + Lines(Lines(a).1 + b).0, Lines(Lines(a).1 + b).1)
    decreases |a|
  {
    hide Lines, NewlineIndex;
    var k := NewlineIndex(a);
    NewlineIndexConcat(a, b);
    if k == |a| {
      NoLineYet(a);
      assert [] + Lines(a + b).0 == Lines(a + b).0;
    } else {
      var rest := a[k + 1..];
      assert (a + b)[..k] == a[..k] && (a + b)[k + 1..] == rest + b;
      LineInFront(a);
      LineInFront(a + b);
      LinesConcat(rest, b);
      Assoc([a[..k]], Lines(rest).0, Lines(Lines(rest).1 + b).0);
    }
  }

  /** The first line comes before those of the rest. */
  lemma {:induction false} LineInFront(text: string)
    requires NewlineIndex(text) < |text|
    ensures var k := NewlineIndex(text);
      Lines(text) == ([text[..k]] + Lines(text[k + 1..]).0, Lines(text[k + 1..]).1)
  {
    hide NewlineIndex;
  }

  lemma {:induction false} NoLineYet(text: string)
    requires NewlineIndex(text) == |text|
    ensures Lines(text) == ([], text)
  {
    hide NewlineIndex;
  }

  // ----- from lines to messages ------------------------------------------------------------

  predicate IsTrimmed(c: char) {
    c == ' ' || '\t' <= c <= '\r' || c == '\U{A0}' || c == '\U{1680}' || '\U{2000}' <= c <= '\U{200A}'
    || c == '\U{2028}' || c == '\U{2029}' || c == '\U{202F}' || c == '\U{205F}' || c == '\U{3000}' || c == '\U{FEFF}'
  }

  function TrimLeft(s: string): string {
    if s != "" && IsTrimmed(s[0]) then TrimLeft(s[1..]) else s
  }

  function TrimRight(s: string): string {
    if s != "" && IsTrimmed(s[|s| - 1]) then TrimRight(s[..|s| - 1]) else s
  }

  function Trim(s: string): string {
    TrimRight(TrimLeft(s))
  }

  /** What one line delivers: nothing for a blank line, a parse error, or null (reading a field of it throws). */
  function Deliver(line: string, parse: string -> Option<Json>): seq<Json> {
    var t := Trim(line);
    if t == "" || parse(t).None? || parse(t).value.Null? then []
    else if parse(t).value.Obj? && IsJsonRpc(parse(t).value.fields) then [Obj(UnwrapMessage(parse(t).value.fields))]
    else [parse(t).value]
  }

  predicate AllTrimmed(s: string) {
    forall k :: 0 <= k < |s| ==> IsTrimmed(s[k])
  }

  lemma {:induction false} TrimLeftOf(left: string, s: string)
    requires AllTrimmed(left)
    ensures TrimLeft(left + s) == TrimLeft(s)
  {
    if left == "" {
      assert left + s == s;
    } else {
      assert (left + s)[1..] == left[1..] + s;
      TrimLeftOf(left[1..], s);
    }
  }

  lemma {:induction false} TrimRightOf(s: string, right: string)
    requires AllTrimmed(right)
    ensures TrimRight(s + right) == TrimRight(s)
    decreases |right|
  {
    if right == "" {
      assert s + right == s;
    } else {
      assert (s + right)[..|s + right| - 1] == s + right[..|right| - 1];
      TrimRightOf(s, right[..|right| - 1]);
    }
  }

  /** Whitespace around a line does not matter, a carriage return before the newline included; a blank line delivers nothing. */
  lemma PaddingDoesNotMatter(left: string, line: string, right: string, parse: string -> Option<Json>)
    requires AllTrimmed(left) && AllTrimmed(right)
    requires line != "" && !IsTrimmed(line[0]) && !IsTrimmed(line[|line| - 1])
    ensures Deliver(left + (line + right), parse) == Deliver(line, parse)
    ensures Deliver(left, parse) == []
    ensures Deliver(line, parse) ==
      if parse(line) == None || parse(line) == Some(Null) then []
      else
        var v := parse(line).value;
        if v.Obj? && Field(v.fields, "jsonrpc") == Some(Text("2.0")) then [Obj(UnwrapMessage(v.fields))] else [v]
  {
    TrimLeftOf(left, line + right);
    TrimRightOf(line, right);
    TrimLeftOf(left, "");
    assert left + "" == left;
    assert (line + right)[0] == line[0];
  }

  function DeliverAll(lines: seq<string>, parse: string -> Option<Json>): seq<Json> {
    if lines == [] then [] else Deliver(lines[0], parse) + DeliverAll(lines[1..], parse)
  }

  lemma {:induction false} DeliverConcat(a: seq<string>, b: seq<string>, parse: string -> Option<Json>)
    ensures DeliverAll(a + b, parse) == DeliverAll(a, parse) + DeliverAll(b, parse)
  {
    if a == [] {
      assert a + b == b;
    } else {
      assert (a + b)[1..] == a[1..] + b;
      DeliverConcat(a[1..], b, parse);
    }
  }

  // ----- the receiver ------------------------------------------------------------------------

  class Receiver {
    const parse: string -> Option<Json>
    var socketBuffer: string
    /** Messages fired so far, and whether onConnected fired. */
    var fired: seq<Json>
    var connected: bool
    /** All text received so far. */
    ghost var received: string

    constructor (parse: string -> Option<Json>)
      ensures this.parse == parse && Valid() && received == "" && fired == []
    {
      this.parse := parse;
      socketBuffer, fired, connected, received := "", [], false, "";
    }

    /** The buffer is the text after the last newline, and every complete line was delivered. */
    ghost predicate Valid()
      reads this
    {
      && socketBuffer == Lines(received).1
      && fired == DeliverAll(Lines(received).0, parse)
      && (connected <==> fired != [])
    }

    method OnData(chunk: string)
      requires Valid()
      modifies this
      ensures Valid() && received == old(received) + chunk
    {
      hide DeliverAll, Deliver, Lines;
      ghost var whole := DeliverAll(Lines(received + chunk).0, parse);
      OneMoreChunk(received, chunk, parse);
      socketBuffer := socketBuffer + chunk;
      received := received + chunk;
      while true
        invariant received == old(received) + chunk
        invariant fired + DeliverAll(Lines(socketBuffer).0, parse) == whole
        invariant Lines(socketBuffer).1 == Lines(received).1
        invariant connected <==> fired != []
        decreases |socketBuffer|
      {
        var newlineIdx := NewlineIndex(socketBuffer);
        if newlineIdx == |socketBuffer| {
          break;
        }
        var line := socketBuffer[..newlineIdx];
        FirstLine(socketBuffer, parse);
        socketBuffer := socketBuffer[newlineIdx + 1..];
        var messages := Deliver(line, parse);
        Assoc(fired, messages, DeliverAll(Lines(socketBuffer).0, parse));
        if messages != [] {
          connected := true;
        }
        fired := fired + messages;
      }
      NoLineLeft(socketBuffer, parse);
    }
  }

  lemma OneMoreChunk(received: string, chunk: string, parse: string -> Option<Json>)
    ensures DeliverAll(Lines(received).0, parse) + DeliverAll(Lines(Lines(received).1 + chunk).0, parse)
      == DeliverAll(Lines(received + chunk).0, parse)
    ensures Lines(Lines(received).1 + chunk).1 == Lines(received + chunk).1
  {
    hide DeliverAll, Lines;
    LinesConcat(received, chunk);
    DeliverConcat(Lines(received).0, Lines(Lines(received).1 + chunk).0, parse);
  }

  lemma NoLineLeft(text: string, parse: string -> Option<Json>)
    requires NewlineIndex(text) == |text|
    ensures Lines(text) == ([], text) && DeliverAll([], parse) == []
  {
  }

  lemma FirstLine(text: string, parse: string -> Option<Json>)
    requires NewlineIndex(text) < |text|
    ensures var k := NewlineIndex(text);
      && DeliverAll(Lines(text).0, parse) == Deliver(text[..k], parse) + DeliverAll(Lines(text[k + 1..]).0, parse)
      && Lines(text).1 == Lines(text[k + 1..]).1
  {
    hide Deliver;
    var k := NewlineIndex(text);
    var lines := Lines(text).0;
    assert lines[0] == text[..k] && lines[1..] == Lines(text[k + 1..]).0;
  }

  // ----- the round trip ------------------------------------------------------------------------

  /** What send writes for one message. */
  function Written(m: map<string, Json>, stringify: map<string, Json> -> string): string {
    stringify(WrapNotification(m)) + "\n"
  }

  function Stream(ms: seq<map<string, Json>>, stringify: map<string, Json> -> string): string {
    if ms == [] then "" else Stream(ms[..|ms| - 1], stringify) + Written(ms[|ms| - 1], stringify)
  }

  function Joined(chunks: seq<string>): string {
    if chunks == [] then "" else Joined(chunks[..|chunks| - 1]) + chunks[|chunks| - 1]
  }

  /** A JSON codec: one line per object, braces at both ends, parsed back to the same object. */
  ghost predicate IsCodec(stringify: map<string, Json> -> string, parse: string -> Option<Json>) {
    forall o {:trigger stringify(o)} ::
      && parse(stringify(o)) == Some(Obj(o))
      && |stringify(o)| >= 2 && stringify(o)[0] == '{' && stringify(o)[|stringify(o)| - 1] == '}'
      && '\n' !in stringify(o)
  }

  lemma NoNewline(text: string)
    requires '\n' !in text
    ensures NewlineIndex(text) == |text|
  {
    assert forall j :: 0 <= j < |text| ==> text[j] in text;
  }

  lemma LineOf(m: map<string, Json>, stringify: map<string, Json> -> string, parse: string -> Option<Json>)
    requires IsCodec(stringify, parse) && "type" in m && m["type"] != Null
    ensures Lines(Written(m, stringify)) == ([stringify(WrapNotification(m))], "")
    ensures Deliver(stringify(WrapNotification(m)), parse) == [Obj(m)]
  {
    var line := stringify(WrapNotification(m));
    NoNewline(line);
    NewlineIndexConcat(line, "\n");
    var text := line + "\n";
    assert NewlineIndex("\n") == 0;
    assert text[..|line|] == line && text[|line| + 1..] == "";
    assert Lines("") == ([], "");
    assert [line] + [] == [line];
    assert Lines(text) == ([text[..|line|]] + Lines(text[|line| + 1..]).0, Lines(text[|line| + 1..]).1);
    UnwrapInvertsWrapIff(m);
  }

  /** The messages as the other side should fire them. */
  function Sent(ms: seq<map<string, Json>>): seq<Json> {
    if ms == [] then [] else Sent(ms[..|ms| - 1]) + [Obj(ms[|ms| - 1])]
  }

  ghost predicate AllTyped(ms: seq<map<string, Json>>) {
    forall i :: 0 <= i < |ms| ==> "type" in ms[i] && ms[i]["type"] != Null
  }

  lemma {:induction false} StreamDelivers(ms: seq<map<string, Json>>, stringify: map<string, Json> -> string, parse: string -> Option<Json>)
    requires IsCodec(stringify, parse) && AllTyped(ms)
    ensures Lines(Stream(ms, stringify)).1 == ""
    ensures DeliverAll(Lines(Stream(ms, stringify)).0, parse) == Sent(ms)
  {
    hide IsCodec, Lines, DeliverAll, Written;
    if ms == [] {
      NoLineLeft("", parse);
    } else {
      var init, last := ms[..|ms| - 1], ms[|ms| - 1];
      StreamDelivers(init, stringify, parse);
      LineOf(last, stringify, parse);
      OneMoreChunk(Stream(init, stringify), Written(last, stringify), parse);
      assert "" + Written(last, stringify) == Written(last, stringify);
      OneLine(stringify(WrapNotification(last)), parse);
    }
  }

  lemma OneLine(line: string, parse: string -> Option<Json>)
    ensures DeliverAll([line], parse) == Deliver(line, parse)
  {
    assert [line][1..] == [];
  }

  /**
   For every message sequence and every way of cutting the stream into chunks,
   the receiver fires exactly the messages sent and keeps nothing back.
  */
  method ReceiveAll(ms: seq<map<string, Json>>, chunks: seq<string>, stringify: map<string, Json> -> string, parse: string -> Option<Json>)
    returns (fired: seq<Json>, left: string)
    requires IsCodec(stringify, parse) && AllTyped(ms)
    requires Joined(chunks) == Stream(ms, stringify)
    ensures fired == Sent(ms) && left == ""
  {
    var receiver := new Receiver(parse);
    for i := 0 to |chunks|
      invariant receiver.Valid() && receiver.received == Joined(chunks[..i]) && receiver.parse == parse
      invariant fresh(receiver)
    {
      assert chunks[..i + 1][..i] == chunks[..i];
      receiver.OnData(chunks[i]);
    }
    assert chunks[..|chunks|] == chunks;
    StreamDelivers(ms, stringify, parse);
    fired, left := receiver.fired, receiver.socketBuffer;
  }
}
