/**
 The retry controller: argument normalisation, and the tracker's sets, counters
 and history against the log of everything that was reported to it. A signature
 is taken to determine the tool and the normalised arguments it is made from.
*/
module Retry {
  import opened Options

  /** An argument value: a string, or any other JSON value, which is never normalised; len() gives its size or raises. */
  datatype Arg = Str(s: string) | Other(json: string, size: Option<nat>)

  type Args = map<string, Arg>

  datatype Rule = CollapseWhitespace | NormalizePath | Strip | Keep

  /** NORMALIZE_FIELDS */
  function RuleFor(tool: string, key: string): Rule {
    if tool == "run_command" && key == "command" then CollapseWhitespace
    else if tool in {"read_file", "write_file", "edit_file"} && key == "file_path" then NormalizePath
    else if tool == "list_directory" && key == "path" then NormalizePath
    else if tool == "search_code" && key == "pattern" then Strip
    else Keep
  }

  /** str.isspace, which is also what \s matches and strip() removes. */
  predicate IsSpace(c: char) {
    || '\t' <= c <= '\r' || '\U{1C}' <= c <= ' ' || c == '\U{85}' || c == '\U{A0}' || c == '\U{1680}'
    || '\U{2000}' <= c <= '\U{200A}' || '\U{2028}' <= c <= '\U{2029}' || c == '\U{202F}' || c == '\U{205F}' || c == '\U{3000}'
  }

  predicate IsSlash(c: char) {
    c == '\\' || c == '/'
  }

  function LeftStrip(s: string): (r: string)
    ensures r != "" ==> !IsSpace(r[0])
  {
    if s != "" && IsSpace(s[0]) then LeftStrip(s[1..]) else s
  }

  function RightStrip(s: string): (r: string)
    ensures r != "" ==> !IsSpace(r[|r| - 1])
  {
    if s != "" && IsSpace(s[|s| - 1]) then RightStrip(s[..|s| - 1]) else s
  }

  function Stripped(s: string): string {
    RightStrip(LeftStrip(s))
  }

  /** re.sub of every run of characters of the class by one c. */
  function Squeeze(s: string, inClass: char -> bool, c: char): string {
    if s == "" then ""
    else if !inClass(s[0]) then [s[0]] + Squeeze(s[1..], inClass, c)
    else if |s| > 1 && inClass(s[1]) then Squeeze(s[1..], inClass, c)
    else [c] + Squeeze(s[1..], inClass, c)
  }

  function NormalizeString(rule: Rule, s: string): string {
    match rule
    case CollapseWhitespace => Squeeze(Stripped(s), IsSpace, ' ')
    case NormalizePath => Squeeze(Stripped(s), IsSlash, '/')
    case Strip => Stripped(s)
    case Keep => s
  }

  function NormalizeArg(rule: Rule, a: Arg): Arg {
    if a.Str? then Str(NormalizeString(rule, a.s)) else a
  }

  function NormalizeArgs(tool: string, args: Args): Args {
    map key | key in args :: NormalizeArg(RuleFor(tool, key), args[key])
  }

  // ----- normalisation is idempotent ----------------------------------------------------

  /** Squeezing keeps the ends outside the class and turns the others into c. */
  lemma {:induction false} SqueezeEnds(s: string, inClass: char -> bool, c: char)
    requires inClass(c)
    ensures var r := Squeeze(s, inClass, c);
      && (r == "" <==> s == "")
      && (s != "" ==> r[0] == (if inClass(s[0]) then c else s[0]))
      && (s != "" ==> r[|r| - 1] == (if inClass(s[|s| - 1]) then c else s[|s| - 1]))
  {
    if s == "" {
    } else {
      SqueezeEnds(s[1..], inClass, c);
    }
  }

  /** No two characters of the class are next to each other, and those there are, are c. */
  ghost predicate IsSqueezed(r: string, inClass: char -> bool, c: char) {
    && (forall i :: 0 <= i < |r| && inClass(r[i]) ==> r[i] == c)
    && (forall i :: 0 < i < |r| ==> !(inClass(r[i - 1]) && inClass(r[i])))
  }

  lemma {:induction false} SqueezeSqueezes(s: string, inClass: char -> bool, c: char)
    requires inClass(c)
    ensures IsSqueezed(Squeeze(s, inClass, c), inClass, c)
  {
    if s == "" {
    } else {
      SqueezeSqueezes(s[1..], inClass, c);
      SqueezeEnds(s[1..], inClass, c);
      if !inClass(s[0]) || !(|s| > 1 && inClass(s[1])) {
        hide IsSqueezed;
        FirstSqueezed(if inClass(s[0]) then c else s[0], Squeeze(s[1..], inClass, c), inClass, c);
      }
    }
  }

  lemma FirstSqueezed(first: char, rest: string, inClass: char -> bool, c: char)
    requires IsSqueezed(rest, inClass, c)
    requires inClass(first) ==> first == c && (rest != "" ==> !inClass(rest[0]))
    ensures IsSqueezed([first] + rest, inClass, c)
  {
    var r := [first] + rest;
    forall i | 0 < i < |r|
      ensures !(inClass(r[i - 1]) && inClass(r[i]))
    {
      if i > 1 {
        assert r[i] == rest[i - 1] && r[i - 1] == rest[i - 2];
      }
    }
  }

  lemma {:induction false} SqueezedStays(r: string, inClass: char -> bool, c: char)
    requires IsSqueezed(r, inClass, c)
    ensures Squeeze(r, inClass, c) == r
  {
    if r == "" {
    } else {
      assert IsSqueezed(r[1..], inClass, c) by {
        forall i | 0 < i < |r[1..]|
          ensures !(inClass(r[1..][i - 1]) && inClass(r[1..][i]))
        {
          assert r[1..][i] == r[i + 1] && r[1..][i - 1] == r[i];
        }
      }
      SqueezedStays(r[1..], inClass, c);
      assert r == [r[0]] + r[1..];
      if |r| > 1 {
        assert !(inClass(r[0]) && inClass(r[1]));
      }
    }
  }

  lemma {:induction false} StripEnds(s: string)
    ensures var r := Stripped(s); r != "" ==> !IsSpace(r[0]) && !IsSpace(r[|r| - 1])
  {
    RightStripKeepsHead(LeftStrip(s));
  }

  lemma {:induction false} RightStripKeepsHead(s: string)
    ensures RightStrip(s) <= s
  {
    if s == "" || !IsSpace(s[|s| - 1]) {
    } else {
      RightStripKeepsHead(s[..|s| - 1]);
    }
  }

  lemma StrippedStays(s: string)
    requires s != "" ==> !IsSpace(s[0]) && !IsSpace(s[|s| - 1])
    ensures Stripped(s) == s
  {
  }

  lemma NormalizeStringTwice(rule: Rule, s: string)
    ensures NormalizeString(rule, NormalizeString(rule, s)) == NormalizeString(rule, s)
  {
    var t := Stripped(s);
    StripEnds(s);
    StrippedStays(t);
    var inClass, c := if rule == NormalizePath then IsSlash else IsSpace, if rule == NormalizePath then '/' else ' ';
    var r := Squeeze(t, inClass, c);
    SqueezeEnds(t, inClass, c);
    SqueezeSqueezes(t, inClass, c);
    SqueezedStays(r, inClass, c);
    StrippedStays(r);
  }

  /** Normalising twice is normalising once, for every tool and all arguments. */
  lemma NormalizeArgsIsIdempotent(tool: string, args: Args)
    ensures NormalizeArgs(tool, NormalizeArgs(tool, args)) == NormalizeArgs(tool, args)
  {
    var once := NormalizeArgs(tool, args);
    forall key | key in args
      ensures NormalizeArg(RuleFor(tool, key), once[key]) == once[key]
    {
      if args[key].Str? {
        NormalizeStringTwice(RuleFor(tool, key), args[key].s);
      }
    }
  }

  // ----- what normalisation keeps: the words ----------------------------------------------

  predicate AllIn(s: string, inClass: char -> bool) {
    forall i :: 0 <= i < |s| ==> inClass(s[i])
  }

  /** The maximal runs of characters outside the class, as s.split() gives them for whitespace. */
  function Words(s: string, inClass: char -> bool): (r: seq<string>)
    ensures s != "" && !inClass(s[0]) ==> r != []
  {
    if s == "" then []
    else
      var rest := Words(s[1..], inClass);
      if inClass(s[0]) then rest
      else if |s| == 1 || inClass(s[1]) then [[s[0]]] + rest
      else [[s[0]] + rest[0]] + rest[1..]
  }

  function Join(words: seq<string>, c: char): string {
    if words == [] then "" else if |words| == 1 then words[0] else words[0] + [c] + Join(words[1..], c)
  }

  function Lead(s: string, inClass: char -> bool, c: char): string {
    if s != "" && inClass(s[0]) then [c] else ""
  }

  function Trail(s: string, inClass: char -> bool, c: char): string {
    if Words(s, inClass) != [] && s != "" && inClass(s[|s| - 1]) then [c] else ""
  }

  lemma {:induction false} NoWordsIff(s: string, inClass: char -> bool)
    ensures Words(s, inClass) == [] <==> AllIn(s, inClass)
  {
    if s == "" {
    } else {
      NoWordsIff(s[1..], inClass);
      assert AllIn(s, inClass) <==> inClass(s[0]) && AllIn(s[1..], inClass) by {
        assert s == [s[0]] + s[1..];
      }
    }
  }

  ghost predicate IsJoined(s: string, inClass: char -> bool, c: char) {
    Squeeze(s, inClass, c) == Lead(s, inClass, c) + (Join(Words(s, inClass), c) + Trail(s, inClass, c))
  }

  /** Squeezing joins the words by c, and keeps one c for a run at either end. */
  lemma {:induction false} SqueezeIsJoin(s: string, inClass: char -> bool, c: char)
    ensures IsJoined(s, inClass, c)
  {
    if s == "" {
    } else {
      SqueezeIsJoin(s[1..], inClass, c);
      NoWordsIff(s[1..], inClass);
      TrailOfRest(s, inClass, c);
      hide AllIn, Trail, IsJoined;
      if inClass(s[0]) {
        ClassInFront(s, inClass, c);
      } else if |s| > 1 && !inClass(s[1]) {
        LongerWord(s, inClass, c);
      } else {
        NewWord(s, inClass, c);
      }
    }
  }

  lemma ClassInFront(s: string, inClass: char -> bool, c: char)
    requires s != "" && inClass(s[0]) && IsJoined(s[1..], inClass, c)
    requires Words(s[1..], inClass) != [] ==> Trail(s, inClass, c) == Trail(s[1..], inClass, c)
    requires Words(s[1..], inClass) == [] ==> Trail(s, inClass, c) == Trail(s[1..], inClass, c) == ""
    ensures IsJoined(s, inClass, c)
  {
    hide Trail, Join;
  }

  lemma LongerWord(s: string, inClass: char -> bool, c: char)
    requires |s| > 1 && !inClass(s[0]) && !inClass(s[1]) && IsJoined(s[1..], inClass, c)
    requires Trail(s, inClass, c) == Trail(s[1..], inClass, c)
    ensures IsJoined(s, inClass, c)
  {
    var rest, trail := Words(s[1..], inClass), Trail(s, inClass, c);
    JoinLonger(s[0], rest, c);
    hide Trail, Join;
    assert Squeeze(s[1..], inClass, c) == Join(rest, c) + trail;
    assert [s[0]] + (Join(rest, c) + trail) == ([s[0]] + Join(rest, c)) + trail;
  }

  lemma NewWord(s: string, inClass: char -> bool, c: char)
    requires s != "" && !inClass(s[0]) && (|s| > 1 ==> inClass(s[1])) && IsJoined(s[1..], inClass, c)
    requires var rest := Words(s[1..], inClass);
      if rest != [] then Trail(s, inClass, c) == Trail(s[1..], inClass, c)
      else Trail(s[1..], inClass, c) == "" && Trail(s, inClass, c) == if |s| > 1 then [c] else ""
    ensures IsJoined(s, inClass, c)
  {
    var rest := Words(s[1..], inClass);
    WordUnrolled(s, inClass, c);
    JoinWordInFront([s[0]], rest, c);
    JoinNothing(c);
    hide Trail, Join, Squeeze, Words, Lead;
    if rest != [] {
      Glue([s[0]], [c], Join(rest, c), Trail(s, inClass, c));
    } else {
      assert Squeeze(s, inClass, c) == [s[0]] + Lead(s[1..], inClass, c);
    }
  }

  lemma WordUnrolled(s: string, inClass: char -> bool, c: char)
    requires s != "" && !inClass(s[0]) && (|s| > 1 ==> inClass(s[1]))
    ensures Words(s, inClass) == [[s[0]]] + Words(s[1..], inClass)
    ensures Squeeze(s, inClass, c) == [s[0]] + Squeeze(s[1..], inClass, c)
    ensures Lead(s, inClass, c) == ""
    ensures Lead(s[1..], inClass, c) == if |s| > 1 then [c] else ""
    ensures Words(s[1..], inClass) != [] ==> |s| > 1
  {
  }

  lemma Glue(word: string, sep: string, joined: string, trail: string)
    ensures word + (sep + (joined + trail)) == (word + sep + joined) + trail
  {
  }

  lemma JoinNothing(c: char)
    ensures Join([], c) == ""
  {
  }

  /** The end of a longer string, and what the first word adds when the rest has none. */
  lemma TrailOfRest(s: string, inClass: char -> bool, c: char)
    requires s != ""
    ensures var rest := Words(s[1..], inClass);
      && (rest != [] ==> Trail(s, inClass, c) == Trail(s[1..], inClass, c))
      && (rest == [] ==> Trail(s[1..], inClass, c) == "")
      && (rest == [] && !inClass(s[0]) ==> Trail(s, inClass, c) == if |s| > 1 then [c] else "")
      && (rest == [] && inClass(s[0]) ==> Trail(s, inClass, c) == "")
  {
    NoWordsIff(s[1..], inClass);
    assert |s| > 1 ==> s[1..][|s| - 2] == s[|s| - 1];
  }

  lemma JoinWordInFront(word: string, rest: seq<string>, c: char)
    ensures Join([word] + rest, c) == if rest == [] then word else word + [c] + Join(rest, c)
  {
    assert ([word] + rest)[1..] == rest;
  }

  lemma JoinLonger(first: char, rest: seq<string>, c: char)
    requires rest != []
    ensures Join([[first] + rest[0]] + rest[1..], c) == [first] + Join(rest, c)
  {
    var w := [[first] + rest[0]] + rest[1..];
    if |rest| > 1 {
      assert w[1..] == rest[1..];
      assert [first] + rest[0] + [c] + Join(rest[1..], c) == [first] + (rest[0] + [c] + Join(rest[1..], c));
    }
  }

  lemma {:induction false} SqueezeKeepsWords(s: string, inClass: char -> bool, c: char)
    requires inClass(c)
    ensures Words(Squeeze(s, inClass, c), inClass) == Words(s, inClass)
  {
    if s == "" {
    } else {
      var r, rest := Squeeze(s, inClass, c), Squeeze(s[1..], inClass, c);
      SqueezeKeepsWords(s[1..], inClass, c);
      SqueezeEnds(s[1..], inClass, c);
      if !(inClass(s[0]) && |s| > 1 && inClass(s[1])) {
        assert r[1..] == rest;
      }
    }
  }

  lemma {:induction false} LeftStripKeepsWords(s: string)
    ensures Words(LeftStrip(s), IsSpace) == Words(s, IsSpace)
  {
    if s == "" || !IsSpace(s[0]) {
    } else {
      LeftStripKeepsWords(s[1..]);
    }
  }

  lemma {:induction false} SpaceAtEnd(s: string, x: char)
    requires IsSpace(x)
    ensures Words(s + [x], IsSpace) == Words(s, IsSpace)
  {
    if s == "" {
      assert (s + [x])[1..] == "";
    } else {
      SpaceAtEnd(s[1..], x);
      assert (s + [x])[1..] == s[1..] + [x];
      assert (s + [x])[1] == if |s| > 1 then s[1] else x;
    }
  }

  lemma {:induction false} RightStripKeepsWords(s: string)
    ensures Words(RightStrip(s), IsSpace) == Words(s, IsSpace)
  {
    if s == "" || !IsSpace(s[|s| - 1]) {
    } else {
      var front := s[..|s| - 1];
      RightStripKeepsWords(front);
      SpaceAtEnd(front, s[|s| - 1]);
      assert s == front + [s[|s| - 1]];
    }
  }

  /** A normalised command is its whitespace-separated words with one space between them. */
  lemma NormalizedCommandIsItsWords(s: string)
    ensures NormalizeString(CollapseWhitespace, s) == Join(Words(s, IsSpace), ' ')
  {
    var t := Stripped(s);
    LeftStripKeepsWords(s);
    RightStripKeepsWords(LeftStrip(s));
    StripEnds(s);
    SqueezeIsJoin(t, IsSpace, ' ');
  }

  /** Two commands are taken for the same call exactly when they have the same words. */
  lemma SameCommandIffSameWords(s: string, t: string)
    ensures NormalizeString(CollapseWhitespace, s) == NormalizeString(CollapseWhitespace, t) <==> Words(s, IsSpace) == Words(t, IsSpace)
  {
    NormalizedCommandIsItsWords(s);
    NormalizedCommandIsItsWords(t);
    forall u | u == s || u == t
      ensures Words(NormalizeString(CollapseWhitespace, u), IsSpace) == Words(u, IsSpace)
    {
      LeftStripKeepsWords(u);
      RightStripKeepsWords(LeftStrip(u));
      SqueezeKeepsWords(Stripped(u), IsSpace, ' ');
    }
  }

  /** A normalised path is its parts with one slash between them, and one for slashes at either end. */
  lemma NormalizedPathIsItsParts(s: string)
    ensures var t := Stripped(s);
      NormalizeString(NormalizePath, s) == Lead(t, IsSlash, '/') + (Join(Words(t, IsSlash), '/') + Trail(t, IsSlash, '/'))
  {
    SqueezeIsJoin(Stripped(s), IsSlash, '/');
  }

  // ----- wiggling the whitespace of a command ---------------------------------------------

  lemma {:induction false} LeftStripConcat(a: string, t: string)
    ensures LeftStrip(a + t) == if AllIn(a, IsSpace) then LeftStrip(t) else LeftStrip(a) + t
  {
    if a == "" {
      assert a + t == t;
    } else if IsSpace(a[0]) {
      assert (a + t)[1..] == a[1..] + t;
      LeftStripConcat(a[1..], t);
      assert AllIn(a, IsSpace) <==> AllIn(a[1..], IsSpace) by {
        if AllIn(a[1..], IsSpace) {
          forall i | 0 <= i < |a| ensures IsSpace(a[i]) { assert i > 0 ==> a[i] == a[1..][i - 1]; }
        }
      }
    }
  }

  lemma {:induction false} RightStripConcat(t: string, b: string)
    ensures RightStrip(t + b) == if AllIn(b, IsSpace) then RightStrip(t) else t + RightStrip(b)
  {
    if b == "" {
      assert t + b == t;
    } else if IsSpace(b[|b| - 1]) {
      var front := b[..|b| - 1];
      assert (t + b)[..|t + b| - 1] == t + front;
      RightStripConcat(t, front);
      assert AllIn(b, IsSpace) <==> AllIn(front, IsSpace);
    } else {
      assert (t + b)[|t + b| - 1] == b[|b| - 1];
    }
  }

  lemma {:induction false} SqueezeRun(x: string, b: string, inClass: char -> bool, c: char)
    requires x != "" && AllIn(x, inClass)
    ensures Squeeze(x + b, inClass, c) == if b != "" && inClass(b[0]) then Squeeze(b, inClass, c) else [c] + Squeeze(b, inClass, c)
  {
    assert (x + b)[1..] == x[1..] + b;
    if |x| > 1 {
      assert AllIn(x[1..], inClass);
      SqueezeRun(x[1..], b, inClass, c);
      assert (x + b)[1] == x[1];
    } else {
      assert x[1..] + b == b;
    }
  }

  lemma {:induction false} RunsSqueezeAlike(a: string, x: string, y: string, b: string, inClass: char -> bool, c: char)
    requires x != "" && y != "" && AllIn(x, inClass) && AllIn(y, inClass)
    ensures Squeeze(a + (x + b), inClass, c) == Squeeze(a + (y + b), inClass, c)
  {
    if a == "" {
      assert a + (x + b) == x + b && a + (y + b) == y + b;
      SqueezeRun(x, b, inClass, c);
      SqueezeRun(y, b, inClass, c);
    } else {
      RunsSqueezeAlike(a[1..], x, y, b, inClass, c);
      assert (a + (x + b))[1..] == a[1..] + (x + b) && (a + (y + b))[1..] == a[1..] + (y + b);
      if |a| == 1 {
        assert (a + (x + b))[1] == x[0] && (a + (y + b))[1] == y[0];
      } else {
        assert (a + (x + b))[1] == a[1] && (a + (y + b))[1] == a[1];
      }
    }
  }

  lemma StrippedConcat(a: string, x: string, b: string)
    requires AllIn(x, IsSpace)
    ensures Stripped(a + (x + b)) ==
            if AllIn(a, IsSpace) then Stripped(b)
            else if AllIn(b, IsSpace) then RightStrip(LeftStrip(a))
            else LeftStrip(a) + (x + RightStrip(b))
  {
    LeftStripConcat(a, x + b);
    LeftStripConcat(x, b);
    if !AllIn(a, IsSpace) {
      RightStripConcat(LeftStrip(a), x + b);
      RightStripConcat(x, b);
      if AllIn(b, IsSpace) {
        assert AllIn(x + b, IsSpace);
      } else {
        var i :| 0 <= i < |b| && !IsSpace(b[i]);
        assert (x + b)[|x| + i] == b[i];
      }
    }
  }

  /**
   What becomes of each argument: a command is its words, the path of the file
   tools and of list_directory its parts, the pattern of search_code loses its
   outer whitespace, and everything else counts as it is.
  */
  lemma NormalizedArgumentIs(tool: string, args: Args, key: string)
    requires key in args
    ensures var normal := NormalizeArgs(tool, args);
      && normal.Keys == args.Keys
      && normal[key] ==
         if args[key].Other? then args[key]
         else
           var s := args[key].s;
           var t := Stripped(s);
           if (tool, key) == ("run_command", "command") then Str(Join(Words(s, IsSpace), ' '))
           else if (tool, key) in {("read_file", "file_path"), ("write_file", "file_path"), ("edit_file", "file_path"), ("list_directory", "path")}
           then Str(Lead(t, IsSlash, '/') + (Join(Words(t, IsSlash), '/') + Trail(t, IsSlash, '/')))
           else if (tool, key) == ("search_code", "pattern") then Str(t)
           else args[key]
  {
    if args[key].Str? {
      NormalizedCommandIsItsWords(args[key].s);
      NormalizedPathIsItsParts(args[key].s);
    }
    hide Squeeze, Stripped, Lead, Trail, Join, Words;
  }

  /** Stripping takes exactly the whitespace at the two ends off. */
  lemma StrippedIs(s: string) returns (left: string, right: string)
    ensures s == left + (Stripped(s) + right) && AllIn(left, IsSpace) && AllIn(right, IsSpace)
    ensures var t := Stripped(s); t != "" ==> !IsSpace(t[0]) && !IsSpace(t[|t| - 1])
  {
    left := LeftCut(s);
    var rest := LeftStrip(s);
    right := RightCut(rest);
    StripEnds(s);
    hide LeftStrip, RightStrip;
    assert rest == Stripped(s) + right;
  }

  lemma {:induction false} LeftCut(s: string) returns (left: string)
    ensures s == left + LeftStrip(s) && AllIn(left, IsSpace)
  {
    if s == "" || !IsSpace(s[0]) {
      left := "";
    } else {
      var rest := LeftCut(s[1..]);
      left := [s[0]] + rest;
      assert s == [s[0]] + s[1..];
    }
  }

  lemma {:induction false} RightCut(s: string) returns (right: string)
    ensures s == RightStrip(s) + right && AllIn(right, IsSpace)
  {
    if s == "" || !IsSpace(s[|s| - 1]) {
      right := "";
    } else {
      var rest := RightCut(s[..|s| - 1]);
      right := rest + [s[|s| - 1]];
      assert s == s[..|s| - 1] + [s[|s| - 1]];
    }
  }

  /** Exchanging a run of whitespace in a command for any other, anywhere, is still the same call. */
  lemma WhitespaceDoesNotMatter(args: Args, a: string, x: string, y: string, b: string)
    requires x != "" && y != "" && AllIn(x, IsSpace) && AllIn(y, IsSpace)
    ensures NormalizeArgs("run_command", args["command" := Str(a + (x + b))])
         == NormalizeArgs("run_command", args["command" := Str(a + (y + b))])
  {
    StrippedConcat(a, x, b);
    StrippedConcat(a, y, b);
    RunsSqueezeAlike(LeftStrip(a), x, y, RightStrip(b), IsSpace, ' ');
  }

  // ----- the tracker and the log of its calls ------------------------------------------------

  datatype Approach = Approach(tool: string, summary: string, error: string, result: string)

  /** What the model is told about a failed call. */
  datatype ErrorContext = ErrorContext(
    error: string, tool: string, args: Args, message: string, exitCode: Option<int>,
    stdoutTail: Option<string>, stderrTail: Option<string>, workingDir: Option<string>,
    attemptNumber: nat, previousAttempts: seq<Approach>)

  /** Everything reported to the tracker, oldest first. */
  datatype Event =
    | Failure(tool: string, args: Args, error: string, message: string)
    | ResetTool(tool: string)
    | ResetAllTools
    | Reset

  type Signature = (string, Args)

  function SignatureOf(tool: string, args: Args): Signature {
    (tool, NormalizeArgs(tool, args))
  }

  function Take<T>(s: seq<T>, n: nat): seq<T> {
    if |s| <= n then s else s[..n]
  }

  function Last<T>(s: seq<T>, n: nat): seq<T> {
    if |s| <= n then s else s[|s| - n..]
  }

  function Shown(a: Arg): string {
    if a.Str? then a.s else a.json
  }

  /** The first fifty characters. A longer list or dict raises as well, since no text can be added to it. */
  function Preview(a: Arg): Option<string> {
    match a
    case Str(s) => Some(if |s| > 50 then s[..50] + "..." else s)
    case Other(json, size) => if size.Some? && size.value <= 50 then Some(json) else None
  }

  /** The summary of the arguments; None: it raises, as len() of the command does. */
  function KeyArgs(tool: string, args: Args): Option<string> {
    if tool == "run_command" && "command" in args then
      var preview := Preview(args["command"]);
      if preview.Some? then Some(tool + "(cmd=\"" + preview.value + "\")") else None
    else if "file_path" in args then Some(tool + "(path=\"" + Shown(args["file_path"]) + "\")")
    else if "path" in args then Some(tool + "(path=\"" + Shown(args["path"]) + "\")")
    else Some(tool)
  }

  /** The last 500 characters of an output; None when there is none. */
  function Tail(output: Option<string>): Option<string> {
    if output.Some? && output.value != "" then Some(Last(output.value, 500)) else None
  }

  predicate IsSummarised(e: Event) {
    e.Failure? && KeyArgs(e.tool, e.args).Some?
  }

  function ApproachOf(e: Event): Approach
    requires IsSummarised(e)
  {
    Approach(e.tool, KeyArgs(e.tool, e.args).value, e.error, Take(e.message, 100))
  }

  /** What is remembered of a failure: its message cut off after a hundred characters, a command after fifty. */
  lemma ApproachIs(e: Event)
    requires IsSummarised(e)
    ensures var a := ApproachOf(e);
      && a.tool == e.tool && a.error == e.error
      && a.result <= e.message && |a.result| == (if |e.message| < 100 then |e.message| else 100)
    ensures e.tool == "run_command" && "command" in e.args && e.args["command"].Str? ==>
      var command := e.args["command"].s;
      ApproachOf(e).summary == "run_command(cmd=\"" + (if |command| <= 50 then command else command[..50] + "...") + "\")"
    ensures !(e.tool == "run_command" && "command" in e.args) ==>
      ApproachOf(e).summary ==
      if "file_path" in e.args then e.tool + "(path=\"" + Shown(e.args["file_path"]) + "\")"
      else if "path" in e.args then e.tool + "(path=\"" + Shown(e.args["path"]) + "\")"
      else e.tool
  {
  }

  /** A tail is the end of the output, 500 characters long if there are as many. */
  lemma TailIs(output: string)
    requires output != ""
    ensures var tail := Tail(Some(output));
      tail.Some? && |tail.value| == (if |output| < 500 then |output| else 500) && output[|output| - |tail.value|..] == tail.value
  {
  }

  /** The failures since the last full reset that have a summary. */
  function Approaches(log: seq<Event>): seq<Approach> {
    if log == [] then []
    else
      var last := log[|log| - 1];
      if last.Reset? then []
      else Approaches(log[..|log| - 1]) + if IsSummarised(last) then [ApproachOf(last)] else []
  }

  /** All failures since the last full reset. */
  function Failures(log: seq<Event>): nat {
    if log == [] then 0
    else
      var last := log[|log| - 1];
      if last.Reset? then 0 else Failures(log[..|log| - 1]) + if last.Failure? then 1 else 0
  }

  /** A failure of the same tool with the same normalised arguments, no full reset after it. */
  ghost predicate FailedBefore(log: seq<Event>, tool: string, args: Args) {
    exists i :: IsSuchFailure(log, i, tool, args) && NoResetAfter(log, i)
  }

  predicate IsSuchFailure(log: seq<Event>, i: nat, tool: string, args: Args) {
    i < |log| && log[i].Failure? && log[i].tool == tool && NormalizeArgs(tool, log[i].args) == NormalizeArgs(tool, args)
  }

  predicate NoResetAfter(log: seq<Event>, i: nat) {
    forall j :: i < j < |log| ==> !log[j].Reset?
  }

  predicate ClearsTool(e: Event, tool: string) {
    e.Reset? || e.ResetAllTools? || (e.ResetTool? && e.tool == tool)
  }

  /** Failures of this tool with this error since the tool's counters were last cleared. */
  function AttemptsSince(log: seq<Event>, tool: string, error: string): nat {
    if log == [] then 0
    else
      var last := log[|log| - 1];
      if ClearsTool(last, tool) then 0
      else AttemptsSince(log[..|log| - 1], tool, error) + if last.Failure? && last.tool == tool && last.error == error then 1 else 0
  }

  /** What the set of signatures should hold. */
  function FailedSignatures(log: seq<Event>): set<Signature> {
    if log == [] then {}
    else
      var last := log[|log| - 1];
      if last.Reset? then {}
      else FailedSignatures(log[..|log| - 1]) + if last.Failure? then {SignatureOf(last.tool, last.args)} else {}
  }

  /** A call is reported as repeated exactly when such a failure is in the log; partial resets do not matter. */
  lemma {:induction false} RepeatedIffFailedBefore(log: seq<Event>, tool: string, args: Args)
    ensures SignatureOf(tool, args) in FailedSignatures(log) <==> FailedBefore(log, tool, args)
  {
    if log == [] {
    } else {
      var front, last := log[..|log| - 1], log[|log| - 1];
      RepeatedIffFailedBefore(front, tool, args);
      hide NormalizeArgs;
      if FailedBefore(log, tool, args) {
        var i: nat :| IsSuchFailure(log, i, tool, args) && NoResetAfter(log, i);
        if i < |front| {
          assert IsSuchFailure(front, i, tool, args) && NoResetAfter(front, i);
          assert !log[|log| - 1].Reset?;
        }
      }
      if !last.Reset? && FailedBefore(front, tool, args) {
        var i: nat :| IsSuchFailure(front, i, tool, args) && NoResetAfter(front, i);
        assert IsSuchFailure(log, i, tool, args) && NoResetAfter(log, i);
      }
      if IsSuchFailure(log, |front|, tool, args) {
        assert NoResetAfter(log, |front|);
      }
    }
  }

  /** Appending one event to the log. */
  lemma OneMoreEvent(log: seq<Event>, e: Event)
    ensures (log + [e])[..|log + [e]| - 1] == log && (log + [e])[|log + [e]| - 1] == e
  {
  }

  type Counts = map<(string, string), nat>

  ghost predicate CountsAttempts(counts: Counts, log: seq<Event>) {
    forall tool, error :: CountOf(counts, tool, error) == AttemptsSince(log, tool, error)
  }

  function CountOf(counts: Counts, tool: string, error: string): nat {
    if (tool, error) in counts then counts[(tool, error)] else 0
  }

  lemma CountOneMore(counts: Counts, log: seq<Event>, e: Event)
    requires CountsAttempts(counts, log) && e.Failure?
    ensures CountsAttempts(counts[(e.tool, e.error) := CountOf(counts, e.tool, e.error) + 1], log + [e])
  {
    OneMoreEvent(log, e);
    var more := counts[(e.tool, e.error) := CountOf(counts, e.tool, e.error) + 1];
    forall tool, error
      ensures CountOf(more, tool, error) == AttemptsSince(log + [e], tool, error)
    {
      assert CountOf(counts, tool, error) == AttemptsSince(log, tool, error);
      assert (tool, error) == (e.tool, e.error) <==> tool == e.tool && error == e.error;
    }
  }

  lemma CountCleared(counts: Counts, left: Counts, log: seq<Event>, e: Event)
    requires CountsAttempts(counts, log) && !e.Failure?
    requires forall k :: k in left <==> k in counts && !ClearsTool(e, k.0)
    requires forall k :: k in left ==> left[k] == counts[k]
    ensures CountsAttempts(left, log + [e])
  {
    OneMoreEvent(log, e);
    forall tool, error
      ensures CountOf(left, tool, error) == AttemptsSince(log + [e], tool, error)
    {
      assert CountOf(counts, tool, error) == AttemptsSince(log, tool, error);
      assert (tool, error) in left <==> (tool, error) in counts && !ClearsTool(e, tool);
    }
  }

  lemma LastOneMore(log: seq<Event>, history: seq<Approach>, e: Event)
    requires history == Last(Approaches(log), 10) && e.Failure?
    ensures Last(Lengthened(history, e), 10) == Last(Approaches(log + [e]), 10)
    ensures Last(Last(Lengthened(history, e), 10), 3) == Last(Approaches(log + [e]), 3)
    ensures Failures(log + [e]) == Failures(log) + 1
    ensures FailedSignatures(log + [e]) == FailedSignatures(log) + {SignatureOf(e.tool, e.args)}
  {
    OneMoreEvent(log, e);
    assert Approaches(log + [e]) == Lengthened(Approaches(log), e);
  }

  function Lengthened(history: seq<Approach>, e: Event): seq<Approach> {
    if IsSummarised(e) then history + [ApproachOf(e)] else history
  }

  /** The tracker's fields hold what the log says. */
  ghost predicate Tracks(failed: set<Signature>, counts: Counts, history: seq<Approach>, total: nat, log: seq<Event>) {
    && failed == FailedSignatures(log)
    && CountsAttempts(counts, log)
    && history == Last(Approaches(log), 10)
    && total == Failures(log)
  }

  function Counted(counts: Counts, tool: string, error: string): Counts {
    counts[(tool, error) := CountOf(counts, tool, error) + 1]
  }

  /** The history after a failure. */
  function Recent(history: seq<Approach>, e: Event): seq<Approach> {
    Last(Lengthened(history, e), 10)
  }

  lemma Recorded(failed: set<Signature>, counts: Counts, history: seq<Approach>, total: nat, log: seq<Event>, e: Event)
    requires Tracks(failed, counts, history, total, log) && e.Failure?
    ensures var recent := Recent(history, e);
      && Tracks(failed + {SignatureOf(e.tool, e.args)}, Counted(counts, e.tool, e.error), recent, total + 1, log + [e])
      && |recent| <= 10 && Last(recent, 3) == Last(Approaches(log + [e]), 3)
      && Counted(counts, e.tool, e.error)[(e.tool, e.error)] == AttemptsSince(log + [e], e.tool, e.error) > 0
    ensures var summary := KeyArgs(e.tool, e.args);
      Recent(history, e) ==
      if summary.None? then history else Last(history + [Approach(e.tool, summary.value, e.error, Take(e.message, 100))], 10)
  {
    CountOneMore(counts, log, e);
    LastOneMore(log, history, e);
    AttemptIs(Counted(counts, e.tool, e.error), log, e);
    LastIsShort(Approaches(log));
    hide SignatureOf, CountsAttempts, Approaches, Failures, FailedSignatures, AttemptsSince, KeyArgs;
  }

  lemma LastIsShort(history: seq<Approach>)
    ensures |Last(history, 10)| <= 10
  {
  }

  class ErrorRecoveryTracker {
    var failed: set<Signature>
    var counts: Counts
    var history: seq<Approach>
    var total: nat
    ghost var log: seq<Event>

    ghost predicate Valid()
      reads this
    {
      Tracks(failed, counts, history, total, log)
    }

    constructor ()
      ensures Valid() && log == []
    {
      failed, counts, history, total, log := {}, map[], [], 0, [];
    }

    /** summary None: the call raises instead of answering. */
    method IsRepeatedFailedCall(tool: string, args: Args) returns (isRepeat: bool, summary: Option<string>)
      requires Valid()
      ensures isRepeat <==> FailedBefore(log, tool, args)
      ensures summary == if isRepeat then KeyArgs(tool, args) else Some("")
    {
      RepeatedIffFailedBefore(log, tool, args);
      isRepeat := SignatureOf(tool, args) in failed;
      summary := if isRepeat then KeyArgs(tool, args) else Some("");
    }

    /** The history, capped at ten. */
    method Remember(a: Approach)
      modifies this`history
      ensures history == Last(old(history) + [a], 10)
    {
      history := history + [a];
      if |history| > 10 {
        history := history[|history| - 10..];
      }
    }

    /** None: the summary raises, after the signature and the counters have been updated. */
    method RecordFailure(error: string, tool: string, args: Args, message: string, exitCode: Option<int>,
                         stdout: Option<string>, stderr: Option<string>, workingDir: Option<string>)
      returns (context: Option<ErrorContext>)
      requires Valid()
      modifies this
      ensures Valid() && log == old(log) + [Failure(tool, args, error, message)]
      ensures |history| <= 10
      ensures context.None? <==> KeyArgs(tool, args).None?
      ensures context.Some? ==>
        context.value == ErrorContext(error, tool, args, message, exitCode, Tail(stdout), Tail(stderr), workingDir,
                                      AttemptsSince(log, tool, error), Last(Approaches(log), 3))
      ensures AttemptsSince(log, tool, error) > 0
    {
      ghost var e := Failure(tool, args, error, message);
      Recorded(failed, counts, history, total, log, e);
      hide Tracks, SignatureOf, AttemptsSince, Approaches, KeyArgs, Tail, Take, Last, Recent, FailedBefore, NormalizeArgs;
      failed := failed + {SignatureOf(tool, args)};
      counts := counts[(tool, error) := CountOf(counts, tool, error) + 1];
      total := total + 1;
      log := log + [e];
      var summary := KeyArgs(tool, args);
      if summary.None? {
        return None;
      }
      Remember(Approach(tool, summary.value, error, Take(message, 100)));
      return Some(ErrorContext(error, tool, args, message, exitCode, Tail(stdout), Tail(stderr), workingDir,
                               counts[(tool, error)], Last(history, 3)));
    }

    /** tool None clears every counter; total, signatures and history stay. */
    method ResetToolErrorCounts(tool: Option<string>)
      requires Valid()
      modifies this
      ensures Valid() && log == old(log) + [if tool.Some? then ResetTool(tool.value) else ResetAllTools]
      ensures failed == old(failed) && total == old(total) && history == old(history)
    {
      ghost var e := if tool.Some? then ResetTool(tool.value) else ResetAllTools;
      OneMoreEvent(log, e);
      ghost var was := counts;
      if tool.None? {
        counts := map[];
      } else {
        var left := set k | k in counts && k.0 == tool.value;
        while left != {}
          invariant forall k :: k in left ==> k in counts && k.0 == tool.value
          invariant forall k :: k in counts <==> k in was && (k.0 == tool.value ==> k in left)
          invariant forall k :: k in counts ==> counts[k] == was[k]
          invariant failed == old(failed) && total == old(total) && history == old(history) && log == old(log)
          decreases left
        {
          var k :| k in left;
          left := left - {k};
          counts := counts - {k};
        }
      }
      CountCleared(was, counts, log, e);
      log := log + [e];
    }

    method ResetForRequest()
      requires Valid()
      modifies this
      ensures Valid() && log == old(log) + [Reset]
      ensures failed == {} && counts == map[] && history == [] && total == 0
    {
      OneMoreEvent(log, Reset);
      CountCleared(counts, map[], log, Reset);
      failed, counts, history, total := {}, map[], [], 0;
      log := log + [Reset];
    }
  }

  lemma AttemptIs(counts: Counts, log: seq<Event>, e: Event)
    requires e.Failure? && CountsAttempts(counts, log + [e])
    ensures CountOf(counts, e.tool, e.error) == AttemptsSince(log + [e], e.tool, e.error) > 0
  {
    OneMoreEvent(log, e);
  }
}
