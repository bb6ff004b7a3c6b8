/** The two parsers for dotted JSON paths such as `user.items[0].name`. */
module Paths {

  import opened Strings

  const BRACKETS := {'[', ']'}

  // ---------- Rendering ----------

  /** One step of a path: an object key, or an array selector in brackets. */
  datatype Part = Name(name: string) | Bracket(inner: string) {
    function Text(): string {
      match this
      case Name(s) => s
      case Bracket(s) => "[" + s + "]"
    }

    predicate Plain() {
      match this
      case Name(s) => s != "" && '.' !in s && '[' !in s
      case Bracket(s) => '[' !in s && ']' !in s
    }
  }

  predicate AllPlain(parts: seq<Part>) {
    forall i :: 0 <= i < |parts| ==> parts[i].Plain()
  }

  function Texts(parts: seq<Part>): seq<string> {
    if parts == [] then [] else [parts[0].Text()] + Texts(parts[1..])
  }

  /** Names after the first step are set off by a dot; brackets follow directly. */
  function Render(parts: seq<Part>, first: bool): string {
    if parts == [] then "" else Lead(parts[0], first) + (parts[0].Text() + Render(parts[1..], false))
  }

  function Lead(part: Part, first: bool): string {
    if part.Name? && !first then "." else ""
  }

  /** A rendering is the text of the first part and the rendering of the rest, after a dot if need be. */
  lemma RenderStep(parts: seq<Part>, first: bool)
    requires parts != [] && AllPlain(parts)
    ensures parts[0].Plain() && AllPlain(parts[1..])
    ensures var r := parts[0].Text() + Render(parts[1..], false);
            Render(parts, first) == if parts[0].Name? && !first then "." + r else r
  {
    var r := parts[0].Text() + Render(parts[1..], false);
    assert "" + r == r;
  }

  // ---------- splitJSONPath ----------

  /** The parts `done`, and `current` with them unless nothing has been collected. */
  function Push(done: seq<string>, current: string): seq<string> {
    if current == "" then done else done + [current]
  }

  /** All parts of a path of which `done` have been read, `current` has been collected and `s` is left to read. */
  function SplitFrom(s: string, current: string, done: seq<string>): seq<string>
    decreases |s|
  {
    if s == "" then Push(done, current)
    else if s[0] == '.' then SplitFrom(s[1..], "", Push(done, current))
    else if s[0] == '[' then
      var j := IndexOf(s, ']');
      if j < |s| then SplitFrom(s[j + 1..], "", Push(done, current) + [s[..j + 1]])
      else SplitFrom(s[1..], "", Push(done, current))
    else SplitFrom(s[1..], current + [s[0]], done)
  }

  function Split(path: string): seq<string> {
    SplitFrom(path, "", [])
  }

  /** The scan over the path with an index and a builder. */
  method SplitJsonPath(path: string) returns (parts: seq<string>)
    ensures parts == Split(path)
  {
    parts := [];
    var current := "";
    var i := 0;
    assert path[0..] == path;
    while i < |path|
      invariant i <= |path|
      invariant SplitFrom(path[i..], current, parts) == Split(path)
    {
      hide SplitFrom, IndexOf;
      var ch := path[i];
      SplitStep(path, i, current, parts);
      if ch == '.' {
        parts, current, i := Push(parts, current), "", i + 1;
      } else if ch == '[' {
        parts, current := Push(parts, current), "";
        var j := FindBracket(path, i);
        if j < |path| {
          parts, i := parts + [path[i..j + 1]], j;
        }
        i := i + 1;
      } else {
        current, i := current + [ch], i + 1;
      }
    }
    parts := Push(parts, current);
  }

  /** One unfolding of `SplitFrom`, in positions of the whole path. */
  lemma SplitStep(path: string, i: nat, current: string, done: seq<string>)
    requires i < |path|
    ensures path[i] == '.' ==> SplitFrom(path[i..], current, done) == SplitFrom(path[i + 1..], "", Push(done, current))
    ensures path[i] == '[' ==>
              var j := i + IndexOf(path[i..], ']');
              SplitFrom(path[i..], current, done) ==
              if j < |path| then SplitFrom(path[j + 1..], "", Push(done, current) + [path[i..j + 1]])
              else SplitFrom(path[i + 1..], "", Push(done, current))
    ensures path[i] != '.' && path[i] != '[' ==>
              SplitFrom(path[i..], current, done) == SplitFrom(path[i + 1..], current + [path[i]], done)
  {
    assert path[i..][1..] == path[i + 1..];
    if path[i] == '[' {
      var n := IndexOf(path[i..], ']');
      if n < |path[i..]| {
        assert path[i..][..n + 1] == path[i..i + n + 1] && path[i..][n + 1..] == path[i + n + 1..];
      }
    }
  }

  /** The position of the first closing bracket after `i`, or the length of the path. */
  method FindBracket(path: string, i: nat) returns (j: nat)
    requires i < |path| && path[i] == '['
    ensures i < j && j == i + IndexOf(path[i..], ']')
  {
    j := i + 1;
    while j < |path| && path[j] != ']'
      invariant i < j <= |path|
      invariant forall k :: i <= k < j ==> path[k] != ']'
    {
      j := j + 1;
    }
    IndexOfIs(path[i..], ']', j - i);
  }

  lemma {:induction false} SplitName(name: string, rest: string, current: string, done: seq<string>)
    requires '.' !in name && '[' !in name
    ensures SplitFrom(name + rest, current, done) == SplitFrom(rest, current + name, done)
  {
    if name == "" {
      assert name + rest == rest && current + name == current;
    } else {
      assert (name + rest)[1..] == name[1..] + rest;
      SplitName(name[1..], rest, current + [name[0]], done);
      assert current + [name[0]] + name[1..] == current + name;
    }
  }

  lemma SplitBracket(inner: string, rest: string, current: string, done: seq<string>)
    requires ']' !in inner
    ensures SplitFrom("[" + inner + "]" + rest, current, done) ==
            SplitFrom(rest, "", Push(done, current) + ["[" + inner + "]"])
  {
    var s := "[" + inner + "]" + rest;
    forall k | 0 <= k <= |inner| ensures s[k] != ']' {
      if k > 0 { assert s[k] == inner[k - 1]; }
    }
    IndexOfIs(s, ']', |inner| + 1);
    assert s[..|inner| + 2] == "[" + inner + "]" && s[|inner| + 2..] == rest;
  }

  lemma SplitDot(rest: string, current: string, done: seq<string>)
    ensures SplitFrom("." + rest, current, done) == SplitFrom(rest, "", Push(done, current))
  {
    assert ("." + rest)[1..] == rest;
  }

  /** A name at the start of what is left becomes what is being collected. */
  lemma SplitNameAfresh(name: string, rest: string, done: seq<string>)
    requires '.' !in name && '[' !in name
    ensures SplitFrom(name + rest, "", done) == SplitFrom(rest, name, done)
  {
    SplitName(name, rest, "", done);
    assert "" + name == name;
  }

  /** Reading one rendered part moves its text to the parts read. */
  lemma SplitPart(parts: seq<Part>, current: string, done: seq<string>)
    requires parts != [] && AllPlain(parts)
    ensures var text, rest, done' := parts[0].Text(), Render(parts[1..], false), Push(done, current);
            SplitFrom(Render(parts, false), current, done) ==
            if parts[0].Name? then SplitFrom(rest, text, done') else SplitFrom(rest, "", done' + [text])
  {
    hide SplitFrom;
    RenderStep(parts, false);
    var text, rest := parts[0].Text(), Render(parts[1..], false);
    if parts[0].Name? {
      SplitDot(text + rest, current, done);
      SplitNameAfresh(text, rest, Push(done, current));
    } else {
      SplitBracket(parts[0].inner, rest, current, done);
    }
  }

  lemma {:induction false} SplitRendered(parts: seq<Part>, current: string, done: seq<string>)
    requires AllPlain(parts)
    ensures SplitFrom(Render(parts, false), current, done) == Push(done, current) + Texts(parts)
    decreases |parts|
  {
    var done' := Push(done, current);
    if parts == [] {
      assert done' + [] == done';
    } else {
      hide SplitFrom, Render;
      SplitPart(parts, current, done);
      var text := parts[0].Text();
      assert parts[0].Plain();
      if parts[0].Name? {
        SplitRendered(parts[1..], text, done');
      } else {
        SplitRendered(parts[1..], "", done' + [text]);
      }
      assert (done' + [text]) + Texts(parts[1..]) == done' + ([text] + Texts(parts[1..]));
    }
  }

  /** Splitting a rendered path gives its parts back. */
  lemma SplitInvertsRender(parts: seq<Part>)
    requires AllPlain(parts)
    ensures Split(Render(parts, true)) == Texts(parts)
  {
    if parts != [] {
      hide SplitFrom;
      RenderStep(parts, true);
      RenderStep(parts, false);
      if parts[0].Name? {
        SplitNameAfresh(parts[0].Text(), Render(parts[1..], false), []);
        SplitRendered(parts[1..], parts[0].Text(), []);
      } else {
        SplitRendered(parts, "", []);
      }
    }
  }

  /** Dots at the start of a path, at its end, or after another dot separate nothing. */
  lemma IdleDots(current: string, done: seq<string>, s: string)
    ensures SplitFrom("." + ("." + s), current, done) == SplitFrom("." + s, current, done)
    ensures Split("." + s) == Split(s)
    ensures SplitFrom(".", current, done) == SplitFrom("", current, done)
  {
    hide SplitFrom;
    SplitDot("." + s, current, done);
    SplitDot(s, "", Push(done, current));
    SplitDot(s, current, done);
    SplitDot(s, "", []);
    SplitDot("", current, done);
    assert "." + "" == ".";
    NothingLeft(current, done);
    NothingLeft("", Push(done, current));
  }

  lemma NothingLeft(current: string, done: seq<string>)
    ensures SplitFrom("", current, done) == Push(done, current)
  {
  }

  /** A bracket that is never closed separates as a dot does. */
  lemma UnclosedBracketSeparates(current: string, done: seq<string>, s: string)
    requires ']' !in s
    ensures SplitFrom("[" + s, current, done) == SplitFrom("." + s, current, done)
  {
    var t := "[" + s;
    forall i | 0 <= i < |t| ensures t[i] != ']' {}
    IndexOfIs(t, ']', |t|);
    assert t[1..] == s;
    SplitDot(s, current, done);
  }

  // ---------- parsePathSegment ----------

  /** How far `s` must be read until `depth` open brackets are closed; None if they never are. */
  function Closing(s: string, depth: int): (n: int)
    ensures n == -1 || 0 <= n < |s|
  {
    if s == "" then -1
    else
      var depth' := if s[0] == '[' then depth + 1 else if s[0] == ']' then depth - 1 else depth;
      if s[0] == ']' && depth' == 0 then 0
      else
        var n := Closing(s[1..], depth');
        if n == -1 then -1 else n + 1
  }

  function TrimDot(s: string): string {
    if s != "" && s[0] == '.' then s[1..] else s
  }

  /** The next segment and what is left after it. */
  function ParseSegment(path: string): (r: (string, string))
    ensures path != "" ==> |r.1| < |path|
  {
    if path == "" then ("", "")
    else if path[0] == '[' then
      var i := Closing(path, 0);
      if i == -1 then (path, "") else (path[..i + 1], TrimDot(path[i + 1..]))
    else
      var dot, bracket := IndexOf(path, '.'), IndexOf(path, '[');
      if dot == |path| && bracket == |path| then (path, "")
      else if dot < bracket then (path[..dot], path[dot + 1..])
      else (path[..bracket], path[bracket..])
  }

  /** The scan for the matching bracket with a depth counter. */
  method FindClosing(path: string) returns (n: int)
    ensures n == Closing(path, 0)
  {
    var depth := 0;
    for i := 0 to |path|
      invariant var m := Closing(path[i..], depth); Closing(path, 0) == if m == -1 then -1 else m + i
    {
      assert path[i..][1..] == path[i + 1..];
      if path[i] == '[' {
        depth := depth + 1;
      } else if path[i] == ']' {
        depth := depth - 1;
        if depth == 0 {
          return i;
        }
      }
    }
    n := -1;
  }

  method ParsePathSegment(path: string) returns (segment: string, rest: string)
    ensures (segment, rest) == ParseSegment(path)
  {
    if path == "" {
      return "", "";
    }
    if path[0] == '[' {
      var i := FindClosing(path);
      if i == -1 {
        return path, "";
      }
      return path[..i + 1], TrimDot(path[i + 1..]);
    }
    var dot, bracket := IndexOf(path, '.'), IndexOf(path, '[');
    if dot == |path| && bracket == |path| {
      return path, "";
    }
    if dot < bracket {
      return path[..dot], path[dot + 1..];
    }
    return path[..bracket], path[bracket..];
  }

  /** Taking segments until nothing is left. */
  function Segments(path: string): seq<string>
    decreases |path|
  {
    if path == "" then [] else [ParseSegment(path).0] + Segments(ParseSegment(path).1)
  }

  lemma {:induction false} ClosingSkips(s: string, rest: string)
    requires '[' !in s && ']' !in s
    ensures Closing(s + "]" + rest, 1) == |s|
  {
    var t := s + "]" + rest;
    if s != "" {
      assert t[1..] == s[1..] + "]" + rest;
      ClosingSkips(s[1..], rest);
    }
  }

  lemma ParseName(name: string, tail: string)
    requires name != "" && '.' !in name && '[' !in name
    requires tail == "" || tail[0] == '.' || tail[0] == '['
    ensures ParseSegment(name + tail) == (name, TrimDot(tail))
  {
    var path := name + tail;
    assert forall i :: 0 <= i < |name| ==> path[i] == name[i] && name[i] in name;
    if tail == "" {
      IndexOfIs(path, '.', |path|);
      IndexOfIs(path, '[', |path|);
      assert path == name;
    } else {
      IndexOfIs(path, tail[0], |name|);
      assert path[|name|..] == tail && path[..|name|] == name && path[|name| + 1..] == tail[1..];
    }
  }

  lemma ParseBracket(inner: string, tail: string)
    requires '[' !in inner && ']' !in inner
    ensures ParseSegment("[" + inner + "]" + tail) == ("[" + inner + "]", TrimDot(tail))
  {
    var path := "[" + inner + "]" + tail;
    assert path[1..] == inner + "]" + tail;
    ClosingSkips(inner, tail);
    assert path[..|inner| + 2] == "[" + inner + "]" && path[|inner| + 2..] == tail;
  }

  lemma {:induction false} ClosingAfter(s: string, rest: string, depth: int)
    requires '[' !in s && ']' !in s
    ensures Closing(s + rest, depth) == if Closing(rest, depth) == -1 then -1 else |s| + Closing(rest, depth)
  {
    if s == "" {
      assert s + rest == rest;
    } else {
      assert (s + rest)[1..] == s[1..] + rest;
      ClosingAfter(s[1..], rest, depth);
    }
  }

  /** A bracket that is never closed takes all of the path. */
  lemma {:induction false} NeverClosed(s: string, depth: nat)
    requires ']' !in s
    ensures Closing(s, depth) == -1
  {
    if s != "" {
      NeverClosed(s[1..], if s[0] == '[' then depth + 1 else depth);
    }
  }

  lemma ParseUnclosed(s: string)
    requires ']' !in s
    ensures ParseSegment("[" + s) == ("[" + s, "")
  {
    NeverClosed("[" + s, 0);
  }

  lemma ClosingStep(c: char, rest: string, depth: int)
    requires c == '[' || c == ']'
    ensures var depth' := if c == '[' then depth + 1 else depth - 1;
            Closing([c] + rest, depth) ==
            if c == ']' && depth' == 0 then 0
            else if Closing(rest, depth') == -1 then -1 else 1 + Closing(rest, depth')
  {
    assert ([c] + rest)[1..] == rest;
  }

  lemma PairCloses(b: string, rest: string, depth: nat)
    requires '[' !in b && ']' !in b && depth > 0
    ensures Closing("[" + (b + ("]" + rest)), depth) ==
            if Closing(rest, depth) == -1 then -1 else |b| + 2 + Closing(rest, depth)
  {
    hide Closing;
    ClosingStep(']', rest, depth + 1);
    ClosingAfter(b, "]" + rest, depth + 1);
    ClosingStep('[', b + ("]" + rest), depth);
  }

  lemma OuterCloses(a: string, rest: string)
    requires '[' !in a && ']' !in a && Closing(rest, 1) != -1
    ensures Closing("[" + (a + rest), 0) == |a| + 1 + Closing(rest, 1)
  {
    hide Closing;
    ClosingAfter(a, rest, 1);
    ClosingStep('[', a + rest, 0);
  }

  lemma NestedCloses(a: string, b: string, c: string, tail: string)
    requires '[' !in a && ']' !in a && '[' !in b && ']' !in b && '[' !in c && ']' !in c
    ensures Closing("[" + (a + ("[" + (b + ("]" + (c + ("]" + tail)))))), 0) == |a| + |b| + |c| + 3
  {
    hide Closing;
    ClosingStep(']', tail, 1);
    ClosingAfter(c, "]" + tail, 1);
    var rest := c + ("]" + tail);
    assert Closing(rest, 1) == |c|;
    PairCloses(b, rest, 1);
    OuterCloses(a, "[" + (b + ("]" + rest)));
  }

  /** Brackets inside brackets belong to the segment. */
  lemma ParseNested(a: string, b: string, c: string, tail: string)
    requires '[' !in a && ']' !in a && '[' !in b && ']' !in b && '[' !in c && ']' !in c
    ensures var segment := "[" + (a + ("[" + (b + ("]" + (c + "]")))));
            ParseSegment(segment + tail) == (segment, TrimDot(tail))
  {
    hide TrimDot, Closing;
    NestedCloses(a, b, c, tail);
    var segment := "[" + (a + ("[" + (b + ("]" + (c + "]")))));
    var path := segment + tail;
    assert path == "[" + (a + ("[" + (b + ("]" + (c + ("]" + tail))))));
    assert path[..|segment|] == segment && path[|segment|..] == tail;
  }

  /** What follows a part starts with a dot or a bracket; without the dot it is a rendering of its own. */
  lemma RenderedTail(parts: seq<Part>)
    requires AllPlain(parts)
    ensures var tail := Render(parts, false);
            (tail == "" || tail[0] == '.' || tail[0] == '[') && TrimDot(tail) == Render(parts, true)
  {
    if parts != [] {
      RenderStep(parts, false);
      RenderStep(parts, true);
      var r := parts[0].Text() + Render(parts[1..], false);
      assert ("." + r)[1..] == r;
    }
  }

  /** The first segment of a rendered path is its first part; the rest is the rendering of the other parts. */
  lemma ParseRendered(parts: seq<Part>)
    requires parts != [] && AllPlain(parts)
    ensures Render(parts, true) != ""
    ensures ParseSegment(Render(parts, true)) == (parts[0].Text(), Render(parts[1..], true))
  {
    RenderStep(parts, true);
    RenderedTail(parts[1..]);
    var tail := Render(parts[1..], false);
    match parts[0]
    case Name(s) => ParseName(s, tail);
    case Bracket(s) => ParseBracket(s, tail);
  }

  /** Iterated segment parsing of a rendered path gives its parts back, as splitting does. */
  lemma {:induction false} SegmentsInvertRender(parts: seq<Part>)
    requires AllPlain(parts)
    ensures Segments(Render(parts, true)) == Texts(parts) == Split(Render(parts, true))
    decreases |parts|
  {
    SplitInvertsRender(parts);
    if parts != [] {
      ParseRendered(parts);
      SegmentsInvertRender(parts[1..]);
    }
  }
}
