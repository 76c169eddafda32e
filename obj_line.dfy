/**
 * The `OBJ_LINE` pattern of main.py, written as an explicit scanner.
 *
 *     ^\s*( \{ (?:[^{}\n"]+|"(?:\\.|[^"\\])*")* \} )\s*(?:\n|$)     (DOTALL)
 *
 * The grammar predicates (StrContent, Quoted, Body, TailAt, IsMatch) say what
 * the pattern accepts; the functions (ScanString, ScanBody, LineEnd, Match)
 * say how the regular-expression engine finds its match. Match is proved to
 * return exactly the match the engine returns: the only one for the object
 * span, with the longest end the greedy `\s*` allows.
 */
module ObjLine {
  import opened Json
  import opened PyText

  /** `[^{}\n"]`: a character of a run outside quoted strings. */
  predicate Plain(c: char) {
    c != '{' && c != '}' && c != '\n' && c != '"'
  }

  /** `(?:\\.|[^"\\])*`: the inside of a quoted string. A backslash takes
      whatever character follows it, a newline included. */
  ghost predicate StrContent(t: string)
    decreases |t|
  {
    t == []
    || (t[0] == '\\' && |t| >= 2 && StrContent(t[2..]))
    || (t[0] != '"' && t[0] != '\\' && StrContent(t[1..]))
  }

  /** `"(?:\\.|[^"\\])*"`: one quoted string. */
  ghost predicate Quoted(t: string) {
    |t| >= 2 && t[0] == '"' && t[|t| - 1] == '"' && StrContent(t[1..|t| - 1])
  }

  /** `(?:[^{}\n"]+|"...")*`: runs of plain characters and quoted strings. */
  ghost predicate Body(t: string)
    decreases |t|
  {
    t == []
    || (Plain(t[0]) && Body(t[1..]))
    || (exists k :: 2 <= k <= |t| && Quoted(t[..k]) && Body(t[k..]))
  }

  /** `\s*(?:\n|$)` can match s[b..e]. Without MULTILINE, `$` matches at the
      end of the string and just before a newline that ends it. */
  ghost predicate TailAt(s: string, b: int, e: int) {
    0 <= b <= e <= |s| &&
    ((b < e && s[e - 1] == '\n' && AllSpaceIn(s, b, e - 1))
     || (AllSpaceIn(s, b, e) && (e == |s| || (e == |s| - 1 && s[e] == '\n'))))
  }

  /** OBJ_LINE matches s with `m.group(1) == s[a..b]` and `m.end() == e`. */
  ghost predicate IsMatch(s: string, a: int, b: int, e: int) {
    0 <= a && a + 2 <= b <= e <= |s|
    && AllSpaceIn(s, 0, a) && s[a] == '{' && s[b - 1] == '}'
    && Body(s[a + 1..b - 1]) && TailAt(s, b, e)
  }

  /** From just after an opening quote at i - 1: the position after the
      closing quote, or None when the string is not closed in s. */
  function ScanString(s: string, i: nat): (r: Option<nat>)
    requires i <= |s|
    ensures r.Some? ==> i < r.value <= |s| && s[r.value - 1] == '"'
    decreases |s| - i
  {
    if i == |s| then None
    else if s[i] == '"' then Some(i + 1)
    else if s[i] == '\\' then (if i + 1 < |s| then ScanString(s, i + 2) else None)
    else ScanString(s, i + 1)
  }

  /** What the string scan reads is string content. */
  lemma {:induction false} ScanStringSound(s: string, i: nat, k: nat)
    requires i <= |s| && ScanString(s, i) == Some(k)
    ensures i < k <= |s| && s[k - 1] == '"' && StrContent(s[i..k - 1])
    decreases |s| - i
  {
    if s[i] == '\\' {
      ScanStringSound(s, i + 2, k);
      assert s[i..k - 1][2..] == s[i + 2..k - 1];
    } else if s[i] != '"' {
      ScanStringSound(s, i + 1, k);
      assert s[i..k - 1][1..] == s[i + 1..k - 1];
    }
  }

  /** The string scan is the only way to read a closed string: if
      s[i..k] is string content and s[k] a quote, the scan ends just after k. */
  lemma {:induction false} ScanStringComplete(s: string, i: nat, k: nat)
    requires i <= k < |s| && s[k] == '"' && StrContent(s[i..k])
    ensures ScanString(s, i) == Some(k + 1)
    decreases k - i
  {
    if i < k {
      var t := s[i..k];
      if t[0] == '\\' {
        assert t[2..] == s[i + 2..k];
        ScanStringComplete(s, i + 2, k);
      } else {
        assert t[1..] == s[i + 1..k];
        ScanStringComplete(s, i + 1, k);
      }
    }
  }

  /** Where the body loop stops reading: at the end, at `{`, `}` or a
      newline, or at a quote that opens no closed string. */
  predicate Stops(s: string, j: nat)
    requires j <= |s|
  {
    j == |s| || s[j] == '{' || s[j] == '}' || s[j] == '\n'
    || (s[j] == '"' && ScanString(s, j + 1).None?)
  }

  /** The body loop: from i, the longest stretch of plain runs and closed
      strings. */
  function ScanBody(s: string, i: nat): (j: nat)
    requires i <= |s|
    ensures i <= j <= |s| && Stops(s, j)
    decreases |s| - i
  {
    if i == |s| || s[i] == '{' || s[i] == '}' || s[i] == '\n' then i
    else if s[i] == '"' then
      match ScanString(s, i + 1)
      case None => i
      case Some(k) => ScanBody(s, k)
    else ScanBody(s, i + 1)
  }

  /** What the body scan reads is body text. */
  lemma {:induction false} ScanBodySound(s: string, i: nat)
    requires i <= |s|
    ensures Body(s[i..ScanBody(s, i)])
    decreases |s| - i
  {
    var j := ScanBody(s, i);
    if i == |s| || s[i] == '{' || s[i] == '}' || s[i] == '\n' {
    } else if s[i] == '"' {
      if ScanString(s, i + 1).Some? {
        var k := ScanString(s, i + 1).value;
        ScanBodySound(s, k);
        QuotedThenBody(s, i, k, j);
      }
    } else {
      ScanBodySound(s, i + 1);
      assert s[i..j][1..] == s[i + 1..j];
    }
  }

  /** A string the scan closes at k, followed by body text up to j, is
      body text from i. */
  lemma QuotedThenBody(s: string, i: nat, k: nat, j: nat)
    requires i < |s| && s[i] == '"' && ScanString(s, i + 1) == Some(k)
    requires k <= j <= |s| && Body(s[k..j])
    ensures Body(s[i..j])
  {
    ScanQuoted(s, i, k);
    QuotedBody(s, i, k, j);
  }

  /** What the string scan closes is a quoted string. */
  lemma ScanQuoted(s: string, i: nat, k: nat)
    requires i < |s| && s[i] == '"' && ScanString(s, i + 1) == Some(k)
    ensures i + 2 <= k && Quoted(s[i..k])
  {
    ScanStringSound(s, i + 1, k);
    QuotedSlice(s, i, k);
  }

  lemma QuotedSlice(s: string, i: nat, k: nat)
    requires i + 2 <= k <= |s| && s[i] == '"' && s[k - 1] == '"' && StrContent(s[i + 1..k - 1])
    ensures Quoted(s[i..k])
  {
    SliceOfSlice(s, i, k, 1, k - i - 1);
    var t := s[i..k];
    assert t[0] == s[i] && t[|t| - 1] == s[k - 1];
  }

  /** A quoted string followed by body text is body text. */
  lemma QuotedBody(s: string, i: nat, k: nat, j: nat)
    requires i + 2 <= k <= j <= |s| && Quoted(s[i..k]) && Body(s[k..j])
    ensures Body(s[i..j])
  {
    var t, n := s[i..j], k - i;
    SliceParts(s, i, j, n);
    assert 2 <= n <= |t| && Quoted(t[..n]) && Body(t[n..]);
  }

  /** Body text that starts with a plain character continues as body text. */
  lemma BodyPlainHead(s: string, i: nat, j: nat)
    requires i < j <= |s| && Body(s[i..j]) && Plain(s[i])
    ensures Body(s[i + 1..j])
  {
    assert s[i..j][1..] == s[i + 1..j];
  }

  /** Body text that does not start with a plain character starts with a
      closed string and continues as body text after it. */
  lemma BodyQuotedHead(s: string, i: nat, j: nat)
    requires i < j <= |s| && Body(s[i..j]) && !Plain(s[i])
    ensures exists k :: i + 2 <= k <= j && Quoted(s[i..k]) && Body(s[k..j])
  {
    var t := s[i..j];
    assert t[0] == s[i];
    var k := QuotedHead(t);
    SliceParts(s, i, j, k);
    assert Quoted(s[i..i + k]) && Body(s[i + k..j]);
  }

  /** The grammar's third way to read body text. */
  lemma QuotedHead(t: string) returns (k: nat)
    requires t != [] && Body(t) && !Plain(t[0])
    ensures 2 <= k <= |t| && Quoted(t[..k]) && Body(t[k..])
  {
    k :| 2 <= k <= |t| && Quoted(t[..k]) && Body(t[k..]);
  }

  /** The body is read in one way only: a stretch of the body grammar
      that ends at a stopping point is exactly what the scan reads. */
  lemma {:induction false} ScanBodyComplete(s: string, i: nat, j: nat)
    requires i <= j <= |s| && Body(s[i..j]) && Stops(s, j)
    ensures ScanBody(s, i) == j
    decreases j - i
  {
    if i < j {
      if Plain(s[i]) {
        BodyPlainHead(s, i, j);
        ScanBodyComplete(s, i + 1, j);
      } else {
        BodyQuotedHead(s, i, j);
        var k :| i + 2 <= k <= j && Quoted(s[i..k]) && Body(s[k..j]);
        QuotedSpanSkipped(s, i, k);
        ScanBodyComplete(s, k, j);
      }
    }
  }

  /** A closed string inside the body, braces, newlines and escaped quotes
      in it included, does not end the body: the scan goes right past it. */
  lemma QuotedSpanSkipped(s: string, i: nat, k: nat)
    requires i + 2 <= k <= |s| && Quoted(s[i..k])
    ensures ScanBody(s, i) == ScanBody(s, k)
  {
    QuotedOpens(s, i, k);
  }

  /** A closed string at i opens with a quote that the string scan closes
      at k. */
  lemma QuotedOpens(s: string, i: nat, k: nat)
    requires i + 2 <= k <= |s| && Quoted(s[i..k])
    ensures s[i] == '"' && ScanString(s, i + 1) == Some(k)
  {
    var t := s[i..k];
    assert s[i] == t[0] && s[k - 1] == t[|t| - 1];
    SliceOfSlice(s, i, k, 1, k - i - 1);
    ScanStringComplete(s, i + 1, k - 1);
  }

  /** The last newline in s[b..k], as the position just after it. */
  function LastNewline(s: string, b: nat, k: nat): (r: Option<nat>)
    requires b <= k <= |s|
    ensures r.Some? ==> b < r.value <= k && s[r.value - 1] == '\n'
    ensures r.Some? ==> forall m :: r.value <= m < k ==> s[m] != '\n'
    ensures r.None? ==> forall m :: b <= m < k ==> s[m] != '\n'
    decreases k - b
  {
    if k == b then None
    else if s[k - 1] == '\n' then Some(k)
    else LastNewline(s, b, k - 1)
  }

  /** `\s*(?:\n|$)` at b, as the engine runs it: the greedy `\s*` takes the
      whole whitespace run and gives characters back until `\n` or `$`
      matches. The result is the longest end the tail can match. */
  function LineEnd(s: string, b: nat): (r: Option<nat>)
    requires b <= |s|
    ensures r.Some? ==> b <= r.value <= |s|
  {
    var q := SkipSpace(s, b);
    if q == |s| then Some(|s|) else LastNewline(s, b, q)
  }

  /** What the tail scan finds is a match of the tail. */
  lemma LineEndSound(s: string, b: nat)
    requires b <= |s| && LineEnd(s, b).Some?
    ensures TailAt(s, b, LineEnd(s, b).value)
  {
  }

  /** The tail scan finds the longest match of the tail, and finds one
      whenever there is one. */
  lemma LineEndLongest(s: string, b: nat, e: int)
    requires b <= |s| && TailAt(s, b, e)
    ensures LineEnd(s, b).Some? && e <= LineEnd(s, b).value
  {
    TailSpace(s, b, e);
    SpaceRunBound(s, b, e);
  }

  /** The match the pattern finds at the start of s: group(1) is
      s[start..stop], m.end() is end. */
  datatype Frame = Frame(start: nat, stop: nat, end: nat)

  /** `OBJ_LINE.match(s)`. Every result is a match of the pattern, and
      its end is the longest any match of that object span can have. */
  function Match(s: string): (r: Option<Frame>)
    ensures r.Some? ==> r.value.start + 2 <= r.value.stop <= r.value.end <= |s|
  {
    var a := SkipSpace(s, 0);
    if a == |s| || s[a] != '{' then None
    else
      var j := ScanBody(s, a + 1);
      if j == |s| || s[j] != '}' then None
      else
        match LineEnd(s, j + 1)
        case None => None
        case Some(e) => Some(Frame(a, j + 1, e))
  }

  /** Every match found is a match of the pattern, and its end is the
      longest any match of that object span can have. */
  lemma MatchSound(s: string)
    requires Match(s).Some?
    ensures IsMatch(s, Match(s).value.start, Match(s).value.stop, Match(s).value.end)
    ensures forall e :: IsMatch(s, Match(s).value.start, Match(s).value.stop, e) ==> e <= Match(s).value.end
  {
    var a := SkipSpace(s, 0);
    ScanBodySound(s, a + 1);
    LineEndSound(s, Match(s).value.stop);
    forall e | IsMatch(s, Match(s).value.start, Match(s).value.stop, e)
      ensures e <= Match(s).value.end
    {
      LineEndLongest(s, Match(s).value.stop, e);
    }
  }

  /** Whenever the pattern can match s at all, Match finds it: the object
      span is the same and no match ends later. */
  lemma MatchComplete(s: string, a: int, b: int, e: int)
    requires IsMatch(s, a, b, e)
    ensures Match(s).Some?
    ensures Match(s).value.start == a && Match(s).value.stop == b && e <= Match(s).value.end
  {
    SpaceRunBound(s, 0, a);
    ScanBodyComplete(s, a + 1, b - 1);
    LineEndLongest(s, b, e);
  }

  /** Both ways of matching the tail cover whitespace only. */
  lemma TailSpace(s: string, b: int, e: int)
    requires TailAt(s, b, e)
    ensures AllSpaceIn(s, b, e)
  {
    if !AllSpaceIn(s, b, e) {
      assert IsSpace(s[e - 1]);
    }
  }

  /** Growing the buffer does not move the object span of a match: the
      engine finds the same object in p + r as in p. */
  lemma MatchPrefix(p: string, r: string)
    requires Match(p).Some? && Match(p + r).Some?
    ensures Match(p + r).value.start == Match(p).value.start
    ensures Match(p + r).value.stop == Match(p).value.stop
  {
    MatchSound(p);
    var a, b := Match(p).value.start, Match(p).value.stop;
    ObjectLifts(p, r, a, b);
    ObjectAt(p + r, a, b);
  }

  /** A `{`, body, `}` after leading whitespace is still there once the
      buffer grows. */
  lemma ObjectLifts(p: string, r: string, a: nat, b: nat)
    requires a + 2 <= b <= |p| && AllSpaceIn(p, 0, a) && p[a] == '{' && p[b - 1] == '}'
    requires Body(p[a + 1..b - 1])
    ensures var u := p + r;
      AllSpaceIn(u, 0, a) && u[a] == '{' && u[b - 1] == '}' && Body(u[a + 1..b - 1])
  {
    var u := p + r;
    assert u[a + 1..b - 1] == p[a + 1..b - 1];
    assert forall m :: 0 <= m < a ==> u[m] == p[m];
  }

  /** A `{`, body, `}` after leading whitespace is where the scans put the
      object. */
  lemma ObjectAt(u: string, a: nat, b: nat)
    requires a + 2 <= b <= |u| && AllSpaceIn(u, 0, a) && u[a] == '{' && u[b - 1] == '}'
    requires Body(u[a + 1..b - 1])
    ensures SkipSpace(u, 0) == a && ScanBody(u, a + 1) == b - 1
    ensures Match(u).Some? ==> Match(u).value.start == a && Match(u).value.stop == b
  {
    SpaceRunBound(u, 0, a);
    ScanBodyComplete(u, a + 1, b - 1);
  }

  /** The buffer pieces the `while m := OBJ_LINE.match(buf)` loop takes:
      the object texts `m.group(1)` in order, and the buffer left behind. */
  datatype Drained = Drained(objects: seq<string>, rest: string)

  /** Running the loop to its end. What is left is a suffix of the buffer,
      and it does not match, so the loop stops there. */
  function Frames(s: string): (r: Drained)
    ensures Match(r.rest).None?
    decreases |s|
  {
    match Match(s)
    case None => Drained([], s)
    case Some(f) =>
      var t := Frames(s[f.end..]);
      Drained([s[f.start..f.stop]] + t.objects, t.rest)
  }

  /** One turn of the loop: the object the match spans, then whatever the
      rest of the buffer yields. */
  lemma FramesStep(s: string, f: Frame)
    requires Match(s) == Some(f)
    ensures Frames(s).objects == [s[f.start..f.stop]] + Frames(s[f.end..]).objects
    ensures Frames(s).rest == Frames(s[f.end..]).rest
  {
  }

  /** Two buffers whose first matches take the same object and leave the
      same remainder yield the same objects. */
  lemma FramesAgree(s: string, t: string, f: Frame, g: Frame)
    requires Match(s) == Some(f) && Match(t) == Some(g)
    requires s[f.start..f.stop] == t[g.start..g.stop] && s[f.end..] == t[g.end..]
    ensures Frames(s).objects == Frames(t).objects
  {
    FramesStep(s, f);
    FramesStep(t, g);
  }

  /** The buffer always holds exactly the unconsumed tail of what it held:
      each match cuts `buf[m.end():]`, and a match cuts at least the
      two braces, so the buffer strictly shrinks while the loop runs. */
  lemma {:induction false} FramesRestIsSuffix(s: string) returns (k: nat)
    ensures k <= |s| && Frames(s).rest == s[k..]
    decreases |s|
  {
    var m := Match(s);
    if m.None? {
      k := 0;
      RestUnmatched(s);
    } else {
      var k' := FramesRestIsSuffix(s[m.value.end..]);
      k := RestMatched(s, m.value, k');
    }
  }

  lemma RestUnmatched(s: string)
    requires Match(s).None?
    ensures Frames(s).rest == s[0..]
  {
    assert s[0..] == s;
  }

  lemma RestMatched(s: string, f: Frame, k': nat) returns (k: nat)
    requires Match(s) == Some(f) && k' <= |s| - f.end && Frames(s[f.end..]).rest == s[f.end..][k'..]
    ensures k == f.end + k' && k <= |s| && Frames(s).rest == s[k..]
  {
    FramesStep(s, f);
    DropDrop(s, f.end, k');
    k := f.end + k';
  }

  /** Matching is anchored at the start of the buffer: text other than `{`
      after the leading whitespace (a preamble line, say) is never matched,
      so nothing is ever taken off this buffer however it grows. */
  lemma PreambleBlocks(p: string, r: string)
    requires SkipSpace(p, 0) < |p| && p[SkipSpace(p, 0)] != '{'
    ensures Frames(p + r) == Drained([], p + r)
  {
    var u, a := p + r, SkipSpace(p, 0);
    assert u[a] == p[a] && !IsSpace(u[a]);
    assert AllSpaceIn(u, 0, a);
    SpaceRunBound(u, 0, a);
    assert SkipSpace(u, 0) == a;
  }

  /** A `{` (a nested object) or a newline outside the strings of the
      object at the front blocks the buffer for good. */
  lemma StrayCharBlocks(p: string, r: string, a: nat, j: nat)
    requires a < j < |p| && AllSpaceIn(p, 0, a) && p[a] == '{'
    requires Body(p[a + 1..j]) && (p[j] == '{' || p[j] == '\n')
    ensures Frames(p + r) == Drained([], p + r)
  {
    var u := p + r;
    assert u[a] == '{' && u[j] == p[j];
    assert u[a + 1..j] == p[a + 1..j];
    assert AllSpaceIn(u, 0, a);
    SpaceRunBound(u, 0, a);
    assert SkipSpace(u, 0) == a;
    ScanBodyComplete(u, a + 1, j);
  }

  /** Text after the object's `}` on the same line blocks the buffer for
      good: the tail finds no newline before it. */
  lemma TrailingTextBlocks(p: string, r: string, a: nat, b: nat, k: nat)
    requires a + 2 <= b <= k < |p| && AllSpaceIn(p, 0, a) && p[a] == '{' && p[b - 1] == '}'
    requires Body(p[a + 1..b - 1])
    requires AllSpaceIn(p, b, k) && !IsSpace(p[k]) && forall m :: b <= m < k ==> p[m] != '\n'
    ensures Frames(p + r) == Drained([], p + r)
  {
    ObjectLifts(p, r, a, b);
    ObjectAt(p + r, a, b);
    TailBlocked(p, r, b, k);
    NoTail(p + r, a, b);
  }

  /** Non-space text before any newline after the `}` leaves the tail
      nothing to match, however the buffer grows. */
  lemma TailBlocked(p: string, r: string, b: nat, k: nat)
    requires b <= k < |p| && AllSpaceIn(p, b, k) && !IsSpace(p[k])
    requires forall m :: b <= m < k ==> p[m] != '\n'
    ensures LineEnd(p + r, b).None?
  {
    var u := p + r;
    assert forall m :: b <= m <= k ==> u[m] == p[m];
    assert AllSpaceIn(u, b, k);
    SpaceRunBound(u, b, k);
    assert SkipSpace(u, b) == k;
  }

  /** An object whose tail does not match blocks the buffer. */
  lemma NoTail(u: string, a: nat, b: nat)
    requires a + 2 <= b <= |u| && SkipSpace(u, 0) == a && u[a] == '{'
    requires ScanBody(u, a + 1) == b - 1 && u[b - 1] == '}' && LineEnd(u, b).None?
    ensures Frames(u) == Drained([], u)
  {
    assert Match(u).None?;
  }
}
