/**
 * Well-formed NDJSON replies, and what the extractor makes of them.
 *
 * A well-formed reply is a run of lines, each of them whitespace (blank
 * lines included), one flat object, then whitespace other than a newline up
 * to a newline. It ends either in trailing whitespace or in one last object
 * line without its newline. For such a reply the extractor returns
 * exactly its objects, in order (RenderFrames), and feeding the reply in
 * pieces gives the same objects as feeding it whole (Commute, used by the
 * stream reader to show that chunk boundaries do not matter).
 */
module Ndjson {
  import opened PyText
  import opened Json
  import opened ObjLine

  /** One line of a reply: leading whitespace, a flat object, then
      whitespace other than a newline, then the newline. */
  datatype Line = Line(lead: string, obj: string, trail: string)

  /** `{`, body text, `}`: an object the pattern can match. */
  ghost predicate FlatObject(o: string) {
    |o| >= 2 && o[0] == '{' && o[|o| - 1] == '}' && Body(o[1..|o| - 1])
  }

  ghost predicate GoodLine(l: Line) {
    AllSpace(l.lead) && FlatObject(l.obj) && AllSpace(l.trail) && '\n' !in l.trail
  }

  ghost predicate GoodLines(lines: seq<Line>) {
    forall k :: 0 <= k < |lines| ==> GoodLine(lines[k])
  }

  /** How a reply ends after its newline-terminated lines: in whitespace, or
      in a last object line that has no newline. */
  datatype Trailer = Blank(w: string) | LastLine(l: Line)

  ghost predicate GoodTrailer(e: Trailer) {
    match e
    case Blank(w) => AllSpace(w)
    case LastLine(l) => GoodLine(l)
  }

  function TrailerText(e: Trailer): string {
    match e
    case Blank(w) => w
    case LastLine(l) => l.lead + l.obj + l.trail
  }

  function TrailerObjects(e: Trailer): seq<string> {
    match e
    case Blank(_) => []
    case LastLine(l) => [l.obj]
  }

  /** The reply text: the lines in order, each with its newline, then the
      trailer. */
  function Render(lines: seq<Line>, e: Trailer): string
    decreases |lines|
  {
    if lines == [] then TrailerText(e)
    else lines[0].lead + lines[0].obj + lines[0].trail + "\n" + Render(lines[1..], e)
  }

  function Objects(lines: seq<Line>): seq<string> {
    seq(|lines|, k requires 0 <= k < |lines| => lines[k].obj)
  }

  /** t is a well-formed reply. */
  ghost predicate Wf(t: string) {
    exists lines, e :: GoodLines(lines) && GoodTrailer(e) && t == Render(lines, e)
  }

  lemma AllSpaceShift(W: string, t: string, i: int, j: int)
    requires AllSpace(W) && 0 <= i <= j <= |t|
    ensures AllSpaceIn(t, i, j) <==> AllSpaceIn(W + t, |W| + i, |W| + j)
    ensures AllSpaceIn(t, 0, j) <==> AllSpaceIn(W + t, 0, |W| + j)
  {
    var u, n := W + t, |W|;
    if AllSpaceIn(t, i, j) {
      forall m | n + i <= m < n + j ensures IsSpace(u[m]) { assert u[m] == t[m - n]; }
    }
    if AllSpaceIn(u, n + i, n + j) {
      forall m | i <= m < j ensures IsSpace(t[m]) { assert u[n + m] == t[m]; }
    }
    if AllSpaceIn(t, 0, j) {
      forall m | 0 <= m < n + j ensures IsSpace(u[m]) {
        if m < n { assert u[m] == W[m]; } else { assert u[m] == t[m - n]; }
      }
    }
    if AllSpaceIn(u, 0, n + j) {
      forall m | 0 <= m < j ensures IsSpace(t[m]) { assert u[n + m] == t[m]; }
    }
  }

  /** The tail of a match is the same seen from behind leading whitespace. */
  lemma ShiftTail(W: string, t: string, b: int, e: int)
    requires AllSpace(W) && 0 <= b <= e <= |t|
    ensures TailAt(t, b, e) <==> TailAt(W + t, |W| + b, |W| + e)
  {
    var u, n := W + t, |W|;
    AllSpaceShift(W, t, b, e);
    if b < e {
      AllSpaceShift(W, t, b, e - 1);
      assert u[n + e - 1] == t[e - 1];
    }
    if e < |t| { assert u[n + e] == t[e]; }
  }

  lemma ShiftMatchForward(W: string, t: string, a: int, b: int, e: int)
    requires AllSpace(W) && IsMatch(t, a, b, e)
    ensures IsMatch(W + t, |W| + a, |W| + b, |W| + e)
  {
    var u, n := W + t, |W|;
    assert u[n + a + 1..n + b - 1] == t[a + 1..b - 1];
    assert u[n + a] == t[a] && u[n + b - 1] == t[b - 1];
    AllSpaceShift(W, t, 0, a);
    ShiftTail(W, t, b, e);
  }

  lemma ShiftMatchBack(W: string, t: string, a: int, b: int, e: int)
    requires AllSpace(W) && IsMatch(W + t, a, b, e)
    ensures |W| <= a && IsMatch(t, a - |W|, b - |W|, e - |W|)
  {
    var u, n := W + t, |W|;
    assert u[a + 1..b - 1] == t[a - n + 1..b - n - 1];
    assert u[a] == t[a - n] && u[b - 1] == t[b - n - 1];
    AllSpaceShift(W, t, 0, a - n);
    ShiftTail(W, t, b - n, e - n);
  }

  /** The pattern finds in W + t the match it finds in t, shifted by |W|. */
  lemma MatchShift(W: string, t: string)
    requires AllSpace(W)
    ensures Match(t).Some? <==> Match(W + t).Some?
    ensures Match(t).Some? ==>
      Match(W + t).value == Frame(|W| + Match(t).value.start, |W| + Match(t).value.stop, |W| + Match(t).value.end)
  {
    if Match(t).Some? {
      MatchShiftSome(W, t, Match(t).value);
    } else if Match(W + t).Some? {
      MatchShiftNone(W, t, Match(W + t).value);
    }
  }

  lemma MatchShiftSome(W: string, t: string, f: Frame)
    requires AllSpace(W) && Match(t) == Some(f)
    ensures Match(W + t) == Some(Frame(|W| + f.start, |W| + f.stop, |W| + f.end))
  {
    MatchShiftSpan(W, t, f);
    MatchShiftEnd(W, t, f);
  }

  lemma MatchShiftSpan(W: string, t: string, f: Frame)
    requires AllSpace(W) && Match(t) == Some(f)
    ensures Match(W + t).Some? && Match(W + t).value.start == |W| + f.start
    ensures Match(W + t).value.stop == |W| + f.stop && |W| + f.end <= Match(W + t).value.end
  {
    MatchSound(t);
    ShiftMatchForward(W, t, f.start, f.stop, f.end);
    MatchComplete(W + t, |W| + f.start, |W| + f.stop, |W| + f.end);
  }

  lemma MatchShiftEnd(W: string, t: string, f: Frame)
    requires AllSpace(W) && Match(t) == Some(f) && Match(W + t).Some?
    ensures Match(W + t).value.end <= |W| + f.end
  {
    var g := Match(W + t).value;
    MatchSound(W + t);
    ShiftMatchBack(W, t, g.start, g.stop, g.end);
    MatchComplete(t, g.start - |W|, g.stop - |W|, g.end - |W|);
  }

  lemma MatchShiftNone(W: string, t: string, g: Frame)
    requires AllSpace(W) && Match(W + t) == Some(g)
    ensures Match(t).Some?
  {
    MatchSound(W + t);
    ShiftMatchBack(W, t, g.start, g.stop, g.end);
    MatchComplete(t, g.start - |W|, g.stop - |W|, g.end - |W|);
  }

  /** Whitespace in front of the buffer changes nothing that is extracted. */
  lemma LeadingSpace(W: string, t: string)
    requires AllSpace(W)
    ensures Frames(W + t).objects == Frames(t).objects
  {
    MatchShift(W, t);
    if Match(t).Some? {
      LeadingSpaceSome(W, t, Match(t).value);
    }
  }

  lemma LeadingSpaceSome(W: string, t: string, f: Frame)
    requires AllSpace(W) && Match(t) == Some(f)
    ensures Frames(W + t).objects == Frames(t).objects
  {
    MatchShiftSome(W, t, f);
    ShiftSlices(W, t, f);
    FramesAgree(W + t, t, Frame(|W| + f.start, |W| + f.stop, |W| + f.end), f);
  }

  lemma ShiftSlices(W: string, t: string, f: Frame)
    requires f.start <= f.stop <= |t| && f.end <= |t|
    ensures (W + t)[|W| + f.start..|W| + f.stop] == t[f.start..f.stop]
    ensures (W + t)[|W| + f.end..] == t[f.end..]
  {
  }

  /** The first line of a well-formed reply is matched: its object is the
      match, and the match runs at least up to the line's newline. */
  lemma FirstLineMatch(lines: seq<Line>, w: Trailer)
    requires GoodLines(lines) && lines != []
    ensures var u, l := Render(lines, w), lines[0];
      var b, n := |l.lead| + |l.obj|, |l.lead| + |l.obj| + |l.trail| + 1;
      && Match(u).Some? && Match(u).value.start == |l.lead| && Match(u).value.stop == b
      && n <= Match(u).value.end && AllSpaceIn(u, b, n)
      && u[n..] == Render(lines[1..], w)
  {
    assert GoodLine(lines[0]);
    LineMatch(lines[0], Render(lines[1..], w));
  }

  /** A line with its newline, whatever follows it, is matched on its
      object, and the match runs at least up to the newline. */
  lemma LineMatch(l: Line, v: string)
    requires GoodLine(l)
    ensures var u := l.lead + l.obj + l.trail + "\n" + v;
      var b, n := |l.lead| + |l.obj|, |l.lead| + |l.obj| + |l.trail| + 1;
      && Match(u).Some? && Match(u).value.start == |l.lead| && Match(u).value.stop == b
      && n <= Match(u).value.end && AllSpaceIn(u, b, n) && u[n..] == v
  {
    var u := l.lead + l.obj + l.trail + "\n" + v;
    var a, b, n := |l.lead|, |l.lead| + |l.obj|, |l.lead| + |l.obj| + |l.trail| + 1;
    assert u[a + 1..b - 1] == l.obj[1..|l.obj| - 1];
    assert u[a] == '{' && u[b - 1] == '}' && u[n - 1] == '\n';
    forall m | 0 <= m < a ensures IsSpace(u[m]) { assert u[m] == l.lead[m]; }
    forall m | b <= m < n - 1 ensures IsSpace(u[m]) { assert u[m] == l.trail[m - b]; }
    assert TailAt(u, b, n);
    MatchComplete(u, a, b, n);
    assert u[n..] == v;
  }

  /** Two whitespace runs starting at b leave the same objects behind them:
      whichever is shorter only adds leading whitespace. */
  lemma SameAfterSpace(u: string, b: int, x: int, y: int)
    requires AllSpaceIn(u, b, x) && AllSpaceIn(u, b, y)
    ensures Frames(u[x..]).objects == Frames(u[y..]).objects
  {
    if x <= y {
      AllSpaceSlice(u, x, y);
      assert u[x..] == u[x..y] + u[y..];
      LeadingSpace(u[x..y], u[y..]);
    } else {
      AllSpaceSlice(u, y, x);
      assert u[y..] == u[y..x] + u[x..];
      LeadingSpace(u[y..x], u[x..]);
    }
  }

  /** Trailing whitespace alone yields nothing. */
  lemma SpaceOnly(w: string)
    requires AllSpace(w)
    ensures Frames(w).objects == []
  {
    SpaceRunBound(w, 0, |w|);
  }

  /** The first line's object comes out first, then the rest of the reply's. */
  lemma FirstLineFrames(lines: seq<Line>, w: Trailer)
    requires GoodLines(lines) && lines != []
    ensures Frames(Render(lines, w)).objects == [lines[0].obj] + Frames(Render(lines[1..], w)).objects
  {
    assert GoodLine(lines[0]);
    LineFrames(lines[0], Render(lines[1..], w));
  }

  /** A line with its newline yields its object, then whatever follows. */
  lemma LineFrames(l: Line, v: string)
    requires GoodLine(l)
    ensures Frames(l.lead + l.obj + l.trail + "\n" + v).objects == [l.obj] + Frames(v).objects
  {
    var u := l.lead + l.obj + l.trail + "\n" + v;
    var a, b := |l.lead|, |l.lead| + |l.obj|;
    LineMatch(l, v);
    assert u[a..b] == l.obj;
    TakeFront(u, a, b, b + |l.trail| + 1, l.obj, v);
  }

  /** A match whose tail covers the whitespace up to n takes the object
      and leaves what follows n to yield the rest. */
  lemma TakeFront(u: string, a: nat, b: nat, n: nat, o: string, v: string)
    requires Match(u).Some? && Match(u).value.start == a && Match(u).value.stop == b
    requires n <= Match(u).value.end && AllSpaceIn(u, b, n)
    requires u[a..b] == o && u[n..] == v
    ensures Frames(u).objects == [o] + Frames(v).objects
  {
    var g := Match(u).value;
    MatchedTailSpace(u);
    SameAfterSpace(u, b, n, g.end);
    FramesStep(u, g);
  }

  /** What a match consumes after its object is whitespace. */
  lemma MatchedTailSpace(u: string)
    requires Match(u).Some?
    ensures AllSpaceIn(u, Match(u).value.stop, Match(u).value.end)
  {
    MatchSound(u);
    TailSpace(u, Match(u).value.stop, Match(u).value.end);
  }

  /** A well-formed reply yields exactly its objects, in order, the object
      of a last line without a newline included. */
  lemma {:induction false} RenderFrames(lines: seq<Line>, e: Trailer)
    requires GoodLines(lines) && GoodTrailer(e)
    ensures Frames(Render(lines, e)).objects == Objects(lines) + TrailerObjects(e)
    decreases |lines|
  {
    if lines == [] {
      TrailerFrames(e);
      assert Objects(lines) + TrailerObjects(e) == TrailerObjects(e);
    } else {
      assert GoodLines(lines[1..]);
      RenderFrames(lines[1..], e);
      FirstLineFrames(lines, e);
      ObjectsUncons(lines);
      Assoc(lines[0].obj, Objects(lines[1..]), TrailerObjects(e));
    }
  }

  /** The trailer alone yields its object, if it has one. */
  lemma TrailerFrames(e: Trailer)
    requires GoodTrailer(e)
    ensures Frames(TrailerText(e)).objects == TrailerObjects(e)
  {
    match e
    case Blank(w) =>
      SpaceOnly(w);
    case LastLine(l) =>
      var u := TrailerText(e);
      LastLineMatch(l);
      assert u[|l.lead|..|l.lead| + |l.obj|] == l.obj;
      SpaceOnly("");
      TakeFront(u, |l.lead|, |l.lead| + |l.obj|, |u|, l.obj, "");
  }

  /** A last line without its newline is matched up to the end of the
      buffer: `$` matches once its whitespace reaches the end. */
  lemma LastLineMatch(l: Line)
    requires GoodLine(l)
    ensures var u, b := l.lead + l.obj + l.trail, |l.lead| + |l.obj|;
      && Match(u).Some? && Match(u).value.start == |l.lead| && Match(u).value.stop == b
      && Match(u).value.end == |u| && AllSpaceIn(u, b, |u|)
  {
    var u := l.lead + l.obj + l.trail;
    var a, b := |l.lead|, |l.lead| + |l.obj|;
    assert u[a + 1..b - 1] == l.obj[1..|l.obj| - 1];
    assert u[a] == '{' && u[b - 1] == '}';
    forall m | 0 <= m < a ensures IsSpace(u[m]) { assert u[m] == l.lead[m]; }
    forall m | b <= m < |u| ensures IsSpace(u[m]) { assert u[m] == l.trail[m - b]; }
    assert TailAt(u, b, |u|);
    MatchComplete(u, a, b, |u|);
  }

  lemma ObjectsUncons(lines: seq<Line>)
    requires lines != []
    ensures Objects(lines) == [lines[0].obj] + Objects(lines[1..])
  {
  }

  lemma RenderCons(l: Line, rest: seq<Line>, w: Trailer)
    ensures Render([l] + rest, w) == l.lead + (l.obj + l.trail + "\n" + Render(rest, w))
  {
    assert ([l] + rest)[1..] == rest;
  }

  lemma GoodLinesCons(l: Line, rest: seq<Line>)
    requires GoodLine(l) && GoodLines(rest)
    ensures GoodLines([l] + rest)
  {
  }

  /** Taking the first line off a well-formed reply's lines. */
  lemma RenderUncons(lines: seq<Line>, w: Trailer)
    requires lines != []
    ensures Render(lines, w) == lines[0].lead + (lines[0].obj + lines[0].trail + "\n" + Render(lines[1..], w))
  {
  }

  /** Whitespace in front of a well-formed reply keeps it well-formed. */
  lemma WfPrepend(W: string, t: string)
    requires AllSpace(W) && Wf(t)
    ensures Wf(W + t)
  {
    var lines: seq<Line>, w: Trailer :| GoodLines(lines) && GoodTrailer(w) && t == Render(lines, w);
    if lines == [] {
      PrependTrailer(W, w);
    } else {
      var l := lines[0];
      var l' := Line(W + l.lead, l.obj, l.trail);
      var tail := l.obj + l.trail + "\n" + Render(lines[1..], w);
      RenderUncons(lines, w);
      RenderCons(l', lines[1..], w);
      assert W + t == Render([l'] + lines[1..], w) by {
        assert W + (l.lead + tail) == (W + l.lead) + tail;
      }
      assert GoodLine(l);
      GoodLinesCons(l', lines[1..]);
    }
  }

  /** Dropping leading whitespace keeps a reply well-formed. */
  lemma WfDrop(t: string, k: int)
    requires Wf(t) && AllSpaceIn(t, 0, k)
    ensures Wf(t[k..])
  {
    var lines: seq<Line>, w: Trailer :| GoodLines(lines) && GoodTrailer(w) && t == Render(lines, w);
    if lines == [] {
      DropTrailer(w, k);
    } else {
      var l := lines[0];
      assert GoodLine(l);
      DropLead(lines, w, k);
      var l' := Line(l.lead[k..], l.obj, l.trail);
      assert AllSpace(l'.lead);
      GoodLinesCons(l', lines[1..]);
    }
  }

  /** Whitespace in front of a trailer keeps it a trailer. */
  lemma PrependTrailer(W: string, e: Trailer)
    requires AllSpace(W) && GoodTrailer(e)
    ensures Wf(W + TrailerText(e))
  {
    match e
    case Blank(w) =>
      assert AllSpace(W + w);
      assert W + w == Render([], Blank(W + w));
    case LastLine(l) =>
      var l' := Line(W + l.lead, l.obj, l.trail);
      assert AllSpace(W + l.lead);
      assert W + (l.lead + l.obj + l.trail) == Render([], LastLine(l'));
  }

  /** Dropping leading whitespace off a trailer keeps it a trailer. */
  lemma DropTrailer(e: Trailer, k: int)
    requires GoodTrailer(e) && AllSpaceIn(TrailerText(e), 0, k)
    ensures Wf(TrailerText(e)[k..])
  {
    var t := TrailerText(e);
    match e
    case Blank(w) =>
      AllSpaceSlice(t, k, |t|);
      assert t[k..] == Render([], Blank(t[k..]));
    case LastLine(l) =>
      var tail := l.obj + l.trail;
      assert t == l.lead + tail;
      assert t[|l.lead|] == '{';
      assert !IsSpace(t[|l.lead|]);
      var l' := Line(l.lead[k..], l.obj, l.trail);
      assert t[k..] == l'.lead + l'.obj + l'.trail;
      assert AllSpace(l'.lead);
      assert t[k..] == Render([], LastLine(l'));
  }

  /** Leading whitespace of a reply lies within its first line's lead. */
  lemma DropLead(lines: seq<Line>, w: Trailer, k: int)
    requires lines != [] && FlatObject(lines[0].obj) && AllSpaceIn(Render(lines, w), 0, k)
    ensures k <= |lines[0].lead|
    ensures Render(lines, w)[k..] == Render([Line(lines[0].lead[k..], lines[0].obj, lines[0].trail)] + lines[1..], w)
  {
    var t, l := Render(lines, w), lines[0];
    var tail := l.obj + l.trail + "\n" + Render(lines[1..], w);
    RenderUncons(lines, w);
    assert t[|l.lead|] == '{';
    assert !IsSpace(t[|l.lead|]);
    RenderCons(Line(l.lead[k..], l.obj, l.trail), lines[1..], w);
    assert t[k..] == l.lead[k..] + tail;
  }

  /** Where a whitespace run starting at b has its end makes no difference
      to the reply being well-formed behind it. */
  lemma WfAfterSpace(u: string, b: int, n: int, e: int)
    requires AllSpaceIn(u, b, n) && AllSpaceIn(u, b, e) && Wf(u[n..])
    ensures Wf(u[e..])
  {
    if e <= n {
      AllSpaceSlice(u, e, n);
      assert u[e..] == u[e..n] + u[n..];
      WfPrepend(u[e..n], u[n..]);
    } else {
      var t := u[n..];
      forall m | 0 <= m < e - n ensures IsSpace(t[m]) { assert t[m] == u[n + m]; }
      assert u[e..] == t[e - n..];
      WfDrop(t, e - n);
    }
  }

  /** A buffer that matches is not all whitespace, so a well-formed reply
      it begins has a first line, or ends in a last line. */
  lemma HasFirstLine(p: string, r: string, lines: seq<Line>, w: Trailer)
    requires Match(p).Some? && p + r == Render(lines, w) && GoodTrailer(w)
    ensures lines != [] || w.LastLine?
  {
    var a := Match(p).value.start;
    MatchSound(p);
    assert (p + r)[a] == p[a] == '{';
    assert !IsSpace((p + r)[a]);
  }

  lemma SpaceInPrefix(p: string, r: string, i: int, j: int)
    requires AllSpaceIn(p, i, j)
    ensures AllSpaceIn(p + r, i, j)
  {
    forall m | i <= m < j ensures IsSpace((p + r)[m]) { assert (p + r)[m] == p[m]; }
  }

  /** The first match of a buffer that begins a well-formed reply: the reply
      matches on the same object, and what the buffer's match leaves of the
      reply is well-formed and yields what the reply's own match leaves. */
  lemma CommuteHead(p: string, r: string, f: Frame)
    requires Wf(p + r) && Match(p) == Some(f)
    ensures Wf((p + r)[f.end..])
    ensures Frames(p + r).objects == [p[f.start..f.stop]] + Frames((p + r)[f.end..]).objects
  {
    var u := p + r;
    CommuteSpan(p, r, f);
    SameAfterSpace(u, f.stop, f.end, Match(u).value.end);
    HeadFrames(u, Match(u).value, f.end);
    SliceConcat(p, r, f.start, f.stop);
  }

  lemma CommuteSpan(p: string, r: string, f: Frame)
    requires Wf(p + r) && Match(p) == Some(f)
    ensures Match(p + r).Some? && Match(p + r).value.start == f.start && Match(p + r).value.stop == f.stop
    ensures AllSpaceIn(p + r, f.stop, f.end) && AllSpaceIn(p + r, f.stop, Match(p + r).value.end)
    ensures Wf((p + r)[f.end..])
  {
    var u := p + r;
    var lines: seq<Line>, w: Trailer :| GoodLines(lines) && GoodTrailer(w) && u == Render(lines, w);
    HasFirstLine(p, r, lines, w);
    if lines == [] {
      CommuteLast(p, r, w.l, f);
    } else {
      CommuteLines(p, r, lines, w, f);
    }
  }

  lemma CommuteLines(p: string, r: string, lines: seq<Line>, w: Trailer, f: Frame)
    requires GoodLines(lines) && GoodTrailer(w) && p + r == Render(lines, w) && lines != []
    requires Match(p) == Some(f)
    ensures Match(p + r).Some? && Match(p + r).value.start == f.start && Match(p + r).value.stop == f.stop
    ensures AllSpaceIn(p + r, f.stop, f.end) && AllSpaceIn(p + r, f.stop, Match(p + r).value.end)
    ensures Wf((p + r)[f.end..])
  {
    var u := p + r;
    var l := lines[0];
    var n := |l.lead| + |l.obj| + |l.trail| + 1;
    FirstLineMatch(lines, w);
    MatchPrefix(p, r);
    MatchedTailSpace(p);
    SpaceInPrefix(p, r, f.stop, f.end);
    MatchedTailSpace(u);
    assert GoodLines(lines[1..]);
    assert Wf(u[n..]);
    WfAfterSpace(u, f.stop, n, f.end);
  }

  /** A buffer that begins a last line without a newline matches on the
      line's object, and only whitespace is left behind the match. */
  lemma CommuteLast(p: string, r: string, l: Line, f: Frame)
    requires GoodLine(l) && p + r == l.lead + l.obj + l.trail && Match(p) == Some(f)
    ensures Match(p + r).Some? && Match(p + r).value.start == f.start && Match(p + r).value.stop == f.stop
    ensures AllSpaceIn(p + r, f.stop, f.end) && AllSpaceIn(p + r, f.stop, Match(p + r).value.end)
    ensures Wf((p + r)[f.end..])
  {
    var u := p + r;
    LastLineMatch(l);
    MatchPrefix(p, r);
    MatchedTailSpace(p);
    SpaceInPrefix(p, r, f.stop, f.end);
    AllSpaceSlice(u, f.end, |u|);
    assert u[f.end..] == u[f.end..|u|];
    assert u[f.end..] == Render([], Blank(u[f.end..]));
  }

  lemma SliceConcat(p: string, r: string, i: int, j: int)
    requires 0 <= i <= j <= |p|
    ensures (p + r)[i..j] == p[i..j]
  {
  }

  lemma TailConcat(p: string, r: string, e: int)
    requires 0 <= e <= |p|
    ensures p[e..] + r == (p + r)[e..]
  {
  }

  /** Splitting a well-formed reply anywhere: draining the first piece, then
      draining what it left with the second piece appended, yields the
      objects of the whole, and what is left stays well-formed. */
  lemma {:induction false} Commute(p: string, r: string)
    requires Wf(p + r)
    ensures Frames(p).objects + Frames(Frames(p).rest + r).objects == Frames(p + r).objects
    ensures Wf(Frames(p).rest + r)
    decreases |p|
  {
    if Match(p).Some? {
      var f := Match(p).value;
      var x, q := p[f.start..f.stop], p[f.end..];
      CommuteHead(p, r, f);
      TailConcat(p, r, f.end);
      Commute(q, r);
      FramesStep(p, f);
      Assoc(x, Frames(q).objects, Frames(Frames(q).rest + r).objects);
    }
  }

  lemma Assoc(x: string, a: seq<string>, b: seq<string>)
    ensures ([x] + a) + b == [x] + (a + b)
  {
  }

  /** Once the whitespace runs agree, the reply's first turn of the loop is
      the buffer's object followed by what the buffer's match leaves. */
  lemma HeadFrames(u: string, g: Frame, e: int)
    requires Match(u) == Some(g) && g.stop <= e <= |u|
    requires Frames(u[e..]).objects == Frames(u[g.end..]).objects
    ensures Frames(u).objects == [u[g.start..g.stop]] + Frames(u[e..]).objects
  {
    FramesStep(u, g);
  }
}
