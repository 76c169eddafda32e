/**
 * main.py's `_stream_reader`: the chunks of a streamed model reply are
 * appended to a buffer, every complete object line is cut off the front
 * of the buffer as soon as it is there, decoded and put on the queue, and
 * a `None` sentinel always follows, whether the stream ends, the model
 * call raises, a text element lacks its text, or an object fails to
 * decode.
 *
 * Produce is the reader as a function of its inputs; the StreamReader
 * method runs the loops of the source over a Channel and is proved to put
 * exactly Items(Produce(...)) on it. SplitInvariance shows that for a
 * well-formed reply the chunk boundaries make no difference.
 */
module Reader {
  import opened Json
  import opened PyText
  import opened ObjLine
  import opened Ndjson
  import opened Chunks

  /** What travels on the queue: a decoded object, or the `None` sentinel. */
  datatype Item = Record(value: Value) | Sentinel

  /** Why a reader stopped early: the model call raised, a text element
      had no "text" entry (KeyError), or an object line failed to decode. */
  datatype Fault = UpstreamFault | MissingText | MalformedObject(raw: string)

  datatype Outcome = Completed | Failed(fault: Fault)

  /** What a reader does: the objects it enqueues before the sentinel, and
      how it ends. */
  datatype Output = Output(records: seq<Value>, outcome: Outcome)

  /** Decoding object texts one after the other until one fails. */
  datatype Decoded = Decoded(values: seq<Value>, fault: Option<Fault>)

  function DecodeAll(raws: seq<string>, d: Decoder): Decoded
    decreases |raws|
  {
    if raws == [] then Decoded([], None)
    else match d(raws[0])
      case None => Decoded([], Some(MalformedObject(raws[0])))
      case Some(v) =>
        var rest := DecodeAll(raws[1..], d);
        Decoded([v] + rest.values, rest.fault)
  }

  /** Every text decodes. */
  ghost predicate AllDecode(raws: seq<string>, d: Decoder) {
    forall k :: 0 <= k < |raws| ==> d(raws[k]).Some?
  }

  /** Without a failure, the values are the decoded texts in order; with
      one, they are the decoded texts before the first text that fails, and
      the fault names that text. */
  lemma {:induction false} DecodeAllSpec(raws: seq<string>, d: Decoder)
    ensures var r := DecodeAll(raws, d);
      && (r.fault.None? <==> AllDecode(raws, d))
      && |r.values| <= |raws|
      && (r.fault.Some? ==> |r.values| < |raws| && d(raws[|r.values|]).None?
                            && r.fault.value == MalformedObject(raws[|r.values|]))
      && AllDecode(raws[..|r.values|], d)
      && forall k :: 0 <= k < |r.values| ==> d(raws[k]) == Some(r.values[k])
    decreases |raws|
  {
    if raws != [] {
      DecodeAllSpec(raws[1..], d);
      var r, t := DecodeAll(raws, d), DecodeAll(raws[1..], d);
      if d(raws[0]).Some? {
        assert forall k :: 1 <= k < |raws| ==> raws[1..][k - 1] == raws[k];
        assert forall k :: 1 <= k < |r.values| ==> r.values[k] == t.values[k - 1];
        if AllDecode(raws[1..], d) {
          assert AllDecode(raws, d) by {
            forall k | 0 <= k < |raws| ensures d(raws[k]).Some? {
              if k > 0 { assert raws[k] == raws[1..][k - 1]; }
            }
          }
        }
      }
    }
  }

  /** Decoding two runs of texts one after the other. */
  lemma {:induction false} DecodeAllAppend(a: seq<string>, b: seq<string>, d: Decoder)
    ensures DecodeAll(a + b, d) ==
      if DecodeAll(a, d).fault.Some? then DecodeAll(a, d)
      else Decoded(DecodeAll(a, d).values + DecodeAll(b, d).values, DecodeAll(b, d).fault)
    decreases |a|
  {
    if a == [] {
      assert a + b == b;
    } else {
      assert (a + b)[1..] == a[1..] + b;
      DecodeAllAppend(a[1..], b, d);
      if d(a[0]).Some? {
        var x, y := DecodeAll(a[1..], d).values, DecodeAll(b, d).values;
        assert [d(a[0]).value] + (x + y) == ([d(a[0]).value] + x) + y;
      }
    }
  }

  /** How a reader that met no fault of its own ends. */
  function Ending(fails: bool): Outcome {
    if fails then Failed(UpstreamFault) else Completed
  }

  /** The buffer after a chunk's text is appended, or None when a text
      element lacks its text. */
  function Grow(buf: string, c: Content): Option<string> {
    match StreamPiece(c)
    case None => None
    case Some(t) => Some(buf + t)
  }

  /** What a reader enqueues first, followed by what it does next. */
  function After(vs: seq<Value>, o: Output): Output {
    Output(vs + o.records, o.outcome)
  }

  /** The reader from buffer `buf` over the remaining `chunks`: `fails` says
      whether the model call raises after its last chunk. A chunk whose
      content is false is skipped; otherwise its text is appended and all
      complete objects are cut off and decoded. */
  function Produce(buf: string, chunks: seq<Content>, fails: bool, d: Decoder): Output
    decreases |chunks|
  {
    if chunks == [] then Output([], Ending(fails))
    else if !Truthy(chunks[0]) then Produce(buf, chunks[1..], fails, d)
    else match Grow(buf, chunks[0])
      case None => Output([], Failed(MissingText))
      case Some(s) =>
        var fr := Frames(s);
        var dv := DecodeAll(fr.objects, d);
        if dv.fault.Some? then Output(dv.values, Failed(dv.fault.value))
        else After(dv.values, Produce(fr.rest, chunks[1..], fails, d))
  }

  function Records(vs: seq<Value>): seq<Item> {
    seq(|vs|, k requires 0 <= k < |vs| => Record(vs[k]))
  }

  /** Everything a reader puts on the queue. */
  function Items(o: Output): seq<Item> {
    Records(o.records) + [Sentinel]
  }

  /** The queue a reader leaves holds its records in order and then one
      sentinel, which is its last item and its only one. */
  lemma ItemsShape(o: Output)
    ensures |Items(o)| == |o.records| + 1 && Items(o)[|o.records|] == Sentinel
    ensures forall k :: 0 <= k < |o.records| ==> Items(o)[k] == Record(o.records[k])
    ensures forall k :: 0 <= k < |Items(o)| ==> (Items(o)[k] == Sentinel <==> k == |o.records|)
  {
  }

  lemma RecordsAppend(a: seq<Value>, b: seq<Value>)
    ensures Records(a + b) == Records(a) + Records(b)
  {
  }

  /** The model call raising after its last chunk changes how the reader
      ends, never what it enqueues. */
  lemma {:induction false} UpstreamFaultKeepsRecords(buf: string, chunks: seq<Content>, d: Decoder)
    ensures Produce(buf, chunks, true, d).records == Produce(buf, chunks, false, d).records
    ensures Produce(buf, chunks, true, d).outcome ==
      if Produce(buf, chunks, false, d).outcome == Completed then Failed(UpstreamFault)
      else Produce(buf, chunks, false, d).outcome
    decreases |chunks|
  {
    if chunks != [] {
      if !Truthy(chunks[0]) {
        UpstreamFaultKeepsRecords(buf, chunks[1..], d);
      } else if Grow(buf, chunks[0]).Some? {
        var fr := Frames(Grow(buf, chunks[0]).value);
        UpstreamFaultKeepsRecords(fr.rest, chunks[1..], d);
      }
    }
  }

  /** The text of all the chunks, when every chunk has one. */
  ghost predicate AllPieces(chunks: seq<Content>) {
    forall k :: 0 <= k < |chunks| ==> StreamPiece(chunks[k]).Some?
  }

  function Joined(chunks: seq<Content>): string
    requires AllPieces(chunks)
    decreases |chunks|
  {
    if chunks == [] then "" else StreamPiece(chunks[0]).value + Joined(chunks[1..])
  }

  /** The reader given the whole text `t` at once. */
  function Whole(t: string, fails: bool, d: Decoder): Output {
    var dv := DecodeAll(Frames(t).objects, d);
    if dv.fault.Some? then Output(dv.values, Failed(dv.fault.value))
    else Output(dv.values, Ending(fails))
  }

  /** However a well-formed reply is cut into chunks, the reader enqueues
      what it would enqueue from the reply in one piece, and ends the same
      way. */
  lemma {:induction false} SplitInvariance(buf: string, chunks: seq<Content>, fails: bool, d: Decoder)
    requires AllPieces(chunks) && Match(buf).None? && Wf(buf + Joined(chunks))
    ensures Produce(buf, chunks, fails, d) == Whole(buf + Joined(chunks), fails, d)
    decreases |chunks|
  {
    if chunks == [] {
      assert buf + Joined(chunks) == buf;
    } else {
      var t, rest := StreamPiece(chunks[0]).value, chunks[1..];
      assert AllPieces(rest);
      var r := Joined(rest);
      assert buf + Joined(chunks) == (buf + t) + r;
      if !Truthy(chunks[0]) {
        assert t == [];
        assert buf + t == buf;
        SplitInvariance(buf, rest, fails, d);
      } else {
        var fr := Frames(buf + t);
        assert Grow(buf, chunks[0]) == Some(buf + t);
        Commute(buf + t, r);
        DecodeAllAppend(fr.objects, Frames(fr.rest + r).objects, d);
        if DecodeAll(fr.objects, d).fault.None? {
          SplitInvariance(fr.rest, rest, fails, d);
        }
      }
    }
  }

  /** A reply of well-formed object lines, the last of them with or
      without its newline, cut into chunks however the model streams it:
      the reader enqueues the decoded objects of its lines in order until
      the first that fails to decode. */
  lemma ReplyObjects(chunks: seq<Content>, lines: seq<Line>, e: Trailer, fails: bool, d: Decoder)
    requires AllPieces(chunks) && GoodLines(lines) && GoodTrailer(e)
    requires Joined(chunks) == Render(lines, e)
    ensures Produce("", chunks, fails, d).records == DecodeAll(Objects(lines) + TrailerObjects(e), d).values
  {
    assert "" + Joined(chunks) == Joined(chunks);
    assert Match("").None?;
    SplitInvariance("", chunks, fails, d);
    RenderFrames(lines, e);
  }

  /** Text before the first object that is not whitespace (a preamble, a
      stray character) is never consumed, so nothing after it is enqueued. */
  lemma {:induction false} PreambleStarves(buf: string, chunks: seq<Content>, fails: bool, d: Decoder)
    requires SkipSpace(buf, 0) < |buf| && buf[SkipSpace(buf, 0)] != '{'
    ensures Produce(buf, chunks, fails, d).records == []
    decreases |chunks|
  {
    if chunks != [] {
      if !Truthy(chunks[0]) {
        PreambleStarves(buf, chunks[1..], fails, d);
      } else if StreamPiece(chunks[0]).Some? {
        var t := StreamPiece(chunks[0]).value;
        assert Grow(buf, chunks[0]) == Some(buf + t);
        PreambleBlocks(buf, t);
        SkipPrefix(buf, t);
        PreambleStarves(buf + t, chunks[1..], fails, d);
      }
    }
  }

  lemma SkipPrefix(p: string, r: string)
    requires SkipSpace(p, 0) < |p|
    ensures SkipSpace(p + r, 0) == SkipSpace(p, 0) && (p + r)[SkipSpace(p, 0)] == p[SkipSpace(p, 0)]
  {
    var a := SkipSpace(p, 0);
    forall m | 0 <= m < a ensures IsSpace((p + r)[m]) { assert (p + r)[m] == p[m]; }
    SpaceRunBound(p + r, 0, a);
    assert (p + r)[a] == p[a];
  }

  /** The asyncio queue of main.py:92. It is unbounded, so a put never
      waits; a get on an empty queue, where asyncio would wait, yields
      None here. */
  class Channel {
    var items: seq<Item>

    constructor ()
      ensures items == []
    {
      items := [];
    }

    method Put(x: Item)
      modifies this
      ensures items == old(items) + [x]
    {
      items := items + [x];
    }

    method Get() returns (x: Option<Item>)
      modifies this
      ensures old(items) == [] ==> x.None? && items == []
      ensures old(items) != [] ==> x == Some(old(items)[0]) && items == old(items)[1..]
    {
      if items == [] {
        x := None;
      } else {
        x := Some(items[0]);
        items := items[1..];
      }
    }
  }

  /** The accumulation step of main.py:71-79: a string is appended whole;
      of a list, the text elements are appended until the first element of
      another type. None where a text element lacks its text. */
  method AppendPiece(buf: string, c: Content) returns (r: Option<string>)
    ensures r == Grow(buf, c)
  {
    match c {
      case Absent =>
        assert buf + "" == buf;
        r := Some(buf);
      case Text(s) =>
        r := Some(buf + s);
      case Parts(es) =>
        var b := buf;
        var j := 0;
        while j < |es|
          invariant 0 <= j <= |es|
          invariant Then(Some(buf), LeadText(es)) == Then(Some(b), LeadText(es[j..]))
          invariant Grow(buf, c) == Then(Some(buf), LeadText(es))
        {
          assert es[j..][1..] == es[j + 1..];
          if es[j].kind != "text" {
            break;
          }
          match es[j].text {
            case None =>
              assert es[j..][0] == es[j];
              return None;
            case Some(t) =>
              ThenAssoc(Some(b), Some(t), LeadText(es[j + 1..]));
              b := b + t;
          }
          j := j + 1;
        }
        assert b + "" == b;
        r := Some(b);
    }
  }

  /** The `while m := OBJ_LINE.match(buf)` loop of main.py:80-84: cut each
      matched object off the buffer, decode it and enqueue it, until the
      buffer no longer matches or a decode fails. */
  method Drain(buf: string, d: Decoder, ch: Channel) returns (rest: string, fault: Option<Fault>)
    modifies ch
    ensures var dv := DecodeAll(Frames(buf).objects, d);
      && ch.items == old(ch.items) + Records(dv.values)
      && fault == dv.fault
      && (fault.None? ==> rest == Frames(buf).rest)
  {
    rest := buf;
    ghost var sent: seq<Value> := [];
    while Match(rest).Some?
      invariant ch.items == old(ch.items) + Records(sent)
      invariant DecodeAll(Frames(buf).objects, d) == Prepend(sent, DecodeAll(Frames(rest).objects, d))
      invariant Frames(rest).rest == Frames(buf).rest
      decreases |rest|
    {
      var f := Match(rest).value;
      var raw := rest[f.start..f.stop];
      DrainStep(rest, f, d);
      ghost var next := DecodeAll(Frames(rest[f.end..]).objects, d);
      rest := rest[f.end..];
      match d(raw) {
        case None =>
          assert sent + [] == sent;
          return rest, Some(MalformedObject(raw));
        case Some(v) =>
          ch.Put(Record(v));
          RecordsAppend(sent, [v]);
          PrependPrepend(sent, [v], next);
          sent := sent + [v];
      }
    }
    assert sent + [] == sent;
    fault := None;
  }

  function Prepend(vs: seq<Value>, dv: Decoded): Decoded {
    Decoded(vs + dv.values, dv.fault)
  }

  lemma PrependPrepend(a: seq<Value>, b: seq<Value>, dv: Decoded)
    ensures Prepend(a, Prepend(b, dv)) == Prepend(a + b, dv)
  {
    assert a + (b + dv.values) == (a + b) + dv.values;
  }

  /** One turn of the drain loop, in terms of DecodeAll. */
  lemma DrainStep(s: string, f: Frame, d: Decoder)
    requires Match(s) == Some(f)
    ensures var raw, next := s[f.start..f.stop], DecodeAll(Frames(s[f.end..]).objects, d);
      DecodeAll(Frames(s).objects, d) ==
        match d(raw)
        case None => Decoded([], Some(MalformedObject(raw)))
        case Some(v) => Prepend([v], next)
    ensures Frames(s).rest == Frames(s[f.end..]).rest
  {
    FramesStep(s, f);
    var raws := Frames(s).objects;
    assert raws[0] == s[f.start..f.stop] && raws[1..] == Frames(s[f.end..]).objects;
  }

  /** `_stream_reader(prompt, llm, config, queue)` run to its end over the
      chunks the model streams. What it enqueues and how it ends are those
      of Produce: the decoded objects in buffer order, then exactly one
      sentinel. */
  method StreamReader(chunks: seq<Content>, fails: bool, d: Decoder, ch: Channel) returns (outcome: Outcome)
    modifies ch
    ensures ch.items == old(ch.items) + Items(Produce("", chunks, fails, d))
    ensures outcome == Produce("", chunks, fails, d).outcome
  {
    var buf := "";
    var i := 0;
    ghost var sent: seq<Value> := [];
    ghost var total := Produce("", chunks, fails, d);
    ReaderStarts(chunks, fails, d);
    while i < |chunks|
      invariant 0 <= i <= |chunks|
      invariant ch.items == old(ch.items) + Records(sent)
      invariant total == After(sent, Produce(buf, chunks[i..], fails, d))
    {
      var next, stop, vs := Feed(buf, chunks, i, fails, d, ch);
      RecordsAppend(sent, vs);
      if stop.Some? {
        ch.Put(Sentinel);
        QueueEnds(old(ch.items), sent, vs, total);
        return stop.value;
      }
      AfterAfter(sent, vs, Produce(next, chunks[i + 1..], fails, d));
      sent := sent + vs;
      buf := next;
      i := i + 1;
    }
    ReaderEnds(chunks, i, buf, fails, d);
    ch.Put(Sentinel);
    QueueEnds(old(ch.items), sent, [], total);
    outcome := Ending(fails);
  }

  /** One chunk's worth of the reader: the objects it enqueues, the fault
      that stops it if any, and the buffer it leaves. */
  datatype Step = Step(values: seq<Value>, stop: Option<Outcome>, rest: string)

  function ChunkStep(buf: string, c: Content, d: Decoder): Step {
    if !Truthy(c) then Step([], None, buf)
    else match Grow(buf, c)
    case None => Step([], Some(Failed(MissingText)), buf)
    case Some(s) =>
      var dv := DecodeAll(Frames(s).objects, d);
      if dv.fault.Some? then Step(dv.values, Some(Failed(dv.fault.value)), s)
      else Step(dv.values, None, Frames(s).rest)
  }

  /** The body of the `async for` loop over chunk i: a chunk whose content
      is false is skipped; otherwise its text is appended and the buffer
      drained. `vs` are the objects it enqueues. */
  method Feed(buf: string, chunks: seq<Content>, i: nat, fails: bool, d: Decoder, ch: Channel)
    returns (next: string, stop: Option<Outcome>, ghost vs: seq<Value>)
    requires i < |chunks|
    modifies ch
    ensures ch.items == old(ch.items) + Records(vs)
    ensures stop.Some? ==> Produce(buf, chunks[i..], fails, d) == Output(vs, stop.value)
    ensures stop.None? ==> Produce(buf, chunks[i..], fails, d) == After(vs, Produce(next, chunks[i + 1..], fails, d))
  {
    ProduceStep(buf, chunks, i, fails, d);
    var c := chunks[i];
    ghost var st := ChunkStep(buf, c, d);
    vs := st.values;
    if !Truthy(c) {
      assert old(ch.items) + Records([]) == old(ch.items);
      return buf, None, vs;
    }
    var grown := AppendPiece(buf, c);
    if grown.None? {
      assert old(ch.items) + Records([]) == old(ch.items);
      return buf, Some(Failed(MissingText)), vs;
    }
    var fault;
    next, fault := Drain(grown.value, d, ch);
    if fault.Some? {
      return next, Some(Failed(fault.value)), vs;
    }
    stop := None;
  }

  /** Past the last chunk the reader ends as the model call does. */
  lemma ReaderEnds(chunks: seq<Content>, i: nat, buf: string, fails: bool, d: Decoder)
    requires i == |chunks|
    ensures Produce(buf, chunks[i..], fails, d) == Output([], Ending(fails))
  {
    assert chunks[i..] == [];
  }

  /** The reader starts from an empty buffer at the first chunk. */
  lemma ReaderStarts(chunks: seq<Content>, fails: bool, d: Decoder)
    ensures Produce("", chunks, fails, d) == After([], Produce("", chunks[0..], fails, d))
  {
    assert chunks[0..] == chunks;
    var o := Produce("", chunks, fails, d);
    assert [] + o.records == o.records;
  }

  /** The queue once the sentinel follows the reader's records. */
  lemma QueueEnds(prior: seq<Item>, sent: seq<Value>, vs: seq<Value>, total: Output)
    requires total.records == sent + vs
    ensures ((prior + Records(sent)) + Records(vs)) + [Sentinel] == prior + Items(total)
    ensures (prior + Records(sent)) + [Sentinel] == prior + Items(total) <== vs == []
  {
    RecordsAppend(sent, vs);
    if vs == [] {
      assert sent + vs == sent;
    }
  }

  lemma AfterAfter(a: seq<Value>, b: seq<Value>, o: Output)
    ensures After(a, After(b, o)) == After(a + b, o)
  {
    assert a + (b + o.records) == (a + b) + o.records;
  }

  /** Produce over chunks[i..], one chunk unfolded. */
  lemma ProduceStep(buf: string, chunks: seq<Content>, i: int, fails: bool, d: Decoder)
    requires 0 <= i < |chunks|
    ensures var st := ChunkStep(buf, chunks[i], d);
      Produce(buf, chunks[i..], fails, d)
      == if st.stop.Some? then Output(st.values, st.stop.value)
         else After(st.values, Produce(st.rest, chunks[i + 1..], fails, d))
  {
    assert chunks[i..][0] == chunks[i];
    assert chunks[i..][1..] == chunks[i + 1..];
    var o := Produce(buf, chunks[i + 1..], fails, d);
    assert [] + o.records == o.records;
  }
}
