/**
 * main.py's graph: START -> start_stream -> next_item -> consume_item,
 * then back to next_item or on to END as conditional_end decides. The
 * nodes are functions from the state to the keys they set; the context
 * holding the queue and the reader task is a class whose start_stream
 * updates it in place. The event loop is sequential here: the reader task
 * runs to its end before the consumer takes its first item, which gives
 * the consumer the same queue contents in the same order, since the queue
 * has one producer and is first in, first out.
 */
module Graph {
  import opened Json
  import opened Chunks
  import opened Books
  import opened Reader

  /** RAGState; `total=False`, so item and done may be absent. */
  datatype RagState = RagState(query: string, item: Option<Value>, done: Option<bool>)

  /** The keys a node returns, which the runtime merges into the state. */
  datatype Update = Update(item: Option<Value>, done: Option<bool>)

  function Apply(s: RagState, u: Update): RagState {
    RagState(s.query,
      if u.item.Some? then u.item else s.item,
      if u.done.Some? then u.done else s.done)
  }

  /** `next_item`, given what `q.get()` returned: the sentinel means done,
      an object becomes the item. */
  function NextItem(x: Item): (u: Update)
    ensures x.Sentinel? <==> u.done == Some(true)
    ensures x.Sentinel? ==> u.item.None?
    ensures x.Record? ==> u == Update(Some(x.value), Some(false))
  {
    match x
    case Sentinel => Update(None, Some(true))
    case Record(v) => Update(Some(v), Some(false))
  }

  /** `consume_item`: `state["done"]` must be there, and when it is false
      so must `state["item"]`; the item is processed with the coin. */
  function ConsumeItem(s: RagState, coin: bool): (u: Update)
    requires s.done.Some? && (!s.done.value ==> s.item.Some?)
    ensures s.done.value ==> u == Update(None, Some(true))
    ensures !s.done.value ==> u == Update(Some(Processed(s.item.value, coin)), Some(false))
  {
    if s.done.value then Update(None, Some(true))
    else Update(Some(Processed(s.item.value, coin)), Some(false))
  }

  datatype Route = End | Back

  /** `conditional_end`. */
  function ConditionalEnd(s: RagState): (r: Route)
    requires s.done.Some?
    ensures r == End <==> s.done.value
  {
    if s.done.value then End else Back
  }

  /** What a run of the consumer loop does: the items consume_item hands
      back, how many items it took off the queue, and whether it reached
      END (false: the queue ran dry, where `q.get()` would wait forever). */
  datatype Trace = Trace(processed: seq<Value>, received: nat, ended: bool)

  /** The state after next_item took x and consume_item ran. */
  function Turn(s: RagState, x: Item, coin: bool): (r: RagState)
    ensures r.done == Some(x.Sentinel?)
    ensures x.Record? ==> r.item == Some(Processed(x.value, coin))
  {
    var s1 := Apply(s, NextItem(x));
    Apply(s1, ConsumeItem(s1, coin))
  }

  /** `t` with the items p handed back and n items taken before it. */
  function Prefixed(p: seq<Value>, n: nat, t: Trace): Trace {
    Trace(p + t.processed, n + t.received, t.ended)
  }

  /** next_item, consume_item and conditional_end in turn, over the queue
      contents q, with coins(k) the coin of the k-th processed item. */
  function Drive(q: seq<Item>, s: RagState, k: nat, coins: nat -> bool): Trace
    decreases |q|
  {
    if q == [] then Trace([], 0, false)
    else
      var s2 := Turn(s, q[0], coins(k));
      match ConditionalEnd(s2)
      case End => Trace([], 1, true)
      case Back => Prefixed([s2.item.value], 1, Drive(q[1..], s2, k + 1, coins))
  }

  /** Over a queue of records followed by the sentinel, the consumer
      processes exactly those records, in queue order, takes the sentinel,
      stops at END and takes nothing after it. */
  lemma {:induction false} DriveRecords(vs: seq<Value>, tail: seq<Item>, s: RagState, k: nat, coins: nat -> bool)
    ensures Drive(Records(vs) + [Sentinel] + tail, s, k, coins)
            == Trace(ProcessAll(vs, k, coins), |vs| + 1, true)
    decreases |vs|
  {
    var q := Records(vs) + [Sentinel] + tail;
    if vs == [] {
      assert q[0] == Sentinel;
    } else {
      assert q[0] == Record(vs[0]);
      assert q[1..] == Records(vs[1..]) + [Sentinel] + tail;
      DriveRecords(vs[1..], tail, Turn(s, q[0], coins(k)), k + 1, coins);
      ProcessAllCons(vs, k, coins);
    }
  }

  lemma PrefixedTwice(p: seq<Value>, v: seq<Value>, n: nat, t: Trace)
    ensures Prefixed(p, n, Prefixed(v, 1, t)) == Prefixed(p + v, n + 1, t)
  {
    assert p + (v + t.processed) == (p + v) + t.processed;
  }

  /** `stream_task`: none yet, running over the chunks the model streams,
      or done with the reader's outcome. */
  datatype Task = NoTask | Running(chunks: seq<Content>, fails: bool) | Finished(outcome: Outcome)

  /** The graph's Context: the queue and the reader task. */
  class Context {
    var queue: Channel?
    var task: Task

    constructor ()
      ensures queue == null && task == NoTask
    {
      queue := null;
      task := NoTask;
    }

    /** `start_stream`: a queue is made only if there is none, and a reader
        is started (over the chunks the model streams for the query) only
        if there is no task or the last one is done. */
    method StartStream(chunks: seq<Content>, fails: bool)
      modifies this
      ensures old(queue) == null ==> fresh(queue) && queue.items == []
      ensures old(queue) != null ==> queue == old(queue)
      ensures !old(task).Running? ==> task == Running(chunks, fails)
      ensures old(task).Running? ==> task == old(task)
    {
      if queue == null {
        queue := new Channel();
      }
      if !task.Running? {
        task := Running(chunks, fails);
      }
    }

    /** The event loop running the reader task to its end. */
    method RunTask(d: Decoder)
      requires queue != null && task.Running?
      modifies this, queue
      ensures queue == old(queue)
      ensures queue.items == old(queue.items) + Items(Produce("", old(task).chunks, old(task).fails, d))
      ensures task == Finished(Produce("", old(task).chunks, old(task).fails, d).outcome)
    {
      var outcome := StreamReader(task.chunks, task.fails, d, queue);
      task := Finished(outcome);
    }
  }

  /** The consumer loop: next_item takes an item off the queue,
      consume_item processes it, conditional_end routes back or to END. */
  method Consume(q: Channel, s0: RagState, coins: nat -> bool) returns (t: Trace)
    modifies q
    ensures t == Drive(old(q.items), s0, 0, coins)
    ensures t.received <= |old(q.items)| && q.items == old(q.items)[t.received..]
  {
    var s := s0;
    var processed: seq<Value> := [];
    var received := 0;
    ghost var total := Drive(q.items, s0, 0, coins);
    while true
      invariant received <= |old(q.items)| && q.items == old(q.items)[received..]
      invariant total == Prefixed(processed, received, Drive(q.items, s, |processed|, coins))
      decreases |q.items|
    {
      var x := q.Get();
      if x.None? {
        assert processed + [] == processed;
        return Trace(processed, received, false);
      }
      assert old(q.items)[received..][1..] == old(q.items)[received + 1..];
      received := received + 1;
      s := Turn(s, x.value, coins(|processed|));
      if ConditionalEnd(s) == End {
        assert processed + [] == processed;
        return Trace(processed, received, true);
      }
      PrefixedTwice(processed, [s.item.value], received - 1, Drive(q.items, s, |processed| + 1, coins));
      processed := processed + [s.item.value];
    }
  }

  /** A run of main.py's graph from a fresh context (`{"stream_task": None,
      "queue": None}`): the items consume_item hands back are exactly the
      reader's objects, processed in order with coins 0, 1, 2, ...; the
      sentinel is the last item taken, and the run reaches END. */
  method RunGraph(query: string, chunks: seq<Content>, fails: bool, d: Decoder, coins: nat -> bool)
    returns (t: Trace, outcome: Outcome)
    ensures t.processed == ProcessAll(Produce("", chunks, fails, d).records, 0, coins)
    ensures t.received == |Produce("", chunks, fails, d).records| + 1 && t.ended
    ensures outcome == Produce("", chunks, fails, d).outcome
  {
    var ctx := new Context();
    ctx.StartStream(chunks, fails);
    ctx.RunTask(d);
    var o := Produce("", chunks, fails, d);
    assert ctx.queue.items == Records(o.records) + [Sentinel] + [];
    DriveRecords(o.records, [], RagState(query, None, None), 0, coins);
    t := Consume(ctx.queue, RagState(query, None, None), coins);
    outcome := ctx.task.outcome;
  }
}
