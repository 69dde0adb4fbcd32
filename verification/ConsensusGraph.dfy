/**
 The wrapper around the consensus graph (src/consensus/graph.rs).  The graph itself is foreign: it
 makes finalised and recognised events available when it pleases, and pushing or creating an event
 may fail.  `T` is the type of transactions.
 */
module ConsensusGraph {
  import opened Types

  datatype Event<T> = Event(author: PeerId, payload: seq<T>, hash: Hash)

  /** A transaction handed out, with the author and hash said to be those of its event. */
  datatype Tx<T> = Tx(author: PeerId, tx: T, hash: Hash)

  /** `Hash::from_array([0; 64])` */
  const ZERO_HASH: Hash := 0

  /** A transaction buffer with the events of the graph that will refill it. */
  datatype Source<T> = Source(author: PeerId, txs: seq<T>, hash: Hash, pending: seq<Event<T>>)

  // ---------- handing out transactions ----------

  /** `next_tx` */
  function NextTx<T>(s: Source<T>): (r: (Source<T>, Option<Tx<T>>))
    ensures r.0.hash == s.hash
    decreases |s.pending|
  {
    if s.txs != [] then
      (s.(txs := s.txs[1..]), Some(Tx(s.author, s.txs[0], s.hash)))
    else if s.pending == [] then
      (s, None)
    else
      var event := s.pending[0];
      if event.payload == [] then
        NextTx(s.(author := event.author, txs := [], pending := s.pending[1..]))
      else
        (s.(author := event.author, txs := event.payload[1..], pending := s.pending[1..]),
         Some(Tx(event.author, event.payload[0], event.hash)))
  }

  /** What is handed out for transactions of one author, all with the same hash. */
  function Labelled<T>(author: PeerId, txs: seq<T>, hash: Hash): seq<Tx<T>> {
    seq(|txs|, i requires 0 <= i < |txs| => Tx(author, txs[i], hash))
  }

  /** What is handed out for one event: only the first transaction carries the hash of the event. */
  function OfEvent<T>(event: Event<T>, kept: Hash): (r: seq<Tx<T>>)
    ensures |r| == |event.payload|
  {
    seq(|event.payload|, i requires 0 <= i < |event.payload| =>
      Tx(event.author, event.payload[i], if i == 0 then event.hash else kept))
  }

  function Flatten<T>(events: seq<Event<T>>, kept: Hash): seq<Tx<T>> {
    if events == [] then [] else
    Flatten(events[..|events| - 1], kept) + OfEvent(events[|events| - 1], kept)
  }

  function Remaining<T>(s: Source<T>): seq<Tx<T>> {
    Labelled(s.author, s.txs, s.hash) + Flatten(s.pending, s.hash)
  }

  lemma {:induction false} FlattenAppend<T>(a: seq<Event<T>>, b: seq<Event<T>>, kept: Hash)
    ensures Flatten(a + b, kept) == Flatten(a, kept) + Flatten(b, kept)
  {
    if b == [] {
      assert a + b == a;
    } else {
      var n := |b| - 1;
      assert (a + b)[..|a + b| - 1] == a + b[..n];
      FlattenAppend(a, b[..n], kept);
      Regroup(Flatten(a, kept), Flatten(b[..n], kept), OfEvent(b[n], kept));
    }
  }

  lemma FlattenFirst<T>(events: seq<Event<T>>, kept: Hash)
    requires events != []
    ensures Flatten(events, kept) == OfEvent(events[0], kept) + Flatten(events[1..], kept)
  {
    assert events == [events[0]] + events[1..];
    FlattenAppend([events[0]], events[1..], kept);
    assert [events[0]][..0] == [];
    assert Flatten([events[0]], kept) == OfEvent(events[0], kept);
  }

  /** One call hands out the first remaining transaction, or finds that nothing remains. */
  lemma {:induction false} NextTxTakesFirst<T>(s: Source<T>)
    ensures var (s', tx) := NextTx(s);
      if Remaining(s) == [] then
        tx == None && Remaining(s') == []
      else
        tx == Some(Remaining(s)[0]) && Remaining(s') == Remaining(s)[1..]
    decreases |s.pending|
  {
    if s.txs == [] && s.pending != [] {
      var event := s.pending[0];
      FlattenFirst(s.pending, s.hash);
      if event.payload == [] {
        NextTxTakesFirst(s.(author := event.author, txs := [], pending := s.pending[1..]));
        assert Remaining(s) == Remaining(s.(author := event.author, txs := [], pending := s.pending[1..]));
      } else {
        assert OfEvent(event, s.hash)[1..] == Labelled(event.author, event.payload[1..], s.hash);
      }
    } else if s.txs != [] {
      assert Labelled(s.author, s.txs, s.hash)[1..] == Labelled(s.author, s.txs[1..], s.hash);
    }
  }

  /** The position in the stream of the first transaction of event `e`. */
  function Offset<T>(events: seq<Event<T>>, e: nat): nat
    requires e <= |events|
  {
    if e == 0 then 0 else Offset(events, e - 1) + |events[e - 1].payload|
  }

  lemma {:induction false} OffsetOfPrefix<T>(events: seq<Event<T>>, n: nat, e: nat)
    requires e <= n <= |events|
    ensures Offset(events[..n], e) == Offset(events, e)
  {
    if e > 0 {
      OffsetOfPrefix(events, n, e - 1);
    }
  }

  /** Event after event, each transaction in its place; the hash is that of its event for the first one. */
  lemma {:induction false} FlattenAt<T>(events: seq<Event<T>>, kept: Hash, e: nat, i: nat)
    requires e < |events| && i < |events[e].payload|
    ensures |Flatten(events, kept)| == Offset(events, |events|)
    ensures Offset(events, e) + i < |Flatten(events, kept)|
    ensures Flatten(events, kept)[Offset(events, e) + i] ==
      Tx(events[e].author, events[e].payload[i], if i == 0 then events[e].hash else kept)
    decreases |events|
  {
    var n := |events| - 1;
    FlattenLength(events[..n], kept);
    OffsetOfPrefix(events, n, n);
    if e < n {
      FlattenAt(events[..n], kept, e, i);
      OffsetOfPrefix(events, n, e);
    }
  }

  lemma {:induction false} FlattenLength<T>(events: seq<Event<T>>, kept: Hash)
    ensures |Flatten(events, kept)| == Offset(events, |events|)
  {
    if events != [] {
      FlattenLength(events[..|events| - 1], kept);
      OffsetOfPrefix(events, |events| - 1, |events| - 1);
    }
  }

  // ---------- whole runs ----------

  datatype Stream = Finalized | Recognized

  datatype PushResult = Pushed | AlreadyExists | Failed

  datatype ApplySyncError = PushError | UnknownPeer | CreateError

  /** A turn of the event loop, with the answers of the graph to the calls made in it. */
  datatype Step<T> =
    /** the graph has one more event for the stream */
    | Decided(stream: Stream, event: Event<T>)
    | Poll
    | ScheduleTx(tx: T)
    | ApplySync(pushes: seq<PushResult>, peerKnown: bool, created: bool)
    | CreateStandalone(created: bool)

  /** The transactions taken out of the buffer by one call, and whether they got into an event. */
  datatype Batch<T> = InEvent(txs: seq<T>) | Lost(txs: seq<T>)

  datatype Wrapper<T> = Wrapper(
    included: seq<T>,
    finalized: Source<T>,
    recognized: Source<T>,
    batches: seq<Batch<T>>)
  {
    function Of(stream: Stream): Source<T> {
      if stream.Finalized? then finalized else recognized
    }
  }

  datatype Output<T> = Output(stream: Stream, tx: Tx<T>)

  datatype Effect<T> = Effect(wrapper: Wrapper<T>, out: seq<Output<T>>)

  /** The authors in the fresh buffers are random. */
  function Fresh<T>(a: PeerId, b: PeerId): Wrapper<T> {
    Wrapper([], Source(a, [], ZERO_HASH, []), Source(b, [], ZERO_HASH, []), [])
  }

  function AddEvent<T>(s: Source<T>, event: Event<T>): Source<T> {
    s.(pending := s.pending + [event])
  }

  function TakeBatch<T>(w: Wrapper<T>, created: bool): Wrapper<T> {
    w.(included := [], batches := w.batches + [if created then InEvent(w.included) else Lost(w.included)])
  }

  /** `poll_next`: a recognised transaction only when there is no finalised one. */
  function PollNext<T>(w: Wrapper<T>): Effect<T> {
    var (f, tx) := NextTx(w.finalized);
    match tx
    case Some(t) => Effect(w.(finalized := f), [Output(Finalized, t)])
    case None =>
      var (r, tx') := NextTx(w.recognized);
      Effect(w.(finalized := f, recognized := r), if tx'.Some? then [Output(Recognized, tx'.value)] else [])
  }

  function Turn<T>(w: Wrapper<T>, step: Step<T>): Effect<T> {
    match step
    case Decided(Finalized, event) => Effect(w.(finalized := AddEvent(w.finalized, event)), [])
    case Decided(Recognized, event) => Effect(w.(recognized := AddEvent(w.recognized, event)), [])
    case Poll => PollNext(w)
    case ScheduleTx(tx) => Effect(w.(included := w.included + [tx]), [])
    case ApplySync(pushes, peerKnown, created) =>
      Effect(if Failed in pushes then w else TakeBatch(w, peerKnown && created), [])
    case CreateStandalone(created) => Effect(TakeBatch(w, created), [])
  }

  function Run<T>(w: Wrapper<T>, steps: seq<Step<T>>): Effect<T> {
    if steps == [] then
      Effect(w, [])
    else
      var before := Run(w, steps[..|steps| - 1]);
      var now := Turn(before.wrapper, steps[|steps| - 1]);
      Effect(now.wrapper, before.out + now.out)
  }

  // ---------- the two streams ----------

  /** The events that reached the stream. */
  function Events<T>(steps: seq<Step<T>>, stream: Stream): seq<Event<T>> {
    if steps == [] then [] else
    var last := steps[|steps| - 1];
    Events(steps[..|steps| - 1], stream) + if last.Decided? && last.stream == stream then [last.event] else []
  }

  /** The transactions handed out on the stream. */
  function Handed<T>(out: seq<Output<T>>, stream: Stream): seq<Tx<T>> {
    if out == [] then [] else
    var last := out[|out| - 1];
    Handed(out[..|out| - 1], stream) + if last.stream == stream then [last.tx] else []
  }

  lemma HandedAppend<T>(a: seq<Output<T>>, b: seq<Output<T>>, stream: Stream)
    requires |b| <= 1
    ensures Handed(a + b, stream) == Handed(a, stream) + Handed(b, stream)
  {
    if b == [] {
      assert a + b == a;
    } else {
      assert (a + b)[..|a|] == a;
      assert b[..0] == [];
    }
  }

  lemma Arrived<T>(s: Source<T>, event: Event<T>)
    ensures Remaining(AddEvent(s, event)) == Remaining(s) + OfEvent(event, s.hash)
  {
    assert (s.pending + [event])[..|s.pending|] == s.pending;
  }

  lemma HandedOne<T>(o: Output<T>, stream: Stream)
    ensures Handed([o], stream) == if o.stream == stream then [o.tx] else []
  {
    assert [o][..0] == [];
  }

  lemma PollTurn<T>(w: Wrapper<T>, stream: Stream)
    ensures var e := PollNext(w);
      && |e.out| <= 1
      && e.wrapper.Of(stream).hash == w.Of(stream).hash
      && Handed(e.out, stream) + Remaining(e.wrapper.Of(stream)) == Remaining(w.Of(stream))
  {
    var e := PollNext(w);
    NextTxTakesFirst(w.finalized);
    NextTxTakesFirst(w.recognized);
    if e.out != [] {
      HandedOne(e.out[0], stream);
      assert e.out == [e.out[0]];
    }
    SplitFirst(Remaining(w.Of(stream)));
  }

  lemma SplitFirst<A>(s: seq<A>)
    ensures s != [] ==> [s[0]] + s[1..] == s
    ensures [] + s == s && s + [] == s
  {
  }

  /** One turn moves the first remaining transaction to the output, or adds those of an event. */
  lemma StreamTurn<T>(w: Wrapper<T>, step: Step<T>, stream: Stream)
    ensures var e := Turn(w, step);
      && |e.out| <= 1
      && e.wrapper.Of(stream).hash == w.Of(stream).hash
      && Handed(e.out, stream) + Remaining(e.wrapper.Of(stream)) ==
         Remaining(w.Of(stream)) + Added(step, stream, w.Of(stream).hash)
  {
    SplitFirst(Remaining(w.Of(stream)));
    if step.Poll? {
      PollTurn(w, stream);
    } else if step.Decided? && step.stream == stream {
      Arrived(w.Of(stream), step.event);
      SplitFirst(Remaining(AddEvent(w.Of(stream), step.event)));
    }
  }

  function Added<T>(step: Step<T>, stream: Stream, kept: Hash): seq<Tx<T>> {
    if step.Decided? && step.stream == stream then OfEvent(step.event, kept) else []
  }

  /**
   Over every run, what was handed out on each stream, followed by what remains, is the in-order
   flattening of the events that reached it: nothing is lost, repeated or reordered.
   */
  lemma {:induction false} TransactionStream<T>(a: PeerId, b: PeerId, steps: seq<Step<T>>, stream: Stream)
    ensures var e := Run(Fresh(a, b), steps);
      && e.wrapper.Of(stream).hash == ZERO_HASH
      && Handed(e.out, stream) + Remaining(e.wrapper.Of(stream)) == Flatten(Events(steps, stream), ZERO_HASH)
  {
    if steps != [] {
      var n := |steps| - 1;
      TransactionStream(a, b, steps[..n], stream);
      var before := Run(Fresh(a, b), steps[..n]);
      var now := Turn(before.wrapper, steps[n]);
      StreamTurn(before.wrapper, steps[n], stream);
      HandedAppend(before.out, now.out, stream);
      EventsFlatten(steps, stream);
      Regroup(Handed(before.out, stream), Handed(now.out, stream), Remaining(now.wrapper.Of(stream)));
      Regroup(Handed(before.out, stream), Remaining(before.wrapper.Of(stream)), Added(steps[n], stream, ZERO_HASH));
    }
  }

  lemma EventsFlatten<T>(steps: seq<Step<T>>, stream: Stream)
    requires steps != []
    ensures Flatten(Events(steps, stream), ZERO_HASH) ==
      Flatten(Events(steps[..|steps| - 1], stream), ZERO_HASH) + Added(steps[|steps| - 1], stream, ZERO_HASH)
  {
    var before := Events(steps[..|steps| - 1], stream);
    var last := steps[|steps| - 1];
    if last.Decided? && last.stream == stream {
      assert (before + [last.event])[..|before|] == before;
    } else {
      SplitFirst(Flatten(before, ZERO_HASH));
      assert before + [] == before;
    }
  }

  /** A poll hands out nothing exactly when both streams have been handed out completely. */
  lemma PollIsEmptyIff<T>(a: PeerId, b: PeerId, steps: seq<Step<T>>)
    ensures var e := Run(Fresh(a, b), steps);
      PollNext(e.wrapper).out == [] <==>
      forall stream :: Handed(e.out, stream) == Flatten(Events(steps, stream), ZERO_HASH)
  {
    var e := Run(Fresh(a, b), steps);
    TransactionStream(a, b, steps, Finalized);
    TransactionStream(a, b, steps, Recognized);
    NextTxTakesFirst(e.wrapper.finalized);
    NextTxTakesFirst(e.wrapper.recognized);
    if PollNext(e.wrapper).out == [] {
      forall stream: Stream
        ensures Handed(e.out, stream) == Flatten(Events(steps, stream), ZERO_HASH)
      {
        assert Remaining(e.wrapper.Of(stream)) == [];
        TransactionStream(a, b, steps, stream);
      }
    } else {
      var stream := PollNext(e.wrapper).out[0].stream;
      assert Remaining(e.wrapper.Of(stream)) != [];
      assert |Handed(e.out, stream)| < |Flatten(Events(steps, stream), ZERO_HASH)|;
    }
  }

  /** The stream has been handed out to the end. */
  ghost predicate Complete<T>(e: Effect<T>, steps: seq<Step<T>>, stream: Stream) {
    Handed(e.out, stream) == Flatten(Events(steps, stream), ZERO_HASH)
  }

  /** The transaction of the stream that is due next. */
  ghost predicate IsDue<T>(e: Effect<T>, steps: seq<Step<T>>, o: Output<T>) {
    var all, done := Flatten(Events(steps, o.stream), ZERO_HASH), Handed(e.out, o.stream);
    |done| < |all| && done == all[..|done|] && o.tx == all[|done|]
  }

  lemma DueIsFirst<T>(a: PeerId, b: PeerId, steps: seq<Step<T>>, stream: Stream)
    ensures var e := Run(Fresh(a, b), steps);
      && (Complete(e, steps, stream) <==> Remaining(e.wrapper.Of(stream)) == [])
      && (Remaining(e.wrapper.Of(stream)) != [] ==> IsDue(e, steps, Output(stream, Remaining(e.wrapper.Of(stream))[0])))
  {
    TransactionStream(a, b, steps, stream);
    var e := Run(Fresh(a, b), steps);
    DueInSum(Handed(e.out, stream), Remaining(e.wrapper.Of(stream)), Flatten(Events(steps, stream), ZERO_HASH));
  }

  lemma DueInSum<A>(done: seq<A>, left: seq<A>, all: seq<A>)
    requires done + left == all
    ensures done == all <==> left == []
    ensures left != [] ==> |done| < |all| && done == all[..|done|] && left[0] == all[|done|]
  {
    assert |done| + |left| == |all|;
    assert left == [] ==> done + left == done;
    assert left != [] ==> (done + left)[|done|] == left[0];
  }

  /**
   In every run, a poll hands out the due transaction of the finalised stream if that has not been
   handed out completely, the due one of the recognised stream if only the finalised one has, and
   nothing if both have.
   */
  lemma PollHandsOut<T>(a: PeerId, b: PeerId, steps: seq<Step<T>>)
    ensures var e := Run(Fresh(a, b), steps);
      var out := Turn(e.wrapper, Poll).out;
      && ((|out| == 1 && out[0].stream == Finalized) <==> !Complete(e, steps, Finalized))
      && ((|out| == 1 && out[0].stream == Recognized) <==> Complete(e, steps, Finalized) && !Complete(e, steps, Recognized))
      && (out == [] <==> Complete(e, steps, Finalized) && Complete(e, steps, Recognized))
      && (out != [] ==> IsDue(e, steps, out[0]))
  {
    var e := Run(Fresh(a, b), steps);
    DueIsFirst(a, b, steps, Finalized);
    DueIsFirst(a, b, steps, Recognized);
    NextTxTakesFirst(e.wrapper.finalized);
    NextTxTakesFirst(e.wrapper.recognized);
  }

  // ---------- scheduling ----------

  function Scheduled<T>(steps: seq<Step<T>>): seq<T> {
    if steps == [] then [] else
    var last := steps[|steps| - 1];
    Scheduled(steps[..|steps| - 1]) + if last.ScheduleTx? then [last.tx] else []
  }

  predicate Takes<T>(step: Step<T>) {
    step.CreateStandalone? || (step.ApplySync? && Failed !in step.pushes)
  }

  /** The calls that drop what they took: the peer is unknown or the event cannot be created. */
  predicate Drops<T>(step: Step<T>)
    requires Takes(step)
  {
    !step.created || (step.ApplySync? && !step.peerKnown)
  }

  /** For each call that took the buffer, in order, whether it dropped it. */
  function Dropping<T>(steps: seq<Step<T>>): seq<bool> {
    if steps == [] then [] else
    var last := steps[|steps| - 1];
    Dropping(steps[..|steps| - 1]) + if Takes(last) then [Drops(last)] else []
  }

  function Join<T>(batches: seq<Batch<T>>): seq<T> {
    if batches == [] then [] else Join(batches[..|batches| - 1]) + batches[|batches| - 1].txs
  }

  /** The transactions that got into self-created events. */
  function Joined<T>(batches: seq<Batch<T>>): seq<T> {
    if batches == [] then [] else
    var last := batches[|batches| - 1];
    Joined(batches[..|batches| - 1]) + if last.InEvent? then last.txs else []
  }

  lemma PollKeepsScheduling<T>(w: Wrapper<T>)
    ensures PollNext(w).wrapper.included == w.included && PollNext(w).wrapper.batches == w.batches
  {
  }

  lemma TakenConserves<T>(w: Wrapper<T>, created: bool)
    ensures var w' := TakeBatch(w, created);
      && Join(w'.batches) + w'.included == Join(w.batches) + w.included
      && |w'.batches| == |w.batches| + 1 && w'.batches[..|w.batches|] == w.batches
      && w'.batches[|w.batches|].Lost? == !created
  {
    var w' := TakeBatch(w, created);
    assert w'.batches[..|w.batches|] == w.batches;
  }

  function NewlyScheduled<T>(step: Step<T>): seq<T> {
    if step.ScheduleTx? then [step.tx] else []
  }

  lemma TurnConserves<T>(w: Wrapper<T>, step: Step<T>)
    ensures var w' := Turn(w, step).wrapper;
      Join(w'.batches) + w'.included == Join(w.batches) + w.included + NewlyScheduled(step)
  {
    PollKeepsScheduling(w);
    if Takes(step) {
      TakenConserves(w, !Drops(step));
    }
  }

  lemma TurnBatches<T>(w: Wrapper<T>, step: Step<T>)
    ensures var w' := Turn(w, step).wrapper;
      && |w'.batches| == |w.batches| + (if Takes(step) then 1 else 0)
      && w'.batches[..|w.batches|] == w.batches
      && (Takes(step) ==> w'.batches[|w.batches|].Lost? == Drops(step))
  {
    PollKeepsScheduling(w);
    if Takes(step) {
      TakenConserves(w, !Drops(step));
    }
  }

  /**
   Over every run, the scheduled transactions in order are those of the batches taken, then those
   still in the buffer; and a batch is lost exactly when the call that took it then failed.
   */
  lemma {:induction false} SchedulingConserves<T>(a: PeerId, b: PeerId, steps: seq<Step<T>>)
    ensures var w := Run(Fresh(a, b), steps).wrapper;
      && Join(w.batches) + w.included == Scheduled(steps)
      && |w.batches| == |Dropping(steps)|
      && (forall i :: 0 <= i < |w.batches| ==> w.batches[i].Lost? == Dropping(steps)[i])
  {
    if steps != [] {
      var n := |steps| - 1;
      SchedulingConserves(a, b, steps[..n]);
      var before := Run(Fresh(a, b), steps[..n]).wrapper;
      TurnConserves(before, steps[n]);
      TurnBatches(before, steps[n]);
      var after := Turn(before, steps[n]).wrapper;
      forall i | 0 <= i < |before.batches|
        ensures after.batches[i].Lost? == Dropping(steps[..n])[i]
      {
        assert after.batches[i] == after.batches[..|before.batches|][i];
      }
    }
  }

  lemma {:induction false} JoinedLength<T>(batches: seq<Batch<T>>)
    ensures |Joined(batches)| <= |Join(batches)|
    ensures |Joined(batches)| == |Join(batches)| <==> LosesNothing(batches)
    ensures |Joined(batches)| == |Join(batches)| ==> Joined(batches) == Join(batches)
  {
    if batches != [] {
      var rest, last := batches[..|batches| - 1], batches[|batches| - 1];
      JoinedLength(rest);
      LosesSnoc(rest, last);
      assert batches == rest + [last];
    }
  }

  /** The transactions scheduled since the buffer was last taken. */
  function Buffered<T>(steps: seq<Step<T>>): seq<T> {
    if steps == [] then [] else
    var last := steps[|steps| - 1];
    if Takes(last) then [] else Buffered(steps[..|steps| - 1]) + NewlyScheduled(last)
  }

  /** No call that took the buffer and then failed did so when something had been scheduled since. */
  ghost predicate DropsOnlyEmpty<T>(steps: seq<Step<T>>) {
    forall k :: 0 <= k < |steps| && Takes(steps[k]) && Drops(steps[k]) ==> |Buffered(steps[..k])| == 0
  }

  ghost predicate LosesNothing<T>(batches: seq<Batch<T>>) {
    forall i :: 0 <= i < |batches| && batches[i].Lost? ==> batches[i].txs == []
  }

  lemma TurnBuffers<T>(w: Wrapper<T>, step: Step<T>)
    ensures var w' := Turn(w, step).wrapper;
      && w'.included == (if Takes(step) then [] else w.included + NewlyScheduled(step))
      && w'.batches == (if Takes(step) then w.batches + [if Drops(step) then Lost(w.included) else InEvent(w.included)] else w.batches)
  {
    PollKeepsScheduling(w);
  }

  lemma DropsSnoc<T>(steps: seq<Step<T>>)
    requires steps != []
    ensures var n := |steps| - 1;
      DropsOnlyEmpty(steps) <==>
      DropsOnlyEmpty(steps[..n]) && (Takes(steps[n]) && Drops(steps[n]) ==> |Buffered(steps[..n])| == 0)
  {
    var n := |steps| - 1;
    assert forall k :: 0 <= k < n ==> steps[..n][..k] == steps[..k] && steps[..n][k] == steps[k];
  }

  lemma {:induction false} BufferOfSteps<T>(a: PeerId, b: PeerId, steps: seq<Step<T>>)
    ensures Run(Fresh(a, b), steps).wrapper.included == Buffered(steps)
    ensures LosesNothing(Run(Fresh(a, b), steps).wrapper.batches) <==> DropsOnlyEmpty(steps)
  {
    if steps != [] {
      var n := |steps| - 1;
      BufferOfSteps(a, b, steps[..n]);
      var before := Run(Fresh(a, b), steps[..n]).wrapper;
      TurnBuffers(before, steps[n]);
      DropsSnoc(steps);
      if Takes(steps[n]) {
        LosesSnoc(before.batches, if Drops(steps[n]) then Lost(before.included) else InEvent(before.included));
      }
    }
  }

  lemma LosesSnoc<T>(batches: seq<Batch<T>>, batch: Batch<T>)
    ensures LosesNothing(batches + [batch]) <==> LosesNothing(batches) && (batch.Lost? ==> batch.txs == [])
  {
    var all := batches + [batch];
    assert all[|batches|] == batch && forall i :: 0 <= i < |batches| ==> all[i] == batches[i];
  }

  /**
   Every scheduled transaction is in an event or still in the buffer, exactly when no failing call
   took the buffer after something had been scheduled.
   */
  lemma NothingLostIff<T>(a: PeerId, b: PeerId, steps: seq<Step<T>>)
    ensures var w := Run(Fresh(a, b), steps).wrapper;
      Joined(w.batches) + w.included == Scheduled(steps) <==> DropsOnlyEmpty(steps)
  {
    var w := Run(Fresh(a, b), steps).wrapper;
    SchedulingConserves(a, b, steps);
    BufferOfSteps(a, b, steps);
    JoinedLength(w.batches);
    if Joined(w.batches) + w.included == Scheduled(steps) {
      assert |Joined(w.batches)| + |w.included| == |Join(w.batches)| + |w.included|;
    }
  }

  // ---------- the wrapper's state, updated in place ----------

  class GraphWrapper<T(==)> {
    var includedTransactionBuffer: seq<T>
    var finalized: Source<T>
    var recognized: Source<T>
    ghost var batches: seq<Batch<T>>

    ghost function View(): Wrapper<T>
      reads this
    {
      Wrapper(includedTransactionBuffer, finalized, recognized, batches)
    }

    constructor (a: PeerId, b: PeerId)
      ensures View() == Fresh(a, b)
    {
      includedTransactionBuffer, batches := [], [];
      finalized, recognized := Source(a, [], ZERO_HASH, []), Source(b, [], ZERO_HASH, []);
    }

    /** `next_tx`: the loop skips empty events. */
    static method Next(source: Source<T>) returns (source': Source<T>, tx: Option<Tx<T>>)
      ensures (source', tx) == NextTx(source)
    {
      source' := source;
      while true
        invariant NextTx(source') == NextTx(source)
        decreases |source'.pending|
      {
        if source'.txs != [] {
          tx := Some(Tx(source'.author, source'.txs[0], source'.hash));
          return source'.(txs := source'.txs[1..]), tx;
        }
        if source'.pending == [] {
          return source', None;
        }
        var event := source'.pending[0];
        var txs := event.payload;
        if txs != [] {
          source' := source'.(author := event.author, txs := txs[1..], pending := source'.pending[1..]);
          return source', Some(Tx(event.author, txs[0], event.hash));
        }
        source' := source'.(author := event.author, txs := [], pending := source'.pending[1..]);
      }
    }

    method Poll() returns (out: Option<Output<T>>)
      modifies this`finalized, this`recognized
      ensures View() == PollNext(old(View())).wrapper
      ensures PollNext(old(View())).out == if out.Some? then [out.value] else []
    {
      var tx;
      finalized, tx := Next(finalized);
      if tx.Some? {
        return Some(Output(Finalized, tx.value));
      }
      recognized, tx := Next(recognized);
      out := if tx.Some? then Some(Output(Recognized, tx.value)) else None;
    }

    method PushTx(tx: T)
      modifies this`includedTransactionBuffer
      ensures View() == Turn(old(View()), ScheduleTx(tx)).wrapper
    {
      includedTransactionBuffer := includedTransactionBuffer + [tx];
    }

    /** The parameters are what the graph answers to the calls made on it. */
    method DoApplySync(pushes: seq<PushResult>, peerKnown: bool, created: bool) returns (r: Result<(), ApplySyncError>)
      modifies this
      ensures View() == Turn(old(View()), ApplySync(pushes, peerKnown, created)).wrapper
      ensures r.Ok? <==> Failed !in pushes && peerKnown && created
      ensures Failed in pushes <==> r == Err(PushError)
      ensures r == Err(UnknownPeer) <==> Failed !in pushes && !peerKnown
      ensures r == Err(CreateError) <==> Failed !in pushes && peerKnown && !created
    {
      for i := 0 to |pushes|
        invariant Failed !in pushes[..i]
        invariant View() == old(View())
      {
        if pushes[i].Failed? {
          return Err(PushError);
        }
      }
      assert pushes[..|pushes|] == pushes;
      var txs := includedTransactionBuffer;
      includedTransactionBuffer := [];
      if !peerKnown {
        batches := batches + [Lost(txs)];
        return Err(UnknownPeer);
      }
      if !created {
        batches := batches + [Lost(txs)];
        return Err(CreateError);
      }
      batches := batches + [InEvent(txs)];
      includedTransactionBuffer := [];
      return Ok(());
    }

    method CreateStandaloneEvent(created: bool) returns (r: Result<(), ApplySyncError>)
      modifies this
      ensures View() == Turn(old(View()), CreateStandalone(created)).wrapper
      ensures r == if created then Ok(()) else Err(CreateError)
    {
      var txs := includedTransactionBuffer;
      includedTransactionBuffer := [];
      if !created {
        batches := batches + [Lost(txs)];
        return Err(CreateError);
      }
      batches := batches + [InEvent(txs)];
      return Ok(());
    }
  }
}
