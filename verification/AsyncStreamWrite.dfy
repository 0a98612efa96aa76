/** The write queue of a stream and the machine that empties it
    (fibjs/include/AsyncStream.h:666-694, 873-941). enqueueWrite runs on the caller's thread and
    AsyncStreamWriter on pool threads; each section under m_writeLock is one step, and so is each
    hand-over of the writer. */
module StreamWrites {
  import opened Results

  type Id = nat

  /** Where an AsyncStreamWriter is: about to run doWrite, waiting for writeBuffer, or waiting for
      the event its caller sets in the async phase. */
  datatype Writer = Fetching | Writing(id: Id) | Completing(id: Id, hr: Result)

  datatype Stream = Stream(
    queue: seq<Id>,              // m_writeQueue
    length: map<Id, nat>,        // length of the data of each write
    bytes: int,                  // m_writeBytes
    highWaterMark: nat,
    needDrain: bool,             // m_needDrain
    writer: Option<nat>,         // m_writer
    writers: map<nat, Writer>,   // the AsyncStreamWriter machines alive
    // what happened so far
    enqueued: seq<Id>,
    granted: map<Id, bool>,      // the value write() gives its caller
    completed: seq<Id>,          // continuations posted, in order
    answers: map<Id, Result>,    // the verdict each continuation was posted with
    episodes: nat,               // times backpressure began
    drains: nat)                 // times "drain" was decided

  function Start(highWaterMark: nat): (s: Stream) {
    Stream([], map[], 0, highWaterMark, false, None, map[], [], map[], [], map[], 0, 0)
  }

  datatype Op =
    | Enqueue(id: Id, len: nat, w: nat)      // w names the machine it makes, if it makes one
    | DoWrite(w: nat)
    | WriteEnds(w: nat, hr: Result)          // writeBuffer completed: write_done, or error if it failed
    | Complete(w: nat)                       // the event is set: post the continuation

  predicate Legal(s: Stream, op: Op) {
    match op
    case Enqueue(id, _, w) => id !in s.length && w !in s.writers
    case DoWrite(w) => w in s.writers && s.writers[w] == Fetching
    case WriteEnds(w, hr) => w in s.writers && s.writers[w].Writing? && !hr.IsPending()
    case Complete(w) => w in s.writers && s.writers[w].Completing?
  }

  function StepEnqueue(s: Stream, id: Id, len: nat, w: nat): (r: Stream) {
    var bytes := s.bytes + len;
    var backpressure := bytes >= s.highWaterMark;
    s.(length := s.length[id := len], bytes := bytes, queue := s.queue + [id],
       needDrain := s.needDrain || backpressure,
       writer := if s.writer.None? then Some(w) else s.writer,
       writers := if s.writer.None? then s.writers[w := Fetching] else s.writers,
       enqueued := s.enqueued + [id], granted := s.granted[id := !backpressure],
       episodes := if backpressure && !s.needDrain then s.episodes + 1 else s.episodes)
  }

  function StepDoWrite(s: Stream, w: nat): (r: Stream)
    requires w in s.writers && (s.queue != [] ==> s.queue[0] in s.length)
  {
    if s.queue == [] then
      s.(needDrain := false, writer := None, writers := s.writers - {w},
         drains := if s.needDrain then s.drains + 1 else s.drains)
    else
      s.(queue := s.queue[1..], bytes := s.bytes - s.length[s.queue[0]],
         writers := s.writers[w := Writing(s.queue[0])])
  }

  function Step(s: Stream, op: Op): (r: Stream)
    requires Legal(s, op) && (s.queue != [] ==> s.queue[0] in s.length)
  {
    match op
    case Enqueue(id, len, w) => StepEnqueue(s, id, len, w)
    case DoWrite(w) => StepDoWrite(s, w)
    case WriteEnds(w, hr) =>
      s.(writers := s.writers[w := Completing(s.writers[w].id, hr)])
    case Complete(w) =>
      s.(writers := s.writers[w := Fetching], completed := s.completed + [s.writers[w].id],
         answers := s.answers[s.writers[w].id := s.writers[w].hr])
  }

  // ---------------------------------------------------------------------------------------------
  // Invariant

  function Total(queue: seq<Id>, length: map<Id, nat>): (n: nat) {
    if queue == [] then 0 else (if queue[0] in length then length[queue[0]] else 0) + Total(queue[1..], length)
  }

  lemma {:induction false} TotalPushed(queue: seq<Id>, length: map<Id, nat>, id: Id, len: nat)
    requires forall i :: 0 <= i < |queue| ==> queue[i] in length && queue[i] != id
    ensures Total(queue + [id], length[id := len]) == Total(queue, length) + len
  {
    if queue != [] {
      TotalPushed(queue[1..], length, id, len);
      assert (queue + [id])[1..] == queue[1..] + [id];
    }
  }

  /** The write taken out of the queue and not completed yet. */
  function InHand(s: Stream): (ids: seq<Id>) {
    if s.writer.Some? && s.writer.value in s.writers then
      match s.writers[s.writer.value]
      case Fetching => []
      case Writing(id) => [id]
      case Completing(id, _) => [id]
    else []
  }

  ghost predicate Inv(s: Stream) {
    && s.writers.Keys == (if s.writer.Some? then {s.writer.value} else {})
    && (s.queue != [] ==> s.writer.Some?)
    && s.bytes == Total(s.queue, s.length)
    && (forall i :: 0 <= i < |s.queue| ==> s.queue[i] in s.length)
    && s.enqueued == s.completed + InHand(s) + s.queue
    && (forall i :: 0 <= i < |s.enqueued| ==> s.enqueued[i] in s.length)
    && (forall i, j :: 0 <= i < j < |s.enqueued| ==> s.enqueued[i] != s.enqueued[j])
    && s.episodes == s.drains + (if s.needDrain then 1 else 0)
    && (s.needDrain ==> s.writer.Some?)
  }

  lemma EnqueueKeeps(s: Stream, id: Id, len: nat, w: nat)
    requires Inv(s) && Legal(s, Enqueue(id, len, w))
    ensures Inv(StepEnqueue(s, id, len, w))
  {
    var r := StepEnqueue(s, id, len, w);
    TotalPushed(s.queue, s.length, id, len);
    assert InHand(r) == InHand(s);
    assert r.enqueued == s.completed + InHand(s) + (s.queue + [id]);
  }

  lemma DoWriteKeeps(s: Stream, w: nat)
    requires Inv(s) && Legal(s, DoWrite(w))
    ensures Inv(StepDoWrite(s, w))
  {
    var r := StepDoWrite(s, w);
    assert s.writer == Some(w);
    if s.queue != [] {
      assert s.queue == [s.queue[0]] + s.queue[1..];
      assert r.enqueued == s.completed + [s.queue[0]] + s.queue[1..];
    }
  }

  lemma InHandIsNew(s: Stream)
    requires s.enqueued == s.completed + InHand(s) + s.queue
    requires forall i, j :: 0 <= i < j < |s.enqueued| ==> s.enqueued[i] != s.enqueued[j]
    ensures forall i :: 0 <= i < |s.completed| ==> s.completed[i] !in InHand(s)
  {
    assert forall i :: 0 <= i < |s.completed| ==> s.enqueued[i] == s.completed[i];
    assert forall j :: 0 <= j < |InHand(s)| ==> s.enqueued[|s.completed| + j] == InHand(s)[j];
  }

  lemma StepKeeps(s: Stream, op: Op)
    requires Inv(s) && Legal(s, op)
    ensures Inv(Step(s, op))
  {
    match op
    case Enqueue(id, len, w) => EnqueueKeeps(s, id, len, w);
    case DoWrite(w) => DoWriteKeeps(s, w);
    case WriteEnds(w, hr) =>
      assert s.writer == Some(w) && s.enqueued == s.completed + [s.writers[w].id] + s.queue;
      InHandIsNew(s);
    case Complete(w) =>
      assert s.writer == Some(w) && s.enqueued == s.completed + [s.writers[w].id] + s.queue;
      InHandIsNew(s);
      assert Step(s, op).enqueued == s.completed + [s.writers[w].id] + s.queue;
  }

  ghost predicate Run(s: Stream, ops: seq<Op>, s': Stream)
    decreases |ops|
  {
    if ops == [] then s == s'
    else Legal(s, ops[0]) && (s.queue != [] ==> s.queue[0] in s.length) && Run(Step(s, ops[0]), ops[1..], s')
  }

  lemma {:induction false} RunKeeps(s: Stream, ops: seq<Op>, s': Stream)
    requires Inv(s) && Run(s, ops, s')
    ensures Inv(s')
    decreases |ops|
  {
    if ops != [] {
      StepKeeps(s, ops[0]);
      RunKeeps(Step(s, ops[0]), ops[1..], s');
    }
  }

  // ---------------------------------------------------------------------------------------------
  // Main results

  // What the calls alone say.

  /** The writes in the order of their calls. */
  function Enqueues(ops: seq<Op>): (ids: seq<Id>) {
    if ops == [] then []
    else Enqueues(ops[..|ops| - 1]) + if ops[|ops| - 1].Enqueue? then [ops[|ops| - 1].id] else []
  }

  function LengthsOf(ops: seq<Op>): (length: map<Id, nat>) {
    if ops == [] then map[]
    else
      var before := LengthsOf(ops[..|ops| - 1]);
      match ops[|ops| - 1] case Enqueue(id, len, _) => before[id := len] case _ => before
  }

  /** Writes not taken yet: each doWrite takes the oldest. */
  function QueueOf(ops: seq<Op>): (queue: seq<Id>) {
    if ops == [] then []
    else
      var before := QueueOf(ops[..|ops| - 1]);
      match ops[|ops| - 1]
      case Enqueue(id, _, _) => before + [id]
      case DoWrite(_) => if before == [] then [] else before[1..]
      case _ => before
  }

  /** The bytes of the writes not taken yet. */
  function BytesOf(ops: seq<Op>): (n: nat) { Total(QueueOf(ops), LengthsOf(ops)) }

  /** What writeBuffer answered, in order. */
  function Answers(ops: seq<Op>): (hrs: seq<Result>) {
    if ops == [] then []
    else Answers(ops[..|ops| - 1]) + if ops[|ops| - 1].WriteEnds? then [ops[|ops| - 1].hr] else []
  }

  function Completions(ops: seq<Op>): (n: nat) {
    if ops == [] then 0 else Completions(ops[..|ops| - 1]) + if ops[|ops| - 1].Complete? then 1 else 0
  }

  /** The call of write() at `k` is refused. */
  predicate RefusedAt(ops: seq<Op>, k: nat, highWaterMark: nat)
    requires k < |ops|
  {
    ops[k].Enqueue? && BytesOf(ops[..k]) + ops[k].len >= highWaterMark
  }

  /** A write was refused and the queue was not seen empty since. */
  predicate Owing(ops: seq<Op>, highWaterMark: nat) {
    if ops == [] then false
    else
      var k := |ops| - 1;
      if ops[k].DoWrite? && QueueOf(ops[..k]) == [] then false
      else RefusedAt(ops, k, highWaterMark) || Owing(ops[..k], highWaterMark)
  }

  /** "drain" is decided at `k`. */
  predicate DrainAt(ops: seq<Op>, k: nat, highWaterMark: nat)
    requires k < |ops|
  {
    ops[k].DoWrite? && QueueOf(ops[..k]) == [] && Owing(ops[..k], highWaterMark)
  }

  function DrainsOf(ops: seq<Op>, highWaterMark: nat): (n: nat) {
    if ops == [] then 0
    else DrainsOf(ops[..|ops| - 1], highWaterMark) + if DrainAt(ops, |ops| - 1, highWaterMark) then 1 else 0
  }

  ghost predicate Agrees(s: Stream, ops: seq<Op>) {
    && s.enqueued == Enqueues(ops) && s.queue == QueueOf(ops) && s.length == LengthsOf(ops)
    && s.needDrain == Owing(ops, s.highWaterMark) && s.drains == DrainsOf(ops, s.highWaterMark)
    && |s.completed| == Completions(ops)
  }

  /** The answers posted so far, and the one about to be, are those of writeBuffer in order. */
  ghost predicate Answered(s: Stream, hrs: seq<Result>) {
    && (forall i :: 0 <= i < |s.completed| ==>
          i < |hrs| && s.completed[i] in s.answers && s.answers[s.completed[i]] == hrs[i])
    && if s.writer.Some? && s.writer.value in s.writers && s.writers[s.writer.value].Completing?
       then |hrs| == |s.completed| + 1 && s.writers[s.writer.value].hr == hrs[|s.completed|]
       else |hrs| == |s.completed|
  }

  lemma {:induction false} RunLast(s: Stream, ops: seq<Op>, s': Stream) returns (mid: Stream)
    requires Run(s, ops, s') && ops != []
    ensures Run(s, ops[..|ops| - 1], mid) && Legal(mid, ops[|ops| - 1])
    ensures (mid.queue != [] ==> mid.queue[0] in mid.length) && s' == Step(mid, ops[|ops| - 1])
    decreases |ops|
  {
    hide Step, Legal;
    if |ops| == 1 {
      mid := s;
      assert ops[1..] == [];
    } else {
      mid := RunLast(Step(s, ops[0]), ops[1..], s');
      assert ops[1..][..|ops| - 2] == ops[..|ops| - 1][1..];
    }
  }

  lemma AgreesKept(s: Stream, before: seq<Op>, op: Op)
    requires Inv(s) && Agrees(s, before) && Legal(s, op)
    ensures Agrees(Step(s, op), before + [op])
  {
    var ops := before + [op];
    assert ops[..|ops| - 1] == before && ops[|ops| - 1] == op;
  }

  lemma AnsweredKept(s: Stream, before: seq<Op>, op: Op)
    requires Inv(s) && Answered(s, Answers(before)) && Legal(s, op)
    ensures Answered(Step(s, op), Answers(before + [op]))
  {
    var ops := before + [op];
    assert ops[..|ops| - 1] == before && ops[|ops| - 1] == op;
    if op.Complete? {
      assert s.writer == Some(op.w) && s.enqueued == s.completed + [s.writers[op.w].id] + s.queue;
      InHandIsNew(s);
    }
  }

  lemma {:induction false} StateIsHistory(s0: Stream, ops: seq<Op>, s: Stream)
    requires s0 == Start(s0.highWaterMark) && Run(s0, ops, s)
    ensures Inv(s) && Agrees(s, ops) && Answered(s, Answers(ops)) && s.highWaterMark == s0.highWaterMark
    decreases |ops|
  {
    StartAgrees(s0);
    RunKeeps(s0, ops, s);
    hide Inv, Agrees, Answered, Step, Legal, Start;
    if ops != [] {
      var n := |ops| - 1;
      var mid := RunLast(s0, ops, s);
      StateIsHistory(s0, ops[..n], mid);
      AgreesKept(mid, ops[..n], ops[n]);
      AnsweredKept(mid, ops[..n], ops[n]);
      SameMark(mid, ops[n]);
      assert ops[..n] + [ops[n]] == ops;
    }
  }

  lemma StartAgrees(s: Stream)
    requires s == Start(s.highWaterMark)
    ensures Inv(s) && Agrees(s, []) && Answered(s, Answers([]))
  {
  }

  lemma SameMark(s: Stream, op: Op)
    requires Legal(s, op) && (s.queue != [] ==> s.queue[0] in s.length)
    ensures Step(s, op).highWaterMark == s.highWaterMark
  {
  }

  /** Every run, told by its calls: the i-th continuation posted is that of the i-th write, posted once, with the i-th
      answer of writeBuffer, whatever that is; at most one machine works on the queue, on one write at a time, and a
      non-empty queue has one. */
  lemma CompletedOnceInOrder(s0: Stream, ops: seq<Op>, s: Stream)
    requires s0 == Start(s0.highWaterMark) && Run(s0, ops, s)
    ensures |s.completed| == Completions(ops) <= |Answers(ops)| && s.completed <= Enqueues(ops)
    ensures forall i, j :: 0 <= i < j < |s.completed| ==> s.completed[i] != s.completed[j]
    ensures s.writers == map[] ==> s.completed == Enqueues(ops)
    ensures forall i :: 0 <= i < |s.completed| ==>
              s.completed[i] in s.answers && s.answers[s.completed[i]] == Answers(ops)[i]
    ensures forall a, b :: a in s.writers && b in s.writers ==> a == b
    ensures s.queue == QueueOf(ops) && (s.queue != [] ==> s.writer.Some? && s.writer.value in s.writers)
  {
    StateIsHistory(s0, ops, s);
    assert forall i :: 0 <= i < |s.completed| ==> s.enqueued[i] == s.completed[i];
    if s.writers == map[] {
      assert s.writer.None?;
      assert s.completed + [] + [] == s.completed;
    }
  }

  /** Every run: the byte count is the sum over the writes not taken, and a write is granted exactly when it leaves
      less than the high-water mark queued. */
  lemma BytesAreQueued(s0: Stream, ops: seq<Op>, s: Stream)
    requires s0 == Start(s0.highWaterMark) && Run(s0, ops, s)
    ensures s.bytes == BytesOf(ops)
    ensures forall id, len, w :: Legal(s, Enqueue(id, len, w)) ==>
              (StepEnqueue(s, id, len, w).granted[id] <==> BytesOf(ops) + len < s0.highWaterMark)
  {
    StateIsHistory(s0, ops, s);
  }

  /** Every run: "drain" is decided as often as a doWrite finds the queue empty with a refused write since the last
      time, once for each time backpressure began, and no later than the moment the writer retires. */
  lemma OneDrainPerEpisode(s0: Stream, ops: seq<Op>, s: Stream)
    requires s0 == Start(s0.highWaterMark) && Run(s0, ops, s)
    ensures s.drains == DrainsOf(ops, s0.highWaterMark) && s.needDrain == Owing(ops, s0.highWaterMark)
    ensures s.drains <= s.episodes <= s.drains + 1
    ensures s.writers == map[] ==> s.drains == s.episodes
  {
    StateIsHistory(s0, ops, s);
    hide Run, InHand, Total;
  }

  /** Every refused write is followed by a "drain": the next time doWrite finds the queue empty, or before. */
  lemma {:induction false} RefusedThenDrained(ops: seq<Op>, i: nat, j: nat, highWaterMark: nat) returns (k: nat)
    requires i < j < |ops| && RefusedAt(ops, i, highWaterMark) && ops[j].DoWrite? && QueueOf(ops[..j]) == []
    ensures i < k <= j && DrainAt(ops, k, highWaterMark)
  {
    k := i + 1;
    assert ops[..k][..i] == ops[..i] && RefusedAt(ops[..k], i, highWaterMark);
    while !DrainAt(ops, k, highWaterMark)
      invariant i < k <= j && Owing(ops[..k], highWaterMark)
      decreases j - k
    {
      assert ops[..k + 1][..k] == ops[..k];
      k := k + 1;
    }
  }

  // ---------------------------------------------------------------------------------------------
  // The object

  class AsyncStream {
    var queue: seq<Id>
    var length: map<Id, nat>
    var bytes: int
    const highWaterMark: nat
    var needDrain: bool
    var writer: Option<nat>
    var writers: map<nat, Writer>
    var enqueued: seq<Id>
    var granted: map<Id, bool>
    var completed: seq<Id>
    var answers: map<Id, Result>
    var episodes: nat
    var drains: nat

    ghost function Now(): Stream
      reads this
    {
      Stream(queue, length, bytes, highWaterMark, needDrain, writer, writers, enqueued, granted, completed, answers, episodes,
             drains)
    }

    constructor (highWaterMark: nat)
      ensures Now() == Start(highWaterMark)
    {
      this.highWaterMark := highWaterMark;
      queue, length, bytes, needDrain, writer, writers := [], map[], 0, false, None, map[];
      enqueued, granted, completed, answers, episodes, drains := [], map[], [], map[], 0, 0;
    }

    /** `w` names the machine made when there is none; the answer is what write() tells its caller. */
    method EnqueueWrite(id: Id, len: nat, w: nat) returns (retVal: bool)
      requires id !in length && w !in writers
      modifies this
      ensures Now() == StepEnqueue(old(Now()), id, len, w) && retVal == granted[id]
    {
      var backpressure := bytes + len >= highWaterMark;
      retVal := !backpressure;
      Push(id, len, retVal);
      BeginEpisode(backpressure);
      EnsureWriter(w);
    }

    method Push(id: Id, len: nat, ok: bool)
      modifies this`bytes, this`length, this`granted, this`queue, this`enqueued
      ensures bytes == old(bytes) + len && length == old(length)[id := len] && granted == old(granted)[id := ok]
      ensures queue == old(queue) + [id] && enqueued == old(enqueued) + [id]
    {
      bytes, length, granted := bytes + len, length[id := len], granted[id := ok];
      queue, enqueued := queue + [id], enqueued + [id];
    }

    method EnsureWriter(w: nat)
      modifies this`writer, this`writers
      ensures writer == if old(writer).None? then Some(w) else old(writer)
      ensures writers == if old(writer).None? then old(writers)[w := Fetching] else old(writers)
    {
      if writer.None? {
        writer := Some(w);
        writers := writers[w := Fetching];
      }
    }

    method BeginEpisode(backpressure: bool)
      modifies this`needDrain, this`episodes
      ensures needDrain == (old(needDrain) || backpressure)
      ensures episodes == old(episodes) + (if backpressure && !old(needDrain) then 1 else 0)
    {
      if backpressure {
        if !needDrain {
          episodes := episodes + 1;
        }
        needDrain := true;
      }
    }

    /** The state doWrite: retire, or take the oldest write; true when "drain" is emitted. */
    method DoWriteState(w: nat) returns (drain: bool)
      requires Legal(Now(), DoWrite(w)) && (queue != [] ==> queue[0] in length)
      modifies this
      ensures Now() == StepDoWrite(old(Now()), w)
      ensures drain <==> old(queue) == [] && old(needDrain)
    {
      if |queue| == 0 {
        drain := needDrain;
        if drain {
          drains := drains + 1;
        }
        needDrain, writer, writers := false, None, writers - {w};
        return;
      }
      var id := queue[0];
      queue := queue[1..];
      bytes := bytes - length[id];
      writers := writers[w := Writing(id)];
      drain := false;
    }

    /** writeBuffer comes back, to write_done or to error. */
    method WriteEnded(w: nat, hr: Result)
      requires Legal(Now(), WriteEnds(w, hr)) && (queue != [] ==> queue[0] in length)
      modifies this
      ensures Now() == Step(old(Now()), WriteEnds(w, hr))
    {
      var id := writers[w].id;
      writers := writers[w := Completing(id, hr)];
    }

    /** write_done and error: both post the continuation and go back to doWrite. */
    method Done(w: nat)
      requires Legal(Now(), Complete(w)) && (queue != [] ==> queue[0] in length)
      modifies this
      ensures Now() == Step(old(Now()), Complete(w))
    {
      match writers[w]
      case Completing(id, hr) =>
        completed := completed + [id];
        answers := answers[id := hr];
        writers := writers[w := Fetching];
    }
  }
}
