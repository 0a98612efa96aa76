/** The write queue of a libuv stream (fibjs/include/UVStream.h:237-391, 530-547, 603-617).
    All of it runs on the uv loop thread, so each callback is one step. libuv itself is the contract
    of uv_write: a call that is accepted is answered by exactly one on_write, a refused one by none. */
module UVStreams {
  import opened Results

  type Id = nat

  /** What a continuation is posted with: a status, 0 for success, or the timeout. */
  datatype Answer = Status(code: int) | TimedOut

  /** uv_status: what is not negative is a success. */
  function UvStatus(status: int): (answer: Answer) { Status(if status < 0 then status else 0) }

  /** An AsyncWrite. `held` and `refused` are libuv's side: it has the request and will call back,
      or it turned the request down. */
  datatype Req = Req(
    timed: bool,           // m_timeout > 0
    inflight: bool, inQueue: bool, posted: bool, timerStarted: bool,
    held: bool, refused: bool,
    submitted: nat,        // calls of uv_write
    finalized: nat)        // calls of finalize()

  datatype State = State(
    queue: seq<Id>,        // queue_write
    reqs: map<Id, Req>,
    waiters: seq<Id>,      // m_flush_waiters
    // what happened so far
    enqueued: seq<Id>,     // requests in the order of their invoke()
    posts: seq<Id>,        // requests whose continuation was posted, in order
    answers: seq<Answer>,  // what each was posted with
    asked: seq<Id>,        // flush() calls, in order
    woken: seq<Id>,        // flush continuations posted, in order
    told: seq<Answer>)     // what each was posted with

  const EMPTY := State([], map[], [], [], [], [], [], [], [])

  datatype Op =
    | Invoke(id: Id, timed: bool, ret: int)       // ret is what uv_write answers, if it is called: 0, or an error
    | OnWrite(id: Id, status: int, ret: int)
    | OnTimeout(id: Id)
    | Flush(id: Id)
    | Abort

  /** Callbacks come only from libuv: on_write for a request it holds, the timer of a request that
      started it and was not finalized (finalize() cancels the timer). */
  predicate Legal(s: State, op: Op) {
    match op
    case Invoke(id, _, ret) => id !in s.reqs && ret <= 0
    case OnWrite(id, _, ret) => id in s.reqs && s.reqs[id].held && ret <= 0
    case OnTimeout(id) => id in s.reqs && s.reqs[id].timerStarted && s.reqs[id].finalized == 0
    case Flush(_) => true
    case Abort => true
  }

  ghost predicate Known(s: State) { forall i :: 0 <= i < |s.queue| ==> s.queue[i] in s.reqs }

  /** post_result_only */
  function Post(s: State, id: Id, answer: Answer): (r: State)
    requires id in s.reqs
    ensures r.reqs.Keys == s.reqs.Keys && r.queue == s.queue
  {
    if s.reqs[id].posted then s
    else s.(reqs := s.reqs[id := s.reqs[id].(posted := true)], posts := s.posts + [id], answers := s.answers + [answer])
  }

  function Finalize(s: State, id: Id): (r: State)
    requires id in s.reqs
    ensures r.reqs.Keys == s.reqs.Keys && r.queue == s.queue
  {
    s.(reqs := s.reqs[id := s.reqs[id].(finalized := s.reqs[id].finalized + 1)])
  }

  /** One code for everybody. */
  function All(n: nat, code: int): (answers: seq<Answer>)
    ensures |answers| == n
  {
    seq(n, _ => UvStatus(code))
  }

  function Notify(s: State, code: int): (r: State) {
    s.(woken := s.woken + s.waiters, told := s.told + All(|s.waiters|, code), waiters := [])
  }

  /** The turn of the loop in post_all_result for the head of the queue. */
  function PostHead(s: State, code: int): (r: State)
    requires s.queue != [] && s.queue[0] in s.reqs
    ensures r.queue == s.queue[1..] && r.reqs.Keys == s.reqs.Keys
  {
    var id := s.queue[0];
    var s1 := s.(queue := s.queue[1..], reqs := s.reqs[id := s.reqs[id].(inQueue := false)]);
    var s2 := Post(s1, id, UvStatus(code));
    if s2.reqs[id].inflight then s2 else Finalize(s2, id)
  }

  function PostAll(s: State, code: int): (r: State)
    requires Known(s)
    ensures r.reqs.Keys == s.reqs.Keys
    decreases |s.queue|
  {
    if s.queue == [] then Notify(s, code) else PostAll(PostHead(s, code), code)
  }

  /** The call of uv_write for the head of the queue, and libuv's answer. */
  function Submitted(s: State, accepted: bool): (r: State)
    requires Known(s) && s.queue != []
    ensures r.reqs.Keys == s.reqs.Keys && r.queue == s.queue
  {
    var id := s.queue[0];
    var q := s.reqs[id];
    s.(reqs := s.reqs[id := q.(inflight := true, timerStarted := q.timerStarted || q.timed,
                               held := q.held || accepted, refused := q.refused || !accepted,
                               submitted := q.submitted + 1)])
  }

  /** Making the head of the queue the request in flight. */
  function Submit(s: State, ret: int): (r: State)
    requires Known(s) && s.queue != []
    ensures r.reqs.Keys == s.reqs.Keys
  {
    if ret == 0 then Submitted(s, true) else PostAll(Submitted(s, false), ret)
  }

  function Enqueued(s: State, id: Id, timed: bool): (r: State) {
    s.(reqs := s.reqs[id := Req(timed, false, true, false, false, false, false, 0, 0)],
       queue := s.queue + [id], enqueued := s.enqueued + [id])
  }

  function StepInvoke(s: State, id: Id, timed: bool, ret: int): (r: State)
    requires Known(s) && id !in s.reqs
  {
    var s1 := Enqueued(s, id, timed);
    if |s1.queue| == 1 then Submit(s1, ret) else s1
  }

  /** std::list::remove */
  function Drop(q: seq<Id>, id: Id): (r: seq<Id>)
    ensures forall i :: 0 <= i < |r| ==> r[i] in q
  {
    if q == [] then [] else if q[0] == id then Drop(q[1..], id) else [q[0]] + Drop(q[1..], id)
  }

  /** on_write for a request that came back: out of the queue, answered, finalized. */
  function Completed(s: State, id: Id, status: int): (r: State)
    requires Known(s) && id in s.reqs
    ensures Known(r) && r.reqs.Keys == s.reqs.Keys
  {
    var s1 := s.(reqs := s.reqs[id := s.reqs[id].(inflight := false, held := false, inQueue := false)],
                 queue := if !s.reqs[id].inQueue then s.queue
                          else if s.queue != [] && s.queue[0] == id then s.queue[1..]
                          else Drop(s.queue, id));
    Finalize(Post(s1, id, UvStatus(status)), id)
  }

  /** on_write after that. */
  function GoOn(s: State, status: int, ret: int): (r: State)
    requires Known(s)
  {
    if status < 0 then PostAll(s, status)
    else if s.queue != [] then Submit(s, ret)
    else Notify(s, 0)
  }

  function StepOnWrite(s: State, id: Id, status: int, ret: int): (r: State)
    requires Known(s) && id in s.reqs
  {
    GoOn(Completed(s, id, status), status, ret)
  }

  function StepOnTimeout(s: State, id: Id): (r: State)
    requires id in s.reqs
  {
    if s.reqs[id].posted then s
    else
      var s1 := if !s.reqs[id].inflight && s.reqs[id].inQueue
                then s.(queue := Drop(s.queue, id), reqs := s.reqs[id := s.reqs[id].(inQueue := false)])
                else s;
      var s2 := Post(s1, id, TimedOut);
      if s.reqs[id].inflight then s2 else Finalize(s2, id)
  }

  /** abort(), on the loop thread. */
  function Aborted(s: State, code: int): (r: State)
    requires Known(s)
    ensures r.reqs.Keys == s.reqs.Keys
  {
    if s.queue != [] then PostAll(s, code) else s
  }

  function Step(s: State, op: Op): (r: State)
    requires Known(s) && Legal(s, op)
  {
    match op
    case Invoke(id, timed, ret) => StepInvoke(s, id, timed, ret)
    case OnWrite(id, status, ret) => StepOnWrite(s, id, status, ret)
    case OnTimeout(id) => StepOnTimeout(s, id)
    case Flush(id) =>
      if s.queue == [] then s.(asked := s.asked + [id], woken := s.woken + [id], told := s.told + [Status(0)])
      else s.(asked := s.asked + [id], waiters := s.waiters + [id])
    case Abort => Aborted(s, CALL_E_ABORT)
  }

  // ---------------------------------------------------------------------------------------------
  // Invariant

  ghost predicate Distinct(q: seq<Id>) { forall i, j :: 0 <= i < j < |q| ==> q[i] != q[j] }

  /** A request that left the queue: answered, and finalized unless libuv had refused it. */
  predicate Finished(q: Req) {
    && !q.inQueue && q.posted && !q.held && q.submitted <= 1
    && q.inflight == q.refused && q.finalized == if q.refused then 0 else 1
  }

  /** A request that abort() took off the queue while libuv had it. */
  predicate Lingering(q: Req) {
    !q.inQueue && q.posted && q.held && q.inflight && !q.refused && q.finalized == 0 && q.submitted == 1
  }

  ghost predicate NoneLingers(s: State) { forall id :: id in s.reqs ==> !Lingering(s.reqs[id]) }

  ghost predicate OneLingers(s: State) {
    forall a, b :: a in s.reqs && b in s.reqs && Lingering(s.reqs[a]) && Lingering(s.reqs[b]) ==> a == b
  }

  /** A request in the queue that libuv does not have, perhaps just turned down. */
  predicate Waiting(q: Req) {
    && q.inQueue && !q.posted && !q.held && q.finalized == 0
    && q.inflight == q.refused && q.submitted <= 1
  }

  predicate Untried(q: Req) { Waiting(q) && !q.inflight && !q.timerStarted && q.submitted == 0 }

  /** A request given to libuv, perhaps already answered by its timeout. */
  predicate Active(q: Req) {
    q.inQueue && q.inflight && q.held && !q.refused && q.finalized == 0 && q.submitted == 1
  }

  /** The queue lists each queued request once; the others are finished, or one of them lingers. */
  ghost predicate Listed(s: State) {
    && Known(s) && Distinct(s.queue) && OneLingers(s)
    && (forall i :: 0 <= i < |s.queue| ==> s.reqs[s.queue[i]].inQueue)
    && (forall id :: id in s.reqs && s.reqs[id].inQueue ==> id in s.queue)
    && (forall id :: id in s.reqs && !s.reqs[id].inQueue ==> Finished(s.reqs[id]) || Lingering(s.reqs[id]))
  }

  ghost predicate Draining(s: State) {
    Listed(s) && forall i :: 0 <= i < |s.queue| ==> Waiting(s.reqs[s.queue[i]])
  }

  ghost predicate Idle(s: State) {
    Listed(s) && forall i :: 0 <= i < |s.queue| ==> Untried(s.reqs[s.queue[i]])
  }

  /** The head is the one request libuv has. */
  ghost predicate Working(s: State) {
    && Listed(s) && (s.queue != [] ==> NoneLingers(s))
    && forall i :: 0 <= i < |s.queue| ==>
      if i == 0 then Active(s.reqs[s.queue[i]]) else Untried(s.reqs[s.queue[i]])
  }

  /** The continuations not posted yet. */
  function Unanswered(s: State): (ids: seq<Id>)
    requires s.queue != [] ==> s.queue[0] in s.reqs
  {
    if s.queue != [] && s.reqs[s.queue[0]].posted then s.queue[1..] else s.queue
  }

  /** Continuations are posted in the order of the requests. */
  ghost predicate Ordered(s: State) {
    && (s.queue != [] ==> s.queue[0] in s.reqs)
    && s.enqueued == s.posts + Unanswered(s)
    && (s.queue != [] && s.reqs[s.queue[0]].posted ==> s.posts != [] && s.posts[|s.posts| - 1] == s.queue[0])
  }

  /** Every request was enqueued, once. */
  ghost predicate Logged(s: State) {
    (forall id :: id in s.enqueued <==> id in s.reqs) && Distinct(s.enqueued)
  }

  ghost predicate Flushes(s: State) {
    s.asked == s.woken + s.waiters && (s.waiters != [] ==> s.queue != [])
  }

  ghost predicate Inv(s: State) { Working(s) && Ordered(s) && Logged(s) && Flushes(s) }

  /** The head leaves the queue, finished or to linger; nothing else changes. */
  lemma HeadLeaves(s: State, r: State, q: Req)
    requires Listed(s) && s.queue != [] && (Finished(q) || (Lingering(q) && NoneLingers(s)))
    requires r.queue == s.queue[1..] && r.reqs == s.reqs[s.queue[0] := q]
    ensures Listed(r) && (Finished(q) && NoneLingers(s) ==> NoneLingers(r))
    ensures forall i :: 0 <= i < |r.queue| ==>
              r.queue[i] == s.queue[i + 1] && r.queue[i] in r.reqs && r.reqs[r.queue[i]] == s.reqs[s.queue[i + 1]]
  {
    HeadLingers(s, r, q);
    HeadOut(s, r, q);
    hide Distinct, OneLingers, NoneLingers, Finished, Lingering;
  }

  lemma HeadOut(s: State, r: State, q: Req)
    requires Known(s) && Distinct(s.queue) && s.queue != []
    requires r.queue == s.queue[1..] && r.reqs == s.reqs[s.queue[0] := q]
    ensures Known(r) && Distinct(r.queue) && forall x :: x in r.queue <==> x in s.queue && x != s.queue[0]
    ensures forall i :: 0 <= i < |r.queue| ==>
              r.queue[i] == s.queue[i + 1] && r.queue[i] in r.reqs && r.reqs[r.queue[i]] == s.reqs[s.queue[i + 1]]
  {
    assert s.queue == [s.queue[0]] + r.queue;
    assert forall i :: 0 <= i < |r.queue| ==> r.queue[i] == s.queue[i + 1] && r.queue[i] != s.queue[0];
  }

  lemma HeadLingers(s: State, r: State, q: Req)
    requires OneLingers(s) && s.queue != [] && (Finished(q) || (Lingering(q) && NoneLingers(s)))
    requires r.reqs == s.reqs[s.queue[0] := q]
    ensures OneLingers(r) && (Finished(q) && NoneLingers(s) ==> NoneLingers(r))
  {
  }

  lemma PostHeadDrains(s: State, code: int)
    requires Draining(s) && s.queue != []
    ensures var r := PostHead(s, code);
            && r == s.(queue := s.queue[1..], reqs := r.reqs, posts := s.posts + [s.queue[0]],
                       answers := s.answers + [UvStatus(code)])
            && Draining(r)
  {
    var r := PostHead(s, code);
    var q := r.reqs[s.queue[0]];
    assert Waiting(s.reqs[s.queue[0]]);
    HeadLeaves(s, r, q);
    hide Listed;
  }

  lemma Regroup(p: seq<Id>, q: seq<Id>)
    requires q != []
    ensures p + q == (p + [q[0]]) + q[1..]
  {
  }

  lemma AllMore(answers: seq<Answer>, n: nat, code: int)
    requires n > 0
    ensures answers + [UvStatus(code)] + All(n - 1, code) == answers + All(n, code)
  {
  }

  /** post_all_result answers the whole queue in order, wakes the flush waiters, both with its code, and leaves nothing
      queued. */
  lemma {:induction false} PostAllDrains(s: State, code: int)
    requires Draining(s)
    ensures var r := PostAll(s, code);
            && Draining(r) && r.queue == [] && r.waiters == []
            && r.posts == s.posts + s.queue && r.answers == s.answers + All(|s.queue|, code)
            && r.woken == s.woken + s.waiters && r.told == s.told + All(|s.waiters|, code)
            && r.enqueued == s.enqueued && r.asked == s.asked && r.reqs.Keys == s.reqs.Keys
    decreases |s.queue|
  {
    if s.queue != [] {
      PostHeadDrains(s, code);
      Regroup(s.posts, s.queue);
      AllMore(s.answers, |s.queue|, code);
      hide Draining, PostHead, Listed, Known, All;
      PostAllDrains(PostHead(s, code), code);
    }
  }

  lemma SubmitListed(s: State, accepted: bool)
    requires Idle(s) && s.queue != [] && (accepted ==> NoneLingers(s))
    ensures var r := Submitted(s, accepted);
            r == s.(reqs := r.reqs) && r.reqs.Keys == s.reqs.Keys && if accepted then Working(r) else Draining(r)
    ensures accepted ==> !Submitted(s, accepted).reqs[s.queue[0]].posted
  {
    var r := Submitted(s, accepted);
    assert forall i :: 1 <= i < |s.queue| ==> r.reqs[s.queue[i]] == s.reqs[s.queue[i]];
  }

  lemma EmptyWorks(s: State)
    requires Draining(s) && s.queue == []
    ensures Working(s)
  {
  }

  lemma FailAllKeeps(s: State, code: int)
    requires Draining(s) && Logged(s) && s.enqueued == s.posts + s.queue && s.asked == s.woken + s.waiters
    ensures Inv(PostAll(s, code)) && PostAll(s, code).queue == []
  {
    PostAllDrains(s, code);
    EmptyWorks(PostAll(s, code));
    hide Listed, Draining, Working, PostAll;
  }

  /** A queue none of whose requests was given to libuv yet is put to work, or all turned down. */
  lemma SubmitKeeps(s: State, ret: int)
    requires Idle(s) && s.queue != [] && s.enqueued == s.posts + s.queue && Logged(s) && s.asked == s.woken + s.waiters
    requires ret == 0 ==> NoneLingers(s)
    ensures Inv(Submit(s, ret))
    ensures Submit(s, ret).queue == if ret == 0 then s.queue else []
  {
    SubmitListed(s, ret == 0);
    hide Listed, Draining, PostAll;
    if ret != 0 {
      FailAllKeeps(Submitted(s, false), ret);
    }
  }

  lemma InvokeListed(s: State, id: Id, timed: bool)
    requires Working(s) && id !in s.reqs
    ensures var r := Enqueued(s, id, timed);
            if s.queue == [] then Idle(r) && (NoneLingers(s) ==> NoneLingers(r)) else Working(r)
  {
    var r := Enqueued(s, id, timed);
    AppendListed(s, r, id);
    hide Listed;
    assert forall i :: 0 <= i < |s.queue| ==> r.queue[i] == s.queue[i] && r.reqs[r.queue[i]] == s.reqs[s.queue[i]];
  }

  lemma AppendListed(s: State, r: State, id: Id)
    requires Listed(s) && id !in s.reqs && r.queue == s.queue + [id]
    requires id in r.reqs && r.reqs == s.reqs[id := r.reqs[id]] && Untried(r.reqs[id])
    ensures Listed(r)
  {
    assert forall x :: x in r.queue <==> x in s.queue || x == id;
    assert OneLingers(r);
    hide OneLingers;
  }

  lemma InvokeLogged(s: State, id: Id, timed: bool)
    requires Logged(s) && id !in s.reqs
    ensures Logged(Enqueued(s, id, timed))
  {
    var r := Enqueued(s, id, timed);
    assert forall x :: x in r.enqueued <==> x in s.enqueued || x == id;
    assert id !in s.enqueued;
  }

  lemma InvokeOrdered(s: State, id: Id, timed: bool)
    requires Known(s) && Ordered(s) && id !in s.reqs
    ensures Ordered(Enqueued(s, id, timed))
  {
    var r := Enqueued(s, id, timed);
    if s.queue != [] {
      assert r.queue[0] == s.queue[0];
      assert Unanswered(r) == Unanswered(s) + [id];
    }
  }

  /** A write is given to libuv while libuv still has one that is off the queue. */
  ghost predicate Overtakes(s: State, op: Op) {
    op.Invoke? && op.ret == 0 && s.queue == [] && exists a :: a in s.reqs && s.reqs[a].held
  }

  lemma InvokeKeeps(s: State, id: Id, timed: bool, ret: int)
    requires Inv(s) && id !in s.reqs && !Overtakes(s, Invoke(id, timed, ret))
    ensures Inv(StepInvoke(s, id, timed, ret))
  {
    InvokeListed(s, id, timed);
    InvokeOrdered(s, id, timed);
    InvokeLogged(s, id, timed);
    hide Listed, Logged;
    if s.queue == [] {
      SubmitKeeps(Enqueued(s, id, timed), ret);
    }
  }

  lemma HeldIsHead(s: State, id: Id)
    requires Working(s) && id in s.reqs
    ensures s.queue != [] ==> (s.reqs[id].held <==> s.queue[0] == id)
    ensures s.queue == [] ==> (s.reqs[id].held <==> Lingering(s.reqs[id]))
  {
    if s.reqs[id].inQueue {
      assert id in s.queue;
    }
  }

  lemma CompleteListed(s: State, id: Id, status: int)
    requires Working(s) && s.queue != [] && s.queue[0] == id
    ensures Idle(Completed(s, id, status)) && NoneLingers(Completed(s, id, status))
    ensures var r := Completed(s, id, status);
            r == s.(queue := s.queue[1..], reqs := r.reqs,
                    posts := if s.reqs[id].posted then s.posts else s.posts + [id],
                    answers := if s.reqs[id].posted then s.answers else s.answers + [UvStatus(status)])
            && r.reqs.Keys == s.reqs.Keys
  {
    var r := Completed(s, id, status);
    assert Active(s.reqs[s.queue[0]]);
    HeadLeaves(s, r, r.reqs[id]);
    hide Listed;
  }

  lemma CompleteLingering(s: State, id: Id, status: int)
    requires Working(s) && s.queue == [] && id in s.reqs && Lingering(s.reqs[id])
    ensures var r := Completed(s, id, status); r == s.(reqs := r.reqs) && r.reqs.Keys == s.reqs.Keys && Idle(r)
  {
    var r := Completed(s, id, status);
    assert r.reqs == s.reqs[id := r.reqs[id]] && Finished(r.reqs[id]);
  }

  lemma CompleteOrdered(s: State, r: State, id: Id)
    requires Ordered(s) && s.queue != [] && s.queue[0] == id
    requires r == s.(queue := s.queue[1..], reqs := r.reqs, answers := r.answers,
                     posts := if s.reqs[id].posted then s.posts else s.posts + [id])
    requires r.reqs.Keys == s.reqs.Keys && Idle(r)
    ensures Ordered(r) && r.enqueued == r.posts + r.queue
  {
    Regroup(s.posts, s.queue);
    if r.queue != [] {
      assert Untried(r.reqs[r.queue[0]]);
    }
    hide Listed;
  }

  lemma GoOnKeeps(s: State, status: int, ret: int)
    requires Idle(s) && s.enqueued == s.posts + s.queue && Logged(s) && s.asked == s.woken + s.waiters
    requires s.queue != [] ==> NoneLingers(s)
    ensures Inv(GoOn(s, status, ret))
  {
    if status < 0 {
      FailAllKeeps(s, status);
    } else if s.queue != [] {
      SubmitKeeps(s, ret);
    } else {
      assert Working(Notify(s, 0));
    }
  }

  lemma OnWriteKeeps(s: State, id: Id, status: int, ret: int)
    requires Inv(s) && id in s.reqs && s.reqs[id].held
    ensures Inv(StepOnWrite(s, id, status, ret))
  {
    HeldIsHead(s, id);
    if s.queue == [] {
      CompleteLingering(s, id, status);
    } else {
      CompleteListed(s, id, status);
      CompleteOrdered(s, Completed(s, id, status), id);
    }
    hide Completed, GoOn, Listed;
    GoOnKeeps(Completed(s, id, status), status, ret);
  }

  /** A timeout finds its request at the head, in flight, or already answered: the branch that takes
      a waiting request out of the queue never runs. */
  lemma TimeoutFindsHead(s: State, id: Id)
    requires Working(s) && Legal(s, OnTimeout(id)) && !s.reqs[id].posted
    ensures s.queue != [] && s.queue[0] == id && s.reqs[id].inflight && s.reqs[id].held
  {
    assert id in s.queue;
  }

  /** The head changes, and stays in the queue. */
  lemma HeadStays(s: State, r: State, q: Req)
    requires Working(s) && s.queue != [] && Active(q)
    requires r.queue == s.queue && r.reqs == s.reqs[s.queue[0] := q]
    ensures Working(r)
  {
    assert forall i :: 1 <= i < |s.queue| ==> s.queue[i] != s.queue[0];
  }

  lemma AnswerHeadOrdered(s: State, r: State)
    requires Ordered(s) && Logged(s) && s.queue != [] && !s.reqs[s.queue[0]].posted
    requires r == s.(reqs := s.reqs[s.queue[0] := s.reqs[s.queue[0]].(posted := true)], posts := s.posts + [s.queue[0]],
                     answers := r.answers)
    ensures Ordered(r) && Logged(r)
  {
    Regroup(s.posts, s.queue);
    hide Distinct;
  }

  lemma OnTimeoutKeeps(s: State, id: Id)
    requires Inv(s) && Legal(s, OnTimeout(id))
    ensures Inv(StepOnTimeout(s, id))
  {
    if !s.reqs[id].posted {
      TimeoutFindsHead(s, id);
      var r := StepOnTimeout(s, id);
      assert Active(s.reqs[s.queue[0]]);
      hide Listed, Ordered, Logged;
      HeadStays(s, r, r.reqs[id]);
      AnswerHeadOrdered(s, r);
    }
  }

  /** abort() answers everybody; what libuv has lingers. */
  lemma AbortKeeps(s: State)
    requires Inv(s)
    ensures Inv(Step(s, Abort))
  {
    hide Inv, Aborted;
    AbortedKeeps(s, CALL_E_ABORT);
  }

  lemma AbortedKeeps(s: State, code: int)
    requires Inv(s)
    ensures Inv(Aborted(s, code))
  {
    if s.queue != [] {
      var r := PostHead(s, code);
      AbortHead(s, code);
      Regroup(s.posts, s.queue);
      hide Listed, Draining, Working, PostAll, PostHead;
      FailAllKeeps(r, code);
    }
  }

  lemma AbortHead(s: State, code: int)
    requires Working(s) && s.queue != []
    ensures var r := PostHead(s, code);
            && r == s.(queue := s.queue[1..], reqs := r.reqs,
                       posts := if s.reqs[s.queue[0]].posted then s.posts else s.posts + [s.queue[0]],
                       answers := if s.reqs[s.queue[0]].posted then s.answers else s.answers + [UvStatus(code)])
            && r.reqs.Keys == s.reqs.Keys && Draining(r) && Lingering(r.reqs[s.queue[0]])
  {
    var r := PostHead(s, code);
    assert Active(s.reqs[s.queue[0]]);
    HeadLeaves(s, r, r.reqs[s.queue[0]]);
    hide Listed;
  }

  lemma StepKeeps(s: State, op: Op)
    requires Inv(s) && Legal(s, op) && !Overtakes(s, op)
    ensures Inv(Step(s, op))
  {
    hide Working, Ordered, Logged, Flushes, StepInvoke, StepOnWrite, StepOnTimeout;
    match op
    case Invoke(id, timed, ret) => InvokeKeeps(s, id, timed, ret);
    case OnWrite(id, status, ret) => OnWriteKeeps(s, id, status, ret);
    case OnTimeout(id) => OnTimeoutKeeps(s, id);
    case Flush(id) => FlushKeeps(s, id);
    case Abort => AbortKeeps(s);
  }

  lemma FlushKeeps(s: State, id: Id)
    requires Inv(s)
    ensures Inv(Step(s, Flush(id)))
  {
    var r := Step(s, Flush(id));
    assert r == s.(asked := r.asked, waiters := r.waiters, woken := r.woken, told := r.told);
    assert Flushes(r);
    hide Flushes, Working, Ordered, Logged, Step;
    SameWorking(s, r);
    SameOrdered(s, r);
    SameLogged(s, r);
  }

  lemma SameWorking(s: State, r: State)
    requires Working(s) && r == s.(asked := r.asked, waiters := r.waiters, woken := r.woken, told := r.told)
    ensures Working(r)
  {
  }

  lemma SameOrdered(s: State, r: State)
    requires Ordered(s) && r == s.(asked := r.asked, waiters := r.waiters, woken := r.woken, told := r.told)
    ensures Ordered(r)
  {
  }

  lemma SameLogged(s: State, r: State)
    requires Logged(s) && r == s.(asked := r.asked, waiters := r.waiters, woken := r.woken, told := r.told)
    ensures Logged(r)
  {
  }

  ghost predicate Run(s: State, ops: seq<Op>, s': State)
    decreases |ops|
  {
    if ops == [] then s == s' else Known(s) && Legal(s, ops[0]) && Run(Step(s, ops[0]), ops[1..], s')
  }

  /** No write of the run overtakes one that libuv still has. */
  ghost predicate Orderly(s: State, ops: seq<Op>)
    decreases |ops|
  {
    ops == [] || (Known(s) && Legal(s, ops[0]) && !Overtakes(s, ops[0]) && Orderly(Step(s, ops[0]), ops[1..]))
  }

  lemma {:induction false} RunKeeps(s: State, ops: seq<Op>, s': State)
    requires Inv(s) && Run(s, ops, s') && Orderly(s, ops)
    ensures Inv(s')
    decreases |ops|
  {
    if ops != [] {
      StepKeeps(s, ops[0]);
      hide Inv;
      RunKeeps(Step(s, ops[0]), ops[1..], s');
    }
  }

  // ---------------------------------------------------------------------------------------------
  // Main results

  predicate Unfinished(s: State, id: Id) { id in s.reqs && !s.reqs[id].refused && s.reqs[id].finalized == 0 }

  ghost predicate OneHeld(s: State) {
    forall a, b :: a in s.reqs && b in s.reqs && s.reqs[a].held && s.reqs[b].held ==> a == b
  }

  /** Some state of the run has two requests at libuv. */
  ghost predicate TwoHeld(s: State, ops: seq<Op>)
    decreases |ops|
  {
    !OneHeld(s) || (ops != [] && Known(s) && Legal(s, ops[0]) && TwoHeld(Step(s, ops[0]), ops[1..]))
  }

  lemma InvOneHeld(s: State)
    requires Inv(s)
    ensures OneHeld(s)
  {
    forall a, b | a in s.reqs && b in s.reqs && s.reqs[a].held && s.reqs[b].held
      ensures a == b
    {
      HeldIsHead(s, a);
      HeldIsHead(s, b);
    }
  }

  lemma OvertakenHeld(s: State, op: Op)
    requires Known(s) && Legal(s, op) && Overtakes(s, op)
    ensures !OneHeld(Step(s, op))
  {
    var a :| a in s.reqs && s.reqs[a].held;
    var r := Step(s, op);
    assert r.reqs[a].held && r.reqs[op.id].held;
  }

  lemma {:induction false} TwoHeldFrom(s: State, ops: seq<Op>, s': State)
    requires Inv(s) && Run(s, ops, s')
    ensures TwoHeld(s, ops) <==> !Orderly(s, ops)
    decreases |ops|
  {
    InvOneHeld(s);
    if ops != [] {
      if Overtakes(s, ops[0]) {
        OvertakenHeld(s, ops[0]);
      } else {
        StepKeeps(s, ops[0]);
        hide Inv, OneHeld;
        TwoHeldFrom(Step(s, ops[0]), ops[1..], s');
      }
    }
  }

  /** Every run, with any calls of abort(): libuv has two requests at some time exactly when some write was given to
      it on an empty queue while it still had one; and that one had been aborted. */
  lemma TwoHeldIff(s0: State, ops: seq<Op>, s: State)
    requires s0 == EMPTY && Run(s0, ops, s)
    ensures TwoHeld(s0, ops) <==> !Orderly(s0, ops)
    ensures Orderly(s0, ops) && s.queue == [] ==>
              forall a :: a in s.reqs && s.reqs[a].held ==> Lingering(s.reqs[a])
  {
    EmptyInv(s0);
    TwoHeldFrom(s0, ops, s);
    if Orderly(s0, ops) {
      RunKeeps(s0, ops, s);
      forall a | a in s.reqs && s.reqs[a].held && s.queue == []
        ensures Lingering(s.reqs[a])
      {
        HeldIsHead(s, a);
      }
    }
  }

  lemma EmptyInv(s: State)
    requires s == EMPTY
    ensures Inv(s) && NoneLingers(s)
  {
  }

  lemma {:induction false} PostAllHeld(s: State, id: Id, code: int)
    requires Known(s) && id in s.reqs
    ensures PostAll(s, code).reqs[id].held == s.reqs[id].held
    decreases |s.queue|
  {
    if s.queue != [] {
      PostAllHeld(PostHead(s, code), id, code);
    }
  }

  ghost predicate NothingHeld(s: State) { forall id :: id in s.reqs ==> !s.reqs[id].held }

  lemma PostAllHoldsNothing(s: State, code: int)
    requires Known(s) && NothingHeld(s)
    ensures NothingHeld(PostAll(s, code))
  {
    forall id | id in s.reqs ensures !PostAll(s, code).reqs[id].held {
      PostAllHeld(s, id, code);
    }
  }

  lemma RefusedHoldsNothing(s: State, ret: int)
    requires Known(s) && NothingHeld(s) && s.queue != [] && ret != 0
    ensures NothingHeld(Submit(s, ret))
  {
    PostAllHoldsNothing(Submitted(s, false), ret);
  }

  lemma OnWriteLingers(s: State, id: Id, status: int, ret: int)
    requires Inv(s) && NoneLingers(s) && id in s.reqs && s.reqs[id].held
    ensures NoneLingers(StepOnWrite(s, id, status, ret))
  {
    HeldIsHead(s, id);
    CompleteListed(s, id, status);
    hide Completed, GoOn, Idle, NoneLingers, Inv;
    GoOnLingers(Completed(s, id, status), status, ret);
  }

  lemma GoOnLingers(s: State, status: int, ret: int)
    requires Idle(s) && NoneLingers(s)
    ensures NoneLingers(GoOn(s, status, ret))
  {
    IdleHoldsNothing(s);
    if status < 0 {
      PostAllHoldsNothing(s, status);
    } else if s.queue != [] {
      SubmitListed(s, ret == 0);
      hide Listed, PostAll, Submitted;
      if ret != 0 {
        RefusedHoldsNothing(s, ret);
      }
    }
  }

  lemma IdleHoldsNothing(s: State)
    requires Idle(s) && NoneLingers(s)
    ensures NothingHeld(s)
  {
    forall id | id in s.reqs ensures !s.reqs[id].held {
      if s.reqs[id].inQueue {
        assert id in s.queue;
      }
    }
  }

  lemma InvokeLingers(s: State, id: Id, timed: bool, ret: int)
    requires Inv(s) && NoneLingers(s) && id !in s.reqs
    ensures NoneLingers(StepInvoke(s, id, timed, ret))
  {
    InvokeListed(s, id, timed);
    if s.queue == [] {
      var e := Enqueued(s, id, timed);
      IdleHoldsNothing(e);
      hide Listed, PostAll;
      if ret != 0 {
        RefusedHoldsNothing(e, ret);
      }
    }
  }

  lemma NonAbortLingers(s: State, op: Op)
    requires Inv(s) && NoneLingers(s) && Legal(s, op) && !op.Abort?
    ensures NoneLingers(Step(s, op))
  {
    match op
    case Invoke(id, timed, ret) => InvokeLingers(s, id, timed, ret);
    case OnWrite(id, status, ret) => OnWriteLingers(s, id, status, ret);
    case OnTimeout(id) =>
      if !s.reqs[id].posted {
        TimeoutFindsHead(s, id);
      }
    case Flush(_) =>
  }

  lemma {:induction false} AbortFreeFrom(s: State, ops: seq<Op>, s': State)
    requires Inv(s) && NoneLingers(s) && Run(s, ops, s') && Abort !in ops
    ensures Orderly(s, ops) && NoneLingers(s')
    decreases |ops|
  {
    if ops != [] {
      if Overtakes(s, ops[0]) {
        var a :| a in s.reqs && s.reqs[a].held;
        HeldIsHead(s, a);
        assert false;
      }
      NonAbortLingers(s, ops[0]);
      StepKeeps(s, ops[0]);
      hide Inv, NoneLingers;
      AbortFreeFrom(Step(s, ops[0]), ops[1..], s');
    }
  }

  /** Without abort() no write overtakes another, and libuv has nothing that is off the queue. */
  lemma AbortFreeIsOrderly(s0: State, ops: seq<Op>, s: State)
    requires s0 == EMPTY && Run(s0, ops, s) && Abort !in ops
    ensures Orderly(s0, ops)
    ensures forall id :: id in s.reqs && s.reqs[id].held ==> s.queue != [] && s.queue[0] == id
  {
    EmptyInv(s0);
    AbortFreeFrom(s0, ops, s);
    RunKeeps(s0, ops, s);
    forall id | id in s.reqs && s.reqs[id].held
      ensures s.queue != [] && s.queue[0] == id
    {
      HeldIsHead(s, id);
    }
  }

  /** Every orderly run: libuv has exactly the head of a non-empty queue; the unfinished requests are the queued ones
      and the one it has; each request is given to libuv at most once, finalized at most once and never while libuv
      has it. */
  lemma OneWriteInFlight(s0: State, ops: seq<Op>, s: State, id: Id)
    requires s0 == EMPTY && Run(s0, ops, s) && Orderly(s0, ops) && id in s.reqs
    ensures OneHeld(s) && (s.queue != [] ==> (s.reqs[id].held <==> s.queue[0] == id))
    ensures Unfinished(s, id) <==> id in s.queue || s.reqs[id].held
    ensures s.reqs[id].submitted <= 1 && s.reqs[id].finalized <= 1
    ensures s.reqs[id].held ==> s.reqs[id].finalized == 0
  {
    EmptyInv(s0);
    RunKeeps(s0, ops, s);
    InvOneHeld(s);
    HeldIsHead(s, id);
  }

  /** Every orderly run: the request in flight is the oldest unfinished one. */
  lemma OldestInFlight(s0: State, ops: seq<Op>, s: State, i: nat, j: nat)
    requires s0 == EMPTY && Run(s0, ops, s) && Orderly(s0, ops) && i < j < |s.enqueued|
    requires Unfinished(s, s.enqueued[i]) && s.enqueued[j] in s.reqs
    ensures !s.reqs[s.enqueued[j]].held
  {
    EmptyInv(s0);
    RunKeeps(s0, ops, s);
    OneWriteInFlight(s0, ops, s, s.enqueued[i]);
    if s.queue != [] {
      HeldIsHead(s, s.enqueued[i]);
      HeldIsHead(s, s.enqueued[j]);
      var n := |s.posts|;
      assert s.enqueued[if s.reqs[s.queue[0]].posted then n - 1 else n] == s.queue[0];
      if s.enqueued[j] == s.queue[0] {
        assert s.enqueued[i] in s.posts;
        NotQueued(s, i);
      }
    }
  }

  lemma NotQueued(s: State, i: nat)
    requires Ordered(s) && Logged(s) && s.queue != [] && i < |s.posts|
    requires s.reqs[s.queue[0]].posted ==> i < |s.posts| - 1
    ensures i < |s.enqueued| && s.enqueued[i] !in s.queue
  {
    forall k | 0 <= k < |s.queue|
      ensures s.queue[k] != s.enqueued[i]
    {
      if s.reqs[s.queue[0]].posted {
        assert s.queue[k] == s.enqueued[|s.posts| - 1 + k];
      } else {
        assert s.queue[k] == s.enqueued[|s.posts| + k];
      }
    }
  }

  /** Every orderly run: continuations are posted at most once and in enqueue order, every
      one of them once the queue is empty; flush continuations are posted once and in the order
      they came, and none is kept waiting on an empty queue. */
  lemma PostedOnceInOrder(s0: State, ops: seq<Op>, s: State)
    requires s0 == EMPTY && Run(s0, ops, s) && Orderly(s0, ops)
    ensures s.posts <= InvokesOf(ops) && Distinct(s.posts) && |s.answers| == |s.posts|
    ensures s.queue == [] ==> s.posts == InvokesOf(ops)
    ensures FlushesOf(ops) == s.woken + s.waiters && (s.waiters != [] ==> s.queue != [])
  {
    EmptyInv(s0);
    RunKeeps(s0, ops, s);
    StateIsHistory(s0, ops, s);
    hide Working, Run, Orderly, InvokesOf, FlushesOf, TimedOf;
    PrefixDistinct(s.enqueued, s.posts, Unanswered(s));
  }

  lemma PrefixDistinct(all: seq<Id>, p: seq<Id>, q: seq<Id>)
    requires all == p + q && Distinct(all)
    ensures p <= all && Distinct(p)
  {
    assert forall i :: 0 <= i < |p| ==> all[i] == p[i];
  }

  /** Every orderly run: a request neither queued nor at libuv was finalized once, except one that libuv refused,
      which keeps its in-flight mark and is never finalized. */
  lemma RefusedNeverFinalized(s0: State, ops: seq<Op>, s: State, id: Id)
    requires s0 == EMPTY && Run(s0, ops, s) && Orderly(s0, ops)
    requires id in s.reqs && id !in s.queue && !s.reqs[id].held
    ensures s.reqs[id].finalized == if s.reqs[id].refused then 0 else 1
  {
    EmptyInv(s0);
    RunKeeps(s0, ops, s);
  }

  // ---------------------------------------------------------------------------------------------
  // Who is answered by a step, and with what

  /** The continuations still to post, in order. */
  function Left(s: State): (ids: seq<Id>) {
    if |s.posts| <= |s.enqueued| then s.enqueued[|s.posts|..] else []
  }

  datatype Due = Due(ids: seq<Id>, answers: seq<Answer>)

  function Nobody(): Due { Due([], []) }

  function One(id: Id, answer: Answer): Due { Due([id], [answer]) }

  function Everybody(ids: seq<Id>, code: int): Due { Due(ids, All(|ids|, code)) }

  function Then(a: Due, b: Due): Due { Due(a.ids + b.ids, a.answers + b.answers) }

  /** A timeout answers its own request, once; a completed write its own, and a failed one everybody else as well; a
      write that uv_write refuses, everybody; abort() everybody. */
  function DueNow(s: State, op: Op): (due: Due) {
    match op
    case Invoke(id, _, ret) => if s.queue == [] && ret != 0 then One(id, UvStatus(ret)) else Nobody()
    case OnWrite(id, status, ret) =>
      var own := if id in s.posts then Nobody() else One(id, UvStatus(status));
      var others := Others(s, id);
      Then(own, if status < 0 then Everybody(others, status)
                else if ret != 0 then Everybody(others, ret) else Nobody())
    case OnTimeout(id) => if id in s.posts then Nobody() else One(id, TimedOut)
    case Flush(_) => Nobody()
    case Abort => Everybody(Left(s), CALL_E_ABORT)
  }

  /** The unanswered writes behind the one that completed. */
  function Others(s: State, id: Id): (ids: seq<Id>) {
    if id in s.posts || Left(s) == [] then Left(s) else Left(s)[1..]
  }

  /** The flush waiters a step answers, and with what: all of them when nothing is left to write after it. */
  function ToldNow(s: State, op: Op): (answers: seq<Answer>) {
    match op
    case Flush(_) => if s.queue == [] then [Status(0)] else []
    case OnWrite(id, status, ret) =>
      if status < 0 then All(|s.waiters|, status)
      else if Others(s, id) == [] then All(|s.waiters|, 0)
      else if ret != 0 then All(|s.waiters|, ret) else []
    case Abort => All(|s.waiters|, CALL_E_ABORT)
    case _ => []
  }

  lemma PostedIffInPosts(s: State, id: Id)
    requires Inv(s) && id in s.reqs
    ensures s.reqs[id].posted <==> id in s.posts
    ensures s.posts <= s.enqueued && Left(s) == Unanswered(s)
  {
    assert s.enqueued == s.posts + Unanswered(s) && id in s.enqueued;
    if s.reqs[id].inQueue {
      assert id in s.queue;
      var i :| 0 <= i < |s.queue| && s.queue[i] == id;
      QueuedPosted(s, i);
    } else {
      OffQueuePosted(s, id);
    }
  }

  lemma QueuedPosted(s: State, i: nat)
    requires Working(s) && Ordered(s) && Logged(s) && i < |s.queue|
    ensures s.reqs[s.queue[i]].posted <==> s.queue[i] in s.posts
  {
    var n := |s.posts|;
    if i == 0 && s.reqs[s.queue[0]].posted {
      assert s.posts[n - 1] == s.queue[0];
    } else {
      var j := if s.reqs[s.queue[0]].posted then n + i - 1 else n + i;
      assert s.enqueued[j] == s.queue[i] && !s.reqs[s.queue[i]].posted;
      assert forall k :: 0 <= k < n ==> s.enqueued[k] == s.posts[k];
    }
  }

  lemma OffQueuePosted(s: State, id: Id)
    requires Working(s) && Ordered(s) && Logged(s) && id in s.reqs && !s.reqs[id].inQueue
    ensures s.reqs[id].posted && id in s.posts
  {
    assert id in s.enqueued && id !in Unanswered(s);
  }

  lemma LeftIs(s: State)
    requires Ordered(s)
    ensures Left(s) == Unanswered(s)
  {
  }

  lemma InvokeAnswers(s: State, id: Id, timed: bool, ret: int)
    requires Inv(s) && Legal(s, Invoke(id, timed, ret)) && !Overtakes(s, Invoke(id, timed, ret))
    ensures var r, due := StepInvoke(s, id, timed, ret), DueNow(s, Invoke(id, timed, ret));
            && r.posts == s.posts + due.ids && r.answers == s.answers + due.answers && r.told == s.told
  {
    hide Listed, PostAll, All, Submitted;
    InvokeListed(s, id, timed);
    if s.queue == [] {
      InvokedAlone(s, Enqueued(s, id, timed), id, ret);
    }
  }

  lemma InvokedAlone(s: State, e: State, id: Id, ret: int)
    requires Idle(e) && e.queue == [id] && e.waiters == [] && (ret == 0 ==> NoneLingers(e))
    requires e.posts == s.posts && e.answers == s.answers && e.told == s.told
    ensures var r := Submit(e, ret);
            && r.posts == s.posts + (if ret != 0 then [id] else []) && r.told == s.told
            && r.answers == s.answers + if ret != 0 then [UvStatus(ret)] else []
  {
    SubmitListed(e, ret == 0);
    if ret != 0 {
      PostAllDrains(Submitted(e, false), ret);
      assert All(1, ret) == [UvStatus(ret)] && All(0, ret) == [];
    }
    hide Listed, PostAll, All, Submitted, Idle, NoneLingers;
  }

  lemma GoOnAnswers(s: State, status: int, ret: int)
    requires Idle(s) && s.enqueued == s.posts + s.queue && (s.queue != [] ==> NoneLingers(s))
    ensures var r := GoOn(s, status, ret);
            var code := if status < 0 then status else ret;
            && (if code != 0 then r.posts == s.posts + s.queue && r.answers == s.answers + All(|s.queue|, code)
                else r.posts == s.posts && r.answers == s.answers)
            && r.told == s.told + if status < 0 || s.queue == [] || ret != 0
                                  then All(|s.waiters|, if s.queue == [] && status >= 0 then 0 else code) else []
  {
    assert s.queue == [] ==> All(|s.queue|, ret) == [];
    if status < 0 {
      PostAllDrains(s, status);
    } else if s.queue != [] {
      SubmitListed(s, ret == 0);
      if ret != 0 {
        PostAllDrains(Submitted(s, false), ret);
      }
    }
    hide Listed, PostAll, All, Draining, Idle;
  }

  /** The request itself is answered first. */
  ghost predicate AnsweredFirst(s: State, c: State, id: Id, status: int) {
    && Idle(c) && c.enqueued == s.enqueued == c.posts + c.queue && (c.queue != [] ==> NoneLingers(c))
    && c.waiters == s.waiters && c.told == s.told
    && c.posts == s.posts + (if id in s.posts then [] else [id])
    && c.answers == s.answers + if id in s.posts then [] else [UvStatus(status)]
  }

  lemma HeadAnswers(s: State, id: Id, status: int)
    requires Known(s) && Working(s) && Ordered(s) && s.queue != [] && s.queue[0] == id && (s.reqs[id].posted <==> id in s.posts)
    ensures AnsweredFirst(s, Completed(s, id, status), id, status)
  {
    hide Completed, Listed, Unanswered;
    var c := Completed(s, id, status);
    CompleteListed(s, id, status);
    CompleteOrdered(s, c, id);
    hide Idle, Working, NoneLingers;
    assert s.posts + [] == s.posts && s.answers + [] == s.answers;
  }

  lemma LingererAnswers(s: State, id: Id, status: int)
    requires Known(s) && Working(s) && Ordered(s) && s.queue == [] && id in s.reqs && Lingering(s.reqs[id]) && id in s.posts
    ensures AnsweredFirst(s, Completed(s, id, status), id, status)
  {
    hide Completed, Listed;
    CompleteLingering(s, id, status);
    hide Idle, Working, NoneLingers;
    assert s.posts + [] == s.posts && s.answers + [] == s.answers;
  }

  lemma CompletedAnswers(s: State, id: Id, status: int)
    requires Inv(s) && id in s.reqs && s.reqs[id].held
    ensures Known(s) && AnsweredFirst(s, Completed(s, id, status), id, status)
  {
    HeldIsHead(s, id);
    PostedIffInPosts(s, id);
    hide Completed, AnsweredFirst, Ordered, Logged;
    if s.queue == [] {
      LingererAnswers(s, id, status);
    } else {
      HeadAnswers(s, id, status);
    }
  }

  /** What is left behind it. */
  lemma OthersAre(s: State, id: Id, posts: seq<Id>, queue: seq<Id>)
    requires s.enqueued == posts + queue && posts == s.posts + if id in s.posts then [] else [id]
    ensures queue == Others(s, id)
  {
  }

  lemma OnWriteAnswers(s: State, id: Id, status: int, ret: int)
    requires Inv(s) && Legal(s, OnWrite(id, status, ret))
    ensures var r, due := StepOnWrite(s, id, status, ret), DueNow(s, OnWrite(id, status, ret));
            && r.posts == s.posts + due.ids && r.answers == s.answers + due.answers
            && r.told == s.told + ToldNow(s, OnWrite(id, status, ret))
  {
    hide Completed, GoOn, Listed, All, Inv, Idle, NoneLingers, Others, Left;
    CompletedAnswers(s, id, status);
    var c, r := Completed(s, id, status), StepOnWrite(s, id, status, ret);
    OthersAre(s, id, c.posts, c.queue);
    GoOnAnswers(c, status, ret);
    var own := if id in s.posts then Nobody() else One(id, UvStatus(status));
    var rest := if status < 0 then Everybody(Others(s, id), status)
                else if ret != 0 then Everybody(Others(s, id), ret) else Nobody();
    assert DueNow(s, OnWrite(id, status, ret)) == Then(own, rest);
    assert r.posts == c.posts + rest.ids && r.answers == c.answers + rest.answers;
    assert s.posts + own.ids + rest.ids == s.posts + (own.ids + rest.ids);
    assert s.answers + own.answers + rest.answers == s.answers + (own.answers + rest.answers);
  }

  lemma OnTimeoutAnswers(s: State, id: Id)
    requires Inv(s) && Legal(s, OnTimeout(id))
    ensures var r, due := StepOnTimeout(s, id), DueNow(s, OnTimeout(id));
            && r.posts == s.posts + due.ids && r.answers == s.answers + due.answers && r.told == s.told
            && r.queue == s.queue && r.waiters == s.waiters && r.woken == s.woken
            && r.reqs == s.reqs[id := s.reqs[id].(posted := true)]
  {
    PostedIffInPosts(s, id);
    if !s.reqs[id].posted {
      TimeoutFindsHead(s, id);
    }
    hide Inv;
    TimedOutNow(s, id);
  }

  lemma TimedOutNow(s: State, id: Id)
    requires id in s.reqs && (s.reqs[id].posted <==> id in s.posts) && (!s.reqs[id].posted ==> s.reqs[id].inflight)
    ensures var r := StepOnTimeout(s, id);
            && r.posts == s.posts + (if id in s.posts then [] else [id])
            && r.answers == s.answers + (if id in s.posts then [] else [TimedOut]) && r.told == s.told
            && r.queue == s.queue && r.waiters == s.waiters && r.woken == s.woken
            && r.reqs == s.reqs[id := s.reqs[id].(posted := true)]
  {
    if s.reqs[id].posted {
      assert s.reqs == s.reqs[id := s.reqs[id].(posted := true)];
      assert s.posts + [] == s.posts && s.answers + [] == s.answers;
    }
  }

  lemma AbortAnswers(s: State, code: int)
    requires Inv(s)
    ensures var r := Aborted(s, code);
            && r.posts == s.posts + Left(s) && r.answers == s.answers + All(|Left(s)|, code)
            && r.told == s.told + All(|s.waiters|, code)
  {
    LeftIs(s);
    if s.queue != [] {
      AbortHead(s, code);
      PostAllDrains(PostHead(s, code), code);
      AllMore(s.answers, |s.queue|, code);
      Regroup(s.posts, s.queue);
    }
    hide PostAll, PostHead, Listed, Working;
  }

  /** Every step of an orderly run answers exactly whom it should, in order, each with the status of its cause, and the
      flush waiters likewise. */
  lemma StepAnswers(s: State, op: Op)
    requires Inv(s) && Legal(s, op) && !Overtakes(s, op)
    ensures Step(s, op).posts == s.posts + DueNow(s, op).ids
    ensures Step(s, op).answers == s.answers + DueNow(s, op).answers
    ensures Step(s, op).told == s.told + ToldNow(s, op)
  {
    hide Inv, StepInvoke, StepOnWrite, StepOnTimeout, Aborted;
    match op
    case Invoke(id, timed, ret) => InvokeAnswers(s, id, timed, ret);
    case OnWrite(id, status, ret) => OnWriteAnswers(s, id, status, ret);
    case OnTimeout(id) => OnTimeoutAnswers(s, id);
    case Abort => AbortAnswers(s, CALL_E_ABORT);
    case Flush(_) =>
  }

  /** Every orderly run: a timer answers its request, with the timeout, exactly when nobody did before, and changes
      nothing else: what libuv has stays with libuv, and nothing is finalized. */
  lemma TimeoutAnswers(s0: State, ops: seq<Op>, s: State, id: Id)
    requires s0 == EMPTY && Run(s0, ops, s) && Orderly(s0, ops) && Legal(s, OnTimeout(id))
    ensures Known(s)
    ensures var r := Step(s, OnTimeout(id));
            && id in r.posts
            && r.posts == s.posts + (if id in s.posts then [] else [id])
            && r.answers == s.answers + (if id in s.posts then [] else [TimedOut])
            && r.queue == s.queue && r.reqs == s.reqs[id := s.reqs[id].(posted := true)]
            && r.waiters == s.waiters && r.woken == s.woken
  {
    EmptyInv(s0);
    RunKeeps(s0, ops, s);
    hide Run, Orderly, StepOnTimeout, Listed, Ordered, Logged;
    OnTimeoutAnswers(s, id);
  }

  /** Every orderly run: a write that failed leaves nobody unanswered and nothing queued. */
  lemma FailureAnswersAll(s0: State, ops: seq<Op>, s: State, id: Id, status: int, ret: int)
    requires s0 == EMPTY && Run(s0, ops, s) && Orderly(s0, ops)
    requires Legal(s, OnWrite(id, status, ret)) && status < 0
    ensures Known(s)
    ensures var r := Step(s, OnWrite(id, status, ret));
            && r.queue == [] && r.waiters == [] && r.posts == s.enqueued == r.enqueued
            && r.answers == s.answers + All(|Left(s)|, status)
  {
    EmptyInv(s0);
    RunKeeps(s0, ops, s);
    hide Run, Orderly, Inv;
    FailedWrite(s, id, status, ret);
  }

  lemma FailedWrite(s: State, id: Id, status: int, ret: int)
    requires Inv(s) && Legal(s, OnWrite(id, status, ret)) && status < 0
    ensures Known(s)
    ensures var r := Step(s, OnWrite(id, status, ret));
            && r.queue == [] && r.waiters == [] && r.posts == s.enqueued == r.enqueued
            && r.answers == s.answers + All(|Left(s)|, status)
  {
    hide Completed, PostAll, Listed, Inv, Working, All, Left;
    CompletedAnswers(s, id, status);
    var c := Completed(s, id, status);
    OthersAre(s, id, c.posts, c.queue);
    PostAllDrains(c, status);
    LeftHas(s, id, c.posts, c.queue);
    FirstOfAll(s.answers, |Left(s)|, status);
  }

  lemma LeftHas(s: State, id: Id, posts: seq<Id>, queue: seq<Id>)
    requires s.enqueued == posts + queue && posts == s.posts + if id in s.posts then [] else [id]
    ensures |Left(s)| == |queue| + if id in s.posts then 0 else 1
  {
  }

  lemma FirstOfAll(answers: seq<Answer>, n: nat, status: int)
    requires status < 0
    ensures n > 0 ==> answers + [UvStatus(status)] + All(n - 1, status) == answers + All(n, status)
    ensures answers + [] + All(n, status) == answers + All(n, status)
  {
  }

  // ---------------------------------------------------------------------------------------------
  // What the calls alone say

  function InvokesOf(ops: seq<Op>): (ids: seq<Id>) {
    if ops == [] then []
    else InvokesOf(ops[..|ops| - 1]) + if ops[|ops| - 1].Invoke? then [ops[|ops| - 1].id] else []
  }

  function FlushesOf(ops: seq<Op>): (ids: seq<Id>) {
    if ops == [] then []
    else FlushesOf(ops[..|ops| - 1]) + if ops[|ops| - 1].Flush? then [ops[|ops| - 1].id] else []
  }

  function TimedOf(ops: seq<Op>): (timed: map<Id, bool>) {
    if ops == [] then map[]
    else
      var before := TimedOf(ops[..|ops| - 1]);
      match ops[|ops| - 1] case Invoke(id, timed, _) => before[id := timed] case _ => before
  }

  /** The timer of a request runs, or ran, exactly when the request has a timeout and was given to libuv. */
  predicate TimerRight(q: Req) { q.timerStarted <==> q.timed && q.submitted > 0 }

  /** And every post has its answer. */
  ghost predicate Timers(s: State) {
    && (forall id :: id in s.reqs ==> TimerRight(s.reqs[id]))
    && |s.answers| == |s.posts| && |s.told| == |s.woken|
  }

  /** What no step but invoke() and flush() adds to. */
  ghost predicate SameLog(s: State, r: State) {
    && r.enqueued == s.enqueued && r.asked == s.asked && r.reqs.Keys == s.reqs.Keys
    && forall id :: id in s.reqs ==> r.reqs[id].timed == s.reqs[id].timed
  }

  lemma PostHeadLog(s: State, code: int)
    requires s.queue != [] && s.queue[0] in s.reqs
    ensures SameLog(s, PostHead(s, code)) && (Timers(s) ==> Timers(PostHead(s, code)))
  {
  }

  lemma {:induction false} PostAllLog(s: State, code: int)
    requires Known(s)
    ensures SameLog(s, PostAll(s, code)) && (Timers(s) ==> Timers(PostAll(s, code)))
    decreases |s.queue|
  {
    if s.queue != [] {
      PostHeadLog(s, code);
      hide PostHead, Timers;
      PostAllLog(PostHead(s, code), code);
    }
  }

  lemma SubmitLog(s: State, ret: int)
    requires Known(s) && s.queue != []
    ensures SameLog(s, Submit(s, ret)) && (Timers(s) ==> Timers(Submit(s, ret)))
  {
    SubmittedLog(s, ret == 0);
    hide Submitted, PostAll, Timers;
    if ret != 0 {
      PostAllLog(Submitted(s, false), ret);
    }
  }

  lemma SubmittedLog(s: State, accepted: bool)
    requires Known(s) && s.queue != []
    ensures SameLog(s, Submitted(s, accepted)) && (Timers(s) ==> Timers(Submitted(s, accepted)))
  {
  }

  lemma InvokeLog(s: State, id: Id, timed: bool, ret: int)
    requires Known(s) && id !in s.reqs
    ensures SameLog(Enqueued(s, id, timed), StepInvoke(s, id, timed, ret))
    ensures Timers(s) ==> Timers(StepInvoke(s, id, timed, ret))
  {
    var e := Enqueued(s, id, timed);
    assert Timers(s) ==> Timers(e);
    hide Timers, Submit;
    if |e.queue| == 1 {
      SubmitLog(e, ret);
    }
  }

  lemma OnWriteLog(s: State, id: Id, status: int, ret: int)
    requires Known(s) && id in s.reqs
    ensures SameLog(s, StepOnWrite(s, id, status, ret)) && (Timers(s) ==> Timers(StepOnWrite(s, id, status, ret)))
  {
    var c := Completed(s, id, status);
    CompletedLog(s, id, status);
    hide Completed, PostAll, Submit, Timers;
    if status < 0 {
      PostAllLog(c, status);
    } else if c.queue != [] {
      SubmitLog(c, ret);
    } else {
      NotifyLog(c, 0);
    }
  }

  lemma CompletedLog(s: State, id: Id, status: int)
    requires Known(s) && id in s.reqs
    ensures SameLog(s, Completed(s, id, status)) && (Timers(s) ==> Timers(Completed(s, id, status)))
  {
  }

  lemma NotifyLog(s: State, code: int)
    ensures SameLog(s, Notify(s, code)) && (Timers(s) ==> Timers(Notify(s, code)))
  {
  }

  lemma OnTimeoutLog(s: State, id: Id)
    requires id in s.reqs
    ensures SameLog(s, StepOnTimeout(s, id)) && (Timers(s) ==> Timers(StepOnTimeout(s, id)))
  {
    var r := StepOnTimeout(s, id);
    OneChanged(s, id, r);
    hide StepOnTimeout, Timers;
    if Timers(s) {
      OneTimer(s, id, r);
    }
  }

  lemma OneChanged(s: State, id: Id, r: State)
    requires id in s.reqs && r == StepOnTimeout(s, id)
    ensures id in r.reqs && r.reqs == s.reqs[id := r.reqs[id]] && r.enqueued == s.enqueued && r.asked == s.asked
    ensures r.reqs[id] == s.reqs[id].(inQueue := r.reqs[id].inQueue, posted := r.reqs[id].posted,
                                      finalized := r.reqs[id].finalized)
    ensures |r.answers| - |s.answers| == |r.posts| - |s.posts| && r.told == s.told && r.woken == s.woken
  {
  }

  lemma OneTimer(s: State, id: Id, r: State)
    requires Timers(s) && id in s.reqs && id in r.reqs && r.reqs == s.reqs[id := r.reqs[id]]
    requires TimerRight(r.reqs[id]) <==> TimerRight(s.reqs[id])
    requires |r.answers| - |s.answers| == |r.posts| - |s.posts| && r.told == s.told && r.woken == s.woken
    ensures Timers(r)
  {
  }

  lemma AbortedLog(s: State, code: int)
    requires Known(s)
    ensures SameLog(s, Aborted(s, code)) && (Timers(s) ==> Timers(Aborted(s, code)))
  {
    hide PostAll, Timers;
    PostAllLog(s, code);
  }

  ghost predicate Agrees(s: State, ops: seq<Op>) {
    && s.enqueued == InvokesOf(ops) && s.asked == FlushesOf(ops) && Timers(s)
    && forall id :: id in s.reqs ==> id in TimedOf(ops) && s.reqs[id].timed == TimedOf(ops)[id]
  }

  lemma CallStep(before: seq<Op>, op: Op)
    ensures InvokesOf(before + [op]) == InvokesOf(before) + if op.Invoke? then [op.id] else []
    ensures FlushesOf(before + [op]) == FlushesOf(before) + if op.Flush? then [op.id] else []
    ensures TimedOf(before + [op]) == if op.Invoke? then TimedOf(before)[op.id := op.timed] else TimedOf(before)
  {
    assert (before + [op])[..|before|] == before;
  }

  lemma AgreesKept(s: State, before: seq<Op>, op: Op)
    requires Known(s) && Legal(s, op) && Agrees(s, before)
    ensures Agrees(Step(s, op), before + [op])
  {
    hide StepInvoke, StepOnWrite, StepOnTimeout, Aborted, Timers, InvokesOf, FlushesOf, TimedOf;
    CallStep(before, op);
    match op
    case Invoke(id, timed, ret) => InvokeLog(s, id, timed, ret);
    case OnWrite(id, status, ret) => OnWriteLog(s, id, status, ret);
    case OnTimeout(id) => OnTimeoutLog(s, id);
    case Abort => AbortedLog(s, CALL_E_ABORT);
    case Flush(_) => SameTimers(s, Step(s, op));
  }

  lemma SameTimers(s: State, r: State)
    requires r.reqs == s.reqs && r.answers == s.answers && r.posts == s.posts
    requires |r.told| - |s.told| == |r.woken| - |s.woken|
    ensures Timers(s) ==> Timers(r)
  {
  }

  lemma {:induction false} RunLast(s: State, ops: seq<Op>, s': State) returns (mid: State)
    requires Run(s, ops, s') && ops != []
    ensures Run(s, ops[..|ops| - 1], mid) && Known(mid) && Legal(mid, ops[|ops| - 1])
    ensures s' == Step(mid, ops[|ops| - 1])
    decreases |ops|
  {
    hide Step, Legal, Known;
    if |ops| == 1 {
      mid := s;
      assert ops[1..] == [];
    } else {
      mid := RunLast(Step(s, ops[0]), ops[1..], s');
      assert ops[1..][..|ops| - 2] == ops[..|ops| - 1][1..];
    }
  }

  lemma {:induction false} HistoryFrom(s0: State, ops: seq<Op>, s: State)
    requires Agrees(s0, []) && Run(s0, ops, s)
    ensures Agrees(s, ops)
    decreases |ops|
  {
    hide Agrees, Step, Legal, Known;
    if ops != [] {
      hide Run;
      var n := |ops| - 1;
      var mid := RunLast(s0, ops, s);
      HistoryFrom(s0, ops[..n], mid);
      AgreesKept(mid, ops[..n], ops[n]);
      assert ops[..n] + [ops[n]] == ops;
    }
  }

  /** Every run: the requests are those of the calls, in order, and the timer of a request is started exactly when it has
      a timeout and was given to libuv. */
  lemma StateIsHistory(s0: State, ops: seq<Op>, s: State)
    requires s0 == EMPTY && Run(s0, ops, s)
    ensures s.enqueued == InvokesOf(ops) && s.asked == FlushesOf(ops)
    ensures |s.answers| == |s.posts| && |s.told| == |s.woken|
    ensures forall id :: id in s.reqs ==>
              id in TimedOf(ops) && (s.reqs[id].timerStarted <==> TimedOf(ops)[id] && s.reqs[id].submitted > 0)
  {
    assert Agrees(s0, []);
    hide Run;
    HistoryFrom(s0, ops, s);
    assert forall id :: id in s.reqs ==> TimerRight(s.reqs[id]);
  }

  lemma AbortState(s: State)
    requires Inv(s) && s.queue != []
    ensures var r := Step(s, Abort);
            && r.queue == [] && r.reqs.Keys == s.reqs.Keys
            && r.reqs[s.queue[0]].held && r.reqs[s.queue[0]].submitted == 1
            && !r.reqs[s.queue[0]].inQueue && r.reqs[s.queue[0]].posted && r.reqs[s.queue[0]].finalized == 0
  {
    hide Inv, Aborted;
    AbortLeaves(s, CALL_E_ABORT);
  }

  lemma AbortLeaves(s: State, code: int)
    requires Inv(s) && s.queue != []
    ensures var r, id := Aborted(s, code), s.queue[0];
            && r.queue == [] && r.reqs.Keys == s.reqs.Keys
            && r.reqs[id].held && r.reqs[id].submitted == 1
            && !r.reqs[id].inQueue && r.reqs[id].posted && r.reqs[id].finalized == 0
  {
    AbortHead(s, code);
    PostAllLeaves(PostHead(s, code), s.queue[0], code);
    hide PostHead;
  }

  lemma {:induction false} PostAllLeaves(s: State, id: Id, code: int)
    requires Known(s) && id in s.reqs && id !in s.queue
    ensures PostAll(s, code).queue == [] && PostAll(s, code).reqs.Keys == s.reqs.Keys && PostAll(s, code).reqs[id] == s.reqs[id]
    decreases |s.queue|
  {
    if s.queue != [] {
      PostAllLeaves(PostHead(s, code), id, code);
    }
  }

  /** After abort() the next write cannot overtake exactly when libuv had nothing. */
  lemma AbortSafeIffIdle(s: State, id: Id, timed: bool)
    requires Inv(s) && id !in s.reqs
    ensures Known(Step(s, Abort)) && id !in Step(s, Abort).reqs
    ensures OneHeld(Step(Step(s, Abort), Invoke(id, timed, 0))) <==> forall a :: a in s.reqs ==> !s.reqs[a].held
  {
    AbortKeeps(s);
    var r, write := Step(s, Abort), Invoke(id, timed, 0);
    if s.queue != [] {
      AbortState(s);
      assert s.reqs[s.queue[0]].held && r.reqs[s.queue[0]].held;
    }
    if Overtakes(r, write) {
      OvertakenHeld(r, write);
    } else {
      StepKeeps(r, write);
      InvOneHeld(Step(r, write));
    }
  }

  /** After an abort() of a write in flight and another write, the late callback of the first gives
      the second to libuv again while libuv still has it. */
  lemma AbortSubmitsTwice(s: State, id: Id, timed: bool)
    requires Inv(s) && s.queue != [] && id !in s.reqs
    ensures var s1 := Step(s, Abort);
            && Known(s1) && id !in s1.reqs
            && var s2 := Step(s1, Invoke(id, timed, 0));
            && Known(s2) && Legal(s2, OnWrite(s.queue[0], 0, 0))
            && s2.reqs[id].held && s2.reqs[id].submitted == 1
            && Step(s2, OnWrite(s.queue[0], 0, 0)).reqs[id].submitted == 2
  {
    AbortState(s);
  }

  // ---------------------------------------------------------------------------------------------
  // The stream object: the callbacks, each doing in place what its step says

  lemma PostAllStep(s: State, code: int)
    requires Known(s)
    ensures s.queue == [] ==> PostAll(s, code) == Notify(s, code)
    ensures s.queue != [] ==>
              && s.queue[0] in s.reqs && Known(PostHead(s, code))
              && PostAll(s, code) == PostAll(PostHead(s, code), code)
  {
  }

  lemma AllNext(told: seq<Answer>, n: nat, code: int)
    ensures told + All(n, code) + [UvStatus(code)] == told + All(n + 1, code)
  {
  }

  class UVStream {
    var queueWrite: seq<Id>
    var reqs: map<Id, Req>
    var flushWaiters: seq<Id>
    ghost var enqueued: seq<Id>
    ghost var posts: seq<Id>
    ghost var answers: seq<Answer>
    ghost var asked: seq<Id>
    ghost var woken: seq<Id>
    ghost var told: seq<Answer>

    ghost function Now(): (s: State)
      reads this
    {
      State(queueWrite, reqs, flushWaiters, enqueued, posts, answers, asked, woken, told)
    }

    constructor ()
      ensures Now() == EMPTY
    {
      queueWrite, reqs, flushWaiters := [], map[], [];
      enqueued, posts, answers, asked, woken, told := [], [], [], [], [], [];
    }

    method NotifyFlushWaiters(code: int)
      modifies this
      ensures Now() == Notify(old(Now()), code)
    {
      hide All;
      var i := 0;
      assert All(0, code) == [];
      while i < |flushWaiters|
        invariant i <= |flushWaiters|
        invariant Now() == old(Now()).(woken := old(woken) + flushWaiters[..i], told := old(told) + All(i, code))
      {
        AllNext(old(told), i, code);
        woken, told := woken + [flushWaiters[i]], told + [UvStatus(code)];
        i := i + 1;
      }
      flushWaiters := [];
    }

    method PostResultOnly(id: Id, ghost answer: Answer)
      requires id in reqs
      modifies this
      ensures Now() == Post(old(Now()), id, answer)
    {
      if reqs[id].posted {
        return;
      }
      reqs := reqs[id := reqs[id].(posted := true)];
      posts, answers := posts + [id], answers + [answer];
    }

    method FinalizeRequest(id: Id)
      requires id in reqs
      modifies this
      ensures Now() == Finalize(old(Now()), id)
    {
      reqs := reqs[id := reqs[id].(finalized := reqs[id].finalized + 1)];
    }

    method PostAllResult(code: int)
      requires Known(Now())
      modifies this
      ensures Now() == PostAll(old(Now()), code)
    {
      hide PostAll;
      while queueWrite != []
        invariant Known(Now()) && PostAll(Now(), code) == PostAll(old(Now()), code)
        decreases |queueWrite|
      {
        ghost var s := Now();
        PostAllStep(s, code);
        var id := queueWrite[0];
        queueWrite := queueWrite[1..];
        reqs := reqs[id := reqs[id].(inQueue := false)];
        if !reqs[id].posted {
          PostResultOnly(id, UvStatus(code));
        }
        if !reqs[id].inflight {
          FinalizeRequest(id);
        }
        assert Now() == PostHead(s, code);
      }
      PostAllStep(Now(), code);
      NotifyFlushWaiters(code);
    }

    /** Giving the head of the queue to libuv, which answers `ret`. */
    method SubmitHead(ret: int)
      requires Known(Now()) && queueWrite != []
      modifies this
      ensures Now() == Submit(old(Now()), ret)
    {
      ghost var s := Now();
      var q := reqs[queueWrite[0]];
      reqs := reqs[queueWrite[0] := q.(inflight := true, timerStarted := q.timerStarted || q.timed,
                                       held := q.held || ret == 0, refused := q.refused || ret != 0,
                                       submitted := q.submitted + 1)];
      assert Now() == Submitted(s, ret == 0);
      if ret != 0 {
        PostAllResult(ret);
      }
    }

    method InvokeWrite(id: Id, timed: bool, ret: int)
      requires Known(Now()) && id !in reqs
      modifies this
      ensures Now() == StepInvoke(old(Now()), id, timed, ret)
    {
      reqs := reqs[id := Req(timed, false, true, false, false, false, false, 0, 0)];
      queueWrite := queueWrite + [id];
      enqueued := enqueued + [id];
      if |queueWrite| == 1 {
        SubmitHead(ret);
      }
    }

    method OnWrite(id: Id, status: int, ret: int)
      requires Known(Now()) && id in reqs && reqs[id].held
      modifies this
      ensures Now() == StepOnWrite(old(Now()), id, status, ret)
    {
      ghost var s := Now();
      if reqs[id].inQueue {
        if queueWrite != [] && queueWrite[0] == id {
          queueWrite := queueWrite[1..];
        } else {
          queueWrite := Drop(queueWrite, id);
        }
      }
      reqs := reqs[id := reqs[id].(inflight := false, held := false, inQueue := false)];
      if !reqs[id].posted {
        PostResultOnly(id, UvStatus(status));
      }
      FinalizeRequest(id);
      assert Now() == Completed(s, id, status);
      if status < 0 {
        PostAllResult(status);
      } else if queueWrite != [] {
        SubmitHead(ret);
      } else {
        NotifyFlushWaiters(0);
      }
    }

    method OnTimeoutHandler(id: Id)
      requires Legal(Now(), OnTimeout(id))
      modifies this
      ensures Now() == StepOnTimeout(old(Now()), id)
    {
      if reqs[id].posted {
        return;
      }
      if !reqs[id].inflight && reqs[id].inQueue {
        queueWrite := Drop(queueWrite, id);
        reqs := reqs[id := reqs[id].(inQueue := false)];
      }
      PostResultOnly(id, TimedOut);
      if !reqs[id].inflight {
        FinalizeRequest(id);
      }
    }

    /** abort(), the part for writes. */
    method AbortWrites()
      requires Known(Now())
      modifies this
      ensures Now() == Step(old(Now()), Abort)
    {
      if queueWrite != [] {
        PostAllResult(CALL_E_ABORT);
      }
    }

    method FlushWrites(id: Id)
      requires Known(Now())
      modifies this
      ensures Now() == Step(old(Now()), Flush(id))
    {
      asked := asked + [id];
      if queueWrite == [] {
        woken, told := woken + [id], told + [Status(0)];
      } else {
        flushWaiters := flushWaiters + [id];
      }
    }
  }
}
