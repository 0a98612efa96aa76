/** The self-deleting state machine AsyncState (fibjs/include/AsyncCall.h:453-772), in its check
    build: the driver loop post_, the tickets handed out by next(), and the phase lock that counts
    them. Activations of post_ may nest (a ticket delivered from inside a state function) or run on
    several threads, so the machine is a transition system over its activations.

    The loop, the virtual functions it calls and the code that holds tickets are separate steps:
      Pass          the top of the do-while, up to the call of error() or of the state function
      ErrorReturns  error() comes back to the loop
      Returns       a state function comes back to the loop
      Next          next() is called from inside error() or a state function
      Deliver       whoever holds a ticket posts it, inline or through the pool */
module AsyncStates {
  import opened Results

  type Fn = nat
  type FrameId = nat

  /** The counters are std::atomic<int32_t>: the model keeps what they would be without wrap-around
      and compares them the way the code sees them, modulo 2^32. */
  const WORD := 0x1_0000_0000

  predicate Same32(x: int, y: int) { (x - y) % WORD == 0 }

  /** What an activation may still do to the machine: it has the machine to itself; it has asked
      for a ticket that nobody delivered yet; or its ticket was delivered and the machine is
      somebody else's. */
  datatype Baton = Holds | Asked | Gone

  datatype Pc = Top(hr: Result) | InError | InState

  /** One activation of post_; `silent` is its local copy of !m_bAsyncState. */
  datatype Frame = Frame(silent: bool, pc: Pc, baton: Baton)

  datatype Machine = Machine(
    epoch: nat,                     // m_epoch
    ticket: nat,                    // m_cont.expect
    next: Option<Fn>,               // m_next
    state: Option<Fn>,              // m_state, the state function last run
    asyncState: bool,               // m_bAsyncState
    queued: Option<Result>,         // m_v of a machine waiting in the pool
    upstream: bool,                 // m_ac names a continuation
    frames: map<FrameId, Frame>,    // live activations of post_
    // what happened so far
    dispatched: bool,
    issued: nat,                    // tickets handed out by next()
    delivered: nat,                 // tickets posted back
    inPlace: nat,                   // tickets consumed by the loop itself
    abandoned: bool,                // a state function returned pending without a ticket
    posts: seq<Result>,             // verdicts posted to the upstream continuation
    returned: Option<Result>,       // verdict returned by the initial post() to its caller
    deleted: nat,                   // times `delete this` ran
    reported: bool)                 // state_lock_violation ran (it aborts the process)

  function Fresh(upstream: bool): (m: Machine) {
    Machine(0, 0, None, None, false, None, upstream, map[], false, 0, 0, 0, false, [], None, 0, false)
  }

  datatype Op =
    | Init(entry: Fn)
    | Dispatch(f: FrameId, v: Result, pooled: bool)
    | RunQueued(f: FrameId)
    | Pass(f: FrameId)
    | ErrorReturns(f: FrameId, hr: Result)
    | Next(f: FrameId, fn: Option<Fn>)
    | Deliver(f: FrameId, v: Result, pooled: bool)
    | Returns(f: FrameId, hr: Result)

  function Outstanding(m: Machine): (n: int) { m.issued - m.delivered - m.inPlace }

  /** A ticket was asked for by an activation that is not waiting for its state function. */
  predicate KeptInPlace(m: Machine) {
    exists f :: f in m.frames && m.frames[f].baton == Asked && m.frames[f].pc != InState
  }

  /** What the code around the machine may do. Nothing runs after a report, nothing names a
      deleted machine (of the holder of a ticket that is a result, NeverTouchedAfterDelete, and not
      asked), an activation whose ticket was delivered answers pending without another call, and a
      ticket is not posted once the loop goes on by itself: when its state function answered
      anything but pending, or when it was asked for inside error(). */
  predicate Legal(m: Machine, op: Op) {
    && !m.reported
    && match op
       case Init(_) => m.deleted == 0
       case Dispatch(f, _, _) => m.deleted == 0 && f !in m.frames
       case RunQueued(f) => m.queued.Some? && f !in m.frames
       case Pass(f) => f in m.frames && m.frames[f].pc.Top?
       case ErrorReturns(f, _) => f in m.frames && m.frames[f].pc == InError
       case Next(f, _) =>
         !m.dispatched || (f in m.frames && !m.frames[f].pc.Top? && m.frames[f].baton != Gone)
       case Deliver(f, _, _) =>
         m.issued > 0 && (m.deleted == 0 || Outstanding(m) == 1) && f !in m.frames && !KeptInPlace(m)
       case Returns(f, hr) =>
         && f in m.frames && m.frames[f].pc == InState
         && (m.frames[f].baton == Gone ==> hr.IsPending())
  }

  function Report(m: Machine): (r: Machine)
    ensures r.upstream == m.upstream && r.delivered >= m.delivered && r.inPlace >= m.inPlace
  { m.(reported := true) }

  /** Steps that run a member of the machine itself. */
  predicate Touches(m: Machine, op: Op)
    requires Legal(m, op)
  {
    match op
    case Returns(_, hr) => !hr.IsPending()
    case _ => true
  }

  /** In-place consumption: a ticket still out when the loop goes on can have no other taker. */
  function Consume(m: Machine): (r: Machine)
    ensures r.upstream == m.upstream && r.delivered >= m.delivered && r.inPlace >= m.inPlace
  {
    if Same32(m.ticket, m.epoch) then m.(epoch := m.epoch + 1, inPlace := m.inPlace + 1) else m
  }

  /** The loop after error handling: finish and delete, or run the next state function. */
  function Decide(m: Machine, f: FrameId, hr: Result): (r: Machine)
    requires f in m.frames
    ensures r.upstream == m.upstream && r.delivered >= m.delivered && r.inPlace >= m.inPlace
  {
    var fr := m.frames[f];
    if hr.Failed() || m.next.None? then
      m.(posts := if !fr.silent && m.upstream then m.posts + [hr] else m.posts,
         returned := if fr.silent then Some(hr) else m.returned,
         deleted := m.deleted + 1,
         frames := m.frames - {f})
    else
      m.(state := m.next, frames := m.frames[f := fr.(pc := InState, baton := Holds)])
  }

  function StepDispatch(m: Machine, f: FrameId, v: Result, pooled: bool): (r: Machine)
    requires f !in m.frames
    ensures r.upstream == m.upstream && r.delivered >= m.delivered && r.inPlace >= m.inPlace
  {
    var m1 := m.(epoch := m.epoch + 1);
    if !Same32(m1.epoch, 1) then Report(m1)
    else if pooled then m1.(dispatched := true, asyncState := true, queued := Some(v))
    else m1.(dispatched := true, asyncState := true,
             frames := m.frames[f := Frame(!m.asyncState, Top(v), Holds)])
  }

  function StepPass(m: Machine, f: FrameId): (r: Machine)
    requires f in m.frames && m.frames[f].pc.Top?
    ensures r.upstream == m.upstream && r.delivered >= m.delivered && r.inPlace >= m.inPlace
  {
    var hr := m.frames[f].pc.hr;
    var m1 := Consume(m);
    if hr.Failed() then
      m1.(frames := m1.frames[f := m1.frames[f].(pc := InError, baton := Holds)])
    else
      Decide(Consume(m1), f, hr)
  }

  function StepNext(m: Machine, f: FrameId, fn: Option<Fn>): (r: Machine)
    ensures r.upstream == m.upstream && r.delivered >= m.delivered && r.inPlace >= m.inPlace
  {
    var m1 := m.(next := fn, ticket := m.ticket + 1);
    if !Same32(m1.ticket, m.epoch) then Report(m1)
    else m1.(issued := m.issued + 1,
             frames := if f in m.frames then m.frames[f := m.frames[f].(baton := Asked)] else m.frames)
  }

  /** The activation that asked loses the machine to the delivery. */
  function TakeAway(frames: map<FrameId, Frame>): (r: map<FrameId, Frame>) {
    map f | f in frames :: if frames[f].baton == Asked then frames[f].(baton := Gone) else frames[f]
  }

  function StepDeliver(m: Machine, f: FrameId, v: Result, pooled: bool): (r: Machine)
    requires f !in m.frames
    ensures r.upstream == m.upstream && r.delivered >= m.delivered && r.inPlace >= m.inPlace
  {
    var m1 := m.(epoch := m.epoch + 1);
    if !Same32(m1.epoch, m.ticket + 1) then Report(m1)
    else
      var m2 := m1.(delivered := m.delivered + 1, asyncState := true);
      if pooled then m2.(queued := Some(v), frames := TakeAway(m.frames))
      else m2.(frames := TakeAway(m.frames)[f := Frame(!m.asyncState, Top(v), Holds)])
  }

  function StepReturns(m: Machine, f: FrameId, hr: Result): (r: Machine)
    requires f in m.frames
    ensures r.upstream == m.upstream && r.delivered >= m.delivered && r.inPlace >= m.inPlace
  {
    if hr.IsPending() then
      m.(frames := m.frames - {f}, abandoned := m.abandoned || m.frames[f].baton == Holds)
    else
      m.(frames := m.frames[f := m.frames[f].(pc := Top(hr))])
  }

  function Step(m: Machine, op: Op): (r: Machine)
    requires Legal(m, op)
    ensures r.upstream == m.upstream && r.delivered >= m.delivered && r.inPlace >= m.inPlace
  {
    match op
    case Init(fn) => if !Same32(m.epoch, 0) then Report(m) else m.(next := Some(fn))
    case Dispatch(f, v, pooled) => StepDispatch(m, f, v, pooled)
    case RunQueued(f) =>
      m.(asyncState := true, queued := None,
         frames := m.frames[f := Frame(false, Top(m.queued.value), Holds)])
    case Pass(f) => StepPass(m, f)
    case ErrorReturns(f, hr) => Decide(Consume(m), f, hr)
    case Next(f, fn) => StepNext(m, f, fn)
    case Deliver(f, v, pooled) => StepDeliver(m, f, v, pooled)
    case Returns(f, hr) => StepReturns(m, f, hr)
  }

  ghost predicate Run(m: Machine, ops: seq<Op>, m': Machine)
    decreases |ops|
  {
    if ops == [] then m == m' else Legal(m, ops[0]) && Run(Step(m, ops[0]), ops[1..], m')
  }

  // ---------------------------------------------------------------------------------------------
  // Invariant

  /** The counters of the phase lock count what they are meant to count. */
  predicate Counters(m: Machine) {
    && m.ticket == m.issued
    && m.epoch == (if m.dispatched then 1 else 0) + m.delivered + m.inPlace
    && 0 <= Outstanding(m) <= 1
    && (!m.dispatched ==> m.issued == 0 && m.frames == map[] && m.queued.None? && !m.asyncState
                          && m.deleted == 0 && !m.abandoned)
    && (m.dispatched ==> m.asyncState)
  }

  /** Exactly one party has the machine: one activation, the pool, the holder of the ticket, or
      nobody because it is deleted or abandoned. */
  predicate OneOwner(m: Machine) {
    && (forall f :: f in m.frames && m.frames[f].baton == Holds ==>
          Outstanding(m) == 0 && m.queued.None? && m.deleted == 0 && !m.abandoned)
    && (forall f :: f in m.frames && m.frames[f].baton == Asked ==>
          Outstanding(m) == 1 && m.queued.None? && m.deleted == 0 && !m.abandoned)
    && (forall f, g :: f in m.frames && g in m.frames && f != g ==>
          m.frames[f].baton == Gone || m.frames[g].baton == Gone)
    && (m.queued.Some? ==> Outstanding(m) == 0 && m.deleted == 0 && !m.abandoned)
    && (Outstanding(m) == 1 ==> m.deleted == 0 && !m.abandoned)
    && m.deleted <= 1
    && (m.deleted == 1 ==> !m.abandoned)
    && (forall f :: f in m.frames && m.frames[f].pc.Top? ==> m.frames[f].baton != Gone)
    && (forall f :: f in m.frames && m.frames[f].pc == InError ==> m.frames[f].baton != Gone)
  }

  /** The verdict is still to come, or it came out of exactly one of the two doors. */
  predicate OneVerdict(m: Machine) {
    && (forall f, g :: f in m.frames && g in m.frames && m.frames[f].silent && m.frames[g].silent ==> f == g)
    && (m.returned.Some? ==> m.deleted == 1 && forall f :: f in m.frames ==> !m.frames[f].silent)
    && (m.deleted == 0 ==> m.posts == [] && m.returned.None?)
    && (m.deleted == 1 ==>
          if m.returned.Some? then m.posts == [] else |m.posts| == (if m.upstream then 1 else 0))
  }

  /** Nobody loses the machine: unless a state function answered pending without a ticket, a
      machine that nobody has is deleted. */
  predicate SomeOwner(m: Machine) {
    m.dispatched && m.queued.None? && Outstanding(m) == 0 && !m.abandoned && m.deleted == 0 ==>
      exists f :: f in m.frames && m.frames[f].baton == Holds
  }

  predicate Inv(m: Machine) { Counters(m) && OneOwner(m) && OneVerdict(m) && SomeOwner(m) }

  /** While the lock is sound, the test ticket == epoch is the test for a ticket that is out. */
  lemma LockTellsOutstanding(m: Machine)
    requires Counters(m) && m.dispatched
    ensures Same32(m.ticket, m.epoch) <==> Outstanding(m) == 1
    ensures m.epoch - m.ticket == 1 - Outstanding(m)
  {}

  lemma ConsumeKeeps(m: Machine)
    requires Counters(m) && m.dispatched
    ensures Counters(Consume(m)) && Outstanding(Consume(m)) == 0
  {
    LockTellsOutstanding(m);
  }

  /** The activation that has the machine goes on to another place in the loop. */
  lemma FrameSetKeeps(m: Machine, f: FrameId, fr: Frame)
    requires Counters(m) && m.dispatched && OneVerdict(m)
    requires f in m.frames && Outstanding(m) == 0 && m.queued.None? && m.deleted == 0 && !m.abandoned
    requires forall g :: g in m.frames && g != f ==> m.frames[g].baton == Gone && m.frames[g].pc == InState
    requires fr.silent == m.frames[f].silent && fr.baton == Holds
    ensures Inv(m.(frames := m.frames[f := fr]))
  {
    var r := m.(frames := m.frames[f := fr]);
    assert forall g :: g in r.frames ==> g in m.frames && r.frames[g].silent == m.frames[g].silent;
    assert r.frames[f].baton == Holds;
  }

  lemma DecideKeeps(m: Machine, f: FrameId, hr: Result)
    requires Counters(m) && m.dispatched && OneVerdict(m)
    requires f in m.frames && Outstanding(m) == 0 && m.queued.None? && m.deleted == 0 && !m.abandoned
    requires forall g :: g in m.frames && g != f ==> m.frames[g].baton == Gone && m.frames[g].pc == InState
    ensures Inv(Decide(m, f, hr))
  {
    if hr.Failed() || m.next.None? {
      var r := Decide(m, f, hr);
      assert forall g :: g in r.frames ==> g != f && r.frames[g] == m.frames[g];
    } else {
      FrameSetKeeps(m.(state := m.next), f, m.frames[f].(pc := InState, baton := Holds));
    }
  }

  lemma OthersGone(m: Machine, f: FrameId)
    requires Inv(m) && f in m.frames && m.frames[f].baton != Gone
    ensures m.dispatched && m.queued.None? && m.deleted == 0 && !m.abandoned
    ensures forall g :: g in m.frames && g != f ==> m.frames[g].baton == Gone && m.frames[g].pc == InState
  {
  }

  lemma PassKeeps(m: Machine, f: FrameId)
    requires Inv(m) && Legal(m, Pass(f))
    ensures Inv(Step(m, Pass(f)))
  {
    TopKeeps(m, f);
  }

  lemma TopKeeps(m: Machine, f: FrameId)
    requires Inv(m) && f in m.frames && m.frames[f].pc.Top?
    ensures Inv(StepPass(m, f))
  {
    OthersGone(m, f);
    ConsumeKeeps(m);
    var m1 := Consume(m);
    var hr := m.frames[f].pc.hr;
    if hr.Failed() {
      hide Inv, Counters, OneOwner, OneVerdict, SomeOwner;
      FrameSetKeeps(m1, f, m1.frames[f].(pc := InError, baton := Holds));
    } else {
      ConsumeKeeps(m1);
      DecideKeeps(Consume(m1), f, hr);
    }
  }

  lemma ErrorReturnsKeeps(m: Machine, f: FrameId, hr: Result)
    requires Inv(m) && Legal(m, ErrorReturns(f, hr))
    ensures Inv(Step(m, ErrorReturns(f, hr)))
  {
    OthersGone(m, f);
    ConsumeKeeps(m);
    DecideKeeps(Consume(m), f, hr);
  }

  lemma NextKeeps(m: Machine, f: FrameId, fn: Option<Fn>)
    requires Inv(m) && Legal(m, Next(f, fn))
    ensures Step(m, Next(f, fn)).reported <==> !m.dispatched || Outstanding(m) == 1
    ensures !Step(m, Next(f, fn)).reported ==> Inv(Step(m, Next(f, fn)))
  {
    if m.dispatched {
      LockTellsOutstanding(m);
      if Outstanding(m) == 0 {
        AskedKeeps(m, f, fn);
      }
    }
  }

  lemma AskedKeeps(m: Machine, f: FrameId, fn: Option<Fn>)
    requires Inv(m) && m.dispatched && Outstanding(m) == 0 && f in m.frames && !m.frames[f].pc.Top?
    requires m.frames[f].baton != Gone
    ensures Inv(m.(next := fn, ticket := m.ticket + 1, issued := m.issued + 1,
                   frames := m.frames[f := m.frames[f].(baton := Asked)]))
  {
    hide Same32;
    OthersGone(m, f);
    var r := m.(next := fn, ticket := m.ticket + 1, issued := m.issued + 1,
                frames := m.frames[f := m.frames[f].(baton := Asked)]);
    assert r.frames[f].baton == Asked;
    assert forall g :: g in r.frames ==> g in m.frames && r.frames[g].silent == m.frames[g].silent;
  }

  /** After a delivery every earlier activation can only answer pending. */
  lemma TakeAwayAll(m: Machine)
    requires Inv(m) && Outstanding(m) == 1 && !KeptInPlace(m)
    ensures TakeAway(m.frames).Keys == m.frames.Keys && m.dispatched && m.queued.None?
    ensures forall g :: g in m.frames ==>
              TakeAway(m.frames)[g] == m.frames[g].(baton := Gone) && m.frames[g].pc == InState
  {
    forall g | g in m.frames
      ensures TakeAway(m.frames)[g] == m.frames[g].(baton := Gone) && m.frames[g].pc == InState
    {
      assert m.frames[g].baton != Holds;
    }
  }

  /** A delivery is reported exactly when no ticket is out. */
  lemma DeliverReported(m: Machine, f: FrameId, v: Result, pooled: bool)
    requires Inv(m) && Legal(m, Deliver(f, v, pooled))
    ensures Step(m, Deliver(f, v, pooled)).reported <==> Outstanding(m) == 0
  {
    LockTellsOutstanding(m);
  }

  lemma DeliverPooledKeeps(m: Machine, f: FrameId, v: Result)
    requires Inv(m) && Legal(m, Deliver(f, v, true)) && Outstanding(m) == 1
    ensures Inv(Step(m, Deliver(f, v, true)))
  {
    DeliverReported(m, f, v, true);
    TakeAwayAll(m);
    var r := Step(m, Deliver(f, v, true));
    assert forall g :: g in r.frames ==> r.frames[g].baton == Gone && r.frames[g].silent == m.frames[g].silent;
  }

  lemma DeliverInlineKeeps(m: Machine, f: FrameId, v: Result)
    requires Inv(m) && Legal(m, Deliver(f, v, false)) && Outstanding(m) == 1
    ensures Inv(Step(m, Deliver(f, v, false)))
  {
    DeliverReported(m, f, v, false);
    TakeAwayAll(m);
    var r := Step(m, Deliver(f, v, false));
    assert r.frames[f] == Frame(false, Top(v), Holds);
    assert forall g :: g in r.frames && g != f ==>
      r.frames[g].baton == Gone && r.frames[g].pc == InState && r.frames[g].silent == m.frames[g].silent;
    assert Counters(r);
    assert OneOwner(r);
    assert OneVerdict(r);
  }

  lemma ReturnsKeeps(m: Machine, f: FrameId, hr: Result)
    requires Inv(m) && Legal(m, Returns(f, hr))
    ensures Inv(Step(m, Returns(f, hr)))
  {
    StateReturnKeeps(m, f, hr);
  }

  lemma StateReturnKeeps(m: Machine, f: FrameId, hr: Result)
    requires Inv(m) && f in m.frames && m.frames[f].pc == InState && (m.frames[f].baton == Gone ==> hr.IsPending())
    ensures Inv(StepReturns(m, f, hr))
  {
    hide Same32, Counters, OneOwner, OneVerdict, SomeOwner;
    StateReturnOwner(m, f, hr);
    StateReturnRest(m, f, hr);
  }

  lemma StateReturnOwner(m: Machine, f: FrameId, hr: Result)
    requires Inv(m) && f in m.frames && m.frames[f].pc == InState && (m.frames[f].baton == Gone ==> hr.IsPending())
    ensures OneOwner(StepReturns(m, f, hr)) && SomeOwner(StepReturns(m, f, hr))
  {
    hide OneVerdict, Counters;
    var r := StepReturns(m, f, hr);
    if hr.IsPending() {
      assert r.frames == m.frames - {f};
      if m.frames[f].baton != Holds {
        SomeoneElse(m, f);
      }
    } else {
      assert r.frames[f].baton == m.frames[f].baton;
      assert forall g :: g in r.frames ==> g in m.frames && r.frames[g].baton == m.frames[g].baton;
    }
  }

  /** An activation that gave the machine away leaves it to somebody. */
  lemma SomeoneElse(m: Machine, f: FrameId)
    requires OneOwner(m) && SomeOwner(m) && f in m.frames && m.frames[f].baton != Holds
    ensures SomeOwner(m.(frames := m.frames - {f}))
  {
    var r := m.(frames := m.frames - {f});
    assert forall g :: g in m.frames && g != f ==> g in r.frames && r.frames[g] == m.frames[g];
  }

  lemma StateReturnRest(m: Machine, f: FrameId, hr: Result)
    requires Inv(m) && f in m.frames
    ensures Counters(StepReturns(m, f, hr)) && OneVerdict(StepReturns(m, f, hr))
  {
    hide OneOwner, SomeOwner;
    var r := StepReturns(m, f, hr);
    assert forall g :: g in r.frames ==> g in m.frames && r.frames[g].silent == m.frames[g].silent;
  }

  lemma InitKeeps(m: Machine, fn: Fn)
    requires Inv(m)
    ensures Inv(m.(next := Some(fn)))
  {
  }

  lemma RunQueuedKeeps(m: Machine, f: FrameId)
    requires Inv(m) && Legal(m, RunQueued(f))
    ensures Inv(Step(m, RunQueued(f)))
  {
    var r := Step(m, RunQueued(f));
    assert r.frames[f].baton == Holds;
    assert forall g :: g in m.frames ==> r.frames[g] == m.frames[g] && m.frames[g].baton == Gone;
  }

  lemma StepKeeps(m: Machine, op: Op)
    requires Inv(m) && Legal(m, op) && !Step(m, op).reported
    requires m.delivered + m.inPlace < WORD - 1
    ensures Inv(Step(m, op))
  {
    hide Inv, StepDispatch, StepDeliver, StepPass, StepReturns, Decide;
    match op
    case Init(fn) => InitKeeps(m, fn);
    case Dispatch(f, v, pooled) => FirstDispatch(m, f, v, pooled);
    case RunQueued(f) => RunQueuedKeeps(m, f);
    case Pass(f) => PassKeeps(m, f);
    case ErrorReturns(f, hr) => ErrorReturnsKeeps(m, f, hr);
    case Next(f, fn) => NextKeeps(m, f, fn);
    case Deliver(f, v, pooled) => DeliverKeeps(m, f, v, pooled);
    case Returns(f, hr) => ReturnsKeeps(m, f, hr);
  }

  lemma FirstDispatch(m: Machine, f: FrameId, v: Result, pooled: bool)
    requires Inv(m) && Legal(m, Dispatch(f, v, pooled)) && !Step(m, Dispatch(f, v, pooled)).reported
    requires m.delivered + m.inPlace < WORD - 1
    ensures Inv(Step(m, Dispatch(f, v, pooled)))
  {
    DispatchReported(m, f, v, pooled);
  }

  lemma DeliverKeeps(m: Machine, f: FrameId, v: Result, pooled: bool)
    requires Inv(m) && Legal(m, Deliver(f, v, pooled)) && !Step(m, Deliver(f, v, pooled)).reported
    ensures Inv(Step(m, Deliver(f, v, pooled)))
  {
    DeliverReported(m, f, v, pooled);
    if pooled {
      DeliverPooledKeeps(m, f, v);
    } else {
      DeliverInlineKeeps(m, f, v);
    }
  }

  lemma {:induction false} RunMonotone(m: Machine, ops: seq<Op>, m': Machine)
    requires Run(m, ops, m')
    ensures m.delivered <= m'.delivered && m.inPlace <= m'.inPlace && m.upstream == m'.upstream
    ensures m.reported ==> m'.reported
    decreases |ops|
  {
    if ops != [] {
      RunMonotone(Step(m, ops[0]), ops[1..], m');
    }
  }

  /** m is reached by a run from construction that no check stopped, with fewer than 2^32 - 1
      tickets used up (so that the 32-bit counters did not come round to 0). */
  ghost predicate Reachable(m: Machine) {
    && !m.reported && m.delivered + m.inPlace < WORD - 1
    && exists ops :: Run(Fresh(m.upstream), ops, m)
  }

  lemma FreshCounters(upstream: bool)
    ensures Counters(Fresh(upstream))
  {
  }

  lemma FreshOneOwner(upstream: bool)
    ensures OneOwner(Fresh(upstream))
  {
  }

  lemma FreshOneVerdict(upstream: bool)
    ensures OneVerdict(Fresh(upstream))
  {
  }

  lemma FreshSomeOwner(upstream: bool)
    ensures SomeOwner(Fresh(upstream))
  {
  }

  lemma FreshInv(upstream: bool)
    ensures Inv(Fresh(upstream))
  {
    hide Counters, OneOwner, OneVerdict, SomeOwner, Fresh;
    FreshCounters(upstream);
    FreshOneOwner(upstream);
    FreshOneVerdict(upstream);
    FreshSomeOwner(upstream);
  }

  lemma ReachableInv(m: Machine)
    requires Reachable(m)
    ensures Inv(m)
  {
    FreshInv(m.upstream);
    hide Inv, Step, Run, Fresh;
    var ops :| Run(Fresh(m.upstream), ops, m);
    RunKeeps(Fresh(m.upstream), ops, m);
  }

  lemma {:induction false} RunKeeps(m: Machine, ops: seq<Op>, m': Machine)
    requires Inv(m) && Run(m, ops, m') && !m'.reported
    requires m'.delivered + m'.inPlace < WORD - 1
    ensures Inv(m')
    decreases |ops|
  {
    if ops != [] {
      RunMonotone(m, ops, m');
      RunMonotone(Step(m, ops[0]), ops[1..], m');
      StepKeeps(m, ops[0]);
      RunKeeps(Step(m, ops[0]), ops[1..], m');
    }
  }

  // ---------------------------------------------------------------------------------------------
  // Main results

  /** How often the verdict reached somebody who takes it as the verdict: a post to the upstream
      continuation, or a returned code that does not mean "the continuation will be posted". */
  function Reports(m: Machine): (n: nat) {
    |m.posts| + if m.returned.Some? && !m.returned.value.IsPending() then 1 else 0
  }

  /** Whoever could still run the machine. */
  predicate Quiet(m: Machine) {
    && m.dispatched && m.queued.None? && Outstanding(m) == 0 && !m.abandoned
    && forall f :: f in m.frames ==> m.frames[f].baton == Gone
  }

  /** Every run: the machine is deleted at most once, exactly once when nobody can run it any
      more; nothing is reported before; and then the verdict came out of exactly one door. */
  lemma VerdictExactlyOnce(m: Machine)
    requires Reachable(m)
    ensures m.deleted <= 1
    ensures Quiet(m) ==> m.deleted == 1
    ensures m.deleted == 0 ==> m.posts == [] && m.returned.None?
    ensures m.deleted == 1 && m.returned.Some? ==> m.posts == []
    ensures m.deleted == 1 && m.returned.None? ==> |m.posts| == if m.upstream then 1 else 0
  {
    ReachableInv(m);
  }

  /** Every run: no step of the loop, of error() or of a state function runs on a deleted machine,
      although activations whose ticket was delivered may still be on their stacks. */
  lemma NeverTouchedAfterDelete(m: Machine, op: Op)
    requires Reachable(m) && Legal(m, op)
    ensures Touches(m, op) ==> m.deleted == 0
  {
    ReachableInv(m);
  }

  lemma AbandonedRefused(m: Machine, op: Op)
    requires Inv(m) && m.abandoned && Legal(m, op) && (op.Dispatch? || op.Deliver?)
    requires m.delivered + m.inPlace < WORD - 1
    ensures Step(m, op).reported
  {
    match op
    case Dispatch(f, v, pooled) => DispatchReported(m, f, v, pooled);
    case Deliver(f, v, pooled) => DeliverReported(m, f, v, pooled);
  }

  /** A machine that waits without having asked for a ticket, as chunk_end does when the next trailer line comes later:
      it named itself where the ticket should be. Whoever posts to it is reported. */
  lemma AbandonedReported(m: Machine, op: Op)
    requires Reachable(m) && m.abandoned && Legal(m, op) && (op.Dispatch? || op.Deliver?)
    ensures Step(m, op).reported
  {
    ReachableInv(m);
    AbandonedRefused(m, op);
  }

  /** Answering pending without a ticket makes it such a machine. */
  lemma PendingWithoutTicket(m: Machine, f: FrameId, hr: Result)
    requires Reachable(m) && Legal(m, Returns(f, hr)) && hr.IsPending() && m.frames[f].baton == Holds
    ensures Step(m, Returns(f, hr)).abandoned && Inv(Step(m, Returns(f, hr)))
  {
    ReachableInv(m);
    ReturnsKeeps(m, f, hr);
  }

  lemma AbandonedStep(m: Machine, op: Op)
    requires Inv(m) && m.abandoned && Legal(m, op) && !Step(m, op).reported && m.delivered + m.inPlace < WORD - 1
    ensures Step(m, op) == m.(frames := Step(m, op).frames)
  {
    if op.Dispatch? || op.Deliver? {
      AbandonedRefused(m, op);
    }
  }

  /** And then in every run nothing but a report can happen to it: it is never run, deleted or answered. */
  lemma {:induction false} AbandonedForEver(m: Machine, ops: seq<Op>, m': Machine)
    requires Inv(m) && m.abandoned && Run(m, ops, m') && !m'.reported && m.delivered + m.inPlace < WORD - 1
    ensures m' == m.(frames := m'.frames) && m'.deleted == 0 && m'.posts == [] && m'.returned.None?
    decreases |ops|
  {
    if ops != [] {
      RunMonotone(m, ops, m');
      RunMonotone(Step(m, ops[0]), ops[1..], m');
      AbandonedStep(m, ops[0]);
      StepKeeps(m, ops[0]);
      hide Inv, Step;
      AbandonedForEver(Step(m, ops[0]), ops[1..], m');
    }
  }

  /** Every run: the phase difference is the ticket account, and the account never overdraws. */
  lemma PhaseLock(m: Machine)
    requires Reachable(m)
    ensures m.dispatched ==> 0 <= m.epoch - m.ticket <= 1
    ensures m.delivered + m.inPlace <= m.issued <= m.delivered + m.inPlace + 1
    ensures m.dispatched ==> (m.epoch == m.ticket <==> m.issued == m.delivered + m.inPlace + 1)
  {
    ReachableInv(m);
  }

  /** A direct dispatch is reported exactly when the machine was dispatched before and its phase
      counter does not read 0. */
  lemma DispatchReported(m: Machine, f: FrameId, v: Result, pooled: bool)
    requires Inv(m) && Legal(m, Dispatch(f, v, pooled))
    ensures Step(m, Dispatch(f, v, pooled)).reported <==>
              m.dispatched && (1 + m.delivered + m.inPlace) % WORD != 0
    ensures !m.dispatched ==> Inv(Step(m, Dispatch(f, v, pooled)))
  {
    if !m.dispatched && !pooled {
      assert Step(m, Dispatch(f, v, pooled)).frames[f].baton == Holds;
    }
  }

  /** The step that deletes the machine reports its verdict once, except in one case: error()
      answers pending inside the activation whose caller reads the return value. */
  lemma VerdictLostOnlyByPendingError(m: Machine, op: Op)
    requires Inv(m) && m.upstream && m.deleted == 0
    requires Legal(m, op) && !Step(m, op).reported && Step(m, op).deleted == 1
    ensures Reports(Step(m, op)) ==
              if op.ErrorReturns? && op.hr.IsPending() && m.frames[op.f].silent then 0 else 1
  {
  }

  /** error() cannot wait: answering pending ends the machine even when error() named a state to go
      on with, as the timeout branch of the stream reader does. */
  lemma PendingErrorEndsMachine(m: Machine, f: FrameId)
    requires Legal(m, ErrorReturns(f, PENDING))
    ensures Step(m, ErrorReturns(f, PENDING)).deleted == m.deleted + 1
  {
  }

  // ---------------------------------------------------------------------------------------------
  // The same from what happened alone

  /** The value of the last post to the machine. */
  function LastPosted(ops: seq<Op>): (v: Option<Result>) {
    if ops == [] then None
    else
      match ops[|ops| - 1]
      case Dispatch(_, v, _) => Some(v)
      case Deliver(_, v, _) => Some(v)
      case _ => LastPosted(ops[..|ops| - 1])
  }

  /** The state function named last, by init() or next(). */
  function Named(ops: seq<Op>): (fn: Option<Fn>) {
    if ops == [] then None
    else
      match ops[|ops| - 1]
      case Init(fn) => Some(fn)
      case Next(_, fn) => fn
      case _ => Named(ops[..|ops| - 1])
  }

  predicate Starts(op: Op) { op.Dispatch? || op.Deliver? || op.RunQueued? }

  predicate AnyStart(ops: seq<Op>) { exists i :: 0 <= i < |ops| && Starts(ops[i]) }

  /** Where an activation is: begun with the posted value, in error() when the value it has failed, else in a state
      function if one is named, else gone. */
  function PcOf(ops: seq<Op>, f: FrameId): (pc: Option<Pc>) {
    if ops == [] then None
    else
      var before := ops[..|ops| - 1];
      match ops[|ops| - 1]
      case Dispatch(g, v, pooled) => if g == f && !pooled then Some(Top(v)) else PcOf(before, f)
      case Deliver(g, v, pooled) => if g == f && !pooled then Some(Top(v)) else PcOf(before, f)
      case RunQueued(g) =>
        if g != f then PcOf(before, f) else if LastPosted(before).Some? then Some(Top(LastPosted(before).value)) else None
      case Pass(g) =>
        if g != f then PcOf(before, f)
        else if PcOf(before, f).Some? && PcOf(before, f).value.Top? && PcOf(before, f).value.hr.Failed() then Some(InError)
        else if Named(before).Some? then Some(InState) else None
      case ErrorReturns(g, hr) =>
        if g != f then PcOf(before, f) else if !hr.Failed() && Named(before).Some? then Some(InState) else None
      case Returns(g, hr) => if g != f then PcOf(before, f) else if hr.IsPending() then None else Some(Top(hr))
      case _ => PcOf(before, f)
  }

  /** Whether the caller of the activation reads its return value: nothing had been posted before. */
  function SilentOf(ops: seq<Op>, f: FrameId): bool {
    if ops == [] then false
    else
      var before := ops[..|ops| - 1];
      match ops[|ops| - 1]
      case Dispatch(g, _, pooled) => if g == f && !pooled then !AnyStart(before) else SilentOf(before, f)
      case Deliver(g, _, pooled) => if g == f && !pooled then !AnyStart(before) else SilentOf(before, f)
      case RunQueued(g) => if g == f then false else SilentOf(before, f)
      case _ => SilentOf(before, f)
  }

  /** What is told of one activation: nothing, or its place and door. */
  predicate FrameIs(m: Machine, f: FrameId, pc: Option<Pc>, silent: bool) {
    (f in m.frames <==> pc.Some?) && (f in m.frames ==> m.frames[f].pc == pc.value && m.frames[f].silent == silent)
  }

  ghost predicate FramesAgree(m: Machine, ops: seq<Op>) {
    forall f :: FrameIs(m, f, PcOf(ops, f), SilentOf(ops, f))
  }

  ghost predicate Agrees(m: Machine, ops: seq<Op>) {
    && m.next == Named(ops) && (m.queued.Some? ==> LastPosted(ops) == m.queued)
    && m.asyncState == AnyStart(ops) && FramesAgree(m, ops)
  }

  lemma {:induction false} RunLast(m: Machine, ops: seq<Op>, m': Machine) returns (mid: Machine)
    requires Run(m, ops, m') && ops != []
    ensures Run(m, ops[..|ops| - 1], mid) && Legal(mid, ops[|ops| - 1]) && m' == Step(mid, ops[|ops| - 1])
    decreases |ops|
  {
    hide Step, Legal;
    if |ops| == 1 {
      mid := m;
      assert ops[1..] == [];
    } else {
      mid := RunLast(Step(m, ops[0]), ops[1..], m');
      assert ops[1..][..|ops| - 2] == ops[..|ops| - 1][1..];
      assert Run(m, ops[..|ops| - 1], mid);
    }
  }

  lemma AnyStartStep(before: seq<Op>, op: Op)
    ensures AnyStart(before + [op]) <==> AnyStart(before) || Starts(op)
  {
    if Starts(op) {
      assert Starts((before + [op])[|before|]);
    }
    if i :| 0 <= i < |before| && Starts(before[i]) {
      assert Starts((before + [op])[i]);
    }
  }

  lemma ReportStays(m: Machine, op: Op)
    requires Legal(m, op)
    ensures !m.reported && m.delivered + m.inPlace <= Step(m, op).delivered + Step(m, op).inPlace
  {
  }

  lemma ConsumeSame(m: Machine)
    ensures Consume(m) == m.(epoch := Consume(m).epoch, inPlace := Consume(m).inPlace)
  {
    hide Same32;
  }

  /** Where a step takes its own activation. */
  function OwnPc(m: Machine, op: Op): (pc: Option<Pc>)
    requires Legal(m, op) && !op.Init?
  {
    match op
    case Dispatch(_, v, pooled) => if pooled then None else Some(Top(v))
    case Deliver(_, v, pooled) => if pooled then None else Some(Top(v))
    case RunQueued(_) => Some(Top(m.queued.value))
    case Pass(f) =>
      if m.frames[f].pc.hr.Failed() then Some(InError) else if m.next.Some? then Some(InState) else None
    case ErrorReturns(_, hr) => if !hr.Failed() && m.next.Some? then Some(InState) else None
    case Returns(_, hr) => if hr.IsPending() then None else Some(Top(hr))
    case Next(f, _) => if f in m.frames then Some(m.frames[f].pc) else None
  }

  predicate OwnSilent(m: Machine, op: Op)
    requires !op.Init?
  {
    if op.RunQueued? then false else if op.f in m.frames then m.frames[op.f].silent else !m.asyncState
  }

  /** The fields a step leaves, its own activation, and the others. */
  ghost predicate AfterStep(m: Machine, op: Op, r: Machine)
    requires Legal(m, op) && !op.Init?
  {
    && r.next == (if op.Next? then op.fn else m.next) && r.asyncState == (m.asyncState || Starts(op))
    && r.queued == (if (op.Dispatch? || op.Deliver?) && op.pooled then Some(op.v)
                    else if op.RunQueued? then None else m.queued)
    && FrameIs(r, op.f, OwnPc(m, op), OwnSilent(m, op))
    && forall g :: g != op.f ==>
         && (g in r.frames <==> g in m.frames)
         && (g in m.frames ==> r.frames[g].pc == m.frames[g].pc && r.frames[g].silent == m.frames[g].silent)
  }

  lemma DecideFields(m: Machine, f: FrameId, hr: Result)
    requires f in m.frames
    ensures var r := Decide(m, f, hr);
            && r.next == m.next && r.asyncState == m.asyncState && r.queued == m.queued
            && r.frames == if !hr.Failed() && m.next.Some? then m.frames[f := m.frames[f].(pc := InState, baton := Holds)]
                           else m.frames - {f}
  {
  }

  lemma PassAfter(m: Machine, f: FrameId)
    requires Legal(m, Pass(f))
    ensures AfterStep(m, Pass(f), Step(m, Pass(f)))
  {
    ConsumeSame(m);
    ConsumeSame(Consume(m));
    DecideFields(Consume(Consume(m)), f, m.frames[f].pc.hr);
    hide Consume, Decide;
  }

  lemma ErrorAfter(m: Machine, f: FrameId, hr: Result)
    requires Legal(m, ErrorReturns(f, hr))
    ensures AfterStep(m, ErrorReturns(f, hr), Step(m, ErrorReturns(f, hr)))
  {
    ConsumeSame(m);
    DecideFields(Consume(m), f, hr);
    hide Consume, Decide;
  }

  lemma PostAfter(m: Machine, op: Op)
    requires Legal(m, op) && !Step(m, op).reported && (op.Dispatch? || op.Deliver? || op.RunQueued?)
    ensures AfterStep(m, op, Step(m, op))
  {
    hide Same32;
    match op
    case Dispatch(f, v, pooled) => DispatchAfter(m, f, v, pooled);
    case Deliver(f, v, pooled) => DeliverAfter(m, f, v, pooled);
    case RunQueued(_) =>
  }

  lemma DispatchAfter(m: Machine, f: FrameId, v: Result, pooled: bool)
    requires Legal(m, Dispatch(f, v, pooled)) && !Step(m, Dispatch(f, v, pooled)).reported
    ensures AfterStep(m, Dispatch(f, v, pooled), Step(m, Dispatch(f, v, pooled)))
  {
    hide Same32;
  }

  lemma DeliverAfter(m: Machine, f: FrameId, v: Result, pooled: bool)
    requires Legal(m, Deliver(f, v, pooled)) && !Step(m, Deliver(f, v, pooled)).reported
    ensures AfterStep(m, Deliver(f, v, pooled), Step(m, Deliver(f, v, pooled)))
  {
    hide Same32;
  }

  lemma NextAfter(m: Machine, f: FrameId, fn: Option<Fn>)
    requires Legal(m, Next(f, fn)) && !Step(m, Next(f, fn)).reported
    ensures AfterStep(m, Next(f, fn), Step(m, Next(f, fn)))
  {
    hide Same32;
  }

  lemma ReturnsAfter(m: Machine, f: FrameId, hr: Result)
    requires Legal(m, Returns(f, hr))
    ensures AfterStep(m, Returns(f, hr), Step(m, Returns(f, hr)))
  {
  }

  lemma StepAfter(m: Machine, op: Op)
    requires Legal(m, op) && !Step(m, op).reported && !op.Init?
    ensures AfterStep(m, op, Step(m, op))
  {
    hide AfterStep, Step;
    match op
    case Dispatch(_, _, _) => PostAfter(m, op);
    case Deliver(_, _, _) => PostAfter(m, op);
    case RunQueued(_) => PostAfter(m, op);
    case Pass(f) => PassAfter(m, f);
    case ErrorReturns(f, hr) => ErrorAfter(m, f, hr);
    case Next(f, fn) => NextAfter(m, f, fn);
    case Returns(f, hr) => ReturnsAfter(m, f, hr);
  }

  lemma InitAfter(m: Machine, fn: Fn)
    requires Legal(m, Init(fn)) && !Step(m, Init(fn)).reported
    ensures Step(m, Init(fn)) == m.(next := Some(fn))
  {
  }

  lemma FrameKept(m: Machine, before: seq<Op>, op: Op, f: FrameId)
    requires Agrees(m, before) && Legal(m, op) && !Step(m, op).reported
    ensures FrameIs(Step(m, op), f, PcOf(before + [op], f), SilentOf(before + [op], f))
  {
    var ops := before + [op];
    assert ops[..|ops| - 1] == before && ops[|ops| - 1] == op;
    assert FrameIs(m, f, PcOf(before, f), SilentOf(before, f));
    assert m.next == Named(before) && m.asyncState == AnyStart(before);
    assert m.queued.Some? ==> LastPosted(before) == m.queued;
    hide AnyStart, Named, LastPosted, Step, FramesAgree, Agrees;
    if op.Init? {
      InitAfter(m, op.entry);
    } else {
      StepAfter(m, op);
    }
  }

  lemma HistoryStep(before: seq<Op>, op: Op)
    ensures LastPosted(before + [op]) == if op.Dispatch? || op.Deliver? then Some(op.v) else LastPosted(before)
    ensures Named(before + [op])
         == if op.Init? then Some(op.entry) else if op.Next? then op.fn else Named(before)
  {
    assert (before + [op])[..|before|] == before;
  }

  lemma AgreesKept(m: Machine, before: seq<Op>, op: Op)
    requires Agrees(m, before) && Legal(m, op) && !Step(m, op).reported
    requires Inv(m) && m.delivered + m.inPlace < WORD - 1
    ensures Agrees(Step(m, op), before + [op])
  {
    var ops := before + [op];
    HistoryStep(before, op);
    AnyStartStep(before, op);
    if op.Dispatch? || op.Deliver? {
      NothingQueued(m, op);
    }
    if op.Init? {
      InitAfter(m, op.entry);
    } else {
      StepAfter(m, op);
    }
    forall f ensures FrameIs(Step(m, op), f, PcOf(ops, f), SilentOf(ops, f)) {
      FrameKept(m, before, op, f);
    }
    hide Inv, Step, Legal, FrameIs, PcOf, SilentOf, AnyStart, OwnPc, OwnSilent, LastPosted, Named;
  }

  /** Nobody posts while a value waits in the pool. */
  lemma NothingQueued(m: Machine, op: Op)
    requires Inv(m) && Legal(m, op) && !Step(m, op).reported && m.delivered + m.inPlace < WORD - 1
    requires op.Dispatch? || op.Deliver?
    ensures m.queued.None?
  {
    if op.Dispatch? {
      DispatchReported(m, op.f, op.v, op.pooled);
    } else {
      DeliverReported(m, op.f, op.v, op.pooled);
    }
  }

  /** Every run that no check stopped: where each activation is, with which value, who reads its answer, which function
      is next and which value waits in the pool, all told by what happened. */
  lemma {:induction false} StateIsHistory(upstream: bool, ops: seq<Op>, m: Machine)
    requires Run(Fresh(upstream), ops, m) && !m.reported && m.delivered + m.inPlace < WORD - 1
    ensures Agrees(m, ops)
    decreases |ops|
  {
    hide Inv, Legal, Step;
    if ops == [] {
      assert m == Fresh(upstream);
    } else {
      hide Agrees, Fresh, Run;
      var before := ops[..|ops| - 1];
      var mid := RunLast(Fresh(upstream), ops, m);
      ReportStays(mid, ops[|ops| - 1]);
      StateIsHistory(upstream, before, mid);
      FreshInv(upstream);
      RunKeeps(Fresh(upstream), before, mid);
      AgreesKept(mid, before, ops[|ops| - 1]);
      assert before + [ops[|ops| - 1]] == ops;
    }
  }

  /** The loop runs a state function, without ending anything. */
  predicate GoesOn(m: Machine, r: Machine, f: FrameId, fn: Fn) {
    && f in r.frames && r.frames[f].pc == InState && r.state == Some(fn)
    && r.deleted == m.deleted && r.posts == m.posts && r.returned == m.returned
  }

  /** The machine ends with a verdict. */
  predicate EndsWith(m: Machine, r: Machine, f: FrameId, v: Result, silent: bool) {
    && f !in r.frames && r.deleted == m.deleted + 1
    && r.posts == (if !silent && m.upstream then m.posts + [v] else m.posts)
    && r.returned == if silent then Some(v) else m.returned
  }

  lemma DecideEnds(m: Machine, f: FrameId, hr: Result)
    requires f in m.frames
    ensures var r := Decide(m, f, hr);
            if !hr.Failed() && m.next.Some? then GoesOn(m, r, f, m.next.value)
            else EndsWith(m, r, f, hr, m.frames[f].silent)
  {
  }

  /** Every run: at the top of the loop the value posted, or answered last, goes to error() exactly when it failed;
      else to the state function named last; and if none is named it is the verdict. */
  lemma PassDecides(upstream: bool, ops: seq<Op>, m: Machine, f: FrameId)
    requires Run(Fresh(upstream), ops, m) && m.delivered + m.inPlace < WORD - 1 && Legal(m, Pass(f))
    ensures PcOf(ops, f).Some? && PcOf(ops, f).value.Top?
    ensures var v, r := PcOf(ops, f).value.hr, Step(m, Pass(f));
            if v.Failed() then f in r.frames && r.frames[f].pc == InError && r.deleted == m.deleted
            else if Named(ops).Some? then GoesOn(m, r, f, Named(ops).value)
            else EndsWith(m, r, f, v, SilentOf(ops, f))
  {
    StateIsHistory(upstream, ops, m);
    assert FrameIs(m, f, PcOf(ops, f), SilentOf(ops, f));
    hide FramesAgree, PcOf, SilentOf, Named, LastPosted, AnyStart, Run, Fresh;
    ConsumeSame(m);
    ConsumeSame(Consume(m));
    DecideEnds(Consume(Consume(m)), f, m.frames[f].pc.hr);
    hide Consume, Decide;
  }

  /** And so with what error() answered. */
  lemma ErrorDecides(upstream: bool, ops: seq<Op>, m: Machine, f: FrameId, hr: Result)
    requires Run(Fresh(upstream), ops, m) && m.delivered + m.inPlace < WORD - 1 && Legal(m, ErrorReturns(f, hr))
    ensures var r := Step(m, ErrorReturns(f, hr));
            if !hr.Failed() && Named(ops).Some? then GoesOn(m, r, f, Named(ops).value)
            else EndsWith(m, r, f, hr, SilentOf(ops, f))
  {
    StateIsHistory(upstream, ops, m);
    assert FrameIs(m, f, PcOf(ops, f), SilentOf(ops, f));
    hide FramesAgree, PcOf, SilentOf, Named, LastPosted, AnyStart, Run, Fresh;
    ConsumeSame(m);
    DecideEnds(Consume(m), f, hr);
    hide Consume, Decide;
  }

  /** A value posted through the pool, whatever happens until it is run, is the one the machine is run with. */
  lemma PooledValueArrives(upstream: bool, ops: seq<Op>, i: nat, m: Machine, f: FrameId, v: Result)
    requires Run(Fresh(upstream), ops, m) && m.delivered + m.inPlace < WORD - 1 && Legal(m, RunQueued(f)) && i < |ops|
    requires exists g :: ops[i] == Deliver(g, v, true) || ops[i] == Dispatch(g, v, true)
    requires forall j :: i < j < |ops| ==> !ops[j].Deliver? && !ops[j].Dispatch?
    ensures var r := Step(m, RunQueued(f));
            && f in r.frames && r.frames[f].pc == Top(v) && Legal(r, Pass(f))
            && (v.Failed() ==> f in Step(r, Pass(f)).frames && Step(r, Pass(f)).frames[f].pc == InError)
            && (!v.Failed() ==> f in Step(r, Pass(f)).frames ==> Step(r, Pass(f)).frames[f].pc == InState)
  {
    StateIsHistory(upstream, ops, m);
    LastPostedIs(ops, i, v);
    hide FramesAgree, PcOf, SilentOf, Named, LastPosted, AnyStart, Run, Fresh;
    PassAfter(Step(m, RunQueued(f)), f);
  }

  lemma {:induction false} LastPostedIs(ops: seq<Op>, i: nat, v: Result)
    requires i < |ops| && exists g, pooled :: ops[i] == Deliver(g, v, pooled) || ops[i] == Dispatch(g, v, pooled)
    requires forall j :: i < j < |ops| ==> !ops[j].Deliver? && !ops[j].Dispatch?
    ensures LastPosted(ops) == Some(v)
    decreases |ops|
  {
    if i < |ops| - 1 {
      LastPostedIs(ops[..|ops| - 1], i, v);
    }
  }

  predicate InStateZero(m: Machine) {
    Inv(m) && !m.reported && m.dispatched && m.frames == map[0 := Frame(true, InState, Holds)]
  }

  const CYCLE := [Next(0, Some(1)), Returns(0, OK), Pass(0)]

  /** A state function that asks for a ticket and then completes in place. */
  lemma OneCycle(m: Machine) returns (m1: Machine, m2: Machine, m': Machine)
    requires InStateZero(m)
    ensures Legal(m, CYCLE[0]) && m1 == Step(m, CYCLE[0])
    ensures Legal(m1, CYCLE[1]) && m2 == Step(m1, CYCLE[1])
    ensures Legal(m2, CYCLE[2]) && m' == Step(m2, CYCLE[2])
    ensures InStateZero(m') && m'.inPlace == m.inPlace + 1 && m'.delivered == m.delivered
    ensures m'.upstream == m.upstream
  {
    hide OneVerdict, SomeOwner;
    assert m.frames[0].baton == Holds;
    NextKeeps(m, 0, Some(1));
    m1 := Step(m, CYCLE[0]);
    ReturnsKeeps(m1, 0, OK);
    m2 := Step(m1, CYCLE[1]);
    PassKeeps(m2, 0);
    LockTellsOutstanding(m2);
    m' := Step(m2, CYCLE[2]);
  }

  lemma Prepend(m: Machine, op: Op, ops: seq<Op>, m': Machine)
    requires Legal(m, op) && Run(Step(m, op), ops, m')
    ensures Run(m, [op] + ops, m')
  {
    assert ([op] + ops)[1..] == ops;
  }

  lemma {:induction false} CycleRun(m: Machine, k: nat) returns (ops: seq<Op>, m': Machine)
    requires InStateZero(m)
    ensures Run(m, ops, m') && InStateZero(m')
    ensures m'.inPlace == m.inPlace + k && m'.delivered == m.delivered && m'.upstream == m.upstream
    decreases k
  {
    if k == 0 {
      ops, m' := [], m;
    } else {
      var m1, m2, m3 := OneCycle(m);
      ops, m' := CycleRun(m3, k - 1);
      Prepend(m2, CYCLE[2], ops, m');
      Prepend(m1, CYCLE[1], [CYCLE[2]] + ops, m');
      Prepend(m, CYCLE[0], [CYCLE[1]] + ([CYCLE[2]] + ops), m');
      ops := [CYCLE[0]] + ([CYCLE[1]] + ([CYCLE[2]] + ops));
    }
  }

  lemma Started(m0: Machine, entry: Fn) returns (m1: Machine, m2: Machine, m: Machine)
    requires m0 == Fresh(m0.upstream)
    ensures Legal(m0, Init(entry)) && m1 == Step(m0, Init(entry))
    ensures Legal(m1, Dispatch(0, OK, false)) && m2 == Step(m1, Dispatch(0, OK, false))
    ensures Legal(m2, Pass(0)) && m == Step(m2, Pass(0))
    ensures InStateZero(m) && m.inPlace == 0 && m.delivered == 0
  {
    m1 := Step(m0, Init(entry));
    DispatchReported(m1, 0, OK, false);
    m2 := Step(m1, Dispatch(0, OK, false));
    PassKeeps(m2, 0);
    m := Step(m2, Pass(0));
  }

  /** The bound on used tickets cannot be dropped: a run with 2^32 - 1 of them lets a second direct
      dispatch of a live machine pass unreported. */
  lemma WrappedDispatchPasses(m0: Machine, entry: Fn) returns (ops: seq<Op>, m: Machine)
    requires m0 == Fresh(m0.upstream)
    ensures Run(m0, ops, m) && !m.reported && m.dispatched && m.deleted == 0
    ensures m.delivered + m.inPlace == WORD - 1
    ensures Legal(m, Dispatch(1, OK, false)) && !Step(m, Dispatch(1, OK, false)).reported
  {
    var m1, m2, m3 := Started(m0, entry);
    ops, m := CycleRun(m3, WORD - 1);
    Prepend(m2, Pass(0), ops, m);
    Prepend(m1, Dispatch(0, OK, false), [Pass(0)] + ops, m);
    Prepend(m0, Init(entry), [Dispatch(0, OK, false)] + ([Pass(0)] + ops), m);
    ops := [Init(entry)] + ([Dispatch(0, OK, false)] + ([Pass(0)] + ops));
    assert m.frames[0].baton == Holds;
    DispatchReported(m, 1, OK, false);
  }
}
