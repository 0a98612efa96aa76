/** The members of AsyncState as methods on one object (fibjs/include/AsyncCall.h:521-698, 749-772), the driver
    loop post_ among them. What the loop calls is given from outside: for each call of error() or of a state
    function, what everybody does to the machine until it comes back, and its answer. */
module AsyncDrivers {
  import opened Results
  import opened AsyncStates

  datatype Call = Call(meanwhile: seq<Op>, answer: Result)

  ghost predicate LegalOps(m: Machine, ops: seq<Op>)
    decreases |ops|
  {
    ops != [] ==> Legal(m, ops[0]) && LegalOps(Step(m, ops[0]), ops[1..])
  }

  ghost function After(m: Machine, ops: seq<Op>): (r: Machine)
    requires LegalOps(m, ops)
    decreases |ops|
  {
    if ops == [] then m else After(Step(m, ops[0]), ops[1..])
  }

  /** The step by which a call comes back. */
  function Back(m: Machine, f: FrameId, hr: Result): Op
    requires f in m.frames
  {
    if m.frames[f].pc == InError then ErrorReturns(f, hr) else Returns(f, hr)
  }

  predicate AtTop(m: Machine, f: FrameId) { f in m.frames && m.frames[f].pc.Top? }

  /** Everybody keeps the rules while the activation `f` runs, and none of its calls is still open at the end
      unless the answers run out. */
  ghost predicate LegalLoop(m: Machine, f: FrameId, calls: seq<Call>)
    decreases |calls|, if AtTop(m, f) then 1 else 0
  {
    if f !in m.frames then true
    else if m.frames[f].pc.Top? then Legal(m, Pass(f)) && !AtTop(Step(m, Pass(f)), f) && LegalLoop(Step(m, Pass(f)), f, calls)
    else if calls == [] then true
    else
      && LegalOps(m, calls[0].meanwhile)
      && var m1 := After(m, calls[0].meanwhile);
         && f in m1.frames && m1.frames[f].pc == m.frames[f].pc && m1.frames[f].silent == m.frames[f].silent
         && Legal(m1, Back(m1, f, calls[0].answer))
         && LegalLoop(Step(m1, Back(m1, f, calls[0].answer)), f, calls[1..])
  }

  /** The machine when the activation has returned, or is inside a call that was not answered. */
  ghost function Loop(m: Machine, f: FrameId, calls: seq<Call>): (r: Machine)
    requires LegalLoop(m, f, calls)
    decreases |calls|, if AtTop(m, f) then 1 else 0
  {
    if f !in m.frames then m
    else if m.frames[f].pc.Top? then Loop(Step(m, Pass(f)), f, calls)
    else if calls == [] then m
    else
      var m1 := After(m, calls[0].meanwhile);
      Loop(Step(m1, Back(m1, f, calls[0].answer)), f, calls[1..])
  }

  /** The same as one run of the transition system. */
  ghost function LoopOps(m: Machine, f: FrameId, calls: seq<Call>): (ops: seq<Op>)
    requires LegalLoop(m, f, calls)
    decreases |calls|, if AtTop(m, f) then 1 else 0
  {
    if f !in m.frames then []
    else if m.frames[f].pc.Top? then [Pass(f)] + LoopOps(Step(m, Pass(f)), f, calls)
    else if calls == [] then []
    else
      var m1 := After(m, calls[0].meanwhile);
      var back := Back(m1, f, calls[0].answer);
      calls[0].meanwhile + ([back] + LoopOps(Step(m1, back), f, calls[1..]))
  }

  lemma {:induction false} RunAfter(m: Machine, ops: seq<Op>, more: seq<Op>, m': Machine)
    requires LegalOps(m, ops) && Run(After(m, ops), more, m')
    ensures Run(m, ops + more, m')
    decreases |ops|
  {
    if ops == [] {
      assert ops + more == more;
    } else {
      RunAfter(Step(m, ops[0]), ops[1..], more, m');
      assert (ops + more)[1..] == ops[1..] + more;
    }
  }

  /** Whatever the loop does is a run of the transition system: the results about runs hold of it. */
  lemma {:induction false} LoopIsRun(m: Machine, f: FrameId, calls: seq<Call>)
    requires LegalLoop(m, f, calls)
    ensures Run(m, LoopOps(m, f, calls), Loop(m, f, calls))
    decreases |calls|, if AtTop(m, f) then 1 else 0
  {
    hide Step, Legal;
    if f !in m.frames {
    } else if m.frames[f].pc.Top? {
      LoopIsRun(Step(m, Pass(f)), f, calls);
      Prepend(m, Pass(f), LoopOps(Step(m, Pass(f)), f, calls), Loop(m, f, calls));
    } else if calls != [] {
      var m1 := After(m, calls[0].meanwhile);
      var back := Back(m1, f, calls[0].answer);
      LoopIsRun(Step(m1, back), f, calls[1..]);
      Prepend(m1, back, LoopOps(Step(m1, back), f, calls[1..]), Loop(m, f, calls));
      RunAfter(m, calls[0].meanwhile, [back] + LoopOps(Step(m1, back), f, calls[1..]), Loop(m, f, calls));
    }
  }

  lemma {:induction false} RunRun(m: Machine, ops: seq<Op>, m1: Machine, more: seq<Op>, m2: Machine)
    requires Run(m, ops, m1) && Run(m1, more, m2)
    ensures Run(m, ops + more, m2)
    decreases |ops|
  {
    if ops == [] {
      assert ops + more == more;
    } else {
      RunRun(Step(m, ops[0]), ops[1..], m1, more, m2);
      assert (ops + more)[1..] == ops[1..] + more;
    }
  }

  /** What holds of every reachable machine holds when post_ returns or waits. */
  lemma LoopReaches(m: Machine, f: FrameId, calls: seq<Call>)
    requires Reachable(m) && LegalLoop(m, f, calls)
    requires !Loop(m, f, calls).reported && Loop(m, f, calls).delivered + Loop(m, f, calls).inPlace < WORD - 1
    ensures Reachable(Loop(m, f, calls))
  {
    hide LegalLoop, Loop;
    LoopIsRun(m, f, calls);
    RunMonotone(m, LoopOps(m, f, calls), Loop(m, f, calls));
    var ops :| Run(Fresh(m.upstream), ops, m);
    RunRun(Fresh(m.upstream), ops, m, LoopOps(m, f, calls), Loop(m, f, calls));
  }

  /** The equations of Loop. */
  lemma LoopPass(m: Machine, f: FrameId, calls: seq<Call>)
    requires AtTop(m, f) && LegalLoop(m, f, calls)
    ensures LegalLoop(StepPass(m, f), f, calls) && Loop(m, f, calls) == Loop(StepPass(m, f), f, calls)
  {
  }

  lemma LoopStop(m: Machine, f: FrameId, calls: seq<Call>)
    requires f !in m.frames || (!AtTop(m, f) && calls == [])
    ensures LegalLoop(m, f, calls) && Loop(m, f, calls) == m
  {
  }

  lemma LoopCall(m: Machine, f: FrameId, calls: seq<Call>)
    requires f in m.frames && !AtTop(m, f) && calls != [] && LegalLoop(m, f, calls)
    ensures LegalOps(m, calls[0].meanwhile)
    ensures var m1 := After(m, calls[0].meanwhile);
            && f in m1.frames && m1.frames[f].silent == m.frames[f].silent
            && var m2 := if m.frames[f].pc == InError then Decide(Consume(m1), f, calls[0].answer)
                         else StepReturns(m1, f, calls[0].answer);
               LegalLoop(m2, f, calls[1..]) && Loop(m, f, calls) == Loop(m2, f, calls[1..])
  {
    hide Consume, Decide, StepReturns;
  }

  /** The verdict left by its door: returned to the first caller, or posted upstream. */
  predicate Delivered(m: Machine, wasAsync: bool, hr: Result) {
    if wasAsync then m.upstream ==> m.posts != [] && m.posts[|m.posts| - 1] == hr else m.returned == Some(hr)
  }

  /** Where an activation stands after its steps. */
  lemma DecideFrame(m: Machine, f: FrameId, hr: Result)
    requires f in m.frames
    ensures hr.Failed() || m.next.None? ==>
              f !in Decide(m, f, hr).frames && Delivered(Decide(m, f, hr), !m.frames[f].silent, hr)
    ensures !hr.Failed() && m.next.Some? ==>
              f in Decide(m, f, hr).frames && Decide(m, f, hr).frames[f] == m.frames[f].(pc := InState, baton := Holds)
  {
  }

  lemma PassFrame(m: Machine, f: FrameId)
    requires f in m.frames && m.frames[f].pc.Top?
    ensures var hr, r := m.frames[f].pc.hr, StepPass(m, f);
            && (!hr.Failed() && m.next.None? ==> f !in r.frames && Delivered(r, !m.frames[f].silent, hr))
            && (hr.Failed() ==> f in r.frames && r.frames[f] == m.frames[f].(pc := InError, baton := Holds))
            && (!hr.Failed() && m.next.Some? ==>
                f in r.frames && r.frames[f] == m.frames[f].(pc := InState, baton := Holds))
  {
    hide Consume;
    ConsumeFrames(m);
    ConsumeFrames(Consume(m));
    DecideFrame(Consume(Consume(m)), f, m.frames[f].pc.hr);
  }

  lemma ConsumeFrames(m: Machine)
    ensures Consume(m).frames == m.frames && Consume(m).next == m.next
  {
  }

  lemma ReturnsFrame(m: Machine, f: FrameId, hr: Result)
    requires f in m.frames
    ensures if hr.IsPending() then f !in StepReturns(m, f, hr).frames
            else f in StepReturns(m, f, hr).frames
                 && StepReturns(m, f, hr).frames[f] == m.frames[f].(pc := Top(hr))
  {
  }

  class AsyncState {
    var epoch: nat
    var ticket: nat
    var next: Option<Fn>
    var state: Option<Fn>
    var asyncState: bool
    var queued: Option<Result>
    const upstream: bool
    var frames: map<FrameId, Frame>
    var dispatched: bool
    var issued: nat
    var delivered: nat
    var inPlace: nat
    var abandoned: bool
    var posts: seq<Result>
    var returned: Option<Result>
    var deleted: nat
    var reported: bool

    function Now(): Machine
      reads this
    {
      Machine(epoch, ticket, next, state, asyncState, queued, upstream, frames, dispatched, issued, delivered, inPlace,
              abandoned, posts, returned, deleted, reported)
    }

    constructor (upstream: bool)
      ensures Now() == Fresh(upstream)
    {
      this.upstream := upstream;
      epoch, ticket, next, state, asyncState, queued := 0, 0, None, None, false, None;
      frames, dispatched, issued, delivered, inPlace, abandoned := map[], false, 0, 0, 0, false;
      posts, returned, deleted, reported := [], None, 0, false;
    }

    method SetEntry(fn: Fn)
      requires Legal(Now(), Init(fn))
      modifies this
      ensures Now() == Step(old(Now()), Init(fn))
    {
      if epoch % WORD != 0 {
        reported := true;
      } else {
        next := Some(fn);
      }
    }

    method Issue(f: FrameId, fn: Option<Fn>)
      requires Legal(Now(), Next(f, fn))
      modifies this
      ensures Now() == Step(old(Now()), Next(f, fn))
    {
      next := fn;
      ticket := ticket + 1;
      if (ticket - epoch) % WORD != 0 {
        reported := true;
      } else {
        issued := issued + 1;
        if f in frames {
          frames := frames[f := frames[f].(baton := Asked)];
        }
      }
    }

    /** The in-place consumption the loop does twice. */
    method ConsumeTicket()
      modifies this`epoch, this`inPlace
      ensures Now() == Consume(old(Now()))
    {
      if (ticket - epoch) % WORD == 0 {
        epoch := epoch + 1;
        inPlace := inPlace + 1;
      }
    }

    /** Finish and delete. */
    method Finish(f: FrameId, wasAsync: bool, hr: Result)
      requires f in frames && frames[f].silent == !wasAsync && (hr.Failed() || next.None?)
      modifies this
      ensures Now() == Decide(old(Now()), f, hr)
    {
      if wasAsync && upstream {
        posts := posts + [hr];
      }
      if !wasAsync {
        returned := Some(hr);
      }
      deleted := deleted + 1;
      frames := frames - {f};
    }

    /** The part of the loop before a state function: finish, or go on with the next one. */
    method Settle(f: FrameId, wasAsync: bool, hr: Result) returns (finished: bool)
      requires f in frames && frames[f].silent == !wasAsync
      modifies this
      ensures Now() == Decide(old(Now()), f, hr)
      ensures finished <==> hr.Failed() || old(next.None?)
    {
      if hr.Failed() || next.None? {
        Finish(f, wasAsync, hr);
        return true;
      }
      state := next;
      frames := frames[f := frames[f].(pc := InState, baton := Holds)];
      return false;
    }

    /** The loop from its top to the next call. */
    method TopOfLoop(f: FrameId, wasAsync: bool, hr: Result) returns (finished: bool)
      requires f in frames && frames[f].silent == !wasAsync && frames[f].pc == Top(hr)
      modifies this
      ensures Now() == StepPass(old(Now()), f)
      ensures finished <==> !hr.Failed() && old(next.None?)
    {
      ConsumeTicket();
      if hr.Failed() {
        frames := frames[f := frames[f].(pc := InError, baton := Holds)];
        return false;
      }
      ConsumeTicket();
      finished := Settle(f, wasAsync, hr);
    }

    /** The end of one turn: `while (!hr.is_pending())`. */
    method StateReturned(f: FrameId, hr: Result)
      requires f in frames
      modifies this
      ensures Now() == StepReturns(old(Now()), f, hr)
    {
      if hr.IsPending() {
        abandoned := abandoned || frames[f].baton == Holds;
        frames := frames - {f};
      } else {
        frames := frames[f := frames[f].(pc := Top(hr))];
      }
    }

    /** The do-while loop of post_, from its first pass on. `finished` says that this activation ended the machine:
        then what it returns is the verdict that left by the door of the activation; otherwise it returns pending, or
        is inside a call that was not answered. */
    method Drive(f: FrameId, v: Result, wasAsync: bool, calls: seq<Call>) returns (hr: Result, ghost finished: bool)
      requires f in frames && frames[f] == Frame(!wasAsync, Top(v), Holds) && LegalLoop(Now(), f, calls)
      modifies this
      ensures Now() == old(Loop(Now(), f, calls))
      ensures finished ==> f !in frames && Delivered(Now(), wasAsync, hr)
      ensures !finished && f !in frames ==> hr.IsPending()
    {
      hide StepPass, StepReturns, Decide, Consume, LegalOps, After, Legal, Touches, Loop, LegalLoop, Step, Delivered;
      hr, finished := v, false;
      ghost var end := Loop(Now(), f, calls);
      var i := 0;
      assert calls[0..] == calls;
      while true
        invariant i <= |calls| && f in frames && frames[f].pc == Top(hr) && frames[f].silent == !wasAsync
        invariant LegalLoop(Now(), f, calls[i..]) && Loop(Now(), f, calls[i..]) == end
        decreases |calls| - i
      {
        PassFrame(Now(), f);
        LoopPass(Now(), f, calls[i..]);
        var done := TopOfLoop(f, wasAsync, hr);
        if hr.Failed() {
          if i == |calls| {
            LoopStop(Now(), f, calls[i..]);
            return;
          }
          LoopCall(Now(), f, calls[i..]);
          assert calls[i..][0] == calls[i] && calls[i..][1..] == calls[i + 1..];
          Meanwhile(calls[i].meanwhile);
          hr := calls[i].answer;
          i := i + 1;
          ConsumeTicket();
          DecideFrame(Now(), f, hr);
          done := Settle(f, wasAsync, hr);
        }
        if done || i == |calls| {
          finished := done;
          LoopStop(Now(), f, calls[i..]);
          return;
        }
        LoopCall(Now(), f, calls[i..]);
        assert calls[i..][0] == calls[i] && calls[i..][1..] == calls[i + 1..];
        Meanwhile(calls[i].meanwhile);
        hr := calls[i].answer;
        i := i + 1;
        ReturnsFrame(Now(), f, hr);
        StateReturned(f, hr);
        if hr.IsPending() {
          LoopStop(Now(), f, calls[i..]);
          return;
        }
      }
    }

    /** The initial dispatch. */
    method Post(f: FrameId, v: Result, calls: seq<Call>) returns (hr: Result, ghost finished: bool)
      requires Legal(Now(), Dispatch(f, v, false))
      requires var m := StepDispatch(Now(), f, v, false); m.reported || LegalLoop(m, f, calls)
      modifies this
      ensures Now() == old(var m := StepDispatch(Now(), f, v, false); if m.reported then m else Loop(m, f, calls))
      ensures finished ==> f !in frames && Delivered(Now(), old(asyncState), hr)
      ensures !finished && f !in frames && !old(StepDispatch(Now(), f, v, false)).reported ==> hr.IsPending()
    {
      hide Loop, LegalLoop, Delivered;
      hr, finished := v, false;
      epoch := epoch + 1;
      if (epoch - 1) % WORD != 0 {
        reported := true;
        return;
      }
      var wasAsync := asyncState;
      dispatched, asyncState := true, true;
      frames := frames[f := Frame(!wasAsync, Top(v), Holds)];
      hr, finished := Drive(f, v, wasAsync, calls);
    }

    /** A ticket posted back: the check and the count are one atomic step, then the machine runs. */
    method DeliverTicket(f: FrameId, v: Result, calls: seq<Call>)
      requires Legal(Now(), Deliver(f, v, false))
      requires var m := StepDeliver(Now(), f, v, false); m.reported || LegalLoop(m, f, calls)
      modifies this
      ensures Now() == old(var m := StepDeliver(Now(), f, v, false); if m.reported then m else Loop(m, f, calls))
    {
      hide Loop, LegalLoop, StepDeliver;
      var wasAsync := TakeTicket(f, v);
      if reported {
        return;
      }
      var hr, _ := Drive(f, v, wasAsync, calls);
    }

    method TakeTicket(f: FrameId, v: Result) returns (wasAsync: bool)
      requires f !in frames && !reported
      modifies this
      ensures Now() == StepDeliver(old(Now()), f, v, false)
      ensures !reported ==> f in frames && frames[f] == Frame(!wasAsync, Top(v), Holds)
    {
      wasAsync := asyncState;
      epoch := epoch + 1;
      if (epoch - (ticket + 1)) % WORD != 0 {
        reported := true;
        return;
      }
      delivered, asyncState := delivered + 1, true;
      frames := TakeAway(frames)[f := Frame(!wasAsync, Top(v), Holds)];
    }

    /** What others do to the machine during a call. */
    method Meanwhile(ops: seq<Op>)
      requires LegalOps(Now(), ops)
      modifies this
      ensures Now() == old(After(Now(), ops))
    {
      ghost var end := After(Now(), ops);
      var i := 0;
      while i < |ops|
        invariant i <= |ops| && LegalOps(Now(), ops[i..]) && After(Now(), ops[i..]) == end
      {
        assert ops[i..][0] == ops[i] && ops[i..][1..] == ops[i + 1..];
        Other(ops[i]);
        i := i + 1;
      }
    }

    /** One step of somebody else, all fields at once. */
    method Other(op: Op)
      requires Legal(Now(), op)
      modifies this
      ensures Now() == Step(old(Now()), op)
    {
      match op
      case Init(fn) => SetEntry(fn);
      case Next(f, fn) => Issue(f, fn);
      case _ =>
        Become(Step(Now(), op));
    }

    method Become(m: Machine)
      requires m.upstream == upstream
      modifies this
      ensures Now() == m
    {
      BecomeHistory(m);
      epoch, ticket, next, state, asyncState, queued := m.epoch, m.ticket, m.next, m.state, m.asyncState, m.queued;
      frames, posts := m.frames, m.posts;
    }

    method BecomeHistory(m: Machine)
      modifies this`dispatched, this`issued, this`delivered, this`inPlace, this`abandoned, this`returned, this`deleted,
        this`reported
      ensures dispatched == m.dispatched && issued == m.issued && delivered == m.delivered && inPlace == m.inPlace
      ensures abandoned == m.abandoned && returned == m.returned && deleted == m.deleted && reported == m.reported
    {
      dispatched, issued, delivered, inPlace := m.dispatched, m.issued, m.delivered, m.inPlace;
      abandoned, returned, deleted, reported := m.abandoned, m.returned, m.deleted, m.reported;
    }
  }
}
