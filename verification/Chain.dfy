/** The handler chain (fibjs/include/Chain.h:19-176): one logical loop over handlers, split between
    the state `invoke`, which runs on a pool thread, and `js_run`, which runs on the JS thread.
    Machine is the state machine, one step per hand-over or per handler call; Plain is the loop it
    is meant to be. */
module Chains {
  import opened Results

  type Handler = nat

  /** Where a handler agrees to run: it answers NOASYNC in the pool, NOSYNC on the JS thread, or
      runs wherever it is called. */
  datatype Kind = JsOnly | PoolOnly | Anywhere

  /** What a call of a handler that really ran answers; `next` is what it left in retVal, and is
      looked at only when hr is a success other than null. */
  datatype Outcome = Outcome(hr: Result, next: Handler)

  /** The handlers and the message they work on, as the chain sees them. A pool handler may complete
      in place or later, through the ticket it was given. */
  datatype World<!W> = World(
    kind: Handler -> Kind,
    run: (Handler, W) -> (W, Outcome),
    ended: W -> bool,
    later: (Handler, W) -> bool)

  /** A handler that ran does not answer with a code that means it has still to run. */
  ghost predicate Sane<W(!new)>(c: World<W>) {
    forall h, w: W :: var hr := c.run(h, w).1.hr; !hr.IsPending() && !hr.IsNoAsync() && !hr.IsNoSync()
  }

  /** Verdicts are compared up to an empty description. */
  function Said(r: Result): (v: Result) { if r.payload == Some("") then r.(payload := None) else r }

  // ---------------------------------------------------------------------------------------------
  // The plain loop

  datatype Cursor = Pull | Call(h: Handler) | Done(verdict: Result)

  datatype Plain<W> = Plain(cur: Cursor, pos: nat, w: W, ran: seq<Handler>)

  function PlainStep<W>(c: World<W>, hs: seq<Handler>, p: Plain<W>): (r: Plain<W>) {
    match p.cur
    case Pull =>
      if c.ended(p.w) || p.pos >= |hs| then p.(cur := Done(RETURN_NULL))
      else p.(cur := Call(hs[p.pos]), pos := p.pos + 1)
    case Call(h) =>
      var (w, out) := c.run(h, p.w);
      p.(w := w, ran := p.ran + [h],
         cur := if out.hr.Failed() then Done(Said(out.hr))
                else if out.hr.IsReturnNull() then Pull
                else Call(out.next))
    case Done(_) => p
  }

  function PlainRun<W>(c: World<W>, hs: seq<Handler>, p: Plain<W>, k: nat): (r: Plain<W>)
    decreases k
  {
    if k == 0 then p else PlainRun(c, hs, PlainStep(c, hs, p), k - 1)
  }

  // ---------------------------------------------------------------------------------------------
  // The state machine

  datatype Loc =
    | Invoke(n: Result)        // the driver calls `invoke` with n
    | Waiting(n: Result)       // a pool handler will post n through its ticket
    | OnJs                     // queued for js_invoke
    | JsLoop(h: Handler)       // js_run, top of the loop with hdlr1 == h
    | JsDone(hr: Result)       // js_run came back with hr
    | Finished(verdict: Result)

  datatype Machine<W> = Machine(
    loc: Loc,
    hr: Result,                // m_hr
    pos: nat,                  // m_pos
    hdlr: Option<Handler>,     // m_hdlr
    next: Option<Handler>,     // m_next
    message: string,           // m_message
    w: W,
    ran: seq<Handler>)         // handlers that really ran

  function Start<W>(w: W): (m: Machine<W>) {
    Machine(Invoke(OK), RETURN_NULL, 0, None, None, "", w, [])
  }

  /** The driver after `invoke` answered, or after the ticket was posted with n. */
  function Driven(n: Result): (l: Loc) { if n.Failed() then Finished(n) else Invoke(n) }

  /** `invoke` once it has a handler to run. */
  function InvokeHandler<W>(c: World<W>, m: Machine<W>): (r: Machine<W>)
    requires m.next.Some?
  {
    var h := m.next.value;
    var m1 := m.(hdlr := Some(h), next := None);
    if c.kind(h) == JsOnly then m1.(loc := OnJs)
    else
      var (w, out) := c.run(h, m.w);
      m1.(w := w, ran := m.ran + [h], next := Some(out.next),
          loc := if c.later(h, m.w) then Waiting(out.hr) else Driven(out.hr))
  }

  function StepInvoke<W>(c: World<W>, hs: seq<Handler>, m: Machine<W>, n: Result): (r: Machine<W>)
    requires n.IsReturnNull() || m.hr.IsReturnNull() || m.hr.Failed() || m.next.Some?
  {
    if n.IsReturnNull() || m.hr.IsReturnNull() then
      if c.ended(m.w) || m.pos >= |hs| then m.(hr := OK, loc := Finished(RETURN_NULL))
      else InvokeHandler(c, m.(hr := OK, next := Some(hs[m.pos]), pos := m.pos + 1))
    else
      var hr := if m.hr.IsException() && (m.hr.payload.None? || m.hr.payload.value == "")
                then Result(CALL_E_EXCEPTION, Some(m.message)) else m.hr;
      if hr.Failed() then m.(hr := hr, loc := Finished(hr))
      else InvokeHandler(c, m.(hr := hr))
  }

  /** One turn of the loop in js_run. */
  function StepJs<W>(c: World<W>, hs: seq<Handler>, m: Machine<W>, h: Handler): (r: Machine<W>) {
    if c.kind(h) == PoolOnly then m.(next := Some(h), loc := JsDone(OK))
    else
      var (w, out) := c.run(h, m.w);
      var m1 := m.(w := w, ran := m.ran + [h]);
      if out.hr.Failed() then m1.(loc := JsDone(out.hr))
      else if out.hr.IsReturnNull() then
        if c.ended(w) || m.pos >= |hs| then m1.(loc := JsDone(out.hr))
        else m1.(pos := m.pos + 1, loc := JsLoop(hs[m.pos]))
      else m1.(loc := JsLoop(out.next))
  }

  predicate CanStep<W>(m: Machine<W>) {
    match m.loc
    case Invoke(n) => n.IsReturnNull() || m.hr.IsReturnNull() || m.hr.Failed() || m.next.Some?
    case OnJs => m.hdlr.Some?
    case _ => true
  }

  function Step<W>(c: World<W>, hs: seq<Handler>, m: Machine<W>): (r: Machine<W>)
    requires CanStep(m)
  {
    match m.loc
    case Invoke(n) => StepInvoke(c, hs, m, n)
    case Waiting(n) => m.(loc := Driven(n))
    case OnJs => m.(loc := JsLoop(m.hdlr.value))
    case JsLoop(h) => StepJs(c, hs, m, h)
    case JsDone(hr) =>
      m.(hr := hr, loc := Invoke(OK),
         message := if !hr.IsException() then m.message
                    else if hr.payload.Some? then hr.payload.value else "")
    case Finished(_) => m
  }

  // ---------------------------------------------------------------------------------------------
  // Simulation

  /** Which call of the plain loop comes after the answer r. */
  function After(r: Result, next: Option<Handler>): (cur: Cursor)
    requires r.Failed() || r.IsReturnNull() || next.Some?
  {
    if r.Failed() then Done(Said(r)) else if r.IsReturnNull() then Pull else Call(next.value)
  }

  predicate Inv<W>(c: World<W>, m: Machine<W>) {
    match m.loc
    case Invoke(n) =>
      && !n.Failed()
      && (m.hr == OK || m.hr.IsReturnNull() || m.hr.Failed())
      && (n.IsReturnNull() ==> m.hr == OK)
      && (n.IsReturnNull() || m.hr.IsReturnNull() || m.hr.Failed() || m.next.Some?)
      && (m.hr.IsException() ==> m.message == if m.hr.payload.Some? then m.hr.payload.value else "")
    case Waiting(n) => m.hr == OK && m.next.Some?
    case OnJs => m.hdlr.Some? && c.kind(m.hdlr.value) == JsOnly
    case JsLoop(_) => true
    case JsDone(hr) =>
      hr.Failed() || hr.IsReturnNull() || (hr == OK && m.next.Some? && c.kind(m.next.value) == PoolOnly)
    case Finished(_) => true
  }

  /** The state of the plain loop that a state of the machine stands for. */
  function Abs<W>(c: World<W>, m: Machine<W>): (p: Plain<W>)
    requires Inv(c, m)
  {
    Plain(match m.loc
          case Invoke(n) => if n.IsReturnNull() then Pull else After(m.hr, m.next)
          case Waiting(n) => After(n, m.next)
          case OnJs => Call(m.hdlr.value)
          case JsLoop(h) => Call(h)
          case JsDone(hr) => After(hr, m.next)
          case Finished(v) => Done(Said(v)),
          m.pos, m.w, m.ran)
  }

  /** Hand-overs left before a handler runs or the verdict is out. */
  function Rank<W>(c: World<W>, m: Machine<W>): (n: nat) {
    match m.loc
    case Waiting(_) => 4
    case Invoke(n) =>
      if !n.IsReturnNull() && m.hr == OK && m.next.Some? && c.kind(m.next.value) == JsOnly then 3 else 1
    case OnJs => 2
    case JsLoop(h) => if c.kind(h) == PoolOnly then 3 else 1
    case JsDone(_) => 2
    case Finished(_) => 0
  }

  /** One step of the machine is none, one or two steps of the plain loop; none only while the
      verdict or the next handler call comes closer. */
  lemma StepSimulates<W(!new)>(c: World<W>, hs: seq<Handler>, m: Machine<W>) returns (k: nat)
    requires Sane(c) && Inv(c, m)
    ensures CanStep(m) && Inv(c, Step(c, hs, m)) && k <= 2
    ensures Abs(c, Step(c, hs, m)) == PlainRun(c, hs, Abs(c, m), k)
    ensures k == 0 && !m.loc.Finished? ==> Rank(c, Step(c, hs, m)) < Rank(c, m)
  {
    var r := Step(c, hs, m);
    var p := Abs(c, m);
    var p1 := PlainStep(c, hs, p);
    var p2 := PlainStep(c, hs, p1);
    assert PlainRun(c, hs, p, 0) == p && PlainRun(c, hs, p, 1) == p1;
    assert PlainRun(c, hs, p, 2) == PlainRun(c, hs, p1, 1) == p2;
    if Abs(c, r) == p && (m.loc.Finished? || Rank(c, r) < Rank(c, m)) {
      k := 0;
    } else if Abs(c, r) == p1 {
      k := 1;
    } else {
      k := 2;
    }
  }

  function MachineRun<W>(c: World<W>, hs: seq<Handler>, m: Machine<W>, n: nat): (r: Option<Machine<W>>)
    decreases n
  {
    if n == 0 then Some(m) else if !CanStep(m) then None else MachineRun(c, hs, Step(c, hs, m), n - 1)
  }

  /** A step that runs a handler runs it where it agrees to, and waits for a ticket exactly when it completes later. */
  ghost predicate RunsProperly<W>(c: World<W>, m: Machine<W>, r: Machine<W>) {
    && r.ran != [] && r.ran == m.ran + [r.ran[|r.ran| - 1]]
    && var h := r.ran[|r.ran| - 1];
       && r.w == c.run(h, m.w).0
       && (if m.loc.Invoke? then c.kind(h) != JsOnly else m.loc.JsLoop? && c.kind(h) != PoolOnly)
       && (r.loc.Waiting? <==> m.loc.Invoke? && c.later(h, m.w))
  }

  lemma StepRunsProperly<W(!new)>(c: World<W>, hs: seq<Handler>, m: Machine<W>)
    requires Sane(c) && Inv(c, m)
    ensures CanStep(m)
    ensures var r := Step(c, hs, m); if r.ran == m.ran then r.w == m.w && !r.loc.Waiting? else RunsProperly(c, m, r)
  {
  }

  lemma {:induction false} MachineRunLast<W(!new)>(c: World<W>, hs: seq<Handler>, m: Machine<W>, n: nat)
    requires Sane(c) && Inv(c, m)
    ensures var a := MachineRun(c, hs, m, n);
            a.Some? && Inv(c, a.value) && CanStep(a.value) && MachineRun(c, hs, m, n + 1) == Some(Step(c, hs, a.value))
    decreases n
  {
    var _ := StepSimulates(c, hs, m);
    if n == 0 {
      assert MachineRun(c, hs, Step(c, hs, m), 0) == Some(Step(c, hs, m));
    } else {
      MachineRunLast(c, hs, Step(c, hs, m), n - 1);
    }
  }

  /** In every run, every handler that ran did so in the pool unless it asks for the JS thread, and on the JS thread unless
      it asks for the pool; and the chain waits for a ticket exactly when a pool handler completes later. */
  lemma {:induction false} RanWhereItAgrees<W(!new)>(c: World<W>, hs: seq<Handler>, w: W, n: nat, j: nat) returns (i: nat)
    requires Sane(c) && MachineRun(c, hs, Start(w), n).Some? && j < |MachineRun(c, hs, Start(w), n).value.ran|
    ensures i < n && MachineRun(c, hs, Start(w), i).Some? && MachineRun(c, hs, Start(w), i + 1).Some?
    ensures var m, r := MachineRun(c, hs, Start(w), i).value, MachineRun(c, hs, Start(w), i + 1).value;
            |m.ran| == j && r.ran <= MachineRun(c, hs, Start(w), n).value.ran && RunsProperly(c, m, r)
    decreases n
  {
    MachineRunLast(c, hs, Start(w), n - 1);
    var m := MachineRun(c, hs, Start(w), n - 1).value;
    StepRunsProperly(c, hs, m);
    hide Step, Start, RunsProperly, Inv, Sane;
    i := n - 1;
    if j < |m.ran| {
      i := RanWhereItAgrees(c, hs, w, n - 1, j);
    }
  }

  lemma {:induction false} PlainRunAdd<W>(c: World<W>, hs: seq<Handler>, p: Plain<W>, j: nat, k: nat)
    ensures PlainRun(c, hs, PlainRun(c, hs, p, j), k) == PlainRun(c, hs, p, j + k)
    decreases j
  {
    if j > 0 {
      PlainRunAdd(c, hs, PlainStep(c, hs, p), j - 1, k);
    }
  }

  lemma {:induction false} PlainDoneStays<W>(c: World<W>, hs: seq<Handler>, p: Plain<W>, k: nat)
    requires p.cur.Done?
    ensures PlainRun(c, hs, p, k) == p
    decreases k
  {
    if k > 0 {
      PlainDoneStays(c, hs, p, k - 1);
    }
  }

  lemma {:induction false} RunSimulates<W(!new)>(c: World<W>, hs: seq<Handler>, m: Machine<W>, n: nat) returns (k: nat)
    requires Sane(c) && Inv(c, m)
    ensures MachineRun(c, hs, m, n).Some? && Inv(c, MachineRun(c, hs, m, n).value)
    ensures Abs(c, MachineRun(c, hs, m, n).value) == PlainRun(c, hs, Abs(c, m), k)
    decreases n
  {
    if n == 0 {
      k := 0;
    } else {
      var j := StepSimulates(c, hs, m);
      var i := RunSimulates(c, hs, Step(c, hs, m), n - 1);
      PlainRunAdd(c, hs, Abs(c, m), j, i);
      k := j + i;
    }
  }

  lemma {:induction false} RunFinishes<W(!new)>(c: World<W>, hs: seq<Handler>, m: Machine<W>, k: nat) returns (n: nat)
    requires Sane(c) && Inv(c, m) && PlainRun(c, hs, Abs(c, m), k).cur.Done?
    ensures MachineRun(c, hs, m, n).Some? && MachineRun(c, hs, m, n).value.loc.Finished?
    decreases k, Rank(c, m)
  {
    if m.loc.Finished? {
      n := 0;
    } else {
      var j := StepSimulates(c, hs, m);
      var p' := Abs(c, Step(c, hs, m));
      if j <= k {
        PlainRunAdd(c, hs, Abs(c, m), j, k - j);
        n := RunFinishes(c, hs, Step(c, hs, m), k - j);
      } else {
        PlainDoneStays(c, hs, PlainRun(c, hs, Abs(c, m), k), j - k);
        PlainRunAdd(c, hs, Abs(c, m), k, j - k);
        assert PlainRun(c, hs, p', 0).cur.Done?;
        n := RunFinishes(c, hs, Step(c, hs, m), 0);
      }
      n := n + 1;
    }
  }

  // ---------------------------------------------------------------------------------------------
  // Main results

  function PlainStart<W>(w: W): (p: Plain<W>) { Plain(Pull, 0, w, []) }

  /** At every moment of every run the handlers that ran so far are those of the plain loop, in the
      same order, and the message is in the same state; a verdict given is the plain loop's. No
      handler is called through a null pointer. */
  lemma ChainIsPlainLoop<W(!new)>(c: World<W>, hs: seq<Handler>, w: W, n: nat) returns (k: nat)
    requires Sane(c)
    ensures MachineRun(c, hs, Start(w), n).Some?
    ensures var m := MachineRun(c, hs, Start(w), n).value;
            var p := PlainRun(c, hs, PlainStart(w), k);
            && m.ran == p.ran && m.w == p.w && m.pos == p.pos
            && (m.loc.Finished? ==> p.cur == Done(Said(m.loc.verdict)))
  {
    k := RunSimulates(c, hs, Start(w), n);
  }

  /** When the plain loop comes to an end so does the chain, with the same handlers run, the same
      message and the same verdict: bouncing between the threads never goes on for ever. */
  lemma ChainFinishesWhenPlainLoopDoes<W(!new)>(c: World<W>, hs: seq<Handler>, w: W, k: nat) returns (n: nat)
    requires Sane(c) && PlainRun(c, hs, PlainStart(w), k).cur.Done?
    ensures MachineRun(c, hs, Start(w), n).Some?
    ensures var m := MachineRun(c, hs, Start(w), n).value;
            var p := PlainRun(c, hs, PlainStart(w), k);
            && m.loc.Finished? && p.cur == Done(Said(m.loc.verdict))
            && m.ran == p.ran && m.w == p.w
  {
    n := RunFinishes(c, hs, Start(w), k);
    var j := RunSimulates(c, hs, Start(w), n);
    var p := PlainStart(w);
    if j <= k {
      PlainRunAdd(c, hs, p, j, k - j);
      PlainDoneStays(c, hs, PlainRun(c, hs, p, j), k - j);
    } else {
      PlainRunAdd(c, hs, p, k, j - k);
      PlainDoneStays(c, hs, PlainRun(c, hs, p, k), j - k);
    }
  }

  // ---------------------------------------------------------------------------------------------
  // The object

  lemma {:induction false} RunOn<W>(c: World<W>, hs: seq<Handler>, m: Machine<W>, k: nat, m1: Machine<W>)
    requires MachineRun(c, hs, m, k) == Some(m1) && CanStep(m1)
    ensures MachineRun(c, hs, m, k + 1) == Some(Step(c, hs, m1))
    decreases k
  {
    if k > 0 {
      RunOn(c, hs, Step(c, hs, m), k - 1, m1);
    } else {
      assert MachineRun(c, hs, Step(c, hs, m), 0) == Some(Step(c, hs, m));
    }
  }

  class AsyncInvoke<W> {
    const world: World<W>
    const handlers: seq<Handler>
    var loc: Loc
    var hr: Result
    var pos: nat
    var hdlr: Option<Handler>
    var next: Option<Handler>
    var message: string
    var w: W
    var ran: seq<Handler>

    function Now(): Machine<W>
      reads this
    {
      Machine(loc, hr, pos, hdlr, next, message, w, ran)
    }

    constructor (world: World<W>, handlers: seq<Handler>, w: W)
      ensures this.world == world && this.handlers == handlers && Now() == Start(w)
    {
      this.world, this.handlers, this.w := world, handlers, w;
      loc, hr, pos, hdlr, next, message, ran := Invoke(OK), RETURN_NULL, 0, None, None, "", [];
    }

    /** The state `invoke`. */
    method InvokeState(n: Result)
      requires loc == Invoke(n) && CanStep(Now())
      modifies this
      ensures Now() == Step(world, handlers, old(Now()))
    {
      if n.IsReturnNull() || hr.IsReturnNull() {
        hr := OK;
        if world.ended(w) || pos >= |handlers| {
          loc := Finished(RETURN_NULL);
          return;
        }
        next := Some(handlers[pos]);
        pos := pos + 1;
      }
      if hr.IsException() && (hr.payload.None? || hr.payload.value == "") {
        hr := Result(CALL_E_EXCEPTION, Some(message));
      }
      if hr.Failed() {
        loc := Finished(hr);
        return;
      }
      hdlr := next;
      next := None;
      var h := hdlr.value;
      if world.kind(h) == JsOnly {
        loc := OnJs;
        return;
      }
      var later := world.later(h, w);
      var (w1, out) := world.run(h, w);
      w, ran, next := w1, ran + [h], Some(out.next);
      loc := if later then Waiting(out.hr) else Driven(out.hr);
    }

    /** The loop of js_run, for at most `turns` turns: it has no bound of its own. */
    method JsRun(turns: nat) returns (ghost k: nat)
      requires loc.OnJs? && hdlr.Some?
      modifies this
      ensures k <= turns + 1 && Some(Now()) == MachineRun(world, handlers, old(Now()), k)
      ensures loc.JsDone? || (loc.JsLoop? && k == turns + 1)
    {
      hide MachineRun;
      ghost var m := Now();
      NoRun(world, handlers, m);
      var hdlr1 := hdlr.value;
      RunOn(world, handlers, m, 0, m);
      loc := JsLoop(hdlr1);
      k := 1;
      var i := 0;
      while i < turns
        invariant i <= turns && k == i + 1 && loc == JsLoop(hdlr1)
        invariant MachineRun(world, handlers, m, k) == Some(Now())
        decreases turns - i
      {
        ghost var m1 := Now();
        RunOn(world, handlers, m, k, m1);
        k := k + 1;
        i := i + 1;
        if world.kind(hdlr1) == PoolOnly {
          next := Some(hdlr1);
          loc := JsDone(OK);
          return;
        }
        var (w1, out) := world.run(hdlr1, w);
        w, ran := w1, ran + [hdlr1];
        if out.hr.Failed() {
          loc := JsDone(out.hr);
          return;
        }
        if out.hr.IsReturnNull() {
          if world.ended(w) || pos >= |handlers| {
            loc := JsDone(out.hr);
            return;
          }
          hdlr1 := handlers[pos];
          pos := pos + 1;
        } else {
          hdlr1 := out.next;
        }
        loc := JsLoop(hdlr1);
      }
    }

    /** js_invoke once js_run came back. */
    method JsInvoked()
      requires loc.JsDone?
      modifies this
      ensures Now() == Step(world, handlers, old(Now()))
    {
      hr := loc.hr;
      if hr.IsException() {
        message := if hr.payload.Some? then hr.payload.value else "";
      }
      loc := Invoke(OK);
    }
  }

  lemma NoRun<W>(c: World<W>, hs: seq<Handler>, m: Machine<W>)
    ensures MachineRun(c, hs, m, 0) == Some(m)
  {
  }
}
