/** The start gate of a stream's read loop (fibjs/include/AsyncStream.h:1055-1122, fibjs/include/Socket.h:50).
    startRecvStream and startConnectEvent are called by JS code, on_connected by the event loop; each takes one from
    m_state, and whoever takes the last one starts the reader. Reading m_state and taking from it are separate steps. */
module StartGates {

  datatype Pc = Idle | Entered | Checked | Done

  datatype Gate = Gate(
    socket: bool,            // a socket that is to be connected: m_state begins at 3 instead of 1
    state: int,              // m_state
    recv: Pc,                // the first startRecvStream
    connect: Pc,             // the first startConnectEvent
    connected: bool,         // on_connected ran
    reader: bool,            // the reader exists
    starts: nat,             // times the reader was started, or told of the connect error
    crashed: bool)           // it was started through a null pointer

  function Open(socket: bool): (g: Gate) { Gate(socket, if socket then 3 else 1, Idle, Idle, false, false, 0, false) }

  datatype Op = RecvEnter | RecvCheck | RecvTake | ConnectEnter | ConnectCheck | ConnectTake | Connected

  /** Only a socket is connected, and on_connected comes once, after connect() was entered in its sync phase. */
  predicate Legal(g: Gate, op: Op) {
    match op
    case RecvEnter => true
    case RecvCheck => g.recv == Entered
    case RecvTake => g.recv == Checked
    case ConnectEnter => g.socket
    case ConnectCheck => g.connect == Entered
    case ConnectTake => g.connect == Checked
    case Connected => g.connect == Done && !g.connected
  }

  /** The decrement, and the start by whoever reaches zero. */
  function Take(g: Gate): (r: Gate) {
    var g1 := g.(state := g.state - 1);
    if g1.state != 0 then g1
    else if g1.reader then g1.(starts := g.starts + 1)
    else g1.(crashed := true)
  }

  function Step(g: Gate, op: Op): (r: Gate) {
    match op
    case RecvEnter => if g.recv == Idle then g.(recv := Entered) else g
    case RecvCheck => g.(recv := Checked, reader := g.reader || g.state <= 2)
    case RecvTake => Take(g).(recv := Done)
    case ConnectEnter => if g.connect == Idle then g.(connect := Entered) else g
    case ConnectCheck => g.(connect := Checked, reader := g.reader || g.state <= 2)
    case ConnectTake => Take(g).(connect := Done)
    case Connected => Take(g).(connected := true)
  }

  ghost predicate Run(g: Gate, ops: seq<Op>, g': Gate)
    decreases |ops|
  {
    if ops == [] then g == g' else Legal(g, ops[0]) && Run(Step(g, ops[0]), ops[1..], g')
  }

  // What the calls alone say.

  /** How far a call is, by its steps so far. */
  function PcOf(ops: seq<Op>, enter: Op, check: Op, take: Op): (p: Pc) {
    if take in ops then Done else if check in ops then Checked else if enter in ops then Entered else Idle
  }

  function RecvOf(ops: seq<Op>): (p: Pc) { PcOf(ops, RecvEnter, RecvCheck, RecvTake) }

  function ConnectOf(ops: seq<Op>): (p: Pc) { PcOf(ops, ConnectEnter, ConnectCheck, ConnectTake) }

  /** Both calls took their one, and on_connected came. */
  predicate AllArrived(socket: bool, ops: seq<Op>) {
    RecvTake in ops && (socket ==> ConnectTake in ops && Connected in ops)
  }

  /** One call reads m_state after the other has read it and before it took its one. */
  predicate Overlap(before: seq<Op>, op: Op) {
    (op == RecvCheck && ConnectOf(before) == Checked) || (op == ConnectCheck && RecvOf(before) == Checked)
  }

  predicate Overlaps(ops: seq<Op>) {
    ops != [] && (Overlaps(ops[..|ops| - 1]) || Overlap(ops[..|ops| - 1], ops[|ops| - 1]))
  }

  predicate Agrees(g: Gate, ops: seq<Op>) {
    && g.recv == RecvOf(ops) && g.connect == ConnectOf(ops) && (g.connected <==> Connected in ops)
    && (RecvTake in ops ==> RecvCheck in ops) && (RecvCheck in ops ==> RecvEnter in ops)
    && (ConnectTake in ops ==> ConnectCheck in ops) && (ConnectCheck in ops ==> ConnectEnter in ops)
  }

  function Arrived(p: Pc): int { if p == Done then 1 else 0 }

  predicate Read(p: Pc) { p == Checked || p == Done }

  predicate Through(g: Gate) { g.recv == Done && (g.socket ==> g.connect == Done && g.connected) }

  /** `late` says whether the reads of m_state overlapped so far. */
  predicate Inv(g: Gate, late: bool) {
    && g.state == (if g.socket then 3 else 1) - Arrived(g.recv) - Arrived(g.connect) - (if g.connected then 1 else 0)
    && (g.connected ==> g.connect == Done) && (!g.socket ==> g.connect == Idle && (Read(g.recv) ==> g.reader))
    && (g.socket && !(Read(g.recv) && Read(g.connect)) ==> !late && !g.reader)
    && (g.socket && Read(g.recv) && Read(g.connect) ==> g.reader == !late)
    && (g.recv == Checked && g.connect == Checked ==> late) && (late ==> g.socket)
    && (g.crashed <==> late && Through(g))
    && g.starts == if Through(g) && !late then 1 else 0
  }

  lemma StepKeeps(g: Gate, before: seq<Op>, op: Op)
    requires Inv(g, Overlaps(before)) && Agrees(g, before) && Legal(g, op)
    ensures Inv(Step(g, op), Overlaps(before + [op])) && Agrees(Step(g, op), before + [op]) && Step(g, op).socket == g.socket
  {
    assert (before + [op])[..|before|] == before;
  }

  lemma {:induction false} RunKeeps(g: Gate, before: seq<Op>, ops: seq<Op>, g': Gate)
    requires Inv(g, Overlaps(before)) && Agrees(g, before) && Run(g, ops, g')
    ensures Inv(g', Overlaps(before + ops)) && Agrees(g', before + ops) && g'.socket == g.socket
    decreases |ops|
  {
    if ops == [] {
      assert before + ops == before;
    } else {
      StepKeeps(g, before, ops[0]);
      RunKeeps(Step(g, ops[0]), before + [ops[0]], ops[1..], g');
      assert before + [ops[0]] + ops[1..] == before + ops;
    }
  }

  /** Every run, whoever calls and whenever on_connected comes in: the reader is started exactly once, when the last
      condition is met, unless the two reads of m_state overlapped; exactly then a null pointer is started instead. */
  lemma StartsNullIffReadsOverlap(g0: Gate, ops: seq<Op>, g: Gate)
    requires g0 == Open(g0.socket) && Run(g0, ops, g)
    ensures g.crashed <==> AllArrived(g0.socket, ops) && Overlaps(ops)
    ensures g.starts == if AllArrived(g0.socket, ops) && !Overlaps(ops) then 1 else 0
  {
    RunKeeps(g0, [], ops, g);
    assert [] + ops == ops;
  }

  predicate Busy(p: Pc) { p == Entered || p == Checked }

  /** The two calls come from one thread: neither begins inside the other. */
  predicate Serial(before: seq<Op>, op: Op) {
    (op == RecvEnter ==> !Busy(ConnectOf(before))) && (op == ConnectEnter ==> !Busy(RecvOf(before)))
  }

  predicate AllSerial(ops: seq<Op>) {
    ops != [] ==> AllSerial(ops[..|ops| - 1]) && Serial(ops[..|ops| - 1], ops[|ops| - 1])
  }

  lemma {:induction false} PrefixSerial(before: seq<Op>, ops: seq<Op>)
    requires AllSerial(before + ops)
    ensures AllSerial(before)
    decreases |ops|
  {
    if ops == [] {
      assert before + ops == before;
    } else {
      assert (before + ops)[..|before + ops| - 1] == before + ops[..|ops| - 1];
      PrefixSerial(before, ops[..|ops| - 1]);
    }
  }

  lemma {:induction false} SerialReadsApart(g: Gate, before: seq<Op>, ops: seq<Op>, g': Gate)
    requires Agrees(g, before) && Inv(g, Overlaps(before)) && !(Busy(g.recv) && Busy(g.connect)) && !Overlaps(before)
    requires Run(g, ops, g') && AllSerial(before + ops)
    ensures !Overlaps(before + ops)
    decreases |ops|
  {
    if ops == [] {
      assert before + ops == before;
    } else {
      var next := before + [ops[0]];
      assert next + ops[1..] == before + ops && next[..|before|] == before;
      PrefixSerial(next, ops[1..]);
      StepKeeps(g, before, ops[0]);
      SerialReadsApart(Step(g, ops[0]), next, ops[1..], g');
    }
  }

  /** With the two calls on one thread, as JS code makes them, the reader is there and is started exactly once. */
  lemma StartedOnceWhenAllArrived(g0: Gate, ops: seq<Op>, g: Gate)
    requires g0 == Open(g0.socket) && Run(g0, ops, g) && AllSerial(ops)
    ensures !g.crashed && g.starts == if AllArrived(g0.socket, ops) then 1 else 0
  {
    StartsNullIffReadsOverlap(g0, ops, g);
    assert [] + ops == ops;
    SerialReadsApart(g0, [], ops, g);
  }

  lemma Then(g: Gate, op: Op, ops: seq<Op>, g': Gate)
    requires Legal(g, op) && Run(Step(g, op), ops, g')
    ensures Run(g, [op] + ops, g')
  {
    assert ([op] + ops)[1..] == ops;
  }

  /** Such a run: both calls read 3, neither makes the reader, and on_connected starts a null pointer. */
  lemma ConcurrentCallsStartNull(g0: Gate) returns (ops: seq<Op>, g: Gate)
    requires g0 == Open(true)
    ensures Run(g0, ops, g) && g.crashed && AllArrived(true, ops) && Overlaps(ops)
  {
    var g1 := Step(g0, RecvEnter);
    var g2 := Step(g1, ConnectEnter);
    var g3 := Step(g2, RecvCheck);
    var g4 := Step(g3, ConnectCheck);
    var g5 := Step(g4, RecvTake);
    var g6 := Step(g5, ConnectTake);
    g := Step(g6, Connected);
    assert Run(g, [], g);
    Then(g6, Connected, [], g);
    Then(g5, ConnectTake, [Connected] + [], g);
    Then(g4, RecvTake, [ConnectTake] + ([Connected] + []), g);
    Then(g3, ConnectCheck, [RecvTake] + ([ConnectTake] + ([Connected] + [])), g);
    var last := [ConnectCheck] + ([RecvTake] + ([ConnectTake] + ([Connected] + [])));
    Then(g2, RecvCheck, last, g);
    Then(g1, ConnectEnter, [RecvCheck] + last, g);
    Then(g0, RecvEnter, [ConnectEnter] + ([RecvCheck] + last), g);
    ops := [RecvEnter] + ([ConnectEnter] + ([RecvCheck] + last));
    StartsNullIffReadsOverlap(g0, ops, g);
  }

  // ---------------------------------------------------------------------------------------------
  // The object

  class AsyncStream {
    const socket: bool
    var state: int
    var recv: Pc
    var connect: Pc
    var connected: bool
    var reader: bool
    var starts: nat
    var crashed: bool

    ghost function Now(): Gate
      reads this
    {
      Gate(socket, state, recv, connect, connected, reader, starts, crashed)
    }

    constructor (socket: bool)
      ensures Now() == Open(socket)
    {
      this.socket := socket;
      state, recv, connect, connected := if socket then 3 else 1, Idle, Idle, false;
      reader, starts, crashed := false, 0, false;
    }

    method Decrement()
      modifies this`state, this`starts, this`crashed
      ensures Now() == Take(old(Now()))
    {
      state := state - 1;
      if state == 0 {
        if reader {
          starts := starts + 1;
        } else {
          crashed := true;
        }
      }
    }

    /** The whole call, with no step of others in between; a second call does nothing. */
    method StartRecvStream()
      requires !Busy(recv)
      modifies this
      ensures Now() == if old(recv) == Done then old(Now())
                       else Step(Step(Step(old(Now()), RecvEnter), RecvCheck), RecvTake)
    {
      if recv == Done {
        return;
      }
      if state <= 2 {
        reader := true;
      }
      Decrement();
      recv := Done;
    }

    method StartConnectEvent()
      requires !Busy(connect)
      modifies this
      ensures Now() == if old(connect) == Done then old(Now())
                       else Step(Step(Step(old(Now()), ConnectEnter), ConnectCheck), ConnectTake)
    {
      if connect == Done {
        return;
      }
      if state <= 2 && !reader {
        reader := true;
      }
      Decrement();
      connect := Done;
    }

    method OnConnected()
      modifies this
      ensures Now() == Step(old(Now()), Connected)
    {
      Decrement();
      connected := true;
    }
  }
}
