/** Who holds the ticket of the stream's read loop (fibjs/include/AsyncStream.h:88-122, 184-236,
    292-323, 390-410). The read loop, the threads that wake it and the JS thread that delivers data
    interleave freely; a step is a section under m_ticket_lock or an access to m_pendingWake.
    A ticket is the number of its next() call. */
module ReaderTickets {
  import opened Results

  type Ticket = nat

  /** The value a delivery posts when its "data" event was emitted. */
  const DELIVERY_DONE := 0x1_0003

  /** Where a ticket can be: m_ticket; the local of a thread in wake(); the local of the read loop
      between taking it out of m_ticket again and posting it; the AsyncStreamResume of a delivery; a
      queued apost; or the readBuffer it was given to. */
  datatype Place = Slot | Waker(w: nat) | Local(a: nat) | Resume(r: nat) | Queued(q: nat) | Reading

  /** What an activation of the read loop that gave its ticket away still does. */
  datatype Tail =
    | Exchanging                 // park(), before m_pendingWake.exchange(0)
    | Taking(token: int)         // park(), about to take the ticket for a pending wake
    | Posting(token: int)        // park(), with the ticket in its local
    | Delivering                 // event(), before it takes the ticket for the delivery

  datatype Reader = Reader(
    started: bool, ended: bool,
    running: bool,               // an activation has the machine and no ticket out
    hold: map<Place, Ticket>,
    tails: map<nat, Tail>,
    wakers: map<nat, int>,       // threads in wake() past the lock, with their token
    pendingWake: int,            // m_pendingWake
    values: map<nat, int>,       // the value each apost carries
    // what happened so far
    issued: nat,                 // tickets handed out
    resumed: seq<Ticket>,        // tickets that resumed the loop, in order
    given: seq<int>,             // values the aposts among them brought
    dropped: bool)               // a resume was destroyed without commit()

  const START := Reader(false, false, false, map[], map[], map[], 0, map[], 0, [], [], false)

  datatype Op =
    | Begin
    | ReadBuffer                         // recv
    | ReadDone                           // readBuffer posts its ticket
    | Jump                               // next(recv) or the like, consumed in place
    | Park(a: nat)                       // park(), up to the unlock
    | Exchange(a: nat)
    | TakeBack(a: nat)
    | PostBack(a: nat, q: nat)
    | StoreForDelivery(a: nat)           // event(), up to the unlock
    | Deliver(a: nat, r: nat)            // event(), the second lock and the resume it makes
    | Commit(r: nat, q: nat)
    | Discard(r: nat)                    // ~AsyncStreamResume without commit()
    | WakeTake(w: nat, token: int)       // wake(), up to the unlock
    | WakeEnd(w: nat, q: nat)            // wake(), the test of its local and what follows
    | Wake(w: nat, token: int, q: nat)   // both at once
    | RunQueued(q: nat)                  // the pool runs an apost
    | End

  predicate Legal(s: Reader, op: Op) {
    match op
    case Begin => !s.started
    case ReadBuffer => s.running
    case ReadDone => Reading in s.hold
    case Jump => s.running
    case Park(a) => s.running && a !in s.tails
    case Exchange(a) => a in s.tails && s.tails[a] == Exchanging
    case TakeBack(a) => a in s.tails && s.tails[a].Taking?
    case PostBack(a, q) => a in s.tails && s.tails[a].Posting? && Queued(q) !in s.hold
    case StoreForDelivery(a) => s.running && a !in s.tails
    case Deliver(a, r) => a in s.tails && s.tails[a] == Delivering && Resume(r) !in s.hold
    case Commit(_, q) => Queued(q) !in s.hold
    case Discard(_) => true
    case WakeTake(w, token) => w !in s.wakers && token != 0
    case WakeEnd(w, q) => w in s.wakers && Queued(q) !in s.hold
    case Wake(w, token, q) => w !in s.wakers && token != 0 && Queued(q) !in s.hold
    case RunQueued(q) => Queued(q) in s.hold
    case End => s.running
  }

  /** next(): the loop gives its new ticket to a place. */
  function Give(s: Reader, p: Place): (r: Reader) {
    s.(running := false, issued := s.issued + 1, hold := s.hold[p := s.issued + 1])
  }

  /** std::move of a handle: nothing happens to an empty one. */
  function Move(s: Reader, from: Place, to: Place): (r: Reader) {
    if from in s.hold then s.(hold := (s.hold - {from})[to := s.hold[from]]) else s
  }

  /** ticket.apost(value) */
  function Apost(s: Reader, from: Place, q: nat, value: int): (r: Reader) {
    if from in s.hold then Move(s, from, Queued(q)).(values := s.values[q := value]) else s
  }

  /** A ticket is delivered: the loop runs again. */
  function Resumed(s: Reader, p: Place): (r: Reader)
    requires p in s.hold
  {
    s.(running := true, resumed := s.resumed + [s.hold[p]], hold := s.hold - {p})
  }

  function StepWakeTake(s: Reader, w: nat, token: int): (r: Reader) {
    Move(s, Slot, Waker(w)).(wakers := s.wakers[w := token])
  }

  function StepWakeEnd(s: Reader, w: nat, q: nat): (r: Reader)
    requires w in s.wakers
  {
    var s1 := s.(wakers := s.wakers - {w});
    if Waker(w) in s.hold then Apost(s1, Waker(w), q, s.wakers[w]) else s1.(pendingWake := s.wakers[w])
  }

  function Step(s: Reader, op: Op): (r: Reader)
    requires Legal(s, op)
  {
    match op
    case Begin => s.(started := true, running := true)
    case ReadBuffer => Give(s, Reading)
    case ReadDone => Resumed(s, Reading)
    case Jump => s.(issued := s.issued + 1)
    case Park(a) => Give(s, Slot).(tails := s.tails[a := Exchanging])
    case Exchange(a) =>
      s.(pendingWake := 0,
         tails := if s.pendingWake == 0 then s.tails - {a} else s.tails[a := Taking(s.pendingWake)])
    case TakeBack(a) => Move(s, Slot, Local(a)).(tails := s.tails[a := Posting(s.tails[a].token)])
    case PostBack(a, q) => Apost(s, Local(a), q, s.tails[a].token).(tails := s.tails - {a})
    case StoreForDelivery(a) => Give(s, Slot).(tails := s.tails[a := Delivering])
    case Deliver(a, r) => Move(s, Slot, Resume(r)).(tails := s.tails - {a})
    case Commit(r, q) => Apost(s, Resume(r), q, DELIVERY_DONE)
    case Discard(r) => s.(hold := s.hold - {Resume(r)}, dropped := s.dropped || Resume(r) in s.hold)
    case WakeTake(w, token) => StepWakeTake(s, w, token)
    case WakeEnd(w, q) => StepWakeEnd(s, w, q)
    case Wake(w, token, q) => StepWakeEnd(StepWakeTake(s, w, token), w, q)
    case RunQueued(q) => Resumed(s, Queued(q)).(given := s.given + [if q in s.values then s.values[q] else 0])
    case End => s.(running := false, ended := true)
  }

  // ---------------------------------------------------------------------------------------------
  // Invariant

  /** One place has the ticket, and it is the last one issued; nobody has one while the loop runs. */
  ghost predicate Inv(s: Reader) {
    && (forall p, q :: p in s.hold && q in s.hold ==> p == q)
    && (forall p :: p in s.hold ==> s.hold[p] == s.issued && !s.running && !s.ended && !s.dropped && s.started)
    && (s.started && !s.running && !s.ended && !s.dropped ==> exists p :: p in s.hold)
    && (s.running ==> s.started && !s.ended && !s.dropped)
    && (!s.started ==> !s.ended && !s.dropped)
    && (forall i :: 0 <= i < |s.resumed| ==> 1 <= s.resumed[i] <= s.issued)
    && (forall p :: p in s.hold ==> s.hold[p] >= 1)
    && (forall i, p :: 0 <= i < |s.resumed| && p in s.hold ==> s.resumed[i] != s.hold[p])
    && (forall i, j :: 0 <= i < j < |s.resumed| ==> s.resumed[i] < s.resumed[j])
    && (forall w :: Waker(w) in s.hold ==> w in s.wakers)
    && (forall a :: Local(a) in s.hold ==> a in s.tails && s.tails[a].Posting?)
  }

  lemma GiveKeeps(s: Reader, p: Place)
    requires Inv(s) && s.running && !p.Waker? && !p.Local?
    ensures Inv(Give(s, p))
  {
    assert s.hold == map[];
    assert p in Give(s, p).hold;
  }

  lemma MoveHolds(s: Reader, from: Place, to: Place)
    requires forall p, q :: p in s.hold && q in s.hold ==> p == q
    ensures Move(s, from, to).hold == if from in s.hold then map[to := s.hold[from]] else s.hold
  {
  }

  /** r is s with the ticket, wherever it was, somewhere else. */
  lemma MoveKeeps(s: Reader, from: Place, to: Place, r: Reader)
    requires Inv(s) && r == Move(s, from, to).(tails := r.tails, wakers := r.wakers, pendingWake := r.pendingWake,
                                               values := r.values)
    requires forall w :: Waker(w) in r.hold ==> w in r.wakers
    requires forall a :: Local(a) in r.hold ==> a in r.tails && r.tails[a].Posting?
    ensures Inv(r)
  {
    MoveHolds(s, from, to);
    if from in s.hold { assert to in r.hold; }
  }

  lemma ResumedKeeps(s: Reader, p: Place)
    requires Inv(s) && p in s.hold
    ensures Inv(Resumed(s, p))
  {
  }

  lemma GivenKeeps(s: Reader, r: Reader)
    requires Inv(s) && r == s.(given := r.given)
    ensures Inv(r)
  {
  }

  lemma WakeTakeKeeps(s: Reader, w: nat, token: int)
    requires Inv(s) && w !in s.wakers
    ensures Inv(StepWakeTake(s, w, token))
  {
    MoveHolds(s, Slot, Waker(w));
    MoveKeeps(s, Slot, Waker(w), StepWakeTake(s, w, token));
  }

  lemma WakeEndKeeps(s: Reader, w: nat, q: nat)
    requires Inv(s) && w in s.wakers
    ensures Inv(StepWakeEnd(s, w, q))
  {
    MoveHolds(s, Waker(w), Queued(q));
    MoveKeeps(s, Waker(w), Queued(q), StepWakeEnd(s, w, q));
  }

  /** Steps that leave the ticket where it is. */
  lemma StayKeeps(s: Reader, op: Op)
    requires Inv(s) && Legal(s, op) && (op.Begin? || op.Jump? || op.Exchange? || op.End?)
    ensures Inv(Step(s, op))
  {
  }

  lemma DiscardKeeps(s: Reader, r: nat)
    requires Inv(s)
    ensures Inv(Step(s, Discard(r)))
  {
    if Resume(r) !in s.hold {
      assert s.hold - {Resume(r)} == s.hold;
    }
  }

  lemma ParkKeeps(s: Reader, a: nat, t: Tail)
    requires Inv(s) && s.running
    ensures Inv(Give(s, Slot).(tails := s.tails[a := t]))
  {
    GiveKeeps(s, Slot);
    assert s.hold == map[];
  }

  lemma HandOverKeeps(s: Reader, op: Op)
    requires Inv(s) && Legal(s, op) && (op.TakeBack? || op.PostBack? || op.Deliver? || op.Commit?)
    ensures Inv(Step(s, op))
  {
    var from := match op case PostBack(a, _) => Local(a) case Commit(r, _) => Resume(r) case _ => Slot;
    var to := match op case TakeBack(a) => Local(a) case Deliver(_, r) => Resume(r) case PostBack(_, q) => Queued(q)
                       case Commit(_, q) => Queued(q) case _ => Slot;
    MoveHolds(s, from, to);
    MoveKeeps(s, from, to, Step(s, op));
  }

  lemma StepKeeps(s: Reader, op: Op)
    requires Inv(s) && Legal(s, op)
    ensures Inv(Step(s, op))
  {
    hide Inv;
    match op
    case ReadBuffer => GiveKeeps(s, Reading);
    case ReadDone => ResumedKeeps(s, Reading);
    case Park(a) => ParkKeeps(s, a, Exchanging);
    case StoreForDelivery(a) => ParkKeeps(s, a, Delivering);
    case Discard(r) => DiscardKeeps(s, r);
    case WakeTake(w, token) => WakeTakeKeeps(s, w, token);
    case WakeEnd(w, q) => WakeEndKeeps(s, w, q);
    case Wake(w, token, q) =>
      WakeTakeKeeps(s, w, token);
      WakeEndKeeps(StepWakeTake(s, w, token), w, q);
    case RunQueued(q) =>
      ResumedKeeps(s, Queued(q));
      GivenKeeps(Resumed(s, Queued(q)), Step(s, op));
    case TakeBack(_) => HandOverKeeps(s, op);
    case PostBack(_, _) => HandOverKeeps(s, op);
    case Deliver(_, _) => HandOverKeeps(s, op);
    case Commit(_, _) => HandOverKeeps(s, op);
    case Begin => StayKeeps(s, op);
    case Jump => StayKeeps(s, op);
    case Exchange(_) => StayKeeps(s, op);
    case End => StayKeeps(s, op);
  }

  ghost predicate Run(s: Reader, ops: seq<Op>, s': Reader)
    decreases |ops|
  {
    if ops == [] then s == s' else Legal(s, ops[0]) && Run(Step(s, ops[0]), ops[1..], s')
  }

  lemma {:induction false} RunKeeps(s: Reader, ops: seq<Op>, s': Reader)
    requires Inv(s) && Run(s, ops, s')
    ensures Inv(s')
    decreases |ops|
  {
    if ops != [] {
      StepKeeps(s, ops[0]);
      hide Inv;
      RunKeeps(Step(s, ops[0]), ops[1..], s');
    }
  }

  // ---------------------------------------------------------------------------------------------
  // What the calls alone say

  function MovedAt(at: Option<Place>, from: Place, to: Place): Option<Place> {
    if at == Some(from) then Some(to) else at
  }

  function GoneFrom(at: Option<Place>, from: Place): Option<Place> {
    if at == Some(from) then None else at
  }

  /** Where the ticket is: handed out by a read, a park or a delivery, and carried on by whoever is there to take it. */
  function TicketAt(ops: seq<Op>): (at: Option<Place>) {
    if ops == [] then None
    else
      var at := TicketAt(ops[..|ops| - 1]);
      match ops[|ops| - 1]
      case ReadBuffer => Some(Reading)
      case ReadDone => GoneFrom(at, Reading)
      case Park(_) => Some(Slot)
      case StoreForDelivery(_) => Some(Slot)
      case TakeBack(a) => MovedAt(at, Slot, Local(a))
      case PostBack(a, q) => MovedAt(at, Local(a), Queued(q))
      case Deliver(_, r) => MovedAt(at, Slot, Resume(r))
      case Commit(r, q) => MovedAt(at, Resume(r), Queued(q))
      case Discard(r) => GoneFrom(at, Resume(r))
      case WakeTake(w, _) => MovedAt(at, Slot, Waker(w))
      case WakeEnd(w, q) => MovedAt(at, Waker(w), Queued(q))
      case Wake(_, _, q) => MovedAt(at, Slot, Queued(q))
      case RunQueued(q) => GoneFrom(at, Queued(q))
      case _ => at
  }

  /** The token of a thread inside wake(). */
  function TokenOf(ops: seq<Op>, w: nat): (token: Option<int>) {
    if ops == [] then None
    else
      match ops[|ops| - 1]
      case WakeTake(v, token) => if v == w then Some(token) else TokenOf(ops[..|ops| - 1], w)
      case WakeEnd(v, _) => if v == w then None else TokenOf(ops[..|ops| - 1], w)
      case _ => TokenOf(ops[..|ops| - 1], w)
  }

  /** The token of the last wake that found no ticket and that no park() has looked at since, else 0. */
  function PendingOf(ops: seq<Op>): (token: int) {
    if ops == [] then 0
    else
      var before := ops[..|ops| - 1];
      match ops[|ops| - 1]
      case Exchange(_) => 0
      case WakeEnd(w, _) =>
        if TicketAt(before) != Some(Waker(w)) && TokenOf(before, w).Some? then TokenOf(before, w).value else PendingOf(before)
      case Wake(_, token, _) => if TicketAt(before) != Some(Slot) then token else PendingOf(before)
      case _ => PendingOf(before)
  }

  /** What a park() or event() still does; a park() that finds a token goes on with it. */
  function TailOf(ops: seq<Op>, a: nat): (tail: Option<Tail>) {
    if ops == [] then None
    else
      var before := ops[..|ops| - 1];
      match ops[|ops| - 1]
      case Park(b) => if b == a then Some(Exchanging) else TailOf(before, a)
      case Exchange(b) =>
        if b != a then TailOf(before, a) else if PendingOf(before) == 0 then None else Some(Taking(PendingOf(before)))
      case TakeBack(b) =>
        if b == a && TailOf(before, a).Some? && TailOf(before, a).value.Taking? then Some(Posting(TailOf(before, a).value.token))
        else TailOf(before, a)
      case PostBack(b, _) => if b == a then None else TailOf(before, a)
      case StoreForDelivery(b) => if b == a then Some(Delivering) else TailOf(before, a)
      case Deliver(b, _) => if b == a then None else TailOf(before, a)
      case _ => TailOf(before, a)
  }

  /** The value an apost carries: the token of the wake, or of the park(), that posted it. */
  function ValueOf(ops: seq<Op>, q: nat): (value: int) {
    if ops == [] then 0
    else
      var before := ops[..|ops| - 1];
      match ops[|ops| - 1]
      case WakeEnd(w, p) =>
        if p == q && TicketAt(before) == Some(Waker(w)) && TokenOf(before, w).Some? then TokenOf(before, w).value
        else ValueOf(before, q)
      case Wake(_, token, p) => if p == q && TicketAt(before) == Some(Slot) then token else ValueOf(before, q)
      case PostBack(a, p) =>
        if p == q && TicketAt(before) == Some(Local(a)) && TailOf(before, a).Some? && TailOf(before, a).value.Posting?
        then TailOf(before, a).value.token
        else ValueOf(before, q)
      case Commit(r, p) => if p == q && TicketAt(before) == Some(Resume(r)) then DELIVERY_DONE else ValueOf(before, q)
      case _ => ValueOf(before, q)
  }

  /** The values brought by the aposts that ran. */
  function GivenOf(ops: seq<Op>): (values: seq<int>) {
    if ops == [] then []
    else
      var before := ops[..|ops| - 1];
      GivenOf(before) + match ops[|ops| - 1] case RunQueued(q) => [ValueOf(before, q)] case _ => []
  }

  ghost predicate HoldIs(s: Reader, at: Option<Place>) {
    s.hold == match at case None => map[] case Some(p) => map[p := s.issued]
  }

  ghost predicate TailsAre(s: Reader, ops: seq<Op>) {
    forall a :: TailOf(ops, a) == if a in s.tails then Some(s.tails[a]) else None
  }

  ghost predicate WakersAre(s: Reader, ops: seq<Op>) {
    forall w :: TokenOf(ops, w) == if w in s.wakers then Some(s.wakers[w]) else None
  }

  ghost predicate QueuedIs(s: Reader, ops: seq<Op>) {
    forall q :: Queued(q) in s.hold ==> q in s.values && s.values[q] == ValueOf(ops, q)
  }

  ghost predicate Agrees(s: Reader, ops: seq<Op>) {
    && HoldIs(s, TicketAt(ops)) && s.pendingWake == PendingOf(ops) && s.given == GivenOf(ops)
    && TailsAre(s, ops) && WakersAre(s, ops) && QueuedIs(s, ops)
  }

  ghost predicate Tokens(s: Reader) { forall w :: w in s.wakers ==> s.wakers[w] != 0 }

  /** What a step does to the tails and to the threads in wake(). */
  lemma StepSides(s: Reader, op: Op)
    requires Legal(s, op)
    ensures Step(s, op).tails == match op
                                 case Park(a) => s.tails[a := Exchanging]
                                 case Exchange(a) =>
                                   if s.pendingWake == 0 then s.tails - {a} else s.tails[a := Taking(s.pendingWake)]
                                 case TakeBack(a) => s.tails[a := Posting(s.tails[a].token)]
                                 case PostBack(a, _) => s.tails - {a}
                                 case StoreForDelivery(a) => s.tails[a := Delivering]
                                 case Deliver(a, _) => s.tails - {a}
                                 case _ => s.tails
    ensures Step(s, op).wakers == match op
                                  case WakeTake(w, token) => s.wakers[w := token]
                                  case WakeEnd(w, _) => s.wakers - {w}
                                  case _ => s.wakers
  {
    hide Move, Apost, StepWakeEnd;
    match op
    case TakeBack(a) => MoveOnly(s, Slot, Local(a));
    case PostBack(a, q) => ApostOnly(s, Local(a), q, s.tails[a].token);
    case Deliver(_, r) => MoveOnly(s, Slot, Resume(r));
    case Commit(r, q) => ApostOnly(s, Resume(r), q, DELIVERY_DONE);
    case WakeTake(w, _) => MoveOnly(s, Slot, Waker(w));
    case WakeEnd(w, q) => WakeEndOnly(s, w, q);
    case Wake(w, token, q) =>
      MoveOnly(s, Slot, Waker(w));
      WakeEndOnly(StepWakeTake(s, w, token), w, q);
      assert s.wakers[w := token] - {w} == s.wakers;
    case _ =>
  }

  lemma MoveOnly(s: Reader, from: Place, to: Place)
    ensures Move(s, from, to) == s.(hold := Move(s, from, to).hold)
  {
  }

  lemma ApostOnly(s: Reader, from: Place, q: nat, value: int)
    ensures Apost(s, from, q, value)
         == s.(hold := Apost(s, from, q, value).hold, values := Apost(s, from, q, value).values)
  {
  }

  lemma WakeEndOnly(s: Reader, w: nat, q: nat)
    requires w in s.wakers
    ensures StepWakeEnd(s, w, q).tails == s.tails && StepWakeEnd(s, w, q).wakers == s.wakers - {w}
  {
    hide Apost;
    ApostOnly(s.(wakers := s.wakers - {w}), Waker(w), q, s.wakers[w]);
  }

  lemma {:induction false} RunLast(s: Reader, ops: seq<Op>, s': Reader) returns (mid: Reader)
    requires Run(s, ops, s') && ops != []
    ensures Run(s, ops[..|ops| - 1], mid) && Legal(mid, ops[|ops| - 1]) && s' == Step(mid, ops[|ops| - 1])
    decreases |ops|
  {
    hide Step, Legal;
    if |ops| == 1 {
      mid := s;
      assert ops[1..] == [];
    } else {
      mid := RunLast(Step(s, ops[0]), ops[1..], s');
      assert ops[1..][..|ops| - 2] == ops[..|ops| - 1][1..];
    }
  }

  lemma MoveIs(s: Reader, at: Option<Place>, from: Place, to: Place)
    requires HoldIs(s, at)
    ensures HoldIs(Move(s, from, to), MovedAt(at, from, to))
  {
    if from in s.hold {
      assert s.hold - {from} == map[];
    }
  }

  lemma LeaveIs(s: Reader, at: Option<Place>, from: Place, r: Reader)
    requires HoldIs(s, at) && r.hold == s.hold - {from} && r.issued == s.issued
    ensures HoldIs(r, GoneFrom(at, from))
  {
    if from in s.hold {
      assert s.hold - {from} == map[];
    } else {
      assert s.hold - {from} == s.hold;
    }
  }

  lemma HoldKept(s: Reader, before: seq<Op>, op: Op)
    requires Inv(s) && HoldIs(s, TicketAt(before)) && Legal(s, op)
    ensures HoldIs(Step(s, op), TicketAt(before + [op]))
  {
    var at := TicketAt(before);
    assert (before + [op])[..|before|] == before;
    hide Move, MovedAt, GoneFrom;
    match op
    case ReadBuffer => assert s.hold == map[];
    case Park(_) => assert s.hold == map[];
    case StoreForDelivery(_) => assert s.hold == map[];
    case Jump => assert s.hold == map[];
    case ReadDone => LeaveIs(s, at, Reading, Step(s, op));
    case Discard(r) => LeaveIs(s, at, Resume(r), Step(s, op));
    case RunQueued(q) => LeaveIs(s, at, Queued(q), Step(s, op));
    case _ => MoverKept(s, at, op);
  }

  lemma MoverKept(s: Reader, at: Option<Place>, op: Op)
    requires Inv(s) && HoldIs(s, at) && Legal(s, op)
    ensures op.TakeBack? ==> HoldIs(Step(s, op), MovedAt(at, Slot, Local(op.a)))
    ensures op.PostBack? ==> HoldIs(Step(s, op), MovedAt(at, Local(op.a), Queued(op.q)))
    ensures op.Deliver? ==> HoldIs(Step(s, op), MovedAt(at, Slot, Resume(op.r)))
    ensures op.Commit? ==> HoldIs(Step(s, op), MovedAt(at, Resume(op.r), Queued(op.q)))
    ensures op.WakeTake? ==> HoldIs(Step(s, op), MovedAt(at, Slot, Waker(op.w)))
    ensures op.WakeEnd? ==> HoldIs(Step(s, op), MovedAt(at, Waker(op.w), Queued(op.q)))
    ensures op.Wake? ==> HoldIs(Step(s, op), MovedAt(at, Slot, Queued(op.q)))
  {
    match op
    case TakeBack(a) => MoveIs(s, at, Slot, Local(a));
    case PostBack(a, q) => MoveIs(s, at, Local(a), Queued(q));
    case Deliver(_, r) => MoveIs(s, at, Slot, Resume(r));
    case Commit(r, q) => MoveIs(s, at, Resume(r), Queued(q));
    case WakeTake(w, _) => MoveIs(s, at, Slot, Waker(w));
    case WakeEnd(w, q) => MoveIs(s, at, Waker(w), Queued(q));
    case Wake(w, token, q) =>
      MoveIs(s, at, Slot, Waker(w));
      MoveIs(StepWakeTake(s, w, token), MovedAt(at, Slot, Waker(w)), Waker(w), Queued(q));
    case _ =>
  }

  lemma AgreesKept(s: Reader, before: seq<Op>, op: Op)
    requires Inv(s) && Agrees(s, before) && Legal(s, op)
    ensures Agrees(Step(s, op), before + [op])
  {
    HoldKept(s, before, op);
    PendingKept(s, before, op);
    TailsKept(s, before, op);
    WakersKept(s, before, op);
    QueuedKept(s, before, op);
    hide Inv, HoldIs, TailsAre, WakersAre, QueuedIs, Step, Legal, TicketAt, PendingOf, GivenOf;
  }

  lemma PendingKept(s: Reader, before: seq<Op>, op: Op)
    requires Inv(s) && Agrees(s, before) && Legal(s, op)
    ensures Step(s, op).pendingWake == PendingOf(before + [op]) && Step(s, op).given == GivenOf(before + [op])
  {
    assert (before + [op])[..|before|] == before;
    hide TailsAre, TicketAt, TailOf, TokenOf, ValueOf;
    if op.WakeEnd? || op.Wake? {
      WakePending(s, op);
      assert op.WakeEnd? ==> TokenOf(before, op.w) == Some(s.wakers[op.w]);
      hide Step;
    } else if op.RunQueued? {
      assert op.q in s.values && s.values[op.q] == ValueOf(before, op.q);
    }
  }

  lemma WakePending(s: Reader, op: Op)
    requires Inv(s) && Legal(s, op) && (op.WakeEnd? || op.Wake?)
    ensures Step(s, op).given == s.given
    ensures op.WakeEnd? ==>
              Step(s, op).pendingWake == if Waker(op.w) in s.hold then s.pendingWake else s.wakers[op.w]
    ensures op.Wake? ==> Step(s, op).pendingWake == if Slot in s.hold then s.pendingWake else op.token
  {
    if op.Wake? {
      MoveHolds(s, Slot, Waker(op.w));
    }
  }

  lemma TailsKept(s: Reader, before: seq<Op>, op: Op)
    requires Agrees(s, before) && Legal(s, op)
    ensures TailsAre(Step(s, op), before + [op])
  {
    assert (before + [op])[..|before|] == before;
    var r := Step(s, op);
    StepSides(s, op);
    hide TicketAt, PendingOf, GivenOf, ValueOf, TokenOf, WakersAre, QueuedIs, HoldIs, Step;
    forall a ensures TailOf(before + [op], a) == if a in r.tails then Some(r.tails[a]) else None {
      assert TailOf(before, a) == if a in s.tails then Some(s.tails[a]) else None;
    }
  }

  lemma WakersKept(s: Reader, before: seq<Op>, op: Op)
    requires WakersAre(s, before) && Legal(s, op)
    ensures WakersAre(Step(s, op), before + [op])
  {
    assert (before + [op])[..|before|] == before;
    var r := Step(s, op);
    StepSides(s, op);
    hide Step;
    forall w ensures TokenOf(before + [op], w) == if w in r.wakers then Some(r.wakers[w]) else None {
      assert TokenOf(before, w) == if w in s.wakers then Some(s.wakers[w]) else None;
    }
  }

  /** Which value a step leaves with a queued ticket. */
  lemma QueuedValue(s: Reader, op: Op, q: nat)
    requires Inv(s) && Legal(s, op) && Queued(q) in Step(s, op).hold
    ensures match op
            case WakeEnd(w, p) =>
              if p == q && Waker(w) in s.hold then HasValue(s, op, q, s.wakers[w]) else HasOld(s, op, q)
            case Wake(_, token, p) => if p == q && Slot in s.hold then HasValue(s, op, q, token) else HasOld(s, op, q)
            case PostBack(a, p) =>
              if p == q && Local(a) in s.hold then HasValue(s, op, q, s.tails[a].token) else HasOld(s, op, q)
            case Commit(r, p) =>
              if p == q && Resume(r) in s.hold then HasValue(s, op, q, DELIVERY_DONE) else HasOld(s, op, q)
            case _ => HasOld(s, op, q)
  {
    if op.WakeEnd? || op.Wake? {
      WakeValue(s, op, q);
    } else if op.PostBack? || op.Commit? {
      ApostValue(s, op, q);
    } else {
      OldValue(s, op, q);
    }
  }

  lemma WakeEndValue(s: Reader, w: nat, p: nat, q: nat)
    requires (forall a, b :: a in s.hold && b in s.hold ==> a == b) && w in s.wakers
    requires Queued(q) in StepWakeEnd(s, w, p).hold
    ensures var r := StepWakeEnd(s, w, p);
            if p == q && Waker(w) in s.hold then q in r.values && r.values[q] == s.wakers[w]
            else Queued(q) in s.hold && r.values == s.values
  {
    MoveHolds(s.(wakers := s.wakers - {w}), Waker(w), Queued(p));
  }

  lemma WakeValue(s: Reader, op: Op, q: nat)
    requires Inv(s) && Legal(s, op) && Queued(q) in Step(s, op).hold && (op.WakeEnd? || op.Wake?)
    ensures op.WakeEnd? ==>
              if op.q == q && Waker(op.w) in s.hold then HasValue(s, op, q, s.wakers[op.w]) else HasOld(s, op, q)
    ensures op.Wake? ==> if op.q == q && Slot in s.hold then HasValue(s, op, q, op.token) else HasOld(s, op, q)
  {
    if op.Wake? {
      var t := StepWakeTake(s, op.w, op.token);
      MoveOnly(s, Slot, Waker(op.w));
      MoveHolds(s, Slot, Waker(op.w));
      WakeEndValue(t, op.w, op.q, q);
    } else {
      WakeEndValue(s, op.w, op.q, q);
    }
    hide Move, StepWakeEnd;
  }

  lemma ApostValue(s: Reader, op: Op, q: nat)
    requires Inv(s) && Legal(s, op) && Queued(q) in Step(s, op).hold && (op.PostBack? || op.Commit?)
    ensures op.PostBack? ==>
              if op.q == q && Local(op.a) in s.hold then HasValue(s, op, q, s.tails[op.a].token) else HasOld(s, op, q)
    ensures op.Commit? ==>
              if op.q == q && Resume(op.r) in s.hold then HasValue(s, op, q, DELIVERY_DONE) else HasOld(s, op, q)
  {
    MoveHolds(s, if op.PostBack? then Local(op.a) else Resume(op.r), Queued(op.q));
  }

  lemma OldValue(s: Reader, op: Op, q: nat)
    requires Inv(s) && Legal(s, op) && Queued(q) in Step(s, op).hold
    requires !op.WakeEnd? && !op.Wake? && !op.PostBack? && !op.Commit?
    ensures HasOld(s, op, q)
  {
    match op
    case TakeBack(a) => MoveHolds(s, Slot, Local(a));
    case Deliver(_, r) => MoveHolds(s, Slot, Resume(r));
    case WakeTake(w, _) => MoveHolds(s, Slot, Waker(w));
    case _ =>
  }

  predicate HasValue(s: Reader, op: Op, q: nat, value: int)
    requires Legal(s, op)
  {
    q in Step(s, op).values && Step(s, op).values[q] == value
  }

  predicate HasOld(s: Reader, op: Op, q: nat)
    requires Legal(s, op)
  {
    Queued(q) in s.hold && (q in s.values ==> HasValue(s, op, q, s.values[q]))
  }

  lemma QueuedKept(s: Reader, before: seq<Op>, op: Op)
    requires Inv(s) && Agrees(s, before) && Legal(s, op)
    ensures QueuedIs(Step(s, op), before + [op])
  {
    assert (before + [op])[..|before|] == before;
    assert op.WakeEnd? ==> TokenOf(before, op.w) == Some(s.wakers[op.w]);
    assert op.PostBack? ==> TailOf(before, op.a) == Some(s.tails[op.a]);
    forall q | Queued(q) in Step(s, op).hold
      ensures q in Step(s, op).values && Step(s, op).values[q] == ValueOf(before + [op], q)
    {
      hide Step, TicketAt, GivenOf, PendingOf, TokenOf, TailOf;
      QueuedValue(s, op, q);
      assert Queued(q) in s.hold ==> q in s.values && s.values[q] == ValueOf(before, q);
    }
  }

  lemma {:induction false} HistoryFrom(s0: Reader, ops: seq<Op>, s: Reader)
    requires Inv(s0) && Agrees(s0, []) && Run(s0, ops, s)
    ensures Inv(s) && Agrees(s, ops)
    decreases |ops|
  {
    hide Inv, Agrees, Step, Legal;
    RunKeeps(s0, ops, s);
    if ops != [] {
      hide Run;
      var n := |ops| - 1;
      var mid := RunLast(s0, ops, s);
      HistoryFrom(s0, ops[..n], mid);
      RunKeeps(s0, ops[..n], mid);
      AgreesKept(mid, ops[..n], ops[n]);
      assert ops[..n] + [ops[n]] == ops;
    }
  }

  lemma StartAgrees(s: Reader)
    requires s == START
    ensures Inv(s) && Tokens(s) && Agrees(s, [])
  {
  }

  /** Every interleaving, told by the calls: where the ticket is, which token is pending, what each park() found, and
      which values the loop was resumed with. */
  lemma StateIsHistory(s0: Reader, ops: seq<Op>, s: Reader)
    requires s0 == START && Run(s0, ops, s)
    ensures Agrees(s, ops)
  {
    StartAgrees(s0);
    hide Inv, Agrees, Run;
    HistoryFrom(s0, ops, s);
  }

  // ---------------------------------------------------------------------------------------------
  // Main results

  /** Every interleaving: while the read loop is not processing, exactly one place holds its ticket,
      the last one issued, unless a resume was dropped uncommitted; while it is processing none does. */
  lemma TicketConserved(s0: Reader, ops: seq<Op>, s: Reader)
    requires s0 == START && Run(s0, ops, s)
    ensures s.running ==> s.hold == map[]
    ensures s.started && !s.running && !s.ended && !s.dropped ==>
              exists p :: s.hold == map[p := s.issued]
    ensures |s.hold| <= 1
  {
    assert Inv(s0);
    RunKeeps(s0, ops, s);
    if p :| p in s.hold {
      assert s.hold == map[p := s.issued];
    } else {
      assert s.hold == map[];
    }
  }

  /** Every interleaving: no ticket resumes the loop twice, however many wakes compete for it. */
  lemma ResumedOncePerTicket(s0: Reader, ops: seq<Op>, s: Reader)
    requires s0 == START && Run(s0, ops, s)
    ensures forall i, j :: 0 <= i < j < |s.resumed| ==> s.resumed[i] < s.resumed[j]
    ensures |s.resumed| <= s.issued
  {
    assert Inv(s0);
    RunKeeps(s0, ops, s);
    Increasing(s.resumed);
  }

  lemma {:induction false} Increasing(ts: seq<Ticket>)
    requires forall i, j :: 0 <= i < j < |ts| ==> ts[i] < ts[j]
    requires forall i :: 0 <= i < |ts| ==> 1 <= ts[i]
    ensures ts != [] ==> |ts| <= ts[|ts| - 1]
  {
    if |ts| > 1 {
      Increasing(ts[..|ts| - 1]);
    }
  }

  /** An activation that will look at m_pendingWake or take the ticket out of its slot. */
  ghost predicate OnTheWay(s: Reader) {
    exists a :: a in s.tails && !s.tails[a].Posting?
  }

  /** A wake is lost: its token is in m_pendingWake, the ticket in its slot, and nobody is on the way. */
  ghost predicate Stranded(s: Reader) {
    s.pendingWake != 0 && Slot in s.hold && !OnTheWay(s)
  }

  /** By the calls alone: a wake found no ticket, the ticket came back to its slot, and nobody is on the way to look. */
  ghost predicate Lost(ops: seq<Op>) {
    PendingOf(ops) != 0 && TicketAt(ops) == Some(Slot) && forall a :: TailOf(ops, a).Some? ==> TailOf(ops, a).value.Posting?
  }

  lemma StrandedIsLost(s0: Reader, ops: seq<Op>, s: Reader)
    requires s0 == START && Run(s0, ops, s)
    ensures Stranded(s) <==> Lost(ops)
  {
    StateIsHistory(s0, ops, s);
    hide TicketAt, PendingOf, TailOf, GivenOf, TokenOf, ValueOf, Run;
    assert Slot in s.hold <==> TicketAt(ops) == Some(Slot);
    forall a ensures TailOf(ops, a) == if a in s.tails then Some(s.tails[a]) else None {
    }
  }

  /** Every interleaving: park() finds the token of the last wake that found no ticket, and none other; it leaves none
      pending. */
  lemma ExchangeFinds(s0: Reader, ops: seq<Op>, s: Reader, a: nat)
    requires s0 == START && Run(s0, ops, s) && Legal(s, Exchange(a))
    ensures var r := Step(s, Exchange(a));
            && r.pendingWake == 0
            && (PendingOf(ops) == 0 ==> a !in r.tails)
            && (PendingOf(ops) != 0 ==> a in r.tails && r.tails[a] == Taking(PendingOf(ops)))
  {
    StateIsHistory(s0, ops, s);
  }

  /** And whoever found one posts the ticket with it, if the slot still has the ticket. */
  lemma TakenIsPosted(s0: Reader, ops: seq<Op>, s: Reader, a: nat, q: nat)
    requires s0 == START && Run(s0, ops, s) && Legal(s, TakeBack(a)) && Queued(q) !in s.hold
    requires TicketAt(ops) == Some(Slot)
    ensures var r := Step(s, TakeBack(a));
            && Legal(r, PostBack(a, q))
            && var t := Step(r, PostBack(a, q));
               t.hold == map[Queued(q) := s.issued] && q in t.values && t.values[q] == s.tails[a].token
  {
    StateIsHistory(s0, ops, s);
    BackAndPosted(s, a, q);
  }

  lemma BackAndPosted(s: Reader, a: nat, q: nat)
    requires HoldIs(s, Some(Slot)) && Legal(s, TakeBack(a)) && Queued(q) !in s.hold
    ensures var r := Step(s, TakeBack(a));
            && Legal(r, PostBack(a, q))
            && var t := Step(r, PostBack(a, q));
               t.hold == map[Queued(q) := s.issued] && q in t.values && t.values[q] == s.tails[a].token
  {
    var r := Step(s, TakeBack(a));
    MoveHolds(s, Slot, Local(a));
    assert r.hold == map[Local(a) := s.issued];
    MoveHolds(r, Local(a), Queued(q));
  }

  /** The second step of a wake() that found no ticket, when the ticket is back in its slot and nobody is on the way:
      the loop parked, and looked for a pending wake, between the two steps. */
  ghost predicate LateStore(s: Reader, op: Op) {
    op.WakeEnd? && op.w in s.wakers && Waker(op.w) !in s.hold && Slot in s.hold && !OnTheWay(s)
  }

  /** The first step of wake() takes the ticket, whatever its token. */
  predicate Takes(op: Op) { op.WakeTake? || op.Wake? }

  predicate NoneTakes(ops: seq<Op>) { forall i :: 0 <= i < |ops| ==> !Takes(ops[i]) }

  lemma TokensKept(s: Reader, op: Op)
    requires Tokens(s) && Legal(s, op)
    ensures Tokens(Step(s, op))
  {
    StepSides(s, op);
    hide Step;
  }

  /** A step that does not end a wake() loses none, and does not bring one back unless it takes the ticket. */
  lemma OtherStepExact(s: Reader, op: Op)
    requires Inv(s) && Legal(s, op) && !op.WakeEnd? && !op.Wake?
    ensures Stranded(Step(s, op)) <==> Stranded(s) && !Takes(op)
  {
    var r := Step(s, op);
    match op
    case Park(a) => assert r.tails[a] == Exchanging;
    case StoreForDelivery(a) => assert r.tails[a] == Delivering;
    case WakeTake(w, _) => MoveHolds(s, Slot, Waker(w));
    case Exchange(a) => assert !s.tails[a].Posting?;
    case TakeBack(b) =>
      MoveHolds(s, Slot, Local(b));
      assert !s.tails[b].Posting?;
    case PostBack(b, q) =>
      MoveHolds(s, Local(b), Queued(q));
      PostedLeaves(s, b, r);
    case Deliver(b, x) =>
      MoveHolds(s, Slot, Resume(x));
      assert !s.tails[b].Posting?;
    case Commit(x, q) => MoveHolds(s, Resume(x), Queued(q));
    case _ =>
  }

  lemma PostedLeaves(s: Reader, b: nat, r: Reader)
    requires b in s.tails && s.tails[b].Posting? && r.tails == s.tails - {b}
    ensures OnTheWay(r) <==> OnTheWay(s)
  {
    if OnTheWay(s) {
      var a :| a in s.tails && !s.tails[a].Posting?;
      assert a in r.tails && r.tails[a] == s.tails[a];
    }
  }

  lemma WakeEndExact(s: Reader, w: nat, q: nat)
    requires Inv(s) && Tokens(s) && w in s.wakers
    ensures Stranded(StepWakeEnd(s, w, q)) <==> LateStore(s, WakeEnd(w, q)) || Stranded(s)
  {
    MoveHolds(s, Waker(w), Queued(q));
  }

  /** Exactly a late store loses a wake, and exactly a wake that takes the ticket makes up for it. */
  lemma StrandedExactly(s: Reader, op: Op)
    requires Inv(s) && Tokens(s) && Legal(s, op)
    ensures Stranded(Step(s, op)) <==> LateStore(s, op) || (Stranded(s) && !Takes(op))
  {
    match op
    case WakeEnd(w, q) => WakeEndExact(s, w, q);
    case Wake(w, token, q) =>
      var s1 := StepWakeTake(s, w, token);
      WakeTakeKeeps(s, w, token);
      MoveHolds(s, Slot, Waker(w));
      WakeEndExact(s1, w, q);
      assert Slot !in s1.hold;
    case _ => OtherStepExact(s, op);
  }

  /** The run has a late store after which no wake takes the ticket. */
  ghost predicate LosesWake(s: Reader, ops: seq<Op>, s': Reader)
    requires Run(s, ops, s')
    decreases |ops|
  {
    ops != [] &&
    (LosesWake(Step(s, ops[0]), ops[1..], s') || (LateStore(s, ops[0]) && NoneTakes(ops[1..])))
  }

  lemma {:induction false} StrandedIff(s: Reader, ops: seq<Op>, s': Reader)
    requires Inv(s) && Tokens(s) && Run(s, ops, s')
    ensures Stranded(s') <==> LosesWake(s, ops, s') || (Stranded(s) && NoneTakes(ops))
    decreases |ops|
  {
    hide Inv, Stranded, LateStore, Tokens, Step, Legal;
    if ops != [] {
      StepKeeps(s, ops[0]);
      TokensKept(s, ops[0]);
      StrandedExactly(s, ops[0]);
      StrandedIff(Step(s, ops[0]), ops[1..], s');
      assert NoneTakes(ops) <==> !Takes(ops[0]) && NoneTakes(ops[1..]);
    }
  }

  /** Every interleaving of the code as it is: a wake is lost at the end of a run exactly when the run has a late store
      with no wake after it that takes the ticket. */
  lemma WakeLostIff(s0: Reader, ops: seq<Op>, s: Reader)
    requires s0 == START && Run(s0, ops, s)
    ensures Lost(ops) <==> LosesWake(s0, ops, s)
    ensures Lost(ops) <==> Stranded(s)
  {
    assert Inv(s0) && Tokens(s0) && !Stranded(s0);
    hide Inv, Tokens, LosesWake, Lost, Run;
    StrandedIff(s0, ops, s);
    StrandedIsLost(s0, ops, s);
  }

  /** A stranded wake stays so, and the loop stays parked, until another wake takes the ticket. */
  lemma {:induction false} StrandedUntilTaken(s: Reader, ops: seq<Op>, s': Reader)
    requires Inv(s) && Tokens(s) && Stranded(s) && Run(s, ops, s') && NoneTakes(ops)
    ensures Stranded(s') && s'.resumed == s.resumed
    decreases |ops|
  {
    if ops != [] {
      StepKeeps(s, ops[0]);
      TokensKept(s, ops[0]);
      StrandedExactly(s, ops[0]);
      assert Step(s, ops[0]).resumed == s.resumed;
      StrandedUntilTaken(Step(s, ops[0]), ops[1..], s');
    }
  }

  /** wake() taken as one step. */
  predicate Atomic(op: Op) { !op.WakeTake? && !op.WakeEnd? }

  lemma {:induction false} AtomicLosesNone(s: Reader, ops: seq<Op>, s': Reader)
    requires Run(s, ops, s') && forall i :: 0 <= i < |ops| ==> Atomic(ops[i])
    ensures !LosesWake(s, ops, s')
    decreases |ops|
  {
    if ops != [] {
      AtomicLosesNone(Step(s, ops[0]), ops[1..], s');
    }
  }

  /** So no wake is lost as long as wake() is one step. */
  lemma AtomicWakesAreNotLost(s0: Reader, ops: seq<Op>, s: Reader)
    requires s0 == START && Run(s0, ops, s) && forall i :: 0 <= i < |ops| ==> Atomic(ops[i])
    ensures !Lost(ops)
    ensures s.tails == map[] && Slot in s.hold ==> s.pendingWake == 0 && PendingOf(ops) == 0
  {
    WakeLostIff(s0, ops, s);
    AtomicLosesNone(s0, ops, s);
    StateIsHistory(s0, ops, s);
    hide Run, LosesWake, TicketAt, TailOf, Lost;
  }

  lemma Then(s: Reader, op: Op, ops: seq<Op>, s': Reader)
    requires Legal(s, op) && Run(Step(s, op), ops, s')
    ensures Run(s, [op] + ops, s')
  {
    assert ([op] + ops)[1..] == ops;
  }

  /** Such runs exist: a wake finds no ticket, the loop parks and sees no pending wake, and only then the wake leaves
      its token. */
  lemma SplitWakeIsLost(s0: Reader, token: int) returns (ops: seq<Op>, s: Reader)
    requires s0 == START && token != 0
    ensures Run(s0, ops, s)
    ensures s.tails == map[] && s.wakers == map[] && Slot in s.hold && s.pendingWake == token
    ensures Lost(ops) && LosesWake(s0, ops, s)
  {
    var s1 := Step(s0, Begin);
    var s2 := Step(s1, WakeTake(0, token));
    var s3 := Step(s2, Park(0));
    var s4 := Step(s3, Exchange(0));
    s := Step(s4, WakeEnd(0, 0));
    assert s.tails == map[] && s.wakers == map[];
    assert Run(s, [], s);
    Then(s4, WakeEnd(0, 0), [], s);
    Then(s3, Exchange(0), [WakeEnd(0, 0)] + [], s);
    Then(s2, Park(0), [Exchange(0)] + ([WakeEnd(0, 0)] + []), s);
    Then(s1, WakeTake(0, token), [Park(0)] + ([Exchange(0)] + ([WakeEnd(0, 0)] + [])), s);
    Then(s0, Begin, [WakeTake(0, token)] + ([Park(0)] + ([Exchange(0)] + ([WakeEnd(0, 0)] + []))), s);
    ops := [Begin] + ([WakeTake(0, token)] + ([Park(0)] + ([Exchange(0)] + ([WakeEnd(0, 0)] + []))));
    WakeLostIff(s0, ops, s);
  }
}
