/** Ownership of continuation events by AsyncHandle (fibjs/include/AsyncCall.h:155-352).
    A handle names an event and either owns it (it is the event's one deleter) or borrows it.
    Handles live in variables, in pool tasks made by apost(), and, while a post() runs, in the
    locals of that post(). A post() is two steps, so that any other operation can come in between:
    from inside the event's own post(), or on another thread. */
module AsyncHandles {
  import opened Results

  type Event = nat
  type Token = nat

  /** Where a handle is: a variable, the m_h of a pool task, or the locals of a running post(). */
  datatype Slot = Variable(n: nat) | Task(n: nat) | Delivery(n: nat)

  /** m_ac and m_borrowed; `token` numbers the construction the handle descends from. */
  datatype Handle = Handle(ac: Option<Event>, borrowed: bool, token: Token) {
    predicate IsOwner() { ac.Some? && !borrowed }
    predicate Owns(e: Event) { ac == Some(e) && !borrowed }
  }

  const EMPTY := Handle(None, true, 0)

  datatype Heap = Heap(
    slots: map<Slot, Handle>,
    // what happened so far
    made: nat,                      // handles constructed from a pointer
    adopted: set<Event>,
    delivered: multiset<Token>,     // constructions whose event was posted
    dropped: multiset<Token>,       // constructions abandoned before delivery
    posted: multiset<Event>,        // events posted by their owner
    deleted: multiset<Event>)       // events deleted by a handle

  const START := Heap(map[], 0, {}, multiset{}, multiset{}, multiset{}, multiset{})

  datatype Op =
    | Construct(dst: Slot)                          // AsyncHandle()
    | Borrow(dst: Slot, ev: Option<Event>)          // AsyncHandle(AsyncEvent*)
    | Adopt(dst: Slot, ev: Option<Event>)           // AsyncHandle::adopt
    | MoveConstruct(dst: Slot, src: Slot)
    | MoveAssign(dst: Slot, src: Slot)
    | Post(src: Slot, dst: Slot)                    // post(), up to the call of ev->post
    | Finish(src: Slot)                             // post(), after ev->post came back
    | Apost(src: Slot, dst: Slot)
    | Destroy(src: Slot)                            // ~AsyncHandle()

  predicate Live(h: Heap, s: Slot) { s in h.slots && !s.Delivery? }

  /** The one demand on callers: adopt() takes an event made for this call. */
  predicate Legal(h: Heap, op: Op) {
    match op
    case Construct(dst) => dst.Variable? && dst !in h.slots
    case Borrow(dst, _) => dst.Variable? && dst !in h.slots
    case Adopt(dst, ev) => dst.Variable? && dst !in h.slots && (ev.Some? ==> ev.value !in h.adopted)
    case MoveConstruct(dst, src) => dst.Variable? && dst !in h.slots && Live(h, src)
    case MoveAssign(dst, src) => Live(h, dst) && Live(h, src)
    case Post(src, dst) => Live(h, src) && dst.Delivery? && dst !in h.slots
    case Finish(src) => src in h.slots && src.Delivery?
    case Apost(src, dst) => Live(h, src) && dst.Task? && dst !in h.slots
    case Destroy(src) => Live(h, src)
  }

  /** abandon(): delete an owned event, then empty the handle. */
  function Abandon(h: Heap, s: Slot): (r: Heap)
    requires s in h.slots
  {
    var x := h.slots[s];
    h.(slots := h.slots[s := EMPTY],
       deleted := if x.ac.Some? && !x.borrowed then h.deleted[x.ac.value := h.deleted[x.ac.value] + 1] else h.deleted,
       dropped := if x.ac.Some? then h.dropped[x.token := h.dropped[x.token] + 1] else h.dropped)
  }

  function Transfer(h: Heap, dst: Slot, src: Slot): (r: Heap)
    requires src in h.slots && src != dst
  {
    h.(slots := h.slots[src := EMPTY][dst := h.slots[src]])
  }

  function Make(h: Heap, dst: Slot, ev: Option<Event>, borrowed: bool): (r: Heap) {
    h.(slots := h.slots[dst := Handle(ev, borrowed, h.made)], made := h.made + 1)
  }

  function BeginPost(h: Heap, src: Slot, dst: Slot): (r: Heap)
    requires src in h.slots && src != dst
  {
    var x := h.slots[src];
    if x.ac.None? then h.(slots := h.slots[src := EMPTY])
    else Transfer(h, dst, src).(
           delivered := h.delivered[x.token := h.delivered[x.token] + 1],
           posted := if x.borrowed then h.posted else h.posted[x.ac.value := h.posted[x.ac.value] + 1])
  }

  function EndPost(h: Heap, src: Slot): (r: Heap)
    requires src in h.slots && h.slots[src].ac.Some?
  {
    var x := h.slots[src];
    h.(slots := h.slots - {src},
       deleted := if x.borrowed then h.deleted else h.deleted[x.ac.value := h.deleted[x.ac.value] + 1])
  }

  function Step(h: Heap, op: Op): (r: Heap)
    requires Legal(h, op) && (op.Finish? ==> h.slots[op.src].ac.Some?)
  {
    match op
    case Construct(dst) => h.(slots := h.slots[dst := EMPTY])
    case Borrow(dst, ev) => Make(h, dst, ev, true)
    case Adopt(dst, ev) =>
      Make(h, dst, ev, false).(adopted := if ev.Some? then h.adopted + {ev.value} else h.adopted)
    case MoveConstruct(dst, src) => Transfer(h, dst, src)
    case MoveAssign(dst, src) => if dst == src then h else Transfer(Abandon(h, dst), dst, src)
    case Post(src, dst) => BeginPost(h, src, dst)
    case Finish(src) => EndPost(h, src)
    case Apost(src, dst) => if h.slots[src].ac.None? then h else Transfer(h, dst, src)
    case Destroy(src) => Abandon(h, src).(slots := h.slots - {src})
  }

  // ---------------------------------------------------------------------------------------------
  // Invariant

  /** A construction is in one place: it sits in one slot, was delivered once, or was dropped once. */
  ghost predicate Linear(h: Heap) { OnePlace(h) && Counted(h) }

  ghost predicate OnePlace(h: Heap) {
    && (forall a, b :: a in h.slots && b in h.slots && a != b && h.slots[a].ac.Some? && h.slots[b].ac.Some? ==>
          h.slots[a].token != h.slots[b].token)
    && (forall a :: a in h.slots && a.Delivery? ==> h.slots[a].ac.Some?)
  }

  ghost predicate Counted(h: Heap) {
    && (forall a :: a in h.slots && h.slots[a].ac.Some? ==>
          && h.slots[a].token < h.made
          && h.dropped[h.slots[a].token] == 0
          && h.delivered[h.slots[a].token] == (if a.Delivery? then 1 else 0))
    && (forall t: Token :: h.delivered[t] + h.dropped[t] <= if t < h.made then 1 else 0)
  }

  /** An adopted event has one owner until it is deleted, once; no other event is deleted. */
  ghost predicate Owned(h: Heap) {
    && (forall a, b :: a in h.slots && b in h.slots && a != b && h.slots[a].IsOwner() && h.slots[b].IsOwner() ==>
          h.slots[a].ac != h.slots[b].ac)
    && (forall a :: a in h.slots && h.slots[a].IsOwner() ==>
          && h.slots[a].ac.value in h.adopted
          && h.deleted[h.slots[a].ac.value] == 0
          && h.posted[h.slots[a].ac.value] == if a.Delivery? then 1 else 0)
    && (forall e :: h.deleted[e] <= (if e in h.adopted then 1 else 0))
    && (forall e :: h.posted[e] <= (if e in h.adopted then 1 else 0))
  }

  /** No adopted event is lost: until it is deleted some place has the right to delete it. */
  ghost predicate NoneLost(h: Heap) {
    forall e :: e in h.adopted && h.deleted[e] == 0 ==> HasOwner(h, e)
  }

  ghost predicate HasOwner(h: Heap, e: Event) { exists a :: a in h.slots && h.slots[a].Owns(e) }

  ghost predicate Inv(h: Heap) { Linear(h) && Owned(h) && NoneLost(h) }

  lemma AbandonKeeps(h: Heap, s: Slot)
    requires Inv(h) && Live(h, s)
    ensures Inv(Abandon(h, s))
  {
    AbandonLinear(h, s);
    AbandonOwned(h, s);
  }

  lemma AbandonLinear(h: Heap, s: Slot)
    requires Linear(h) && Live(h, s)
    ensures Linear(Abandon(h, s))
  {
  }

  lemma AbandonOwned(h: Heap, s: Slot)
    requires Owned(h) && NoneLost(h) && Live(h, s)
    ensures Owned(Abandon(h, s)) && NoneLost(Abandon(h, s))
  {
    var r := Abandon(h, s);
    forall e | e in r.adopted && r.deleted[e] == 0
      ensures HasOwner(r, e)
    {
      var a :| a in h.slots && h.slots[a].Owns(e);
      assert r.slots[a].Owns(e);
    }
  }

  /** r and h differ only in handles that name nothing. */
  ghost predicate SameNames(h: Heap, r: Heap) {
    && r == h.(slots := r.slots)
    && (forall a :: a in h.slots && h.slots[a].ac.Some? ==> a in r.slots && r.slots[a] == h.slots[a])
    && (forall a :: a in r.slots && r.slots[a].ac.Some? ==> a in h.slots && r.slots[a] == h.slots[a])
    && (forall a :: a in r.slots && a.Delivery? ==> a in h.slots && r.slots[a] == h.slots[a])
  }

  lemma SameNamesLinear(h: Heap, r: Heap)
    requires Linear(h) && SameNames(h, r)
    ensures Linear(r)
  {
  }

  lemma SameNamesOwned(h: Heap, r: Heap)
    requires Owned(h) && SameNames(h, r)
    ensures Owned(r)
  {
  }

  /** A handle that names nothing can come and go. */
  lemma EmptyKeeps(h: Heap, r: Heap)
    requires Inv(h) && SameNames(h, r)
    ensures Inv(r)
  {
    SameNamesLinear(h, r);
    SameNamesOwned(h, r);
    forall e | e in r.adopted && r.deleted[e] == 0
      ensures HasOwner(r, e)
    {
      assert HasOwner(h, e);
      var a :| a in h.slots && h.slots[a].Owns(e);
      assert r.slots[a].Owns(e);
    }
  }

  /** r is h with the handle of src, and nothing else, moved to dst. */
  ghost predicate Moved(h: Heap, dst: Slot, src: Slot, r: Heap) {
    && Live(h, src) && src != dst && (dst in h.slots ==> h.slots[dst].ac.None? && !dst.Delivery?)
    && r.slots.Keys == h.slots.Keys + {dst}
    && r.slots[dst] == h.slots[src] && r.slots[src].ac.None?
    && r.adopted == h.adopted && r.deleted == h.deleted && r.dropped == h.dropped && r.made == h.made
    && forall a :: a in h.slots && a != dst && a != src ==> r.slots[a] == h.slots[a]
  }

  lemma MovedLinear(h: Heap, dst: Slot, src: Slot, r: Heap)
    requires Linear(h) && Moved(h, dst, src, r)
    requires if dst.Delivery? then
               h.slots[src].ac.Some? && r.delivered == h.delivered[h.slots[src].token := h.delivered[h.slots[src].token] + 1]
             else r.delivered == h.delivered
    ensures Linear(r)
  {
    hide OnePlace, Counted;
    MovedOnePlace(h, dst, src, r);
    MovedCounted(h, dst, src, r);
  }

  lemma MovedOnePlace(h: Heap, dst: Slot, src: Slot, r: Heap)
    requires OnePlace(h) && Moved(h, dst, src, r) && (dst.Delivery? ==> h.slots[src].ac.Some?)
    ensures OnePlace(r)
  {
  }

  lemma MovedCounted(h: Heap, dst: Slot, src: Slot, r: Heap)
    requires Linear(h) && Moved(h, dst, src, r)
    requires if dst.Delivery? then
               h.slots[src].ac.Some? && r.delivered == h.delivered[h.slots[src].token := h.delivered[h.slots[src].token] + 1]
             else r.delivered == h.delivered
    ensures Counted(r)
  {
  }

  lemma MovedOwned(h: Heap, dst: Slot, src: Slot, r: Heap)
    requires Owned(h) && Moved(h, dst, src, r)
    requires if dst.Delivery? && h.slots[src].IsOwner() then
               r.posted == h.posted[h.slots[src].ac.value := h.posted[h.slots[src].ac.value] + 1]
             else r.posted == h.posted
    ensures Owned(r)
  {
  }

  lemma MovedNoneLost(h: Heap, dst: Slot, src: Slot, r: Heap)
    requires NoneLost(h) && Moved(h, dst, src, r)
    ensures NoneLost(r)
  {
    forall e | e in r.adopted && r.deleted[e] == 0
      ensures HasOwner(r, e)
    {
      var a :| a in h.slots && h.slots[a].Owns(e);
      assert if a == src then r.slots[dst].Owns(e) else r.slots[a].Owns(e);
    }
  }

  /** Moving a handle to an empty place changes neither what it names nor who owns what. */
  lemma TransferKeeps(h: Heap, dst: Slot, src: Slot)
    requires Inv(h) && Live(h, src) && !dst.Delivery? && src != dst
    requires dst in h.slots ==> h.slots[dst].ac.None?
    ensures Inv(Transfer(h, dst, src))
  {
    var r := Transfer(h, dst, src);
    MovedLinear(h, dst, src, r);
    MovedOwned(h, dst, src, r);
    MovedNoneLost(h, dst, src, r);
  }

  lemma PostKeeps(h: Heap, src: Slot, dst: Slot)
    requires Inv(h) && Legal(h, Post(src, dst)) && h.slots[src].ac.Some?
    ensures Inv(BeginPost(h, src, dst))
  {
    var r := BeginPost(h, src, dst);
    MovedLinear(h, dst, src, r);
    MovedOwned(h, dst, src, r);
    MovedNoneLost(h, dst, src, r);
  }

  lemma FinishKeeps(h: Heap, src: Slot)
    requires Inv(h) && Legal(h, Finish(src))
    ensures h.slots[src].ac.Some? && Inv(EndPost(h, src))
  {
    var r := EndPost(h, src);
    forall e | e in r.adopted && r.deleted[e] == 0
      ensures HasOwner(r, e)
    {
      var a :| a in h.slots && h.slots[a].Owns(e);
      assert r.slots[a].Owns(e);
    }
  }

  lemma MakeLinear(h: Heap, dst: Slot, ev: Option<Event>, borrowed: bool)
    requires Linear(h) && dst !in h.slots && !dst.Delivery?
    ensures Linear(Make(h, dst, ev, borrowed))
  {
    assert h.delivered[h.made] + h.dropped[h.made] == 0;
  }

  lemma BorrowKeeps(h: Heap, dst: Slot, ev: Option<Event>, borrowed: bool)
    requires Inv(h) && dst !in h.slots && !dst.Delivery? && (borrowed || ev.None?)
    ensures Inv(Make(h, dst, ev, borrowed))
  {
    MakeLinear(h, dst, ev, borrowed);
    var r := Make(h, dst, ev, borrowed);
    forall e | e in r.adopted && r.deleted[e] == 0
      ensures HasOwner(r, e)
    {
      var a :| a in h.slots && h.slots[a].Owns(e);
      assert r.slots[a].Owns(e);
    }
  }

  lemma AdoptOwned(h: Heap, dst: Slot, ev: Event)
    requires Owned(h) && dst !in h.slots && !dst.Delivery? && ev !in h.adopted
    ensures Owned(Make(h, dst, Some(ev), false).(adopted := h.adopted + {ev}))
  {
    assert h.deleted[ev] == 0 && h.posted[ev] == 0;
  }

  lemma AdoptKeeps(h: Heap, dst: Slot, ev: Event)
    requires Inv(h) && dst !in h.slots && !dst.Delivery? && ev !in h.adopted
    ensures Inv(Make(h, dst, Some(ev), false).(adopted := h.adopted + {ev}))
  {
    var r := Make(h, dst, Some(ev), false).(adopted := h.adopted + {ev});
    assert Linear(r) by { MakeLinear(h, dst, Some(ev), false); }
    AdoptOwned(h, dst, ev);
    forall e | e in r.adopted && r.deleted[e] == 0
      ensures HasOwner(r, e)
    {
      if e == ev {
        assert r.slots[dst].Owns(e);
      } else {
        assert HasOwner(h, e);
        var a :| a in h.slots && h.slots[a].Owns(e);
        assert r.slots[a].Owns(e);
      }
    }
  }

  lemma StepKeeps(h: Heap, op: Op)
    requires Inv(h) && Legal(h, op)
    ensures (op.Finish? ==> h.slots[op.src].ac.Some?) && Inv(Step(h, op))
  {
    match op
    case Construct(dst) => EmptyKeeps(h, Step(h, op));
    case Borrow(dst, ev) => BorrowKeeps(h, dst, ev, true);
    case Adopt(dst, ev) =>
      if ev.Some? { AdoptKeeps(h, dst, ev.value); } else { BorrowKeeps(h, dst, ev, false); }
    case MoveConstruct(dst, src) => TransferKeeps(h, dst, src);
    case MoveAssign(dst, src) =>
      if dst != src {
        AbandonKeeps(h, dst);
        TransferKeeps(Abandon(h, dst), dst, src);
      }
    case Post(src, dst) =>
      if h.slots[src].ac.Some? { PostKeeps(h, src, dst); } else { EmptyKeeps(h, Step(h, op)); }
    case Finish(src) => FinishKeeps(h, src);
    case Apost(src, dst) =>
      if h.slots[src].ac.Some? { TransferKeeps(h, dst, src); }
    case Destroy(src) =>
      AbandonKeeps(h, src);
      EmptyKeeps(Abandon(h, src), Step(h, op));
  }

  /** A run: the states h[0], h[1], ... each one legal step after the one before. */
  ghost predicate Run(h: seq<Heap>, ops: seq<Op>) {
    && |h| == |ops| + 1 && h[0] == START
    && forall i :: 0 <= i < |ops| ==> StepsTo(h[i], ops[i], h[i + 1])
  }

  predicate StepsTo(h: Heap, op: Op, h': Heap) {
    Legal(h, op) && (op.Finish? ==> h.slots[op.src].ac.Some?) && h' == Step(h, op)
  }

  lemma {:induction false} RunKeeps(h: seq<Heap>, ops: seq<Op>, i: nat)
    requires Run(h, ops) && i <= |ops|
    ensures Inv(h[i])
  {
    if i == 0 {
      assert Inv(START);
    } else {
      RunKeeps(h, ops, i - 1);
      assert StepsTo(h[i - 1], ops[i - 1], h[i - 1 + 1]);
      StepKeeps(h[i - 1], ops[i - 1]);
    }
  }

  // ---------------------------------------------------------------------------------------------
  // Main results

  /** In every state of every run an adopted event has at most one place with the delete right, is
      posted by it at most once, is deleted at most once and never while that post() runs, and is
      deleted exactly once when no place has the right any more; any other event is never deleted. */
  lemma ExactlyOneDeleter(h: seq<Heap>, ops: seq<Op>, i: nat, e: Event)
    requires Run(h, ops) && i <= |ops|
    ensures forall a, b :: a in h[i].slots && b in h[i].slots && h[i].slots[a].Owns(e) && h[i].slots[b].Owns(e) ==> a == b
    ensures h[i].posted[e] <= 1 && h[i].deleted[e] <= 1
    ensures forall a :: a in h[i].slots && h[i].slots[a].Owns(e) ==> h[i].deleted[e] == 0
    ensures e in h[i].adopted && (forall a :: a in h[i].slots ==> !h[i].slots[a].Owns(e)) ==> h[i].deleted[e] == 1
    ensures e !in h[i].adopted ==> h[i].deleted[e] == 0
  {
    RunKeeps(h, ops, i);
  }

  /** In every state of every run a handle made from a pointer, owned or borrowed, and however
      often moved, has delivered at most once, and a delivered or dropped one sits nowhere. */
  lemma DeliveredAtMostOnce(h: seq<Heap>, ops: seq<Op>, i: nat, t: Token)
    requires Run(h, ops) && i <= |ops|
    ensures h[i].delivered[t] + h[i].dropped[t] <= 1
    ensures h[i].delivered[t] + h[i].dropped[t] == 1 ==>
              forall a :: Live(h[i], a) && h[i].slots[a].ac.Some? ==> h[i].slots[a].token != t
  {
    RunKeeps(h, ops, i);
  }

  /** A running post() can always be finished: nothing that comes in between takes its event. */
  lemma FinishAlwaysLegal(h: seq<Heap>, ops: seq<Op>, i: nat, s: Slot)
    requires Run(h, ops) && i <= |ops|
    requires s in h[i].slots && s.Delivery?
    ensures h[i].slots[s].ac.Some? && StepsTo(h[i], Finish(s), EndPost(h[i], s))
  {
    RunKeeps(h, ops, i);
  }

  // ---------------------------------------------------------------------------------------------
  // What the calls alone say

  /** A construction from a pointer. */
  datatype Made = Made(ev: Option<Event>, owned: bool)

  function Mades(ops: seq<Op>): (made: seq<Made>) {
    if ops == [] then []
    else
      var before := Mades(ops[..|ops| - 1]);
      match ops[|ops| - 1]
      case Borrow(_, ev) => before + [Made(ev, false)]
      case Adopt(_, ev) => before + [Made(ev, true)]
      case _ => before
  }

  /** Which construction, of those that name an event, is in a place: it goes where it was moved last. */
  function NameAt(ops: seq<Op>, s: Slot): (token: Option<Token>) {
    if ops == [] then None
    else
      var before := ops[..|ops| - 1];
      match ops[|ops| - 1]
      case Construct(dst) => if s == dst then None else NameAt(before, s)
      case Borrow(dst, ev) =>
        if s != dst then NameAt(before, s) else if ev.Some? then Some(|Mades(before)|) else None
      case Adopt(dst, ev) =>
        if s != dst then NameAt(before, s) else if ev.Some? then Some(|Mades(before)|) else None
      case MoveConstruct(dst, src) => if s == src then None else NameAt(before, if s == dst then src else s)
      case MoveAssign(dst, src) =>
        if dst == src then NameAt(before, s)
        else if s == src then None else NameAt(before, if s == dst then src else s)
      case Post(src, dst) => if s == src then None else NameAt(before, if s == dst then src else s)
      case Apost(src, dst) => if s == src then None else NameAt(before, if s == dst then src else s)
      case Finish(src) => if s == src then None else NameAt(before, s)
      case Destroy(src) => if s == src then None else NameAt(before, s)
  }

  function Counted1<T(==)>(m: multiset<T>, x: T): multiset<T> { m[x := m[x] + 1] }

  /** What each post() delivered. */
  function Deliveries(ops: seq<Op>): (ts: multiset<Token>) {
    if ops == [] then multiset{}
    else
      var before := ops[..|ops| - 1];
      match ops[|ops| - 1]
      case Post(src, _) =>
        if NameAt(before, src).Some? then Counted1(Deliveries(before), NameAt(before, src).value) else Deliveries(before)
      case _ => Deliveries(before)
  }

  /** The construction a call overwrites or destroys. */
  function DroppedBy(before: seq<Op>, op: Op): (token: Option<Token>) {
    match op
    case MoveAssign(dst, src) => if dst == src then None else NameAt(before, dst)
    case Destroy(src) => NameAt(before, src)
    case _ => None
  }

  function Drops(ops: seq<Op>): (ts: multiset<Token>) {
    if ops == [] then multiset{}
    else
      var before := ops[..|ops| - 1];
      var t := DroppedBy(before, ops[|ops| - 1]);
      if t.Some? then Counted1(Drops(before), t.value) else Drops(before)
  }

  /** The construction a call gets rid of: dropped, or its post() finished. */
  function EndedBy(before: seq<Op>, op: Op): (token: Option<Token>) {
    if op.Finish? then NameAt(before, op.src) else DroppedBy(before, op)
  }

  /** An owned event is deleted when its construction is got rid of. */
  function Deletions(ops: seq<Op>): (es: multiset<Event>) {
    if ops == [] then multiset{}
    else
      var before := ops[..|ops| - 1];
      var t, made := EndedBy(before, ops[|ops| - 1]), Mades(before);
      if t.Some? && t.value < |made| && made[t.value].owned && made[t.value].ev.Some?
      then Counted1(Deletions(before), made[t.value].ev.value) else Deletions(before)
  }

  ghost predicate SlotIs(h: Heap, ops: seq<Op>, s: Slot) {
    var t := NameAt(ops, s);
    && (t.Some? <==> s in h.slots && h.slots[s].ac.Some?)
    && (t.Some? ==>
        && h.slots[s].token == t.value < |Mades(ops)|
        && Mades(ops)[t.value] == Made(h.slots[s].ac, !h.slots[s].borrowed))
  }

  ghost predicate SlotsAre(h: Heap, ops: seq<Op>) { forall s :: SlotIs(h, ops, s) }

  ghost predicate Agrees(h: Heap, ops: seq<Op>) {
    && h.made == |Mades(ops)| && SlotsAre(h, ops)
    && h.delivered == Deliveries(ops) && h.dropped == Drops(ops) && h.deleted == Deletions(ops)
  }

  lemma MadeKept(h: Heap, before: seq<Op>, op: Op, r: Heap)
    requires StepsTo(h, op, r) && h.made == |Mades(before)|
    ensures r.made == |Mades(before + [op])| && Mades(before) <= Mades(before + [op])
  {
    assert (before + [op])[..|before|] == before;
  }

  lemma SlotMoved(h: Heap, before: seq<Op>, op: Op, r: Heap, s: Slot)
    requires StepsTo(h, op, r) && (op.MoveConstruct? || op.MoveAssign? || op.Post? || op.Apost?)
    requires SlotIs(h, before, s) && SlotIs(h, before, op.src) && Mades(before + [op]) == Mades(before)
    ensures SlotIs(r, before + [op], s)
  {
    hide Mades, Counted1;
    if op.MoveAssign? {
      SlotAssigned(h, before, op.dst, op.src, r, s);
    } else {
      assert (before + [op])[..|before|] == before;
    }
  }

  lemma SlotAssigned(h: Heap, before: seq<Op>, dst: Slot, src: Slot, r: Heap, s: Slot)
    requires var op := MoveAssign(dst, src); StepsTo(h, op, r) && Mades(before + [op]) == Mades(before)
    requires SlotIs(h, before, s) && SlotIs(h, before, src)
    ensures SlotIs(r, before + [MoveAssign(dst, src)], s)
  {
    hide Mades, Counted1;
    assert (before + [MoveAssign(dst, src)])[..|before|] == before;
    assert dst != src ==> r.slots == h.slots[dst := EMPTY][src := EMPTY][dst := h.slots[src]];
  }

  lemma SlotChanged(h: Heap, before: seq<Op>, op: Op, r: Heap, s: Slot)
    requires StepsTo(h, op, r) && h.made == |Mades(before)| && SlotIs(h, before, s)
    requires !op.MoveConstruct? && !op.MoveAssign? && !op.Post? && !op.Apost?
    ensures SlotIs(r, before + [op], s)
  {
    assert (before + [op])[..|before|] == before;
  }

  lemma SlotKept(h: Heap, before: seq<Op>, op: Op, r: Heap, s: Slot)
    requires StepsTo(h, op, r) && h.made == |Mades(before)| && SlotsAre(h, before)
    ensures SlotIs(r, before + [op], s)
  {
    assert SlotIs(h, before, s);
    if op.MoveConstruct? || op.MoveAssign? || op.Post? || op.Apost? {
      assert SlotIs(h, before, op.src);
      assert Mades(before + [op]) == Mades(before) by { assert (before + [op])[..|before|] == before; }
      hide SlotsAre, SlotIs, StepsTo;
      SlotMoved(h, before, op, r, s);
    } else {
      hide SlotsAre, SlotIs, StepsTo;
      SlotChanged(h, before, op, r, s);
    }
  }

  lemma DeliveriesKept(h: Heap, before: seq<Op>, op: Op, r: Heap)
    requires StepsTo(h, op, r) && h.delivered == Deliveries(before) && (op.Post? ==> SlotIs(h, before, op.src))
    ensures r.delivered == Deliveries(before + [op])
  {
    assert (before + [op])[..|before|] == before;
    hide NameAt, Mades;
  }

  lemma DropsKept(h: Heap, before: seq<Op>, op: Op, r: Heap)
    requires StepsTo(h, op, r) && h.dropped == Drops(before)
    requires (op.Destroy? ==> SlotIs(h, before, op.src)) && (op.MoveAssign? ==> SlotIs(h, before, op.dst))
    ensures r.dropped == Drops(before + [op])
  {
    assert (before + [op])[..|before|] == before;
    hide NameAt, Mades;
  }

  lemma DeletionsKept(h: Heap, before: seq<Op>, op: Op, r: Heap)
    requires StepsTo(h, op, r) && h.deleted == Deletions(before)
    requires (op.Destroy? || op.Finish? ==> SlotIs(h, before, op.src)) && (op.MoveAssign? ==> SlotIs(h, before, op.dst))
    ensures r.deleted == Deletions(before + [op])
  {
    assert (before + [op])[..|before|] == before;
    hide NameAt, Mades;
  }

  lemma CountsKept(h: Heap, before: seq<Op>, op: Op, r: Heap)
    requires StepsTo(h, op, r) && Agrees(h, before)
    ensures var ops := before + [op];
            r.delivered == Deliveries(ops) && r.dropped == Drops(ops) && r.deleted == Deletions(ops)
  {
    assert op.Post? || op.Finish? || op.Destroy? ==> SlotIs(h, before, op.src);
    assert op.MoveAssign? ==> SlotIs(h, before, op.dst);
    hide SlotsAre, StepsTo, SlotIs, NameAt, Mades, Deliveries, Drops, Deletions;
    DeliveriesKept(h, before, op, r);
    DropsKept(h, before, op, r);
    DeletionsKept(h, before, op, r);
  }

  lemma AgreesKept(h: Heap, before: seq<Op>, op: Op, r: Heap)
    requires StepsTo(h, op, r) && Agrees(h, before)
    ensures Agrees(r, before + [op])
  {
    hide StepsTo, Mades, NameAt, Deliveries, Drops, Deletions, SlotIs;
    MadeKept(h, before, op, r);
    CountsKept(h, before, op, r);
    forall s ensures SlotIs(r, before + [op], s) {
      SlotKept(h, before, op, r, s);
    }
  }

  lemma {:induction false} HistoryAt(h: seq<Heap>, ops: seq<Op>, i: nat)
    requires Run(h, ops) && i <= |ops|
    ensures Agrees(h[i], ops[..i])
  {
    if i == 0 {
      assert Agrees(START, []);
    } else {
      hide Agrees, StepsTo;
      HistoryAt(h, ops, i - 1);
      assert StepsTo(h[i - 1], ops[i - 1], h[i - 1 + 1]);
      AgreesKept(h[i - 1], ops[..i - 1], ops[i - 1], h[i]);
      assert ops[..i - 1] + [ops[i - 1]] == ops[..i];
    }
  }

  /** In every state of every run, told by its calls: which construction is where, with its event and its right to delete
      it; that exactly those posted were delivered, exactly those overwritten or destroyed were dropped; and which events
      were deleted for it. */
  lemma StateIsHistory(h: seq<Heap>, ops: seq<Op>, i: nat, s: Slot)
    requires Run(h, ops) && i <= |ops|
    ensures SlotIs(h[i], ops[..i], s)
    ensures h[i].delivered == Deliveries(ops[..i]) && h[i].dropped == Drops(ops[..i])
    ensures h[i].deleted == Deletions(ops[..i])
  {
    HistoryAt(h, ops, i);
    hide SlotIs, Run, Deliveries, Drops, Deletions;
  }

  // ---------------------------------------------------------------------------------------------
  // Inside a destructor

  /** abandon() as the code has it: the event's destructor runs while the handle still names the event. */
  function Deleting(h: Heap, s: Slot): (r: Heap)
    requires s in h.slots && h.slots[s].IsOwner()
  {
    var x := h.slots[s];
    h.(deleted := h.deleted[x.ac.value := h.deleted[x.ac.value] + 1],
       dropped := h.dropped[x.token := h.dropped[x.token] + 1])
  }

  function Emptied(h: Heap, s: Slot): (r: Heap) { h.(slots := h.slots[s := EMPTY]) }

  /** Takes from or writes to the handle in s. */
  predicate Uses(op: Op, s: Slot) {
    match op
    case MoveConstruct(_, src) => src == s
    case MoveAssign(dst, src) => dst != src && (dst == s || src == s)
    case Post(src, _) => src == s
    case Apost(src, _) => src == s
    case Destroy(src) => src == s
    case _ => false
  }

  lemma AbandonsCommute(h: Heap, s: Slot, x: Slot)
    requires s in h.slots && h.slots[s].IsOwner() && x in h.slots && x != s
    ensures Emptied(Abandon(Deleting(h, s), x), s) == Abandon(Abandon(h, s), x)
  {
    var a, b := Emptied(Abandon(Deleting(h, s), x), s), Abandon(Abandon(h, s), x);
    assert a.slots == b.slots;
    assert a.deleted == b.deleted;
    assert a.dropped == b.dropped;
  }

  lemma TransferCommutes(h: Heap, s: Slot, dst: Slot, src: Slot)
    requires src in h.slots && dst != src && dst != s && src != s
    ensures Emptied(Transfer(h, dst, src), s) == Transfer(Emptied(h, s), dst, src)
  {
    assert Emptied(Transfer(h, dst, src), s).slots == Transfer(Emptied(h, s), dst, src).slots;
  }

  lemma EmptiedTogether(h: Heap, s: Slot)
    requires s in h.slots && h.slots[s].IsOwner()
    ensures Emptied(Deleting(h, s), s) == Abandon(h, s)
  {
  }

  lemma SameLegal(h: Heap, s: Slot, op: Op)
    requires Live(h, s) && h.slots[s].IsOwner() && Legal(h, op)
    ensures Legal(Deleting(h, s), op) && Legal(Abandon(h, s), op)
    ensures op.Finish? ==> op.src != s && Deleting(h, s).slots[op.src] == Abandon(h, s).slots[op.src] == h.slots[op.src]
  {
  }

  lemma MakeCommutes(h: Heap, s: Slot, dst: Slot, ev: Option<Event>, borrowed: bool)
    requires dst != s
    ensures Emptied(Make(h, dst, ev, borrowed), s) == Make(Emptied(h, s), dst, ev, borrowed)
  {
    assert Emptied(Make(h, dst, ev, borrowed), s).slots == Make(Emptied(h, s), dst, ev, borrowed).slots;
  }

  lemma PostCommutes(h: Heap, s: Slot, src: Slot, dst: Slot)
    requires src in h.slots && dst != src && dst != s && src != s
    ensures Emptied(BeginPost(h, src, dst), s) == BeginPost(Emptied(h, s), src, dst)
  {
    if h.slots[src].ac.None? {
      assert h.slots[src := EMPTY][s := EMPTY] == h.slots[s := EMPTY][src := EMPTY];
    } else {
      TransferCommutes(h, s, dst, src);
      hide Transfer;
    }
  }

  lemma AssignCommutes(h: Heap, s: Slot, dst: Slot, src: Slot)
    requires Live(h, s) && h.slots[s].IsOwner() && dst in h.slots && src in h.slots && dst != src && dst != s && src != s
    ensures Emptied(Transfer(Abandon(Deleting(h, s), dst), dst, src), s) == Transfer(Abandon(Abandon(h, s), dst), dst, src)
  {
    AbandonsCommute(h, s, dst);
    TransferCommutes(Abandon(Deleting(h, s), dst), s, dst, src);
    hide Transfer, Emptied;
  }

  lemma DestroyCommutes(h: Heap, s: Slot, src: Slot)
    requires Live(h, s) && h.slots[s].IsOwner() && src in h.slots && src != s
    ensures var a, b := Abandon(Deleting(h, s), src), Abandon(Abandon(h, s), src);
            Emptied(a.(slots := a.slots - {src}), s) == b.(slots := b.slots - {src})
  {
    AbandonsCommute(h, s, src);
    var a := Abandon(Deleting(h, s), src);
    assert (a.slots - {src})[s := EMPTY] == a.slots[s := EMPTY] - {src};
  }

  lemma Commutes(h: Heap, s: Slot, op: Op)
    requires Live(h, s) && h.slots[s].IsOwner() && Legal(h, op) && !Uses(op, s)
    requires op.Finish? ==> h.slots[op.src].ac.Some?
    ensures Legal(Deleting(h, s), op) && Legal(Abandon(h, s), op)
    ensures Emptied(Step(Deleting(h, s), op), s) == Step(Abandon(h, s), op)
  {
    var d := Deleting(h, s);
    EmptiedTogether(h, s);
    SameLegal(h, s, op);
    hide Transfer, BeginPost, EndPost, Make, Abandon, Deleting;
    match op
    case Construct(dst) => assert d.slots[dst := EMPTY][s := EMPTY] == d.slots[s := EMPTY][dst := EMPTY];
    case Borrow(dst, ev) => MakeCommutes(d, s, dst, ev, true);
    case Adopt(dst, ev) => MakeCommutes(d, s, dst, ev, false);
    case MoveConstruct(dst, src) => TransferCommutes(d, s, dst, src);
    case MoveAssign(dst, src) =>
      if dst != src { AssignCommutes(h, s, dst, src); }
    case Post(src, dst) => PostCommutes(d, s, src, dst);
    case Finish(src) => FinishCommutes(h, s, src);
    case Apost(src, dst) =>
      if h.slots[src].ac.Some? { TransferCommutes(d, s, dst, src); }
    case Destroy(src) => DestroyCommutes(h, s, src);
  }

  lemma FinishCommutes(h: Heap, s: Slot, src: Slot)
    requires s in h.slots && h.slots[s].IsOwner() && src in h.slots && src != s && h.slots[src].ac.Some?
    ensures Emptied(EndPost(Deleting(h, s), src), s) == EndPost(Abandon(h, s), src)
  {
    var a, b := Emptied(EndPost(Deleting(h, s), src), s), EndPost(Abandon(h, s), src);
    assert a.slots == b.slots;
    assert a.deleted == b.deleted;
  }

  lemma UsedIsDeletedTwice(h: Heap, s: Slot, op: Op)
    requires Inv(h) && Live(h, s) && h.slots[s].IsOwner() && Legal(h, op) && Uses(op, s)
    ensures Legal(Deleting(h, s), op) && !Owned(Emptied(Step(Deleting(h, s), op), s))
  {
    var e, r := h.slots[s].ac.value, Emptied(Step(Deleting(h, s), op), s);
    assert r.deleted[e] >= 1;
    match op
    case MoveConstruct(dst, _) => assert r.slots[dst].Owns(e);
    case MoveAssign(dst, _) =>
      if dst != s {
        assert r.slots[dst].Owns(e);
      }
    case Post(_, dst) => assert r.slots[dst].Owns(e);
    case Apost(_, dst) => assert r.slots[dst].Owns(e);
    case Destroy(_) =>
  }

  /** What a destructor does on other handles is as good as done after it; what it does with the handle it is deleted
      through, and only that, ends in a second delete. */
  lemma AbandonReentryIff(h: Heap, s: Slot, op: Op)
    requires Inv(h) && Live(h, s) && h.slots[s].IsOwner() && Legal(h, op)
    ensures Legal(Deleting(h, s), op) && Legal(Abandon(h, s), op) && (op.Finish? ==> h.slots[op.src].ac.Some?)
    ensures Inv(Emptied(Step(Deleting(h, s), op), s)) <==> !Uses(op, s)
    ensures !Uses(op, s) ==> Emptied(Step(Deleting(h, s), op), s) == Step(Abandon(h, s), op)
  {
    hide Linear, Owned, NoneLost, Step, Deleting, Emptied, Abandon;
    StepKeeps(h, op);
    SameLegal(h, s, op);
    if Uses(op, s) {
      UsedIsDeletedTwice(h, s, op);
    } else {
      Commutes(h, s, op);
      AbandonKeeps(h, s);
      StepKeeps(Abandon(h, s), op);
    }
  }

  // ---------------------------------------------------------------------------------------------
  // The object

  /** An AsyncEvent, seen by what handles do to it. */
  class EventObject {
    const id: Event
    var posted: nat
    var deleted: nat
    ghost var byOwner: nat    // posts by the handle that owns it

    constructor (id: Event)
      ensures this.id == id && posted == deleted == byOwner == 0
    {
      this.id := id;
      posted, deleted, byOwner := 0, 0, 0;
    }
  }

  class AsyncHandle {
    var ac: EventObject?
    var borrowed: bool

    constructor ()
      ensures ac == null && borrowed
    {
      ac, borrowed := null, true;
    }

    constructor Borrow(ev: EventObject?)
      ensures ac == ev && borrowed
    {
      ac, borrowed := ev, true;
    }

    constructor Adopt(ev: EventObject?)
      ensures ac == ev && !borrowed
    {
      ac, borrowed := ev, false;
    }

    constructor Move(other: AsyncHandle)
      modifies other
      ensures ac == old(other.ac) && borrowed == old(other.borrowed)
      ensures other.ac == null && other.borrowed
    {
      ac, borrowed := other.ac, other.borrowed;
      new;
      other.ac, other.borrowed := null, true;
    }

    /** Whether the handle has the right to delete what it names. */
    predicate IsOwner()
      reads this
    {
      ac != null && !borrowed
    }

    method Abandon()
      modifies this, ac
      ensures ac == null && borrowed
      ensures old(ac) != null ==>
                && old(ac).deleted == old(ac.deleted) + (if old(borrowed) then 0 else 1)
                && old(ac).posted == old(ac.posted) && old(ac).byOwner == old(ac.byOwner)
    {
      if ac != null && !borrowed {
        ac.deleted := ac.deleted + 1;
      }
      ac, borrowed := null, true;
    }

    /** What this handle owned is deleted, what the other named moves over; from itself nothing happens. */
    method Assign(other: AsyncHandle)
      modifies this, other, ac
      ensures other != this ==>
                ac == old(other.ac) && borrowed == old(other.borrowed) && other.ac == null && other.borrowed
      ensures other == this ==> ac == old(ac) && borrowed == old(borrowed)
      ensures old(ac) != null ==>
                && old(ac).posted == old(ac.posted) && old(ac).byOwner == old(ac.byOwner)
                && old(ac).deleted == old(ac.deleted) + (if other != this && old(IsOwner()) then 1 else 0)
    {
      if this != other {
        Abandon();
        ac, borrowed := other.ac, other.borrowed;
        other.ac, other.borrowed := null, true;
      }
    }

    /** post() up to the return of ev->post(hr): the handle is empty before the event's post runs. `local` stands for
        its locals; there is none for an empty handle. */
    method BeginPost() returns (local: AsyncHandle?)
      modifies this, ac
      ensures ac == null && borrowed && (local == null <==> old(ac) == null)
      ensures local != null ==> fresh(local) && local.ac == old(ac) && local.borrowed == old(borrowed)
      ensures old(ac) != null ==>
                && old(ac).posted == old(ac.posted) + 1 && old(ac).deleted == old(ac.deleted)
                && old(ac).byOwner == old(ac.byOwner) + (if old(borrowed) then 0 else 1)
    {
      local := null;
      if ac != null {
        local := new AsyncHandle.Move(this);
        local.ac.posted := local.ac.posted + 1;
        local.ac.byOwner := local.ac.byOwner + if local.borrowed then 0 else 1;
      }
      borrowed := true;
    }

    /** The end of post(). */
    method EndPost()
      requires ac != null
      modifies ac
      ensures ac == old(ac) && ac.deleted == old(ac.deleted) + (if borrowed then 0 else 1)
      ensures ac.posted == old(ac.posted) && ac.byOwner == old(ac.byOwner)
    {
      if !borrowed {
        ac.deleted := ac.deleted + 1;
      }
    }

    /** Detach, deliver, dispose. */
    method Post()
      modifies this, ac
      ensures ac == null && borrowed
      ensures old(ac) != null ==>
                && old(ac).posted == old(ac.posted) + 1
                && old(ac).deleted == old(ac.deleted) + (if old(IsOwner()) then 1 else 0)
    {
      var local := BeginPost();
      if local != null {
        local.EndPost();
      }
    }

    /** The handle moves into the pool task; an empty one makes no task. */
    method Apost() returns (task: AsyncHandle?)
      modifies this
      ensures task == null <==> old(ac) == null
      ensures task != null ==> fresh(task) && task.ac == old(ac) && task.borrowed == old(borrowed)
      ensures ac == null && (task != null ==> borrowed) && (task == null ==> borrowed == old(borrowed))
    {
      if ac == null {
        return null;
      }
      task := new AsyncHandle.Move(this);
    }
  }

  /** The places and the counts of events after a step, as the objects show them. */
  lemma AssignEffect(h: Heap, dst: Slot, src: Slot)
    requires Legal(h, MoveAssign(dst, src))
    ensures var r, x := Step(h, MoveAssign(dst, src)), h.slots[dst];
            && r.slots == (if dst == src then h.slots else h.slots[dst := h.slots[src]][src := EMPTY])
            && r.posted == h.posted
            && r.deleted == if dst != src && x.IsOwner() then h.deleted[x.ac.value := h.deleted[x.ac.value] + 1] else h.deleted
  {
  }

  lemma PostEffect(h: Heap, src: Slot, dst: Slot)
    requires Legal(h, Post(src, dst))
    ensures var r, x := Step(h, Post(src, dst)), h.slots[src];
            && r.slots == (if x.ac.Some? then h.slots[src := EMPTY][dst := x] else h.slots[src := EMPTY])
            && r.deleted == h.deleted
            && r.posted == if x.IsOwner() then h.posted[x.ac.value := h.posted[x.ac.value] + 1] else h.posted
  {
  }

  /** The handles of a program and the events they name, and each operation carried out by their members. */
  class Program {
    var handles: map<Slot, AsyncHandle>
    var events: map<Event, EventObject>

    ghost predicate Apart()
      reads this
    {
      && (forall a, b :: a in handles && b in handles && a != b ==> handles[a] != handles[b])
      && (forall e :: e in events ==> events[e].id == e)
    }

    ghost predicate Named(x: AsyncHandle)
      reads this, x
    {
      x.ac != null ==> x.ac.id in events && events[x.ac.id] == x.ac
    }

    ghost function Contents(): set<object>
      reads this
    {
      (set s | s in handles :: handles[s] as object) + (set e | e in events :: events[e] as object)
    }

    /** An empty handle is as good as another. */
    ghost predicate Shown(x: AsyncHandle, y: Handle)
      reads this, x
    {
      && Named(x) && (y.ac.Some? <==> x.ac != null)
      && (x.ac != null ==> y.ac == Some(x.ac.id) && y.borrowed == x.borrowed)
    }

    ghost predicate Places(slots: map<Slot, Handle>)
      reads this, Contents()
    {
      handles.Keys == slots.Keys && forall s :: s in handles ==> Shown(handles[s], slots[s])
    }

    ghost predicate Counts(deleted: multiset<Event>, posted: multiset<Event>)
      reads this, Contents()
    {
      && (forall e :: e in events ==> events[e].deleted == deleted[e] && events[e].byOwner == posted[e])
      && (forall e :: e !in events ==> deleted[e] == 0 && posted[e] == 0)
    }

    /** The objects are in the state `h`. */
    ghost predicate Shows(h: Heap)
      reads this, Contents()
    {
      Apart() && Places(h.slots) && Counts(h.deleted, h.posted)
    }

    constructor ()
      ensures Shows(START)
    {
      handles, events := map[], map[];
    }

    method Destroy(src: Slot, ghost h: Heap)
      requires Shows(h) && Legal(h, Op.Destroy(src))
      modifies this, Contents()
      ensures Shows(Step(h, Op.Destroy(src)))
    {
      handles[src].Abandon();
      Remove(src, Abandon(h, src));
    }

    method MoveAssign(dst: Slot, src: Slot, ghost h: Heap)
      requires Shows(h) && Legal(h, Op.MoveAssign(dst, src))
      modifies this, Contents()
      ensures Shows(Step(h, Op.MoveAssign(dst, src)))
    {
      AssignEffect(h, dst, src);
      ghost var r := Step(h, Op.MoveAssign(dst, src));
      hide Step;
      ghost var named := handles[dst].ac;
      assert named != null ==> events[named.id] == named;
      handles[dst].Assign(handles[src]);
      forall s | s in handles
        ensures Shown(handles[s], r.slots[s])
      {
        hide Counts;
        if s != dst && s != src {
          assert Shown(handles[s], h.slots[s]);
        }
      }
      hide Shown;
      assert Counts(r.deleted, r.posted) by { hide Places; }
      hide Counts;
    }

    /** A handle in a new place. */
    method Put(dst: Slot, x: AsyncHandle, ghost h: Heap, ghost y: Handle)
      requires Shows(h) && dst !in handles && x !in handles.Values && Shown(x, y)
      modifies this`handles
      ensures Shows(h.(slots := h.slots[dst := y])) && handles == old(handles)[dst := x]
    {
      handles := handles[dst := x];
    }

    /** A handle less. */
    method Remove(src: Slot, ghost h: Heap)
      requires Shows(h) && src in handles
      modifies this`handles
      ensures Shows(h.(slots := h.slots - {src})) && handles == old(handles) - {src}
    {
      handles := handles - {src};
    }

    method MoveConstruct(dst: Slot, src: Slot, ghost h: Heap)
      requires Shows(h) && Legal(h, Op.MoveConstruct(dst, src))
      modifies this, Contents()
      ensures Shows(Step(h, Op.MoveConstruct(dst, src)))
    {
      var x := new AsyncHandle.Move(handles[src]);
      Put(dst, x, h.(slots := h.slots[src := EMPTY]), h.slots[src]);
    }

    method Post(src: Slot, dst: Slot, ghost h: Heap)
      requires Shows(h) && Legal(h, Op.Post(src, dst))
      modifies this, Contents()
      ensures Shows(Step(h, Op.Post(src, dst)))
    {
      PostEffect(h, src, dst);
      ghost var r := Step(h, Op.Post(src, dst));
      hide Step;
      var x := handles[src].BeginPost();
      assert Counts(r.deleted, r.posted) by { hide Places; }
      assert Places(h.slots[src := EMPTY]) by { hide Counts; }
      hide Counts, Places;
      if x != null {
        Put(dst, x, r.(slots := h.slots[src := EMPTY]), h.slots[src]);
      }
    }

    method Finish(src: Slot, ghost h: Heap)
      requires Shows(h) && Legal(h, Op.Finish(src)) && h.slots[src].ac.Some?
      modifies this, Contents()
      ensures Shows(Step(h, Op.Finish(src)))
    {
      handles[src].EndPost();
      Remove(src, EndPost(h, src).(slots := h.slots));
    }

    method Apost(src: Slot, dst: Slot, ghost h: Heap)
      requires Shows(h) && Legal(h, Op.Apost(src, dst))
      modifies this, Contents()
      ensures Shows(Step(h, Op.Apost(src, dst)))
    {
      var x := handles[src].Apost();
      if x != null {
        Put(dst, x, h.(slots := h.slots[src := EMPTY]), h.slots[src]);
      }
    }

    /** The event a pointer names. */
    method EventOf(ev: Option<Event>, ghost h: Heap) returns (x: EventObject?)
      requires Shows(h)
      modifies this`events
      ensures Shows(h) && handles == old(handles)
      ensures if ev.None? then x == null else x != null && x.id == ev.value && x.id in events && events[x.id] == x
    {
      if ev.None? {
        return null;
      }
      if ev.value !in events {
        var made := new EventObject(ev.value);
        events := events[ev.value := made];
      }
      x := events[ev.value];
    }

    /** AsyncHandle(). */
    method Construct(dst: Slot, ghost h: Heap)
      requires Shows(h) && Legal(h, Op.Construct(dst))
      modifies this
      ensures Shows(Step(h, Op.Construct(dst)))
    {
      var x := new AsyncHandle();
      Put(dst, x, h, EMPTY);
    }

    /** AsyncHandle(AsyncEvent*). */
    method Borrow(dst: Slot, ev: Option<Event>, ghost h: Heap)
      requires Shows(h) && Legal(h, Op.Borrow(dst, ev))
      modifies this
      ensures Shows(Step(h, Op.Borrow(dst, ev)))
    {
      var e := EventOf(ev, h);
      var x := new AsyncHandle.Borrow(e);
      Put(dst, x, h, Handle(ev, true, h.made));
    }

    /** AsyncHandle::adopt. */
    method Adopt(dst: Slot, ev: Option<Event>, ghost h: Heap)
      requires Shows(h) && Legal(h, Op.Adopt(dst, ev))
      modifies this
      ensures Shows(Step(h, Op.Adopt(dst, ev)))
    {
      var e := EventOf(ev, h);
      var x := new AsyncHandle.Adopt(e);
      Put(dst, x, h, Handle(ev, false, h.made));
    }
  }
}
