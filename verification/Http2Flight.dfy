/** Single flight of HTTP/2 handshakes (fibjs/include/HttpClient.h:297-380). Requests on any thread call
    h2_acquire; the one that creates the entry of a URL leads and later calls h2_complete or h2_fail.
    Both take the entry out of the map under the lock and post the waiters one by one outside it, so
    every other call, also one made by a waiter just woken, can come between two posts. */
module Http2Flights {

  import opened Results

  type Url = nat

  /** One call of h2_acquire and what becomes of it. */
  type Request = nat

  /** The asyncRequest that makes the call; it makes several when it retries or follows a redirect. */
  type Machine = nat

  datatype Outcome = Session(session: nat) | Failure(code: int)

  /** An H2PendingEntry; who created it is recorded beside it. */
  datatype Entry = Entry(leader: Request, waiters: seq<Request>)

  /** What a parked machine waits for: the wake of its request by the leader of the entry. */
  datatype Wait = Wait(request: Request, leader: Request)

  datatype Wake = Wake(waiter: Request, leader: Request, outcome: Outcome)

  datatype State = State(
    pending: map<Url, Entry>,                // s_h2_pending
    detached: map<Request, seq<Request>>,    // a finishing leader's entry: the waiters still to post
    machines: map<Request, Machine>,         // who made the call
    waiting: map<Machine, Wait>,             // machines parked in prepare with their ticket in an entry
    // what happened so far
    urls: map<Request, Url>,
    leads: map<Request, seq<Request>>,       // every leader and the waiters that queued behind it, in order
    outcomes: map<Request, Outcome>,         // leaders that called h2_complete or h2_fail
    woken: seq<Wake>)

  const EMPTY := State(map[], map[], map[], map[], map[], map[], map[], [])

  datatype Op =
    | Acquire(r: Request, url: Url, m: Machine)
    | Finish(r: Request, outcome: Outcome)   // the lock section of h2_complete or h2_fail
    | Post(r: Request)                       // one turn of its loop
    | Delete(r: Request)                     // the end of it

  /** A leader finishes once. A parked machine runs no state, so it neither acquires nor finishes. */
  predicate Legal(s: State, op: Op) {
    match op
    case Acquire(r, _, m) => r !in s.urls && m !in s.waiting
    case Finish(r, _) =>
      r in s.leads && r in s.urls && r !in s.outcomes && r in s.machines && s.machines[r] !in s.waiting
    case Post(r) => r in s.detached && s.detached[r] != [] && r in s.outcomes
    case Delete(r) => r in s.detached && s.detached[r] == []
  }

  function StepAcquire(s: State, r: Request, url: Url, m: Machine): (t: State) {
    var s1 := s.(urls := s.urls[r := url], machines := s.machines[r := m]);
    if url in s.pending then
      var e := s.pending[url];
      s1.(pending := s.pending[url := e.(waiters := e.waiters + [r])],
          waiting := s.waiting[m := Wait(r, e.leader)],
          leads := s.leads[e.leader := (if e.leader in s.leads then s.leads[e.leader] else []) + [r]])
    else
      s1.(pending := s.pending[url := Entry(r, [])], leads := s.leads[r := []])
  }

  /** The entry is found by its URL alone. */
  function StepFinish(s: State, r: Request, outcome: Outcome): (t: State)
    requires r in s.urls
  {
    var url := s.urls[r];
    if url in s.pending then
      s.(pending := s.pending - {url}, detached := s.detached[r := s.pending[url].waiters],
         outcomes := s.outcomes[r := outcome])
    else
      s.(outcomes := s.outcomes[r := outcome])
  }

  function StepPost(s: State, r: Request): (t: State)
    requires Legal(s, Post(r))
  {
    var w := s.detached[r][0];
    s.(detached := s.detached[r := s.detached[r][1..]],
       waiting := if w in s.machines then s.waiting - {s.machines[w]} else s.waiting,
       woken := s.woken + [Wake(w, r, s.outcomes[r])])
  }

  function Step(s: State, op: Op): (t: State)
    requires Legal(s, op)
  {
    match op
    case Acquire(r, url, m) => StepAcquire(s, r, url, m)
    case Finish(r, outcome) => StepFinish(s, r, outcome)
    case Post(r) => StepPost(s, r)
    case Delete(r) => s.(detached := s.detached - {r})
  }

  /** The waiters a leader has posted, in order. */
  function WokenBy(woken: seq<Wake>, leader: Request): seq<Request> {
    if woken == [] then []
    else
      var last := woken[|woken| - 1];
      WokenBy(woken[..|woken| - 1], leader) + if last.leader == leader then [last.waiter] else []
  }

  /** The waiters a leader still has to post. */
  function Remaining(s: State, leader: Request): seq<Request> {
    if leader in s.detached then s.detached[leader]
    else if leader !in s.outcomes && leader in s.urls && s.urls[leader] in s.pending then s.pending[s.urls[leader]].waiters
    else []
  }

  /** A leader of the URL that has not finished. */
  predicate Leading(s: State, l: Request, url: Url) {
    l in s.leads && l !in s.outcomes && l in s.urls && s.urls[l] == url
  }

  // ---------------------------------------------------------------- invariant

  /** An entry belongs to a leader of its URL that has not finished. */
  ghost predicate EntriesOwned(s: State) {
    forall u :: u in s.pending ==>
      var l := s.pending[u].leader; l in s.leads && l in s.urls && s.urls[l] == u && l !in s.outcomes
  }

  /** A leader has an entry until it finishes, and is posting only then. */
  ghost predicate LeadersEntered(s: State) {
    && (forall l :: l in s.leads && l !in s.outcomes ==>
          l in s.urls && s.urls[l] in s.pending && s.pending[s.urls[l]].leader == l)
    && (forall l :: l in s.leads ==> l in s.urls)
    && (forall l :: l in s.detached ==> l in s.outcomes)
    && (forall l :: l in s.outcomes ==> l in s.leads)
  }

  ghost predicate EntriesLed(s: State) { EntriesOwned(s) && LeadersEntered(s) }

  /** Behind every leader: posted so far, then still to post, is the order they queued in. */
  ghost predicate Conserved(s: State) {
    forall l :: l in s.leads ==> WokenBy(s.woken, l) + Remaining(s, l) == s.leads[l]
  }

  ghost predicate WakesTrue(s: State) {
    forall i :: 0 <= i < |s.woken| ==>
      s.woken[i].leader in s.outcomes && s.woken[i].outcome == s.outcomes[s.woken[i].leader]
  }

  /** A request that queued asked for the leader's URL and leads nothing. */
  ghost predicate QueuedAlike(s: State) {
    forall l, i :: l in s.leads && 0 <= i < |s.leads[l]| ==>
      s.leads[l][i] in s.urls && s.leads[l][i] !in s.leads && l in s.urls && s.urls[s.leads[l][i]] == s.urls[l]
  }

  /** A request queues at most once, and behind one leader. */
  ghost predicate QueuedApart(s: State) {
    && (forall l, i, j :: l in s.leads && 0 <= i < j < |s.leads[l]| ==> s.leads[l][i] != s.leads[l][j])
    && (forall l, m, i, j :: l in s.leads && m in s.leads && l != m && 0 <= i < |s.leads[l]| && 0 <= j < |s.leads[m]| ==>
          s.leads[l][i] != s.leads[m][j])
  }

  ghost predicate QueuedOnce(s: State) { QueuedAlike(s) && QueuedApart(s) }

  /** Every request leads or queued. */
  ghost predicate AllPlaced(s: State) {
    forall r :: r in s.urls ==> r in s.leads || exists l :: l in s.leads && r in s.leads[l]
  }

  /** The machine of `r` is parked behind `l` for it. */
  predicate ParkedFor(s: State, l: Request, r: Request) {
    r in s.machines && s.machines[r] in s.waiting && s.waiting[s.machines[r]] == Wait(r, l)
  }

  ghost predicate AllParked(s: State, l: Request, rs: seq<Request>) {
    forall i :: 0 <= i < |rs| ==> ParkedFor(s, l, rs[i])
  }

  ghost predicate AtEntry(s: State, m: Machine)
    requires m in s.waiting
  {
    var w := s.waiting[m];
    w.leader in s.leads && w.request in Remaining(s, w.leader) && w.request in s.machines && s.machines[w.request] == m
  }

  /** The parked machines are those of the waiters still to post, each for its own request. */
  ghost predicate ParkedAtEntries(s: State) {
    && s.machines.Keys == s.urls.Keys
    && (forall m :: m in s.waiting ==> AtEntry(s, m))
    && (forall l :: l in s.leads ==> AllParked(s, l, Remaining(s, l)))
  }

  ghost predicate Inv(s: State) {
    EntriesLed(s) && Conserved(s) && WakesTrue(s) && QueuedOnce(s) && AllPlaced(s) && ParkedAtEntries(s)
  }

  lemma EntriesLedKept(s: State, op: Op)
    requires Inv(s) && Legal(s, op)
    ensures EntriesLed(Step(s, op))
  {
    hide EntriesLed, Conserved, WakesTrue, QueuedOnce, AllPlaced, ParkedAtEntries;
    match op {
      case Acquire(r, url, m) => AcquireLed(s, r, url, m);
      case Finish(r, outcome) => FinishLed(s, r, outcome);
      case Post(r) => RestLed(s, StepPost(s, r));
      case Delete(r) => RestLed(s, Step(s, op));
    }
  }

  lemma AcquireLed(s: State, r: Request, url: Url, m: Machine)
    requires EntriesLed(s) && r !in s.urls
    ensures EntriesLed(StepAcquire(s, r, url, m))
  {
    AcquireOwned(s, r, url, m);
    AcquireEntered(s, r, url, m);
  }

  lemma AcquireOwned(s: State, r: Request, url: Url, m: Machine)
    requires EntriesLed(s) && r !in s.urls
    ensures EntriesOwned(StepAcquire(s, r, url, m))
  {
  }

  lemma AcquireEntered(s: State, r: Request, url: Url, m: Machine)
    requires EntriesLed(s) && r !in s.urls
    ensures LeadersEntered(StepAcquire(s, r, url, m))
  {
  }

  lemma FinishLed(s: State, r: Request, outcome: Outcome)
    requires EntriesLed(s) && r in s.leads && r in s.urls && r !in s.outcomes
    ensures EntriesLed(StepFinish(s, r, outcome))
  {
  }

  lemma RestLed(s: State, t: State)
    requires EntriesLed(s) && t.pending == s.pending && t.leads == s.leads && t.urls == s.urls
    requires t.outcomes == s.outcomes && t.detached.Keys <= s.detached.Keys
    ensures EntriesLed(t)
  {
  }

  lemma WakesTrueKept(s: State, op: Op)
    requires Inv(s) && Legal(s, op)
    ensures WakesTrue(Step(s, op))
  {
    hide Conserved, QueuedOnce, AllPlaced, ParkedAtEntries;
  }

  lemma QueuedOnceKept(s: State, op: Op)
    requires Inv(s) && Legal(s, op)
    ensures QueuedOnce(Step(s, op))
  {
    hide Conserved, WakesTrue, AllPlaced, ParkedAtEntries;
    if op.Acquire? {
      AcquireQueuesOnce(s, op.r, op.url, op.m);
    } else {
      hide EntriesLed;
      assert Step(s, op).leads == s.leads && Step(s, op).urls == s.urls;
    }
  }

  lemma AcquireQueuesOnce(s: State, r: Request, url: Url, m: Machine)
    requires EntriesLed(s) && QueuedOnce(s) && r !in s.urls
    ensures QueuedOnce(StepAcquire(s, r, url, m))
  {
    AcquireQueuesAlike(s, r, url, m);
    AcquireQueuesApart(s, r, url, m);
  }

  lemma AcquireQueuesAlike(s: State, r: Request, url: Url, m: Machine)
    requires EntriesLed(s) && QueuedAlike(s) && r !in s.urls
    ensures QueuedAlike(StepAcquire(s, r, url, m))
  {
  }

  lemma AcquireQueuesApart(s: State, r: Request, url: Url, m: Machine)
    requires EntriesLed(s) && QueuedAlike(s) && QueuedApart(s) && r !in s.urls
    ensures QueuedApart(StepAcquire(s, r, url, m))
  {
  }

  lemma AllPlacedKept(s: State, op: Op)
    requires Inv(s) && Legal(s, op)
    ensures AllPlaced(Step(s, op))
  {
    hide Conserved, WakesTrue, QueuedOnce;
    var t := Step(s, op);
    if op.Acquire? && op.url in s.pending {
      var l := s.pending[op.url].leader;
      assert t.leads[l][|t.leads[l]| - 1] == op.r;
      forall r | r in t.urls
        ensures r in t.leads || exists m :: m in t.leads && r in t.leads[m]
      {
        if r != op.r && r !in s.leads {
          var m :| m in s.leads && r in s.leads[m];
          assert r in t.leads[m];
        }
      }
    } else {
      forall r | r in t.urls
        ensures r in t.leads || exists m :: m in t.leads && r in t.leads[m]
      {
        if r in s.urls && r !in s.leads {
          var m :| m in s.leads && r in s.leads[m];
          assert m in t.leads && t.leads[m] == s.leads[m];
        }
      }
    }
  }

  lemma WokenStep(woken: seq<Wake>, w: Wake, leader: Request)
    ensures WokenBy(woken + [w], leader) == WokenBy(woken, leader) + if w.leader == leader then [w.waiter] else []
  {
    assert (woken + [w])[..|woken|] == woken;
  }

  /** Nobody is posted by a leader that has not finished. */
  lemma {:induction false} NotYetWoken(s: State, woken: seq<Wake>, leader: Request)
    requires leader !in s.outcomes && forall i :: 0 <= i < |woken| ==> woken[i].leader in s.outcomes
    ensures WokenBy(woken, leader) == []
  {
    if woken != [] {
      NotYetWoken(s, woken[..|woken| - 1], leader);
    }
  }

  /** Only the leader of the entry gains something to post. */
  lemma RemainingAfterAcquire(s: State, r: Request, url: Url, m: Machine, l: Request)
    requires EntriesLed(s) && r !in s.urls && l in StepAcquire(s, r, url, m).leads
    ensures var t := StepAcquire(s, r, url, m);
            && t.woken == s.woken
            && (l in s.leads ==>
                (Remaining(t, l) == Remaining(s, l) + [r] && t.leads[l] == s.leads[l] + [r])
                || (Remaining(t, l) == Remaining(s, l) && t.leads[l] == s.leads[l]))
            && (l !in s.leads ==> l !in s.outcomes && Remaining(t, l) == [] && t.leads[l] == [])
  {
  }

  lemma AcquireConserves(s: State, r: Request, url: Url, m: Machine, l: Request)
    requires Inv(s) && Legal(s, Acquire(r, url, m)) && l in StepAcquire(s, r, url, m).leads
    ensures var t := StepAcquire(s, r, url, m); WokenBy(t.woken, l) + Remaining(t, l) == t.leads[l]
  {
    hide QueuedOnce, AllPlaced, ParkedAtEntries, WokenBy, StepAcquire, Remaining, EntriesLed;
    RemainingAfterAcquire(s, r, url, m, l);
    if l !in s.leads {
      NotYetWoken(s, s.woken, l);
    } else {
      assert WokenBy(s.woken, l) + (Remaining(s, l) + [r]) == WokenBy(s.woken, l) + Remaining(s, l) + [r];
    }
  }

  lemma FinishConserves(s: State, r: Request, outcome: Outcome, l: Request)
    requires Inv(s) && Legal(s, Finish(r, outcome)) && l in s.leads
    ensures Remaining(StepFinish(s, r, outcome), l) == Remaining(s, l)
  {
    hide QueuedOnce, AllPlaced, WakesTrue, Conserved;
  }

  lemma PostConserves(s: State, r: Request, l: Request)
    requires Legal(s, Post(r)) && l in s.leads && WokenBy(s.woken, l) + Remaining(s, l) == s.leads[l]
    ensures var t := StepPost(s, r); WokenBy(t.woken, l) + Remaining(t, l) == t.leads[l]
  {
    hide WokenBy;
    var t := StepPost(s, r);
    WokenStep(s.woken, Wake(s.detached[r][0], r, s.outcomes[r]), l);
    if l == r {
      var d := s.detached[r];
      assert WokenBy(s.woken, l) + [d[0]] + d[1..] == WokenBy(s.woken, l) + d;
    } else {
      assert Remaining(t, l) == Remaining(s, l);
    }
  }

  lemma ConservedKept(s: State, op: Op, l: Request)
    requires Inv(s) && Legal(s, op) && l in Step(s, op).leads
    ensures WokenBy(Step(s, op).woken, l) + Remaining(Step(s, op), l) == Step(s, op).leads[l]
  {
    hide WokenBy, Remaining, EntriesLed, WakesTrue, QueuedOnce, AllPlaced, ParkedAtEntries, StepPost, StepAcquire;
    match op {
      case Acquire(r, url, m) =>
        AcquireConserves(s, r, url, m, l);
      case Finish(r, outcome) =>
        FinishConserves(s, r, outcome, l);
      case Post(r) =>
        LeadsKept(s, r);
        PostConserves(s, r, l);
      case Delete(r) =>
        DeleteConserves(s, r, l);
    }
  }

  lemma LeadsKept(s: State, r: Request)
    requires Legal(s, Post(r))
    ensures StepPost(s, r).leads == s.leads
  {
  }

  lemma AcquireRemaining(s: State, r: Request, url: Url, m: Machine, l: Request)
    requires EntriesLed(s) && r !in s.urls && l in StepAcquire(s, r, url, m).leads
    ensures Remaining(StepAcquire(s, r, url, m), l)
         == if url in s.pending && s.pending[url].leader == l then Remaining(s, l) + [r]
            else if l in s.leads then Remaining(s, l) else []
  {
    RemainingAfterAcquire(s, r, url, m, l);
  }

  lemma AcquireFields(s: State, r: Request, url: Url, m: Machine)
    requires EntriesLed(s)
    ensures var t := StepAcquire(s, r, url, m);
            && t.machines == s.machines[r := m] && t.urls.Keys == s.urls.Keys + {r}
            && t.leads.Keys == s.leads.Keys + (if url in s.pending then {} else {r})
            && t.waiting == (if url in s.pending then s.waiting[m := Wait(r, s.pending[url].leader)] else s.waiting)
            && (url in s.pending ==> s.pending[url].leader in s.leads)
  {
    EntryLeads(s, url);
    hide EntriesLed;
  }

  lemma EntryLeads(s: State, url: Url)
    requires EntriesLed(s)
    ensures url in s.pending ==> s.pending[url].leader in s.leads
  {
  }

  lemma AcquireParks(s: State, r: Request, url: Url, m: Machine)
    requires EntriesLed(s) && ParkedAtEntries(s) && r !in s.urls && m !in s.waiting
    ensures ParkedAtEntries(StepAcquire(s, r, url, m))
  {
    hide Remaining, StepAcquire, EntriesLed;
    var t := StepAcquire(s, r, url, m);
    AcquireFields(s, r, url, m);
    forall l | l in t.leads
      ensures AllParked(t, l, Remaining(t, l))
    {
      AcquireRemaining(s, r, url, m, l);
    }
    forall k | k in t.waiting
      ensures AtEntry(t, k)
    {
      AcquireRemaining(s, r, url, m, t.waiting[k].leader);
      assert k in s.waiting ==> AtEntry(s, k);
    }
  }

  lemma PostRemaining(s: State, l: Request, k: Request)
    requires Legal(s, Post(l))
    ensures Remaining(s, l) == s.detached[l]
    ensures Remaining(StepPost(s, l), k) == if k == l then s.detached[l][1..] else Remaining(s, k)
  {
  }

  lemma PostUnparks(s: State, l: Request)
    requires Conserved(s) && QueuedOnce(s) && ParkedAtEntries(s) && Legal(s, Post(l)) && l in s.leads
    ensures ParkedAtEntries(StepPost(s, l))
  {
    hide Conserved, QueuedOnce, Remaining;
    var t := StepPost(s, l);
    var q := s.detached[l];
    RemainingDistinct(s, l);
    PostRemaining(s, l, l);
    assert ParkedFor(s, l, q[0]);
    forall k | k in t.leads
      ensures AllParked(t, k, Remaining(t, k))
    {
      PostRemaining(s, l, k);
      assert AllParked(s, k, Remaining(s, k));
      assert k == l ==> forall i :: 0 <= i < |q| - 1 ==> q[1..][i] == q[i + 1];
    }
    forall m | m in t.waiting
      ensures AtEntry(t, m)
    {
      assert AtEntry(s, m);
      PostRemaining(s, l, s.waiting[m].leader);
      assert q == [q[0]] + q[1..];
    }
  }

  lemma RemainingDistinct(s: State, l: Request)
    requires Conserved(s) && QueuedOnce(s) && l in s.leads
    ensures forall i, j :: 0 <= i < j < |Remaining(s, l)| ==> Remaining(s, l)[i] != Remaining(s, l)[j]
  {
    var n := |WokenBy(s.woken, l)|;
    assert forall i :: 0 <= i < |Remaining(s, l)| ==> Remaining(s, l)[i] == s.leads[l][n + i];
  }

  lemma ParkedKept(s: State, op: Op)
    requires Inv(s) && Legal(s, op)
    ensures ParkedAtEntries(Step(s, op))
  {
    hide Conserved, WakesTrue, QueuedOnce, AllPlaced, AllParked, Remaining;
    match op {
      case Acquire(r, url, m) =>
        AcquireParks(s, r, url, m);
      case Post(l) =>
        PostUnparks(s, l);
      case Finish(r, outcome) =>
        forall l | l in s.leads
          ensures Remaining(Step(s, op), l) == Remaining(s, l)
        {
          FinishConserves(s, r, outcome, l);
        }
        SameParked(s, Step(s, op));
      case Delete(r) =>
        forall l | l in s.leads
          ensures Remaining(Step(s, op), l) == Remaining(s, l)
        {
          DeleteConserves(s, r, l);
        }
        SameParked(s, Step(s, op));
    }
  }

  lemma DeleteConserves(s: State, r: Request, l: Request)
    requires EntriesLed(s) && Legal(s, Delete(r)) && l in s.leads
    ensures Remaining(Step(s, Delete(r)), l) == Remaining(s, l)
  {
  }

  lemma SameParked(s: State, t: State)
    requires ParkedAtEntries(s) && t.machines == s.machines && t.waiting == s.waiting && t.leads == s.leads
    requires t.urls == s.urls && forall l :: l in s.leads ==> Remaining(t, l) == Remaining(s, l)
    ensures ParkedAtEntries(t)
  {
    hide Remaining;
    assert forall l :: l in s.leads ==> AllParked(s, l, Remaining(s, l));
    assert forall m :: m in s.waiting ==> AtEntry(s, m);
  }

  lemma StepKeeps(s: State, op: Op)
    requires Inv(s) && Legal(s, op)
    ensures Inv(Step(s, op))
  {
    hide EntriesLed, Conserved, WakesTrue, QueuedOnce, AllPlaced, ParkedAtEntries, Step;
    EntriesLedKept(s, op);
    WakesTrueKept(s, op);
    QueuedOnceKept(s, op);
    AllPlacedKept(s, op);
    ParkedKept(s, op);
    ConservedAll(s, op);
  }

  lemma ConservedAll(s: State, op: Op)
    requires Inv(s) && Legal(s, op)
    ensures Conserved(Step(s, op))
  {
    forall l | l in Step(s, op).leads
      ensures WokenBy(Step(s, op).woken, l) + Remaining(Step(s, op), l) == Step(s, op).leads[l]
    {
      ConservedKept(s, op, l);
    }
  }

  // ---------------------------------------------------------------- runs

  ghost predicate LegalRun(s: State, ops: seq<Op>)
    decreases |ops|
  {
    ops != [] ==> Legal(s, ops[0]) && LegalRun(Step(s, ops[0]), ops[1..])
  }

  ghost function Run(s: State, ops: seq<Op>): (t: State)
    requires LegalRun(s, ops)
    decreases |ops|
  {
    if ops == [] then s else Run(Step(s, ops[0]), ops[1..])
  }

  ghost predicate Reachable(s: State) {
    exists ops :: LegalRun(EMPTY, ops) && Run(EMPTY, ops) == s
  }

  lemma {:induction false} RunKeeps(s: State, ops: seq<Op>)
    requires Inv(s) && LegalRun(s, ops)
    ensures Inv(Run(s, ops))
    decreases |ops|
  {
    hide Inv, Step, Legal;
    if ops != [] {
      StepKeeps(s, ops[0]);
      RunKeeps(Step(s, ops[0]), ops[1..]);
    }
  }

  lemma EmptyInv(s: State)
    requires s == EMPTY
    ensures Inv(s)
  {
  }

  lemma ReachableInv(s: State)
    requires Reachable(s)
    ensures Inv(s)
  {
    EmptyInv(EMPTY);
    hide Inv, LegalRun, Run;
    var ops :| LegalRun(EMPTY, ops) && Run(EMPTY, ops) == s;
    RunKeeps(EMPTY, ops);
  }

  /** At any moment a URL has at most one leader that has not finished, and it has an entry exactly while it has one. */
  lemma OneLeaderPerUrl(s: State, url: Url)
    requires Reachable(s)
    ensures forall l, m :: Leading(s, l, url) && Leading(s, m, url) ==> l == m
    ensures url in s.pending <==> exists l :: Leading(s, l, url)
  {
    ReachableInv(s);
    if url in s.pending {
      assert Leading(s, s.pending[url].leader, url);
    }
  }

  /** A request that does not lead queues on the entry of a leader that has not finished. */
  lemma QueuesBehindLiveLeader(s: State, r: Request, url: Url, m: Machine)
    requires Reachable(s) && Legal(s, Acquire(r, url, m))
    ensures var t := Step(s, Acquire(r, url, m));
            (r in t.leads && url !in s.pending && t.leads[r] == [])
            || (url in s.pending && var l := s.pending[url].leader;
                l in s.leads && l !in s.outcomes && t.leads[l] == s.leads[l] + [r]
                && t.pending[url].waiters == s.pending[url].waiters + [r])
  {
    ReachableInv(s);
  }

  /** The waiters posted by a leader are, in the order they queued and once each, a prefix of those that queued
      behind it; each is told that leader's outcome; and when the leader is through they are all of them. */
  lemma WaitersWokenInOrder(s: State, l: Request)
    requires Reachable(s) && l in s.leads
    ensures WokenBy(s.woken, l) <= s.leads[l]
    ensures forall i, j :: 0 <= i < j < |s.leads[l]| ==> s.leads[l][i] != s.leads[l][j]
    ensures l !in s.outcomes ==> WokenBy(s.woken, l) == []
    ensures l in s.outcomes && l !in s.detached ==> WokenBy(s.woken, l) == s.leads[l]
    ensures forall i :: 0 <= i < |s.woken| && s.woken[i].leader == l ==>
              l in s.outcomes && s.woken[i].outcome == s.outcomes[l]
  {
    ReachableInv(s);
    if l !in s.outcomes {
      NotYetWoken(s, s.woken, l);
    }
  }

  lemma {:induction false} WokenByHas(woken: seq<Wake>, i: nat)
    requires i < |woken|
    ensures woken[i].waiter in WokenBy(woken, woken[i].leader)
  {
    if i < |woken| - 1 {
      WokenByHas(woken[..|woken| - 1], i);
    }
  }

  lemma {:induction false} WokenByFrom(woken: seq<Wake>, l: Request, w: Request) returns (i: nat)
    requires w in WokenBy(woken, l)
    ensures i < |woken| && woken[i].waiter == w && woken[i].leader == l
  {
    var rest, last := woken[..|woken| - 1], woken[|woken| - 1];
    if w in WokenBy(rest, l) {
      i := WokenByFrom(rest, l, w);
    } else {
      i := |woken| - 1;
    }
  }

  /** When every leader has finished and no loop is under way, every request led or was woken. */
  lemma NobodyLeftWaiting(s: State, r: Request)
    requires Reachable(s) && r in s.urls
    requires s.detached == map[] && forall l :: l in s.leads ==> l in s.outcomes
    ensures r in s.leads || exists i :: 0 <= i < |s.woken| && s.woken[i].waiter == r
  {
    ReachableInv(s);
    if r !in s.leads {
      var l :| l in s.leads && r in s.leads[l];
      WaitersWokenInOrder(s, l);
      var i := WokenByFrom(s.woken, l, r);
    }
  }

  /** Nobody is woken twice. */
  lemma WokenAtMostOnce(s: State, i: nat, j: nat)
    requires Reachable(s) && i < j < |s.woken|
    ensures s.woken[i].waiter != s.woken[j].waiter
  {
    ReachableInv(s);
    var a, b := s.woken[i].leader, s.woken[j].leader;
    WaitersWokenInOrder(s, a);
    WaitersWokenInOrder(s, b);
    if a == b {
      var p, q := TwiceInWokenBy(s.woken, i, j);
    } else {
      WokenByHas(s.woken, i);
      WokenByHas(s.woken, j);
      assert s.woken[i].waiter in s.leads[a] && s.woken[j].waiter in s.leads[b];
    }
  }

  /** Two wakes by one leader stand at two places of its list. */
  lemma {:induction false} TwiceInWokenBy(woken: seq<Wake>, i: nat, j: nat) returns (p: nat, q: nat)
    requires i < j < |woken| && woken[i].leader == woken[j].leader
    ensures p < q < |WokenBy(woken, woken[i].leader)|
    ensures WokenBy(woken, woken[i].leader)[p] == woken[i].waiter && WokenBy(woken, woken[i].leader)[q] == woken[j].waiter
  {
    var l, rest := woken[i].leader, woken[..|woken| - 1];
    if j < |woken| - 1 {
      p, q := TwiceInWokenBy(rest, i, j);
    } else {
      WokenByHas(rest, i);
      p :| p < |WokenBy(rest, l)| && WokenBy(rest, l)[p] == woken[i].waiter;
      q := |WokenBy(rest, l)|;
    }
  }

  // ---------------------------------------------------------------- what the calls alone say

  /** Who leads a URL now: the first to acquire it since the last leader finished. */
  function LeaderOf(ops: seq<Op>, url: Url): (l: Option<Request>) {
    if ops == [] then None
    else
      var before := LeaderOf(ops[..|ops| - 1], url);
      match ops[|ops| - 1]
      case Acquire(r, u, _) => if u == url && before.None? then Some(r) else before
      case Finish(r, _) => if before == Some(r) then None else before
      case _ => before
  }

  function UrlsOf(ops: seq<Op>): (urls: map<Request, Url>) {
    if ops == [] then map[]
    else
      var before := UrlsOf(ops[..|ops| - 1]);
      match ops[|ops| - 1] case Acquire(r, u, _) => before[r := u] case _ => before
  }

  function MachinesOf(ops: seq<Op>): (machines: map<Request, Machine>) {
    if ops == [] then map[]
    else
      var before := MachinesOf(ops[..|ops| - 1]);
      match ops[|ops| - 1] case Acquire(r, _, m) => before[r := m] case _ => before
  }

  /** What each leader's h2_complete or h2_fail was called with. */
  function OutcomesOf(ops: seq<Op>): (outcomes: map<Request, Outcome>)
    ensures forall l :: l in outcomes ==> Finish(l, outcomes[l]) in ops
  {
    if ops == [] then map[]
    else
      var before := OutcomesOf(ops[..|ops| - 1]);
      assert forall op :: op in ops[..|ops| - 1] ==> op in ops;
      match ops[|ops| - 1] case Finish(r, o) => before[r := o] case _ => before
  }

  /** Every leader, and who acquired its URL while it led. */
  function LeadsOf(ops: seq<Op>): (leads: map<Request, seq<Request>>) {
    if ops == [] then map[]
    else
      var before := LeadsOf(ops[..|ops| - 1]);
      match ops[|ops| - 1]
      case Acquire(r, u, _) =>
        (match LeaderOf(ops[..|ops| - 1], u)
         case None => before[r := []]
         case Some(l) => before[l := (if l in before then before[l] else []) + [r]])
      case _ => before
  }

  function PostsOf(ops: seq<Op>, l: Request): (n: nat) {
    if ops == [] then 0 else PostsOf(ops[..|ops| - 1], l) + if ops[|ops| - 1] == Post(l) then 1 else 0
  }

  ghost predicate Agrees(s: State, ops: seq<Op>) {
    && s.urls == UrlsOf(ops) && s.outcomes == OutcomesOf(ops) && s.leads == LeadsOf(ops)
    && s.machines == MachinesOf(ops)
    && (forall u :: LeaderOf(ops, u) == if u in s.pending then Some(s.pending[u].leader) else None)
    && (forall l :: |WokenBy(s.woken, l)| == PostsOf(ops, l))
  }

  lemma {:induction false} RunLast(s: State, ops: seq<Op>) returns (mid: State)
    requires LegalRun(s, ops) && ops != []
    ensures LegalRun(s, ops[..|ops| - 1]) && mid == Run(s, ops[..|ops| - 1])
    ensures Legal(mid, ops[|ops| - 1]) && Run(s, ops) == Step(mid, ops[|ops| - 1])
    decreases |ops|
  {
    hide Step, Legal;
    if |ops| == 1 {
      mid := s;
      assert ops[1..] == [];
    } else {
      mid := RunLast(Step(s, ops[0]), ops[1..]);
      assert ops[1..][..|ops| - 2] == ops[..|ops| - 1][1..];
    }
  }

  lemma LeadersAgree(s: State, before: seq<Op>, op: Op, u: Url)
    requires EntriesLed(s) && Legal(s, op)
    requires LeaderOf(before, u) == if u in s.pending then Some(s.pending[u].leader) else None
    ensures var r := Step(s, op);
            LeaderOf(before + [op], u) == if u in r.pending then Some(r.pending[u].leader) else None
  {
    assert (before + [op])[..|before|] == before;
  }

  lemma UrlsAgree(s: State, before: seq<Op>, op: Op)
    requires Legal(s, op) && s.urls == UrlsOf(before)
    ensures Step(s, op).urls == UrlsOf(before + [op])
  {
    assert (before + [op])[..|before|] == before;
  }

  lemma MachinesAgree(s: State, before: seq<Op>, op: Op)
    requires Legal(s, op) && s.machines == MachinesOf(before)
    ensures Step(s, op).machines == MachinesOf(before + [op])
  {
    assert (before + [op])[..|before|] == before;
  }

  lemma OutcomesAgree(s: State, before: seq<Op>, op: Op)
    requires Legal(s, op) && s.outcomes == OutcomesOf(before)
    ensures Step(s, op).outcomes == OutcomesOf(before + [op])
  {
    assert (before + [op])[..|before|] == before;
  }

  lemma LeadsAgree(s: State, before: seq<Op>, op: Op)
    requires Legal(s, op) && s.leads == LeadsOf(before)
    requires forall u :: LeaderOf(before, u) == if u in s.pending then Some(s.pending[u].leader) else None
    ensures Step(s, op).leads == LeadsOf(before + [op])
  {
    assert (before + [op])[..|before|] == before;
    hide LeaderOf;
    if op.Acquire? {
      assert LeaderOf(before, op.url) == if op.url in s.pending then Some(s.pending[op.url].leader) else None;
    } else {
      assert Step(s, op).leads == s.leads;
    }
  }

  lemma PostsAgree(s: State, before: seq<Op>, op: Op, l: Request)
    requires Legal(s, op) && |WokenBy(s.woken, l)| == PostsOf(before, l)
    ensures |WokenBy(Step(s, op).woken, l)| == PostsOf(before + [op], l)
  {
    assert (before + [op])[..|before|] == before;
    if op.Post? {
      WokenStep(s.woken, Wake(s.detached[op.r][0], op.r, s.outcomes[op.r]), l);
    }
  }

  lemma AgreesKept(s: State, before: seq<Op>, op: Op)
    requires EntriesLed(s) && Agrees(s, before) && Legal(s, op)
    ensures Agrees(Step(s, op), before + [op])
  {
    hide EntriesLed, Step, Legal, LeaderOf, UrlsOf, MachinesOf, OutcomesOf, LeadsOf, PostsOf, WokenBy;
    UrlsAgree(s, before, op);
    MachinesAgree(s, before, op);
    OutcomesAgree(s, before, op);
    LeadsAgree(s, before, op);
    var r, ops := Step(s, op), before + [op];
    forall u ensures LeaderOf(ops, u) == if u in r.pending then Some(r.pending[u].leader) else None {
      LeadersAgree(s, before, op, u);
    }
    forall l ensures |WokenBy(r.woken, l)| == PostsOf(ops, l) {
      PostsAgree(s, before, op, l);
    }
  }

  lemma {:induction false} HistoryFrom(s0: State, ops: seq<Op>, s: State)
    requires Inv(s0) && Agrees(s0, []) && LegalRun(s0, ops) && s == Run(s0, ops)
    ensures Inv(s) && Agrees(s, ops)
    decreases |ops|
  {
    hide Agrees, Inv, Step, Legal;
    RunKeeps(s0, ops);
    if ops != [] {
      hide Run, LegalRun;
      var n := |ops| - 1;
      var mid := RunLast(s0, ops);
      HistoryFrom(s0, ops[..n], mid);
      InvLed(mid);
      AgreesKept(mid, ops[..n], ops[n]);
      assert ops[..n] + [ops[n]] == ops;
    }
  }

  lemma StateIsHistory(s0: State, ops: seq<Op>)
    requires s0 == EMPTY && LegalRun(s0, ops)
    ensures Inv(Run(s0, ops)) && Agrees(Run(s0, ops), ops)
  {
    EmptyInv(s0);
    EmptyAgrees(s0);
    hide Agrees, Inv, Step, Legal, Run, LegalRun;
    HistoryFrom(s0, ops, Run(s0, ops));
  }

  lemma InvLed(s: State)
    requires Inv(s)
    ensures EntriesLed(s)
  {
  }

  lemma EmptyAgrees(s: State)
    requires s == EMPTY
    ensures Agrees(s, [])
  {
  }

  /** Every run, told by its calls: whoever acquires a URL that has a leader queues behind it; every wake tells what its
      leader's h2_complete or h2_fail was called with; and the i-th post of a leader wakes the i-th behind it. */
  lemma WakesFollowCalls(ops: seq<Op>, s: State)
    requires LegalRun(EMPTY, ops) && s == Run(EMPTY, ops)
    ensures s.leads == LeadsOf(ops) && s.outcomes == OutcomesOf(ops)
    ensures s.urls == UrlsOf(ops) && s.machines == MachinesOf(ops)
    ensures forall u :: u in s.pending <==> LeaderOf(ops, u).Some?
    ensures forall i :: 0 <= i < |s.woken| ==> Finish(s.woken[i].leader, s.woken[i].outcome) in ops
    ensures forall l :: l in LeadsOf(ops) ==>
              PostsOf(ops, l) <= |LeadsOf(ops)[l]| && WokenBy(s.woken, l) == LeadsOf(ops)[l][..PostsOf(ops, l)]
  {
    StateIsHistory(EMPTY, ops);
    hide EntriesLed, QueuedOnce, AllPlaced, ParkedAtEntries, LegalRun, Run, WokenBy, PostsOf, LeadsOf, Remaining;
    forall l | l in s.leads
      ensures PostsOf(ops, l) <= |s.leads[l]| && WokenBy(s.woken, l) == s.leads[l][..PostsOf(ops, l)]
    {
      assert WokenBy(s.woken, l) + Remaining(s, l) == s.leads[l];
    }
  }

  // ---------------------------------------------------------------- machines that wait for each other

  /** Following the leaders a parked machine waits for leads, in at most n hops, to one that can go on: a machine that
      is not parked, or a leader that is posting. */
  ghost predicate CanRun(s: State, m: Machine, n: nat)
    decreases n
  {
    m in s.waiting ==>
      var l := s.waiting[m].leader;
      l in s.outcomes || (n > 0 && l in s.machines && CanRun(s, s.machines[l], n - 1))
  }

  /** A set of parked machines whose leaders have not finished and belong to the set. */
  ghost predicate StuckSet(s: State, ms: set<Machine>) {
    forall m :: m in ms ==>
      && m in s.waiting
      && var l := s.waiting[m].leader; l in s.leads && l !in s.outcomes && l in s.machines && s.machines[l] in ms
  }

  lemma StuckStays(s: State, ms: set<Machine>, op: Op)
    requires Inv(s) && StuckSet(s, ms) && Legal(s, op)
    ensures StuckSet(Step(s, op), ms) && forall m :: m in ms ==> Step(s, op).waiting[m] == s.waiting[m]
  {
    hide Inv, StuckSet;
    match op {
      case Acquire(r, url, m) =>
        FreshRequest(s, r);
        StuckWhenAcquired(s, ms, r, url, m);
      case Finish(r, outcome) => StuckWhenFinished(s, ms, r, outcome);
      case Post(l) => StuckWhenPosted(s, ms, l);
      case Delete(r) =>
        StuckWaits(s, ms);
        StuckAlike(s, ms, Step(s, op));
    }
  }

  lemma StuckAlike(s: State, ms: set<Machine>, t: State)
    requires StuckSet(s, ms) && forall k :: k in ms ==> k in t.waiting && t.waiting[k] == s.waiting[k]
    requires forall l :: l in s.leads ==> l in t.leads
    requires forall l :: l in s.machines ==> l in t.machines && t.machines[l] == s.machines[l]
    requires forall k :: k in ms ==> s.waiting[k].leader !in t.outcomes
    ensures StuckSet(t, ms)
  {
  }

  lemma StuckWaits(s: State, ms: set<Machine>)
    requires StuckSet(s, ms)
    ensures forall k :: k in ms ==> k in s.waiting && s.waiting[k].leader !in s.outcomes
  {
  }

  lemma StuckWhenAcquired(s: State, ms: set<Machine>, r: Request, url: Url, m: Machine)
    requires EntriesLed(s) && StuckSet(s, ms) && r !in s.machines && m !in s.waiting
    ensures var t := StepAcquire(s, r, url, m);
            StuckSet(t, ms) && forall k :: k in ms ==> k in s.waiting && t.waiting[k] == s.waiting[k]
  {
    hide StuckSet, StepAcquire, EntriesLed;
    StuckWaits(s, ms);
    AcquireFields(s, r, url, m);
    AcquireOutcomes(s, r, url, m);
    StuckAlike(s, ms, StepAcquire(s, r, url, m));
  }

  lemma FreshRequest(s: State, r: Request)
    requires Inv(s) && r !in s.urls
    ensures EntriesLed(s) && r !in s.machines
  {
    hide EntriesLed, Conserved, WakesTrue, QueuedOnce, AllPlaced;
  }

  lemma AcquireOutcomes(s: State, r: Request, url: Url, m: Machine)
    ensures StepAcquire(s, r, url, m).outcomes == s.outcomes && StepAcquire(s, r, url, m).woken == s.woken
  {
  }

  lemma StuckWhenFinished(s: State, ms: set<Machine>, r: Request, outcome: Outcome)
    requires StuckSet(s, ms) && Legal(s, Finish(r, outcome))
    ensures var t := StepFinish(s, r, outcome);
            StuckSet(t, ms) && forall k :: k in ms ==> k in s.waiting && t.waiting[k] == s.waiting[k]
  {
    assert forall k :: k in ms ==> k in s.waiting && s.waiting[k].leader != r && s.waiting[k].leader !in s.outcomes;
    hide StuckSet;
    StuckAlike(s, ms, StepFinish(s, r, outcome));
  }

  /** The machine a post wakes waited for a leader that has finished. */
  lemma StuckWhenPosted(s: State, ms: set<Machine>, l: Request)
    requires Inv(s) && StuckSet(s, ms) && Legal(s, Post(l))
    ensures var t := StepPost(s, l);
            StuckSet(t, ms) && forall k :: k in ms ==> k in s.waiting && t.waiting[k] == s.waiting[k]
  {
    hide Conserved, WakesTrue, QueuedOnce, AllPlaced, EntriesOwned, AtEntry, StepPost, Remaining;
    PostFields(s, l);
    PostRemaining(s, l, l);
    assert AllParked(s, l, Remaining(s, l)) && ParkedFor(s, l, s.detached[l][0]);
  }

  lemma {:induction false} StuckForEver(s: State, ms: set<Machine>, ops: seq<Op>)
    requires Inv(s) && StuckSet(s, ms) && LegalRun(s, ops)
    ensures StuckSet(Run(s, ops), ms) && Inv(Run(s, ops))
    ensures forall m :: m in ms ==> m in s.waiting && Run(s, ops).waiting[m] == s.waiting[m]
    decreases |ops|
  {
    hide Inv, Step, Legal;
    if ops != [] {
      StuckStays(s, ms, ops[0]);
      StepKeeps(s, ops[0]);
      StuckForEver(Step(s, ops[0]), ms, ops[1..]);
    }
  }

  /** The machines from which no chain of leaders reaches one that can go on. */
  ghost function Stuck(s: State): (ms: set<Machine>) {
    set m | m in s.waiting.Keys && forall n: nat :: !CanRun(s, m, n)
  }

  lemma StuckIsStuckSet(s: State)
    requires Inv(s)
    ensures StuckSet(s, Stuck(s))
  {
    forall m | m in Stuck(s)
      ensures var l := s.waiting[m].leader; l in s.leads && l !in s.outcomes && l in s.machines && s.machines[l] in Stuck(s)
    {
      var l := s.waiting[m].leader;
      assert AtEntry(s, m);
      assert !CanRun(s, m, 0);
      assert l in s.urls;
      var k := s.machines[l];
      forall n: nat
        ensures !CanRun(s, k, n)
      {
        assert !CanRun(s, m, n + 1);
      }
      assert !CanRun(s, k, 0);
    }
  }

  lemma After(s: State, op: Op, ops: seq<Op>)
    requires Legal(s, op) && LegalRun(Step(s, op), ops)
    ensures LegalRun(s, [op] + ops) && Run(s, [op] + ops) == Run(Step(s, op), ops)
  {
    assert ([op] + ops)[1..] == ops;
  }

  lemma {:induction false} RunThen(s: State, ops: seq<Op>, more: seq<Op>)
    requires LegalRun(s, ops) && LegalRun(Run(s, ops), more)
    ensures LegalRun(s, ops + more) && Run(s, ops + more) == Run(Run(s, ops), more)
    decreases |ops|
  {
    hide Legal, Step;
    if ops == [] {
      assert ops + more == more;
    } else {
      RunThen(Step(s, ops[0]), ops[1..], more);
      After(s, ops[0], ops[1..] + more);
      assert [ops[0]] + (ops[1..] + more) == ops + more;
    }
  }

  predicate NoneAcquires(ops: seq<Op>) { forall i :: 0 <= i < |ops| ==> !ops[i].Acquire? }

  /** Without new calls nobody parks anew. */
  lemma {:induction false} OnlyFewerWait(s: State, ops: seq<Op>)
    requires Inv(s) && LegalRun(s, ops) && NoneAcquires(ops)
    ensures Inv(Run(s, ops)) && Run(s, ops).machines == s.machines
    ensures forall m :: m in Run(s, ops).waiting ==> m in s.waiting && Run(s, ops).waiting[m] == s.waiting[m]
    decreases |ops|
  {
    hide Inv;
    if ops != [] {
      StepKeeps(s, ops[0]);
      if ops[0].Post? {
        PostFields(s, ops[0].r);
      }
      assert NoneAcquires(ops[1..]);
      OnlyFewerWait(Step(s, ops[0]), ops[1..]);
    }
  }

  /** A leader that is posting gets to each of its waiters. */
  lemma {:induction false} PostsUntil(s: State, m: Machine) returns (ops: seq<Op>)
    requires Inv(s) && m in s.waiting && s.waiting[m].leader in s.detached && s.waiting[m].leader in s.outcomes
    ensures LegalRun(s, ops) && NoneAcquires(ops) && m !in Run(s, ops).waiting
    decreases |s.detached[s.waiting[m].leader]|
  {
    hide Conserved, WakesTrue, QueuedOnce, AllPlaced, LeadersEntered, EntriesOwned;
    var l := s.waiting[m].leader;
    assert AtEntry(s, m);
    assert Remaining(s, l) == s.detached[l];
    StepKeeps(s, Post(l));
    PostFields(s, l);
    var t := Step(s, Post(l));
    if m in t.waiting {
      ops := PostsUntil(t, m);
    } else {
      ops := [];
    }
    After(s, Post(l), ops);
    ops := [Post(l)] + ops;
  }

  /** The leader of a parked machine that can finish, or has, wakes it. */
  lemma FinishAndPost(s: State, m: Machine) returns (ops: seq<Op>)
    requires Inv(s) && m in s.waiting
    requires var l := s.waiting[m].leader; l in s.outcomes || (l in s.machines && s.machines[l] !in s.waiting)
    ensures LegalRun(s, ops) && NoneAcquires(ops) && m !in Run(s, ops).waiting
  {
    hide Conserved, WakesTrue, QueuedOnce, AllPlaced, AllParked, LegalRun, Run;
    var l := s.waiting[m].leader;
    assert AtEntry(s, m);
    if l in s.outcomes {
      ops := PostsUntil(s, m);
    } else {
      var op := Finish(l, Failure(0));
      StepKeeps(s, op);
      FinishFields(s, l, Failure(0));
      hide Inv, Step;
      ops := PostsUntil(Step(s, op), m);
      After(s, op, ops);
      ops := [op] + ops;
    }
  }

  lemma FinishFields(s: State, l: Request, outcome: Outcome)
    requires EntriesLed(s) && Legal(s, Finish(l, outcome))
    ensures var t := Step(s, Finish(l, outcome));
            l in t.outcomes && l in t.detached && t.waiting == s.waiting && t.machines == s.machines
  {
  }

  lemma {:induction false} MakeRun(s: State, m: Machine, n: nat) returns (ops: seq<Op>)
    requires Inv(s) && CanRun(s, m, n)
    ensures LegalRun(s, ops) && NoneAcquires(ops) && m !in Run(s, ops).waiting
    decreases n
  {
    hide Inv, Legal, Step;
    ops := [];
    if m in s.waiting {
      var l := s.waiting[m].leader;
      if l in s.outcomes {
        ops := FinishAndPost(s, m);
      } else {
        ops := MakeRun(s, s.machines[l], n - 1);
        OnlyFewerWait(s, ops);
        var s1 := Run(s, ops);
        if m in s1.waiting {
          var more := FinishAndPost(s1, m);
          RunThen(s, ops, more);
          ops := ops + more;
        }
      }
    }
  }

  /** A parked machine can still be woken exactly when the leaders it waits for lead to one that can go on. */
  lemma WakeableIff(s: State, m: Machine)
    requires Reachable(s) && m in s.waiting
    ensures (exists ops :: LegalRun(s, ops) && m !in Run(s, ops).waiting) <==> exists n: nat :: CanRun(s, m, n)
  {
    ReachableInv(s);
    if n: nat :| CanRun(s, m, n) {
      var ops := MakeRun(s, m, n);
    } else {
      StuckIsStuckSet(s);
      assert m in Stuck(s);
      forall ops | LegalRun(s, ops)
        ensures m in Run(s, ops).waiting
      {
        StuckForEver(s, Stuck(s), ops);
      }
    }
  }

  /** Nothing that may still happen finishes the leader `l`, wakes anybody behind it, or lets the machine `m` go on. */
  ghost predicate Deadlocked(s: State, l: Request, m: Machine) {
    forall ops :: LegalRun(s, ops) ==>
      var t := Run(s, ops);
      m in t.waiting && l !in t.outcomes && WokenBy(t.woken, l) == []
  }

  lemma OwnLeaderDeadlocks(t: State, r: Request, l: Request, m: Machine)
    requires Inv(t) && m in t.waiting && t.waiting[m] == Wait(r, l)
    requires l in t.leads && l !in t.outcomes && l in t.machines && t.machines[l] == m
    ensures Deadlocked(t, l, m)
  {
    hide Inv, Step, Legal, LegalRun, Run;
    assert StuckSet(t, {m});
    forall ops | LegalRun(t, ops)
      ensures var u := Run(t, ops); m in u.waiting && l !in u.outcomes && WokenBy(u.woken, l) == []
    {
      StuckForEver(t, {m}, ops);
      NoneWokenBy(Run(t, ops), l);
    }
  }

  lemma NoneWokenBy(s: State, l: Request)
    requires Inv(s) && l !in s.outcomes
    ensures WokenBy(s.woken, l) == []
  {
    hide EntriesLed, Conserved, QueuedOnce, AllPlaced, ParkedAtEntries;
    NotYetWoken(s, s.woken, l);
  }

  /** What an acquire that queues leaves. */
  lemma Queued(s: State, r: Request, url: Url, m: Machine)
    requires Inv(s) && Legal(s, Acquire(r, url, m)) && url in s.pending
    ensures var l, t := s.pending[url].leader, StepAcquire(s, r, url, m);
            && Inv(t) && l in t.leads && l !in t.outcomes && l != r && t.waiting == s.waiting[m := Wait(r, l)]
            && t.machines == s.machines[r := m]
  {
    hide Conserved, WakesTrue, QueuedOnce, AllPlaced, ParkedAtEntries, StepAcquire;
    StepKeeps(s, Acquire(r, url, m));
    AcquireFields(s, r, url, m);
    AcquireOutcomes(s, r, url, m);
  }

  /** A machine asks for a URL whose leader's machine is not parked. It waits for ever, and with it everybody behind
      that leader, exactly when it is the leader's machine itself. */
  lemma LeaderBehindItself(s: State, r: Request, url: Url, m: Machine)
    requires Reachable(s) && Legal(s, Acquire(r, url, m)) && url in s.pending
    requires s.pending[url].leader in s.machines && s.machines[s.pending[url].leader] !in s.waiting
    ensures Deadlocked(Step(s, Acquire(r, url, m)), s.pending[url].leader, m)
       <==> s.machines[s.pending[url].leader] == m
  {
    ReachableInv(s);
    Queued(s, r, url, m);
    var l, t := s.pending[url].leader, StepAcquire(s, r, url, m);
    hide Reachable, Inv, StepAcquire, LegalRun, Run;
    if s.machines[l] == m {
      OwnLeaderDeadlocks(t, r, l, m);
    } else {
      var ops := FinishAndPost(t, m);
      assert LegalRun(t, ops) && m !in Run(t, ops).waiting;
    }
  }

  // ---------------------------------------------------------------- the methods

  /** The loop of h2_complete and h2_fail when nothing comes between its turns. */
  function Drained(s: State, r: Request): (t: State)
    requires r in s.detached && r in s.outcomes
    decreases |if r in s.detached then s.detached[r] else []|
  {
    if s.detached[r] == [] then s.(detached := s.detached - {r}) else Drained(StepPost(s, r), r)
  }

  /** That loop wakes everyone in its entry and leaves nothing of it. */
  lemma {:induction false} DrainedWakesAll(s: State, r: Request)
    requires r in s.detached && r in s.outcomes
    ensures WokenBy(Drained(s, r).woken, r) == WokenBy(s.woken, r) + s.detached[r]
    ensures Drained(s, r).pending == s.pending && r !in Drained(s, r).detached
    decreases |s.detached[r]|
  {
    hide WokenBy, StepPost;
    var q := s.detached[r];
    if q != [] {
      PostFields(s, r);
      DrainedWakesAll(StepPost(s, r), r);
      WokenStep(s.woken, Wake(q[0], r, s.outcomes[r]), r);
      assert WokenBy(s.woken, r) + [q[0]] + q[1..] == WokenBy(s.woken, r) + q;
    } else {
      assert WokenBy(s.woken, r) + [] == WokenBy(s.woken, r);
    }
  }

  lemma PostFields(s: State, r: Request)
    requires Legal(s, Post(r))
    ensures var t := StepPost(s, r);
            && t.pending == s.pending && t.outcomes == s.outcomes && t.leads == s.leads && t.machines == s.machines
            && t.urls == s.urls
            && t.detached == s.detached[r := s.detached[r][1..]]
            && t.woken == s.woken + [Wake(s.detached[r][0], r, s.outcomes[r])]
            && t.waiting == (if s.detached[r][0] in s.machines then s.waiting - {s.machines[s.detached[r][0]]}
                             else s.waiting)
  {
  }

  /** One wake for each waiter, in order. */
  function Wakes(waiters: seq<Request>, leader: Request, outcome: Outcome): (wakes: seq<Wake>) {
    seq(|waiters|, i requires 0 <= i < |waiters| => Wake(waiters[i], leader, outcome))
  }

  lemma WakesStep(waiters: seq<Request>, leader: Request, outcome: Outcome)
    requires waiters != []
    ensures Wakes(waiters, leader, outcome)
         == [Wake(waiters[0], leader, outcome)] + Wakes(waiters[1..], leader, outcome)
  {
  }

  lemma NoWakes(leader: Request, outcome: Outcome)
    ensures Wakes([], leader, outcome) == []
  {
  }

  lemma DrainedStep(s: State, r: Request)
    requires r in s.detached && r in s.outcomes
    ensures s.detached[r] == [] ==> Drained(s, r) == s.(detached := s.detached - {r})
    ensures s.detached[r] != [] ==>
              r in StepPost(s, r).detached && r in StepPost(s, r).outcomes && Drained(s, r) == Drained(StepPost(s, r), r)
  {
  }

  class H2Pending {
    var pending: map<Url, Entry>
    var detached: map<Request, seq<Request>>
    var machines: map<Request, Machine>
    var waiting: map<Machine, Wait>
    var urls: map<Request, Url>
    var leads: map<Request, seq<Request>>
    var outcomes: map<Request, Outcome>
    var woken: seq<Wake>

    constructor ()
      ensures Now() == EMPTY
    {
      pending, detached, machines, waiting := map[], map[], map[], map[];
      urls, leads, outcomes, woken := map[], map[], map[], [];
    }

    ghost function Now(): State
      reads this
    {
      State(pending, detached, machines, waiting, urls, leads, outcomes, woken)
    }

    /** True: the caller leads. False: it is queued and gave its ticket away. */
    method H2Acquire(r: Request, url: Url, m: Machine) returns (leader: bool)
      requires Legal(Now(), Acquire(r, url, m))
      modifies this
      ensures Now() == Step(old(Now()), Acquire(r, url, m))
      ensures leader <==> url !in old(pending)
    {
      urls, machines := urls[r := url], machines[r := m];
      if url in pending {
        var it := pending[url];
        pending := pending[url := it.(waiters := it.waiters + [r])];
        waiting := waiting[m := Wait(r, it.leader)];
        leads := leads[it.leader := (if it.leader in leads then leads[it.leader] else []) + [r]];
        return false;
      }
      pending := pending[url := Entry(r, [])];
      leads := leads[r := []];
      return true;
    }

    /** h2_complete and h2_fail; they differ in what a waiter is told, which is what they are called with. */
    method H2Finish(r: Request, outcome: Outcome)
      requires Legal(Now(), Finish(r, outcome))
      modifies this
      ensures old(urls[r] in pending) ==> Now() == Drained(StepFinish(old(Now()), r, outcome), r)
      ensures old(urls[r] !in pending) ==> Now() == StepFinish(old(Now()), r, outcome)
      ensures woken == old(woken) + Wakes(if old(urls[r] in pending) then old(pending[urls[r]].waiters) else [], r, outcome)
    {
      hide Drained, Wakes;
      if urls[r] !in pending {
        outcomes := outcomes[r := outcome];
        NoWakes(r, outcome);
        return;
      }
      var entry := pending[urls[r]].waiters;
      pending := pending - {urls[r]};
      outcomes := outcomes[r := outcome];
      detached := detached[r := entry];
      DrainEntry(r, outcome);
    }

    /** The loop over the entry that was taken out. */
    method DrainEntry(r: Request, outcome: Outcome)
      requires r in detached && r in outcomes && outcomes[r] == outcome
      modifies this`detached, this`waiting, this`woken
      ensures Now() == Drained(old(Now()), r)
      ensures woken == old(woken) + Wakes(old(detached)[r], r, outcome)
    {
      hide StepPost, Drained, Wakes;
      ghost var end, all := Drained(Now(), r), woken + Wakes(detached[r], r, outcome);
      while detached[r] != []
        invariant r in detached && outcomes == old(outcomes)
        invariant end == Drained(Now(), r) && all == woken + Wakes(detached[r], r, outcome)
        decreases |if r in detached then detached[r] else []|
      {
        DrainedStep(Now(), r);
        WakesStep(detached[r], r, outcome);
        PostFirst(r, outcome);
      }
      DrainedStep(Now(), r);
      NoWakes(r, outcome);
      detached := detached - {r};
    }

    /** One turn of the loop. */
    method PostFirst(r: Request, outcome: Outcome)
      requires Legal(Now(), Post(r)) && outcomes[r] == outcome
      modifies this`detached, this`waiting, this`woken
      ensures Now() == StepPost(old(Now()), r)
      ensures woken == old(woken) + [Wake(old(detached[r])[0], r, outcome)] && r in detached
      ensures detached[r] == old(detached[r])[1..]
    {
      var item := detached[r][0];
      detached := detached[r := detached[r][1..]];
      if item in machines {
        waiting := waiting - {machines[item]};
      }
      woken := woken + [Wake(item, r, outcome)];
    }
  }
}
