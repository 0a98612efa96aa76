/** What the cache promises over whole runs (fibjs/include/LruCache.h:55-270), for callers whose
    clock does not run backwards: every run of set, lookup with and without a resolver, erase, resize,
    set_timeout and clear, as the methods of LruCaches.LruCache carry them out on the entry list. A
    lookup that has to resolve its key is two steps, since the resolver runs without the lock: the one
    that makes the item, and the one that writes its value or takes it out again. */
module CacheRuns {
  import opened Results
  import opened CacheModel

  /** A value written into an item, by set() or by a resolver's caller. */
  datatype Written<T> = Written(key: Key, item: ItemId, value: T, bySet: bool)

  datatype Cache<T> = Cache(
    es: seq<Entry<T>>,
    size: int, idle: int, update: int,
    nextId: nat,
    resolving: map<ItemId, Key>,   // items whose resolver is under way
    // what happened so far
    clock: Time,                   // the last clock reading
    touches: seq<Key>,             // keys set, or found or made by a lookup, in order
    writes: seq<Written<T>>)       // values written, in order

  datatype Op<T> =
    | Set(key: Key, value: T, id: ItemId, tCheck: Time, tTouch: Time)
    | Lookup(key: Key, tClean: Time, tCheck: Time, tTouch: Time)
    | Lead(key: Key, id: ItemId, tClean: Time, tCheck: Time, tTouch: Time)   // lookup() with a resolver, up to its call
    | Resolved(id: ItemId, value: T)                                         // the resolver answered true
    | GaveUp(id: ItemId)                                                     // or false
    | Erase(key: Key, tCheck: Time)
    | Resize(size: int)
    | SetTimeout(idle: int, update: int, now: Time)
    | Clear

  predicate Legal<T>(c: Cache<T>, op: Op<T>) {
    match op
    case Set(_, _, id, t1, t2) => c.nextId <= id && c.clock <= t1 <= t2
    case Lookup(_, t0, t1, t2) => c.clock <= t0 <= t1 <= t2
    case Lead(_, id, t0, t1, t2) => c.nextId <= id && c.clock <= t0 <= t1 <= t2
    case Resolved(id, _) => id in c.resolving
    case GaveUp(id) => id in c.resolving
    case Erase(_, t1) => c.clock <= t1
    case Resize(n) => -0x8000_0000 <= n < 0x8000_0000
    case SetTimeout(_, _, t) => c.clock <= t
    case Clear => true
  }

  /** The item a set() writes. */
  function SetItem<T>(c: Cache<T>, op: Op<T>): (x: ItemId)
    requires op.Set?
  {
    var es := Expire(c.es, op.key, op.tCheck, c.update);
    var i := Find(es, op.key);
    if i < |es| then es[i].item else op.id
  }

  predicate GoodSize<T>(c: Cache<T>) { -0x8000_0000 <= c.size < 0x8000_0000 }

  function Step<T>(c: Cache<T>, op: Op<T>): (r: Cache<T>)
    requires Legal(c, op) && GoodSize(c)
    ensures GoodSize(r)
  {
    match op
    case Set(key, v, id, t1, t2) =>
      c.(es := SetEntry(c.es, id, key, v, t1, t2, c.update, Limit(c.size)),
         nextId := id + 1, clock := t2, touches := c.touches + [key],
         writes := c.writes + [Written(key, SetItem(c, op), v, true)])
    case Lookup(key, t0, t1, t2) =>
      c.(es := LookupEntry(c.es, key, t0, t1, t2, c.idle, c.update), clock := t2,
         touches := if Hits(c.es, key, t0, t1, c.idle, c.update) then c.touches + [key] else c.touches)
    case Lead(key, id, t0, t1, t2) =>
      c.(es := FindOrAlloc(DropIdle(c.es, t0, c.idle), id, key, t1, t2, c.update, Limit(c.size)),
         nextId := id + 1, clock := t2, touches := c.touches + [key],
         resolving := if Hits(c.es, key, t0, t1, c.idle, c.update) then c.resolving else c.resolving[id := key])
    case Resolved(id, v) =>
      c.(es := Write(c.es, id, v), resolving := c.resolving - {id},
         writes := c.writes + [Written(c.resolving[id], id, v, false)])
    case GaveUp(id) => c.(es := Without(c.es, id), resolving := c.resolving - {id})
    case Erase(key, t1) => c.(es := EraseEntry(c.es, key, t1, c.update), clock := t1)
    case Resize(n) => c.(es := Trim(c.es, Limit(n)), size := n)
    case SetTimeout(idle, update, t) =>
      var idle' := if idle > 0 then idle else update;
      c.(es := DropIdle(c.es, t, idle'), idle := idle', update := update, clock := t)
    case Clear => c.(es := [])
  }

  function Start<T>(size: int, idle: int, update: int, now: Time): (c: Cache<T>) {
    Cache([], size, if idle > 0 then idle else update, update, 0, map[], now, [], [])
  }

  ghost predicate Reaches<T>(c: Cache<T>, ops: seq<Op<T>>, c': Cache<T>)
    requires GoodSize(c)
    decreases |ops|
  {
    if ops == [] then c == c' else Legal(c, ops[0]) && Reaches(Step(c, ops[0]), ops[1..], c')
  }

  // ---------------------------------------------------------------------------------------------
  // Invariant

  /** The position after the last touch of a key, 0 if it was never touched. */
  function LastTouch(touches: seq<Key>, key: Key): (n: nat)
    ensures n <= |touches| && (n > 0 ==> touches[n - 1] == key)
    ensures forall i :: n <= i < |touches| ==> touches[i] != key
  {
    if touches == [] then 0
    else if touches[|touches| - 1] == key then |touches|
    else LastTouch(touches[..|touches| - 1], key)
  }

  ghost predicate DistinctEntries<T>(es: seq<Entry<T>>, nextId: nat) {
    && (forall i, j :: 0 <= i < j < |es| ==> es[i].key != es[j].key && es[i].item != es[j].item)
    && (forall i :: 0 <= i < |es| ==> es[i].item < nextId)
  }

  /** Most recently visited first, and nothing from the future. */
  ghost predicate Chronological<T>(es: seq<Entry<T>>, clock: Time) {
    && (forall i, j :: 0 <= i <= j < |es| ==> es[j].visited <= es[i].visited <= clock)
    && (forall i :: 0 <= i < |es| ==> es[i].updated <= es[i].visited)
  }

  /** Most recently touched first. */
  ghost predicate ByTouch<T>(es: seq<Entry<T>>, touches: seq<Key>) {
    && (forall i :: 0 <= i < |es| ==> LastTouch(touches, es[i].key) > 0)
    && (forall i, j :: 0 <= i < j < |es| ==> LastTouch(touches, es[j].key) < LastTouch(touches, es[i].key))
  }

  /** The position after the last write to an item, 0 if there was none. */
  function LastWrite<T>(writes: seq<Written<T>>, item: ItemId): (n: nat)
    ensures n <= |writes| && (n > 0 ==> writes[n - 1].item == item)
    ensures forall i :: n <= i < |writes| ==> writes[i].item != item
  {
    if writes == [] then 0
    else if writes[|writes| - 1].item == item then |writes|
    else LastWrite(writes[..|writes| - 1], item)
  }

  /** The position after the last set() of a key, 0 if there was none. */
  function LastSet<T>(writes: seq<Written<T>>, key: Key): (n: nat)
    ensures n <= |writes| && (n > 0 ==> writes[n - 1].key == key && writes[n - 1].bySet)
    ensures forall i :: n <= i < |writes| ==> writes[i].key != key || !writes[i].bySet
  {
    if writes == [] then 0
    else if writes[|writes| - 1].key == key && writes[|writes| - 1].bySet then |writes|
    else LastSet(writes[..|writes| - 1], key)
  }

  /** All writes to the item were for its key, and no other item of the key, written or to be written, is newer. */
  ghost predicate Current<T>(e: Entry<T>, writes: seq<Written<T>>, resolving: map<ItemId, Key>) {
    && (forall p :: 0 <= p < |writes| && writes[p].item == e.item ==> writes[p].key == e.key)
    && (forall p :: 0 <= p < |writes| && writes[p].key == e.key ==> writes[p].item <= e.item)
    && (e.item in resolving ==> resolving[e.item] == e.key)
    && (forall x :: x in resolving && resolving[x] == e.key ==> x <= e.item)
  }

  /** An entry has the value written last, or waits for its resolver. */
  ghost predicate Valued<T>(e: Entry<T>, writes: seq<Written<T>>, resolving: map<ItemId, Key>) {
    && Current(e, writes, resolving)
    && if LastWrite(writes, e.item) > 0 then e.value == Some(writes[LastWrite(writes, e.item) - 1].value)
       else e.value.None? && e.item in resolving
  }

  ghost predicate LastValues<T>(es: seq<Entry<T>>, writes: seq<Written<T>>, resolving: map<ItemId, Key>) {
    forall i :: 0 <= i < |es| ==> Valued(es[i], writes, resolving)
  }

  /** The last set() of a key wrote no older item of it than the write at p, if that came before. */
  ghost predicate Newest<T>(writes: seq<Written<T>>, p: nat)
    requires p < |writes|
  {
    var n := LastSet(writes, writes[p].key);
    p < n ==> writes[p].item <= writes[n - 1].item
  }

  /** A set() writes the newest item of its key. */
  ghost predicate Log<T>(writes: seq<Written<T>>, resolving: map<ItemId, Key>, nextId: nat) {
    && (forall x :: x in resolving ==> x < nextId)
    && (forall p :: 0 <= p < |writes| ==> writes[p].item < nextId)
    && (forall p :: 0 <= p < |writes| ==> Newest(writes, p))
  }

  ghost predicate Inv<T>(c: Cache<T>) {
    && GoodSize(c) && DistinctEntries(c.es, c.nextId) && Chronological(c.es, c.clock)
    && ByTouch(c.es, c.touches) && LastValues(c.es, c.writes, c.resolving) && |c.es| <= Limit(c.size)
    && Log(c.writes, c.resolving, c.nextId)
  }

  lemma LastWritePushed<T>(writes: seq<Written<T>>, w: Written<T>, item: ItemId)
    ensures LastWrite(writes + [w], item) == if w.item == item then |writes| + 1 else LastWrite(writes, item)
  {
    assert (writes + [w])[..|writes|] == writes;
  }

  lemma LastSetPushed<T>(writes: seq<Written<T>>, w: Written<T>, key: Key)
    ensures LastSet(writes + [w], key) == if w.bySet && w.key == key then |writes| + 1 else LastSet(writes, key)
  {
    assert (writes + [w])[..|writes|] == writes;
  }

  /** A write to another item. */
  lemma OtherWritten<T>(e: Entry<T>, writes: seq<Written<T>>, resolving: map<ItemId, Key>, w: Written<T>)
    requires Valued(e, writes, resolving) && w.item != e.item
    requires w.key == e.key ==> w.item <= e.item
    ensures Valued(e, writes + [w], resolving)
  {
    LastWritePushed(writes, w, e.item);
  }

  /** A write to the item itself. */
  lemma ItselfWritten<T>(e: Entry<T>, writes: seq<Written<T>>, resolving: map<ItemId, Key>, w: Written<T>)
    requires Current(e, writes, resolving) && w.item == e.item && w.key == e.key
    ensures Valued(e.(value := Some(w.value)), writes + [w], resolving)
  {
    LastWritePushed(writes, w, e.item);
  }

  lemma LogPushed<T>(writes: seq<Written<T>>, resolving: map<ItemId, Key>, nextId: nat, w: Written<T>, nextId': nat)
    requires Log(writes, resolving, nextId) && nextId <= nextId' && w.item < nextId'
    requires w.bySet ==> forall p :: 0 <= p < |writes| && writes[p].key == w.key ==> writes[p].item <= w.item
    ensures Log(writes + [w], resolving, nextId')
  {
    hide LastSet;
    var all := writes + [w];
    forall p | 0 <= p < |all| ensures Newest(all, p) {
      assert p < |writes| ==> all[p] == writes[p] && Newest(writes, p);
      LastSetPushed(writes, w, all[p].key);
    }
    hide Newest;
  }

  /** An item that was never written and is newer than all that were. */
  lemma NewIsCurrent<T>(e: Entry<T>, writes: seq<Written<T>>, resolving: map<ItemId, Key>, nextId: nat)
    requires Log(writes, resolving, nextId) && nextId <= e.item
    ensures Current(e, writes, resolving) && Current(e, writes, resolving[e.item := e.key])
    ensures e.item !in resolving && LastWrite(writes, e.item) == 0
  {
  }

  /** A list got from another by leaving entries out, n(j) being where entry j was. */
  ghost predicate Picked<T>(es: seq<Entry<T>>, r: seq<Entry<T>>, at: seq<nat>) {
    && |at| == |r| <= |es|
    && (forall j :: 0 <= j < |r| ==> at[j] < |es| && r[j] == es[at[j]])
    && (forall i, j :: 0 <= i < j < |r| ==> at[i] < at[j])
  }

  lemma PickedKeeps<T>(c: Cache<T>, r: Cache<T>, at: seq<nat>)
    requires Inv(c) && Picked(c.es, r.es, at)
    requires r == c.(es := r.es, clock := r.clock, idle := r.idle, update := r.update) && r.clock >= c.clock
    ensures Inv(r)
  {
    hide Valued, Log, LastTouch;
    assert forall i, j :: 0 <= i <= j < |r.es| ==> at[i] <= at[j];
  }

  /** Where the entries left by Expire were. */
  function AllBut(n: nat, i: nat): (at: seq<nat>)
    requires i < n
    ensures |at| == n - 1 && forall j :: 0 <= j < |at| ==> at[j] == if j < i then j else j + 1
  {
    seq(n - 1, j requires 0 <= j < n - 1 => if j < i then j else j + 1)
  }

  function Prefix(n: nat): (at: seq<nat>)
    ensures |at| == n && forall j :: 0 <= j < n ==> at[j] == j
  {
    seq(n, j => j)
  }

  lemma RemoveKeeps<T>(c: Cache<T>, i: nat, t: Time)
    requires Inv(c) && i < |c.es| && c.clock <= t
    ensures Inv(c.(es := Remove(c.es, i), clock := t))
  {
    PickedKeeps(c, c.(es := Remove(c.es, i), clock := t), AllBut(|c.es|, i));
  }

  lemma PrefixKeeps<T>(c: Cache<T>, r: Cache<T>)
    requires Inv(c) && |r.es| <= |c.es| && r.es == c.es[..|r.es|]
    requires r == c.(es := r.es, clock := r.clock, idle := r.idle, update := r.update) && r.clock >= c.clock
    ensures Inv(r)
  {
    PickedKeeps(c, r, Prefix(|r.es|));
  }

  lemma ExpireKeeps<T>(c: Cache<T>, key: Key, t: Time)
    requires Inv(c) && c.clock <= t
    ensures Inv(c.(es := Expire(c.es, key, t, c.update), clock := t))
  {
    var i := Find(c.es, key);
    if i < |c.es| && c.update > 0 && Aged(t, c.es[i].updated, c.update) {
      RemoveKeeps(c, i, t);
    } else {
      PrefixKeeps(c, c.(clock := t));
    }
  }

  lemma LastTouchPushed(touches: seq<Key>, key: Key, k: Key)
    ensures LastTouch(touches + [key], k) == if k == key then |touches| + 1 else LastTouch(touches, k)
  {
    assert (touches + [key])[..|touches|] == touches;
  }

  /** e, with a key that is not in es, goes first. */
  lemma FrontKeeps<T>(es: seq<Entry<T>>, e: Entry<T>, c: Cache<T>, r: Cache<T>)
    requires Inv(c.(es := es)) && forall i :: 0 <= i < |es| ==> es[i].key != e.key && es[i].item != e.item
    requires r == c.(es := [e] + es, nextId := r.nextId, clock := e.visited,
                     touches := c.touches + [e.key], writes := r.writes, resolving := r.resolving)
    requires r.nextId >= c.nextId && e.item < r.nextId && c.clock <= e.visited && e.updated <= e.visited
    requires Valued(e, r.writes, r.resolving) && LastValues(es, r.writes, r.resolving)
    ensures DistinctEntries(r.es, r.nextId) && Chronological(r.es, r.clock)
    ensures ByTouch(r.es, r.touches) && LastValues(r.es, r.writes, r.resolving)
  {
    assert LastValues(r.es, r.writes, r.resolving);
    hide DistinctEntries, Chronological, ByTouch, LastValues, Valued;
    FrontDistinct(es, e, c.nextId, r.nextId);
    FrontChronological(es, e, c.clock);
    FrontByTouch(es, e, c.touches);
  }

  lemma FrontDistinct<T>(es: seq<Entry<T>>, e: Entry<T>, nextId: nat, nextId': nat)
    requires DistinctEntries(es, nextId) && nextId <= nextId' && e.item < nextId'
    requires forall i :: 0 <= i < |es| ==> es[i].key != e.key && es[i].item != e.item
    ensures DistinctEntries([e] + es, nextId')
  {}

  lemma FrontChronological<T>(es: seq<Entry<T>>, e: Entry<T>, clock: Time)
    requires Chronological(es, clock) && clock <= e.visited && e.updated <= e.visited
    ensures Chronological([e] + es, e.visited)
  {}

  lemma FrontByTouch<T>(es: seq<Entry<T>>, e: Entry<T>, touches: seq<Key>)
    requires ByTouch(es, touches) && forall i :: 0 <= i < |es| ==> es[i].key != e.key
    ensures ByTouch([e] + es, touches + [e.key])
  {
    forall i | 0 <= i <= |es|
      ensures LastTouch(touches + [e.key], ([e] + es)[i].key) ==
                if i == 0 then |touches| + 1 else LastTouch(touches, es[i - 1].key)
    {
      LastTouchPushed(touches, e.key, ([e] + es)[i].key);
    }
  }

  lemma NotFound<T>(es: seq<Entry<T>>, key: Key)
    requires Find(es, key) == |es|
    ensures forall i :: 0 <= i < |es| ==> es[i].key != key
  {}

  /** The other entries after a write to the item of one key. */
  lemma OthersWritten<T>(es: seq<Entry<T>>, writes: seq<Written<T>>, resolving: map<ItemId, Key>, w: Written<T>)
    requires LastValues(es, writes, resolving)
    requires forall i :: 0 <= i < |es| ==> es[i].key != w.key && es[i].item != w.item
    ensures LastValues(es, writes + [w], resolving)
  {
    forall i | 0 <= i < |es| ensures Valued(es[i], writes + [w], resolving) {
      OtherWritten(es[i], writes, resolving, w);
    }
  }

  /** An entry, what it is worth, and what the others do not share with it. */
  lemma Apart<T>(c: Cache<T>, i: nat)
    requires Inv(c) && i < |c.es|
    ensures var e, es := c.es[i], Remove(c.es, i);
            && Valued(e, c.writes, c.resolving) && Current(e, c.writes, c.resolving)
            && e.item < c.nextId && e.updated <= e.visited <= c.clock
            && (forall j :: 0 <= j < |es| ==> es[j].key != e.key && es[j].item != e.item)
            && (forall p :: 0 <= p < |c.writes| && c.writes[p].key == e.key ==> c.writes[p].item <= e.item)
  {
    hide LastTouch, LastSet, LastWrite, Chronological, Log;
    assert Valued(c.es[i], c.writes, c.resolving);
    assert c.es[i].updated <= c.es[i].visited <= c.clock by { Dated(c.es, c.clock, i); }
  }

  lemma Dated<T>(es: seq<Entry<T>>, clock: Time, i: nat)
    requires Chronological(es, clock) && i < |es|
    ensures es[i].updated <= es[i].visited <= clock
  {
  }

  lemma LedLog<T>(writes: seq<Written<T>>, resolving: map<ItemId, Key>, nextId: nat, id: ItemId, key: Key)
    requires Log(writes, resolving, nextId) && nextId <= id
    ensures Log(writes, resolving[id := key], id + 1)
  {
    hide LastSet;
  }

  lemma AnsweredLog<T>(writes: seq<Written<T>>, resolving: map<ItemId, Key>, nextId: nat, id: ItemId)
    requires Log(writes, resolving, nextId)
    ensures Log(writes, resolving - {id}, nextId)
  {
    hide LastSet;
  }

  lemma SetFoundKeeps<T>(c: Cache<T>, i: nat, key: Key, v: T, id: ItemId, t: Time)
    requires Inv(c) && i < |c.es| && c.es[i].key == key && c.clock <= t && c.nextId <= id
    ensures Inv(c.(es := Write(Touch(c.es, i, t), c.es[i].item, v), nextId := id + 1, clock := t,
                   touches := c.touches + [key], writes := c.writes + [Written(key, c.es[i].item, v, true)]))
  {
    hide Valued, Log, DistinctEntries, Chronological, ByTouch, Current, LastSet, LastWrite;
    var e, es, w := c.es[i], Remove(c.es, i), Written(key, c.es[i].item, v, true);
    var r := c.(es := Write(Touch(c.es, i, t), e.item, v), nextId := id + 1, clock := t,
                touches := c.touches + [key], writes := c.writes + [w]);
    Apart(c, i);
    RemoveKeeps(c, i, c.clock);
    assert c.(es := es, clock := c.clock) == c.(es := es);
    assert r.es == [e.(visited := t, value := Some(v))] + es;
    SameCurrent(e, e.(visited := t), c.writes, c.resolving);
    ItselfWritten(e.(visited := t), c.writes, c.resolving, w);
    OthersWritten(es, c.writes, c.resolving, w);
    LogPushed(c.writes, c.resolving, c.nextId, w, id + 1);
    FrontKeeps(es, e.(visited := t, value := Some(v)), c, r);
  }

  lemma SameCurrent<T>(e: Entry<T>, f: Entry<T>, writes: seq<Written<T>>, resolving: map<ItemId, Key>)
    requires f == e.(visited := f.visited)
    ensures Current(e, writes, resolving) ==> Current(f, writes, resolving)
    ensures Valued(e, writes, resolving) ==> Valued(f, writes, resolving)
  {
  }

  lemma PrefixParts<T>(es: seq<Entry<T>>, c: Cache<T>, n: nat)
    requires DistinctEntries(es, c.nextId) && Chronological(es, c.clock)
    requires ByTouch(es, c.touches) && LastValues(es, c.writes, c.resolving) && n <= |es|
    ensures DistinctEntries(es[..n], c.nextId) && Chronological(es[..n], c.clock)
    ensures ByTouch(es[..n], c.touches) && LastValues(es[..n], c.writes, c.resolving)
  {
  }

  lemma AllocThenWrite<T>(es: seq<Entry<T>>, key: Key, v: T, id: ItemId, t: Time, limit: nat, nextId: nat)
    requires DistinctEntries(es, nextId) && nextId <= id
    ensures Write(Alloc(es, id, key, t, limit), id, v) == Trim([Entry(id, key, Some(v), t, t)] + es, limit)
  {
  }

  lemma NewApart<T>(c: Cache<T>, id: ItemId, key: Key)
    requires Inv(c) && Find(c.es, key) == |c.es| && c.nextId <= id
    ensures forall i :: 0 <= i < |c.es| ==> c.es[i].key != key && c.es[i].item != id
    ensures forall p :: 0 <= p < |c.writes| ==> c.writes[p].item <= id
  {
    NotFound(c.es, key);
    hide Valued, LastTouch, LastSet;
  }

  lemma SetNewKeeps<T>(c: Cache<T>, key: Key, v: T, id: ItemId, t: Time)
    requires Inv(c) && Find(c.es, key) == |c.es| && c.clock <= t && c.nextId <= id
    ensures Inv(c.(es := Write(Alloc(c.es, id, key, t, Limit(c.size)), id, v), nextId := id + 1, clock := t,
                   touches := c.touches + [key], writes := c.writes + [Written(key, id, v, true)]))
  {
    hide Valued, Log, DistinctEntries, Chronological, ByTouch, Current, LastSet, LastWrite;
    var e, w := Entry(id, key, Some(v), t, t), Written(key, id, v, true);
    var r := c.(es := [e] + c.es, nextId := id + 1, clock := t, touches := c.touches + [key], writes := c.writes + [w]);
    NewApart(c, id, key);
    NewIsCurrent(e, c.writes, c.resolving, c.nextId);
    ItselfWritten(e, c.writes, c.resolving, w);
    OthersWritten(c.es, c.writes, c.resolving, w);
    LogPushed(c.writes, c.resolving, c.nextId, w, id + 1);
    AllocThenWrite(c.es, key, v, id, t, Limit(c.size), c.nextId);
    FrontTrimmed(c, e, r);
  }

  /** A new entry in front, and the end of the list cut off. */
  lemma FrontTrimmed<T>(c: Cache<T>, e: Entry<T>, r: Cache<T>)
    requires Inv(c) && c.nextId <= e.item < r.nextId && forall i :: 0 <= i < |c.es| ==> c.es[i].key != e.key
    requires r == c.(es := [e] + c.es, nextId := r.nextId, clock := e.visited,
                     touches := c.touches + [e.key], writes := r.writes, resolving := r.resolving)
    requires c.clock <= e.visited && e.updated <= e.visited
    requires Valued(e, r.writes, r.resolving) && LastValues(c.es, r.writes, r.resolving)
    requires Log(r.writes, r.resolving, r.nextId)
    ensures Inv(r.(es := Trim(r.es, Limit(r.size))))
  {
    assert c == c.(es := c.es);
    FrontKeeps(c.es, e, c, r);
    PrefixParts(r.es, r, if |r.es| > Limit(c.size) then Limit(c.size) else |r.es|);
    assert r.es[..|r.es|] == r.es;
  }

  lemma OthersLed<T>(es: seq<Entry<T>>, writes: seq<Written<T>>, resolving: map<ItemId, Key>, id: ItemId, key: Key)
    requires LastValues(es, writes, resolving)
    requires forall i :: 0 <= i < |es| ==> es[i].key != key && es[i].item != id
    ensures LastValues(es, writes, resolving[id := key])
  {
    hide LastSet, LastWrite;
    forall i | 0 <= i < |es| ensures Valued(es[i], writes, resolving[id := key]) {
      assert Valued(es[i], writes, resolving);
    }
  }

  lemma LeadNewKeeps<T>(c: Cache<T>, key: Key, id: ItemId, t: Time)
    requires Inv(c) && Find(c.es, key) == |c.es| && c.clock <= t && c.nextId <= id
    ensures Inv(c.(es := Alloc(c.es, id, key, t, Limit(c.size)), nextId := id + 1, clock := t,
                   touches := c.touches + [key], resolving := c.resolving[id := key]))
  {
    hide Valued, Log, DistinctEntries, Chronological, ByTouch, Current, LastSet, LastWrite;
    var e := Entry(id, key, None, t, t);
    var r := c.(es := [e] + c.es, nextId := id + 1, clock := t, touches := c.touches + [key],
                resolving := c.resolving[id := key]);
    NewApart(c, id, key);
    NewIsValued(e, c.writes, c.resolving, c.nextId);
    OthersLed(c.es, c.writes, c.resolving, id, key);
    LedLog(c.writes, c.resolving, c.nextId, id, key);
    FrontTrimmed(c, e, r);
  }

  lemma NewIsValued<T>(e: Entry<T>, writes: seq<Written<T>>, resolving: map<ItemId, Key>, nextId: nat)
    requires Log(writes, resolving, nextId) && nextId <= e.item && e.value.None?
    ensures Valued(e, writes, resolving[e.item := e.key])
  {
    NewIsCurrent(e, writes, resolving, nextId);
  }

  lemma LookupFoundKeeps<T>(c: Cache<T>, i: nat, t: Time)
    requires Inv(c) && i < |c.es| && c.clock <= t
    ensures Inv(c.(es := Touch(c.es, i, t), clock := t, touches := c.touches + [c.es[i].key]))
  {
    hide Valued, Log, DistinctEntries, Chronological, ByTouch, Current, LastSet, LastWrite;
    Apart(c, i);
    RemoveKeeps(c, i, c.clock);
    assert c.(es := Remove(c.es, i), clock := c.clock) == c.(es := Remove(c.es, i));
    SameCurrent(c.es[i], c.es[i].(visited := t), c.writes, c.resolving);
    FrontKeeps(Remove(c.es, i), c.es[i].(visited := t), c,
               c.(es := Touch(c.es, i, t), clock := t, touches := c.touches + [c.es[i].key]));
  }

  lemma SetKeeps<T>(c: Cache<T>, op: Op<T>)
    requires Inv(c) && Legal(c, op) && op.Set?
    ensures Inv(Step(c, op))
  {
    hide Inv, Expire, Touch, Alloc, Write;
    ExpireKeeps(c, op.key, op.tCheck);
    var c1 := c.(es := Expire(c.es, op.key, op.tCheck, c.update), clock := op.tCheck);
    var i := Find(c1.es, op.key);
    if i < |c1.es| {
      SetFoundKeeps(c1, i, op.key, op.value, op.id, op.tTouch);
    } else {
      SetNewKeeps(c1, op.key, op.value, op.id, op.tTouch);
    }
  }

  /** The cache a lookup searches. */
  function Cleaned<T>(c: Cache<T>, op: Op<T>): (r: Cache<T>)
    requires op.Lookup? || op.Lead?
  {
    c.(es := Expire(DropIdle(c.es, op.tClean, c.idle), op.key, op.tCheck, c.update), clock := op.tCheck)
  }

  lemma CleanedInv<T>(c: Cache<T>, op: Op<T>)
    requires Inv(c) && (op.Lookup? || op.Lead?) && Legal(c, op)
    ensures Inv(Cleaned(c, op))
  {
    var c1 := c.(es := DropIdle(c.es, op.tClean, c.idle), clock := op.tClean);
    PrefixKeeps(c, c1);
    ExpireKeeps(c1, op.key, op.tCheck);
  }

  lemma LookupKeeps<T>(c: Cache<T>, op: Op<T>)
    requires Inv(c) && Legal(c, op) && op.Lookup?
    ensures Inv(Step(c, op))
  {
    CleanedInv(c, op);
    var c2 := Cleaned(c, op);
    var i := Find(c2.es, op.key);
    if i < |c2.es| {
      LookupFoundKeeps(c2, i, op.tTouch);
    } else {
      PrefixKeeps(c2, c2.(clock := op.tTouch));
    }
  }

  lemma LeadKeeps<T>(c: Cache<T>, op: Op<T>)
    requires Inv(c) && Legal(c, op) && op.Lead?
    ensures Inv(Step(c, op))
  {
    hide Inv, Expire, Touch, Alloc, DropIdle;
    CleanedInv(c, op);
    var c2 := Cleaned(c, op);
    var i := Find(c2.es, op.key);
    if i < |c2.es| {
      LookupFoundKeeps(c2, i, op.tTouch);
      MoreIds(c2.(es := Touch(c2.es, i, op.tTouch), clock := op.tTouch, touches := c2.touches + [op.key]), op.id + 1);
    } else {
      LeadNewKeeps(c2, op.key, op.id, op.tTouch);
    }
  }

  lemma MoreIds<T>(c: Cache<T>, nextId: nat)
    requires Inv(c) && c.nextId <= nextId
    ensures Inv(c.(nextId := nextId))
  {
  }

  /** Writing a value moves nothing. */
  lemma WriteStays<T>(es: seq<Entry<T>>, id: ItemId, v: T, c: Cache<T>)
    requires DistinctEntries(es, c.nextId) && Chronological(es, c.clock) && ByTouch(es, c.touches)
    ensures var r := Write(es, id, v);
            DistinctEntries(r, c.nextId) && Chronological(r, c.clock) && ByTouch(r, c.touches)
  {
    hide LastTouch;
  }

  lemma ResolvedValued<T>(e: Entry<T>, writes: seq<Written<T>>, resolving: map<ItemId, Key>, w: Written<T>)
    requires Valued(e, writes, resolving) && w.item in resolving && w.key == resolving[w.item]
    ensures Valued(if e.item == w.item then e.(value := Some(w.value)) else e, writes + [w], resolving - {w.item})
  {
    hide LastSet;
    if e.item == w.item {
      ItselfWritten(e, writes, resolving, w);
    } else {
      OtherWritten(e, writes, resolving, w);
    }
    LastWritePushed(writes, w, e.item);
    hide LastWrite;
  }

  lemma ResolvedKeeps<T>(c: Cache<T>, id: ItemId, v: T)
    requires Inv(c) && id in c.resolving
    ensures Inv(Step(c, Resolved(id, v)))
  {
    hide Valued, Log, DistinctEntries, Chronological, ByTouch;
    var r, w := Step(c, Resolved(id, v)), Written(c.resolving[id], id, v, false);
    WriteStays(c.es, id, v, c);
    assert id < c.nextId by { LogBounds(c.writes, c.resolving, c.nextId, id); }
    LogPushed(c.writes, c.resolving, c.nextId, w, c.nextId);
    AnsweredLog(c.writes + [w], c.resolving, c.nextId, id);
    forall i | 0 <= i < |c.es| ensures Valued(r.es[i], r.writes, r.resolving) {
      ResolvedValued(c.es[i], c.writes, c.resolving, w);
    }
  }

  lemma LogBounds<T>(writes: seq<Written<T>>, resolving: map<ItemId, Key>, nextId: nat, id: ItemId)
    requires Log(writes, resolving, nextId) && id in resolving
    ensures id < nextId
  {
  }

  lemma GaveUpKeeps<T>(c: Cache<T>, id: ItemId)
    requires Inv(c) && id in c.resolving
    ensures Inv(Step(c, GaveUp(id)))
  {
    hide Valued, Log, DistinctEntries, Chronological, ByTouch;
    var n := IndexOf(c.es, id);
    var r := if n < |c.es| then c.(es := Remove(c.es, n)) else c;
    if n < |c.es| {
      RemoveKeeps(c, n, c.clock);
      Apart(c, n);
      assert c.(es := Remove(c.es, n), clock := c.clock) == r;
    }
    NotWaiting(r, id);
  }

  lemma NotWaiting<T>(c: Cache<T>, id: ItemId)
    requires Inv(c) && forall i :: 0 <= i < |c.es| ==> c.es[i].item != id
    ensures Inv(c.(resolving := c.resolving - {id}))
  {
    hide Valued, Log, DistinctEntries, Chronological, ByTouch;
    AnsweredLog(c.writes, c.resolving, c.nextId, id);
    forall i | 0 <= i < |c.es| ensures Valued(c.es[i], c.writes, c.resolving - {id}) {
      ValuedWithout(c.es[i], c.writes, c.resolving, id);
    }
  }

  lemma ValuedWithout<T>(e: Entry<T>, writes: seq<Written<T>>, resolving: map<ItemId, Key>, id: ItemId)
    requires Valued(e, writes, resolving) && e.item != id
    ensures Valued(e, writes, resolving - {id})
  {
    hide LastSet, LastWrite;
  }

  lemma StepKeeps<T>(c: Cache<T>, op: Op<T>)
    requires Inv(c) && Legal(c, op)
    ensures Inv(Step(c, op))
  {
    match op
    case Set(_, _, _, _, _) => SetKeeps(c, op);
    case Lookup(_, _, _, _) => LookupKeeps(c, op);
    case Lead(_, _, _, _, _) => LeadKeeps(c, op);
    case Resolved(id, v) => ResolvedKeeps(c, id, v);
    case GaveUp(id) => GaveUpKeeps(c, id);
    case Erase(key, t) =>
      ExpireKeeps(c, key, t);
      var c1 := c.(es := Expire(c.es, key, t, c.update), clock := t);
      var i := Find(c1.es, key);
      if i < |c1.es| { RemoveKeeps(c1, i, t); }
    case Resize(n) =>
      assert Step(c, op).es == c.es[..|Step(c, op).es|];
      PrefixKeeps(c, c.(es := Step(c, op).es));
    case SetTimeout(_, _, _) => PrefixKeeps(c, Step(c, op));
    case Clear => PrefixKeeps(c, Step(c, op));
  }

  lemma {:induction false} ReachesKeeps<T>(c: Cache<T>, ops: seq<Op<T>>, c': Cache<T>)
    requires Inv(c) && Reaches(c, ops, c')
    ensures Inv(c')
    decreases |ops|
  {
    if ops != [] {
      StepKeeps(c, ops[0]);
      ReachesKeeps(Step(c, ops[0]), ops[1..], c');
    }
  }

  // ---------------------------------------------------------------------------------------------
  // Main results

  ghost predicate Reachable<T(!new)>(c: Cache<T>) {
    GoodSize(c) && exists size, idle, update, now, ops ::
      -0x8000_0000 <= size < 0x8000_0000 && Reaches(Start<T>(size, idle, update, now), ops, c)
  }

  lemma ReachableInv<T(!new)>(c: Cache<T>)
    requires Reachable(c)
    ensures Inv(c)
  {
    var size, idle, update, now, ops :|
      -0x8000_0000 <= size < 0x8000_0000 && Reaches(Start<T>(size, idle, update, now), ops, c);
    ReachesKeeps(Start(size, idle, update, now), ops, c);
  }

  /** Keeping the entries that pass a test, in order. */
  function Filter<T>(es: seq<Entry<T>>, keep: Entry<T> -> bool): (r: seq<Entry<T>>) {
    if es == [] then []
    else Filter(es[..|es| - 1], keep) + if keep(es[|es| - 1]) then [es[|es| - 1]] else []
  }

  lemma {:induction false} FilterAll<T>(es: seq<Entry<T>>, keep: Entry<T> -> bool)
    requires forall i :: 0 <= i < |es| ==> keep(es[i])
    ensures Filter(es, keep) == es
  {
    if es != [] {
      FilterAll(es[..|es| - 1], keep);
      assert es == es[..|es| - 1] + [es[|es| - 1]];
    }
  }

  lemma AgedMonotone(now: Time, since: Time, earlier: Time, timeout: int)
    requires earlier <= since && Aged(now, since, timeout) && timeout > 0
    ensures Aged(now, earlier, timeout)
  {}

  /** In every reachable cache, cleaning that stops at the first fresh entry from the back removes
      exactly the idle entries. */
  lemma {:induction false} CleaningIsExact<T(!new)>(es: seq<Entry<T>>, clock: Time, now: Time, idle: int)
    requires Chronological(es, clock)
    ensures DropIdle(es, now, idle) == Filter(es, (e: Entry<T>) => idle <= 0 || !Aged(now, e.visited, idle))
  {
    var keep := (e: Entry<T>) => idle <= 0 || !Aged(now, e.visited, idle);
    if es == [] {
    } else if keep(es[|es| - 1]) {
      forall i | 0 <= i < |es|
        ensures keep(es[i])
      {
        if !keep(es[i]) { AgedMonotone(now, es[i].visited, es[|es| - 1].visited, idle); }
      }
      FilterAll(es, keep);
    } else {
      CleaningIsExact(es[..|es| - 1], clock, now, idle);
    }
  }

  lemma LookupCleansExactly<T(!new)>(c: Cache<T>, now: Time)
    requires Reachable(c)
    ensures DropIdle(c.es, now, c.idle) == Filter(c.es, (e: Entry<T>) => c.idle <= 0 || !Aged(now, e.visited, c.idle))
  {
    ReachableInv(c);
    CleaningIsExact(c.es, c.clock, now, c.idle);
  }

  /** Fresh enough to be found. */
  predicate Findable<T>(c: Cache<T>, op: Op<T>, e: Entry<T>)
    requires op.Lookup?
  {
    && e.key == op.key
    && (c.idle <= 0 || !Aged(op.tClean, e.visited, c.idle))
    && (c.update <= 0 || !Aged(op.tCheck, e.updated, c.update))
  }

  lemma HitIsFindable<T>(c: Cache<T>, op: Op<T>)
    requires Inv(c) && op.Lookup? && Legal(c, op) && Hits(c.es, op.key, op.tClean, op.tCheck, c.idle, c.update)
    ensures var r := Step(c, op);
            && r.es != [] && r.es[0].key == op.key && LookupItem(c, op) in c.es
            && Findable(c, op, LookupItem(c, op)) && r.es[0] == LookupItem(c, op).(visited := op.tTouch)
  {
    var key := op.key;
    var d := DropIdle(c.es, op.tClean, c.idle);
    var x := Expire(d, op.key, op.tCheck, c.update);
    var i := Find(d, op.key);
    if i == |d| {
      NotFound(d, key);
      assert false;
    }
    DropIdleFresh(c.es, c.clock, op.tClean, c.idle, i);
    assert c.es[i] in c.es;
    PrefixKeeps(c, c.(es := d));
    if c.update > 0 && Aged(op.tCheck, d[i].updated, c.update) {
      RemovedKeyNotFound(d, c.nextId, i);
      assert false;
    }
    assert x == d;
  }

  /** The entry a lookup that hits finds. */
  function LookupItem<T>(c: Cache<T>, op: Op<T>): (e: Entry<T>)
    requires op.Lookup? && Hits(c.es, op.key, op.tClean, op.tCheck, c.idle, c.update)
  {
    var es := Expire(DropIdle(c.es, op.tClean, c.idle), op.key, op.tCheck, c.update);
    es[Find(es, op.key)]
  }

  lemma FindableIsHit<T>(c: Cache<T>, op: Op<T>, j: nat)
    requires Inv(c) && op.Lookup? && Legal(c, op) && j < |c.es| && Findable(c, op, c.es[j])
    ensures Hits(c.es, op.key, op.tClean, op.tCheck, c.idle, c.update)
  {
    var key := op.key;
    var d := DropIdle(c.es, op.tClean, c.idle);
    if j >= |d| {
      DropIdleDrops(c.es, c.clock, op.tClean, c.idle, j);
      assert false;
    }
    assert d[j] == c.es[j];
    var i := Find(d, op.key);
    if i == |d| {
      NotFound(d, key);
      assert false;
    }
    assert d[i] == c.es[i];
    assert i == j;
  }

  /** The value of an entry: what set() wrote last, unless a resolver wrote the item after that. */
  lemma ValueOf<T>(c: Cache<T>, e: Entry<T>)
    requires Inv(c) && e in c.es
    ensures var last, lastSet := LastWrite(c.writes, e.item), LastSet(c.writes, e.key);
            if last == 0 then e.value.None? && e.item in c.resolving
            else && e.value == Some(c.writes[last - 1].value) && c.writes[last - 1].key == e.key
                 && lastSet <= last && (c.writes[last - 1].bySet <==> last == lastSet)
  {
    hide DistinctEntries, Chronological, ByTouch;
    var i :| 0 <= i < |c.es| && c.es[i] == e;
    assert Valued(c.es[i], c.writes, c.resolving);
    var last := LastWrite(c.writes, e.item);
    assert last > 0 ==> Newest(c.writes, last - 1);
  }

  lemma HitGives<T>(c: Cache<T>, op: Op<T>)
    requires Inv(c) && op.Lookup? && Legal(c, op) && Hits(c.es, op.key, op.tClean, op.tCheck, c.idle, c.update)
    ensures exists e :: e in c.es && Findable(c, op, e)
    ensures && Step(c, op).es != []
            && var e := Step(c, op).es[0];
            var last, lastSet := LastWrite(c.writes, e.item), LastSet(c.writes, op.key);
            && e.key == op.key && (c.update > 0 ==> !Aged(op.tCheck, e.updated, c.update))
            && (if last == 0 then e.value.None? && e.item in c.resolving
                else && e.value == Some(c.writes[last - 1].value) && c.writes[last - 1].key == e.key
                     && lastSet <= last && (c.writes[last - 1].bySet <==> last == lastSet))
  {
    hide Inv, Step, Hits, LookupItem, LastSet, LastWrite, Aged;
    HitIsFindable(c, op);
    var e := LookupItem(c, op);
    ValueOf(c, e);
    assert e in c.es && Findable(c, op, e);
    hide Legal;
  }

  /** A lookup finds the key exactly when an entry for it is neither idle nor past its update time, made less than
      updateTimeout before. It then gives what was written last into that item, and waits exactly while nothing was:
      that is the value of the last set of the key exactly when a set wrote it, and otherwise what a resolver wrote
      after the last set. */
  lemma LookupGives<T(!new)>(c: Cache<T>, op: Op<T>)
    requires Reachable(c) && op.Lookup? && Legal(c, op)
    ensures Hits(c.es, op.key, op.tClean, op.tCheck, c.idle, c.update) <==>
              exists e :: e in c.es && Findable(c, op, e)
    ensures Hits(c.es, op.key, op.tClean, op.tCheck, c.idle, c.update) ==>
              && Step(c, op).es != []
              && var e := Step(c, op).es[0];
              var last, lastSet := LastWrite(c.writes, e.item), LastSet(c.writes, op.key);
              && e.key == op.key && (c.update > 0 ==> !Aged(op.tCheck, e.updated, c.update))
              && (if last == 0 then e.value.None? && e.item in c.resolving
                  else && e.value == Some(c.writes[last - 1].value) && c.writes[last - 1].key == e.key
                       && lastSet <= last && (c.writes[last - 1].bySet <==> last == lastSet))
  {
    hide Inv, Step, Hits, Findable, LastSet, LastWrite, Aged;
    ReachableInv(c);
    if Hits(c.es, op.key, op.tClean, op.tCheck, c.idle, c.update) {
      HitGives(c, op);
    }
    if e :| e in c.es && Findable(c, op, e) {
      FindableHits(c, op, e);
    }
  }

  lemma FindableHits<T>(c: Cache<T>, op: Op<T>, e: Entry<T>)
    requires Inv(c) && op.Lookup? && Legal(c, op) && e in c.es && Findable(c, op, e)
    ensures Hits(c.es, op.key, op.tClean, op.tCheck, c.idle, c.update)
  {
    var j :| 0 <= j < |c.es| && c.es[j] == e;
    FindableIsHit(c, op, j);
  }

  /** Without resolvers, and with those that wrote before the sets that matter, a hit is the last value set. */
  lemma LookupIsLastSet<T(!new)>(c: Cache<T>, op: Op<T>)
    requires Reachable(c) && op.Lookup? && Legal(c, op) && c.resolving == map[]
    requires forall p :: LastSet(c.writes, op.key) <= p < |c.writes| ==> c.writes[p].key != op.key || c.writes[p].bySet
    ensures Hits(c.es, op.key, op.tClean, op.tCheck, c.idle, c.update) ==>
              && Step(c, op).es != [] && LastSet(c.writes, op.key) > 0
              && Step(c, op).es[0].value == Some(c.writes[LastSet(c.writes, op.key) - 1].value)
  {
    LookupGives(c, op);
  }

  lemma {:induction false} DropIdleFresh<T>(es: seq<Entry<T>>, clock: Time, now: Time, idle: int, i: nat)
    requires Chronological(es, clock) && i < |DropIdle(es, now, idle)|
    ensures idle <= 0 || !Aged(now, es[i].visited, idle)
  {
    if idle <= 0 || es == [] {
    } else if Aged(now, es[|es| - 1].visited, idle) {
      DropIdleFresh(es[..|es| - 1], clock, now, idle, i);
    } else if Aged(now, es[i].visited, idle) {
      AgedMonotone(now, es[i].visited, es[|es| - 1].visited, idle);
    }
  }

  lemma {:induction false} DropIdleDrops<T>(es: seq<Entry<T>>, clock: Time, now: Time, idle: int, i: nat)
    requires Chronological(es, clock) && |DropIdle(es, now, idle)| <= i < |es|
    ensures idle > 0 && Aged(now, es[i].visited, idle)
  {
    if i < |es| - 1 {
      DropIdleDrops(es[..|es| - 1], clock, now, idle, i);
    }
  }

  lemma RemovedKeyNotFound<T>(es: seq<Entry<T>>, nextId: nat, i: nat)
    requires DistinctEntries(es, nextId) && i < |es|
    ensures Find(Remove(es, i), es[i].key) == |es| - 1
  {
    var r := Remove(es, i);
    forall j | 0 <= j < |r|
      ensures r[j].key != es[i].key
    {
      assert r[j] == es[if j < i then j else j + 1];
    }
  }

  /** The other case: a resolver that was called before a set of its key, and answers after it, overwrites it. */
  lemma LateResolverWins<T>(c: Cache<T>, key: Key, id: ItemId, v: T, late: T, t: Time)
    requires Inv(c) && c.nextId <= id && c.clock <= t && c.size > 0 && c.idle == c.update == 0
    requires forall i :: 0 <= i < |c.es| ==> c.es[i].key != key
    ensures var c1 := Step(c, Lead(key, id, t, t, t));
            Legal(c1, Set(key, v, id + 1, t, t))
            && var c2 := Step(c1, Set(key, v, id + 1, t, t));
            Legal(c2, Resolved(id, late))
            && var c3 := Step(c2, Resolved(id, late));
            && c2.es != [] && c2.es[0].value == Some(v) && LastSet(c3.writes, key) == |c.writes| + 1
            && c3.es != [] && c3.es[0] == Entry(id, key, Some(late), t, t)
  {
    var c1 := Step(c, Lead(key, id, t, t, t));
    assert c1.es[0] == Entry(id, key, None, t, t);
    assert Find(c1.es, key) == 0;
    var c2 := Step(c1, Set(key, v, id + 1, t, t));
    assert c2.es[0] == Entry(id, key, Some(v), t, t);
    LastSetPushed(c1.writes, Written(key, id, v, true), key);
    LastSetPushed(c2.writes, Written(key, id, late, false), key);
  }

  /** set() on a key that is there leaves the time from which its age counts as it was, however often it is called. */
  lemma SetKeepsAge<T>(c: Cache<T>, op: Op<T>, e: Entry<T>)
    requires Inv(c) && op.Set? && Legal(c, op) && e in Expire(c.es, op.key, op.tCheck, c.update) && e.key == op.key
    ensures Step(c, op).es != []
    ensures Step(c, op).es[0] == e.(visited := op.tTouch, value := Some(op.value))
  {
    ExpireKeeps(c, op.key, op.tCheck);
    hide Valued, Log, Chronological, ByTouch, LastValues, Expire, SetEntry;
    SetInFront(c.es, op, c.update, Limit(c.size), c.nextId, e);
  }

  lemma SetInFront<T>(es0: seq<Entry<T>>, op: Op<T>, update: int, limit: nat, nextId: nat, e: Entry<T>)
    requires op.Set? && e in Expire(es0, op.key, op.tCheck, update) && e.key == op.key
    requires DistinctEntries(Expire(es0, op.key, op.tCheck, update), nextId)
    ensures var r := SetEntry(es0, op.id, op.key, op.value, op.tCheck, op.tTouch, update, limit);
            r != [] && r[0] == e.(visited := op.tTouch, value := Some(op.value))
  {
    hide Expire, Touch, Write, Alloc;
    var es := Expire(es0, op.key, op.tCheck, update);
    var i :| 0 <= i < |es| && es[i] == e;
    FoundAt(es, nextId, i);
    WrittenInFront(es, i, op.tTouch, op.value);
  }

  lemma WrittenInFront<T>(es: seq<Entry<T>>, i: nat, t: Time, v: T)
    requires i < |es|
    ensures var r := Write(Touch(es, i, t), es[i].item, v);
            r != [] && r[0] == es[i].(visited := t, value := Some(v))
  {
  }

  lemma FoundAt<T>(es: seq<Entry<T>>, nextId: nat, i: nat)
    requires DistinctEntries(es, nextId) && i < |es|
    ensures Find(es, es[i].key) == i
  {
    var key := es[i].key;
    if Find(es, key) == |es| {
      NotFound(es, key);
      assert false;
    }
  }

  /** So the sets after it do not keep an item from a lookup past its update timeout. */
  lemma SetsDoNotRefresh<T(!new)>(c: Cache<T>, op: Op<T>, e: Entry<T>)
    requires Reachable(c) && op.Lookup? && Legal(c, op) && e in c.es && e.key == op.key
    requires c.update > 0 && Aged(op.tCheck, e.updated, c.update)
    ensures !Hits(c.es, op.key, op.tClean, op.tCheck, c.idle, c.update)
  {
    ReachableInv(c);
    if Hits(c.es, op.key, op.tClean, op.tCheck, c.idle, c.update) {
      HitIsFindable(c, op);
      OneEntry(c.es, c.nextId, LookupItem(c, op), e);
    }
  }

  lemma OneEntry<T>(es: seq<Entry<T>>, nextId: nat, a: Entry<T>, b: Entry<T>)
    requires DistinctEntries(es, nextId) && a in es && b in es && a.key == b.key
    ensures a == b
  {
  }

  // What the calls alone say.

  /** The value of the last set() of a key. */
  function LastSetValue<T>(ops: seq<Op<T>>, key: Key): (v: Option<T>) {
    if ops == [] then None
    else if ops[|ops| - 1].Set? && ops[|ops| - 1].key == key then Some(ops[|ops| - 1].value)
    else LastSetValue(ops[..|ops| - 1], key)
  }

  datatype Limits = Limits(size: int, idle: int, update: int)

  /** What resize() and set_timeout() were last called with. */
  function LimitsAfter<T>(limits: Limits, ops: seq<Op<T>>): (r: Limits) {
    if ops == [] then limits
    else
      var before := LimitsAfter(limits, ops[..|ops| - 1]);
      match ops[|ops| - 1]
      case Resize(n) => before.(size := n)
      case SetTimeout(idle, update, _) => before.(idle := if idle > 0 then idle else update, update := update)
      case _ => before
  }

  ghost predicate SetsAgree<T>(c: Cache<T>, ops: seq<Op<T>>) {
    forall key :: LastSetValue(ops, key)
      == if LastSet(c.writes, key) == 0 then None else Some(c.writes[LastSet(c.writes, key) - 1].value)
  }

  ghost predicate ResolvesAgree<T>(c: Cache<T>, ops: seq<Op<T>>) {
    forall p :: 0 <= p < |c.writes| && !c.writes[p].bySet ==> Resolved(c.writes[p].item, c.writes[p].value) in ops
  }

  ghost predicate Agrees<T>(c: Cache<T>, limits: Limits, ops: seq<Op<T>>) {
    SetsAgree(c, ops) && ResolvesAgree(c, ops) && Limits(c.size, c.idle, c.update) == LimitsAfter(limits, ops)
  }

  lemma {:induction false} ReachesLast<T>(c: Cache<T>, ops: seq<Op<T>>, c': Cache<T>) returns (mid: Cache<T>)
    requires GoodSize(c) && Reaches(c, ops, c') && ops != []
    ensures GoodSize(mid) && Reaches(c, ops[..|ops| - 1], mid) && Legal(mid, ops[|ops| - 1])
    ensures c' == Step(mid, ops[|ops| - 1])
    decreases |ops|
  {
    hide Step, Legal;
    if |ops| == 1 {
      mid := c;
      assert ops[1..] == [];
    } else {
      mid := ReachesLast(Step(c, ops[0]), ops[1..], c');
      assert ops[1..][..|ops| - 2] == ops[..|ops| - 1][1..];
    }
  }

  lemma AgreesKept<T>(c: Cache<T>, limits: Limits, before: seq<Op<T>>, op: Op<T>)
    requires GoodSize(c) && Legal(c, op) && Agrees(c, limits, before)
    ensures Agrees(Step(c, op), limits, before + [op])
  {
    var ops, r := before + [op], Step(c, op);
    assert ops[..|ops| - 1] == before && ops[|ops| - 1] == op;
    if op.Set? {
      NewWrite(c, before, op, r, Written(op.key, SetItem(c, op), op.value, true));
    } else if op.Resolved? {
      NewWrite(c, before, op, r, Written(c.resolving[op.id], op.id, op.value, false));
    } else {
      SameWrites(c, before, op, r);
    }
    hide SetsAgree, ResolvesAgree;
  }

  lemma NewWrite<T>(c: Cache<T>, before: seq<Op<T>>, op: Op<T>, r: Cache<T>, w: Written<T>)
    requires SetsAgree(c, before) && ResolvesAgree(c, before) && r.writes == c.writes + [w]
    requires if op.Set? then w.bySet && w.key == op.key && w.value == op.value
             else !w.bySet && op == Resolved(w.item, w.value)
    ensures SetsAgree(r, before + [op]) && ResolvesAgree(r, before + [op])
  {
    var ops := before + [op];
    assert ops[..|ops| - 1] == before && ops[|ops| - 1] == op;
    forall key ensures LastSetValue(ops, key)
        == if LastSet(r.writes, key) == 0 then None else Some(r.writes[LastSet(r.writes, key) - 1].value)
    {
      LastSetPushed(c.writes, w, key);
    }
    hide LastSet, LastSetValue;
  }

  lemma SameWrites<T>(c: Cache<T>, before: seq<Op<T>>, op: Op<T>, r: Cache<T>)
    requires SetsAgree(c, before) && ResolvesAgree(c, before) && r.writes == c.writes && !op.Set?
    ensures SetsAgree(r, before + [op]) && ResolvesAgree(r, before + [op])
  {
    var ops := before + [op];
    assert ops[..|ops| - 1] == before && ops[|ops| - 1] == op;
  }

  lemma {:induction false} HistoryFrom<T>(c0: Cache<T>, limits: Limits, ops: seq<Op<T>>, c: Cache<T>)
    requires GoodSize(c0) && Agrees(c0, limits, []) && Reaches(c0, ops, c)
    ensures Agrees(c, limits, ops)
    decreases |ops|
  {
    hide Agrees, Step, Legal;
    if ops != [] {
      hide Reaches;
      var n := |ops| - 1;
      var mid := ReachesLast(c0, ops, c);
      HistoryFrom(c0, limits, ops[..n], mid);
      AgreesKept(mid, limits, ops[..n], ops[n]);
      assert ops[..n] + [ops[n]] == ops;
    }
  }

  predicate Calls<T>(op: Op<T>, key: Key) { (op.Set? || op.Lookup? || op.Lead?) && op.key == key }

  /** The position after the last call that set or looked up a key, 0 if there was none. */
  function LastCall<T>(ops: seq<Op<T>>, key: Key): (n: nat)
    ensures n <= |ops| && (n > 0 ==> Calls(ops[n - 1], key))
    ensures forall i :: n <= i < |ops| ==> !Calls(ops[i], key)
  {
    if ops == [] then 0
    else if Calls(ops[|ops| - 1], key) then |ops|
    else LastCall(ops[..|ops| - 1], key)
  }

  /** The position after the call that made an item, 0 if there was none. */
  function MadeAt<T>(ops: seq<Op<T>>, item: ItemId): (n: nat)
    ensures n <= |ops| && (n > 0 ==> (ops[n - 1].Set? || ops[n - 1].Lead?) && ops[n - 1].id == item)
  {
    if ops == [] then 0
    else if (ops[|ops| - 1].Set? || ops[|ops| - 1].Lead?) && ops[|ops| - 1].id == item then |ops|
    else MadeAt(ops[..|ops| - 1], item)
  }

  /** An entry has the time of the last call for its key, and the key and the time of the call that made its item. */
  ghost predicate Stamped<T>(e: Entry<T>, ops: seq<Op<T>>) {
    var n, m := LastCall(ops, e.key), MadeAt(ops, e.item);
    && n > 0 && e.visited == ops[n - 1].tTouch
    && m > 0 && e.updated == ops[m - 1].tTouch && e.key == ops[m - 1].key
  }

  ghost predicate ByCall<T>(es: seq<Entry<T>>, ops: seq<Op<T>>) {
    forall i, j :: 0 <= i < j < |es| ==> LastCall(ops, es[j].key) < LastCall(ops, es[i].key)
  }

  /** Most recently called for first. */
  ghost predicate Recent<T>(es: seq<Entry<T>>, ops: seq<Op<T>>) {
    (forall i :: 0 <= i < |es| ==> Stamped(es[i], ops)) && ByCall(es, ops)
  }

  lemma CallsPushed<T>(ops: seq<Op<T>>, op: Op<T>, e: Entry<T>)
    ensures LastCall(ops + [op], e.key) == if Calls(op, e.key) then |ops| + 1 else LastCall(ops, e.key)
    ensures MadeAt(ops + [op], e.item) == if (op.Set? || op.Lead?) && op.id == e.item then |ops| + 1 else MadeAt(ops, e.item)
  {
    assert (ops + [op])[..|ops|] == ops;
  }

  /** A call for other keys, or one that is for none. */
  lemma OthersRecent<T>(es: seq<Entry<T>>, ops: seq<Op<T>>, op: Op<T>, nextId: nat)
    requires Recent(es, ops) && DistinctEntries(es, nextId) && (op.Set? || op.Lead? ==> nextId <= op.id)
    requires forall i :: 0 <= i < |es| ==> !Calls(op, es[i].key)
    ensures Recent(es, ops + [op])
  {
    forall i | 0 <= i < |es|
      ensures Stamped(es[i], ops + [op]) && LastCall(ops + [op], es[i].key) == LastCall(ops, es[i].key)
    {
      CallsPushed(ops, op, es[i]);
    }
  }

  lemma FrontRecent<T>(front: Entry<T>, es: seq<Entry<T>>, ops: seq<Op<T>>)
    requires Recent(es, ops) && Stamped(front, ops) && LastCall(ops, front.key) == |ops| > 0
    requires forall i :: 0 <= i < |es| ==> es[i].key != front.key
    ensures Recent([front] + es, ops)
  {
    hide LastCall, Stamped, Calls;
    FrontByCall(front, es, ops);
    hide ByCall;
  }

  lemma FrontByCall<T>(front: Entry<T>, es: seq<Entry<T>>, ops: seq<Op<T>>)
    requires ByCall(es, ops) && LastCall(ops, front.key) == |ops| > 0
    requires forall i :: 0 <= i < |es| ==> es[i].key != front.key
    ensures ByCall([front] + es, ops)
  {
    hide LastCall, Calls;
    var all := [front] + es;
    forall i, j | 0 <= i < j < |all|
      ensures LastCall(ops, all[j].key) < LastCall(ops, all[i].key)
    {
      if i == 0 {
        OneKeyLast(ops, front.key, es[j - 1].key);
      } else {
        assert LastCall(ops, es[j - 1].key) < LastCall(ops, es[i - 1].key);
      }
    }
  }

  lemma OneKeyLast<T>(ops: seq<Op<T>>, key: Key, other: Key)
    requires LastCall(ops, key) == |ops| > 0 && other != key
    ensures LastCall(ops, other) < |ops|
  {
  }

  lemma RemoveRecent<T>(es: seq<Entry<T>>, ops: seq<Op<T>>, i: nat)
    requires Recent(es, ops) && i < |es|
    ensures Recent(Remove(es, i), ops)
  {
  }

  lemma PrefixRecent<T>(es: seq<Entry<T>>, ops: seq<Op<T>>, limit: nat)
    requires Recent(es, ops)
    ensures Recent(Trim(es, limit), ops)
  {
    hide Stamped, LastCall;
  }

  lemma ExpireRecent<T>(es: seq<Entry<T>>, ops: seq<Op<T>>, key: Key, t: Time, update: int)
    requires Recent(es, ops)
    ensures Recent(Expire(es, key, t, update), ops)
  {
    var i := Find(es, key);
    if i < |es| { RemoveRecent(es, ops, i); }
  }

  lemma TouchStamped<T>(e: Entry<T>, ops: seq<Op<T>>, op: Op<T>)
    requires Stamped(e, ops) && Calls(op, e.key) && (op.Set? || op.Lead? ==> op.id != e.item)
    ensures Stamped(e.(visited := op.tTouch), ops + [op]) && LastCall(ops + [op], e.key) == |ops| + 1
  {
    CallsPushed(ops, op, e);
  }

  /** The found entry comes to the front with the time of this call. */
  lemma TouchRecent<T>(es: seq<Entry<T>>, ops: seq<Op<T>>, op: Op<T>, nextId: nat, i: nat)
    requires Recent(es, ops) && DistinctEntries(es, nextId) && (op.Set? || op.Lead? ==> nextId <= op.id)
    requires (op.Set? || op.Lookup? || op.Lead?) && i < |es| && es[i].key == op.key
    ensures Recent(Touch(es, i, op.tTouch), ops + [op])
  {
    hide Stamped, ByCall, LastCall, MadeAt;
    TouchStamped(es[i], ops, op);
    RemoveRecent(es, ops, i);
    hide Recent;
    var rest, front := Remove(es, i), es[i].(visited := op.tTouch);
    assert DistinctEntries(rest, nextId) && forall j :: 0 <= j < |rest| ==> rest[j].key != front.key;
    hide DistinctEntries;
    OthersRecent(rest, ops, op, nextId);
    FrontRecent(front, rest, ops + [op]);
  }

  lemma AddRecent<T>(es: seq<Entry<T>>, ops: seq<Op<T>>, op: Op<T>, nextId: nat, limit: nat)
    requires Recent(es, ops) && DistinctEntries(es, nextId) && (op.Set? || op.Lead?) && nextId <= op.id
    requires Find(es, op.key) == |es|
    ensures Recent(Trim([Front(op)] + es, limit), ops + [op])
  {
    OthersRecent(es, ops, op, nextId);
    CallsPushed(ops, op, Front(op));
    assert (ops + [op])[|ops|] == op;
    assert Stamped(Front(op), ops + [op]);
    NotFound(es, op.key);
    PrefixRecent([Front(op)] + es, ops + [op], limit) by {
      hide Recent, Stamped, LastCall, MadeAt;
      FrontRecent(Front(op), es, ops + [op]);
    }
  }

  lemma SearchedRecent<T>(c: Cache<T>, ops: seq<Op<T>>, op: Op<T>)
    requires Inv(c) && Legal(c, op) && (op.Set? || op.Lead?) && Recent(c.es, ops)
    ensures Recent(Searched(c, op).es, ops) && DistinctEntries(Searched(c, op).es, c.nextId)
  {
    SearchedInv(c, op);
    hide Expire, Stamped, ByCall;
    ExpireRecent(if op.Lead? then DropIdle(c.es, op.tClean, c.idle) else c.es, ops, op.key, op.tCheck, c.update);
  }

  lemma SetRecent<T>(c: Cache<T>, ops: seq<Op<T>>, op: Op<T>)
    requires Inv(c) && Legal(c, op) && (op.Set? || op.Lead?) && Recent(c.es, ops)
    ensures Recent(Step(c, op).es, ops + [op])
  {
    SearchedRecent(c, ops, op);
    assert GoodSize(c);
    hide Recent, DistinctEntries, Touch, DropIdle, Expire, Write, Trim, Inv, Step, Searched;
    var es := Searched(c, op).es;
    var i := Find(es, op.key);
    if i < |es| {
      StepTouches(c, op, i);
      TouchRecent(es, ops, op, c.nextId, i);
      if op.Set? {
        WriteRecent(Touch(es, i, op.tTouch), ops + [op], es[i].item, op.value);
      }
    } else {
      StepAdds(c, op);
      AddRecent(es, ops, op, c.nextId, Limit(c.size));
    }
  }

  lemma WriteRecent<T>(es: seq<Entry<T>>, ops: seq<Op<T>>, item: ItemId, v: T)
    requires Recent(es, ops)
    ensures Recent(Write(es, item, v), ops)
  {
    forall i | 0 <= i < |es|
      ensures Stamped(Write(es, item, v)[i], ops)
    {
      assert Stamped(es[i], ops);
    }
  }

  lemma LookupRecent<T>(c: Cache<T>, ops: seq<Op<T>>, op: Op<T>)
    requires Inv(c) && Legal(c, op) && op.Lookup? && Recent(c.es, ops)
    ensures Recent(Step(c, op).es, ops + [op])
  {
    CleanedInv(c, op);
    ExpireRecent(DropIdle(c.es, op.tClean, c.idle), ops, op.key, op.tCheck, c.update);
    var es := Cleaned(c, op).es;
    var i := Find(es, op.key);
    if i < |es| {
      TouchRecent(es, ops, op, c.nextId, i);
    } else {
      OthersRecent(es, ops, op, c.nextId);
    }
  }

  lemma StepRecent<T>(c: Cache<T>, ops: seq<Op<T>>, op: Op<T>)
    requires Inv(c) && Legal(c, op) && Recent(c.es, ops)
    ensures Recent(Step(c, op).es, ops + [op])
  {
    if op.Set? || op.Lead? {
      SetRecent(c, ops, op);
    } else if op.Lookup? {
      LookupRecent(c, ops, op);
    } else {
      OthersRecent(c.es, ops, op, c.nextId);
      hide Stamped, Inv;
      match op
      case Resolved(id, v) => WriteRecent(c.es, ops + [op], id, v);
      case GaveUp(id) => if IndexOf(c.es, id) < |c.es| { RemoveRecent(c.es, ops + [op], IndexOf(c.es, id)); }
      case Erase(key, t) =>
        ExpireRecent(c.es, ops + [op], key, t, c.update);
        var es := Expire(c.es, key, t, c.update);
        if Find(es, key) < |es| { RemoveRecent(es, ops + [op], Find(es, key)); }
      case _ =>
    }
  }

  lemma {:induction false} EntriesFrom<T>(c0: Cache<T>, ops: seq<Op<T>>, c: Cache<T>)
    requires Inv(c0) && c0.es == [] && Reaches(c0, ops, c)
    ensures Recent(c.es, ops)
    decreases |ops|
  {
    assert GoodSize(c0);
    if ops != [] {
      var n := |ops| - 1;
      var mid := ReachesLast(c0, ops, c);
      ReachesKeeps(c0, ops[..n], mid);
      EntriesFrom(c0, ops[..n], mid);
      hide *;
      StepRecent(mid, ops[..n], ops[n]);
      assert ops[..n] + [ops[n]] == ops;
    }
  }

  /** Every run, told by its calls: the last set() on record is the last one called, with its value; what a resolver
      wrote is what it answered; the limits are those last given; and the entries stand in the order of the last calls
      for their keys, with the times of those calls and of the calls that made them. */
  lemma StateIsHistory<T>(size: int, idle: int, update: int, now: Time, ops: seq<Op<T>>, c: Cache<T>)
    requires -0x8000_0000 <= size < 0x8000_0000 && Reaches(Start<T>(size, idle, update, now), ops, c)
    ensures forall key :: LastSetValue(ops, key)
              == if LastSet(c.writes, key) == 0 then None else Some(c.writes[LastSet(c.writes, key) - 1].value)
    ensures forall p :: 0 <= p < |c.writes| && !c.writes[p].bySet ==>
              Resolved(c.writes[p].item, c.writes[p].value) in ops
    ensures Limits(c.size, c.idle, c.update)
         == LimitsAfter(Limits(size, if idle > 0 then idle else update, update), ops)
    ensures Recent(c.es, ops)
  {
    var c0, limits := Start<T>(size, idle, update, now), Limits(size, if idle > 0 then idle else update, update);
    assert Agrees(c0, limits, []);
    assert Inv(c0) && c0.es == [];
    hide Reaches, LastSet, LastSetValue, LimitsAfter, Start, Recent, Inv;
    HistoryFrom(c0, limits, ops, c);
    EntriesFrom(c0, ops, c);
  }

  /** The timeouts are in seconds, the clock in nanoseconds. */
  lemma AgedIff(now: Time, since: Time, timeout: int)
    requires timeout > 0
    ensures Aged(now, since, timeout) <==> now - since >= timeout * 1_000_000_000
  {
  }

  ghost predicate HasKey<T>(es: seq<Entry<T>>, key: Key) { exists e :: e in es && e.key == key }

  /** The ways out of the cache: clear, erase, a resolver that gave up, too long idle, too old, or no room. */
  ghost predicate MayLeave<T>(c: Cache<T>, op: Op<T>, e: Entry<T>)
    requires Legal(c, op) && GoodSize(c)
  {
    var full := |Step(c, op).es| == Limit(Step(c, op).size);
    match op
    case Set(_, _, _, _, _) => full
    case Lead(_, _, tClean, _, _) => full || (c.idle > 0 && Aged(tClean, e.visited, c.idle))
    case Lookup(key, tClean, tCheck, _) =>
      || (c.idle > 0 && Aged(tClean, e.visited, c.idle))
      || (e.key == key && c.update > 0 && Aged(tCheck, e.updated, c.update))
    case Resolved(_, _) => false
    case GaveUp(id) => e.item == id
    case Erase(key, _) => e.key == key
    case Resize(_) => full
    case SetTimeout(idle, update, now) =>
      var timeout := if idle > 0 then idle else update;
      timeout > 0 && Aged(now, e.visited, timeout)
    case Clear => true
  }

  lemma RemoveHas<T>(es: seq<Entry<T>>, i: nat, e: Entry<T>)
    requires i < |es| && e in es && e != es[i]
    ensures e in Remove(es, i)
  {
    var j :| 0 <= j < |es| && es[j] == e;
    assert Remove(es, i)[if j < i then j else j - 1] == e;
  }

  lemma TouchHas<T>(es: seq<Entry<T>>, i: nat, t: Time, key: Key)
    requires i < |es| && HasKey(es, key)
    ensures HasKey(Touch(es, i, t), key)
  {
    var e :| e in es && e.key == key;
    if e == es[i] {
      assert es[i].(visited := t) == Touch(es, i, t)[0];
    } else {
      RemoveHas(es, i, e);
      assert e in Touch(es, i, t);
    }
  }

  lemma WriteHas<T>(es: seq<Entry<T>>, item: ItemId, v: T, key: Key)
    requires HasKey(es, key)
    ensures HasKey(Write(es, item, v), key)
  {
    WriteKeepsKeys(es, item, v, key);
  }

  lemma ExpireHas<T>(es: seq<Entry<T>>, key: Key, t: Time, update: int, nextId: nat, e: Entry<T>)
    requires DistinctEntries(es, nextId) && e in es
    ensures e in Expire(es, key, t, update) || (e.key == key && update > 0 && Aged(t, e.updated, update))
  {
    var i := Find(es, key);
    if i < |es| && es[i] != e {
      RemoveHas(es, i, e);
    }
  }

  lemma DropIdleHas<T>(es: seq<Entry<T>>, clock: Time, now: Time, idle: int, e: Entry<T>)
    requires Chronological(es, clock) && e in es
    ensures e in DropIdle(es, now, idle) || (idle > 0 && Aged(now, e.visited, idle))
  {
    var j :| 0 <= j < |es| && es[j] == e;
    if j < |DropIdle(es, now, idle)| {
      assert DropIdle(es, now, idle)[j] == e;
    } else {
      DropIdleDrops(es, clock, now, idle, j);
    }
  }

  /** A new entry in front of a list: whoever is pushed out leaves it full. */
  lemma FrontHas<T>(front: Entry<T>, es: seq<Entry<T>>, limit: nat, key: Key)
    requires HasKey([front] + es, key)
    ensures HasKey(Trim([front] + es, limit), key) || |Trim([front] + es, limit)| == limit
  {
  }

  /** What a set or a lookup with a resolver makes of a key that is cached, and of one that is not. */
  function Front<T>(op: Op<T>): Entry<T>
    requires op.Set? || op.Lead?
  {
    Entry(op.id, op.key, if op.Set? then Some(op.value) else None, op.tTouch, op.tTouch)
  }

  lemma StepTouches<T>(c: Cache<T>, op: Op<T>, i: nat)
    requires GoodSize(c) && Legal(c, op) && (op.Set? || op.Lead?)
    requires i == Find(Searched(c, op).es, op.key) < |Searched(c, op).es|
    ensures var es := Searched(c, op).es;
            Step(c, op).es == if op.Set? then Write(Touch(es, i, op.tTouch), es[i].item, op.value) else Touch(es, i, op.tTouch)
  {
    hide Touch, Write, Expire, DropIdle, Limit;
  }

  lemma StepAdds<T>(c: Cache<T>, op: Op<T>)
    requires Inv(c) && Legal(c, op) && (op.Set? || op.Lead?)
    requires Find(Searched(c, op).es, op.key) == |Searched(c, op).es|
    ensures Step(c, op).es == Trim([Front(op)] + Searched(c, op).es, Limit(c.size))
  {
    SearchedInv(c, op);
    hide Inv, Touch, Write, Expire, DropIdle, Limit, Alloc, Trim;
    NewInFront(Searched(c, op), op);
  }

  /** The searched key is in the list afterwards, and whoever is not left it full. */
  lemma SetLeaves<T>(c: Cache<T>, op: Op<T>, key: Key)
    requires Inv(c) && Legal(c, op) && (op.Set? || op.Lead?)
    requires HasKey(Searched(c, op).es, key) || key == op.key
    ensures HasKey(Step(c, op).es, key) || |Step(c, op).es| == Limit(c.size)
  {
    assert GoodSize(c);
    hide Inv, Step, Searched, Touch, Write, Trim, Limit;
    var es := Searched(c, op).es;
    var i := Find(es, op.key);
    if i < |es| {
      StepTouches(c, op, i);
      assert es[i] in es && (key == op.key ==> HasKey(es, key));
      TouchHas(es, i, op.tTouch, key);
      if op.Set? {
        WriteHas(Touch(es, i, op.tTouch), es[i].item, op.value, key);
      }
    } else {
      StepAdds(c, op);
      FrontIn(Front(op), es, key);
      FrontHas(Front(op), es, Limit(c.size), key);
    }
  }

  /** A key that was set, or is being resolved, stands first, with the value set; only a cache for no items at all
      keeps nothing. */
  lemma SetArrives<T(!new)>(c: Cache<T>, op: Op<T>)
    requires Reachable(c) && Legal(c, op) && (op.Set? || op.Lead?)
    ensures Step(c, op).es == [] <==> Limit(c.size) == 0
    ensures Limit(c.size) > 0 ==>
              var e := Step(c, op).es[0];
              e.key == op.key && e.visited == op.tTouch && (op.Set? ==> e.value == Some(op.value))
  {
    ReachableInv(c);
    assert GoodSize(c);
    SearchedInv(c, op);
    var es := Searched(c, op).es;
    var i := Find(es, op.key);
    assert |es| <= Limit(c.size);
    hide Inv, Step, Searched, Limit;
    if i < |es| { StepTouches(c, op, i); } else { StepAdds(c, op); }
  }

  lemma FrontIn<T>(front: Entry<T>, es: seq<Entry<T>>, key: Key)
    requires HasKey(es, key) || key == front.key
    ensures HasKey([front] + es, key)
  {
    if key == front.key {
      assert front in [front] + es;
    } else {
      var e :| e in es && e.key == key;
      assert e in [front] + es;
    }
  }

  /** In every reachable state an entry leaves the cache only by one of these ways. */
  lemma LeavesOnlyWhen<T(!new)>(c: Cache<T>, op: Op<T>, e: Entry<T>)
    requires Reachable(c) && Legal(c, op) && e in c.es
    ensures HasKey(Step(c, op).es, e.key) || MayLeave(c, op, e)
  {
    ReachableInv(c);
    LeavesWhen(c, op, e);
  }

  lemma LeavesWhen<T>(c: Cache<T>, op: Op<T>, e: Entry<T>)
    requires Inv(c) && Legal(c, op) && e in c.es
    ensures HasKey(Step(c, op).es, e.key) || MayLeave(c, op, e)
  {
    hide Valued, Log, LastValues, ByTouch, LastTouch;
    match op
    case Set(key, _, _, tCheck, _) =>
      ExpireHas(c.es, key, tCheck, c.update, c.nextId, e);
      hide Inv, Step, DropIdle, Expire;
      SetLeaves(c, op, e.key);
    case Lead(key, _, tClean, tCheck, _) =>
      LeadLeaves(c, op, e);
    case Lookup(_, _, _, _) => LookupLeaves(c, op, e);
    case Resolved(id, v) =>
      assert HasKey(c.es, e.key);
      WriteHas(c.es, id, v, e.key);
    case GaveUp(id) => GaveUpLeaves(c, id, e);
    case Erase(key, tCheck) => EraseLeaves(c, key, tCheck, e);
    case Resize(n) => assert |c.es| <= Limit(n) ==> Step(c, op).es == c.es;
    case SetTimeout(idle, update, now) => DropIdleHas(c.es, c.clock, now, if idle > 0 then idle else update, e);
    case Clear =>
  }

  lemma LeadLeaves<T>(c: Cache<T>, op: Op<T>, e: Entry<T>)
    requires Inv(c) && op.Lead? && Legal(c, op) && e in c.es
    ensures HasKey(Step(c, op).es, e.key) || |Step(c, op).es| == Limit(c.size) || (c.idle > 0 && Aged(op.tClean, e.visited, c.idle))
  {
    DropIdleHas(c.es, c.clock, op.tClean, c.idle, e);
    var c1 := c.(es := DropIdle(c.es, op.tClean, c.idle), clock := op.tClean);
    PrefixKeeps(c, c1);
    if e in c1.es {
      ExpireHas(c1.es, op.key, op.tCheck, c.update, c.nextId, e);
      hide Inv, Step, DropIdle, Expire;
      SetLeaves(c, op, e.key);
    }
  }

  lemma LookupLeaves<T>(c: Cache<T>, op: Op<T>, e: Entry<T>)
    requires Inv(c) && op.Lookup? && Legal(c, op) && e in c.es
    ensures || HasKey(Step(c, op).es, e.key)
            || (c.idle > 0 && Aged(op.tClean, e.visited, c.idle))
            || (e.key == op.key && c.update > 0 && Aged(op.tCheck, e.updated, c.update))
  {
    DropIdleHas(c.es, c.clock, op.tClean, c.idle, e);
    var c1 := c.(es := DropIdle(c.es, op.tClean, c.idle), clock := op.tClean);
    PrefixKeeps(c, c1);
    if e in c1.es {
      ExpireHas(c1.es, op.key, op.tCheck, c.update, c.nextId, e);
      hide Inv, DropIdle, Expire, Touch;
      var es := Cleaned(c, op).es;
      if e in es {
        assert HasKey(es, e.key);
        var i := Find(es, op.key);
        if i < |es| { TouchHas(es, i, op.tTouch, e.key); }
      }
    }
  }

  lemma GaveUpLeaves<T>(c: Cache<T>, id: ItemId, e: Entry<T>)
    requires e in c.es
    ensures HasKey(Without(c.es, id), e.key) || e.item == id
  {
    var i := IndexOf(c.es, id);
    if i < |c.es| && c.es[i] != e {
      RemoveHas(c.es, i, e);
    }
  }

  lemma EraseLeaves<T>(c: Cache<T>, key: Key, tCheck: Time, e: Entry<T>)
    requires Inv(c) && e in c.es
    ensures HasKey(EraseEntry(c.es, key, tCheck, c.update), e.key) || e.key == key
  {
    ExpireHas(c.es, key, tCheck, c.update, c.nextId, e);
    var es := Expire(c.es, key, tCheck, c.update);
    hide Inv, Expire;
    if e.key != key {
      var i := Find(es, key);
      if i < |es| { RemoveHas(es, i, e); }
    }
  }

  /** Every key of r is one of es. */
  ghost predicate KeysFrom<T>(r: seq<Entry<T>>, es: seq<Entry<T>>) {
    forall i :: 0 <= i < |r| ==> HasKey(es, r[i].key)
  }

  lemma RemoveFrom<T>(es: seq<Entry<T>>, i: nat)
    requires i < |es|
    ensures KeysFrom(Remove(es, i), es)
  {
    forall j | 0 <= j < |es| - 1 ensures HasKey(es, Remove(es, i)[j].key) {
      assert es[if j < i then j else j + 1] in es;
    }
  }

  lemma ExpireFrom<T>(es: seq<Entry<T>>, key: Key, t: Time, update: int)
    ensures KeysFrom(Expire(es, key, t, update), es)
  {
    var i := Find(es, key);
    if i < |es| {
      RemoveFrom(es, i);
    }
    SameFrom(es);
  }

  lemma SameFrom<T>(es: seq<Entry<T>>)
    ensures KeysFrom(es, es)
  {
    forall i | 0 <= i < |es| ensures HasKey(es, es[i].key) {
      assert es[i] in es;
    }
  }

  lemma PrefixFrom<T>(es: seq<Entry<T>>, n: nat)
    requires n <= |es|
    ensures KeysFrom(es[..n], es)
  {
    forall i | 0 <= i < n ensures HasKey(es, es[..n][i].key) {
      assert es[i] in es;
    }
  }

  lemma TouchFrom<T>(es: seq<Entry<T>>, i: nat, t: Time)
    requires i < |es|
    ensures KeysFrom(Touch(es, i, t), es)
  {
    RemoveFrom(es, i);
    assert es[i] in es;
  }

  lemma NoKeyFrom<T>(r: seq<Entry<T>>, es: seq<Entry<T>>, key: Key)
    requires KeysFrom(r, es) && !HasKey(es, key)
    ensures !HasKey(r, key)
  {
  }

  lemma SearchedFrom<T>(c: Cache<T>, op: Op<T>, key: Key)
    requires (op.Set? || op.Lead? || op.Lookup?) && !HasKey(c.es, key)
    ensures !HasKey(if op.Set? then Searched(c, op).es else Cleaned(c, op).es, key)
  {
    hide Expire;
    if op.Set? {
      ExpireFrom(c.es, op.key, op.tCheck, c.update);
      NoKeyFrom(Searched(c, op).es, c.es, key);
    } else {
      var d := DropIdle(c.es, op.tClean, c.idle);
      PrefixFrom(c.es, |d|);
      NoKeyFrom(d, c.es, key);
      ExpireFrom(d, op.key, op.tCheck, c.update);
      NoKeyFrom(Cleaned(c, op).es, d, key);
    }
  }

  lemma FoundFrom<T>(es: seq<Entry<T>>, i: nat, op: Op<T>, key: Key)
    requires i < |es| && !HasKey(es, key) && (op.Set? || op.Lead? || op.Lookup?)
    ensures !HasKey(Touch(es, i, op.tTouch), key)
    ensures op.Set? ==> !HasKey(Write(Touch(es, i, op.tTouch), es[i].item, op.value), key)
  {
    TouchFrom(es, i, op.tTouch);
    NoKeyFrom(Touch(es, i, op.tTouch), es, key);
    hide Touch;
  }

  lemma FrontFrom<T>(es: seq<Entry<T>>, op: Op<T>, limit: nat, key: Key)
    requires (op.Set? || op.Lead?) && op.key != key && !HasKey(es, key)
    ensures !HasKey(Alloc(es, op.id, op.key, op.tTouch, limit), key)
    ensures op.Set? ==> !HasKey(Write(Alloc(es, op.id, op.key, op.tTouch, limit), op.id, op.value), key)
  {
  }

  /** Nothing but a set or a resolving lookup of a key brings the key in. */
  lemma NoNewKey<T>(c: Cache<T>, op: Op<T>, key: Key)
    requires GoodSize(c) && Legal(c, op) && !HasKey(c.es, key) && ((op.Set? || op.Lead?) ==> op.key != key)
    ensures !HasKey(Step(c, op).es, key)
  {
    hide Aged, Limit, HasKey, Touch, Alloc, Write, Trim, DropIdle, Expire, Remove;
    if op.Set? || op.Lead? || op.Lookup? {
      SearchedFrom(c, op, key);
      var es := if op.Set? then Searched(c, op).es else Cleaned(c, op).es;
      var i := Find(es, op.key);
      if i < |es| {
        FoundFrom(es, i, op, key);
      } else if !op.Lookup? {
        FrontFrom(es, op, Limit(c.size), key);
      }
    } else {
      OtherFrom(c, op, key);
    }
  }

  lemma OtherFrom<T>(c: Cache<T>, op: Op<T>, key: Key)
    requires Legal(c, op) && GoodSize(c) && !HasKey(c.es, key) && !op.Set? && !op.Lead? && !op.Lookup?
    ensures !HasKey(Step(c, op).es, key)
  {
    var r := Step(c, op).es;
    match op
    case Erase(k, t) =>
      var es := Expire(c.es, k, t, c.update);
      ExpireFrom(c.es, k, t, c.update);
      NoKeyFrom(es, c.es, key);
      var i := Find(es, k);
      if i < |es| {
        RemoveFrom(es, i);
        NoKeyFrom(r, es, key);
      }
    case GaveUp(id) =>
      var i := IndexOf(c.es, id);
      if i < |c.es| {
        RemoveFrom(c.es, i);
        NoKeyFrom(r, c.es, key);
      }
    case Resolved(_, _) =>
      forall i | 0 <= i < |r| ensures HasKey(c.es, r[i].key) {
        assert c.es[i] in c.es;
      }
      NoKeyFrom(r, c.es, key);
    case Resize(_) =>
      PrefixFrom(c.es, |r|);
      NoKeyFrom(r, c.es, key);
    case SetTimeout(_, _, _) =>
      PrefixFrom(c.es, |r|);
      NoKeyFrom(r, c.es, key);
    case Clear =>
  }

  lemma EraseRemoves<T>(c: Cache<T>, key: Key, tCheck: Time)
    requires Inv(c) && Legal(c, Erase(key, tCheck))
    ensures !HasKey(Step(c, Erase(key, tCheck)).es, key)
  {
    ExpireKeeps(c, key, tCheck);
    hide Valued, Log, LastValues, ByTouch, Chronological;
    var es := Expire(c.es, key, tCheck, c.update);
    var i := Find(es, key);
    if i == |es| {
      NotFound(es, key);
    } else {
      RemovedKeyNotFound(es, c.nextId, i);
      NotFound(Remove(es, i), key);
    }
  }

  lemma {:induction false} StaysOut<T>(c: Cache<T>, ops: seq<Op<T>>, c': Cache<T>, key: Key)
    requires Inv(c) && Reaches(c, ops, c') && !HasKey(c.es, key)
    requires forall i :: 0 <= i < |ops| ==> (ops[i].Set? || ops[i].Lead?) ==> ops[i].key != key
    ensures Inv(c') && !HasKey(c'.es, key)
    decreases |ops|
  {
    if ops != [] {
      StepKeeps(c, ops[0]);
      NoNewKey(c, ops[0], key);
      hide Inv, HasKey, Step, Legal;
      StaysOut(Step(c, ops[0]), ops[1..], c', key);
    }
  }

  /** After erase(key), and until the key is set or resolved again, no lookup finds it, whatever else happens. */
  lemma ErasedIsMissed<T(!new)>(c: Cache<T>, key: Key, tCheck: Time, ops: seq<Op<T>>, c': Cache<T>, op: Op<T>)
    requires Reachable(c) && Legal(c, Erase(key, tCheck)) && Reaches(Step(c, Erase(key, tCheck)), ops, c')
    requires forall i :: 0 <= i < |ops| ==> (ops[i].Set? || ops[i].Lead?) ==> ops[i].key != key
    requires op.Lookup? && op.key == key && Legal(c', op)
    ensures !Hits(c'.es, key, op.tClean, op.tCheck, c'.idle, c'.update)
  {
    ReachableInv(c);
    StepKeeps(c, Erase(key, tCheck));
    EraseRemoves(c, key, tCheck);
    StaysOut(Step(c, Erase(key, tCheck)), ops, c', key);
    hide Reaches, Step;
    if Hits(c'.es, key, op.tClean, op.tCheck, c'.idle, c'.update) {
      HitIsFindable(c', op);
    }
  }

  /** The cache a set() or a leading lookup searches. */
  function Searched<T>(c: Cache<T>, op: Op<T>): (r: Cache<T>)
    requires op.Set? || op.Lead?
  {
    if op.Lead? then Cleaned(c, op) else c.(es := Expire(c.es, op.key, op.tCheck, c.update), clock := op.tCheck)
  }

  /** A set, or a lookup that makes an item to resolve, that pushes an entry out of the cache for lack of room leaves
      m_size other keys in it, each of them touched after the last touch of the key that went. */
  lemma EvictedAfterOthers<T(!new)>(c: Cache<T>, op: Op<T>, e: Entry<T>) returns (others: set<Key>)
    requires Reachable(c) && (op.Set? || op.Lead?) && Legal(c, op) && e in Searched(c, op).es
    requires forall x :: x in Step(c, op).es ==> x.key != e.key
    ensures |others| == Limit(c.size) && e.key !in others && others == Keys(Step(c, op).es)
    ensures forall k :: k in others ==>
              LastTouch(c.touches + [op.key], k) > LastTouch(c.touches + [op.key], e.key)
  {
    ReachableInv(c);
    StepKeeps(c, op);
    SearchedInv(c, op);
    OnlyNewEvicts(c, op, e);
    var front := Front(op);
    var r := Step(c, op);
    hide Inv, Step, Searched, Cleaned;
    others := EvictedAfterOthersIn(Searched(c, op), e, front, r.es, r.nextId);
  }

  lemma SearchedInv<T>(c: Cache<T>, op: Op<T>)
    requires Inv(c) && (op.Set? || op.Lead?) && Legal(c, op)
    ensures var s := Searched(c, op); Inv(s) && s.touches == c.touches && s.size == c.size && s.nextId == c.nextId
    ensures Inv(Step(c, op)) ==> DistinctEntries(Step(c, op).es, Step(c, op).nextId)
  {
    if op.Lead? {
      CleanedInv(c, op);
    } else {
      ExpireKeeps(c, op.key, op.tCheck);
    }
  }

  /** Only a new entry, put in front of all, can push one out. */
  lemma OnlyNewEvicts<T>(c: Cache<T>, op: Op<T>, e: Entry<T>)
    requires Inv(c) && (op.Set? || op.Lead?) && Legal(c, op) && e in Searched(c, op).es
    requires forall x :: x in Step(c, op).es ==> x.key != e.key
    ensures Find(Searched(c, op).es, op.key) == |Searched(c, op).es|
    ensures Step(c, op).es == Trim([Front(op)] + Searched(c, op).es, Limit(c.size))
  {
    assert GoodSize(c);
    hide Inv, Step, Searched, Touch, Write, Trim, Limit;
    var es := Searched(c, op).es;
    var i := Find(es, op.key);
    if i < |es| {
      StepTouches(c, op, i);
      assert HasKey(es, e.key);
      TouchHas(es, i, op.tTouch, e.key);
      if op.Set? {
        WriteHas(Touch(es, i, op.tTouch), es[i].item, op.value, e.key);
      }
      assert false;
    }
    StepAdds(c, op);
  }

  lemma NewInFront<T>(s: Cache<T>, op: Op<T>)
    requires Inv(s) && (op.Set? || op.Lead?) && s.nextId <= op.id
    ensures Alloc(s.es, op.id, op.key, op.tTouch, Limit(s.size))
         == Trim([Entry(op.id, op.key, None, op.tTouch, op.tTouch)] + s.es, Limit(s.size))
    ensures op.Set? ==>
              Write(Alloc(s.es, op.id, op.key, op.tTouch, Limit(s.size)), op.id, op.value)
              == Trim([Entry(op.id, op.key, Some(op.value), op.tTouch, op.tTouch)] + s.es, Limit(s.size))
  {
    if op.Set? {
      AllocThenWrite(s.es, op.key, op.value, op.id, op.tTouch, Limit(s.size), s.nextId);
    }
  }

  lemma EvictedAfterOthersIn<T>(c: Cache<T>, e: Entry<T>, front: Entry<T>, r: seq<Entry<T>>, nextId: nat)
    returns (others: set<Key>)
    requires Inv(c) && e in c.es && Find(c.es, front.key) == |c.es|
    requires r == Trim([front] + c.es, Limit(c.size)) && DistinctEntries(r, nextId)
    requires forall x :: x in r ==> x.key != e.key
    ensures |others| == Limit(c.size) && e.key !in others && others == Keys(r)
    ensures forall k :: k in others ==>
              LastTouch(c.touches + [front.key], k) > LastTouch(c.touches + [front.key], e.key)
  {
    hide Valued, Log, Chronological, LastValues, ByTouch, Limit;
    var n :| 0 <= n < |c.es| && c.es[n] == e;
    NotFound(c.es, front.key);
    EvictedPlace(c.es, [front] + c.es, front, n, c.size, r);
    others := Keys(r);
    KeysCount(r, nextId);
    forall k | k in others
      ensures k != e.key && LastTouch(c.touches + [front.key], k) > LastTouch(c.touches + [front.key], e.key)
    {
      var j :| 0 <= j < |r| && r[j].key == k;
      TouchedAfter(c, front.key, n, j, k);
    }
  }

  lemma TouchedAfter<T>(c: Cache<T>, key: Key, n: nat, j: nat, k: Key)
    requires Inv(c) && n < |c.es| && c.es[n].key != key && j <= n
    requires k == if j == 0 then key else c.es[j - 1].key
    ensures k != c.es[n].key
    ensures LastTouch(c.touches + [key], k) > LastTouch(c.touches + [key], c.es[n].key)
  {
    LastTouchPushed(c.touches, key, k);
    LastTouchPushed(c.touches, key, c.es[n].key);
  }

  lemma TouchKeepsKeys<T>(es: seq<Entry<T>>, i: nat, t: Time, n: nat)
    requires i < |es| && n < |es|
    ensures exists x :: x in Touch(es, i, t) && x.key == es[n].key
  {
    var m := if n == i then 0 else if n < i then n + 1 else n;
    assert Touch(es, i, t)[m] in Touch(es, i, t) && Touch(es, i, t)[m].key == es[n].key;
  }

  lemma WriteKeepsKeys<T>(es: seq<Entry<T>>, item: ItemId, v: T, key: Key)
    requires exists x :: x in es && x.key == key
    ensures exists x :: x in Write(es, item, v) && x.key == key
  {
    var m :| 0 <= m < |es| && es[m].key == key;
    assert Write(es, item, v)[m] in Write(es, item, v);
  }

  lemma InPrefix<E>(s: seq<E>, m: nat, k: nat)
    requires m < k <= |s|
    ensures s[m] in s[..k]
  {
    assert s[..k][m] == s[m];
  }

  /** Only a new key pushes an entry out, and the entries in front of it stay. */
  lemma EvictedPlace<T>(es: seq<Entry<T>>, all: seq<Entry<T>>, e: Entry<T>, n: nat, size: int, r: seq<Entry<T>>)
    requires -0x8000_0000 <= size < 0x8000_0000 && n < |es| <= Limit(size)
    requires all == [e] + es && r == Trim(all, Limit(size))
    requires forall x :: x in r ==> x.key != es[n].key
    ensures |r| == Limit(size) <= n + 1 && r == all[..|r|]
  {
    if n + 1 < |r| {
      InPrefix(all, n + 1, |r|);
    }
  }

  function Keys<T>(es: seq<Entry<T>>): (ks: set<Key>) { set i | 0 <= i < |es| :: es[i].key }

  lemma {:induction false} KeysCount<T>(es: seq<Entry<T>>, nextId: nat)
    requires DistinctEntries(es, nextId)
    ensures |Keys(es)| == |es|
  {
    if es != [] {
      var last := |es| - 1;
      KeysCount(es[..last], nextId);
      assert forall j :: 0 <= j < last ==> es[..last][j].key == es[j].key;
      assert Keys(es) == Keys(es[..last]) + {es[last].key};
    }
  }
}
