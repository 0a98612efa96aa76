/** The least-recently-used cache (fibjs/include/LruCache.h): a hash map from keys to items and two
    lists of the same items, each item remembering its own place in all three.
    CacheModel is the cache as one list of entries, most recently touched first; LruCaches is the
    class with its three containers, each of whose methods does to the list what CacheModel says. */
module CacheModel {
  import opened Results

  type Key = string
  /** A reading of the system clock, in nanoseconds. */
  type Time = int
  type ItemId = nat

  datatype Entry<T> = Entry(item: ItemId, key: Key, value: Option<T>, visited: Time, updated: Time)

  /** duration_cast to milliseconds truncates toward zero. */
  function Milliseconds(d: int): (ms: int) { if d >= 0 then d / 1_000_000 else -((-d) / 1_000_000) }

  /** The age test of find_map and clean_expired, for a timeout in seconds. */
  predicate Aged(now: Time, since: Time, timeout: int) { Milliseconds(now - since) >= timeout * 1000 }

  /** m_used.size() > m_size compares a size_t with an int32_t: a negative limit is a huge one. */
  function Limit(size: int): (n: nat)
    requires -0x8000_0000 <= size < 0x8000_0000
  {
    if size >= 0 then size else 0x1_0000_0000_0000_0000 + size
  }

  function Remove<E>(es: seq<E>, i: nat): (r: seq<E>)
    requires i < |es|
    ensures |r| == |es| - 1
    ensures forall j :: 0 <= j < |r| ==> r[j] == es[if j < i then j else j + 1]
  {
    es[..i] + es[i + 1..]
  }

  /** The index of the entry for a key, |es| if there is none. */
  function Find<T>(es: seq<Entry<T>>, key: Key): (i: nat)
    ensures i <= |es| && (i < |es| ==> es[i].key == key)
    ensures forall j :: 0 <= j < i ==> es[j].key != key
  {
    if es == [] || es[0].key == key then 0 else 1 + Find(es[1..], key)
  }

  /** find_map: a key past its update timeout is erased, and then not found. */
  function Expire<T>(es: seq<Entry<T>>, key: Key, now: Time, update: int): (r: seq<Entry<T>>) {
    var i := Find(es, key);
    if i < |es| && update > 0 && Aged(now, es[i].updated, update) then Remove(es, i) else es
  }

  /** find_item on a key that is there: it becomes the most recent one. */
  function Touch<T>(es: seq<Entry<T>>, i: nat, now: Time): (r: seq<Entry<T>>)
    requires i < |es|
  {
    [es[i].(visited := now)] + Remove(es, i)
  }

  /** clean_used */
  function Trim<T>(es: seq<Entry<T>>, limit: nat): (r: seq<Entry<T>>) {
    if |es| > limit then es[..limit] else es
  }

  /** clean_expired: from the back, up to the first entry that is not idle. */
  function DropIdle<T>(es: seq<Entry<T>>, now: Time, idle: int): (r: seq<Entry<T>>)
    ensures |r| <= |es| && r == es[..|r|]
  {
    if idle <= 0 || es == [] || !Aged(now, es[|es| - 1].visited, idle) then es
    else DropIdle(es[..|es| - 1], now, idle)
  }

  lemma RemoveLast<E>(es: seq<E>)
    requires es != []
    ensures Remove(es, |es| - 1) == es[..|es| - 1]
  {
  }

  lemma DropIdleStep<T>(es: seq<Entry<T>>, now: Time, idle: int)
    ensures idle <= 0 || es == [] ==> DropIdle(es, now, idle) == es
    ensures idle > 0 && es != [] && !Aged(now, es[|es| - 1].visited, idle) ==> DropIdle(es, now, idle) == es
    ensures idle > 0 && es != [] && Aged(now, es[|es| - 1].visited, idle) ==>
              DropIdle(es, now, idle) == DropIdle(es[..|es| - 1], now, idle)
  {
  }

  function Alloc<T>(es: seq<Entry<T>>, item: ItemId, key: Key, now: Time, limit: nat): (r: seq<Entry<T>>) {
    Trim([Entry(item, key, None, now, now)] + es, limit)
  }

  /** find_item with allocation. */
  function FindOrAlloc<T>(es: seq<Entry<T>>, item: ItemId, key: Key, tCheck: Time, tTouch: Time, update: int, limit: nat)
    : (r: seq<Entry<T>>)
  {
    var es1 := Expire(es, key, tCheck, update);
    var i := Find(es1, key);
    if i < |es1| then Touch(es1, i, tTouch) else Alloc(es1, item, key, tTouch, limit)
  }

  /** Writing the value of an item, seen in the list if the item is (still) there. */
  function Write<T>(es: seq<Entry<T>>, item: ItemId, v: T): (r: seq<Entry<T>>)
    ensures |r| == |es|
    ensures forall i :: 0 <= i < |es| ==> r[i] == if es[i].item == item then es[i].(value := Some(v)) else es[i]
  {
    seq(|es|, i requires 0 <= i < |es| => if es[i].item == item then es[i].(value := Some(v)) else es[i])
  }

  /** set(); `item` is the identity of the item it would create. */
  function SetEntry<T>(es: seq<Entry<T>>, item: ItemId, key: Key, v: T, tCheck: Time, tTouch: Time, update: int, limit: nat)
    : (r: seq<Entry<T>>)
  {
    var es1 := Expire(es, key, tCheck, update);
    var i := Find(es1, key);
    if i < |es1| then Write(Touch(es1, i, tTouch), es1[i].item, v)
    else Write(Alloc(es1, item, key, tTouch, limit), item, v)
  }

  /** lookup() without a resolver; it finds the key if it comes first afterwards. */
  function LookupEntry<T>(es: seq<Entry<T>>, key: Key, tClean: Time, tCheck: Time, tTouch: Time, idle: int, update: int)
    : (r: seq<Entry<T>>)
  {
    var es1 := Expire(DropIdle(es, tClean, idle), key, tCheck, update);
    var i := Find(es1, key);
    if i < |es1| then Touch(es1, i, tTouch) else es1
  }

  predicate Hits<T>(es: seq<Entry<T>>, key: Key, tClean: Time, tCheck: Time, idle: int, update: int) {
    var es1 := Expire(DropIdle(es, tClean, idle), key, tCheck, update);
    Find(es1, key) < |es1|
  }

  /** The index of the entry for an item, |es| if there is none. */
  function IndexOf<T>(es: seq<Entry<T>>, item: ItemId): (i: nat)
    ensures i <= |es| && (i < |es| ==> es[i].item == item)
    ensures forall j :: 0 <= j < i ==> es[j].item != item
  {
    if es == [] || es[0].item == item then 0 else 1 + IndexOf(es[1..], item)
  }

  /** erase_item, seen in the list. */
  function Without<T>(es: seq<Entry<T>>, item: ItemId): (r: seq<Entry<T>>) {
    var i := IndexOf(es, item);
    if i < |es| then Remove(es, i) else es
  }

  /** erase() */
  function EraseEntry<T>(es: seq<Entry<T>>, key: Key, tCheck: Time, update: int): (r: seq<Entry<T>>) {
    var es1 := Expire(es, key, tCheck, update);
    var i := Find(es1, key);
    if i < |es1| then Remove(es1, i) else es1
  }
}

module LruCaches {
  import opened Results
  import opened CacheModel

  /** A std::list node: its identity is what a list iterator holds. */
  datatype Node = Node(id: nat, item: ItemId)

  /** Iterators are node identities; the map iterator is the key, or None for end(). */
  datatype CacheItem<T> = CacheItem(
    value: Option<T>, mapIter: Option<Key>, usedIter: nat, expiredIter: nat, visited: Time, updated: Time)

  /** The place of the node an iterator names. */
  function Locate(ns: seq<Node>, id: nat): (i: nat)
    ensures i <= |ns| && (i < |ns| ==> ns[i].id == id)
    ensures forall j :: 0 <= j < i ==> ns[j].id != id
  {
    if ns == [] || ns[0].id == id then 0 else 1 + Locate(ns[1..], id)
  }

  ghost predicate InArena<T>(items: map<ItemId, CacheItem<T>>, ns: seq<Node>) {
    forall i :: 0 <= i < |ns| ==> ns[i].item in items
  }

  ghost function ToEntry<T>(id: ItemId, it: CacheItem<T>): (e: Entry<T>) {
    Entry(id, if it.mapIter.Some? then it.mapIter.value else "", it.value, it.visited, it.updated)
  }

  ghost function ViewOf<T>(items: map<ItemId, CacheItem<T>>, ns: seq<Node>): (es: seq<Entry<T>>)
    requires InArena(items, ns)
    ensures |es| == |ns|
    ensures forall i :: 0 <= i < |ns| ==> es[i] == ToEntry(ns[i].item, items[ns[i].item])
  {
    seq(|ns|, i requires 0 <= i < |ns| => ToEntry(ns[i].item, items[ns[i].item]))
  }

  /** The three containers and the items. */
  datatype Shape<T> = Shape(table: map<Key, ItemId>, used: seq<Node>, expired: seq<Node>,
                            items: map<ItemId, CacheItem<T>>, nextId: nat)

  ghost predicate Ids(ns: seq<Node>, nextId: nat) {
    && (forall i :: 0 <= i < |ns| ==> ns[i].id < nextId)
    && (forall i, j :: 0 <= i < j < |ns| ==> ns[i].id != ns[j].id)
  }

  /** The lists hold the same items in the same order, and each item names its own nodes. */
  ghost predicate BackLinks<T>(sh: Shape<T>) {
    && |sh.used| == |sh.expired| && InArena(sh.items, sh.used)
    && forall i :: 0 <= i < |sh.used| ==>
         && sh.expired[i].item == sh.used[i].item
         && sh.items[sh.used[i].item].usedIter == sh.used[i].id
         && sh.items[sh.used[i].item].expiredIter == sh.expired[i].id
  }

  /** The map holds exactly the listed items, under the keys they name. */
  ghost predicate MapLinks<T>(sh: Shape<T>) {
    && InArena(sh.items, sh.used)
    && (forall i :: 0 <= i < |sh.used| ==>
          && sh.items[sh.used[i].item].mapIter.Some?
          && sh.items[sh.used[i].item].mapIter.value in sh.table
          && sh.table[sh.items[sh.used[i].item].mapIter.value] == sh.used[i].item)
    && (forall k :: k in sh.table ==> sh.table[k] in sh.items && sh.items[sh.table[k]].mapIter == Some(k))
    && (forall x :: x in sh.items && sh.items[x].mapIter.Some? ==> Listed(sh.used, x))
  }

  ghost predicate Listed(ns: seq<Node>, x: ItemId) { exists i :: 0 <= i < |ns| && ns[i].item == x }

  ghost predicate Linked<T>(sh: Shape<T>) {
    && Ids(sh.used, sh.nextId) && Ids(sh.expired, sh.nextId) && BackLinks(sh) && MapLinks(sh)
    && forall x :: x in sh.items ==> x < sh.nextId
  }

  lemma ItemsDistinct<T>(sh: Shape<T>, i: nat, j: nat)
    requires Linked(sh) && i < |sh.used| && j < |sh.used| && sh.used[i].item == sh.used[j].item
    ensures i == j
  {
  }

  /** Where a cached item sits, in both lists and in the view. */
  lemma PlaceOf<T>(sh: Shape<T>, x: ItemId) returns (i: nat)
    requires Linked(sh) && x in sh.items && sh.items[x].mapIter.Some?
    ensures i < |sh.used| && sh.used[i].item == x && sh.expired[i].item == x
    ensures Locate(sh.used, sh.items[x].usedIter) == i && Locate(sh.expired, sh.items[x].expiredIter) == i
    ensures Find(ViewOf(sh.items, sh.used), sh.items[x].mapIter.value) == i
  {
    assert Listed(sh.used, x);
    i :| 0 <= i < |sh.used| && sh.used[i].item == x;
    var es := ViewOf(sh.items, sh.used);
    var k := sh.items[x].mapIter.value;
    assert es[i].key == k;
    var j := Find(es, k);
    assert es[j].key == k;
    ItemsDistinct(sh, i, j);
  }

  /** An item is in the view exactly while it names its place in the map. */
  lemma ItemPlace<T>(sh: Shape<T>, x: ItemId)
    requires Linked(sh) && x in sh.items
    ensures var es := ViewOf(sh.items, sh.used);
            IndexOf(es, x) == if sh.items[x].mapIter.Some? then Find(es, sh.items[x].mapIter.value) else |es|
  {
    var es := ViewOf(sh.items, sh.used);
    var i := IndexOf(es, x);
    assert i < |es| ==> sh.used[i].item == x;
    if sh.items[x].mapIter.Some? {
      var p := PlaceOf(sh, x);
      assert es[p].item == x;
      ItemsDistinct(sh, i, p);
    }
  }

  /** The last entry, as clean_used and clean_expired find it. */
  lemma LastPlace<T>(sh: Shape<T>)
    requires Linked(sh) && (sh.used != [] || sh.expired != [])
    ensures |sh.used| == |sh.expired| == |ViewOf(sh.items, sh.used)|
    ensures var last := |sh.used| - 1;
            var x := sh.used[last].item;
            && sh.expired[last].item == x && x in sh.items && sh.items[x].mapIter.Some?
            && Find(ViewOf(sh.items, sh.used), sh.items[x].mapIter.value) == last
            && ViewOf(sh.items, sh.used)[last].visited == sh.items[x].visited
  {
    var last := |sh.used| - 1;
    var p := PlaceOf(sh, sh.used[last].item);
    ItemsDistinct(sh, p, last);
  }

  lemma ViewLength<T>(sh: Shape<T>)
    requires Linked(sh)
    ensures |ViewOf(sh.items, sh.used)| == |sh.used| == |sh.expired|
  {
  }

  /** What BackLinks and MapLinks say of each place. */
  lemma Lists<T>(sh: Shape<T>)
    requires Linked(sh)
    ensures |sh.used| == |sh.expired| && InArena(sh.items, sh.used)
    ensures forall i :: 0 <= i < |sh.used| ==>
              && sh.expired[i].item == sh.used[i].item
              && sh.items[sh.used[i].item].usedIter == sh.used[i].id
              && sh.items[sh.used[i].item].expiredIter == sh.expired[i].id
  {
  }

  /** A key is in the map exactly when the view has an entry for it. */
  lemma KeyPlace<T>(sh: Shape<T>, k: Key)
    requires Linked(sh)
    ensures k in sh.table <==> Find(ViewOf(sh.items, sh.used), k) < |sh.used|
    ensures k in sh.table ==> sh.used[Find(ViewOf(sh.items, sh.used), k)].item == sh.table[k]
  {
    if k in sh.table {
      var i := PlaceOf(sh, sh.table[k]);
    }
  }

  ghost function Erased<T>(sh: Shape<T>, i: nat): (r: Shape<T>)
    requires Linked(sh) && i < |sh.used|
  {
    var x := sh.used[i].item;
    sh.(used := Remove(sh.used, i), expired := Remove(sh.expired, i),
        items := sh.items[x := sh.items[x].(mapIter := None)],
        table := sh.table - {sh.items[x].mapIter.value})
  }

  lemma OthersThanErased<T>(sh: Shape<T>, i: nat)
    requires Linked(sh) && i < |sh.used|
    ensures forall j :: 0 <= j < |sh.used| && j != i ==> sh.used[j].item != sh.used[i].item
  {
  }

  lemma ErasedBackLinks<T>(sh: Shape<T>, i: nat)
    requires Linked(sh) && i < |sh.used|
    ensures var r := Erased(sh, i);
            Ids(r.used, r.nextId) && Ids(r.expired, r.nextId) && BackLinks(r)
    ensures ViewOf(Erased(sh, i).items, Erased(sh, i).used) == Remove(ViewOf(sh.items, sh.used), i)
  {
    OthersThanErased(sh, i);
  }

  lemma ErasedListed<T>(sh: Shape<T>, i: nat)
    requires Linked(sh) && i < |sh.used|
    ensures var r := Erased(sh, i);
            forall y :: y in r.items && r.items[y].mapIter.Some? ==> Listed(r.used, y)
  {
    hide Ids;
    var r := Erased(sh, i);
    forall y | y in r.items && r.items[y].mapIter.Some?
      ensures Listed(r.used, y)
    {
      assert Listed(sh.used, y);
      var n :| 0 <= n < |sh.used| && sh.used[n].item == y;
      assert r.used[if n < i then n else n - 1].item == y;
    }
  }

  lemma ErasedMapLinks<T>(sh: Shape<T>, i: nat)
    requires Linked(sh) && i < |sh.used|
    ensures MapLinks(Erased(sh, i))
  {
    ErasedListed(sh, i);
    OthersThanErased(sh, i);
    var r := Erased(sh, i);
    var x := sh.used[i].item;
    var key := sh.items[x].mapIter.value;
    forall j | 0 <= j < |r.used|
      ensures && r.items[r.used[j].item].mapIter.Some?
              && r.items[r.used[j].item].mapIter.value in r.table
              && r.table[r.items[r.used[j].item].mapIter.value] == r.used[j].item
    {
      var n := if j < i then j else j + 1;
      assert r.used[j] == sh.used[n] && sh.used[n].item != x;
      assert sh.items[sh.used[n].item].mapIter.value != key;
    }
    forall k | k in r.table
      ensures r.table[k] in r.items && r.items[r.table[k]].mapIter == Some(k)
    {
      assert k in sh.table && k != key && sh.table[k] != x;
    }
  }

  lemma ErasedLinked<T>(sh: Shape<T>, i: nat)
    requires Linked(sh) && i < |sh.used|
    ensures Linked(Erased(sh, i))
    ensures ViewOf(Erased(sh, i).items, Erased(sh, i).used) == Remove(ViewOf(sh.items, sh.used), i)
  {
    ErasedBackLinks(sh, i);
    ErasedMapLinks(sh, i);
  }

  /** find_item on a cached item: its nodes are made anew at the front unless they are there. */
  ghost function Touched<T>(sh: Shape<T>, i: nat, now: Time): (r: Shape<T>)
    requires Linked(sh) && i < |sh.used|
  {
    var x := sh.used[i].item;
    if i == 0 then sh.(items := sh.items[x := sh.items[x].(visited := now)])
    else sh.(used := [Node(sh.nextId, x)] + Remove(sh.used, i),
             expired := [Node(sh.nextId + 1, x)] + Remove(sh.expired, i),
             items := sh.items[x := sh.items[x].(usedIter := sh.nextId, expiredIter := sh.nextId + 1, visited := now)],
             nextId := sh.nextId + 2)
  }

  /** Which old place the entry at the new place j had. */
  function From(i: nat, j: nat): (n: nat) { if j == 0 then i else if j <= i then j - 1 else j }

  lemma TouchedPlaces<T>(sh: Shape<T>, i: nat, now: Time, j: nat)
    requires Linked(sh) && i < |sh.used| && j < |sh.used|
    ensures var r := Touched(sh, i, now);
            && |r.used| == |sh.used| == |r.expired|
            && r.used[j].item == sh.used[From(i, j)].item == r.expired[j].item
            && r.used[j].item in sh.items
            && (j > 0 ==> && r.used[j] == sh.used[From(i, j)] && r.expired[j] == sh.expired[From(i, j)]
                          && sh.used[From(i, j)].item != sh.used[i].item
                          && r.items[r.used[j].item] == sh.items[r.used[j].item])
  {
    hide Linked;
    Lists(sh);
    OthersThanErased(sh, i);
  }

  lemma FrontIds(ns: seq<Node>, n: Node, nextId: nat, nextId': nat)
    requires Ids(ns, nextId) && nextId <= n.id < nextId'
    ensures Ids([n] + ns, nextId')
  {
  }

  lemma RemoveIds(ns: seq<Node>, i: nat, nextId: nat)
    requires Ids(ns, nextId) && i < |ns|
    ensures Ids(Remove(ns, i), nextId)
  {
  }

  lemma TouchedIds<T>(sh: Shape<T>, i: nat, now: Time)
    requires Linked(sh) && i < |sh.used|
    ensures Ids(Touched(sh, i, now).used, Touched(sh, i, now).nextId)
    ensures Ids(Touched(sh, i, now).expired, Touched(sh, i, now).nextId)
  {
    hide Ids, BackLinks, MapLinks;
    Lists(sh);
    RemoveIds(sh.used, i, sh.nextId);
    RemoveIds(sh.expired, i, sh.nextId);
    FrontIds(Remove(sh.used, i), Node(sh.nextId, sh.used[i].item), sh.nextId, sh.nextId + 2);
    FrontIds(Remove(sh.expired, i), Node(sh.nextId + 1, sh.used[i].item), sh.nextId, sh.nextId + 2);
  }

  lemma TouchedBackLinks<T>(sh: Shape<T>, i: nat, now: Time)
    requires Linked(sh) && i < |sh.used|
    ensures BackLinks(Touched(sh, i, now))
  {
    hide Linked;
    Lists(sh);
    var r := Touched(sh, i, now);
    forall j: nat | j < |sh.used|
      ensures && r.used[j].item in r.items && r.expired[j].item == r.used[j].item
              && r.items[r.used[j].item].usedIter == r.used[j].id
              && r.items[r.used[j].item].expiredIter == r.expired[j].id
    {
      TouchedPlaces(sh, i, now, j);
    }
  }

  lemma TouchedView<T>(sh: Shape<T>, i: nat, now: Time)
    requires Linked(sh) && i < |sh.used|
    ensures InArena(Touched(sh, i, now).items, Touched(sh, i, now).used)
    ensures ViewOf(Touched(sh, i, now).items, Touched(sh, i, now).used) == Touch(ViewOf(sh.items, sh.used), i, now)
  {
    hide Linked;
    Lists(sh);
    var r := Touched(sh, i, now);
    forall j: nat | j < |sh.used|
      ensures r.used[j].item in r.items
      ensures ToEntry(r.used[j].item, r.items[r.used[j].item]) == Touch(ViewOf(sh.items, sh.used), i, now)[j]
    {
      TouchedPlaces(sh, i, now, j);
    }
  }

  lemma TouchedListed<T>(sh: Shape<T>, i: nat, now: Time)
    requires Linked(sh) && i < |sh.used|
    ensures forall y :: Listed(sh.used, y) ==> Listed(Touched(sh, i, now).used, y)
  {
    var r := Touched(sh, i, now);
    forall y | Listed(sh.used, y)
      ensures Listed(r.used, y)
    {
      var n :| 0 <= n < |sh.used| && sh.used[n].item == y;
      var j := if n == i then 0 else if n < i then n + 1 else n;
      TouchedPlaces(sh, i, now, j);
      assert r.used[j].item == y;
    }
  }

  lemma TouchedMapLinks<T>(sh: Shape<T>, i: nat, now: Time)
    requires Linked(sh) && i < |sh.used|
    ensures MapLinks(Touched(sh, i, now))
  {
    hide Ids, BackLinks, Touched, Linked;
    var r := Touched(sh, i, now);
    TouchedListed(sh, i, now);
    TouchedSameMap(sh, i, now);
    LinkedMap(sh);
    forall j: nat | j < |r.used|
      ensures && r.used[j].item in r.items && r.items[r.used[j].item].mapIter.Some?
              && r.items[r.used[j].item].mapIter.value in r.table
              && r.table[r.items[r.used[j].item].mapIter.value] == r.used[j].item
    {
      TouchedPlaces(sh, i, now, j);
    }
  }

  lemma TouchedSameMap<T>(sh: Shape<T>, i: nat, now: Time)
    requires Linked(sh) && i < |sh.used|
    ensures var r := Touched(sh, i, now);
            && r.table == sh.table && r.items.Keys == sh.items.Keys && |r.used| == |sh.used|
            && forall y :: y in r.items ==> r.items[y].mapIter == sh.items[y].mapIter
  {
  }

  lemma LinkedMap<T>(sh: Shape<T>)
    requires Linked(sh)
    ensures MapLinks(sh)
  {
  }

  lemma TouchedLinked<T>(sh: Shape<T>, i: nat, now: Time)
    requires Linked(sh) && i < |sh.used|
    ensures Linked(Touched(sh, i, now))
    ensures ViewOf(Touched(sh, i, now).items, Touched(sh, i, now).used) == Touch(ViewOf(sh.items, sh.used), i, now)
  {
    TouchedIds(sh, i, now);
    TouchedBackLinks(sh, i, now);
    TouchedView(sh, i, now);
    TouchedMapLinks(sh, i, now);
  }

  /** find_item on a key that is not there: a new item, first in both lists. */
  ghost function Allocated<T>(sh: Shape<T>, key: Key, now: Time): (r: Shape<T>) {
    var x := sh.nextId;
    sh.(used := [Node(x + 1, x)] + sh.used, expired := [Node(x + 2, x)] + sh.expired,
        items := sh.items[x := CacheItem(None, Some(key), x + 1, x + 2, now, now)],
        table := sh.table[key := x], nextId := x + 3)
  }

  lemma AllocatedIds<T>(sh: Shape<T>, key: Key, now: Time)
    requires Linked(sh)
    ensures Ids(Allocated(sh, key, now).used, Allocated(sh, key, now).nextId)
    ensures Ids(Allocated(sh, key, now).expired, Allocated(sh, key, now).nextId)
  {
    hide Ids, BackLinks, MapLinks;
    FrontIds(sh.used, Node(sh.nextId + 1, sh.nextId), sh.nextId, sh.nextId + 3);
    FrontIds(sh.expired, Node(sh.nextId + 2, sh.nextId), sh.nextId, sh.nextId + 3);
  }

  lemma AllocatedPlaces<T>(sh: Shape<T>, key: Key, now: Time, j: nat)
    requires Linked(sh) && 1 <= j <= |sh.used|
    ensures var r := Allocated(sh, key, now);
            && |r.used| == |r.expired| == |sh.used| + 1
            && r.used[j] == sh.used[j - 1] && r.expired[j] == sh.expired[j - 1]
            && r.used[j].item in sh.items && r.items[r.used[j].item] == sh.items[r.used[j].item]
  {
  }

  lemma AllocatedBackLinks<T>(sh: Shape<T>, key: Key, now: Time)
    requires Linked(sh)
    ensures BackLinks(Allocated(sh, key, now))
    ensures ViewOf(Allocated(sh, key, now).items, Allocated(sh, key, now).used)
         == [Entry(sh.nextId, key, None, now, now)] + ViewOf(sh.items, sh.used)
  {
    var r := Allocated(sh, key, now);
    forall j: nat | j < |r.used|
      ensures && r.used[j].item in r.items && r.expired[j].item == r.used[j].item
              && r.items[r.used[j].item].usedIter == r.used[j].id
              && r.items[r.used[j].item].expiredIter == r.expired[j].id
      ensures ToEntry(r.used[j].item, r.items[r.used[j].item])
           == ([Entry(sh.nextId, key, None, now, now)] + ViewOf(sh.items, sh.used))[j]
    {
      if j > 0 { AllocatedPlaces(sh, key, now, j); }
    }
  }

  lemma AllocatedMapLinks<T>(sh: Shape<T>, key: Key, now: Time)
    requires Linked(sh) && key !in sh.table
    ensures MapLinks(Allocated(sh, key, now))
  {
    var r := Allocated(sh, key, now);
    assert forall j :: 1 <= j < |r.used| ==> r.used[j] == sh.used[j - 1] && r.used[j].item in sh.items;
    forall y | y in r.items && r.items[y].mapIter.Some?
      ensures Listed(r.used, y)
    {
      if y == sh.nextId {
        assert r.used[0].item == y;
      } else {
        assert Listed(sh.used, y);
        var n :| 0 <= n < |sh.used| && sh.used[n].item == y;
        assert r.used[n + 1].item == y;
      }
    }
  }

  lemma AllocatedLinked<T>(sh: Shape<T>, key: Key, now: Time)
    requires Linked(sh) && key !in sh.table
    ensures Linked(Allocated(sh, key, now))
    ensures ViewOf(Allocated(sh, key, now).items, Allocated(sh, key, now).used)
         == [Entry(sh.nextId, key, None, now, now)] + ViewOf(sh.items, sh.used)
  {
    AllocatedIds(sh, key, now);
    AllocatedBackLinks(sh, key, now);
    AllocatedMapLinks(sh, key, now);
  }

  ghost function Written<T>(sh: Shape<T>, x: ItemId, v: T): (r: Shape<T>)
    requires x in sh.items
  {
    sh.(items := sh.items[x := sh.items[x].(value := Some(v))])
  }

  lemma WrittenMapLinks<T>(sh: Shape<T>, x: ItemId, v: T)
    requires MapLinks(sh) && x in sh.items
    ensures MapLinks(Written(sh, x, v))
  {
    assert forall y :: y in Written(sh, x, v).items ==>
      y in sh.items && Written(sh, x, v).items[y].mapIter == sh.items[y].mapIter;
  }

  lemma WrittenLinked<T>(sh: Shape<T>, x: ItemId, v: T)
    requires Linked(sh) && x in sh.items
    ensures Linked(Written(sh, x, v))
    ensures ViewOf(Written(sh, x, v).items, sh.used) == Write(ViewOf(sh.items, sh.used), x, v)
  {
    hide MapLinks, Ids;
    WrittenMapLinks(sh, x, v);
    Lists(sh);
  }

  class LruCache<T> {
    var m_map: map<Key, ItemId>
    var m_used: seq<Node>
    var m_expired: seq<Node>
    var m_size: int
    var m_idleTimeout: int
    var m_updateTimeout: int
    var items: map<ItemId, CacheItem<T>>   // the CacheItem objects
    var nextId: nat                        // identities not given out yet

    ghost function Containers(): (sh: Shape<T>)
      reads this
    {
      Shape(m_map, m_used, m_expired, items, nextId)
    }

    ghost predicate Valid()
      reads this
    {
      -0x8000_0000 <= m_size < 0x8000_0000 && Linked(Containers())
    }

    ghost function View(): (es: seq<Entry<T>>)
      requires Valid()
      reads this
    {
      ViewOf(items, m_used)
    }

    constructor (size: int, idleTimeout: int, updateTimeout: int)
      requires -0x8000_0000 <= size < 0x8000_0000
      ensures Valid() && View() == [] && items == map[]
      ensures m_size == size && m_updateTimeout == updateTimeout
      ensures m_idleTimeout == if idleTimeout > 0 then idleTimeout else updateTimeout
    {
      m_map, m_used, m_expired, items, nextId := map[], [], [], map[], 0;
      m_size, m_updateTimeout := size, updateTimeout;
      m_idleTimeout := if idleTimeout > 0 then idleTimeout else updateTimeout;
    }

    method EraseItem(x: ItemId)
      requires Valid() && x in items
      modifies this`m_map, this`m_used, this`m_expired, this`items
      ensures Valid()
      ensures items == old(items)[x := old(items[x]).(mapIter := None)]
      ensures if old(items[x].mapIter).None? then View() == old(View())
              else var i := Find(old(View()), old(items[x].mapIter).value);
                   i < |old(View())| && View() == Remove(old(View()), i)
    {
      hide Ids, BackLinks, MapLinks, Find, Locate;
      var it := items[x];
      if it.mapIter.Some? {
        ghost var sh := Containers();
        ghost var p := PlaceOf(sh, x);
        ErasedLinked(sh, p);
        var i := Locate(m_used, it.usedIter);
        m_used := Remove(m_used, i);
        var j := Locate(m_expired, it.expiredIter);
        m_expired := Remove(m_expired, j);
        items := items[x := it.(mapIter := None)];
        m_map := m_map - {it.mapIter.value};
        assert Containers() == Erased(sh, p);
      } else {
        assert items == items[x := it.(mapIter := None)];
      }
    }

    /** The entry a key names, None when there is none or it is past its update timeout. */
    method FindMap(key: Key, now: Time) returns (x: Option<ItemId>)
      requires Valid()
      modifies this`m_map, this`m_used, this`m_expired, this`items
      ensures Valid() && items.Keys == old(items.Keys)
      ensures View() == Expire(old(View()), key, now, m_updateTimeout)
      ensures x.Some? <==> Find(View(), key) < |View()|
      ensures x.Some? ==> x.value in items && items[x.value].mapIter == Some(key) && View()[Find(View(), key)].item == x.value
    {
      hide Ids, BackLinks, Aged, Find, ViewOf;
      KeyPlace(Containers(), key);
      if key !in m_map {
        return None;
      }
      x := Some(m_map[key]);
      if m_updateTimeout > 0 && Aged(now, items[x.value].updated, m_updateTimeout) {
        EraseItem(x.value);
        x := None;
        KeyPlace(Containers(), key);
      }
    }

    method CleanUsed()
      requires Valid()
      modifies this`m_map, this`m_used, this`m_expired, this`items
      ensures Valid() && items.Keys == old(items.Keys)
      ensures View() == Trim(old(View()), Limit(m_size))
    {
      hide Linked, ViewOf, Ids, BackLinks, MapLinks, Find, Limit;
      ViewLength(Containers());
      while |m_used| > Limit(m_size)
        invariant Valid() && items.Keys == old(items.Keys)
        invariant |m_used| == |View()| <= |old(View())| && View() == old(View())[..|m_used|]
        invariant |m_used| == |old(View())| || |m_used| >= Limit(m_size)
        decreases |m_used|
      {
        ghost var es := View();
        LastPlace(Containers());
        EraseItem(m_used[|m_used| - 1].item);
        ViewLength(Containers());
        assert View() == Remove(es, |es| - 1) == es[..|es| - 1];
      }
    }

    method CleanExpired(now: Time)
      requires Valid()
      modifies this`m_map, this`m_used, this`m_expired, this`items
      ensures Valid() && items.Keys == old(items.Keys)
      ensures View() == DropIdle(old(View()), now, m_idleTimeout)
    {
      hide Linked, ViewOf, Ids, BackLinks, MapLinks, DropIdle, Aged, Remove;
      DropIdleStep(View(), now, m_idleTimeout);
      if m_idleTimeout <= 0 {
        return;
      }
      ViewLength(Containers());
      while m_expired != []
        invariant Valid() && items.Keys == old(items.Keys) && |m_expired| == |View()|
        invariant DropIdle(View(), now, m_idleTimeout) == DropIdle(old(View()), now, m_idleTimeout)
        decreases |m_expired|
      {
        var idle := EraseLast(now);
        if !idle {
          break;
        }
      }
    }

    /** One turn of that loop: whether the last item was idle, and is erased. */
    method EraseLast(now: Time) returns (idle: bool)
      requires Valid() && m_idleTimeout > 0 && m_expired != []
      modifies this`m_map, this`m_used, this`m_expired, this`items
      ensures Valid() && items.Keys == old(items.Keys) && |m_expired| == |View()|
      ensures DropIdle(View(), now, m_idleTimeout) == DropIdle(old(View()), now, m_idleTimeout)
      ensures if idle then |m_expired| < old(|m_expired|) else View() == DropIdle(View(), now, m_idleTimeout)
    {
      hide Linked, ViewOf, Ids, BackLinks, MapLinks, DropIdle, Aged, Remove;
      ghost var es := View();
      LastPlace(Containers());
      DropIdleStep(es, now, m_idleTimeout);
      var x := m_expired[|m_expired| - 1].item;
      if !Aged(now, items[x].visited, m_idleTimeout) {
        return false;
      }
      EraseItem(x);
      ViewLength(Containers());
      RemoveLast(es);
      return true;
    }

    /** The end of find_item for a cached item. */
    method TouchItem(x: ItemId, now: Time)
      requires Valid() && x in items && items[x].mapIter.Some?
      modifies this`m_used, this`m_expired, this`items, this`nextId
      ensures Valid() && items.Keys == old(items.Keys) && nextId >= old(nextId)
      ensures var i := Find(old(View()), old(items[x].mapIter).value);
              i < |old(View())| && View() == Touch(old(View()), i, now)
    {
      hide Linked, ViewOf, Ids, BackLinks, MapLinks, Find, Touch, Limit;
      ghost var sh := Containers();
      ghost var i := PlaceOf(sh, x);
      ViewLength(sh);
      TouchedLinked(sh, i, now);
      assert items[x].usedIter == m_used[0].id <==> i == 0;
      assert items[x].expiredIter == m_expired[0].id <==> i == 0;
      if items[x].usedIter != m_used[0].id {
        m_used := Remove(m_used, Locate(m_used, items[x].usedIter));
        m_used := [Node(nextId, x)] + m_used;
        items := items[x := items[x].(usedIter := nextId)];
        nextId := nextId + 1;
      }
      items := items[x := items[x].(visited := now)];
      if items[x].expiredIter != m_expired[0].id {
        m_expired := Remove(m_expired, Locate(m_expired, items[x].expiredIter));
        m_expired := [Node(nextId, x)] + m_expired;
        items := items[x := items[x].(expiredIter := nextId)];
        nextId := nextId + 1;
      }
      assert Containers() == Touched(sh, i, now);
    }

    /** The end of find_item for a key that is not there. */
    method AllocItem(key: Key, now: Time) returns (x: ItemId)
      requires Valid() && Find(View(), key) == |View()|
      modifies this`m_map, this`m_used, this`m_expired, this`items, this`nextId
      ensures Valid() && items.Keys == old(items.Keys) + {x} && x == old(nextId) && nextId >= old(nextId)
      ensures View() == Alloc(old(View()), x, key, now, Limit(m_size))
    {
      hide Linked, ViewOf, Ids, BackLinks, MapLinks;
      ghost var sh := Containers();
      KeyPlace(sh, key);
      ViewLength(sh);
      AllocatedLinked(sh, key, now);
      x := nextId;
      items := items[x := CacheItem(None, Some(key), x + 1, x + 2, now, now)];
      m_map := m_map[key := x];
      m_used := [Node(x + 1, x)] + m_used;
      m_expired := [Node(x + 2, x)] + m_expired;
      nextId := nextId + 3;
      assert Containers() == Allocated(sh, key, now);
      CleanUsed();
    }

    /** find_item: the item for a key; with `alloc`, a new one when there is none. */
    method FindItem(key: Key, alloc: bool, tCheck: Time, tTouch: Time) returns (x: Option<ItemId>, alloced: bool)
      requires Valid()
      modifies this`m_map, this`m_used, this`m_expired, this`items, this`nextId
      ensures Valid() && old(items.Keys) <= items.Keys && nextId >= old(nextId)
      ensures x.Some? ==> x.value in items
      ensures var es := Expire(old(View()), key, tCheck, m_updateTimeout);
              var i := Find(es, key);
              if i < |es| then !alloced && x == Some(es[i].item) && View() == Touch(es, i, tTouch)
              else if alloc then
                alloced && x == Some(old(nextId)) && View() == Alloc(es, old(nextId), key, tTouch, Limit(m_size))
              else !alloced && x.None? && View() == es
    {
      x := FindMap(key, tCheck);
      if x.Some? {
        TouchItem(x.value, tTouch);
        return x, false;
      }
      if !alloc {
        return None, false;
      }
      var y := AllocItem(key, tTouch);
      return Some(y), true;
    }

    method Set(key: Key, value: T, tCheck: Time, tTouch: Time)
      requires Valid()
      modifies this`m_map, this`m_used, this`m_expired, this`items, this`nextId
      ensures Valid() && nextId >= old(nextId)
      ensures View() == SetEntry(old(View()), old(nextId), key, value, tCheck, tTouch, m_updateTimeout, Limit(m_size))
    {
      hide Linked, ViewOf, Expire, Touch, Alloc, Write, Limit;
      var x, _ := FindItem(key, true, tCheck, tTouch);
      WriteItem(x.value, value);
    }

    /** item->m_value = value, for an item that may have left the cache meanwhile. */
    method WriteItem(x: ItemId, value: T)
      requires Valid() && x in items
      modifies this`items
      ensures Valid() && items.Keys == old(items.Keys)
      ensures View() == Write(old(View()), x, value) && items[x].value == Some(value)
    {
      hide Linked, ViewOf;
      WrittenLinked(Containers(), x, value);
      ghost var sh := Containers();
      items := items[x := items[x].(value := Some(value))];
      assert Containers() == Written(sh, x, value);
    }

    /** lookup() without a resolver, up to the wait for m_ready: the item found, and its value. */
    method Lookup(key: Key, tClean: Time, tCheck: Time, tTouch: Time) returns (x: Option<ItemId>, v: Option<T>)
      requires Valid()
      modifies this`m_map, this`m_used, this`m_expired, this`items, this`nextId
      ensures Valid() && nextId >= old(nextId)
      ensures View() == LookupEntry(old(View()), key, tClean, tCheck, tTouch, m_idleTimeout, m_updateTimeout)
      ensures x.Some? <==> Hits(old(View()), key, tClean, tCheck, m_idleTimeout, m_updateTimeout)
      ensures x.Some? ==> View() != [] && View()[0].item == x.value && View()[0].key == key && View()[0].value == v
      ensures x.None? ==> v.None?
    {
      hide Linked, DropIdle, Expire, Alloc, Aged, Limit;
      CleanExpired(tClean);
      var alloced;
      x, alloced := FindItem(key, false, tCheck, tTouch);
      v := if x.Some? then items[x.value].value else None;
    }

    /** lookup() with a resolver, up to the call of the resolver: `lead` tells that this call has to
        resolve the key, otherwise x is the item to wait for. */
    method LookupOrLead(key: Key, tClean: Time, tCheck: Time, tTouch: Time) returns (x: ItemId, lead: bool)
      requires Valid()
      modifies this`m_map, this`m_used, this`m_expired, this`items, this`nextId
      ensures Valid() && nextId >= old(nextId) && x in items
      ensures lead <==> !Hits(old(View()), key, tClean, tCheck, m_idleTimeout, m_updateTimeout)
      ensures View() == if lead then
                          Alloc(Expire(DropIdle(old(View()), tClean, m_idleTimeout), key, tCheck, m_updateTimeout),
                                x, key, tTouch, Limit(m_size))
                        else LookupEntry(old(View()), key, tClean, tCheck, tTouch, m_idleTimeout, m_updateTimeout)
      ensures !lead ==> View() != [] && View()[0].item == x
    {
      hide Linked, DropIdle, Expire, Alloc, Aged, Limit;
      CleanExpired(tClean);
      var y;
      y, lead := FindItem(key, true, tCheck, tTouch);
      x := y.value;
    }

    /** lookup() after a resolver that gave up: its item is taken out, if it is still there. */
    method GiveUp(x: ItemId)
      requires Valid() && x in items
      modifies this`m_map, this`m_used, this`m_expired, this`items
      ensures Valid() && View() == Without(old(View()), x)
    {
      hide Linked, ViewOf;
      ItemPlace(Containers(), x);
      EraseItem(x);
    }

    method Erase(key: Key, tCheck: Time) returns (found: bool)
      requires Valid()
      modifies this`m_map, this`m_used, this`m_expired, this`items
      ensures Valid()
      ensures View() == EraseEntry(old(View()), key, tCheck, m_updateTimeout)
      ensures found <==> var es := Expire(old(View()), key, tCheck, m_updateTimeout); Find(es, key) < |es|
    {
      var x := FindMap(key, tCheck);
      if x.None? {
        return false;
      }
      EraseItem(x.value);
      return true;
    }

    method Resize(newSize: int)
      requires Valid() && -0x8000_0000 <= newSize < 0x8000_0000
      modifies this`m_map, this`m_used, this`m_expired, this`items, this`m_size
      ensures Valid() && m_size == newSize && View() == Trim(old(View()), Limit(newSize))
    {
      m_size := newSize;
      CleanUsed();
    }

    method SetTimeout(idleTimeout: int, updateTimeout: int, now: Time)
      requires Valid()
      modifies this`m_map, this`m_used, this`m_expired, this`items, this`m_idleTimeout, this`m_updateTimeout
      ensures Valid() && m_updateTimeout == updateTimeout
      ensures m_idleTimeout == if idleTimeout > 0 then idleTimeout else updateTimeout
      ensures View() == DropIdle(old(View()), now, m_idleTimeout)
    {
      m_idleTimeout := if idleTimeout > 0 then idleTimeout else updateTimeout;
      m_updateTimeout := updateTimeout;
      CleanExpired(now);
    }

    method Clear()
      requires Valid()
      modifies this`m_map, this`m_used, this`m_expired, this`items
      ensures Valid() && View() == [] && m_map == map[] && m_used == [] && m_expired == []
    {
      while m_expired != []
        invariant Valid()
        decreases |m_expired|
      {
        LastPlace(Containers());
        EraseItem(m_expired[|m_expired| - 1].item);
        ViewLength(Containers());
      }
      assert forall k :: k in m_map ==> Listed(m_used, m_map[k]);
    }
  }
}
