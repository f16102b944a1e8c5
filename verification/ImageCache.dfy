/** The in-memory TTL cache: a bounded dictionary with two eviction rules. */
module ImageCache {
  import opened Basics

  datatype Entry<+V> = Entry(image: V, expiresAt: real)

  type Store<+V> = map<ImageId, Entry<V>>

  datatype Limits = Limits(ttl: real, maxSize: int)

  function Unexpired<V>(store: Store<V>, now: real): Store<V> {
    map id | id in store && now <= store[id].expiresAt :: store[id]
  }

  predicate IsOldest<V>(store: Store<V>, id: ImageId) {
    id in store && forall other <- store :: store[id].expiresAt <= store[other].expiresAt
  }

  /** A store from which one oldest entry, if there is any, has been removed. */
  ghost predicate WithoutOldest<V>(before: Store<V>, after: Store<V>) {
    if before == map[] then after == before else exists id: ImageId :: IsOldest(before, id) && after == before - {id}
  }

  /**
    What set may do.  The clock is read at t1 when looking for expired entries and at t2 for the new
    expiry; which of several equally old entries goes is left open.
   */
  ghost predicate SetStep<V>(limits: Limits, before: Store<V>, after: Store<V>, id: ImageId, image: V,
                             t1: real, t2: real)
  {
    var entry := Entry(image, t2 + limits.ttl);
    if |before| < limits.maxSize || id in before then after == before[id := entry]
    else
      var live := Unexpired(before, t1);
      if |live| < limits.maxSize || live == map[] then after == live[id := entry]
      else exists oldest: ImageId :: IsOldest(live, oldest) && after == (live - {oldest})[id := entry]
  }

  function StoreAfterGet<V>(store: Store<V>, id: ImageId, now: real): Store<V> {
    if id in store && now > store[id].expiresAt then store - {id} else store
  }

  class InMemoryImageCache<V> {
    const limits: Limits
    var store: Store<V>

    constructor (ttlSeconds: real, maxSize: int)
      ensures limits == Limits(ttlSeconds, maxSize) && store == map[]
    {
      limits, store := Limits(ttlSeconds, maxSize), map[];
    }

    /** A hit returns the stored object itself; an expired entry is dropped and counts as a miss. */
    method Get(id: ImageId, now: real) returns (image: Option<V>)
      modifies this
      ensures image.Some? <==> id in old(store) && now <= old(store)[id].expiresAt
      ensures image.Some? ==> image.value == old(store)[id].image
      ensures store == StoreAfterGet(old(store), id, now)
    {
      if id !in store {
        return None;
      }
      if now > store[id].expiresAt {
        store := store - {id};
        return None;
      }
      return Some(store[id].image);
    }

    method Set(id: ImageId, image: V, t1: real, t2: real)
      modifies this
      ensures SetStep(limits, old(store), store, id, image, t1, t2)
    {
      if |store| >= limits.maxSize && id !in store {
        EvictExpired(t1);
        if |store| >= limits.maxSize {
          EvictOldest();
        }
      }
      store := store[id := Entry(image, t2 + limits.ttl)];
    }

    method Invalidate(id: ImageId)
      modifies this
      ensures store == old(store) - {id}
    {
      store := store - {id};
    }

    method Clear()
      modifies this
      ensures store == map[]
    {
      store := map[];
    }

    /** Collects the expired keys, then deletes them one by one. */
    method EvictExpired(now: real)
      modifies this
      ensures store == Unexpired(old(store), now)
    {
      var expired := set id | id in store && now > store[id].expiresAt;
      ghost var all := expired;
      while expired != {}
        invariant expired <= all
        invariant all == set id | id in old(store) && now > old(store)[id].expiresAt
        invariant store == old(store) - (all - expired)
        decreases expired
      {
        var id :| id in expired;
        expired := expired - {id};
        store := store - {id};
      }
    }

    /** Scans for a key with the least expiry and deletes it. */
    method EvictOldest()
      modifies this
      ensures WithoutOldest(old(store), store)
    {
      if store == map[] {
        return;
      }
      var unseen := store.Keys;
      var oldest :| oldest in unseen;
      while unseen != {}
        invariant unseen <= store.Keys && oldest in store
        invariant forall id <- store :: id in unseen || store[oldest].expiresAt <= store[id].expiresAt
        decreases unseen
      {
        var id :| id in unseen;
        unseen := unseen - {id};
        if store[id].expiresAt < store[oldest].expiresAt {
          oldest := id;
        }
      }
      assert IsOldest(store, oldest);
      store := store - {oldest};
    }
  }

  // ---------------------------------------------------------------------------------------
  // The size bound
  // ---------------------------------------------------------------------------------------

  datatype Operation<+V> =
    | GetOp(id: ImageId, now: real)
    | SetOp(id: ImageId, image: V, t1: real, t2: real)
    | InvalidateOp(id: ImageId)
    | ClearOp

  ghost predicate Step<V>(limits: Limits, before: Store<V>, op: Operation<V>, after: Store<V>) {
    match op
    case GetOp(id, now) => after == StoreAfterGet(before, id, now)
    case SetOp(id, image, t1, t2) => SetStep(limits, before, after, id, image, t1, t2)
    case InvalidateOp(id) => after == before - {id}
    case ClearOp => after == map[]
  }

  /** A run: the stores before and after each operation, from the empty cache on. */
  ghost predicate IsRun<V>(limits: Limits, ops: seq<Operation<V>>, stores: seq<Store<V>>) {
    && |stores| == |ops| + 1 && stores[0] == map[]
    && forall i :: 0 <= i < |ops| ==> Step(limits, stores[i], ops[i], stores[i + 1])
  }

  function Bound(limits: Limits): nat {
    if limits.maxSize > 1 then limits.maxSize else 1
  }

  lemma SubmapSize<V>(small: Store<V>, big: Store<V>)
    requires small.Keys <= big.Keys
    ensures |small| <= |big|
    ensures |small| == |big| ==> small.Keys == big.Keys
  {
    SubsetSize(small.Keys, big.Keys);
  }

  lemma {:induction false} SubsetSize(a: set<ImageId>, b: set<ImageId>)
    requires a <= b
    ensures |a| <= |b|
    ensures |a| == |b| ==> a == b
  {
    if a != {} {
      var x :| x in a;
      SubsetSize(a - {x}, b - {x});
    }
  }

  lemma InsertSize<V>(store: Store<V>, id: ImageId, entry: Entry<V>)
    ensures |store[id := entry]| == if id in store then |store| else |store| + 1
  {
    assert store[id := entry].Keys == store.Keys + {id};
  }

  lemma RemoveSize<V>(store: Store<V>, id: ImageId)
    ensures |store - {id}| == if id in store then |store| - 1 else |store|
  {
    assert (store - {id}).Keys == store.Keys - {id};
  }

  lemma SetKeepsBound<V>(limits: Limits, before: Store<V>, after: Store<V>, id: ImageId, image: V, t1: real, t2: real)
    requires SetStep(limits, before, after, id, image, t1, t2) && |before| <= Bound(limits)
    ensures |after| <= Bound(limits)
  {
    var entry := Entry(image, t2 + limits.ttl);
    if |before| < limits.maxSize || id in before {
      InsertSize(before, id, entry);
    } else {
      var live := Unexpired(before, t1);
      SubmapSize(live, before);
      if |live| < limits.maxSize || live == map[] {
        InsertSize(live, id, entry);
      } else {
        var oldest :| IsOldest(live, oldest) && after == (live - {oldest})[id := entry];
        RemoveSize(live, oldest);
        InsertSize(live - {oldest}, id, entry);
      }
    }
  }

  /** In every run of cache operations the store never holds more than max(1, max_size) entries. */
  lemma {:induction false} SizeBounded<V>(limits: Limits, ops: seq<Operation<V>>, stores: seq<Store<V>>, i: nat)
    requires IsRun(limits, ops, stores) && i < |stores|
    ensures |stores[i]| <= Bound(limits)
  {
    if i > 0 {
      SizeBounded(limits, ops, stores, i - 1);
      var before, op := stores[i - 1], ops[i - 1];
      assert Step(limits, before, op, stores[i - 1 + 1]);
      match op
      case GetOp(id, now) => RemoveSize(before, id);
      case SetOp(id, image, t1, t2) => SetKeepsBound(limits, before, stores[i], id, image, t1, t2);
      case InvalidateOp(id) => RemoveSize(before, id);
      case ClearOp =>
    }
  }

  /**
    With a positive max_size, set drops a live entry of another id only when the store was full and
    held nothing expired; that entry then has the least expiry, and it is the only one dropped.
   */
  lemma SetEvictsOnlyOldest<V>(limits: Limits, before: Store<V>, after: Store<V>, id: ImageId, image: V,
                               t1: real, t2: real, gone: ImageId)
    requires limits.maxSize > 0 && |before| <= Bound(limits)
    requires SetStep(limits, before, after, id, image, t1, t2)
    requires gone in before && gone != id && t1 <= before[gone].expiresAt && gone !in after
    ensures |before| == limits.maxSize && id !in before
    ensures forall other <- before :: t1 <= before[other].expiresAt
    ensures forall other <- before :: before[gone].expiresAt <= before[other].expiresAt
    ensures after == (before - {gone})[id := Entry(image, t2 + limits.ttl)]
  {
    var entry := Entry(image, t2 + limits.ttl);
    var live := Unexpired(before, t1);
    SubmapSize(live, before);
    assert gone in live;
    var oldest :| IsOldest(live, oldest) && after == (live - {oldest})[id := entry];
    assert oldest == gone;
    assert live.Keys == before.Keys;
    assert live == before;
  }

  /** The entry just set is there, with the full time to live, and nothing else is new or changed. */
  lemma SetInserts<V>(limits: Limits, before: Store<V>, after: Store<V>, id: ImageId, image: V, t1: real, t2: real)
    requires SetStep(limits, before, after, id, image, t1, t2)
    ensures id in after && after[id] == Entry(image, t2 + limits.ttl)
    ensures forall other <- after :: other != id ==> other in before && after[other] == before[other]
    ensures |before| < limits.maxSize || id in before ==> after.Keys == before.Keys + {id}
  {
  }

  lemma {:induction false} OldestExists<V>(store: Store<V>) returns (oldest: ImageId)
    requires store != map[]
    ensures IsOldest(store, oldest)
    decreases |store|
  {
    var id :| id in store;
    var rest := store - {id};
    if rest == map[] {
      oldest := id;
      assert forall other <- store :: other == id || other in rest;
    } else {
      RemoveSize(store, id);
      var other := OldestExists(rest);
      oldest := if store[id].expiresAt <= store[other].expiresAt then id else other;
      assert forall x <- store :: x == id || (x in rest && rest[x] == store[x]);
    }
  }

  /** A set never gets stuck. */
  lemma SetHappens<V>(limits: Limits, before: Store<V>, id: ImageId, image: V, t1: real, t2: real)
    returns (after: Store<V>)
    ensures SetStep(limits, before, after, id, image, t1, t2)
  {
    var entry, live := Entry(image, t2 + limits.ttl), Unexpired(before, t1);
    if |before| < limits.maxSize || id in before {
      after := before[id := entry];
    } else if |live| < limits.maxSize || live == map[] {
      after := live[id := entry];
    } else {
      var oldest := OldestExists(live);
      after := (live - {oldest})[id := entry];
    }
  }
}
