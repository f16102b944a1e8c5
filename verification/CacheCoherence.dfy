/**
  The cached repository under interleaving: any number of processes, each with its own cache, readers
  whose miss, database read and cache fill are separate steps, and writers who may change any row and
  invalidate any entry at any time.
 */
module CacheCoherence {
  import opened Basics
  import opened ImageCache

  type ProcessId = nat
  type ReaderId = nat
  type Value = int

  /** An image value as the cache holds it.  `readAt` is a history variable: when the database was read. */
  datatype Fetched = Fetched(value: Value, readAt: real)

  /** A get_by_id call between two of its awaits. */
  datatype Reader =
    | Missed(process: ProcessId, id: ImageId)
    | Holding(process: ProcessId, id: ImageId, fetched: Fetched)

  datatype State = State(time: real, rows: map<ImageId, Value>, caches: map<ProcessId, Store<Fetched>>,
                         readers: map<ReaderId, Reader>)

  datatype Action =
    | Tick(elapsed: real)
    | Write(id: ImageId, value: Option<Value>)                    // any writer: save or delete
    | Invalidate(process: ProcessId, id: ImageId)
    | Lookup(reader: ReaderId, process: ProcessId, id: ImageId)   // the cache's get; a miss starts a fill
    | Read(reader: ReaderId)                                      // the inner repository's get_by_id
    | Fill(reader: ReaderId, after: Store<Fetched>, t2: real)     // the cache's set

  const Init := State(0.0, map[], map[], map[])

  function CacheOf(s: State, process: ProcessId): Store<Fetched> {
    if process in s.caches then s.caches[process] else map[]
  }

  /** A lookup of the id in this process's cache would be a hit. */
  predicate Hit(s: State, process: ProcessId, id: ImageId) {
    id in CacheOf(s, process) && s.time <= CacheOf(s, process)[id].expiresAt
  }

  ghost function Apply(limits: Limits, s: State, a: Action): State {
    match a
    case Tick(elapsed) => if elapsed >= 0.0 then s.(time := s.time + elapsed) else s
    case Write(id, value) => s.(rows := if value.Some? then s.rows[id := value.value] else s.rows - {id})
    case Invalidate(process, id) => s.(caches := s.caches[process := CacheOf(s, process) - {id}])
    case Lookup(reader, process, id) =>
      if reader in s.readers then s
      else
        var cache := CacheOf(s, process);
        var s' := s.(caches := s.caches[process := StoreAfterGet(cache, id, s.time)]);
        if id in cache && s.time <= cache[id].expiresAt then s'
        else s'.(readers := s.readers[reader := Missed(process, id)])
    case Read(reader) =>
      if reader in s.readers && s.readers[reader].Missed? then
        var r := s.readers[reader];
        if r.id in s.rows then
          s.(readers := s.readers[reader := Holding(r.process, r.id, Fetched(s.rows[r.id], s.time))])
        else s.(readers := s.readers - {reader})
      else s
    case Fill(reader, after, t2) =>
      if reader in s.readers && s.readers[reader].Holding? && t2 >= s.time
         && var r := s.readers[reader];
            SetStep(limits, CacheOf(s, r.process), after, r.id, r.fetched, s.time, t2)
      then s.(time := t2, caches := s.caches[s.readers[reader].process := after], readers := s.readers - {reader})
      else s
  }

  ghost function Run(limits: Limits, actions: seq<Action>): State {
    if actions == [] then Init else Apply(limits, Run(limits, actions[..|actions| - 1]), actions[|actions| - 1])
  }

  /** At some point of the run, at the given time, the inner repository held this value for the id. */
  ghost predicate WasHeld(limits: Limits, actions: seq<Action>, id: ImageId, value: Value, at: real) {
    exists k :: 0 <= k <= |actions| && HeldAfter(limits, actions, k, id, value, at)
  }

  ghost predicate HeldAfter(limits: Limits, actions: seq<Action>, k: nat, id: ImageId, value: Value, at: real)
    requires k <= |actions|
  {
    var s := Run(limits, actions[..k]);
    s.time == at && id in s.rows && s.rows[id] == value
  }

  /** Action k of the run filled in this entry: a reader held its value, and the entry expires a time to live after the set. */
  ghost predicate FilledBy(limits: Limits, actions: seq<Action>, k: nat, process: ProcessId, id: ImageId,
                           entry: Entry<Fetched>)
    requires k < |actions|
  {
    var s, a := Run(limits, actions[..k]), actions[k];
    && a.Fill? && entry.expiresAt == a.t2 + limits.ttl
    && a.reader in s.readers && s.readers[a.reader] == Holding(process, id, entry.image)
    && entry.image.readAt <= s.time <= a.t2
  }

  ghost predicate WasFilled(limits: Limits, actions: seq<Action>, process: ProcessId, id: ImageId, entry: Entry<Fetched>) {
    exists k :: 0 <= k < |actions| && FilledBy(limits, actions, k, process, id, entry)
  }

  /** Everything cached or about to be cached was read from the repository during this run. */
  ghost predicate Inv(limits: Limits, actions: seq<Action>, s: State) {
    && (forall p <- s.caches, id <- s.caches[p] ::
          var entry := s.caches[p][id];
          WasHeld(limits, actions, id, entry.image.value, entry.image.readAt)
          && WasFilled(limits, actions, p, id, entry)
          && entry.image.readAt <= entry.expiresAt - limits.ttl <= s.time)
    && (forall r <- s.readers :: s.readers[r].Holding? ==>
          var reader := s.readers[r];
          WasHeld(limits, actions, reader.id, reader.fetched.value, reader.fetched.readAt)
          && reader.fetched.readAt <= s.time)
  }

  lemma WasHeldLater(limits: Limits, actions: seq<Action>, a: Action, id: ImageId, value: Value, at: real)
    requires WasHeld(limits, actions, id, value, at)
    ensures WasHeld(limits, actions + [a], id, value, at)
  {
    var k :| 0 <= k <= |actions| && HeldAfter(limits, actions, k, id, value, at);
    assert (actions + [a])[..k] == actions[..k];
    assert HeldAfter(limits, actions + [a], k, id, value, at);
  }

  lemma WasFilledLater(limits: Limits, actions: seq<Action>, a: Action, p: ProcessId, id: ImageId, entry: Entry<Fetched>)
    requires WasFilled(limits, actions, p, id, entry)
    ensures WasFilled(limits, actions + [a], p, id, entry)
  {
    var k :| 0 <= k < |actions| && FilledBy(limits, actions, k, p, id, entry);
    assert (actions + [a])[..k] == actions[..k] && (actions + [a])[k] == actions[k];
    assert FilledBy(limits, actions + [a], k, p, id, entry);
  }

  /** A fill that takes effect is on record. */
  lemma FilledNow(limits: Limits, actions: seq<Action>, a: Action)
    requires a.Fill? && Inv(limits, actions, Run(limits, actions))
    requires a.reader in Run(limits, actions).readers && Run(limits, actions).readers[a.reader].Holding?
    requires a.t2 >= Run(limits, actions).time
    ensures
      var r := Run(limits, actions).readers[a.reader];
      WasFilled(limits, actions + [a], r.process, r.id, Entry(r.fetched, a.t2 + limits.ttl))
  {
    var s, r := Run(limits, actions), Run(limits, actions).readers[a.reader];
    assert (actions + [a])[..|actions|] == actions && (actions + [a])[|actions|] == a;
    hide Run, WasHeld;
    assert FilledBy(limits, actions + [a], |actions|, r.process, r.id, Entry(r.fetched, a.t2 + limits.ttl));
  }

  lemma HeldNow(limits: Limits, actions: seq<Action>, id: ImageId)
    requires id in Run(limits, actions).rows
    ensures WasHeld(limits, actions, id, Run(limits, actions).rows[id], Run(limits, actions).time)
  {
    assert actions[..|actions|] == actions;
    assert HeldAfter(limits, actions, |actions|, id, Run(limits, actions).rows[id], Run(limits, actions).time);
  }

  lemma {:induction false} RunKeepsInv(limits: Limits, actions: seq<Action>)
    ensures Inv(limits, actions, Run(limits, actions))
  {
    if actions == [] {
    } else {
      var before, a := actions[..|actions| - 1], actions[|actions| - 1];
      var s := Run(limits, before);
      RunKeepsInv(limits, before);
      assert before + [a] == actions;
      hide WasHeld, WasFilled;
      InvLater(limits, before, a, s);
      if a.Read? && a.reader in s.readers && s.readers[a.reader].Missed? && s.readers[a.reader].id in s.rows {
        HeldNow(limits, before, s.readers[a.reader].id);
        WasHeldLater(limits, before, a, s.readers[a.reader].id, s.rows[s.readers[a.reader].id], s.time);
      }
      if a.Fill? && a.reader in s.readers && s.readers[a.reader].Holding? && a.t2 >= s.time {
        FilledNow(limits, before, a);
      }
      ApplyKeepsInv(limits, actions, s, a);
    }
  }

  lemma InvLater(limits: Limits, actions: seq<Action>, a: Action, s: State)
    requires Inv(limits, actions, s)
    ensures Inv(limits, actions + [a], s)
  {
    hide WasHeld, WasFilled;
    forall p <- s.caches, id <- s.caches[p]
      ensures WasHeld(limits, actions + [a], id, s.caches[p][id].image.value, s.caches[p][id].image.readAt)
      ensures WasFilled(limits, actions + [a], p, id, s.caches[p][id])
    {
      WasHeldLater(limits, actions, a, id, s.caches[p][id].image.value, s.caches[p][id].image.readAt);
      WasFilledLater(limits, actions, a, p, id, s.caches[p][id]);
    }
    forall r <- s.readers | s.readers[r].Holding?
      ensures WasHeld(limits, actions + [a], s.readers[r].id, s.readers[r].fetched.value, s.readers[r].fetched.readAt)
    {
      WasHeldLater(limits, actions, a, s.readers[r].id, s.readers[r].fetched.value, s.readers[r].fetched.readAt);
    }
  }

  /** One action, with the run it belongs to already in view. */
  lemma ApplyKeepsInv(limits: Limits, actions: seq<Action>, s: State, a: Action)
    requires Inv(limits, actions, s)
    requires a.Read? && a.reader in s.readers && s.readers[a.reader].Missed? && s.readers[a.reader].id in s.rows ==>
               WasHeld(limits, actions, s.readers[a.reader].id, s.rows[s.readers[a.reader].id], s.time)
    requires a.Fill? && a.reader in s.readers && s.readers[a.reader].Holding? && a.t2 >= s.time ==>
               var r := s.readers[a.reader];
               WasFilled(limits, actions, r.process, r.id, Entry(r.fetched, a.t2 + limits.ttl))
    ensures Inv(limits, actions, Apply(limits, s, a))
  {
    hide WasHeld, WasFilled, SetStep;
    if a.Fill? {
      FillKeepsInv(limits, actions, s, a);
      hide Inv;
    }
  }

  lemma FillKeepsInv(limits: Limits, actions: seq<Action>, s: State, a: Action)
    requires Inv(limits, actions, s) && a.Fill?
    requires a.reader in s.readers && s.readers[a.reader].Holding? && a.t2 >= s.time ==>
               var r := s.readers[a.reader];
               WasFilled(limits, actions, r.process, r.id, Entry(r.fetched, a.t2 + limits.ttl))
    ensures Inv(limits, actions, Apply(limits, s, a))
  {
    hide WasHeld, WasFilled, SetStep;
    var s' := Apply(limits, s, a);
    if s' != s {
      var r := s.readers[a.reader];
      SetInserts(limits, CacheOf(s, r.process), a.after, r.id, r.fetched, s.time, a.t2);
      assert s' == State(a.t2, s.rows, s.caches[r.process := a.after], s.readers - {a.reader});
      hide Apply;
    }
  }

  /**
    Bounded staleness: every cache hit at time t returns a value the inner repository really held for
    that id, at a time no earlier than t minus the time to live minus the delay between that fill's
    read and the end of its set.
   */
  lemma HitWasHeldRecently(limits: Limits, actions: seq<Action>, process: ProcessId, id: ImageId)
    requires Hit(Run(limits, actions), process, id)
    ensures
      var s := Run(limits, actions);
      var fetched := CacheOf(s, process)[id].image;
      && WasHeld(limits, actions, id, fetched.value, fetched.readAt)
      && exists k :: 0 <= k < |actions| && FilledBy(limits, actions, k, process, id, CacheOf(s, process)[id])
                     && var delay := actions[k].t2 - fetched.readAt;
                        0.0 <= delay && s.time - limits.ttl - delay <= fetched.readAt && actions[k].t2 <= s.time
  {
    RunKeepsInv(limits, actions);
    var s := Run(limits, actions);
    hide WasHeld, Run, Apply;
    var entry := CacheOf(s, process)[id];
    assert WasFilled(limits, actions, process, id, entry);
  }

  /** A reader misses and reads value 1. */
  lemma ReaderHoldsFirst(limits: Limits, process: ProcessId, id: ImageId)
    ensures Apply(limits, Apply(limits, Apply(limits, Init, Write(id, Some(1))), Lookup(0, process, id)), Read(0))
            == State(0.0, map[id := 1], map[process := map[]], map[0 := Holding(process, id, Fetched(1, 0.0))])
  {
    var s1 := Apply(limits, Init, Write(id, Some(1)));
    assert s1 == State(0.0, map[id := 1], map[], map[]);
    var s2 := Apply(limits, s1, Lookup(0, process, id));
    assert s2 == State(0.0, map[id := 1], map[process := map[]], map[0 := Missed(process, id)]);
  }

  /** A writer saves 2 and invalidates; then the reader fills the cache with what it holds. */
  lemma FillAfterInvalidation(limits: Limits, process: ProcessId, id: ImageId, s: State, after: Store<Fetched>)
    requires limits.maxSize > 0
    requires s == State(0.0, map[id := 1], map[process := map[]], map[0 := Holding(process, id, Fetched(1, 0.0))])
    requires after == map[id := Entry(Fetched(1, 0.0), 0.0 + limits.ttl)]
    ensures
      var s' := Apply(limits, Apply(limits, Apply(limits, s, Write(id, Some(2))), Invalidate(process, id)), Fill(0, after, 0.0));
      s'.rows == map[id := 2] && CacheOf(s', process) == after && s'.time == 0.0
  {
    var s4 := Apply(limits, s, Write(id, Some(2)));
    assert s4 == s.(rows := map[id := 2]);
    var s5 := Apply(limits, s4, Invalidate(process, id));
    assert s5 == s4;
    var none: Store<Fetched> := map[];
    assert none[id := Entry(Fetched(1, 0.0), 0.0 + limits.ttl)] == after;
  }

  lemma StaleRun(limits: Limits, process: ProcessId, id: ImageId) returns (actions: seq<Action>)
    requires limits.maxSize > 0
    ensures
      var s := Run(limits, actions);
      s.rows == map[id := 2] && s.time == 0.0
      && CacheOf(s, process) == map[id := Entry(Fetched(1, 0.0), 0.0 + limits.ttl)]
  {
    var after: Store<Fetched> := map[id := Entry(Fetched(1, 0.0), 0.0 + limits.ttl)];
    var a1, a2, a3 := Write(id, Some(1)), Lookup(0, process, id), Read(0);
    var a4, a5, a6 := Write(id, Some(2)), Invalidate(process, id), Fill(0, after, 0.0);
    ReaderHoldsFirst(limits, process, id);
    var half := [a1] + [a2] + [a3];
    actions := half + [a4] + [a5] + [a6];
    assert Run(limits, []) == Init;
    hide Apply, Run, CacheOf;
    assert [] + [a1] == [a1];
    Extend(limits, [], a1);
    Extend(limits, [a1], a2);
    Extend(limits, [a1] + [a2], a3);
    FillAfterInvalidation(limits, process, id, Run(limits, half), after);
    Extend(limits, half, a4);
    Extend(limits, half + [a4], a5);
    Extend(limits, half + [a4] + [a5], a6);
  }

  /**
    Agreement is not exact while calls overlap: a fill can put back an older value after the writer has
    saved and invalidated.
   */
  lemma OverlapCanServeStale(limits: Limits, process: ProcessId, id: ImageId)
    requires limits.ttl >= 0.0 && limits.maxSize > 0
    ensures exists actions: seq<Action> ::
              var s := Run(limits, actions);
              && id in CacheOf(s, process) && s.time <= CacheOf(s, process)[id].expiresAt
              && id in s.rows && CacheOf(s, process)[id].image.value != s.rows[id]
  {
    var actions := StaleRun(limits, process, id);
    hide Run, CacheOf;
    var s := Run(limits, actions);
    assert CacheOf(s, process)[id].image.value == 1 && s.rows[id] == 2;
  }

  /** The delete order: the entry is invalidated first, a reader fills the cache, then the row goes. */
  lemma FillBeforeDelete(limits: Limits, process: ProcessId, id: ImageId, after: Store<Fetched>)
    requires limits.maxSize > 0 && after == map[id := Entry(Fetched(1, 0.0), 0.0 + limits.ttl)]
    ensures
      var s2 := Apply(limits, Apply(limits, Init, Write(id, Some(1))), Invalidate(process, id));
      var s5 := Apply(limits, Apply(limits, Apply(limits, s2, Lookup(0, process, id)), Read(0)), Fill(0, after, 0.0));
      s5.readers == map[] && Apply(limits, s5, Write(id, None)) == State(0.0, map[], map[process := after], map[])
  {
    var s1 := Apply(limits, Init, Write(id, Some(1)));
    assert s1 == State(0.0, map[id := 1], map[], map[]);
    var s2 := Apply(limits, s1, Invalidate(process, id));
    assert s2 == State(0.0, map[id := 1], map[process := map[]], map[]);
    var s3 := Apply(limits, s2, Lookup(0, process, id));
    assert s3 == s2.(readers := map[0 := Missed(process, id)]);
    var s4 := Apply(limits, s3, Read(0));
    assert s4 == s2.(readers := map[0 := Holding(process, id, Fetched(1, 0.0))]);
    var none: Store<Fetched> := map[];
    assert none[id := Entry(Fetched(1, 0.0), 0.0 + limits.ttl)] == after;
    assert Apply(limits, s4, Fill(0, after, 0.0)) == State(0.0, map[id := 1], map[process := after], map[]);
  }

  /**
    The repository's delete invalidates before it deletes, so even with no fill in flight when the row
    goes, the cache can keep serving an image that no longer exists.
   */
  lemma DeleteCanLeaveEntry(limits: Limits, process: ProcessId, id: ImageId) returns (actions: seq<Action>)
    requires limits.ttl >= 0.0 && limits.maxSize > 0
    ensures |actions| == 6 && actions[1] == Invalidate(process, id) && actions[5] == Write(id, None)
    ensures
      var s := Run(limits, actions);
      && id !in s.rows && s.readers == map[]
      && id in CacheOf(s, process) && s.time <= CacheOf(s, process)[id].expiresAt
    ensures Run(limits, actions[..5]).readers == map[]
  {
    var after: Store<Fetched> := map[id := Entry(Fetched(1, 0.0), 0.0 + limits.ttl)];
    var a1, a2, a3 := Write(id, Some(1)), Invalidate(process, id), Lookup(0, process, id);
    var a4, a5, a6 := Read(0), Fill(0, after, 0.0), Write(id, None);
    FillBeforeDelete(limits, process, id, after);
    actions := [a1, a2, a3, a4, a5, a6];
    assert Run(limits, []) == Init;
    assert [] + [a1] == [a1] && [a1] + [a2] == [a1, a2] && [a1, a2] + [a3] == [a1, a2, a3];
    assert [a1, a2, a3] + [a4] == [a1, a2, a3, a4] && [a1, a2, a3, a4] + [a5] == actions[..5];
    assert actions[..5] + [a6] == actions;
    hide Run;
    hide Apply;
    Extend(limits, [], a1);
    Extend(limits, [a1], a2);
    Extend(limits, [a1, a2], a3);
    Extend(limits, [a1, a2, a3], a4);
    Extend(limits, [a1, a2, a3, a4], a5);
    Extend(limits, actions[..5], a6);
  }

  lemma Extend(limits: Limits, actions: seq<Action>, a: Action)
    ensures Run(limits, actions + [a]) == Apply(limits, Run(limits, actions), a)
  {
    assert (actions + [a])[..|actions + [a]| - 1] == actions;
  }

  // ---------------------------------------------------------------------------------------
  // When hits agree with the repository
  // ---------------------------------------------------------------------------------------

  predicate IsRow(s: State, id: ImageId, value: Value) {
    id in s.rows && s.rows[id] == value
  }

  /** A hit would return what the repository holds. */
  predicate HitAgrees(s: State, process: ProcessId, id: ImageId) {
    Hit(s, process, id) ==> IsRow(s, id, CacheOf(s, process)[id].image.value)
  }

  /** The reader is about to fill this cache for this id with an entry that can be hit. */
  predicate InFlight(limits: Limits, reader: Reader, process: ProcessId, id: ImageId) {
    reader.Holding? && reader.process == process && reader.id == id && limits.ttl >= 0.0
  }

  /** Every fill in flight into this cache for this id carries what the repository holds. */
  predicate FillsAgree(limits: Limits, s: State, process: ProcessId, id: ImageId) {
    forall r <- s.readers :: InFlight(limits, s.readers[r], process, id) ==> IsRow(s, id, s.readers[r].fetched.value)
  }

  predicate WritesTo(actions: seq<Action>, id: ImageId) {
    exists a <- actions :: a.Write? && a.id == id
  }

  /** Agreement, of hits and of fills in flight, is kept by every action but a write to the id. */
  lemma ApplyKeepsAgreement(limits: Limits, s: State, a: Action, process: ProcessId, id: ImageId)
    requires HitAgrees(s, process, id) && FillsAgree(limits, s, process, id) && !(a.Write? && a.id == id)
    ensures
      var s' := Apply(limits, s, a);
      HitAgrees(s', process, id) && FillsAgree(limits, s', process, id)
  {
    hide SetStep;
    if a.Fill? && Apply(limits, s, a) != s {
      var r := s.readers[a.reader];
      SetInserts(limits, CacheOf(s, r.process), a.after, r.id, r.fetched, s.time, a.t2);
    }
  }

  lemma {:induction false} AgreementLasts(limits: Limits, before: seq<Action>, after: seq<Action>, process: ProcessId,
                                          id: ImageId)
    requires !WritesTo(after, id)
    requires HitAgrees(Run(limits, before), process, id) && FillsAgree(limits, Run(limits, before), process, id)
    ensures
      var s := Run(limits, before + after);
      HitAgrees(s, process, id) && FillsAgree(limits, s, process, id)
  {
    hide HitAgrees, FillsAgree, Apply;
    if after == [] {
      assert before + after == before;
    } else {
      var rest, a := after[..|after| - 1], after[|after| - 1];
      assert !WritesTo(rest, id) && !(a.Write? && a.id == id);
      AgreementLasts(limits, before, rest, process, id);
      assert before + after == before + rest + [a];
      Extend(limits, before + rest, a);
      ApplyKeepsAgreement(limits, Run(limits, before + rest), a, process, id);
    }
  }

  /** A fill in flight that disagrees can still land. */
  lemma DisagreeingFillLands(limits: Limits, before: seq<Action>, process: ProcessId, id: ImageId)
    returns (after: seq<Action>)
    requires !FillsAgree(limits, Run(limits, before), process, id)
    ensures !WritesTo(after, id) && !HitAgrees(Run(limits, before + after), process, id)
  {
    var s := Run(limits, before);
    hide Run;
    var r :| r in s.readers && InFlight(limits, s.readers[r], process, id)
             && !IsRow(s, id, s.readers[r].fetched.value);
    var fetched := s.readers[r].fetched;
    var store := SetHappens(limits, CacheOf(s, process), id, fetched, s.time, s.time);
    var fill := Fill(r, store, s.time);
    assert Apply(limits, s, fill) == s.(caches := s.caches[process := store], readers := s.readers - {r});
    SetInserts(limits, CacheOf(s, process), store, id, fetched, s.time, s.time);
    hide SetStep, Apply;
    after := [fill];
    Extend(limits, before, fill);
  }

  /**
    From any point on, as long as nobody writes the id again, hits agree with the repository whatever
    else happens, if and only if now a hit agrees and so does every fill in flight.
   */
  lemma {:induction false} AgreesFromNowOnExactly(limits: Limits, before: seq<Action>, process: ProcessId, id: ImageId)
    ensures (forall after: seq<Action> :: !WritesTo(after, id) ==> HitAgrees(Run(limits, before + after), process, id))
            <==> HitAgrees(Run(limits, before), process, id) && FillsAgree(limits, Run(limits, before), process, id)
  {
    hide HitAgrees, FillsAgree, Run;
    if HitAgrees(Run(limits, before), process, id) && FillsAgree(limits, Run(limits, before), process, id) {
      forall after: seq<Action> | !WritesTo(after, id)
        ensures HitAgrees(Run(limits, before + after), process, id)
      {
        AgreementLasts(limits, before, after, process, id);
      }
    } else if !FillsAgree(limits, Run(limits, before), process, id) {
      var after := DisagreeingFillLands(limits, before, process, id);
    } else {
      assert before + [] == before && !WritesTo([], id);
    }
  }

  /**
    A save writes the row and then invalidates: from then on hits agree until the next write, exactly
    when no fill in flight at the invalidation carries another value.  A fill in flight is the only way
    to go stale.
   */
  lemma {:induction false} SaveAgreesExactly(limits: Limits, before: seq<Action>, process: ProcessId, id: ImageId)
    ensures
      var saved := before + [Invalidate(process, id)];
      (forall after: seq<Action> :: !WritesTo(after, id) ==> HitAgrees(Run(limits, saved + after), process, id))
      <==> FillsAgree(limits, Run(limits, before), process, id)
  {
    AgreesFromNowOnExactly(limits, before + [Invalidate(process, id)], process, id);
    Extend(limits, before, Invalidate(process, id));
    hide Run;
  }

  /**
    A delete invalidates and only then removes the row: from then on the image is never served until it
    is written again, exactly when at the removal the cache holds no live entry for it and no fill is in
    flight.  What the invalidation did earlier does not matter.
   */
  lemma {:induction false} DeleteAgreesExactly(limits: Limits, before: seq<Action>, process: ProcessId, id: ImageId)
    ensures
      var s, gone := Run(limits, before), before + [Write(id, None)];
      (forall after: seq<Action> :: !WritesTo(after, id) ==> HitAgrees(Run(limits, gone + after), process, id))
      <==> !Hit(s, process, id) && forall r <- s.readers :: !InFlight(limits, s.readers[r], process, id)
  {
    AgreesFromNowOnExactly(limits, before + [Write(id, None)], process, id);
    Extend(limits, before, Write(id, None));
    hide Run;
  }
}
