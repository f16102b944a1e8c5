/**
  Stretches of idempotency protocol runs made by one request.  How each of its calls ends is a function
  of the call, what others do meanwhile happens before its claim, and a lookup may show an image out of
  a cache although its row is gone; so the stretch is determined.
 */
module ProtocolTrace {
  import opened Basics
  import opened ImageEntity
  import opened ImageFiles
  import Protocol = IdempotencyProtocol

  /**
    The request, the id a new image would get, how each call ends, what other requests do between this
    one's lookup and its claim, and the images its cache still shows.
   */
  datatype Env = Env(me: Protocol.RequestId, q: Protocol.Request, freshId: ImageId,
                     outcomes: Protocol.Pc -> Protocol.Outcome, others: seq<Protocol.Action>, hits: set<ImageId>)

  /** The actions of a stretch, the state they lead to but for the request itself, and where the request stands. */
  datatype Trace = Trace(actions: seq<Protocol.Action>, base: Protocol.State, pc: Protocol.Pc)

  /** The request arrives. */
  function Arrived(env: Env, s: Protocol.State): Trace {
    Trace([Protocol.Arrive(env.me, env.q.hash, env.q.key)], s, Protocol.Arrival(env.q.hash, env.q.key).pc)
  }

  function EffectOf(env: Env, t: Trace): Protocol.Effect {
    Protocol.Step(env.q.(pc := t.pc), env.me, Protocol.Find(t.base.records, env.q), t.base.images,
                  env.outcomes(t.pc), env.freshId)
  }

  /** The request's next call. */
  function Next(env: Env, t: Trace): Trace {
    var e := EffectOf(env, t);
    Trace(t.actions + [Protocol.Call(env.me, env.outcomes(t.pc), env.freshId)],
          Protocol.State(Protocol.Store(t.base.records, env.q, e.op), e.rows, t.base.requests,
                         Protocol.EventsAfter(t.base.events, e.event)),
          e.pc)
  }

  /** Lookups show other images. */
  function Shown(t: Trace, images: map<ImageId, Status>): Trace {
    Trace(t.actions + [Protocol.Rewrite(images)], t.base.(images := images), t.pc)
  }

  /** What others do while the request waits; they cannot move it. */
  function Interrupted(env: Env, t: Trace): Trace {
    var after := Protocol.RunFrom(Protocol.At(t.base, env.me, env.q, t.pc), env.others);
    if env.me in after.requests && after.requests[env.me] == env.q.(pc := t.pc) then
      Trace(t.actions + env.others, after, t.pc)
    else t
  }

  /** The image that the next call asks get_by_id for. */
  function Wanted(env: Env, pc: Protocol.Pc): Option<ImageId> {
    match pc
    case ReplayFetch(id) => Some(id)
    case GetImage => if env.q.hash.ProcessHash? then Some(env.q.hash.imageId) else None
    case _ => None
  }

  /** The cache shows the wanted image although its row is gone. */
  predicate ShowsGone(env: Env, t: Trace) {
    var wanted := Wanted(env, t.pc);
    env.outcomes(t.pc).Succeeds? && wanted.Some? && wanted.value in env.hits && wanted.value !in t.base.images
  }

  /** One call of the request with what happens around it. */
  function Advance(env: Env, t: Trace): Trace {
    if t.pc.Claim? then Next(env, Interrupted(env, t))
    else if ShowsGone(env, t) then
      Shown(Next(env, Shown(t, t.base.images[Wanted(env, t.pc).value := Pending])), t.base.images)
    else Next(env, t)
  }

  function Steps(env: Env, t: Trace, n: nat): Trace {
    if n == 0 then t else Advance(env, Steps(env, t, n - 1))
  }

  lemma {:induction false} StepsAdd(env: Env, t: Trace, n: nat, m: nat)
    ensures Steps(env, Steps(env, t, n), m) == Steps(env, t, n + m)
  {
    hide Advance;
    if m > 0 {
      StepsAdd(env, t, n, m - 1);
    }
  }

  lemma OneStep(env: Env, t: Trace)
    ensures Steps(env, t, 1) == Advance(env, t) && Steps(env, t, 0) == t
  {
    hide Advance;
    assert Steps(env, t, 1) == Advance(env, Steps(env, t, 0));
  }

  // ---------------------------------------------------------------------------------------
  // The tables
  // ---------------------------------------------------------------------------------------

  type Records = map<Protocol.Slot, Protocol.Record>

  type Rows = map<ImageId, Row>

  /** The status column of the images table. */
  function Statuses(rows: Rows): map<ImageId, Status> {
    map id | id in rows :: rows[id].status
  }

  lemma SavedStatus(rows: Rows, v: ImageValue)
    ensures Statuses(SaveRow(rows, v)) == Statuses(rows)[v.id := v.status]
  {
  }

  /** The state shows the tables. */
  predicate Shows(base: Protocol.State, records: Records, rows: Rows) {
    base.records == records && base.images == Statuses(rows)
  }

  /** The tables at a request's start, and as others leave them before its claim. */
  datatype Tables = Tables(records: Records, rows: Rows, recordsThen: Records, rowsThen: Rows)

  /** What others do before the claim leads from the first tables to the second. */
  predicate Leads(env: Env, s: Protocol.State, f: Tables) {
    Shows(s, f.records, f.rows) && Shows(Interrupted(env, Trace([], s, Protocol.Claim)).base, f.recordsThen, f.rowsThen)
  }

  /** The table with the request's claim in it. */
  function Claimed(q: Protocol.Request, me: Protocol.RequestId, records: Records): Records
    requires q.key.Some?
  {
    var image := if q.hash.ProcessHash? then Some(q.hash.imageId) else None;
    records[q.Target() := Protocol.Record(q.hash, Protocol.InProgress, image, me)]
  }

  /** The table with the record completed, if there is one. */
  function CompletedIn(records: Records, slot: Protocol.Slot, id: ImageId): Records {
    if slot in records then records[slot := records[slot].(status := Protocol.Completed, imageId := Some(id))] else records
  }

  // ---------------------------------------------------------------------------------------
  // Traces are protocol runs
  // ---------------------------------------------------------------------------------------

  /** The trace's actions, run from the state, lead to where the trace says. */
  predicate Follows(s: Protocol.State, env: Env, t: Trace) {
    Protocol.RunFrom(s, t.actions) == Protocol.At(t.base, env.me, env.q, t.pc)
  }

  lemma ArrivedFollows(s: Protocol.State, env: Env)
    requires env.me !in s.requests
    ensures Follows(s, env, Arrived(env, s))
  {
    var actions := [Protocol.Arrive(env.me, env.q.hash, env.q.key)];
    assert actions == [] + actions;
    Protocol.RunFromExtend(s, [], actions[0]);
    Protocol.NoSteps(s);
    hide Protocol.RunFrom;
  }

  lemma NextFollows(s: Protocol.State, env: Env, t: Trace)
    requires Follows(s, env, t)
    ensures Follows(s, env, Next(env, t))
  {
    Protocol.RunFromExtend(s, t.actions, Protocol.Call(env.me, env.outcomes(t.pc), env.freshId));
    Protocol.CallAt(t.base, env.me, env.q, t.pc, env.outcomes(t.pc), env.freshId);
    hide Protocol.Step, Protocol.Apply, Protocol.RunFrom, Protocol.At;
  }

  lemma ShownFollows(s: Protocol.State, env: Env, t: Trace, images: map<ImageId, Status>)
    requires Follows(s, env, t)
    ensures Follows(s, env, Shown(t, images))
  {
    Protocol.RunFromExtend(s, t.actions, Protocol.Rewrite(images));
    hide Protocol.RunFrom;
  }

  lemma InterruptedFollows(s: Protocol.State, env: Env, t: Trace)
    requires Follows(s, env, t)
    ensures Follows(s, env, Interrupted(env, t))
  {
    Protocol.RunFromAppends(s, t.actions, env.others);
    var after := Protocol.RunFrom(Protocol.At(t.base, env.me, env.q, t.pc), env.others);
    hide Protocol.RunFrom;
    if env.me in after.requests && after.requests[env.me] == env.q.(pc := t.pc) {
      assert after.requests[env.me := env.q.(pc := t.pc)] == after.requests;
    }
  }

  lemma AdvanceFollows(s: Protocol.State, env: Env, t: Trace)
    requires Follows(s, env, t)
    ensures Follows(s, env, Advance(env, t))
  {
    hide Follows, Next, Shown, Interrupted;
    if t.pc.Claim? {
      InterruptedFollows(s, env, t);
      NextFollows(s, env, Interrupted(env, t));
    } else if ShowsGone(env, t) {
      var images := t.base.images[Wanted(env, t.pc).value := Pending];
      ShownFollows(s, env, t, images);
      NextFollows(s, env, Shown(t, images));
      ShownFollows(s, env, Next(env, Shown(t, images)), t.base.images);
    } else {
      NextFollows(s, env, t);
    }
  }

  /** Every stretch is a protocol run. */
  lemma {:induction false} StepsFollow(s: Protocol.State, env: Env, n: nat)
    requires env.me !in s.requests
    ensures Follows(s, env, Steps(env, Arrived(env, s), n))
  {
    hide Follows, Advance, Arrived;
    if n == 0 {
      ArrivedFollows(s, env);
    } else {
      StepsFollow(s, env, n - 1);
      AdvanceFollows(s, env, Steps(env, Arrived(env, s), n - 1));
    }
  }

  // ---------------------------------------------------------------------------------------
  // Single calls
  // ---------------------------------------------------------------------------------------

  /** A call that neither claims nor looks an image up has nothing around it. */
  lemma PlainAdvance(env: Env, t: Trace)
    requires !t.pc.Claim? && Wanted(env, t.pc).None?
    ensures Advance(env, t) == Next(env, t)
  {
    hide Next, Interrupted;
  }

  /** The lookup changes nothing and sends the request where the record says. */
  lemma AfterLookup(env: Env, t: Trace)
    requires t.pc.Lookup?
    ensures
      var t', ok := Advance(env, t), env.outcomes(t.pc).Succeeds?;
      && t'.base == t.base
      && t'.pc == if ok then Protocol.Inspect(env.q, Protocol.Find(t.base.records, env.q), t.pc.again)
                  else Protocol.Raised(Protocol.LookupFailed)
  {
    hide Advance, Interrupted, Shown, Protocol.RunFrom, Protocol.Apply;
    PlainAdvance(env, t);
    assert Protocol.Inspect(env.q.(pc := t.pc), Protocol.Find(t.base.records, env.q), t.pc.again)
           == Protocol.Inspect(env.q, Protocol.Find(t.base.records, env.q), t.pc.again);
  }

  /** The replay fetch changes nothing; the image may come out of the cache. */
  lemma AfterFetch(env: Env, t: Trace)
    requires t.pc.ReplayFetch?
    ensures
      var t', ok, id := Advance(env, t), env.outcomes(t.pc).Succeeds?, t.pc.replayId;
      && t'.base == t.base
      && t'.pc == if !ok then Protocol.Raised(Protocol.ReplayFetchFailed)
                  else if id in env.hits || id in t.base.images then Protocol.Returned(Protocol.Response(id))
                  else Protocol.Raised(Protocol.Conflict)
  {
    hide Interrupted, Protocol.RunFrom, Protocol.Apply;
  }

  /** The claim, after what others did: refused, beaten, or the record is there. */
  lemma AfterClaim(env: Env, t: Trace)
    requires t.pc.Claim? && env.q.key.Some?
    ensures
      var t', i, slot := Advance(env, t), Interrupted(env, t).base, env.q.Target();
      && t'.base.images == i.images
      && (if !env.outcomes(t.pc).Succeeds? then
            t'.pc == Protocol.Raised(Protocol.ClaimFailed) && t'.base.records == i.records
          else if slot in i.records then t'.pc == Protocol.Lookup(true) && t'.base.records == i.records
          else
            && t'.pc == Protocol.FirstWork(env.q.hash)
            && t'.base.records == Claimed(env.q, env.me, i.records))
  {
    hide Protocol.RunFrom, Protocol.At;
  }

  lemma InterruptedIgnoresActions(env: Env, t: Trace)
    requires t.pc.Claim?
    ensures Interrupted(env, t).base == Interrupted(env, Trace([], t.base, Protocol.Claim)).base
  {
  }

  /** The same in terms of the tables. */
  lemma ClaimStep(env: Env, t: Trace, f: Tables)
    requires env.q.key.Some? && t.pc.Claim? && Leads(env, t.base, f)
    ensures
      var t1 := Steps(env, t, 1);
      if !env.outcomes(t.pc).Succeeds? then
        t1.pc == Protocol.Raised(Protocol.ClaimFailed) && Shows(t1.base, f.recordsThen, f.rowsThen)
      else if env.q.Target() in f.recordsThen then
        t1.pc == Protocol.Lookup(true) && Shows(t1.base, f.recordsThen, f.rowsThen)
      else
        t1.pc == Protocol.FirstWork(env.q.hash) && Shows(t1.base, Claimed(env.q, env.me, f.recordsThen), f.rowsThen)
  {
    AfterClaim(env, t);
    InterruptedIgnoresActions(env, t);
    OneStep(env, t);
    hide Advance, Interrupted, Statuses;
  }

  /** Completing the record. */
  lemma AfterComplete(env: Env, t: Trace)
    requires t.pc.Complete? && env.q.key.Some?
    ensures
      var t', slot := Advance(env, t), env.q.Target();
      && t'.base.images == t.base.images
      && (if !env.outcomes(t.pc).Succeeds? then
            && t'.base.records == t.base.records
            && t'.pc == if env.q.hash.UploadHash? then Protocol.Release(false) else Protocol.Raised(Protocol.CompleteFailed)
          else
            && t'.base.records == CompletedIn(t.base.records, slot, t.pc.completedId)
            && t'.pc == Protocol.Returned(if env.q.hash.UploadHash? then Protocol.Response(t.pc.completedId)
                                          else Protocol.Processed(true)))
  {
    hide Advance, Interrupted, Shown, Protocol.RunFrom, Protocol.Apply;
    PlainAdvance(env, t);
  }

  /** Releasing the key. */
  lemma AfterRelease(env: Env, t: Trace)
    requires t.pc.Release? && env.q.key.Some?
    ensures
      var t', slot := Advance(env, t), env.q.Target();
      && t'.base.images == t.base.images
      && (if !env.outcomes(t.pc).Succeeds? then
            t'.base.records == t.base.records && t'.pc == Protocol.Raised(Protocol.ReleaseFailed)
          else
            && t'.base.records == t.base.records - {slot}
            && t'.pc == if t.pc.missing then Protocol.Returned(Protocol.Processed(false))
                        else Protocol.Raised(Protocol.WorkFailed))
  {
    hide Advance, Interrupted, Shown, Protocol.RunFrom, Protocol.Apply;
    PlainAdvance(env, t);
  }

  /** The calls of an upload's work. */
  lemma AfterUploadWork(env: Env, t: Trace)
    requires t.pc.StoreFile? || t.pc.SaveRow? || t.pc.Publish?
    ensures
      var t', ok := Advance(env, t), env.outcomes(t.pc).Succeeds?;
      && t'.base.records == t.base.records
      && t'.base.images == (if t.pc.SaveRow? && ok then t.base.images[env.freshId := Pending] else t.base.images)
      && t'.pc == if t.pc.Publish? then Protocol.AfterWork(env.q, t.pc.savedId)
                  else if !ok then Protocol.AfterFailedWork(env.q)
                  else if t.pc.StoreFile? then Protocol.SaveRow else Protocol.Publish(env.freshId)
  {
    hide Advance, Interrupted, Shown, Protocol.RunFrom, Protocol.Apply;
    PlainAdvance(env, t);
  }

  /** The calls of a processing run's work. */
  lemma AfterProcessWork(env: Env, t: Trace)
    requires env.q.hash.ProcessHash?
    requires t.pc.SaveProcessing? || t.pc.Retrieve? || t.pc.Generate? || t.pc.StoreThumbnail? || t.pc.SaveCompleted?
             || t.pc.DeleteThumbnail? || t.pc.SaveFailed?
    ensures
      var t', out, id := Advance(env, t), env.outcomes(t.pc), env.q.hash.imageId;
      && t'.base.records == t.base.records
      && t'.base.images
         == (if !out.Succeeds? then t.base.images
             else match t.pc
                  case SaveProcessing => t.base.images[id := Processing]
                  case SaveCompleted => t.base.images[id := Status.Completed]
                  case SaveFailed => t.base.images[id := Failed]
                  case _ => t.base.images)
      && t'.pc == match t.pc
                  case SaveProcessing => if out.Succeeds? then Protocol.Retrieve else Protocol.SaveFailed
                  case Retrieve => if out.Succeeds? then Protocol.Generate else Protocol.SaveFailed
                  case Generate => if out.Succeeds? then Protocol.StoreThumbnail else Protocol.SaveFailed
                  case StoreThumbnail => if out.Succeeds? then Protocol.SaveCompleted else Protocol.SaveFailed
                  case SaveCompleted => if out.Succeeds? then Protocol.AfterWork(env.q, id) else Protocol.DeleteThumbnail
                  case DeleteThumbnail =>
                    if out.FailsOther? then Protocol.Raised(Protocol.ThumbDeleteFailed) else Protocol.SaveFailed
                  case _ =>
                    if out.Succeeds? then Protocol.AfterFailedWork(env.q) else Protocol.Raised(Protocol.FailedSaveFailed)
  {
    hide Advance, Interrupted, Shown, Protocol.RunFrom, Protocol.Apply;
    PlainAdvance(env, t);
  }

  /** Looking the image up, before any work on it. */
  lemma AfterGetImage(env: Env, t: Trace)
    requires t.pc.GetImage? && env.q.hash.ProcessHash?
    ensures
      var t', ok, id := Advance(env, t), env.outcomes(t.pc).Succeeds?, env.q.hash.imageId;
      && t'.base == t.base
      && t'.pc == if !ok then Protocol.Raised(Protocol.GetImageFailed)
                  else if id in env.hits || id in t.base.images then Protocol.SaveProcessing
                  else if env.q.key.Some? then Protocol.Release(true) else Protocol.Returned(Protocol.Processed(false))
  {
    hide Interrupted, Protocol.RunFrom, Protocol.Apply;
  }
}
