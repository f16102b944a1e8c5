/**
  The process use case as it runs: the key protocol around the processing run, on the idempotency table,
  the cached repository and the storage.  How an execution ends and what it leaves is a function of what
  it finds and how its calls end, and that function is a stretch of a run of the idempotency protocol.
 */
module ProcessUseCase {
  import opened Basics
  import opened ImageEntity
  import opened ImageFiles
  import opened ImageService
  import opened ProtocolTrace
  import Protocol = IdempotencyProtocol

  /** How the calls of an execution end, besides those of the run itself. */
  datatype Around = Around(lookupUp: bool, claimUp: bool, lookupAgainUp: bool, getUp: bool, completeUp: bool,
                           releaseUp: bool, now: real, t1: real, t2: real)

  /** How a processing run ends. */
  datatype Ended =
    | GetRaised       // get_by_id raised
    | Missing         // there is no such image
    | Succeeded
    | FailedSaved     // the run failed and the FAILED status is saved
    | CleanupRaised   // the thumbnail cleanup raised something other than an OSError
    | SaveRaised      // saving the FAILED status raised

  // ---------------------------------------------------------------------------------------
  // How executions end
  // ---------------------------------------------------------------------------------------

  function RunEnd(digest: Bytes -> string, w: World, seen: ImageValue, p: Calls): Ended {
    var done := ProcessEffect(digest, w, seen, p);
    if done.ok then Succeeded
    else if done.lastSave then FailedSaved
    else if StoresThumbnail(w, seen, p) && p.cleanup.FailsOther? then CleanupRaised
    else SaveRaised
  }

  /** The entity get_by_id returns: what the cache still shows, or what the row says. */
  function SeenImage(id: ImageId, a: Around, hit: Option<ImageValue>, rows: Rows): Option<ImageValue> {
    if hit.Some? then hit else if a.getUp && id in rows then Some(ModelToEntity(id, rows[id])) else None
  }

  function EndOf(digest: Bytes -> string, w: World, id: ImageId, a: Around, hit: Option<ImageValue>, p: Calls): Ended {
    match SeenImage(id, a, hit, w.rows)
    case Some(seen) => RunEnd(digest, w, seen, p)
    case None => if a.getUp then Missing else GetRaised
  }

  function WorldOf(digest: Bytes -> string, w: World, id: ImageId, a: Around, hit: Option<ImageValue>, p: Calls): World {
    match SeenImage(id, a, hit, w.rows)
    case Some(seen) => ProcessEffect(digest, w, seen, p).world
    case None => w
  }

  /** What the execution makes of the run's end: complete the record, release the key, or leave it in progress. */
  function WorkEnding(q: Protocol.Request, a: Around, end: Ended): Protocol.Pc {
    var released := q.key.None? || a.releaseUp;
    match end
    case GetRaised => Protocol.Raised(Protocol.GetImageFailed)
    case Missing =>
      if released then Protocol.Returned(Protocol.Processed(false)) else Protocol.Raised(Protocol.ReleaseFailed)
    case Succeeded =>
      if q.key.None? || a.completeUp then Protocol.Returned(Protocol.Processed(true))
      else Protocol.Raised(Protocol.CompleteFailed)
    case FailedSaved => Protocol.Raised(if released then Protocol.WorkFailed else Protocol.ReleaseFailed)
    case CleanupRaised => Protocol.Raised(Protocol.ThumbDeleteFailed)
    case SaveRaised => Protocol.Raised(Protocol.FailedSaveFailed)
  }

  function WorkRecords(q: Protocol.Request, id: ImageId, a: Around, end: Ended, records: Records): Records {
    if q.key.None? then records
    else if end.Succeeded? && a.completeUp then CompletedIn(records, q.Target(), id)
    else if (end.Missing? || end.FailedSaved?) && a.releaseUp then records - {q.Target()}
    else records
  }

  /** What a lookup makes of the record; None lets the request go on to claim the key. */
  function LookupEnding(q: Protocol.Request, again: bool, lookupUp: bool, record: Option<Protocol.Record>): Option<Protocol.Pc> {
    if !lookupUp then Some(Protocol.Raised(Protocol.LookupFailed))
    else if record.None? then if again then Some(Protocol.Raised(Protocol.AlreadyInProgress)) else None
    else if record.value.hash != q.hash then Some(Protocol.Raised(Protocol.Conflict))
    else if record.value.status == Protocol.InProgress then Some(Protocol.Raised(Protocol.AlreadyInProgress))
    else Some(Protocol.Returned(Protocol.Processed(true)))
  }

  function FirstLookup(q: Protocol.Request, a: Around, f: Tables): Option<Protocol.Pc>
    requires q.key.Some?
  {
    LookupEnding(q, false, a.lookupUp, Protocol.RowAt(f.records, q.Target()))
  }

  function SecondLookup(q: Protocol.Request, a: Around, f: Tables): (end: Option<Protocol.Pc>)
    requires q.key.Some?
    ensures end.Some?
  {
    LookupEnding(q, true, a.lookupAgainUp, Protocol.RowAt(f.recordsThen, q.Target()))
  }

  /** The request gets as far as the claim. */
  predicate Claims(q: Protocol.Request, a: Around, f: Tables) {
    q.key.Some? && FirstLookup(q, a, f).None?
  }

  /** It goes to work: without a key, or having claimed it. */
  predicate Works(q: Protocol.Request, a: Around, f: Tables) {
    q.key.Some? ==> Claims(q, a, f) && a.claimUp && q.Target() !in f.recordsThen
  }

  function RowsThen(q: Protocol.Request, a: Around, f: Tables): Rows {
    if Claims(q, a, f) then f.rowsThen else f.rows
  }

  /** How a request ends that does not go to work. */
  function Refusal(q: Protocol.Request, a: Around, f: Tables): Protocol.Pc
    requires !Works(q, a, f)
  {
    if !Claims(q, a, f) then FirstLookup(q, a, f).value
    else if !a.claimUp then Protocol.Raised(Protocol.ClaimFailed)
    else SecondLookup(q, a, f).value
  }

  function RecordsThen(q: Protocol.Request, a: Around, f: Tables): Records {
    if Claims(q, a, f) then f.recordsThen else f.records
  }

  function ProcessEnding(q: Protocol.Request, a: Around, f: Tables, end: Ended): Protocol.Pc {
    if Works(q, a, f) then WorkEnding(q, a, end) else Refusal(q, a, f)
  }

  function ProcessRecords(q: Protocol.Request, me: Protocol.RequestId, id: ImageId, a: Around, f: Tables, end: Ended): Records {
    if !Works(q, a, f) then RecordsThen(q, a, f)
    else WorkRecords(q, id, a, end, if q.key.None? then f.records else Claimed(q, me, f.recordsThen))
  }

  // ---------------------------------------------------------------------------------------
  // What callers see
  // ---------------------------------------------------------------------------------------

  /** How a run ends, by the outcomes of its calls. */
  lemma RunEndsExactly(digest: Bytes -> string, w: World, seen: ImageValue, p: Calls)
    ensures
      var stored := p.saveProcessingUp && p.retrieveUp && seen.originalPath in w.files && p.thumbnail.Some? && p.store.Writes?;
      RunEnd(digest, w, seen, p)
      == if stored && p.saveCompletedUp then Succeeded
         else if stored && p.cleanup.FailsOther? then CleanupRaised
         else if p.saveFailedUp then FailedSaved else SaveRaised
  {
    hide PathOf, SaveRow;
  }

  /** Which image a run works on, if any. */
  lemma LookupEndsExactly(digest: Bytes -> string, w: World, id: ImageId, a: Around, hit: Option<ImageValue>, p: Calls)
    ensures
      var end, after := EndOf(digest, w, id, a, hit, p), WorldOf(digest, w, id, a, hit, p);
      && (hit.None? && !a.getUp ==> end == GetRaised && after == w)
      && (hit.None? && a.getUp && id !in w.rows ==> end == Missing && after == w)
      && (hit.None? && a.getUp && id in w.rows ==>
            var seen := ModelToEntity(id, w.rows[id]);
            end == RunEnd(digest, w, seen, p) && after == ProcessEffect(digest, w, seen, p).world)
      && (hit.Some? ==> end == RunEnd(digest, w, hit.value, p) && after == ProcessEffect(digest, w, hit.value, p).world)
  {
    hide RunEnd, ProcessEffect, ModelToEntity;
  }

  /** What a keyed request gets that finds a record, of an earlier request for image id0. */
  lemma RecordedProcessAnswers(id: ImageId, key: Protocol.Key, a: Around, f: Tables, end: Ended, me: Protocol.RequestId,
                               id0: ImageId, status: Protocol.RecordStatus, image: Option<ImageId>,
                               claimant: Protocol.RequestId)
    requires
      var slot := Protocol.Slot(Protocol.ProcessScope, key);
      slot in f.records && f.records[slot] == Protocol.Record(Protocol.ProcessHash(id0), status, image, claimant)
    ensures
      var q := OfImage(id, Some(key));
      var ending := ProcessEnding(q, a, f, end);
      && ProcessRecords(q, me, id, a, f, end) == f.records && !Works(q, a, f) && RowsThen(q, a, f) == f.rows
      && (!a.lookupUp ==> ending == Protocol.Raised(Protocol.LookupFailed))
      && (a.lookupUp && id != id0 ==> ending == Protocol.Raised(Protocol.Conflict))
      && (a.lookupUp && id == id0 && status.InProgress? ==> ending == Protocol.Raised(Protocol.AlreadyInProgress))
      && (a.lookupUp && id == id0 && status.Completed? ==> ending == Protocol.Returned(Protocol.Processed(true)))
  {
  }

  /** A keyed request that finds no record, but whose claim fails or comes too late. */
  lemma UnclaimedProcessAnswers(id: ImageId, key: Protocol.Key, a: Around, f: Tables, end: Ended, me: Protocol.RequestId)
    requires a.lookupUp && Protocol.Slot(Protocol.ProcessScope, key) !in f.records
    requires !a.claimUp || Protocol.Slot(Protocol.ProcessScope, key) in f.recordsThen
    ensures
      var q, slot := OfImage(id, Some(key)), Protocol.Slot(Protocol.ProcessScope, key);
      var ending := ProcessEnding(q, a, f, end);
      && ProcessRecords(q, me, id, a, f, end) == f.recordsThen && !Works(q, a, f) && RowsThen(q, a, f) == f.rowsThen
      && (!a.claimUp ==> ending == Protocol.Raised(Protocol.ClaimFailed))
      && (a.claimUp && !a.lookupAgainUp ==> ending == Protocol.Raised(Protocol.LookupFailed))
      && (a.claimUp && a.lookupAgainUp ==>
            var record := f.recordsThen[slot];
            && (record.hash != Protocol.ProcessHash(id) ==> ending == Protocol.Raised(Protocol.Conflict))
            && (record.hash == Protocol.ProcessHash(id) ==>
                  ending == if record.status.InProgress? then Protocol.Raised(Protocol.AlreadyInProgress)
                            else Protocol.Returned(Protocol.Processed(true))))
  {
  }

  /**
    A keyed request that claims its key, by how the run ends: True with the record completed; False for
    a missing image, or the exception of a failed run, with the key freed; and the endings after which
    the record stays in progress.
   */
  lemma ClaimedProcessEnds(id: ImageId, key: Protocol.Key, a: Around, f: Tables, end: Ended, me: Protocol.RequestId)
    requires a.lookupUp && Protocol.Slot(Protocol.ProcessScope, key) !in f.records
    requires a.claimUp && Protocol.Slot(Protocol.ProcessScope, key) !in f.recordsThen
    ensures
      var q, slot, before := OfImage(id, Some(key)), Protocol.Slot(Protocol.ProcessScope, key), f.recordsThen;
      var claimed := Protocol.Record(Protocol.ProcessHash(id), Protocol.InProgress, Some(id), me);
      var ending, records := ProcessEnding(q, a, f, end), ProcessRecords(q, me, id, a, f, end);
      && Works(q, a, f) && RowsThen(q, a, f) == f.rowsThen
      && (end.Succeeded? && a.completeUp ==>
            ending == Protocol.Returned(Protocol.Processed(true))
            && records == before[slot := Protocol.Record(Protocol.ProcessHash(id), Protocol.Completed, Some(id), me)])
      && (end.Missing? && a.releaseUp ==> ending == Protocol.Returned(Protocol.Processed(false)) && records == before)
      && (end.FailedSaved? && a.releaseUp ==> ending == Protocol.Raised(Protocol.WorkFailed) && records == before)
      && ((end.Missing? || end.FailedSaved?) && !a.releaseUp ==>
            ending == Protocol.Raised(Protocol.ReleaseFailed) && records == before[slot := claimed])
      && (end.Succeeded? && !a.completeUp ==>
            ending == Protocol.Raised(Protocol.CompleteFailed) && records == before[slot := claimed])
      && (end.GetRaised? ==> ending == Protocol.Raised(Protocol.GetImageFailed) && records == before[slot := claimed])
      && (end.CleanupRaised? ==>
            ending == Protocol.Raised(Protocol.ThumbDeleteFailed) && records == before[slot := claimed])
      && (end.SaveRaised? ==> ending == Protocol.Raised(Protocol.FailedSaveFailed) && records == before[slot := claimed])
  {
  }

  /** A request without a key. */
  lemma KeylessProcessEnds(id: ImageId, a: Around, f: Tables, end: Ended, me: Protocol.RequestId)
    ensures
      var q := OfImage(id, None);
      var ending := ProcessEnding(q, a, f, end);
      && Works(q, a, f) && ProcessRecords(q, me, id, a, f, end) == f.records && RowsThen(q, a, f) == f.rows
      && (end.Succeeded? ==> ending == Protocol.Returned(Protocol.Processed(true)))
      && (end.Missing? ==> ending == Protocol.Returned(Protocol.Processed(false)))
      && (!end.Succeeded? && !end.Missing? ==> ending.Raised?)
  {
  }

  // ---------------------------------------------------------------------------------------
  // Executions are protocol runs
  // ---------------------------------------------------------------------------------------

  /** `there` says whether the entity's original is in the storage. */
  function CallOutcome(pc: Protocol.Pc, p: Calls, a: Around, hit: bool, there: bool): Protocol.Outcome {
    var ok :=
      match pc
      case Lookup(again) => if again then a.lookupAgainUp else a.lookupUp
      case Claim => a.claimUp
      case GetImage => hit || a.getUp
      case SaveProcessing => p.saveProcessingUp
      case Retrieve => p.retrieveUp && there
      case Generate => p.thumbnail.Some?
      case StoreThumbnail => p.store.Writes?
      case SaveCompleted => p.saveCompletedUp
      case DeleteThumbnail => p.cleanup.Deletes?
      case SaveFailed => p.saveFailedUp
      case Complete(_) => a.completeUp
      case Release(_) => a.releaseUp
      case _ => false;
    if ok then Protocol.Succeeds
    else if pc.DeleteThumbnail? && p.cleanup.FailsOs? then Protocol.FailsOs
    else Protocol.FailsOther
  }

  function ProcessEnv(me: Protocol.RequestId, q: Protocol.Request, id: ImageId, p: Calls, a: Around,
                      others: seq<Protocol.Action>, hit: bool, there: bool): Env
  {
    Env(me, q, id, pc => CallOutcome(pc, p, a, hit, there), others, if hit then {id} else {})
  }

  function OfImage(id: ImageId, key: Option<Protocol.Key>): (q: Protocol.Request)
    ensures q.hash == Protocol.ProcessHash(id) && q.key == key
  {
    Protocol.Arrival(Protocol.ProcessHash(id), key)
  }

  /** The environment is that of an execution on the image. */
  ghost predicate Fits(env: Env, p: Calls, a: Around, hit: bool, there: bool) {
    env.q.hash.ProcessHash? && env == ProcessEnv(env.me, env.q, env.q.hash.imageId, p, a, env.others, hit, there)
  }

  /** Where the request stands once the run has ended so. */
  function AfterRun(q: Protocol.Request, id: ImageId, end: Ended): Protocol.Pc {
    match end
    case Succeeded => Protocol.AfterWork(q, id)
    case FailedSaved => Protocol.AfterFailedWork(q)
    case CleanupRaised => Protocol.Raised(Protocol.ThumbDeleteFailed)
    case SaveRaised => Protocol.Raised(Protocol.FailedSaveFailed)
    case GetRaised => Protocol.Raised(Protocol.GetImageFailed)
    case Missing => if q.key.Some? then Protocol.Release(true) else Protocol.Returned(Protocol.Processed(false))
  }

  /** Where it stands after the try block. */
  function AfterTry(q: Protocol.Request, id: ImageId, tried: Tried): Protocol.Pc {
    if tried.ok then Protocol.AfterWork(q, id)
    else if tried.thumb.Some? then Protocol.DeleteThumbnail else Protocol.SaveFailed
  }

  /** One call of the run, in terms of the tables. */
  lemma WorkStep(env: Env, t: Trace, p: Calls, a: Around, hit: bool, there: bool, records: Records, rows: Rows, v: ImageValue)
    requires Fits(env, p, a, hit, there) && Shows(t.base, records, rows) && v.id == env.q.hash.imageId
    requires t.pc.SaveProcessing? || t.pc.Retrieve? || t.pc.Generate? || t.pc.StoreThumbnail? || t.pc.SaveCompleted?
             || t.pc.DeleteThumbnail? || t.pc.SaveFailed?
    requires t.pc.SaveProcessing? ==> v.status == Processing
    requires t.pc.SaveCompleted? ==> v.status == Status.Completed
    requires t.pc.SaveFailed? ==> v.status == Failed
    ensures
      var t1, ok := Steps(env, t, 1), CallOutcome(t.pc, p, a, hit, there).Succeeds?;
      && Shows(t1.base, records,
               if ok && (t.pc.SaveProcessing? || t.pc.SaveCompleted? || t.pc.SaveFailed?) then SaveRow(rows, v) else rows)
      && t1.pc == match t.pc
                  case SaveProcessing => if ok then Protocol.Retrieve else Protocol.SaveFailed
                  case Retrieve => if ok then Protocol.Generate else Protocol.SaveFailed
                  case Generate => if ok then Protocol.StoreThumbnail else Protocol.SaveFailed
                  case StoreThumbnail => if ok then Protocol.SaveCompleted else Protocol.SaveFailed
                  case SaveCompleted => if ok then Protocol.AfterWork(env.q, v.id) else Protocol.DeleteThumbnail
                  case DeleteThumbnail =>
                    if p.cleanup.FailsOther? then Protocol.Raised(Protocol.ThumbDeleteFailed) else Protocol.SaveFailed
                  case _ =>
                    if ok then Protocol.AfterFailedWork(env.q) else Protocol.Raised(Protocol.FailedSaveFailed)
  {
    hide Advance, Statuses, SaveRow, Protocol.AfterWork, Protocol.AfterFailedWork;
    AfterProcessWork(env, t);
    OneStep(env, t);
    SavedStatus(rows, v);
  }

  /** The try block from its storage calls on. */
  lemma {:induction false} ProduceSteps(env: Env, t: Trace, p: Calls, a: Around, hit: bool, there: bool, records: Records,
                                        digest: Bytes -> string, w: World, v: ImageValue)
    returns (n: nat)
    requires Fits(env, p, a, hit, there) && there == (v.originalPath in w.files) && v.id == env.q.hash.imageId
    requires t.pc.Retrieve? && Shows(t.base, records, w.rows)
    ensures
      var t', tried := Steps(env, t, n), ProduceEffect(digest, w, v, p);
      t'.pc == AfterTry(env.q, v.id, tried) && Shows(t'.base, records, tried.world.rows)
  {
    hide Steps, Shows, Fits, SaveRow, PathOf;
    WorkStep(env, t, p, a, hit, there, records, w.rows, v);
    n := 1;
    if p.retrieveUp && there {
      WorkStep(env, Steps(env, t, 1), p, a, hit, there, records, w.rows, v);
      StepsAdd(env, t, 1, 1);
      n := 2;
      if p.thumbnail.Some? {
        WorkStep(env, Steps(env, t, 2), p, a, hit, there, records, w.rows, v);
        StepsAdd(env, t, 2, 1);
        n := 3;
        if p.store.Writes? {
          var path := PathOf(digest, ThumbnailName(v.filename), p.thumbnail.value.data);
          WorkStep(env, Steps(env, t, 3), p, a, hit, there, records, w.rows,
                   MarkedCompleted(v, path, p.thumbnail.value.metadata, p.t2));
          StepsAdd(env, t, 3, 1);
          n := 4;
        }
      }
    }
  }

  lemma {:induction false} TrySteps(env: Env, t: Trace, p: Calls, a: Around, hit: bool, there: bool, records: Records,
                                    digest: Bytes -> string, w: World, seen: ImageValue)
    returns (n: nat)
    requires Fits(env, p, a, hit, there) && there == (seen.originalPath in w.files) && seen.id == env.q.hash.imageId
    requires t.pc.SaveProcessing? && Shows(t.base, records, w.rows)
    ensures
      var t', tried := Steps(env, t, n), TryEffect(digest, w, seen, p);
      t'.pc == AfterTry(env.q, seen.id, tried) && Shows(t'.base, records, tried.world.rows)
  {
    hide Steps, Shows, Fits, SaveRow, ProduceEffect;
    var processing := MarkedProcessing(seen, p.t1);
    WorkStep(env, t, p, a, hit, there, records, w.rows, processing);
    n := 1;
    if p.saveProcessingUp {
      var m := ProduceSteps(env, Steps(env, t, 1), p, a, hit, there, records, digest,
                            w.(rows := SaveRow(w.rows, processing)), processing);
      StepsAdd(env, t, 1, m);
      n := 1 + m;
    }
  }

  /** Where the request stands after the except block. */
  function AfterHandle(q: Protocol.Request, tried: Tried, p: Calls): Protocol.Pc {
    if tried.thumb.Some? && p.cleanup.FailsOther? then Protocol.Raised(Protocol.ThumbDeleteFailed)
    else if p.saveFailedUp then Protocol.AfterFailedWork(q) else Protocol.Raised(Protocol.FailedSaveFailed)
  }

  lemma {:induction false} HandleSteps(env: Env, t: Trace, p: Calls, a: Around, hit: bool, there: bool, records: Records, tried: Tried)
    returns (n: nat)
    requires Fits(env, p, a, hit, there) && tried.entity.id == env.q.hash.imageId && !tried.ok
    requires t.pc == AfterTry(env.q, tried.entity.id, tried) && Shows(t.base, records, tried.world.rows)
    ensures
      var t' := Steps(env, t, n);
      t'.pc == AfterHandle(env.q, tried, p) && Shows(t'.base, records, HandleEffect(tried, p).world.rows)
  {
    hide Steps, Shows, Fits, SaveRow;
    var failed := MarkedFailed(tried.entity, p.t3);
    WorkStep(env, t, p, a, hit, there, records, tried.world.rows, failed);
    n := 1;
    if tried.thumb.Some? && !p.cleanup.FailsOther? {
      WorkStep(env, Steps(env, t, 1), p, a, hit, there, records, tried.world.rows, failed);
      StepsAdd(env, t, 1, 1);
      n := 2;
    }
  }

  /** How far the try block got, in terms of the calls. */
  lemma TriedThumbnail(digest: Bytes -> string, w: World, seen: ImageValue, p: Calls)
    ensures
      var tried := TryEffect(digest, w, seen, p);
      && tried.entity.id == seen.id
      && (tried.thumb.Some? <==> StoresThumbnail(w, seen, p))
      && (tried.ok <==> StoresThumbnail(w, seen, p) && p.saveCompletedUp)
  {
    hide PathOf, SaveRow;
  }

  /** A processing run, call by call. */
  lemma {:induction false} RunSteps(env: Env, t: Trace, p: Calls, a: Around, hit: bool, there: bool, records: Records,
                                    digest: Bytes -> string, w: World, seen: ImageValue)
    returns (n: nat)
    requires Fits(env, p, a, hit, there) && there == (seen.originalPath in w.files) && seen.id == env.q.hash.imageId
    requires t.pc.SaveProcessing? && Shows(t.base, records, w.rows)
    ensures
      var t' := Steps(env, t, n);
      && t'.pc == AfterRun(env.q, seen.id, RunEnd(digest, w, seen, p))
      && Shows(t'.base, records, ProcessEffect(digest, w, seen, p).world.rows)
  {
    hide Steps, Shows, Fits, SaveRow, TryEffect, StoresThumbnail;
    TriedThumbnail(digest, w, seen, p);
    var tried := TryEffect(digest, w, seen, p);
    n := TrySteps(env, t, p, a, hit, there, records, digest, w, seen);
    if !tried.ok {
      var m := HandleSteps(env, Steps(env, t, n), p, a, hit, there, records, tried);
      StepsAdd(env, t, n, m);
      n := n + m;
    }
  }

  /** Completing the record or releasing the key, after the run. */
  lemma {:induction false} SettleSteps(env: Env, t: Trace, p: Calls, a: Around, hit: bool, there: bool, records: Records,
                                       rows: Rows, end: Ended)
    returns (n: nat)
    requires Fits(env, p, a, hit, there) && Shows(t.base, records, rows)
    requires t.pc == AfterRun(env.q, env.q.hash.imageId, end)
    ensures
      var t' := Steps(env, t, n);
      && t'.pc == WorkEnding(env.q, a, end)
      && Shows(t'.base, WorkRecords(env.q, env.q.hash.imageId, a, end, records), rows)
  {
    hide Advance, Statuses;
    OneStep(env, t);
    n := 0;
    if env.q.key.Some? && end.Succeeded? {
      AfterComplete(env, t);
      n := 1;
    } else if env.q.key.Some? && (end.Missing? || end.FailedSaved?) {
      AfterRelease(env, t);
      n := 1;
    }
  }

  /** The storage holds the original of the image the run will see. */
  predicate There(id: ImageId, a: Around, hit: Option<ImageValue>, rows: Rows, files: map<Path, Bytes>) {
    var seen := SeenImage(id, a, hit, rows);
    seen.Some? && seen.value.originalPath in files
  }

  /** Looking the image up. */
  lemma GetStep(env: Env, t: Trace, p: Calls, a: Around, hit: Option<ImageValue>, there: bool, records: Records, rows: Rows)
    requires Fits(env, p, a, hit.Some?, there) && t.pc.GetImage? && Shows(t.base, records, rows)
    ensures
      var t1, id := Steps(env, t, 1), env.q.hash.imageId;
      && Shows(t1.base, records, rows)
      && t1.pc == if SeenImage(id, a, hit, rows).Some? then Protocol.SaveProcessing
                  else AfterRun(env.q, id, if a.getUp then Missing else GetRaised)
  {
    AfterGetImage(env, t);
    OneStep(env, t);
    hide Advance, ModelToEntity;
  }

  /** The run on the image that was found, and what follows. */
  lemma {:induction false} FoundSteps(env: Env, t: Trace, p: Calls, a: Around, hit: bool, there: bool, records: Records,
                                      digest: Bytes -> string, w: World, seen: ImageValue)
    returns (n: nat)
    requires Fits(env, p, a, hit, there) && there == (seen.originalPath in w.files)
    requires env.q.hash.ProcessHash? && seen.id == env.q.hash.imageId
    requires t.pc.SaveProcessing? && Shows(t.base, records, w.rows)
    ensures
      var t', end := Steps(env, t, n), RunEnd(digest, w, seen, p);
      && t'.pc == WorkEnding(env.q, a, end)
      && Shows(t'.base, WorkRecords(env.q, seen.id, a, end, records), ProcessEffect(digest, w, seen, p).world.rows)
  {
    hide Steps, Shows, Fits, ProcessEffect, RunEnd, WorkEnding, WorkRecords, AfterRun;
    var end, rows := RunEnd(digest, w, seen, p), ProcessEffect(digest, w, seen, p).world.rows;
    var m := RunSteps(env, t, p, a, hit, there, records, digest, w, seen);
    var k := SettleSteps(env, Steps(env, t, m), p, a, hit, there, records, rows, end);
    StepsAdd(env, t, m, k);
    n := m + k;
  }

  /** The image is found. */
  lemma {:induction false} SeenSteps(env: Env, t: Trace, p: Calls, a: Around, hit: Option<ImageValue>, there: bool,
                                     records: Records, digest: Bytes -> string, w: World)
    returns (n: nat)
    requires Fits(env, p, a, hit.Some?, there) && t.pc.GetImage? && Shows(t.base, records, w.rows)
    requires env.q.hash.ProcessHash? && (hit.Some? ==> hit.value.id == env.q.hash.imageId)
    requires there == There(env.q.hash.imageId, a, hit, w.rows, w.files)
    requires SeenImage(env.q.hash.imageId, a, hit, w.rows).Some?
    ensures
      var t', id := Steps(env, t, n), env.q.hash.imageId;
      var end := EndOf(digest, w, id, a, hit, p);
      && t'.pc == WorkEnding(env.q, a, end)
      && Shows(t'.base, WorkRecords(env.q, id, a, end, records), WorldOf(digest, w, id, a, hit, p).rows)
  {
    hide Steps, Shows, Fits, RunEnd, ProcessEffect, AfterRun, WorkEnding, WorkRecords, SeenImage;
    GetStep(env, t, p, a, hit, there, records, w.rows);
    SeenIsOf(env.q.hash.imageId, a, hit, w.rows);
    var seen := SeenImage(env.q.hash.imageId, a, hit, w.rows).value;
    var m := FoundSteps(env, Steps(env, t, 1), p, a, hit.Some?, there, records, digest, w, seen);
    StepsAdd(env, t, 1, m);
    n := 1 + m;
  }

  /** It is not, or the lookup raises. */
  lemma {:induction false} UnseenSteps(env: Env, t: Trace, p: Calls, a: Around, hit: Option<ImageValue>, there: bool,
                                     records: Records, digest: Bytes -> string, w: World)
    returns (n: nat)
    requires Fits(env, p, a, hit.Some?, there) && t.pc.GetImage? && Shows(t.base, records, w.rows)
    requires env.q.hash.ProcessHash? && (hit.Some? ==> hit.value.id == env.q.hash.imageId)
    requires there == There(env.q.hash.imageId, a, hit, w.rows, w.files)
    requires SeenImage(env.q.hash.imageId, a, hit, w.rows).None?
    ensures
      var t', id := Steps(env, t, n), env.q.hash.imageId;
      var end := EndOf(digest, w, id, a, hit, p);
      && t'.pc == WorkEnding(env.q, a, end)
      && Shows(t'.base, WorkRecords(env.q, id, a, end, records), WorldOf(digest, w, id, a, hit, p).rows)
  {
    hide Steps, Shows, Fits, RunEnd, ProcessEffect, AfterRun, WorkEnding, WorkRecords, SeenImage;
    GetStep(env, t, p, a, hit, there, records, w.rows);
    var m := SettleSteps(env, Steps(env, t, 1), p, a, hit.Some?, there, records, w.rows,
                         if a.getUp then Missing else GetRaised);
    StepsAdd(env, t, 1, m);
    n := 1 + m;
  }

  /** From the lookup of the image on. */
  lemma {:induction false} WorkSteps(env: Env, t: Trace, p: Calls, a: Around, hit: Option<ImageValue>, there: bool,
                                     records: Records, digest: Bytes -> string, w: World)
    returns (n: nat)
    requires Fits(env, p, a, hit.Some?, there) && t.pc.GetImage? && Shows(t.base, records, w.rows)
    requires env.q.hash.ProcessHash? && (hit.Some? ==> hit.value.id == env.q.hash.imageId)
    requires there == There(env.q.hash.imageId, a, hit, w.rows, w.files)
    ensures
      var t', id := Steps(env, t, n), env.q.hash.imageId;
      var end := EndOf(digest, w, id, a, hit, p);
      && t'.pc == WorkEnding(env.q, a, end)
      && Shows(t'.base, WorkRecords(env.q, id, a, end, records), WorldOf(digest, w, id, a, hit, p).rows)
  {
    hide Steps, Shows, Fits, EndOf, WorldOf, There, WorkEnding, WorkRecords, SeenImage;
    if SeenImage(env.q.hash.imageId, a, hit, w.rows).Some? {
      n := SeenSteps(env, t, p, a, hit, there, records, digest, w);
    } else {
      n := UnseenSteps(env, t, p, a, hit, there, records, digest, w);
    }
  }

  lemma SeenIsOf(id: ImageId, a: Around, hit: Option<ImageValue>, rows: Rows)
    requires hit.Some? ==> hit.value.id == id
    ensures SeenImage(id, a, hit, rows).Some? ==> SeenImage(id, a, hit, rows).value.id == id
  {
  }

  lemma {:induction false} LookupStep(env: Env, t: Trace, p: Calls, a: Around, hit: bool, there: bool, records: Records, rows: Rows)
    requires Fits(env, p, a, hit, there) && env.q.key.Some? && t.pc.Lookup? && Shows(t.base, records, rows)
    ensures
      var again, t1 := t.pc.again, Steps(env, t, 1);
      var end := LookupEnding(env.q, again, if again then a.lookupAgainUp else a.lookupUp,
                              Protocol.RowAt(records, env.q.Target()));
      t1.base == t.base && t1.pc == if end.Some? then end.value else Protocol.Claim
  {
    AfterLookup(env, t);
    OneStep(env, t);
    hide Advance;
  }

  /** From the claim on. */
  lemma {:induction false} ClaimSteps(env: Env, t: Trace, p: Calls, a: Around, hit: Option<ImageValue>, there: bool,
                                      digest: Bytes -> string, files: map<Path, Bytes>, f: Tables)
    returns (n: nat)
    requires Fits(env, p, a, hit.Some?, there)
    requires env.q.hash.ProcessHash? && (hit.Some? ==> hit.value.id == env.q.hash.imageId)
    requires env.q.key.Some? && t.pc.Claim? && Leads(env, t.base, f) && Claims(env.q, a, f)
    requires there == There(env.q.hash.imageId, a, hit, f.rowsThen, files)
    ensures
      var t', id, w := Steps(env, t, n), env.q.hash.imageId, World(f.rowsThen, files);
      var end := EndOf(digest, w, id, a, hit, p);
      && t'.pc == ProcessEnding(env.q, a, f, end)
      && Shows(t'.base, ProcessRecords(env.q, env.me, id, a, f, end),
               if Works(env.q, a, f) then WorldOf(digest, w, id, a, hit, p).rows else f.rowsThen)
  {
    hide Steps, Leads, Shows, WorldOf, EndOf, Claimed, There;
    ClaimStep(env, t, f);
    if !a.claimUp {
      n := 1;
    } else if env.q.Target() in f.recordsThen {
      BeatenStep(env, t, p, a, hit.Some?, there, f);
      n := 2;
    } else {
      n := GrantedSteps(env, t, p, a, hit, there, digest, files, f);
    }
  }

  lemma {:induction false} BeatenStep(env: Env, t: Trace, p: Calls, a: Around, hit: bool, there: bool, f: Tables)
    requires Fits(env, p, a, hit, there) && env.q.key.Some? && Steps(env, t, 1).pc == Protocol.Lookup(true)
    requires Shows(Steps(env, t, 1).base, f.recordsThen, f.rowsThen)
    ensures
      var t' := Steps(env, t, 2);
      t'.pc == SecondLookup(env.q, a, f).value && Shows(t'.base, f.recordsThen, f.rowsThen)
  {
    hide Steps, Shows, Fits, LookupEnding;
    LookupStep(env, Steps(env, t, 1), p, a, hit, there, f.recordsThen, f.rowsThen);
    StepsAdd(env, t, 1, 1);
  }

  lemma {:induction false} GrantedSteps(env: Env, t: Trace, p: Calls, a: Around, hit: Option<ImageValue>, there: bool,
                                        digest: Bytes -> string, files: map<Path, Bytes>, f: Tables)
    returns (n: nat)
    requires Fits(env, p, a, hit.Some?, there) && env.q.key.Some? && Steps(env, t, 1).pc.GetImage?
    requires env.q.hash.ProcessHash? && (hit.Some? ==> hit.value.id == env.q.hash.imageId)
    requires Shows(Steps(env, t, 1).base, Claimed(env.q, env.me, f.recordsThen), f.rowsThen)
    requires there == There(env.q.hash.imageId, a, hit, f.rowsThen, files)
    ensures
      var t', id, w := Steps(env, t, n), env.q.hash.imageId, World(f.rowsThen, files);
      var end := EndOf(digest, w, id, a, hit, p);
      && t'.pc == WorkEnding(env.q, a, end)
      && Shows(t'.base, WorkRecords(env.q, id, a, end, Claimed(env.q, env.me, f.recordsThen)),
               WorldOf(digest, w, id, a, hit, p).rows)
  {
    hide Steps, Shows, Fits, WorldOf, EndOf, Claimed, WorkEnding, WorkRecords, There;
    var m := WorkSteps(env, Steps(env, t, 1), p, a, hit, there, Claimed(env.q, env.me, f.recordsThen), digest,
                       World(f.rowsThen, files));
    StepsAdd(env, t, 1, m);
    n := 1 + m;
  }

  /**
    How an execution ends, and what it leaves in the records and the image rows, is where the protocol
    takes the request, by exactly its own calls with these outcomes and what the others did before its
    claim.
   */
  lemma {:induction false} ProcessIsProtocolRun(env: Env, s: Protocol.State, p: Calls, a: Around, hit: Option<ImageValue>, there: bool,
                                                digest: Bytes -> string, files: map<Path, Bytes>, f: Tables)
    returns (n: nat)
    requires Fits(env, p, a, hit.Some?, there)
    requires env.q.hash.ProcessHash? && (hit.Some? ==> hit.value.id == env.q.hash.imageId)
    requires env.me !in s.requests && Leads(env, s, f)
    requires there == There(env.q.hash.imageId, a, hit, RowsThen(env.q, a, f), files)
    ensures
      var t, id, w := Steps(env, Arrived(env, s), n), env.q.hash.imageId, World(RowsThen(env.q, a, f), files);
      var end := EndOf(digest, w, id, a, hit, p);
      && Follows(s, env, t) && t.pc == ProcessEnding(env.q, a, f, end)
      && Shows(t.base, ProcessRecords(env.q, env.me, id, a, f, end),
               if Works(env.q, a, f) then WorldOf(digest, w, id, a, hit, p).rows else w.rows)
  {
    hide Steps, Shows, Fits, Follows, There, WorldOf, EndOf, WorkEnding, WorkRecords, Claimed, Interrupted;
    var t := Arrived(env, s);
    if env.q.key.None? {
      n := WorkSteps(env, t, p, a, hit, there, f.records, digest, World(f.rows, files));
    } else {
      n := KeyedSteps(env, s, p, a, hit, there, digest, files, f);
    }
    StepsFollow(s, env, n);
  }

  lemma {:induction false} KeyedSteps(env: Env, s: Protocol.State, p: Calls, a: Around, hit: Option<ImageValue>, there: bool,
                                      digest: Bytes -> string, files: map<Path, Bytes>, f: Tables)
    returns (n: nat)
    requires Fits(env, p, a, hit.Some?, there) && env.q.key.Some?
    requires env.q.hash.ProcessHash? && (hit.Some? ==> hit.value.id == env.q.hash.imageId)
    requires Shows(s, f.records, f.rows) && Leads(env, s, f)
    requires there == There(env.q.hash.imageId, a, hit, RowsThen(env.q, a, f), files)
    ensures
      var t, id, w := Steps(env, Arrived(env, s), n), env.q.hash.imageId, World(RowsThen(env.q, a, f), files);
      var end := EndOf(digest, w, id, a, hit, p);
      && t.pc == ProcessEnding(env.q, a, f, end)
      && Shows(t.base, ProcessRecords(env.q, env.me, id, a, f, end),
               if Works(env.q, a, f) then WorldOf(digest, w, id, a, hit, p).rows else w.rows)
  {
    hide Steps, Shows, Fits, Leads, There, WorldOf, EndOf, WorkEnding, WorkRecords, Claimed, LookupEnding;
    var t := Arrived(env, s);
    LookupStep(env, t, p, a, hit.Some?, there, f.records, f.rows);
    n := 1;
    if Claims(env.q, a, f) {
      n := ClaimSteps(env, Steps(env, t, 1), p, a, hit, there, digest, files, f);
      StepsAdd(env, t, 1, n);
      n := 1 + n;
    }
  }

  // ---------------------------------------------------------------------------------------
  // The use case
  // ---------------------------------------------------------------------------------------

  class ProcessImageUseCase {
    const repository: CachedImageRepository
    const storage: LocalImageStorage
    const table: IdempotencyTable

    constructor (repository: CachedImageRepository, storage: LocalImageStorage, table: IdempotencyTable)
      ensures this.repository == repository && this.storage == storage && this.table == table
    {
      this.repository, this.storage, this.table := repository, storage, table;
    }

    /** The start of the try block.  The entity marked here may be the one the cache holds. */
    method Start(image: Image, p: Calls) returns (saved: bool)
      requires repository.Valid()
      modifies repository.inner, repository.cache, image
      ensures repository.Valid() && (old(repository.InStep()) ==> repository.InStep())
      ensures saved == p.saveProcessingUp
      ensures image.Value() == MarkedProcessing(old(image.Value()), p.t1)
      ensures repository.inner.rows
              == if saved then SaveRow(old(repository.inner.rows), image.Value()) else old(repository.inner.rows)
      ensures repository.cache.store
              == if saved then old(repository.cache.store) - {image.id} else old(repository.cache.store)
    {
      hide SaveRow, ModelToEntity;
      image.MarkProcessing(p.t1);
      assert repository.Valid() && (old(repository.InStep()) ==> repository.InStep());
      saved := repository.Save(image, p.saveProcessingUp);
    }

    /** The rest of the try block, once the first save has dropped the cache entry. */
    method Produce(image: Image, p: Calls) returns (thumb: Option<Path>, ok: bool)
      requires repository.Valid() && image.id !in repository.cache.store
      modifies repository.inner, repository.cache, storage, image
      ensures repository.Valid() && (old(repository.InStep()) ==> repository.InStep())
      ensures repository.cache.store == old(repository.cache.store)
      ensures Tried(World(repository.inner.rows, storage.files), image.Value(), thumb, true, ok)
              == ProduceEffect(storage.digest, World(old(repository.inner.rows), old(storage.files)),
                               old(image.Value()), p)
    {
      hide SaveRow, PathOf, ModelToEntity;
      var data := storage.Retrieve(image.originalPath, p.retrieveUp);
      if data.None? || p.thumbnail.None? {
        return None, false;
      }
      thumb := storage.Store(ThumbnailName(image.filename), p.thumbnail.value.data, p.store);
      if thumb.None? {
        return None, false;
      }
      image.MarkCompleted(thumb.value, p.thumbnail.value.metadata, p.t2);
      assert repository.Valid() && (old(repository.InStep()) ==> repository.InStep());
      ok := repository.Save(image, p.saveCompletedUp);
    }

    /** The try block. */
    method Try(image: Image, p: Calls) returns (thumb: Option<Path>, ok: bool)
      requires repository.Valid()
      modifies repository.inner, repository.cache, storage, image
      ensures repository.Valid() && (old(repository.InStep()) ==> repository.InStep())
      ensures
        var tried := TryEffect(storage.digest, World(old(repository.inner.rows), old(storage.files)), old(image.Value()), p);
        && tried == Tried(World(repository.inner.rows, storage.files), image.Value(), thumb, tried.anySave, ok)
        && repository.cache.store ==
             (if tried.anySave then old(repository.cache.store) - {image.id} else old(repository.cache.store))
    {
      hide SaveRow, ProduceEffect, MarkedProcessing;
      var saved := Start(image, p);
      if !saved {
        return None, false;
      }
      thumb, ok := Produce(image, p);
    }

    /** The except block: clean up, mark the image failed, save it. */
    method Handle(image: Image, thumb: Option<Path>, p: Calls, ghost tried: Tried) returns (end: Ended)
      requires repository.Valid()
      requires tried.world == World(repository.inner.rows, storage.files)
      requires tried.entity == image.Value() && tried.thumb == thumb
      modifies repository.inner, repository.cache, storage, image
      ensures repository.Valid() && (old(repository.InStep()) ==> repository.InStep())
      ensures end == if thumb.Some? && p.cleanup.FailsOther? then CleanupRaised
                     else if p.saveFailedUp then FailedSaved else SaveRaised
      ensures
        var done := HandleEffect(tried, p);
        && done.world == World(repository.inner.rows, storage.files) && done.entity == image.Value()
        && done.lastSave == end.FailedSaved? && done.anySave == (end.FailedSaved? || tried.anySave)
        && repository.cache.store ==
             (if end.FailedSaved? then old(repository.cache.store) - {image.id} else old(repository.cache.store))
    {
      hide SaveRow, ModelToEntity;
      if thumb.Some? {
        storage.Delete(thumb.value, p.cleanup);
        if p.cleanup.FailsOther? {
          return CleanupRaised;
        }
      }
      image.MarkFailed(p.t3);
      assert repository.Valid() && (old(repository.InStep()) ==> repository.InStep());
      var saved := repository.Save(image, p.saveFailedUp);
      end := if saved then FailedSaved else SaveRaised;
    }

    /** The run on an entity that exists. */
    method Process(image: Image, p: Calls) returns (end: Ended)
      requires repository.Valid()
      modifies repository.inner, repository.cache, storage, image
      ensures repository.Valid() && (old(repository.InStep()) ==> repository.InStep())
      ensures
        var before := World(old(repository.inner.rows), old(storage.files));
        var done := ProcessEffect(storage.digest, before, old(image.Value()), p);
        && end == RunEnd(storage.digest, before, old(image.Value()), p)
        && done.world == World(repository.inner.rows, storage.files) && done.entity == image.Value()
        && repository.cache.store ==
             (if done.anySave then old(repository.cache.store) - {image.id} else old(repository.cache.store))
    {
      hide TryEffect, HandleEffect, ModelToEntity, SameButStatus, StoresThumbnail;
      ghost var before, seen := World(repository.inner.rows, storage.files), image.Value();
      ghost var tried := TryEffect(storage.digest, before, seen, p);
      OnlyTheTrySucceeds(storage.digest, before, seen, p);
      TriedThumbnail(storage.digest, before, seen, p);
      var thumb, ok := Try(image, p);
      if ok {
        end := Succeeded;
      } else {
        end := Handle(image, thumb, p, tried);
      }
    }

    /** The value of the entity that the cache still shows for the image. */
    ghost function CachedValue(id: ImageId, now: real): Option<ImageValue>
      reads repository, repository.cache, repository.Cached()
    {
      if id in Hits(repository.cache.store, now) then Some(repository.cache.store[id].image.Value()) else None
    }

    /**
      A whole run.  The entity is whatever the cache holds, or the row's on a miss, and the run mutates
      that very object; yet the cache keeps an entry for the image only if no save of the run went
      through, and after a run whose last save went through the next lookup misses and loads what the
      entity now says, but for the metadata that a row cannot represent.
     */
    method ProcessById(id: ImageId, a: Around, p: Calls) returns (end: Ended, ghost image: Option<Image>)
      requires repository.Valid()
      modifies repository.inner, repository.cache, storage, repository.Cached()
      ensures repository.Valid() && (old(repository.InStep()) ==> repository.InStep())
      ensures
        var hit, before := old(CachedValue(id, a.now)), World(old(repository.inner.rows), old(storage.files));
        && end == EndOf(storage.digest, before, id, a, hit, p)
        && World(repository.inner.rows, storage.files) == WorldOf(storage.digest, before, id, a, hit, p)
        && match SeenImage(id, a, hit, before.rows)
           case None => image.None? && id !in repository.cache.store
           case Some(seen) =>
             image.Some?
             && var done := ProcessEffect(storage.digest, before, seen, p);
                && image.value.Value() == done.entity
                && (id in repository.cache.store <==> !done.anySave)
                && (id in repository.cache.store ==> repository.cache.store[id].image == image.value)
                && (done.lastSave ==>
                      id !in repository.cache.store && id in repository.inner.rows
                      && (ModelToEntity(id, repository.inner.rows[id]) == image.value.Value()
                          <==> LoadsBack(before, seen, p)))
      ensures forall other <- repository.cache.store ::
                other != id ==>
                  && other in old(repository.cache.store)
                  && repository.cache.store[other] == old(repository.cache.store)[other]
      ensures forall cached <- old(repository.Cached()) :: cached.id != id ==> cached.Value() == old(cached.Value())
    {
      hide ProcessEffect, RunEnd, ModelToEntity, LoadsBack, CachedImageRepository.Valid, CachedImageRepository.InStep;
      var found, raised := repository.GetById(id, a.now, a.getUp, a.t1, a.t2);
      image := found;
      if found.None? {
        end := if raised then GetRaised else Missing;
        return;
      }
      ghost var seen := found.value.Value();
      ghost var before := World(repository.inner.rows, storage.files);
      end := Process(found.value, p);
      if ProcessEffect(storage.digest, before, seen, p).lastSave {
        NextLoadAgreesExactly(storage.digest, before, seen, p);
      }
    }

    /** _load_idempotent_replay, with what its caller makes of a missing record. */
    method LoadReplay(q: Protocol.Request, again: bool, lookupUp: bool) returns (ending: Option<Protocol.Pc>)
      requires q.key.Some?
      ensures ending == LookupEnding(q, again, lookupUp, Protocol.RowAt(table.records, q.Target()))
    {
      var found := table.Get(q.Target(), lookupUp);
      if found.None? {
        return Some(Protocol.Raised(Protocol.LookupFailed));
      }
      if found.value.None? {
        return if again then Some(Protocol.Raised(Protocol.AlreadyInProgress)) else None;
      }
      if found.value.value.hash != q.hash {
        return Some(Protocol.Raised(Protocol.Conflict));
      }
      if found.value.value.status == Protocol.InProgress {
        return Some(Protocol.Raised(Protocol.AlreadyInProgress));
      }
      return Some(Protocol.Returned(Protocol.Processed(true)));
    }

    /** Completes the record or releases the key, where the run's end calls for it. */
    method Settle(q: Protocol.Request, id: ImageId, a: Around, end: Ended) returns (ending: Protocol.Pc)
      modifies table
      ensures ending == WorkEnding(q, a, end) && table.records == WorkRecords(q, id, a, end, old(table.records))
    {
      match end {
        case GetRaised => return Protocol.Raised(Protocol.GetImageFailed);
        case CleanupRaised => return Protocol.Raised(Protocol.ThumbDeleteFailed);
        case SaveRaised => return Protocol.Raised(Protocol.FailedSaveFailed);
        case Succeeded =>
          if q.key.Some? {
            table.Complete(q.Target(), id, a.completeUp);
            if !a.completeUp {
              return Protocol.Raised(Protocol.CompleteFailed);
            }
          }
          return Protocol.Returned(Protocol.Processed(true));
        case _ =>
          if q.key.Some? {
            table.Delete(q.Target(), a.releaseUp);
            if !a.releaseUp {
              return Protocol.Raised(Protocol.ReleaseFailed);
            }
          }
          return if end.Missing? then Protocol.Returned(Protocol.Processed(false)) else Protocol.Raised(Protocol.WorkFailed);
      }
    }

    /** The claim, after what others did; if another request was faster, its record decides. */
    method ClaimKey(me: Protocol.RequestId, q: Protocol.Request, a: Around, f: Tables)
      returns (ending: Option<Protocol.Pc>)
      requires q.key.Some? && q.hash.ProcessHash?
      modifies table, repository.inner
      ensures repository.inner.rows == f.rowsThen
      ensures ending.None? <==> a.claimUp && q.Target() !in f.recordsThen
      ensures table.records == if ending.None? then Claimed(q, me, f.recordsThen) else f.recordsThen
      ensures ending.Some? ==>
                ending == if !a.claimUp then Some(Protocol.Raised(Protocol.ClaimFailed)) else SecondLookup(q, a, f)
    {
      Await(table, repository.inner, f.recordsThen, f.rowsThen);
      var record := Protocol.Record(q.hash, Protocol.InProgress, Some(q.hash.imageId), me);
      var claimed := table.Create(q.Target(), record, a.claimUp);
      if claimed.None? {
        return Some(Protocol.Raised(Protocol.ClaimFailed));
      }
      if !claimed.value {
        ending := LoadReplay(q, true, a.lookupAgainUp);
        return;
      }
      return None;
    }

    /** The execution on the tables. */
    method Attempt(me: Protocol.RequestId, q: Protocol.Request, a: Around, p: Calls, f: Tables)
      returns (ending: Protocol.Pc, ghost end: Ended)
      requires repository.Valid() && q.hash.ProcessHash?
      requires f == Tables(table.records, repository.inner.rows, f.recordsThen, f.rowsThen)
      modifies repository.inner, repository.cache, storage, table, repository.Cached()
      ensures repository.Valid()
      ensures old(repository.InStep()) && f.rowsThen == f.rows ==> repository.InStep()
      ensures
        var id, hit, w := q.hash.imageId, old(CachedValue(q.hash.imageId, a.now)), World(RowsThen(q, a, f), old(storage.files));
        && end == EndOf(storage.digest, w, id, a, hit, p)
        && ending == ProcessEnding(q, a, f, end) && table.records == ProcessRecords(q, me, id, a, f, end)
        && World(repository.inner.rows, storage.files)
           == if Works(q, a, f) then WorldOf(storage.digest, w, id, a, hit, p) else w
    {
      hide WorldOf, EndOf, SameButStatus, ModelToEntity, Works, Claims, Refusal, RecordsThen, WorkEnding, WorkRecords, Claimed;
      ghost var hit := CachedValue(q.hash.imageId, a.now);
      end := EndOf(storage.digest, World(RowsThen(q, a, f), storage.files), q.hash.imageId, a, hit, p);
      var refused := Enter(me, q, a, f);
      if refused.Some? {
        return refused.value, end;
      }
      ending := Work(q, a, p);
    }

    /** The run, and what the execution makes of its end. */
    method Work(q: Protocol.Request, a: Around, p: Calls) returns (ending: Protocol.Pc)
      requires repository.Valid() && q.hash.ProcessHash?
      modifies repository.inner, repository.cache, storage, table, repository.Cached()
      ensures repository.Valid() && (old(repository.InStep()) ==> repository.InStep())
      ensures
        var id, hit, w := q.hash.imageId, old(CachedValue(q.hash.imageId, a.now)), World(old(repository.inner.rows), old(storage.files));
        var end := EndOf(storage.digest, w, id, a, hit, p);
        && World(repository.inner.rows, storage.files) == WorldOf(storage.digest, w, id, a, hit, p)
        && ending == WorkEnding(q, a, end) && table.records == WorkRecords(q, id, a, end, old(table.records))
    {
      hide WorldOf, EndOf, WorkEnding, WorkRecords, SameButStatus, ModelToEntity, LoadsBack, ProcessEffect;
      var ended, _ := ProcessById(q.hash.imageId, a, p);
      ending := Settle(q, q.hash.imageId, a, ended);
    }

    /** Up to the work: None when the request goes to work, otherwise how it ends. */
    method Enter(me: Protocol.RequestId, q: Protocol.Request, a: Around, f: Tables) returns (ending: Option<Protocol.Pc>)
      requires q.hash.ProcessHash? && f == Tables(table.records, repository.inner.rows, f.recordsThen, f.rowsThen)
      modifies table, repository.inner
      ensures ending.None? <==> Works(q, a, f)
      ensures repository.inner.rows == RowsThen(q, a, f)
      ensures ending.None? ==> table.records == if q.key.None? then f.records else Claimed(q, me, f.recordsThen)
      ensures ending.Some? ==> ending.value == Refusal(q, a, f) && table.records == RecordsThen(q, a, f)
    {
      hide LookupEnding, WorkEnding, WorkRecords, Claimed;
      if q.key.None? {
        return None;
      }
      ending := LoadReplay(q, false, a.lookupUp);
      if ending.None? {
        ending := ClaimKey(me, q, a, f);
      }
    }

    /**
      A whole execution.  How it ends, the records, rows and files it leaves are functions of what it
      finds and how its calls end.  And from any protocol state that shows the tables it is the
      determined stretch of a protocol run by this request, to a state that shows the tables it leaves
      and in which the request stands where it ended.
     */
    method Execute(me: Protocol.RequestId, id: ImageId, key: Option<Protocol.Key>, a: Around, p: Calls,
                   recordsThen: Records, rowsThen: Rows, ghost s: Protocol.State, ghost others: seq<Protocol.Action>)
      returns (ending: Protocol.Pc, ghost env: Env, ghost n: nat)
      requires repository.Valid() && me !in s.requests
      requires
        var f := Tables(table.records, repository.inner.rows, recordsThen, rowsThen);
        Leads(EnvNow(me, id, key, a, p, f, others), s, f)
      modifies repository.inner, repository.cache, storage, table, repository.Cached()
      ensures repository.Valid()
      ensures old(repository.InStep()) && rowsThen == old(repository.inner.rows) ==> repository.InStep()
      ensures
        var f := Tables(old(table.records), old(repository.inner.rows), recordsThen, rowsThen);
        var q, hit, w := OfImage(id, key), old(CachedValue(id, a.now)), World(RowsThen(OfImage(id, key), a, f), old(storage.files));
        var end := EndOf(storage.digest, w, id, a, hit, p);
        && ending == ProcessEnding(q, a, f, end) && table.records == ProcessRecords(q, me, id, a, f, end)
        && World(repository.inner.rows, storage.files)
           == (if Works(q, a, f) then WorldOf(storage.digest, w, id, a, hit, p) else w)
        && env == old(EnvNow(me, id, key, a, p, f, others))
      ensures
        var t := Steps(env, Arrived(env, s), n);
        Follows(s, env, t) && t.pc == ending && Shows(t.base, table.records, repository.inner.rows)
    {
      var q, f := OfImage(id, key), Tables(table.records, repository.inner.rows, recordsThen, rowsThen);
      ghost var hit := CachedValue(id, a.now);
      env := EnvNow(me, id, key, a, p, f, others);
      n := ProcessIsProtocolRun(env, s, p, a, hit, There(id, a, hit, RowsThen(q, a, f), storage.files), storage.digest,
                                storage.files, f);
      hide WorldOf, EndOf, Steps, Follows, Arrived, Leads, Interrupted, Statuses, ProcessEnv, ProcessEnding, ProcessRecords;
      ghost var end;
      ending, end := Attempt(me, q, a, p, f);
    }

    /** How the calls of an execution that starts now end. */
    ghost function EnvNow(me: Protocol.RequestId, id: ImageId, key: Option<Protocol.Key>, a: Around, p: Calls, f: Tables,
                          others: seq<Protocol.Action>): Env
      reads repository, repository.cache, repository.Cached(), storage
    {
      var q, hit := OfImage(id, key), CachedValue(id, a.now);
      ProcessEnv(me, q, id, p, a, others, hit.Some?, There(id, a, hit, RowsThen(q, a, f), storage.files))
    }
  }
}
