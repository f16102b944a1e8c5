/**
  The upload use case as it runs: the key protocol around the work, on the idempotency table, the
  repository, the storage and the broker.  How an execution ends and what it leaves in the tables is a
  function of what it finds and how its calls end; and that function is, call by call, a stretch of a
  run of the idempotency protocol, so everything proved of the protocol's runs holds of executions.
 */
module UploadUseCase {
  import opened Basics
  import opened ImageEntity
  import opened ImageFiles
  import opened ImageService
  import opened ProtocolTrace
  import MessageBroker
  import TaskMessages
  import TaskPipeline
  import ProcessingWorker
  import Protocol = IdempotencyProtocol

  /** How the calls of an execution end, besides those of the work itself. */
  datatype Around = Around(lookupUp: bool, claimUp: bool, lookupAgainUp: bool, fetchUp: bool,
                           publishUp: bool, completeUp: bool, releaseUp: bool, now: real, t1: real, t2: real,
                           clock: real)

  /** What an execution finds: the tables, and the images its cache still shows. */
  datatype Found = Found(tables: Tables, hits: set<ImageId>)

  /** When an image with the given time to live expires, in seconds. */
  function Expiry(ttlHours: Option<int>, clock: real): Option<real> {
    if ttlHours.Some? then Some(clock + 3600.0 * ttlHours.value as real) else None
  }

  function KeyedUpload(u: Upload, ttlHours: Option<int>, key: Option<Protocol.Key>): (q: Protocol.Request)
    ensures q.hash.UploadHash? && q.key == key
  {
    Protocol.Arrival(Protocol.UploadHash(u.filename, u.data, u.tags, ttlHours), key)
  }

  // ---------------------------------------------------------------------------------------
  // How executions end
  // ---------------------------------------------------------------------------------------

  /** What a lookup and the fetch that may follow make of the record; None lets the request go on to claim the key. */
  function LookupEnding(q: Protocol.Request, again: bool, lookupUp: bool, fetchUp: bool, record: Option<Protocol.Record>,
                        hits: set<ImageId>, rows: Rows): Option<Protocol.Pc>
  {
    if !lookupUp then Some(Protocol.Raised(Protocol.LookupFailed))
    else if record.None? then if again then Some(Protocol.Raised(Protocol.AlreadyInProgress)) else None
    else if record.value.hash != q.hash then Some(Protocol.Raised(Protocol.Conflict))
    else if record.value.status == Protocol.InProgress then Some(Protocol.Raised(Protocol.AlreadyInProgress))
    else
      match record.value.imageId
      case None => Some(Protocol.Raised(Protocol.Conflict))
      case Some(id) =>
        Some(if id in hits || (fetchUp && id in rows) then Protocol.Returned(Protocol.Response(id))
             else Protocol.Raised(if fetchUp then Protocol.Conflict else Protocol.ReplayFetchFailed))
  }

  function FirstLookup(q: Protocol.Request, a: Around, f: Found): Option<Protocol.Pc>
    requires q.key.Some?
  {
    LookupEnding(q, false, a.lookupUp, a.fetchUp, Protocol.RowAt(f.tables.records, q.Target()), f.hits, f.tables.rows)
  }

  function SecondLookup(q: Protocol.Request, a: Around, f: Found): (end: Option<Protocol.Pc>)
    requires q.key.Some?
    ensures end.Some?
  {
    LookupEnding(q, true, a.lookupAgainUp, a.fetchUp, Protocol.RowAt(f.tables.recordsThen, q.Target()), f.hits, f.tables.rowsThen)
  }

  predicate Saves(u: Upload) { u.store.Writes? && u.saveUp }

  /** The request gets as far as the claim. */
  predicate Claims(q: Protocol.Request, a: Around, f: Found) {
    q.key.Some? && FirstLookup(q, a, f).None?
  }

  /** It goes to work: without a key, or having claimed it. */
  predicate Works(q: Protocol.Request, a: Around, f: Found) {
    q.key.Some? ==> Claims(q, a, f) && a.claimUp && q.Target() !in f.tables.recordsThen
  }

  function WorkEnding(q: Protocol.Request, u: Upload, a: Around): Protocol.Pc {
    if Saves(u) && (q.key.None? || a.completeUp) then Protocol.Returned(Protocol.Response(u.id))
    else Protocol.Raised(if q.key.None? || a.releaseUp then Protocol.WorkFailed else Protocol.ReleaseFailed)
  }

  /** The records after the work: completed, released, or left in progress when the release failed. */
  function WorkRecords(q: Protocol.Request, u: Upload, a: Around, records: Records): Records {
    if q.key.None? then records
    else if Saves(u) && a.completeUp then CompletedIn(records, q.Target(), u.id)
    else if a.releaseUp then records - {q.Target()}
    else records
  }

  function UploadEnding(q: Protocol.Request, u: Upload, a: Around, f: Found): Protocol.Pc {
    if Works(q, a, f) then WorkEnding(q, u, a)
    else if !Claims(q, a, f) then FirstLookup(q, a, f).value
    else if !a.claimUp then Protocol.Raised(Protocol.ClaimFailed)
    else SecondLookup(q, a, f).value
  }

  function UploadRecords(q: Protocol.Request, me: Protocol.RequestId, u: Upload, a: Around, f: Found): Records {
    if !Works(q, a, f) then if Claims(q, a, f) then f.tables.recordsThen else f.tables.records
    else WorkRecords(q, u, a, if q.key.None? then f.tables.records else Claimed(q, me, f.tables.recordsThen))
  }

  /** The images table when the request goes to work, or ends. */
  function RowsThen(q: Protocol.Request, a: Around, f: Found): Rows {
    if Claims(q, a, f) then f.tables.rowsThen else f.tables.rows
  }

  /** The task for the worker goes out if the row was saved and the broker takes it; a failure is swallowed. */
  function Queued(c: TaskMessages.Codec, queues: MessageBroker.Queues, u: Upload, a: Around): MessageBroker.Queues {
    if Saves(u) && a.publishUp then MessageBroker.Append(queues, TaskMessages.UploadMessage(c, u.id)) else queues
  }

  // ---------------------------------------------------------------------------------------
  // What callers see
  // ---------------------------------------------------------------------------------------

  /** Two uploads count as the same request exactly when file name, bytes, tags and time to live are the same. */
  lemma SameRequestExactly(u: Upload, ttl: Option<int>, key: Option<Protocol.Key>, u': Upload, ttl': Option<int>,
                           key': Option<Protocol.Key>)
    ensures KeyedUpload(u, ttl, key).hash == KeyedUpload(u', ttl', key').hash
            <==> u.filename == u'.filename && u.data == u'.data && u.tags == u'.tags && ttl == ttl'
  {
  }

  /** What a keyed upload gets that finds a record: by the record of an earlier upload u0 with time to live ttl0. */
  lemma RecordedUploadAnswers(u: Upload, ttl: Option<int>, key: Protocol.Key, a: Around, f: Found, me: Protocol.RequestId,
                              u0: Upload, ttl0: Option<int>, status: Protocol.RecordStatus, image: Option<ImageId>,
                              claimant: Protocol.RequestId)
    requires
      var slot := Protocol.Slot(Protocol.UploadScope, key);
      slot in f.tables.records
      && f.tables.records[slot]
         == Protocol.Record(Protocol.UploadHash(u0.filename, u0.data, u0.tags, ttl0), status, image, claimant)
    ensures
      var q := KeyedUpload(u, ttl, Some(key));
      var same := u.filename == u0.filename && u.data == u0.data && u.tags == u0.tags && ttl == ttl0;
      var ending := UploadEnding(q, u, a, f);
      && UploadRecords(q, me, u, a, f) == f.tables.records && !Works(q, a, f) && RowsThen(q, a, f) == f.tables.rows
      && (!a.lookupUp ==> ending == Protocol.Raised(Protocol.LookupFailed))
      && (a.lookupUp && !same ==> ending == Protocol.Raised(Protocol.Conflict))
      && (a.lookupUp && same && status.InProgress? ==> ending == Protocol.Raised(Protocol.AlreadyInProgress))
      && (a.lookupUp && same && status.Completed? && image.Some? ==>
            ending == if image.value in f.hits || (a.fetchUp && image.value in f.tables.rows)
                      then Protocol.Returned(Protocol.Response(image.value))
                      else Protocol.Raised(if a.fetchUp then Protocol.Conflict else Protocol.ReplayFetchFailed))
  {
  }

  /** A keyed upload that finds no record, but whose claim fails or comes too late. */
  lemma UnclaimedUploadAnswers(u: Upload, ttl: Option<int>, key: Protocol.Key, a: Around, f: Found, me: Protocol.RequestId)
    requires a.lookupUp && Protocol.Slot(Protocol.UploadScope, key) !in f.tables.records
    requires !a.claimUp || Protocol.Slot(Protocol.UploadScope, key) in f.tables.recordsThen
    ensures
      var q, slot := KeyedUpload(u, ttl, Some(key)), Protocol.Slot(Protocol.UploadScope, key);
      var ending := UploadEnding(q, u, a, f);
      && UploadRecords(q, me, u, a, f) == f.tables.recordsThen && !Works(q, a, f) && RowsThen(q, a, f) == f.tables.rowsThen
      && (!a.claimUp ==> ending == Protocol.Raised(Protocol.ClaimFailed))
      && (a.claimUp && !a.lookupAgainUp ==> ending == Protocol.Raised(Protocol.LookupFailed))
      && (a.claimUp && a.lookupAgainUp ==>
            var record := f.tables.recordsThen[slot];
            && (record.hash != Protocol.UploadHash(u.filename, u.data, u.tags, ttl) ==>
                  ending == Protocol.Raised(Protocol.Conflict))
            && (record.hash == Protocol.UploadHash(u.filename, u.data, u.tags, ttl) && record.status.InProgress? ==>
                  ending == Protocol.Raised(Protocol.AlreadyInProgress)))
  {
  }

  /** A keyed upload that claims its key: completed with the new image, or released, or left in progress if even that fails. */
  lemma ClaimedUploadEnds(u: Upload, ttl: Option<int>, key: Protocol.Key, a: Around, f: Found, me: Protocol.RequestId)
    requires a.lookupUp && Protocol.Slot(Protocol.UploadScope, key) !in f.tables.records
    requires a.claimUp && Protocol.Slot(Protocol.UploadScope, key) !in f.tables.recordsThen
    ensures
      var q, slot, before := KeyedUpload(u, ttl, Some(key)), Protocol.Slot(Protocol.UploadScope, key), f.tables.recordsThen;
      var hash := Protocol.UploadHash(u.filename, u.data, u.tags, ttl);
      var ending, records := UploadEnding(q, u, a, f), UploadRecords(q, me, u, a, f);
      && Works(q, a, f) && RowsThen(q, a, f) == f.tables.rowsThen
      && if u.store.Writes? && u.saveUp && a.completeUp then
           && ending == Protocol.Returned(Protocol.Response(u.id))
           && records == before[slot := Protocol.Record(hash, Protocol.Completed, Some(u.id), me)]
         else if a.releaseUp then ending == Protocol.Raised(Protocol.WorkFailed) && records == before
         else
           && ending == Protocol.Raised(Protocol.ReleaseFailed)
           && records == before[slot := Protocol.Record(hash, Protocol.InProgress, None, me)]
  {
  }

  /** An upload without a key. */
  lemma KeylessUploadEnds(u: Upload, ttl: Option<int>, a: Around, f: Found, me: Protocol.RequestId)
    ensures
      var q := KeyedUpload(u, ttl, None);
      && Works(q, a, f) && UploadRecords(q, me, u, a, f) == f.tables.records && RowsThen(q, a, f) == f.tables.rows
      && UploadEnding(q, u, a, f) == if u.store.Writes? && u.saveUp then Protocol.Returned(Protocol.Response(u.id))
                                     else Protocol.Raised(Protocol.WorkFailed)
  {
  }

  /**
    What a saved upload's row loads as: the upload's name, tags and dates, pending, without thumbnail or
    metadata, its file under the digest of its bytes, expiring the given number of hours after the clock.
   */
  lemma SavedUploadLoadsAs(digest: Bytes -> string, w: World, u: Upload, ttl: Option<int>, a: Around)
    requires u.expiresAt == Expiry(ttl, a.clock) && u.id !in w.rows
    ensures !(u.store.Writes? && u.saveUp) ==> UploadEffect(digest, w, u).rows == w.rows
    ensures u.store.Writes? && u.saveUp ==>
      var after := UploadEffect(digest, w, u);
      && u.id in after.rows && (forall other <- w.rows :: other in after.rows && after.rows[other] == w.rows[other])
      && var image := ModelToEntity(u.id, after.rows[u.id]);
         && image.id == u.id && image.filename == u.filename && image.tags == u.tags && image.status == Pending
         && image.thumbnailPath.None? && image.metadata.None? && image.createdAt == u.now && image.updatedAt == u.now
         && (ttl.None? ==> image.expiresAt.None?)
         && (ttl.Some? ==> image.expiresAt.Some? && image.expiresAt.value - a.clock == 60.0 * 60.0 * ttl.value as real)
         && image.originalPath.digest == digest(u.data) && image.originalPath in after.files
         && after.files[image.originalPath] == u.data
         && ('/' !in u.filename && u.filename != "" && u.filename != "." ==> image.originalPath.name == u.filename)
  {
    hide StoredName;
    if '/' !in u.filename {
      PlainStoredName(u.filename);
    }
  }

  /**
    A saved and published upload reaches the worker: its message is put behind what waits on the
    processing topic, is read as attempt 0 of the new image, and nothing else waits differently; that is
    the pipeline's upload step.  Otherwise nothing is queued.
   */
  lemma UploadReachesTheWorker(c: TaskMessages.Codec, config: ProcessingWorker.Config, queues: MessageBroker.Queues,
                               s: TaskPipeline.State, u: Upload, a: Around)
    requires TaskMessages.Lawful(c) && config.dlqTopic != "image.processing"
    requires s.processing == MessageBroker.Waiting(queues, "image.processing")
    requires s.dlq == MessageBroker.Waiting(queues, config.dlqTopic)
    ensures
      var queues', s' := Queued(c, queues, u, a), TaskPipeline.Apply(c, config, s, TaskPipeline.Upload(u.id));
      if u.store.Writes? && u.saveUp && a.publishUp then
        && s'.processing == MessageBroker.Waiting(queues', "image.processing")
        && s'.dlq == MessageBroker.Waiting(queues', config.dlqTopic)
        && (forall topic: string :: topic != "image.processing" ==>
              MessageBroker.Waiting(queues', topic) == MessageBroker.Waiting(queues, topic))
        && |MessageBroker.Waiting(queues', "image.processing")| == |s.processing| + 1
        && MessageBroker.Waiting(queues', "image.processing")[..|s.processing|] == s.processing
        && var m := MessageBroker.Waiting(queues', "image.processing")[|s.processing|];
           && m.key == c.showId(u.id) && TaskMessages.Parse(c, m.value).Some?
           && TaskMessages.Parse(c, m.value).value.imageId == u.id && TaskMessages.Parse(c, m.value).value.attempt == 0
      else queues' == queues
  {
    TaskMessages.UploadMessageParses(c, u.id);
    hide TaskMessages.Parse, TaskMessages.Lawful;
  }

  // ---------------------------------------------------------------------------------------
  // Executions are protocol runs
  // ---------------------------------------------------------------------------------------

  predicate CallSucceeds(pc: Protocol.Pc, u: Upload, a: Around, hits: set<ImageId>) {
    match pc
    case Lookup(again) => if again then a.lookupAgainUp else a.lookupUp
    case ReplayFetch(id) => id in hits || a.fetchUp
    case Claim => a.claimUp
    case StoreFile => u.store.Writes?
    case SaveRow => u.saveUp
    case Publish(_) => a.publishUp
    case Complete(_) => a.completeUp
    case Release(_) => a.releaseUp
    case _ => false
  }

  function UploadEnv(me: Protocol.RequestId, q: Protocol.Request, u: Upload, a: Around, others: seq<Protocol.Action>,
                     hits: set<ImageId>): Env
  {
    Env(me, q, u.id, pc => if CallSucceeds(pc, u, a, hits) then Protocol.Succeeds else Protocol.FailsOther, others, hits)
  }

  lemma {:induction false} LookupSteps(env: Env, t: Trace, u: Upload, a: Around, records: Records, rows: Rows) returns (n: nat)
    requires env == UploadEnv(env.me, env.q, u, a, env.others, env.hits)
    requires env.q.key.Some? && env.q.hash.UploadHash? && t.pc.Lookup? && Shows(t.base, records, rows)
    ensures
      var again := t.pc.again;
      var end := LookupEnding(env.q, again, if again then a.lookupAgainUp else a.lookupUp, a.fetchUp,
                              Protocol.RowAt(records, env.q.Target()), env.hits, rows);
      && Steps(env, t, n).base == t.base
      && Steps(env, t, n).pc == (if end.Some? then end.value else Protocol.Claim)
      && (again ==> end.Some?)
  {
    hide Advance;
    AfterLookup(env, t);
    OneStep(env, t);
    n := 1;
    var t1 := Steps(env, t, 1);
    if t1.pc.ReplayFetch? {
      AfterFetch(env, t1);
      OneStep(env, t1);
      StepsAdd(env, t, 1, 1);
      n := 2;
    }
  }

  lemma {:induction false} ReleaseSteps(env: Env, t: Trace, u: Upload, a: Around, records: Records, rows: Rows) returns (n: nat)
    requires env == UploadEnv(env.me, env.q, u, a, env.others, env.hits)
    requires t.pc == Protocol.AfterFailedWork(env.q) && Shows(t.base, records, rows)
    ensures
      var t' := Steps(env, t, n);
      && t'.pc == Protocol.Raised(if env.q.key.None? || a.releaseUp then Protocol.WorkFailed else Protocol.ReleaseFailed)
      && Shows(t'.base, if env.q.key.Some? && a.releaseUp then records - {env.q.Target()} else records, rows)
  {
    hide Advance;
    OneStep(env, t);
    if env.q.key.Some? {
      AfterRelease(env, t);
      n := 1;
    } else {
      n := 0;
    }
  }

  lemma {:induction false} CompleteSteps(env: Env, t: Trace, u: Upload, a: Around, records: Records, rows: Rows) returns (n: nat)
    requires env == UploadEnv(env.me, env.q, u, a, env.others, env.hits) && env.q.hash.UploadHash? && Saves(u)
    requires t.pc == Protocol.AfterWork(env.q, u.id) && Shows(t.base, records, rows)
    ensures
      var t' := Steps(env, t, n);
      t'.pc == WorkEnding(env.q, u, a) && Shows(t'.base, WorkRecords(env.q, u, a, records), rows)
  {
    hide Advance;
    OneStep(env, t);
    if env.q.key.None? {
      n := 0;
    } else {
      AfterComplete(env, t);
      n := 1;
      if !a.completeUp {
        var m := ReleaseSteps(env, Steps(env, t, 1), u, a, records, rows);
        StepsAdd(env, t, 1, m);
        n := 1 + m;
      }
    }
  }

  lemma {:induction false} WorkSteps(env: Env, t: Trace, u: Upload, a: Around, digest: Bytes -> string, w: World, records: Records)
    returns (n: nat)
    requires env == UploadEnv(env.me, env.q, u, a, env.others, env.hits) && env.q.hash.UploadHash?
    requires t.pc.StoreFile? && Shows(t.base, records, w.rows)
    ensures
      var t' := Steps(env, t, n);
      && t'.pc == WorkEnding(env.q, u, a)
      && Shows(t'.base, WorkRecords(env.q, u, a, records), UploadEffect(digest, w, u).rows)
  {
    hide Steps, Shows, PathOf, SaveRow, UploadEnv, WorkEnding, WorkRecords, Protocol.AfterWork, Protocol.AfterFailedWork;
    var v := NewImage(u, PathOf(digest, u.filename, u.data));
    UploadStep(env, t, u, a, records, w.rows, v);
    if !u.store.Writes? {
      n := FailedSteps(env, t, 1, u, a, records, w.rows);
      return;
    }
    UploadStep(env, Steps(env, t, 1), u, a, records, w.rows, v);
    StepsAdd(env, t, 1, 1);
    if !u.saveUp {
      n := FailedSteps(env, t, 2, u, a, records, w.rows);
      return;
    }
    UploadStep(env, Steps(env, t, 2), u, a, records, SaveRow(w.rows, v), v);
    StepsAdd(env, t, 2, 1);
    var m := CompleteSteps(env, Steps(env, t, 3), u, a, records, SaveRow(w.rows, v));
    StepsAdd(env, t, 3, m);
    n := 3 + m;
  }

  /** One call of the work, in terms of the tables. */
  lemma UploadStep(env: Env, t: Trace, u: Upload, a: Around, records: Records, rows: Rows, v: ImageValue)
    requires env == UploadEnv(env.me, env.q, u, a, env.others, env.hits) && v.id == u.id && v.status == Pending
    requires (t.pc.StoreFile? || t.pc.SaveRow? || t.pc.Publish?) && Shows(t.base, records, rows)
    ensures
      var t1 := Steps(env, t, 1);
      && Shows(t1.base, records, if t.pc.SaveRow? && u.saveUp then SaveRow(rows, v) else rows)
      && t1.pc == if t.pc.Publish? then Protocol.AfterWork(env.q, t.pc.savedId)
                  else if t.pc.StoreFile? then if u.store.Writes? then Protocol.SaveRow else Protocol.AfterFailedWork(env.q)
                  else if u.saveUp then Protocol.Publish(u.id) else Protocol.AfterFailedWork(env.q)
  {
    hide Advance, Statuses, SaveRow;
    AfterUploadWork(env, t);
    OneStep(env, t);
    SavedStatus(rows, v);
  }

  /** The work fails before anything is saved. */
  lemma {:induction false} FailedSteps(env: Env, t: Trace, k: nat, u: Upload, a: Around, records: Records, rows: Rows) returns (n: nat)
    requires env == UploadEnv(env.me, env.q, u, a, env.others, env.hits) && !Saves(u)
    requires Steps(env, t, k).pc == Protocol.AfterFailedWork(env.q) && Shows(Steps(env, t, k).base, records, rows)
    ensures
      var t' := Steps(env, t, n);
      t'.pc == WorkEnding(env.q, u, a) && Shows(t'.base, WorkRecords(env.q, u, a, records), rows)
  {
    hide Steps, Shows, UploadEnv;
    var m := ReleaseSteps(env, Steps(env, t, k), u, a, records, rows);
    StepsAdd(env, t, k, m);
    n := k + m;
  }

  /** From the claim on. */
  lemma {:induction false} ClaimSteps(env: Env, t: Trace, u: Upload, a: Around, digest: Bytes -> string, files: map<Path, Bytes>,
                                      f: Found)
    returns (n: nat)
    requires env == UploadEnv(env.me, env.q, u, a, env.others, env.hits) && env.hits == f.hits && env.q.hash.UploadHash?
    requires env.q.key.Some? && t.pc.Claim? && Leads(env, t.base, f.tables) && Claims(env.q, a, f)
    ensures
      var t' := Steps(env, t, n);
      && t'.pc == UploadEnding(env.q, u, a, f)
      && Shows(t'.base, UploadRecords(env.q, env.me, u, a, f),
               if Works(env.q, a, f) then UploadEffect(digest, World(f.tables.rowsThen, files), u).rows else f.tables.rowsThen)
  {
    ClaimStep(env, t, f.tables);
    hide Steps, Leads, Shows, UploadEffect, UploadEnv, Claimed;
    if !a.claimUp {
      n := 1;
    } else if env.q.Target() in f.tables.recordsThen {
      n := BeatenSteps(env, t, u, a, f);
    } else {
      n := GrantedSteps(env, t, u, a, digest, files, f);
    }
  }

  lemma {:induction false} BeatenSteps(env: Env, t: Trace, u: Upload, a: Around, f: Found) returns (n: nat)
    requires env == UploadEnv(env.me, env.q, u, a, env.others, env.hits) && env.hits == f.hits && env.q.hash.UploadHash?
    requires env.q.key.Some? && Steps(env, t, 1).pc == Protocol.Lookup(true)
    requires Shows(Steps(env, t, 1).base, f.tables.recordsThen, f.tables.rowsThen)
    ensures
      var t' := Steps(env, t, n);
      t'.pc == SecondLookup(env.q, a, f).value && Shows(t'.base, f.tables.recordsThen, f.tables.rowsThen)
  {
    hide Steps, Shows, LookupEnding, UploadEnv;
    var m := LookupSteps(env, Steps(env, t, 1), u, a, f.tables.recordsThen, f.tables.rowsThen);
    StepsAdd(env, t, 1, m);
    n := 1 + m;
  }

  lemma {:induction false} GrantedSteps(env: Env, t: Trace, u: Upload, a: Around, digest: Bytes -> string,
                                        files: map<Path, Bytes>, f: Found)
    returns (n: nat)
    requires env == UploadEnv(env.me, env.q, u, a, env.others, env.hits) && env.q.hash.UploadHash? && env.q.key.Some?
    requires Steps(env, t, 1).pc.StoreFile?
    requires Shows(Steps(env, t, 1).base, Claimed(env.q, env.me, f.tables.recordsThen), f.tables.rowsThen)
    ensures
      var t' := Steps(env, t, n);
      && t'.pc == WorkEnding(env.q, u, a)
      && Shows(t'.base, WorkRecords(env.q, u, a, Claimed(env.q, env.me, f.tables.recordsThen)),
               UploadEffect(digest, World(f.tables.rowsThen, files), u).rows)
  {
    hide Steps, Shows, WorkEnding, WorkRecords, UploadEnv, UploadEffect, Claimed;
    var m := WorkSteps(env, Steps(env, t, 1), u, a, digest, World(f.tables.rowsThen, files),
                       Claimed(env.q, env.me, f.tables.recordsThen));
    StepsAdd(env, t, 1, m);
    n := 1 + m;
  }

  /**
    How an execution ends, and what it leaves in the records and the image rows, is where the protocol
    takes the request, by exactly its own calls with these outcomes, what the others did before its
    claim, and at the replay fetch what the cache shows.
   */
  lemma {:induction false} UploadIsProtocolRun(env: Env, s: Protocol.State, u: Upload, a: Around, digest: Bytes -> string,
                                               files: map<Path, Bytes>, f: Found)
    returns (n: nat)
    requires env == UploadEnv(env.me, env.q, u, a, env.others, env.hits) && env.hits == f.hits && env.q.hash.UploadHash?
    requires env.me !in s.requests && Leads(env, s, f.tables)
    ensures
      var t := Steps(env, Arrived(env, s), n);
      && Follows(s, env, t) && t.pc == UploadEnding(env.q, u, a, f)
      && Shows(t.base, UploadRecords(env.q, env.me, u, a, f),
               if Works(env.q, a, f) then UploadEffect(digest, World(RowsThen(env.q, a, f), files), u).rows
               else RowsThen(env.q, a, f))
  {
    var t := Arrived(env, s);
    hide Advance, Interrupted, UploadEffect, Statuses, Follows;
    if env.q.key.None? {
      n := WorkSteps(env, t, u, a, digest, World(f.tables.rows, files), f.tables.records);
    } else {
      n := LookupSteps(env, t, u, a, f.tables.records, f.tables.rows);
      if Claims(env.q, a, f) {
        var m := ClaimSteps(env, Steps(env, t, n), u, a, digest, files, f);
        StepsAdd(env, t, n, m);
        n := n + m;
      }
    }
    StepsFollow(s, env, n);
  }

  // ---------------------------------------------------------------------------------------
  // The use case
  // ---------------------------------------------------------------------------------------

  class UploadImageUseCase {
    const repository: CachedImageRepository
    const table: IdempotencyTable
    const storage: LocalImageStorage
    const broker: MessageBroker.Broker
    const c: TaskMessages.Codec

    constructor (repository: CachedImageRepository, table: IdempotencyTable, storage: LocalImageStorage,
                 broker: MessageBroker.Broker, c: TaskMessages.Codec)
      ensures this.repository == repository && this.table == table && this.storage == storage
      ensures this.broker == broker && this.c == c
    {
      this.repository, this.table, this.storage, this.broker, this.c := repository, table, storage, broker, c;
    }

    /** _load_idempotent_replay, with what its caller makes of a missing record. */
    method LoadReplay(q: Protocol.Request, again: bool, lookupUp: bool, a: Around) returns (ending: Option<Protocol.Pc>)
      requires repository.Valid() && q.key.Some?
      modifies repository.cache
      ensures repository.Valid() && (old(repository.InStep()) ==> repository.InStep())
      ensures ending == LookupEnding(q, again, lookupUp, a.fetchUp, Protocol.RowAt(table.records, q.Target()),
                                     Hits(old(repository.cache.store), a.now), repository.inner.rows)
      ensures ending.None? ==> repository.cache.store == old(repository.cache.store)
    {
      hide SameButStatus, ModelToEntity;
      var found := table.Get(q.Target(), lookupUp);
      if found.None? {
        return Some(Protocol.Raised(Protocol.LookupFailed));
      }
      if found.value.None? {
        return if again then Some(Protocol.Raised(Protocol.AlreadyInProgress)) else None;
      }
      var record := found.value.value;
      if record.hash != q.hash {
        return Some(Protocol.Raised(Protocol.Conflict));
      }
      if record.status == Protocol.InProgress {
        return Some(Protocol.Raised(Protocol.AlreadyInProgress));
      }
      if record.imageId.None? {
        return Some(Protocol.Raised(Protocol.Conflict));
      }
      var id := record.imageId.value;
      var image, raised := repository.GetById(id, a.now, a.fetchUp, a.t1, a.t2);
      if raised {
        return Some(Protocol.Raised(Protocol.ReplayFetchFailed));
      }
      if image.None? {
        return Some(Protocol.Raised(Protocol.Conflict));
      }
      return Some(Protocol.Returned(Protocol.Response(id)));
    }

    /** The part of the try block that stores, saves and publishes; False stands for an exception. */
    method StoreAndPublish(u: Upload, a: Around) returns (ok: bool)
      requires repository.Valid()
      modifies repository.inner, repository.cache, storage, broker
      ensures repository.Valid() && (old(repository.InStep()) ==> repository.InStep())
      ensures ok <==> Saves(u)
      ensures World(repository.inner.rows, storage.files)
              == UploadEffect(storage.digest, World(old(repository.inner.rows), old(storage.files)), u)
      ensures broker.queues == Queued(c, old(broker.queues), u, a)
    {
      hide PathOf, SaveRow, SameButStatus, ModelToEntity, TaskMessages.UploadMessage;
      var path := storage.Store(u.filename, u.data, u.store);
      if path.None? {
        return false;
      }
      ok := SaveAndPublish(u, path.value, a);
    }

    method SaveAndPublish(u: Upload, path: Path, a: Around) returns (ok: bool)
      requires repository.Valid()
      modifies repository.inner, repository.cache, broker
      ensures repository.Valid() && (old(repository.InStep()) ==> repository.InStep())
      ensures ok == u.saveUp
      ensures repository.inner.rows
              == if ok then SaveRow(old(repository.inner.rows), NewImage(u, path)) else old(repository.inner.rows)
      ensures broker.queues
              == if ok && a.publishUp then MessageBroker.Append(old(broker.queues), TaskMessages.UploadMessage(c, u.id))
                 else old(broker.queues)
    {
      hide SaveRow, SameButStatus, ModelToEntity, TaskMessages.UploadMessage;
      var image := new Image(NewImage(u, path));
      ok := repository.Save(image, u.saveUp);
      if ok {
        var _ := broker.Publish(TaskMessages.UploadMessage(c, u.id), a.publishUp);
      }
    }

    /** The try block with its except block: complete the record, or release the key and re-raise. */
    method Work(q: Protocol.Request, u: Upload, a: Around) returns (ending: Protocol.Pc)
      requires repository.Valid()
      modifies repository.inner, repository.cache, storage, broker, table
      ensures repository.Valid() && (old(repository.InStep()) ==> repository.InStep())
      ensures ending == WorkEnding(q, u, a) && table.records == WorkRecords(q, u, a, old(table.records))
      ensures World(repository.inner.rows, storage.files)
              == UploadEffect(storage.digest, World(old(repository.inner.rows), old(storage.files)), u)
      ensures broker.queues == Queued(c, old(broker.queues), u, a)
    {
      hide UploadEffect, SameButStatus, ModelToEntity, Queued;
      var ok := StoreAndPublish(u, a);
      if ok && q.key.Some? {
        table.Complete(q.Target(), u.id, a.completeUp);
        ok := a.completeUp;
      }
      if ok {
        return Protocol.Returned(Protocol.Response(u.id));
      }
      ending := Protocol.Raised(Protocol.WorkFailed);
      if q.key.Some? {
        table.Delete(q.Target(), a.releaseUp);
        if !a.releaseUp {
          ending := Protocol.Raised(Protocol.ReleaseFailed);
        }
      }
    }

    /**
      A whole execution.  How it ends, the records, rows, files and queue it leaves are functions of what
      it finds and how its calls end.  And from any protocol state that shows the tables it is the
      determined stretch of a protocol run by this request, to a state that shows the tables it leaves
      and in which the request stands where it ended.
     */
    method Execute(me: Protocol.RequestId, u: Upload, ttlHours: Option<int>, key: Option<Protocol.Key>, a: Around,
                   recordsThen: Records, rowsThen: Rows, ghost s: Protocol.State, ghost others: seq<Protocol.Action>)
      returns (ending: Protocol.Pc, ghost f: Found, ghost n: nat)
      requires repository.Valid() && me !in s.requests && u.expiresAt == Expiry(ttlHours, a.clock)
      requires
        var f := Found(Tables(table.records, repository.inner.rows, recordsThen, rowsThen), Hits(repository.cache.store, a.now));
        Leads(UploadEnv(me, KeyedUpload(u, ttlHours, key), u, a, others, f.hits), s, f.tables)
      modifies repository.inner, repository.cache, storage, broker, table
      ensures repository.Valid()
      ensures old(repository.InStep()) && rowsThen == old(repository.inner.rows) ==> repository.InStep()
      ensures f == Found(Tables(old(table.records), old(repository.inner.rows), recordsThen, rowsThen),
                         Hits(old(repository.cache.store), a.now))
      ensures
        var q := KeyedUpload(u, ttlHours, key);
        var before := World(RowsThen(q, a, f), old(storage.files));
        && ending == UploadEnding(q, u, a, f) && table.records == UploadRecords(q, me, u, a, f)
        && World(repository.inner.rows, storage.files)
           == (if Works(q, a, f) then UploadEffect(storage.digest, before, u) else before)
        && broker.queues == (if Works(q, a, f) then Queued(c, old(broker.queues), u, a) else old(broker.queues))
      ensures key.Some? && a.lookupUp ==>
                var slot := Protocol.Slot(Protocol.UploadScope, key.value);
                slot in f.tables.records
                && f.tables.records[slot].hash != Protocol.UploadHash(u.filename, u.data, u.tags, ttlHours) ==>
                  ending == Protocol.Raised(Protocol.Conflict)
      ensures
        var env := UploadEnv(me, KeyedUpload(u, ttlHours, key), u, a, others, f.hits);
        var t := Steps(env, Arrived(env, s), n);
        Follows(s, env, t) && t.pc == ending && Shows(t.base, table.records, repository.inner.rows)
    {
      var q := KeyedUpload(u, ttlHours, key);
      f := Found(Tables(table.records, repository.inner.rows, recordsThen, rowsThen), Hits(repository.cache.store, a.now));
      ghost var env := UploadEnv(me, q, u, a, others, f.hits);
      n := UploadIsProtocolRun(env, s, u, a, storage.digest, storage.files, f);
      hide UploadEffect, UploadEnv, Steps, Follows, Arrived, Leads, Interrupted, Statuses;
      ending := Attempt(me, q, u, a, recordsThen, rowsThen, f);
    }

    method Attempt(me: Protocol.RequestId, q: Protocol.Request, u: Upload, a: Around, recordsThen: Records, rowsThen: Rows,
                   ghost f: Found)
      returns (ending: Protocol.Pc)
      requires repository.Valid() && q.hash.UploadHash?
      requires f == Found(Tables(table.records, repository.inner.rows, recordsThen, rowsThen), Hits(repository.cache.store, a.now))
      modifies repository.inner, repository.cache, storage, broker, table
      ensures repository.Valid()
      ensures old(repository.InStep()) && rowsThen == old(repository.inner.rows) ==> repository.InStep()
      ensures ending == UploadEnding(q, u, a, f) && table.records == UploadRecords(q, me, u, a, f)
      ensures
        var before := World(RowsThen(q, a, f), old(storage.files));
        World(repository.inner.rows, storage.files)
        == if Works(q, a, f) then UploadEffect(storage.digest, before, u) else before
      ensures broker.queues == if Works(q, a, f) then Queued(c, old(broker.queues), u, a) else old(broker.queues)
    {
      hide UploadEffect, SameButStatus, ModelToEntity, LookupEnding, WorkEnding, WorkRecords, Claimed, Queued;
      if q.key.Some? {
        var replay := LoadReplay(q, false, a.lookupUp, a);
        if replay.Some? {
          return replay.value;
        }
        replay := ClaimKey(me, q, a, recordsThen, rowsThen, f);
        if replay.Some? {
          return replay.value;
        }
      }
      ending := Work(q, u, a);
    }

    /** The claim, after what others did; if another request was faster, its record decides. */
    method ClaimKey(me: Protocol.RequestId, q: Protocol.Request, a: Around, recordsThen: Records, rowsThen: Rows,
                    ghost f: Found)
      returns (ending: Option<Protocol.Pc>)
      requires repository.Valid() && q.key.Some? && q.hash.UploadHash?
      requires f == Found(Tables(f.tables.records, repository.inner.rows, recordsThen, rowsThen),
                          Hits(repository.cache.store, a.now))
      modifies table, repository.inner, repository.cache
      ensures repository.Valid() && repository.inner.rows == rowsThen
      ensures old(repository.InStep()) && rowsThen == old(repository.inner.rows) ==> repository.InStep()
      ensures ending.None? <==> a.claimUp && q.Target() !in recordsThen
      ensures table.records == if ending.None? then Claimed(q, me, recordsThen) else recordsThen
      ensures ending.Some? ==>
                ending == if !a.claimUp then Some(Protocol.Raised(Protocol.ClaimFailed)) else SecondLookup(q, a, f)
    {
      hide SameButStatus, ModelToEntity;
      Await(table, repository.inner, recordsThen, rowsThen);
      var claimed := table.Create(q.Target(), Protocol.Record(q.hash, Protocol.InProgress, None, me), a.claimUp);
      if claimed.None? {
        return Some(Protocol.Raised(Protocol.ClaimFailed));
      }
      if !claimed.value {
        ending := LoadReplay(q, true, a.lookupAgainUp, a);
        return;
      }
      return None;
    }
  }
}
