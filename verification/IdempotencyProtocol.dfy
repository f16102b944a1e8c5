/**
  The Idempotency-Key protocol of the upload and process use cases: look up, claim, work, then
  complete or release, against a table whose primary key is (scope, key).

  Any number of requests run at once.  A request is a program counter that stands at its next
  awaited call; one action performs that call, which takes effect atomically or fails without
  effect.  A request may also be cut off at any call (a crash or a cancelled task).  The image table
  is what get_by_id shows, possibly out of a stale cache, and may be rewritten by anybody at any time.
  A run is an arbitrary list of actions.
 */
module IdempotencyProtocol {
  import opened Basics
  import ImageEntity

  type RequestId = nat
  type Key = string

  datatype Scope = UploadScope | ProcessScope

  /** The request digest, taken to be injective: the digest is the digested request. */
  datatype RequestHash =
    | UploadHash(filename: string, data: seq<int>, tags: seq<string>, ttlHours: Option<int>)
    | ProcessHash(imageId: ImageId)

  /** Primary key of the idempotency table. */
  datatype Slot = Slot(scope: Scope, key: Key)

  datatype RecordStatus = InProgress | Completed

  /** A row of the idempotency table.  `claimant` is a history variable: who inserted the row. */
  datatype Record = Record(hash: RequestHash, status: RecordStatus, imageId: Option<ImageId>,
                           claimant: RequestId)

  /** An image's processing status. */
  type Status = ImageEntity.Status

  /** What an execution returned. */
  datatype Result = Response(imageId: ImageId) | Processed(ok: bool)

  /** The exception that ended an execution. */
  datatype Cause =
    | LookupFailed | ClaimFailed | ReplayFetchFailed | Conflict | AlreadyInProgress
    | WorkFailed          // the work failed and the key, if any, was released
    | GetImageFailed      // process: get_by_id raised, outside the try block
    | ThumbDeleteFailed   // process: the thumbnail cleanup raised something other than OSError
    | FailedSaveFailed    // process: saving the FAILED status raised
    | ReleaseFailed       // delete_idempotency_record raised
    | CompleteFailed      // process: complete_idempotency_record raised, outside the try block

  /** Where a request stands: the call it makes next, or how it ended. */
  datatype Pc =
    | Lookup(again: bool)
    | Claim
    | ReplayFetch(replayId: ImageId)
      // upload
    | StoreFile | SaveRow | Publish(savedId: ImageId)
      // process
    | GetImage | SaveProcessing | Retrieve | Generate | StoreThumbnail | SaveCompleted
    | DeleteThumbnail | SaveFailed
      // both
    | Complete(completedId: ImageId)
    | Release(missing: bool)
      // ended
    | Returned(result: Result)
    | Raised(cause: Cause)
    | Crashed(holding: bool)

  datatype Request = Request(hash: RequestHash, key: Option<Key>, pc: Pc) {
    function Kind(): Scope {
      if hash.UploadHash? then UploadScope else ProcessScope
    }

    /** The table slot this request works on. */
    function Target(): Slot
      requires key.Some?
    {
      Slot(Kind(), key.value)
    }

    predicate On(slot: Slot) {
      key.Some? && Target() == slot
    }

    /** Between the successful claim and the completion or release. */
    predicate Working() {
      pc.StoreFile? || pc.SaveRow? || pc.Publish? || pc.GetImage? || pc.SaveProcessing?
      || pc.Retrieve? || pc.Generate? || pc.StoreThumbnail? || pc.SaveCompleted?
      || pc.DeleteThumbnail? || pc.SaveFailed? || pc.Complete? || pc.Release?
    }

    /** Ended without completing or releasing the key it had claimed. */
    predicate Abandoned() {
      pc == Crashed(true) || (pc.Raised? && Leaks(pc.cause))
    }

    predicate Ended() {
      pc.Returned? || pc.Raised? || pc.Crashed?
    }
  }

  /** The exceptions after which a claimed key stays in progress. */
  predicate Leaks(cause: Cause) {
    cause.GetImageFailed? || cause.ThumbDeleteFailed? || cause.FailedSaveFailed?
    || cause.ReleaseFailed? || cause.CompleteFailed?
  }

  /** What happened so far, counted. */
  datatype Event =
    | RowSaved(slot: Slot)                        // an upload inserted its image row
    | CompletionFailed(slot: Slot)
    | RecordCompleted(slot: Slot)
    | CompletedSaved(slot: Slot, image: ImageId)  // a processing run saved status COMPLETED

  datatype Outcome = Succeeds | FailsOs | FailsOther

  datatype State = State(records: map<Slot, Record>, images: map<ImageId, Status>,
                         requests: map<RequestId, Request>, events: multiset<Event>)

  /** What one call does to the slot's row. */
  datatype TableOp = Keep | Put(record: Record) | Remove

  datatype Effect = Effect(pc: Pc, op: TableOp, rows: map<ImageId, Status>, event: Option<Event>)

  datatype Action =
    | Arrive(who: RequestId, hash: RequestHash, key: Option<Key>)
    | Call(who: RequestId, outcome: Outcome, freshId: ImageId)
    | Crash(who: RequestId)
    | Rewrite(images: map<ImageId, Status>)

  const Init := State(map[], map[], map[], multiset{})

  // ---------------------------------------------------------------------------------------
  // The use cases, call by call
  // ---------------------------------------------------------------------------------------

  function FirstWork(hash: RequestHash): Pc {
    if hash.UploadHash? then StoreFile else GetImage
  }

  /** Where the exception handler goes once the work has failed. */
  function AfterFailedWork(q: Request): Pc {
    if q.key.Some? then Release(false) else Raised(WorkFailed)
  }

  function AfterWork(q: Request, id: ImageId): Pc {
    if q.key.Some? then Complete(id)
    else if q.hash.UploadHash? then Returned(Response(id)) else Returned(Processed(true))
  }

  /** _load_idempotent_replay up to its first await, applied to the row found. */
  function Inspect(q: Request, found: Option<Record>, again: bool): Pc {
    if found.None? then
      if again then Raised(AlreadyInProgress) else Claim
    else if found.value.hash != q.hash then Raised(Conflict)
    else if found.value.status == InProgress then Raised(AlreadyInProgress)
    else if q.hash.ProcessHash? then Returned(Processed(true))
    else if found.value.imageId.None? then Raised(Conflict)
    else ReplayFetch(found.value.imageId.value)
  }

  /** One awaited call of a keyed or unkeyed request, given the row in its slot. */
  function Step(q: Request, me: RequestId, found: Option<Record>, rows: map<ImageId, Status>,
                outcome: Outcome, freshId: ImageId): Effect
  {
    var ok := outcome.Succeeds?;
    var stay := Effect(q.pc, Keep, rows, None);
    match q.pc
    case Lookup(again) =>
      stay.(pc := if ok then Inspect(q, found, again) else Raised(LookupFailed))
    case Claim =>
      if !ok then stay.(pc := Raised(ClaimFailed))
      else if found.Some? then stay.(pc := Lookup(true))
      else
        var image := if q.hash.ProcessHash? then Some(q.hash.imageId) else None;
        stay.(pc := FirstWork(q.hash), op := Put(Record(q.hash, InProgress, image, me)))
    case ReplayFetch(id) =>
      stay.(pc := if !ok then Raised(ReplayFetchFailed)
                  else if id !in rows then Raised(Conflict)
                  else Returned(Response(id)))
    case StoreFile =>
      stay.(pc := if ok then SaveRow else AfterFailedWork(q))
    case SaveRow =>
      if ok then stay.(pc := Publish(freshId), rows := rows[freshId := ImageEntity.Pending],
                       event := if q.key.Some? then Some(RowSaved(q.Target())) else None)
      else stay.(pc := AfterFailedWork(q))
    case Publish(id) =>
      stay.(pc := AfterWork(q, id))  // a failing publish is logged and swallowed
    case GetImage =>
      stay.(pc := if !ok then Raised(GetImageFailed)
                  else if q.hash.ProcessHash? && q.hash.imageId in rows then SaveProcessing
                  else if q.key.Some? then Release(true)
                  else Returned(Processed(false)))
    case SaveProcessing =>
      if ok && q.hash.ProcessHash? then stay.(pc := Retrieve, rows := rows[q.hash.imageId := ImageEntity.Processing])
      else stay.(pc := SaveFailed)
    case Retrieve => stay.(pc := if ok then Generate else SaveFailed)
    case Generate => stay.(pc := if ok then StoreThumbnail else SaveFailed)
    case StoreThumbnail => stay.(pc := if ok then SaveCompleted else SaveFailed)
    case SaveCompleted =>
      if ok && q.hash.ProcessHash? then
        stay.(pc := AfterWork(q, q.hash.imageId), rows := rows[q.hash.imageId := ImageEntity.Completed],
              event := if q.key.Some? then Some(CompletedSaved(q.Target(), q.hash.imageId)) else None)
      else stay.(pc := DeleteThumbnail)
    case DeleteThumbnail =>
      stay.(pc := if outcome.FailsOther? then Raised(ThumbDeleteFailed) else SaveFailed)
    case SaveFailed =>
      if ok && q.hash.ProcessHash? then
        stay.(pc := AfterFailedWork(q), rows := rows[q.hash.imageId := ImageEntity.Failed])
      else stay.(pc := Raised(FailedSaveFailed))
    case Complete(id) =>
      var answer := Returned(if q.hash.UploadHash? then Response(id) else Processed(true));
      if !ok then
        stay.(pc := if q.hash.UploadHash? then Release(false) else Raised(CompleteFailed),
              event := if q.key.Some? then Some(CompletionFailed(q.Target())) else None)
      else if found.None? then stay.(pc := answer)  // "record is None": nothing to complete
      else
        stay.(pc := answer,
              op := Put(found.value.(status := Completed, imageId := Some(id))),
              event := if q.key.Some? then Some(RecordCompleted(q.Target())) else None)
    case Release(missing) =>
      if !ok then stay.(pc := Raised(ReleaseFailed))
      else stay.(pc := if missing then Returned(Processed(false)) else Raised(WorkFailed),
                 op := Remove)
    case Returned(_) => stay
    case Raised(_) => stay
    case Crashed(_) => stay
  }

  function RowAt(records: map<Slot, Record>, slot: Slot): Option<Record> {
    if slot in records then Some(records[slot]) else None
  }

  function Find(records: map<Slot, Record>, q: Request): Option<Record> {
    if q.key.Some? then RowAt(records, q.Target()) else None
  }

  function Store(records: map<Slot, Record>, q: Request, op: TableOp): map<Slot, Record> {
    if q.key.None? || op.Keep? then records
    else if op.Put? then records[q.Target() := op.record]
    else records - {q.Target()}
  }

  function EventsAfter(events: multiset<Event>, event: Option<Event>): multiset<Event> {
    if event.Some? then events + multiset{event.value} else events
  }

  function Perform(s: State, who: RequestId, e: Effect): State
    requires who in s.requests
  {
    var q := s.requests[who];
    State(Store(s.records, q, e.op), e.rows, s.requests[who := q.(pc := e.pc)], EventsAfter(s.events, e.event))
  }

  /** A request as it starts. */
  function Arrival(hash: RequestHash, key: Option<Key>): Request {
    Request(hash, key, if key.Some? then Lookup(false) else FirstWork(hash))
  }

  function Apply(s: State, a: Action): State {
    match a
    case Arrive(who, hash, key) =>
      if who in s.requests then s
      else s.(requests := s.requests[who := Arrival(hash, key)])
    case Call(who, outcome, freshId) =>
      if who !in s.requests then s
      else
        var q := s.requests[who];
        Perform(s, who, Step(q, who, Find(s.records, q), s.images, outcome, freshId))
    case Crash(who) =>
      if who !in s.requests || s.requests[who].Ended() then s
      else
        var q := s.requests[who];
        s.(requests := s.requests[who := q.(pc := Crashed(q.Working()))])
    case Rewrite(images) => s.(images := images)
  }

  /** The state after a list of actions. */
  function Run(actions: seq<Action>): State {
    if actions == [] then Init else Apply(Run(actions[..|actions| - 1]), actions[|actions| - 1])
  }

  // ---------------------------------------------------------------------------------------
  // The invariant
  // ---------------------------------------------------------------------------------------

  /** Which calls belong to which use case, and which need a key. */
  predicate WellPlaced(q: Request) {
    match q.pc
    case Lookup(_) | Claim => q.key.Some?
    case ReplayFetch(_) => q.key.Some? && q.hash.UploadHash?
    case StoreFile | SaveRow | Publish(_) => q.hash.UploadHash?
    case GetImage | SaveProcessing | Retrieve | Generate | StoreThumbnail | SaveCompleted
      | DeleteThumbnail | SaveFailed => q.hash.ProcessHash?
    case Complete(id) => q.key.Some? && (q.hash.ProcessHash? ==> id == q.hash.imageId)
    case Release(missing) => q.key.Some? && (missing ==> q.hash.ProcessHash?)
    case Returned(result) => result.Response? <==> q.hash.UploadHash?
    case Raised(cause) =>
      q.hash.UploadHash? ==> !Leaks(cause) || cause.ReleaseFailed?
    case Crashed(_) => true
  }

  /** The row a request has claimed and not yet settled. */
  predicate Claimed(found: Option<Record>, q: Request, me: RequestId) {
    found.Some? && found.value.status == InProgress && found.value.hash == q.hash
    && found.value.claimant == me
  }

  predicate CompletedWith(found: Option<Record>, q: Request) {
    found.Some? && found.value.status == Completed && found.value.hash == q.hash
  }

  /** What a request knows about the row in its slot. */
  predicate RequestOk(q: Request, me: RequestId, found: Option<Record>, events: multiset<Event>) {
    && WellPlaced(q)
    && (q.key.Some? ==>
          && (q.Working() || q.Abandoned() ==> Claimed(found, q, me))
          && (q.pc.ReplayFetch? ==> CompletedWith(found, q) && found.value.imageId == Some(q.pc.replayId))
          && (q.pc.Returned? && q.pc.result.Response? ==>
                CompletedWith(found, q) && found.value.imageId == Some(q.pc.result.imageId))
          && (q.pc.Returned? && q.pc.result == Processed(true) ==> CompletedWith(found, q))
          && (q.pc.Complete? && q.hash.ProcessHash? ==> CompletedSaved(q.Target(), q.hash.imageId) in events))
  }

  /** How many rows an upload slot has saved beyond its failed completions. */
  function Surplus(slot: Slot, events: multiset<Event>): int {
    events[RowSaved(slot)] as int - events[CompletionFailed(slot)] as int
  }

  /** The possible surplus while the slot is claimed, by where the claimant stands. */
  predicate SurplusWhileClaimed(pc: Pc, surplus: int) {
    match pc
    case StoreFile | SaveRow | Release(_) | Raised(_) => surplus == 0
    case Publish(_) | Complete(_) => surplus == 1
    case _ => 0 <= surplus <= 1
  }

  predicate RecordOk(slot: Slot, record: Record, requests: map<RequestId, Request>, events: multiset<Event>) {
    && (slot.scope == UploadScope <==> record.hash.UploadHash?)
    && (record.status == InProgress ==>
          && record.claimant in requests
          && var q := requests[record.claimant];
             q.On(slot) && (q.Working() || q.Abandoned())
             && events[RecordCompleted(slot)] == 0
             && (slot.scope == UploadScope ==> SurplusWhileClaimed(q.pc, Surplus(slot, events))))
    && (record.status == Completed ==>
          && record.imageId.Some?
          && events[RecordCompleted(slot)] == 1
          && (slot.scope == UploadScope ==> Surplus(slot, events) == 1)
          && (record.hash.ProcessHash? ==>
                record.imageId.value == record.hash.imageId
                && CompletedSaved(slot, record.hash.imageId) in events))
  }

  predicate FreeSlotOk(slot: Slot, events: multiset<Event>) {
    events[RecordCompleted(slot)] == 0 && (slot.scope == UploadScope ==> Surplus(slot, events) == 0)
  }

  ghost predicate Inv(s: State) {
    && (forall r <- s.requests :: RequestOk(s.requests[r], r, Find(s.records, s.requests[r]), s.events))
    && (forall slot <- s.records :: RecordOk(slot, s.records[slot], s.requests, s.events))
    && (forall slot: Slot :: slot !in s.records ==> FreeSlotOk(slot, s.events))
  }

  function FoundAfter(found: Option<Record>, op: TableOp): Option<Record> {
    match op
    case Keep => found
    case Put(record) => Some(record)
    case Remove => None
  }

  lemma LookerOk(q: Request, me: RequestId, found: Option<Record>, rows: map<ImageId, Status>,
                   outcome: Outcome, freshId: ImageId, events: multiset<Event>)
    requires RequestOk(q, me, found, events) && q.pc.Lookup?
    ensures
      var e := Step(q, me, found, rows, outcome, freshId);
      RequestOk(q.(pc := e.pc), me, FoundAfter(found, e.op), EventsAfter(events, e.event))
  {
  }

  lemma SearcherOk(q: Request, me: RequestId, found: Option<Record>, rows: map<ImageId, Status>,
                   outcome: Outcome, freshId: ImageId, events: multiset<Event>)
    requires RequestOk(q, me, found, events) && !q.Working() && !q.pc.Lookup?
    ensures
      var e := Step(q, me, found, rows, outcome, freshId);
      RequestOk(q.(pc := e.pc), me, FoundAfter(found, e.op), EventsAfter(events, e.event))
  {
  }

  lemma UploaderOk(q: Request, me: RequestId, found: Option<Record>, rows: map<ImageId, Status>,
                   outcome: Outcome, freshId: ImageId, events: multiset<Event>)
    requires RequestOk(q, me, found, events) && q.Working() && !q.pc.Complete? && !q.pc.Release? && q.hash.UploadHash?
    ensures
      var e := Step(q, me, found, rows, outcome, freshId);
      RequestOk(q.(pc := e.pc), me, FoundAfter(found, e.op), EventsAfter(events, e.event))
  {
  }

  lemma ProcessorOk(q: Request, me: RequestId, found: Option<Record>, rows: map<ImageId, Status>,
                    outcome: Outcome, freshId: ImageId, events: multiset<Event>)
    requires RequestOk(q, me, found, events) && q.Working() && !q.pc.Complete? && !q.pc.Release? && q.hash.ProcessHash?
    ensures
      var e := Step(q, me, found, rows, outcome, freshId);
      RequestOk(q.(pc := e.pc), me, FoundAfter(found, e.op), EventsAfter(events, e.event))
  {
  }

  lemma SettlerOk(q: Request, me: RequestId, found: Option<Record>, rows: map<ImageId, Status>,
                  outcome: Outcome, freshId: ImageId, events: multiset<Event>)
    requires RequestOk(q, me, found, events) && (q.pc.Complete? || q.pc.Release?)
    ensures
      var e := Step(q, me, found, rows, outcome, freshId);
      RequestOk(q.(pc := e.pc), me, FoundAfter(found, e.op), EventsAfter(events, e.event))
  {
  }

  /** The acting request keeps its own part of the invariant. */
  lemma ActorOk(q: Request, me: RequestId, found: Option<Record>, rows: map<ImageId, Status>,
                outcome: Outcome, freshId: ImageId, events: multiset<Event>)
    requires RequestOk(q, me, found, events)
    ensures
      var e := Step(q, me, found, rows, outcome, freshId);
      RequestOk(q.(pc := e.pc), me, FoundAfter(found, e.op), EventsAfter(events, e.event))
  {
    hide Step, RequestOk;
    if q.pc.Lookup? {
      LookerOk(q, me, found, rows, outcome, freshId, events);
    } else if !q.Working() {
      SearcherOk(q, me, found, rows, outcome, freshId, events);
    } else if q.pc.Complete? || q.pc.Release? {
      SettlerOk(q, me, found, rows, outcome, freshId, events);
    } else if q.hash.UploadHash? {
      UploaderOk(q, me, found, rows, outcome, freshId, events);
    } else {
      ProcessorOk(q, me, found, rows, outcome, freshId, events);
    }
  }

  /** A request in another slot sees nothing of the step; one in the same slot cannot be disturbed. */
  lemma BystanderOk(q: Request, me: RequestId, other: Request, them: RequestId, found: Option<Record>,
                    rows: map<ImageId, Status>, outcome: Outcome, freshId: ImageId, events: multiset<Event>)
    requires me != them
    requires RequestOk(q, me, found, events)
    requires RequestOk(other, them, found, events)
    ensures
      var e := Step(q, me, found, rows, outcome, freshId);
      RequestOk(other, them, FoundAfter(found, e.op), EventsAfter(events, e.event))
  {
  }

  lemma BystanderElsewhereOk(other: Request, them: RequestId, found: Option<Record>, events: multiset<Event>,
                             event: Option<Event>)
    requires RequestOk(other, them, found, events)
    ensures RequestOk(other, them, found, EventsAfter(events, event))
  {
  }

  predicate FoundOk(slot: Slot, found: Option<Record>, requests: map<RequestId, Request>, events: multiset<Event>) {
    if found.Some? then RecordOk(slot, found.value, requests, events) else FreeSlotOk(slot, events)
  }

  lemma SearcherSlotOk(q: Request, me: RequestId, found: Option<Record>, rows: map<ImageId, Status>,
                       outcome: Outcome, freshId: ImageId, events: multiset<Event>, requests: map<RequestId, Request>)
    requires q.key.Some? && me in requests && requests[me] == q && !q.Working()
    requires RequestOk(q, me, found, events) && FoundOk(q.Target(), found, requests, events)
    ensures
      var e := Step(q, me, found, rows, outcome, freshId);
      FoundOk(q.Target(), FoundAfter(found, e.op), requests[me := q.(pc := e.pc)], EventsAfter(events, e.event))
  {
  }

  lemma WorkerSlotOk(q: Request, me: RequestId, found: Option<Record>, rows: map<ImageId, Status>,
                     outcome: Outcome, freshId: ImageId, events: multiset<Event>, requests: map<RequestId, Request>)
    requires q.key.Some? && me in requests && requests[me] == q && q.Working() && !q.pc.Complete? && !q.pc.Release?
    requires RequestOk(q, me, found, events) && FoundOk(q.Target(), found, requests, events)
    ensures
      var e := Step(q, me, found, rows, outcome, freshId);
      FoundOk(q.Target(), FoundAfter(found, e.op), requests[me := q.(pc := e.pc)], EventsAfter(events, e.event))
  {
  }

  lemma SettlerSlotOk(q: Request, me: RequestId, found: Option<Record>, rows: map<ImageId, Status>,
                      outcome: Outcome, freshId: ImageId, events: multiset<Event>, requests: map<RequestId, Request>)
    requires q.key.Some? && me in requests && requests[me] == q && (q.pc.Complete? || q.pc.Release?)
    requires RequestOk(q, me, found, events) && FoundOk(q.Target(), found, requests, events)
    ensures
      var e := Step(q, me, found, rows, outcome, freshId);
      FoundOk(q.Target(), FoundAfter(found, e.op), requests[me := q.(pc := e.pc)], EventsAfter(events, e.event))
  {
  }

  /** The acting request's slot keeps its part of the invariant. */
  lemma SlotOk(q: Request, me: RequestId, found: Option<Record>, rows: map<ImageId, Status>,
               outcome: Outcome, freshId: ImageId, events: multiset<Event>, requests: map<RequestId, Request>)
    requires q.key.Some? && me in requests && requests[me] == q
    requires RequestOk(q, me, found, events) && FoundOk(q.Target(), found, requests, events)
    ensures
      var e := Step(q, me, found, rows, outcome, freshId);
      FoundOk(q.Target(), FoundAfter(found, e.op), requests[me := q.(pc := e.pc)], EventsAfter(events, e.event))
  {
    hide Step, RequestOk, FoundOk;
    if !q.Working() {
      SearcherSlotOk(q, me, found, rows, outcome, freshId, events, requests);
    } else if q.pc.Complete? || q.pc.Release? {
      SettlerSlotOk(q, me, found, rows, outcome, freshId, events, requests);
    } else {
      WorkerSlotOk(q, me, found, rows, outcome, freshId, events, requests);
    }
  }

  lemma StepEventIsLocal(q: Request, me: RequestId, found: Option<Record>, rows: map<ImageId, Status>,
                         outcome: Outcome, freshId: ImageId)
    ensures
      var e := Step(q, me, found, rows, outcome, freshId);
      e.event.Some? ==> q.On(e.event.value.slot)
  {
  }

  /** What the actor's step must establish in its own slot. */
  ghost predicate StepOk(s: State, who: RequestId, e: Effect)
    requires who in s.requests
  {
    var q := s.requests[who];
    var found', events' := FoundAfter(Find(s.records, q), e.op), EventsAfter(s.events, e.event);
    && (e.event.Some? ==> q.On(e.event.value.slot))
    && RequestOk(q.(pc := e.pc), who, found', events')
    && (q.key.Some? ==>
          && FoundOk(q.Target(), found', s.requests[who := q.(pc := e.pc)], events')
          && (forall r <- s.requests | r != who && s.requests[r].On(q.Target()) ::
                RequestOk(s.requests[r], r, found', events')))
  }

  lemma KeylessOk(q: Request, me: RequestId, found: Option<Record>, found': Option<Record>, events: multiset<Event>)
    requires q.key.None? && RequestOk(q, me, found, events)
    ensures RequestOk(q, me, found', events)
  {
  }

  lemma PerformKeepsRequestOk(s: State, who: RequestId, e: Effect, r: RequestId)
    requires Inv(s) && who in s.requests && StepOk(s, who, e) && r in s.requests
    ensures
      var s' := Perform(s, who, e);
      RequestOk(s'.requests[r], r, Find(s'.records, s'.requests[r]), s'.events)
  {
    hide RequestOk, FoundOk, RecordOk, FreeSlotOk;
    var q := s.requests[who];
    if r != who && !(q.key.Some? && s.requests[r].On(q.Target())) {
      assert RequestOk(s.requests[r], r, Find(s.records, s.requests[r]), s.events);
      BystanderElsewhereOk(s.requests[r], r, Find(s.records, s.requests[r]), s.events, e.event);
    } else if r == who && q.key.None? {
      KeylessOk(q.(pc := e.pc), who, FoundAfter(None, e.op), None, EventsAfter(s.events, e.event));
    }
  }

  /** A slot the actor does not work on. */
  lemma SlotElsewhereOk(slot: Slot, found: Option<Record>, requests: map<RequestId, Request>, events: multiset<Event>,
                        who: RequestId, e: Effect)
    requires FoundOk(slot, found, requests, events) && who in requests && !requests[who].On(slot)
    requires e.event.Some? ==> requests[who].On(e.event.value.slot)
    ensures FoundOk(slot, found, requests[who := requests[who].(pc := e.pc)], EventsAfter(events, e.event))
  {
  }

  lemma PerformKeepsSlotOk(s: State, who: RequestId, e: Effect, slot: Slot)
    requires Inv(s) && who in s.requests && StepOk(s, who, e)
    ensures
      var s' := Perform(s, who, e);
      FoundOk(slot, RowAt(s'.records, slot), s'.requests, s'.events)
  {
    hide RequestOk, RecordOk, FreeSlotOk;
    if !s.requests[who].On(slot) {
      assert FoundOk(slot, RowAt(s.records, slot), s.requests, s.events);
      SlotElsewhereOk(slot, RowAt(s.records, slot), s.requests, s.events, who, e);
    }
  }

  /** The whole invariant follows once the actor, its slot and the others on that slot are fine. */
  lemma PerformKeepsInv(s: State, who: RequestId, e: Effect)
    requires Inv(s) && who in s.requests && StepOk(s, who, e)
    ensures Inv(Perform(s, who, e))
  {
    hide RequestOk, RecordOk, FreeSlotOk, StepOk;
    var s' := Perform(s, who, e);
    forall r <- s'.requests
      ensures RequestOk(s'.requests[r], r, Find(s'.records, s'.requests[r]), s'.events)
    {
      PerformKeepsRequestOk(s, who, e, r);
    }
    forall slot <- s'.records
      ensures RecordOk(slot, s'.records[slot], s'.requests, s'.events)
    {
      PerformKeepsSlotOk(s, who, e, slot);
    }
    forall slot: Slot | slot !in s'.records
      ensures FreeSlotOk(slot, s'.events)
    {
      PerformKeepsSlotOk(s, who, e, slot);
    }
  }

  lemma CallKeepsInv(s: State, who: RequestId, outcome: Outcome, freshId: ImageId)
    requires Inv(s) && who in s.requests
    ensures Inv(Apply(s, Call(who, outcome, freshId)))
  {
    var q := s.requests[who];
    var found := Find(s.records, q);
    var e := Step(q, who, found, s.images, outcome, freshId);
    StepEventIsLocal(q, who, found, s.images, outcome, freshId);
    ActorOk(q, who, found, s.images, outcome, freshId, s.events);
    if q.key.Some? {
      SlotOk(q, who, found, s.images, outcome, freshId, s.events, s.requests);
      forall r <- s.requests | r != who && s.requests[r].On(q.Target())
        ensures RequestOk(s.requests[r], r, FoundAfter(found, e.op), EventsAfter(s.events, e.event))
      {
        BystanderOk(q, who, s.requests[r], r, found, s.images, outcome, freshId, s.events);
      }
    }
    PerformKeepsInv(s, who, e);
  }

  /** Every action keeps the invariant: an arrival, a call, a crash, a rewrite of the image table. */
  lemma ApplyKeepsInv(s: State, a: Action)
    requires Inv(s)
    ensures Inv(Apply(s, a))
  {
    match a
    case Call(who, outcome, freshId) =>
      if who in s.requests { CallKeepsInv(s, who, outcome, freshId); }
    case Arrive(who, hash, key) =>
      ArriveKeepsInv(s, a);
    case Crash(who) =>
      CrashKeepsInv(s, a);
    case Rewrite(_) =>
  }

  lemma ArrivalOk(who: RequestId, hash: RequestHash, key: Option<Key>, found: Option<Record>, events: multiset<Event>)
    ensures RequestOk(Arrival(hash, key), who, found, events)
  {
  }

  lemma NewcomerKeepsRecordOk(slot: Slot, record: Record, requests: map<RequestId, Request>, events: multiset<Event>,
                              who: RequestId, q: Request)
    requires RecordOk(slot, record, requests, events) && who !in requests
    ensures RecordOk(slot, record, requests[who := q], events)
  {
  }

  lemma ArriveKeepsInv(s: State, a: Action)
    requires Inv(s) && a.Arrive?
    ensures Inv(Apply(s, a))
  {
    hide RequestOk, RecordOk, FreeSlotOk;
    var s', q := Apply(s, a), Arrival(a.hash, a.key);
    if a.who !in s.requests {
      ArrivalOk(a.who, a.hash, a.key, Find(s.records, q), s.events);
      forall slot <- s'.records
        ensures RecordOk(slot, s'.records[slot], s'.requests, s'.events)
      {
        NewcomerKeepsRecordOk(slot, s.records[slot], s.requests, s.events, a.who, q);
      }
    }
  }

  lemma CutOffOk(q: Request, me: RequestId, found: Option<Record>, events: multiset<Event>)
    requires RequestOk(q, me, found, events)
    ensures RequestOk(q.(pc := Crashed(q.Working())), me, found, events)
  {
  }

  lemma CutOffKeepsRecordOk(slot: Slot, record: Record, requests: map<RequestId, Request>, events: multiset<Event>,
                            who: RequestId)
    requires RecordOk(slot, record, requests, events) && who in requests && !requests[who].Ended()
    ensures RecordOk(slot, record, requests[who := requests[who].(pc := Crashed(requests[who].Working()))], events)
  {
  }

  lemma CrashKeepsInv(s: State, a: Action)
    requires Inv(s) && a.Crash?
    ensures Inv(Apply(s, a))
  {
    hide RequestOk, RecordOk, FreeSlotOk;
    var s' := Apply(s, a);
    if a.who in s.requests && !s.requests[a.who].Ended() {
      var q := s.requests[a.who];
      CutOffOk(q, a.who, Find(s.records, q), s.events);
      forall slot <- s'.records
        ensures RecordOk(slot, s'.records[slot], s'.requests, s'.events)
      {
        CutOffKeepsRecordOk(slot, s.records[slot], s.requests, s.events, a.who);
      }
    }
  }

  lemma {:induction false} RunKeepsInv(actions: seq<Action>)
    ensures Inv(Run(actions))
  {
    if actions == [] {
    } else {
      RunKeepsInv(actions[..|actions| - 1]);
      ApplyKeepsInv(Run(actions[..|actions| - 1]), actions[|actions| - 1]);
    }
  }

  // ---------------------------------------------------------------------------------------
  // Safety of single states
  // ---------------------------------------------------------------------------------------

  /**
    In every interleaving, at most one live request per (scope, key) is between its claim and its
    completion or release, and while one is, the table holds that request's in-progress row.
   */
  lemma {:induction false} MutualExclusion(actions: seq<Action>, r1: RequestId, r2: RequestId)
    requires r1 in Run(actions).requests && r2 in Run(actions).requests
    requires Run(actions).requests[r1].Working() && Run(actions).requests[r2].Working()
    requires Run(actions).requests[r1].key.Some? && Run(actions).requests[r2].key.Some?
    requires Run(actions).requests[r1].Target() == Run(actions).requests[r2].Target()
    ensures r1 == r2
    ensures
      var s := Run(actions);
      var q := s.requests[r1];
      q.Target() in s.records
      && s.records[q.Target()].status == InProgress
      && s.records[q.Target()].hash == q.hash
  {
    RunKeepsInv(actions);
    var s := Run(actions);
    assert RequestOk(s.requests[r1], r1, Find(s.records, s.requests[r1]), s.events);
    assert RequestOk(s.requests[r2], r2, Find(s.records, s.requests[r2]), s.events);
  }

  /** The "record is None" branch of completion is never taken, and completing succeeds in completing. */
  lemma {:induction false} CompletionFindsItsRecord(actions: seq<Action>, r: RequestId, freshId: ImageId)
    requires r in Run(actions).requests && Run(actions).requests[r].pc.Complete?
    ensures Run(actions).requests[r].key.Some?
    ensures
      var s := Run(actions);
      var s' := Run(actions + [Call(r, Succeeds, freshId)]);
      var slot := s.requests[r].Target();
      && slot in s.records && s.records[slot].status == InProgress
      && s'.records == s.records[slot := s.records[slot].(status := Completed,
                                                           imageId := Some(s.requests[r].pc.completedId))]
  {
    RunKeepsInv(actions);
    var s := Run(actions);
    var longer := actions + [Call(r, Succeeds, freshId)];
    assert longer[..|longer| - 1] == actions;
    assert RequestOk(s.requests[r], r, Find(s.records, s.requests[r]), s.events);
  }

  /** All successful responses for one upload key carry the same image id, and come from equal requests. */
  lemma {:induction false} ResponsesAgree(actions: seq<Action>, r1: RequestId, r2: RequestId)
    requires r1 in Run(actions).requests && r2 in Run(actions).requests
    requires
      var q1, q2 := Run(actions).requests[r1], Run(actions).requests[r2];
      q1.key.Some? && q1.key == q2.key && q1.pc.Returned? && q2.pc.Returned?
      && q1.hash.UploadHash? && q2.hash.UploadHash?
    ensures
      var q1, q2 := Run(actions).requests[r1], Run(actions).requests[r2];
      q1.pc.result == q2.pc.result && q1.hash == q2.hash
  {
    RunKeepsInv(actions);
    var s := Run(actions);
    assert RequestOk(s.requests[r1], r1, Find(s.records, s.requests[r1]), s.events);
    assert RequestOk(s.requests[r2], r2, Find(s.records, s.requests[r2]), s.events);
  }

  /**
    The image rows ever saved under one upload key number at most one more than the completions
    that failed for it: with no failed completion, at most one row.
   */
  lemma RowsSavedPerKey(actions: seq<Action>, key: Key)
    ensures
      var events, slot := Run(actions).events, Slot(UploadScope, key);
      events[CompletionFailed(slot)] <= events[RowSaved(slot)] <= events[CompletionFailed(slot)] + 1
  {
    RunKeepsInv(actions);
    var s, slot := Run(actions), Slot(UploadScope, key);
    if slot in s.records {
      assert RecordOk(slot, s.records[slot], s.requests, s.events);
    } else {
      assert FreeSlotOk(slot, s.events);
    }
  }

  /** No record is completed twice: at most one execution per key ever completes it. */
  lemma CompletedAtMostOnce(actions: seq<Action>, slot: Slot)
    ensures
      var s := Run(actions);
      s.events[RecordCompleted(slot)] ==
        (if slot in s.records && s.records[slot].status == Completed then 1 else 0)
  {
    RunKeepsInv(actions);
    var s := Run(actions);
    if slot in s.records {
      assert RecordOk(slot, s.records[slot], s.requests, s.events);
    } else {
      assert FreeSlotOk(slot, s.events);
    }
  }

  /**
    A keyed processing request answers True, by its own work or by replay, only after an execution
    with the same key and image saved the status COMPLETED.
   */
  lemma {:induction false} TrueMeansProcessed(actions: seq<Action>, r: RequestId)
    requires r in Run(actions).requests && Run(actions).requests[r].key.Some?
    requires Run(actions).requests[r].pc == Returned(Processed(true))
    ensures
      var s := Run(actions);
      var q := s.requests[r];
      q.hash.ProcessHash? && CompletedSaved(q.Target(), q.hash.imageId) in s.events
  {
    RunKeepsInv(actions);
    var s := Run(actions);
    var q := s.requests[r];
    assert RequestOk(q, r, Find(s.records, q), s.events);
    assert RecordOk(q.Target(), s.records[q.Target()], s.requests, s.events);
  }

  /**
    Which keys are stuck, exactly.  A row is in progress on behalf of r if and only if r works on
    that slot, was cut off while working on it, or ended in one of the leaking exceptions: get_by_id
    failed, the thumbnail cleanup raised something other than OSError, the FAILED save failed, the
    release failed, or (processing only) the completion failed.
   */
  lemma {:induction false} InProgressExactly(actions: seq<Action>, slot: Slot, r: RequestId)
    requires r in Run(actions).requests
    ensures
      var s := Run(actions);
      var q := s.requests[r];
      (slot in s.records && s.records[slot].status == InProgress && s.records[slot].claimant == r)
      <==> (q.On(slot) && (q.Working() || q.pc == Crashed(true) || (q.pc.Raised? && Leaks(q.pc.cause))))
  {
    RunKeepsInv(actions);
    var s := Run(actions);
    var q := s.requests[r];
    assert RequestOk(q, r, Find(s.records, q), s.events);
    if slot in s.records {
      assert RecordOk(slot, s.records[slot], s.requests, s.events);
    }
  }

  /** An upload that ended without a crash has freed its key unless the release itself failed. */
  lemma {:induction false} FailedUploadFreesItsKey(actions: seq<Action>, r: RequestId, slot: Slot)
    requires r in Run(actions).requests && Run(actions).requests[r].hash.UploadHash?
    requires Run(actions).requests[r].pc.Raised? && Run(actions).requests[r].pc.cause != ReleaseFailed
    requires slot in Run(actions).records && Run(actions).records[slot].status == InProgress
    ensures Run(actions).records[slot].claimant != r
  {
    RunKeepsInv(actions);
    var s := Run(actions);
    assert RequestOk(s.requests[r], r, Find(s.records, s.requests[r]), s.events);
    InProgressExactly(actions, slot, r);
  }

  // ---------------------------------------------------------------------------------------
  // Whole runs
  // ---------------------------------------------------------------------------------------

  /** A step writes its slot only to claim it while free or to settle the actor's own claim. */
  lemma WritesOnlyOwnClaim(q: Request, me: RequestId, found: Option<Record>, rows: map<ImageId, Status>,
                           outcome: Outcome, freshId: ImageId, events: multiset<Event>)
    requires RequestOk(q, me, found, events) && found.Some?
    ensures Step(q, me, found, rows, outcome, freshId).op.Keep? || (q.Working() && found.value.claimant == me)
  {
  }

  /** One action never touches a settled row. */
  lemma ApplyKeepsSettled(s: State, a: Action, slot: Slot)
    requires Inv(s) && Settled(s, slot)
    ensures Settled(Apply(s, a), slot)
    ensures Apply(s, a).records[slot] == s.records[slot]
  {
    assert RecordOk(slot, s.records[slot], s.requests, s.events);
    if a.Call? && a.who in s.requests {
      var q := s.requests[a.who];
      var found := Find(s.records, q);
      assert RequestOk(q, a.who, found, s.events);
      var e := Step(q, a.who, found, s.images, a.outcome, a.freshId);
      if q.On(slot) {
        WritesOnlyOwnClaim(q, a.who, found, s.images, a.outcome, a.freshId, s.events);
      }
      EndedStays(q, a.who, found, s.images, a.outcome, a.freshId);
      PerformKeepsSettled(s, a.who, e, slot);
    }
  }

  lemma EndedStays(q: Request, me: RequestId, found: Option<Record>, rows: map<ImageId, Status>,
                   outcome: Outcome, freshId: ImageId)
    ensures q.Ended() ==> Step(q, me, found, rows, outcome, freshId).pc == q.pc
  {
  }

  lemma PerformKeepsSettled(s: State, who: RequestId, e: Effect, slot: Slot)
    requires Settled(s, slot) && who in s.requests
    requires s.requests[who].On(slot) ==> e.op.Keep?
    requires s.requests[who].Ended() ==> e.pc == s.requests[who].pc
    ensures Settled(Perform(s, who, e), slot)
    ensures Perform(s, who, e).records[slot] == s.records[slot]
  {
  }

  predicate Settled(s: State, slot: Slot) {
    && slot in s.records
    && (s.records[slot].status == Completed
        || (s.records[slot].claimant in s.requests && s.requests[s.records[slot].claimant].Abandoned()))
  }

  /** Over whole runs a completed row is never changed or removed, and neither is an abandoned one. */
  lemma {:induction false} SettledForever(before: seq<Action>, after: seq<Action>, slot: Slot)
    requires Settled(Run(before), slot)
    ensures Settled(Run(before + after), slot)
    ensures Run(before + after).records[slot] == Run(before).records[slot]
    decreases |after|
  {
    hide Apply, Settled, Inv;
    if after == [] {
      assert before + after == before;
    } else {
      var shorter, a := after[..|after| - 1], after[|after| - 1];
      SettledForever(before, shorter, slot);
      RunKeepsInv(before + shorter);
      Extend(before + shorter, a);
      assert before + after == before + shorter + [a];
      hide Run;
      SlotExists(Run(before + shorter), slot);
      ApplyKeepsSettled(Run(before + shorter), a, slot);
    }
  }

  lemma SlotExists(s: State, slot: Slot)
    requires Settled(s, slot)
    ensures slot in s.records
  {
  }

  /**
    Once an upload key is completed, a request with another payload never succeeds with it, before
    or after.
   */
  lemma OtherPayloadNeverSucceeds(before: seq<Action>, after: seq<Action>, key: Key, r: RequestId)
    requires
      var s, slot := Run(before), Slot(UploadScope, key);
      slot in s.records && s.records[slot].status == Completed
    requires
      var s := Run(before + after);
      r in s.requests && s.requests[r].hash.UploadHash? && s.requests[r].key == Some(key)
      && s.requests[r].hash != Run(before).records[Slot(UploadScope, key)].hash
    ensures !Run(before + after).requests[r].pc.Returned?
  {
    SettledForever(before, after, Slot(UploadScope, key));
    RunKeepsInv(before + after);
    var s := Run(before + after);
    assert RequestOk(s.requests[r], r, Find(s.records, s.requests[r]), s.events);
  }

  /**
    A leaked key is lost for good: after its claimant crashed or ended in a leaking exception, no
    request with that key ever succeeds.
   */
  lemma LeakedKeyNeverSucceeds(before: seq<Action>, after: seq<Action>, leaker: RequestId, r: RequestId)
    requires leaker in Run(before).requests
    requires Run(before).requests[leaker].key.Some? && Run(before).requests[leaker].Abandoned()
    requires r in Run(before + after).requests
    requires Run(before + after).requests[r].On(Run(before).requests[leaker].Target())
    ensures
      var pc := Run(before + after).requests[r].pc;
      pc.Returned? ==> pc.result == Processed(false)
  {
    RunKeepsInv(before);
    RunKeepsInv(before + after);
    var s, s' := Run(before), Run(before + after);
    var q := s.requests[leaker];
    assert RequestOk(q, leaker, Find(s.records, q), s.events);
    SettledForever(before, after, q.Target());
    assert RequestOk(s'.requests[r], r, Find(s'.records, s'.requests[r]), s'.events);
  }

  function At(s: State, r: RequestId, q: Request, pc: Pc): State {
    s.(requests := s.requests[r := q.(pc := pc)])
  }

  /** One call, as seen from the request that makes it. */
  lemma CallAt(s: State, r: RequestId, q: Request, pc: Pc, outcome: Outcome, id: ImageId)
    ensures
      var e := Step(q.(pc := pc), r, Find(s.records, q), s.images, outcome, id);
      Apply(At(s, r, q, pc), Call(r, outcome, id))
      == At(State(Store(s.records, q, e.op), e.rows, s.requests, EventsAfter(s.events, e.event)), r, q, e.pc)
  {
    hide Step;
    var q' := q.(pc := pc);
    assert Find(s.records, q') == Find(s.records, q) && q'.key == q.key && (q.key.Some? ==> q'.Target() == q.Target());
  }

  /** Three calls of a keyed upload on a free key: look up, claim, store the file. */
  lemma UploadUpToSave(s: State, r: RequestId, q: Request, id: ImageId)
    requires q.hash.UploadHash? && q.key.Some? && q.Target() !in s.records
    ensures
      var c := Call(r, Succeeds, id);
      Apply(Apply(Apply(At(s, r, q, Lookup(false)), c), c), c)
      == At(s.(records := s.records[q.Target() := Record(q.hash, InProgress, None, r)]), r, q, SaveRow)
  {
    hide Apply;
    CallAt(s, r, q, Lookup(false), Succeeds, id);
    CallAt(s, r, q, Claim, Succeeds, id);
    var t := s.(records := s.records[q.Target() := Record(q.hash, InProgress, None, r)]);
    CallAt(t, r, q, StoreFile, Succeeds, id);
  }

  /** Two more: save the row, publish the task. */
  lemma UploadUpToCompletion(s: State, r: RequestId, q: Request, id: ImageId)
    requires q.hash.UploadHash? && q.key.Some?
    ensures
      var c := Call(r, Succeeds, id);
      Apply(Apply(At(s, r, q, SaveRow), c), c)
      == At(s.(images := s.images[id := ImageEntity.Pending], events := s.events + multiset{RowSaved(q.Target())}),
            r, q, Complete(id))
  {
    hide Apply;
    CallAt(s, r, q, SaveRow, Succeeds, id);
    var t := s.(images := s.images[id := ImageEntity.Pending], events := s.events + multiset{RowSaved(q.Target())});
    CallAt(t, r, q, Publish(id), Succeeds, id);
  }

  /** The completion fails and the release succeeds. */
  lemma UploadFailsToComplete(s: State, r: RequestId, q: Request, id: ImageId)
    requires q.hash.UploadHash? && q.key.Some? && q.Target() in s.records
    ensures
      Apply(Apply(At(s, r, q, Complete(id)), Call(r, FailsOther, id)), Call(r, Succeeds, id))
      == At(s.(records := s.records - {q.Target()}, events := s.events + multiset{CompletionFailed(q.Target())}),
            r, q, Raised(WorkFailed))
  {
    hide Apply;
    CallAt(s, r, q, Complete(id), FailsOther, id);
    CallAt(s.(events := s.events + multiset{CompletionFailed(q.Target())}), r, q, Release(false), Succeeds, id);
  }

  lemma Extend(actions: seq<Action>, a: Action)
    ensures Run(actions + [a]) == Apply(Run(actions), a)
  {
    assert (actions + [a])[..|actions + [a]| - 1] == actions;
  }

  function RunFrom(s: State, actions: seq<Action>): State
    decreases |actions|
  {
    if actions == [] then s else RunFrom(Apply(s, actions[0]), actions[1..])
  }

  /** Running a list from the front or from the back is the same. */
  lemma {:induction false} RunAppends(before: seq<Action>, after: seq<Action>)
    ensures Run(before + after) == RunFrom(Run(before), after)
    decreases |after|
  {
    hide Apply, Run, RunFrom;
    if after == [] {
      assert before + after == before;
      NoSteps(Run(before));
    } else {
      Extend(before, after[0]);
      RunAppends(before + [after[0]], after[1..]);
      assert before + [after[0]] + after[1..] == before + after;
      FirstStep(Run(before), after);
    }
  }

  lemma NoSteps(s: State)
    ensures RunFrom(s, []) == s
  {
  }

  lemma FirstStep(s: State, actions: seq<Action>)
    requires actions != []
    ensures RunFrom(s, actions) == RunFrom(Apply(s, actions[0]), actions[1..])
  {
    hide Apply;
  }

  lemma {:induction false} RunFromExtend(s: State, actions: seq<Action>, a: Action)
    ensures RunFrom(s, actions + [a]) == Apply(RunFrom(s, actions), a)
    decreases |actions|
  {
    hide Apply, RunFrom;
    FirstStep(s, actions + [a]);
    if actions == [] {
      assert (actions + [a])[1..] == [];
      NoSteps(s);
      NoSteps(Apply(s, a));
    } else {
      assert (actions + [a])[1..] == actions[1..] + [a];
      RunFromExtend(Apply(s, actions[0]), actions[1..], a);
      FirstStep(s, actions);
    }
  }

  lemma {:induction false} RunFromAppends(s: State, first: seq<Action>, second: seq<Action>)
    ensures RunFrom(s, first + second) == RunFrom(RunFrom(s, first), second)
    decreases |first|
  {
    hide Apply, RunFrom;
    if first == [] {
      assert first + second == second;
      NoSteps(s);
    } else {
      assert (first + second)[1..] == first[1..] + second;
      FirstStep(s, first + second);
      FirstStep(s, first);
      RunFromAppends(Apply(s, first[0]), first[1..], second);
    }
  }

  lemma TwoSteps(s: State, a: Action, b: Action)
    ensures RunFrom(s, [a, b]) == Apply(Apply(s, a), b)
  {
    assert [a, b][1..] == [b];
    assert [b][1..] == [];
    assert RunFrom(Apply(s, a), [b]) == RunFrom(Apply(Apply(s, a), b), []);
  }

  lemma ThreeSteps(s: State, a: Action, b: Action, c: Action)
    ensures RunFrom(s, [a, b, c]) == Apply(Apply(Apply(s, a), b), c)
  {
    assert [a, b, c][1..] == [b, c];
    TwoSteps(Apply(s, a), b, c);
  }

  /** From a free key, an upload gets as far as its completion call. */
  lemma UploadReachesCompletion(before: seq<Action>, r: RequestId, h: RequestHash, key: Key, id: ImageId)
    returns (actions: seq<Action>)
    requires h.UploadHash? && Slot(UploadScope, key) !in Run(before).records && r !in Run(before).requests
    ensures
      var s, slot := Run(before), Slot(UploadScope, key);
      Run(actions) == State(s.records[slot := Record(h, InProgress, None, r)], s.images[id := ImageEntity.Pending],
                            s.requests[r := Request(h, Some(key), Complete(id))],
                            s.events + multiset{RowSaved(slot)})
  {
    var s, q, c := Run(before), Request(h, Some(key), Lookup(false)), Call(r, Succeeds, id);
    var t := s.(records := s.records[q.Target() := Record(h, InProgress, None, r)]);
    var a1 := before + [Arrive(r, h, Some(key))];
    Extend(before, Arrive(r, h, Some(key)));
    assert Run(a1) == At(s, r, q, Lookup(false));
    var a2 := a1 + [c, c, c];
    assert Run(a2) == At(t, r, q, SaveRow) by {
      RunAppends(a1, [c, c, c]);
      ThreeSteps(Run(a1), c, c, c);
      UploadUpToSave(s, r, q, id);
    }
    actions := a2 + [c, c];
    RunAppends(a2, [c, c]);
    TwoSteps(Run(a2), c, c);
    UploadUpToCompletion(t, r, q, id);
  }

  /** At its completion call an upload can fail and release its key. */
  lemma UploadLosesItsCompletion(before: seq<Action>, r: RequestId, q: Request, id: ImageId)
    returns (actions: seq<Action>)
    requires q.hash.UploadHash? && q.key.Some? && q.Target() in Run(before).records
    requires r in Run(before).requests && Run(before).requests[r] == q && q.pc == Complete(id)
    ensures
      var s := Run(before);
      Run(actions) == State(s.records - {q.Target()}, s.images, s.requests[r := q.(pc := Raised(WorkFailed))],
                            s.events + multiset{CompletionFailed(q.Target())})
  {
    var s, fail, ok := Run(before), Call(r, FailsOther, id), Call(r, Succeeds, id);
    actions := before + [fail, ok];
    RunAppends(before, [fail, ok]);
    TwoSteps(s, fail, ok);
    assert At(s, r, q, Complete(id)) == s;
    UploadFailsToComplete(s, r, q, id);
  }

  lemma NothingRun()
    ensures Run([]) == Init
  {
  }

  /** The bound on saved rows is reached: one failed completion lets a retry save a second row. */
  lemma RetryAfterFailedCompletionSavesTwice(h: RequestHash, key: Key)
    requires h.UploadHash?
    ensures exists actions: seq<Action> ::
              Run(actions).events[RowSaved(Slot(UploadScope, key))] == 2
              && Run(actions).events[CompletionFailed(Slot(UploadScope, key))] == 1
              && |Run(actions).images| == 2
  {
    hide Run, Apply, Step;
    NothingRun();
    var first := UploadReachesCompletion([], 0, h, key, 7);
    var released := UploadLosesItsCompletion(first, 0, Request(h, Some(key), Complete(7)), 7);
    var second := UploadReachesCompletion(released, 1, h, key, 8);
    assert Run(second).images == map[7 := ImageEntity.Pending, 8 := ImageEntity.Pending];
  }

  // ---------------------------------------------------------------------------------------
  // What lookups answer
  // ---------------------------------------------------------------------------------------

  /** The lookup itself, whatever the record. */
  lemma LookupStep(q: Request, me: RequestId, found: Option<Record>, rows: map<ImageId, Status>, outcome: Outcome,
                   freshId: ImageId)
    requires q.pc.Lookup?
    ensures
      var e := Step(q, me, found, rows, outcome, freshId);
      && e.op.Keep? && e.rows == rows && e.event.None?
      && (!outcome.Succeeds? ==> e.pc == Raised(LookupFailed))
      && (outcome.Succeeds? && found.None? ==> e.pc == if q.pc.again then Raised(AlreadyInProgress) else Claim)
      && (outcome.Succeeds? && found.Some? && found.value.hash != q.hash ==> e.pc == Raised(Conflict))
      && (outcome.Succeeds? && found.Some? && found.value.hash == q.hash && found.value.status == InProgress ==>
            e.pc == Raised(AlreadyInProgress))
  {
  }

  /**
    In every run, for both scopes, a lookup changes no table, and a request that finds its key in progress
    is told so when it is the same request, and gets a conflict when it is another; a request that finds
    no record goes on to claim the key, or, when it has just been beaten to it, is told it is in progress.
   */
  lemma {:induction false} LookupIsAnswered(actions: seq<Action>, r: RequestId, outcome: Outcome, freshId: ImageId)
    requires r in Run(actions).requests && Run(actions).requests[r].pc.Lookup?
    ensures Run(actions).requests[r].key.Some?
    ensures
      var s, s' := Run(actions), Run(actions + [Call(r, outcome, freshId)]);
      var q, slot := s.requests[r], s.requests[r].Target();
      && s'.records == s.records && s'.images == s.images && s'.events == s.events
      && r in s'.requests
      && var pc := s'.requests[r].pc;
         && (!outcome.Succeeds? ==> pc == Raised(LookupFailed))
         && (outcome.Succeeds? && slot !in s.records ==> pc == if q.pc.again then Raised(AlreadyInProgress) else Claim)
         && (outcome.Succeeds? && slot in s.records && s.records[slot].hash != q.hash ==> pc == Raised(Conflict))
         && (outcome.Succeeds? && slot in s.records && s.records[slot].hash == q.hash && s.records[slot].status == InProgress ==>
               pc == Raised(AlreadyInProgress))
  {
    var s := Run(actions);
    var q := s.requests[r];
    RunKeepsInv(actions);
    assert RequestOk(q, r, Find(s.records, q), s.events);
    Extend(actions, Call(r, outcome, freshId));
    hide Run, Inv;
    LookupStep(q, r, Find(s.records, q), s.images, outcome, freshId);
    hide Step, RequestOk;
  }

  // ---------------------------------------------------------------------------------------
  // Duplicate requests
  // ---------------------------------------------------------------------------------------

  /** Where a request that arrives after its key was completed can stand. */
  predicate Answering(q: Request, record: Record) {
    match q.pc
    case Lookup(again) => !again
    case ReplayFetch(id) => q.hash.UploadHash? && q.hash == record.hash && record.imageId == Some(id)
    case Returned(result) =>
      q.hash == record.hash
      && if q.hash.UploadHash? then result.Response? && record.imageId == Some(result.imageId)
         else result == Processed(true)
    case Raised(cause) =>
      cause.LookupFailed? || cause.ReplayFetchFailed? || cause.Conflict?
    case Crashed(holding) => !holding
    case _ => false
  }

  /** Its next call: look the record up; an upload then fetches the recorded image. */
  function NextAnswer(q: Request, record: Record, images: map<ImageId, Status>, ok: bool): Pc
    requires record.imageId.Some?
  {
    match q.pc
    case Lookup(_) =>
      if !ok then Raised(LookupFailed)
      else if record.hash != q.hash then Raised(Conflict)
      else if q.hash.UploadHash? then ReplayFetch(record.imageId.value)
      else Returned(Processed(true))
    case ReplayFetch(id) =>
      if !ok then Raised(ReplayFetchFailed) else if id in images then Returned(Response(id)) else Raised(Conflict)
    case _ => q.pc
  }

  predicate CompletedRecord(record: Record) {
    record.status == Completed && record.imageId.Some?
  }

  lemma StepAnswers(q: Request, me: RequestId, record: Record, rows: map<ImageId, Status>, outcome: Outcome,
                    freshId: ImageId)
    requires CompletedRecord(record) && Answering(q, record)
    ensures
      var e := Step(q, me, Some(record), rows, outcome, freshId);
      && e.op.Keep? && e.rows == rows && e.event.None? && e.pc == NextAnswer(q, record, rows, outcome.Succeeds?)
      && Answering(q.(pc := e.pc), record)
  {
  }

  lemma ApplyKeepsAnswering(s: State, a: Action, slot: Slot, r: RequestId)
    requires slot in s.records && CompletedRecord(s.records[slot])
    requires r in s.requests && s.requests[r].On(slot) ==> Answering(s.requests[r], s.records[slot])
    ensures
      var s' := Apply(s, a);
      r in s'.requests && s'.requests[r].On(slot) ==> Answering(s'.requests[r], s.records[slot])
  {
    if a.Call? && a.who == r && r in s.requests && s.requests[r].On(slot) {
      StepAnswers(s.requests[r], r, s.records[slot], s.images, a.outcome, a.freshId);
      hide Step;
    } else {
      hide Step, Store;
    }
  }

  lemma CompletedIsSettled(s: State, slot: Slot)
    requires Inv(s) && slot in s.records && s.records[slot].status == Completed
    ensures Settled(s, slot) && CompletedRecord(s.records[slot])
  {
    assert RecordOk(slot, s.records[slot], s.requests, s.events);
  }

  lemma {:induction false} LateRequestAnswers(before: seq<Action>, after: seq<Action>, slot: Slot, r: RequestId)
    requires r !in Run(before).requests && slot in Run(before).records
    requires Run(before).records[slot].status == Completed
    ensures
      var s, s' := Run(before), Run(before + after);
      && slot in s'.records && s'.records[slot] == s.records[slot] && CompletedRecord(s.records[slot])
      && (r in s'.requests && s'.requests[r].On(slot) ==> Answering(s'.requests[r], s.records[slot]))
  {
    RunKeepsInv(before);
    hide Run, Apply, Inv, Answering, Settled, CompletedRecord;
    CompletedIsSettled(Run(before), slot);
    SettledForever(before, after, slot);
    SlotExists(Run(before + after), slot);
    if after == [] {
      assert before + after == before;
    } else {
      var shorter, a := after[..|after| - 1], after[|after| - 1];
      LateRequestAnswers(before, shorter, slot, r);
      assert before + after == before + shorter + [a];
      Extend(before + shorter, a);
      ApplyKeepsAnswering(Run(before + shorter), a, slot, r);
    }
  }

  /**
    What a request gets that arrives after its key was completed, in every interleaving: it never works
    on the key, and each of its calls leaves every table alone.  Its lookup raises a conflict for another
    request, answers True to the same processing request, and sends the same upload to fetch the recorded
    image, which it returns if it exists then, a conflict otherwise; or the call itself fails.
   */
  lemma {:induction false} DuplicateIsAnswered(before: seq<Action>, after: seq<Action>, slot: Slot, r: RequestId,
                                               outcome: Outcome, freshId: ImageId)
    requires r !in Run(before).requests && slot in Run(before).records
    requires Run(before).records[slot].status == Completed
    requires r in Run(before + after).requests && Run(before + after).requests[r].On(slot)
    ensures
      var record, s := Run(before).records[slot], Run(before + after);
      var q, s' := s.requests[r], Run(before + after + [Call(r, outcome, freshId)]);
      && CompletedRecord(record) && Answering(q, record)
      && s'.records == s.records && s'.images == s.images && s'.events == s.events
      && r in s'.requests
      && var pc, ok := s'.requests[r].pc, outcome.Succeeds?;
         && (q.pc.Lookup? && !ok ==> pc == Raised(LookupFailed))
         && (q.pc.Lookup? && ok && q.hash != record.hash ==> pc == Raised(Conflict))
         && (q.pc.Lookup? && ok && q.hash == record.hash && q.hash.ProcessHash? ==> pc == Returned(Processed(true)))
         && (q.pc.Lookup? && ok && q.hash == record.hash && q.hash.UploadHash? ==> pc == ReplayFetch(record.imageId.value))
         && (q.pc.ReplayFetch? && !ok ==> pc == Raised(ReplayFetchFailed))
         && (q.pc.ReplayFetch? && ok ==>
               pc == if record.imageId.value in s.images then Returned(Response(record.imageId.value)) else Raised(Conflict))
         && (q.Ended() ==> pc == q.pc)
  {
    var s := Run(before + after);
    hide Run;
    LateRequestAnswers(before, after, slot, r);
    Extend(before + after, Call(r, outcome, freshId));
    StepAnswers(s.requests[r], r, s.records[slot], s.images, outcome, freshId);
    hide Step;
  }
}
