/**
  Whole runs of the pipeline: uploads publish tasks, the worker steps through the processing queue,
  and replay runs feed dead letters back.
 */
module TaskPipeline {
  import opened Basics
  import opened TaskMessages
  import opened MessageBroker
  import opened ProcessingWorker
  import DlqReplay

  /** The two queues, and a ledger of what became of the tasks. */
  datatype State = State(
    processing: seq<Message>, dlq: seq<Message>,
    published: multiset<ImageId>,   // by uploads
    finished: multiset<ImageId>,    // processing returned without an exception
    lost: multiset<ImageId>,        // consumed, failed, and nothing published in its place
    cursor: nat,                    // the dead letters at the front that the replay run in progress has handled
    duplicated: multiset<ImageId>,  // sent by a replay run that did not commit the record
    ran: seq<Task>,                 // the tasks handed to processing, in order
    slept: real)                    // the worker's backoff so far

  const Init := State([], [], multiset{}, multiset{}, multiset{}, 0, multiset{}, [], 0.0)

  datatype Action =
    | Upload(id: ImageId)
    | Work(weather: Weather)
    | ReplayNext(sendUp: bool)  // the replay run takes up the next dead letter; a failing send ends the run
    | ReplayCommit
    | ReplayStop                // the run ends without committing: a failing commit, or a crash

  /** The dead letters as processing-topic messages, skipping those that cannot be replayed. */
  function Replayed(c: Codec, letters: seq<Message>): seq<Message> {
    if letters == [] then []
    else
      var back := Replay(c, letters[|letters| - 1].value);
      Replayed(c, letters[..|letters| - 1])
      + (if back.Some? then [Message(PROCESSING_TOPIC, back.value.key, back.value.value)] else [])
  }

  /** The image a dead letter stands for once replayed. */
  function DeadTask(c: Codec, letter: Message): Option<Task> {
    var back := Replay(c, letter.value);
    if back.None? then None else Parse(c, back.value.value)
  }

  function Parsed(c: Codec, m: Message): Option<Task> {
    Parse(c, m.value)
  }

  function Live(c: Codec, queue: seq<Message>): (tasks: seq<Option<Task>>)
    ensures |tasks| == |queue| && forall i :: 0 <= i < |queue| ==> tasks[i] == Parsed(c, queue[i])
  {
    seq(|queue|, i requires 0 <= i < |queue| => Parsed(c, queue[i]))
  }

  function Dead(c: Codec, letters: seq<Message>): (tasks: seq<Option<Task>>)
    ensures |tasks| == |letters| && forall i :: 0 <= i < |letters| ==> tasks[i] == DeadTask(c, letters[i])
  {
    seq(|letters|, i requires 0 <= i < |letters| => DeadTask(c, letters[i]))
  }

  function Is(task: Option<Task>, id: ImageId): nat {
    if task.Some? && task.value.imageId == id then 1 else 0
  }

  /** How many of the tasks are for the image. */
  function Count(tasks: seq<Option<Task>>, id: ImageId): nat {
    if tasks == [] then 0 else Count(tasks[..|tasks| - 1], id) + Is(tasks[|tasks| - 1], id)
  }

  lemma {:induction false} CountConcat(a: seq<Option<Task>>, b: seq<Option<Task>>, id: ImageId)
    ensures Count(a + b, id) == Count(a, id) + Count(b, id)
    decreases |b|
  {
    if b == [] {
      assert a + b == a;
    } else {
      CountConcat(a, b[..|b| - 1], id);
      assert (a + b)[..|a + b| - 1] == a + b[..|b| - 1];
    }
  }

  function One(task: Option<Task>): multiset<ImageId> {
    if task.Some? then multiset{task.value.imageId} else multiset{}
  }

  function Ids(tasks: seq<Option<Task>>): multiset<ImageId> {
    if tasks == [] then multiset{} else Ids(tasks[..|tasks| - 1]) + One(tasks[|tasks| - 1])
  }

  lemma {:induction false} IdsCount(tasks: seq<Option<Task>>, id: ImageId)
    ensures Ids(tasks)[id] == Count(tasks, id)
  {
    if tasks != [] {
      IdsCount(tasks[..|tasks| - 1], id);
    }
  }

  /** One worker step; nothing happens on an empty queue. */
  function WorkStep(c: Codec, config: Config, s: State, weather: Weather): State {
    if s.processing == [] then s else Settle(config, s, Handle(c, config, s.processing[0], weather))
  }

  /** The dead letters that the replay run in progress has not handled. */
  function Unreplayed(s: State): seq<Message> {
    if s.cursor <= |s.dlq| then s.dlq[s.cursor..] else []
  }

  /** A run that ends without committing leaves what it handled for the next run. */
  function Abandon(c: Codec, s: State): State {
    if s.cursor <= |s.dlq| then
      s.(cursor := 0, duplicated := s.duplicated + Ids(Dead(c, s.dlq[..s.cursor])))
    else s
  }

  function ReplayStep(c: Codec, s: State, sendUp: bool): State {
    if s.cursor >= |s.dlq| then s
    else
      var messages := Replayed(c, [s.dlq[s.cursor]]);
      if messages != [] && !sendUp then Abandon(c, s)
      else s.(processing := s.processing + messages, cursor := s.cursor + 1)
  }

  function Apply(c: Codec, config: Config, s: State, a: Action): State {
    match a
    case Upload(id) =>
      s.(processing := s.processing + [UploadMessage(c, id)], published := s.published + multiset{id})
    case Work(weather) => WorkStep(c, config, s, weather)
    case ReplayNext(sendUp) => ReplayStep(c, s, sendUp)
    case ReplayCommit => s.(dlq := Unreplayed(s), cursor := 0)
    case ReplayStop => Abandon(c, s)
  }

  function Run(c: Codec, config: Config, actions: seq<Action>): State {
    if actions == [] then Init
    else Apply(c, config, Run(c, config, actions[..|actions| - 1]), actions[|actions| - 1])
  }

  // ---------------------------------------------------------------------------------------
  // Every message descended from an upload
  // ---------------------------------------------------------------------------------------

  /** A live task: it parses, its attempt is within bounds, and its key is the image id text. */
  predicate GoodTask(c: Codec, config: Config, m: Message) {
    var task := Parse(c, m.value);
    task.Some? && task.value.attempt <= config.maxAttempts && m.key == c.showId(task.value.imageId)
  }

  /** A dead task: it replays to a live task at attempt 0 with the same key. */
  predicate GoodLetter(c: Codec, letter: Message) {
    var back := Replay(c, letter.value);
    && back.Some?
    && var task := Parse(c, back.value.value);
       task.Some? && task.value.attempt == 0
       && letter.key == c.showId(task.value.imageId) && back.value.key == letter.key
  }

  /** The image's tasks that wait, are dead and not being replayed, finished or were lost. */
  function Accounted(c: Codec, s: State, id: ImageId): nat {
    Count(Live(c, s.processing), id) + Count(Dead(c, Unreplayed(s)), id) + s.finished[id] + s.lost[id]
  }

  ghost predicate Inv(c: Codec, config: Config, s: State) {
    && s.cursor <= |s.dlq|
    && (forall m <- s.processing :: GoodTask(c, config, m))
    && (forall m <- s.dlq :: GoodLetter(c, m))
    && (forall id: ImageId :: Accounted(c, s, id) == s.published[id] + s.duplicated[id])
  }

  lemma LiveConcat(c: Codec, a: seq<Message>, b: seq<Message>, id: ImageId)
    ensures Count(Live(c, a + b), id) == Count(Live(c, a), id) + Count(Live(c, b), id)
  {
    assert Live(c, a + b) == Live(c, a) + Live(c, b);
    CountConcat(Live(c, a), Live(c, b), id);
  }

  lemma DeadConcat(c: Codec, a: seq<Message>, b: seq<Message>, id: ImageId)
    ensures Count(Dead(c, a + b), id) == Count(Dead(c, a), id) + Count(Dead(c, b), id)
  {
    assert Dead(c, a + b) == Dead(c, a) + Dead(c, b);
    CountConcat(Dead(c, a), Dead(c, b), id);
  }

  lemma CountSingle(task: Option<Task>, id: ImageId)
    ensures Count([task], id) == Is(task, id)
  {
    assert [task][..0] == [];
  }

  /** Replaying good letters restores exactly the tasks they stand for, each live again. */
  lemma {:induction false} ReplayedTasks(c: Codec, config: Config, letters: seq<Message>)
    requires forall m <- letters :: GoodLetter(c, m)
    ensures Live(c, Replayed(c, letters)) == Dead(c, letters)
    ensures forall m <- Replayed(c, letters) :: GoodTask(c, config, m)
  {
    if letters == [] {
    } else {
      var init, last := letters[..|letters| - 1], letters[|letters| - 1];
      ReplayedTasks(c, config, init);
      assert GoodLetter(c, last);
      var back := Replay(c, last.value);
      var m := Message(PROCESSING_TOPIC, back.value.key, back.value.value);
      assert Replayed(c, letters) == Replayed(c, init) + [m];
      assert GoodTask(c, config, m);
      assert Parsed(c, m) == DeadTask(c, last);
    }
  }

  lemma OneOnTopic(m: Message, topic: string)
    ensures OnTopic([m], topic) == if m.topic == topic then [m] else []
    ensures OnTopic([], topic) == []
  {
    assert [m][..0] == [];
  }

  /** Dead-lettering a live task leaves a letter that stands for the same image. */
  lemma BuriedIsGoodLetter(c: Codec, config: Config, m: Message, weather: Weather, reason: string, error: string,
                           payload: Fields, attempt: int)
    requires Lawful(c) && GoodTask(c, config, m)
    requires payload == Parse(c, m.value).value.payload
             || payload == RetryFields(c, Parse(c, m.value).value.imageId, attempt)
    ensures
      var letter := DeadLetter(c, config.dlqTopic, m, weather.now, reason, error, payload);
      GoodLetter(c, letter) && DeadTask(c, letter).Some?
      && DeadTask(c, letter).value.imageId == Parse(c, m.value).value.imageId
  {
    var id := Parse(c, m.value).value.imageId;
    assert c.parseId(c.showId(id)) == Some(id) && c.showId(id) != "";
    DeadLetterRoundTrip(c, config.dlqTopic, m, weather.now, reason, error, payload, attempt);
  }

  lemma RetryIsGoodTask(c: Codec, config: Config, m: Message)
    requires Lawful(c) && GoodTask(c, config, m) && Parse(c, m.value).value.attempt < config.maxAttempts
    ensures
      var task := Parse(c, m.value).value;
      var retry := RetryMessage(c, m, task.imageId, task.attempt + 1);
      GoodTask(c, config, retry) && Parsed(c, retry).Some?
      && Parsed(c, retry).value.imageId == task.imageId && Parsed(c, retry).value.attempt == task.attempt + 1
  {
    var task := Parse(c, m.value).value;
    assert c.showId(task.imageId) != "";
    RetryMessageParses(c, m, task.imageId, task.attempt + 1);
  }

  /** What one step makes of a live task: one live message, one dead letter, or a ledger entry. */
  predicate Conserved(c: Codec, config: Config, m: Message, h: Handled) {
    var task := Parsed(c, m);
    && task.Some? && h.ran == task
    && match h.fate
       case Finished => h.published == []
       case Lost => h.published == []
       case Retried =>
         |h.published| == 1 && h.published[0].topic == PROCESSING_TOPIC
         && GoodTask(c, config, h.published[0])
         && Parsed(c, h.published[0]).value.imageId == task.value.imageId
         && Parsed(c, h.published[0]).value.attempt == task.value.attempt + 1
       case DeadLettered =>
         |h.published| == 1 && h.published[0].topic == config.dlqTopic
         && GoodLetter(c, h.published[0])
         && DeadTask(c, h.published[0]).value.imageId == task.value.imageId
  }

  lemma HandleConserves(c: Codec, config: Config, m: Message, weather: Weather)
    requires Lawful(c) && GoodTask(c, config, m)
    ensures Conserved(c, config, m, Handle(c, config, m, weather))
  {
    hide Parse, Lawful, Pow2, GoodLetter, DeadTask;
    var task := Parse(c, m.value).value;
    if weather.processingError.Some? {
      if task.attempt < config.maxAttempts {
        RetryIsGoodTask(c, config, m);
        if weather.retryError.Some? {
          BuriedIsGoodLetter(c, config, m, weather, "retry_publish_failed", weather.retryError.value,
                             RetryFields(c, task.imageId, task.attempt + 1), task.attempt + 1);
        }
      } else {
        BuriedIsGoodLetter(c, config, m, weather, "retries_exhausted", weather.processingError.value,
                           task.payload, 0);
      }
    }
  }

  /** The queues and the ledger after a step on m, given what the step did. */
  function Settle(config: Config, s: State, h: Handled): State
    requires s.processing != []
  {
    s.(processing := s.processing[1..] + OnTopic(h.published, PROCESSING_TOPIC),
       dlq := s.dlq + OnTopic(h.published, config.dlqTopic),
       finished := s.finished + (if h.fate.Finished? then One(h.ran) else multiset{}),
       lost := s.lost + (if h.fate.Lost? then One(h.ran) else multiset{}),
       ran := s.ran + (if h.ran.Some? then [h.ran.value] else []),
       slept := s.slept + h.slept)
  }

  /** The worker's step on the broker's queues is the pipeline's step on the two topics. */
  lemma WorkerStepIsPipelineStep(c: Codec, config: Config, s: State, queues: Queues, weather: Weather)
    requires config.dlqTopic != PROCESSING_TOPIC && Waiting(queues, PROCESSING_TOPIC) != []
    requires s.processing == Waiting(queues, PROCESSING_TOPIC) && s.dlq == Waiting(queues, config.dlqTopic)
    ensures
      var h := Handle(c, config, s.processing[0], weather);
      var queues' := AppendAll(queues[PROCESSING_TOPIC := s.processing[1..]], h.published);
      var s' := WorkStep(c, config, s, weather);
      && s'.processing == Waiting(queues', PROCESSING_TOPIC) && s'.dlq == Waiting(queues', config.dlqTopic)
      && s'.slept == s.slept + h.slept
  {
    hide Handle;
    var h := Handle(c, config, s.processing[0], weather);
    var consumed := queues[PROCESSING_TOPIC := s.processing[1..]];
    AppendAllByTopic(consumed, h.published, PROCESSING_TOPIC);
    AppendAllByTopic(consumed, h.published, config.dlqTopic);
  }

  lemma LiveSingle(c: Codec, m: Message, id: ImageId)
    ensures Count(Live(c, [m]), id) == Is(Parsed(c, m), id)
    ensures Count(Dead(c, [m]), id) == Is(DeadTask(c, m), id)
    ensures Count(Live(c, []), id) == 0 && Count(Dead(c, []), id) == 0
  {
    assert Live(c, [m]) == [Parsed(c, m)] && Dead(c, [m]) == [DeadTask(c, m)];
    CountSingle(Parsed(c, m), id);
    CountSingle(DeadTask(c, m), id);
  }

  /** Whatever the step published or recorded stands for the one task it consumed. */
  lemma PublishedStandsForConsumed(c: Codec, config: Config, m: Message, h: Handled, id: ImageId)
    requires Conserved(c, config, m, h) && config.dlqTopic != PROCESSING_TOPIC
    ensures Count(Live(c, OnTopic(h.published, PROCESSING_TOPIC)), id)
            + Count(Dead(c, OnTopic(h.published, config.dlqTopic)), id)
            + (if h.fate.Finished? || h.fate.Lost? then Is(h.ran, id) else 0)
            == Is(Parsed(c, m), id)
  {
    if h.published == [] {
      LiveSingle(c, m, id);
    } else {
      PublishedOne(c, config, m, h.published[0], h, id);
    }
  }

  lemma PublishedOne(c: Codec, config: Config, m: Message, out: Message, h: Handled, id: ImageId)
    requires Conserved(c, config, m, h) && config.dlqTopic != PROCESSING_TOPIC
    requires h.published != [] && out == h.published[0]
    ensures Count(Live(c, OnTopic(h.published, PROCESSING_TOPIC)), id)
            + Count(Dead(c, OnTopic(h.published, config.dlqTopic)), id)
            == Is(Parsed(c, m), id)
  {
    assert h.published == [out];
    var live, dead := OnTopic([out], PROCESSING_TOPIC), OnTopic([out], config.dlqTopic);
    OneOnTopic(out, PROCESSING_TOPIC);
    OneOnTopic(out, config.dlqTopic);
    LiveSingle(c, out, id);
    if h.fate.Retried? {
      assert live == [out] && dead == [];
      assert Is(Parsed(c, out), id) == Is(Parsed(c, m), id);
    } else {
      assert live == [] && dead == [out];
      assert Is(DeadTask(c, out), id) == Is(Parsed(c, m), id);
    }
  }

  lemma LiveFront(c: Codec, queue: seq<Message>, id: ImageId)
    requires queue != []
    ensures Count(Live(c, queue), id) == Is(Parsed(c, queue[0]), id) + Count(Live(c, queue[1..]), id)
  {
    hide Count, Live, Dead, Parsed;
    assert queue == [queue[0]] + queue[1..];
    LiveConcat(c, [queue[0]], queue[1..], id);
    LiveSingle(c, queue[0], id);
  }

  /** What a step adds to the counts. */
  lemma SettledCounts(c: Codec, config: Config, s: State, h: Handled, id: ImageId)
    requires s.processing != [] && s.cursor <= |s.dlq|
    ensures
      var s' := Settle(config, s, h);
      && Count(Live(c, s'.processing), id)
         == Count(Live(c, s.processing[1..]), id) + Count(Live(c, OnTopic(h.published, PROCESSING_TOPIC)), id)
      && Count(Dead(c, Unreplayed(s')), id)
         == Count(Dead(c, Unreplayed(s)), id) + Count(Dead(c, OnTopic(h.published, config.dlqTopic)), id)
      && s'.finished[id] + s'.lost[id]
         == s.finished[id] + s.lost[id] + (if h.fate.Finished? || h.fate.Lost? then Is(h.ran, id) else 0)
  {
    hide Count, Live, Dead, OnTopic;
    var s', dead := Settle(config, s, h), OnTopic(h.published, config.dlqTopic);
    LiveConcat(c, s.processing[1..], OnTopic(h.published, PROCESSING_TOPIC), id);
    assert Unreplayed(s') == Unreplayed(s) + dead;
    DeadConcat(c, Unreplayed(s), dead, id);
  }

  lemma SettleConserves(c: Codec, config: Config, s: State, h: Handled, id: ImageId)
    requires s.processing != [] && Conserved(c, config, s.processing[0], h) && config.dlqTopic != PROCESSING_TOPIC
    requires s.cursor <= |s.dlq|
    ensures Accounted(c, Settle(config, s, h), id) == Accounted(c, s, id)
  {
    hide Conserved, Count, Live, Dead, OnTopic, Settle, Unreplayed;
    LiveFront(c, s.processing, id);
    SettledCounts(c, config, s, h, id);
    PublishedStandsForConsumed(c, config, s.processing[0], h, id);
  }

  lemma SettleKeepsMessagesGood(c: Codec, config: Config, s: State, h: Handled)
    requires s.processing != [] && Conserved(c, config, s.processing[0], h) && config.dlqTopic != PROCESSING_TOPIC
    requires forall m <- s.processing :: GoodTask(c, config, m)
    requires forall m <- s.dlq :: GoodLetter(c, m)
    ensures forall m <- Settle(config, s, h).processing :: GoodTask(c, config, m)
    ensures forall m <- Settle(config, s, h).dlq :: GoodLetter(c, m)
  {
    if h.published != [] {
      var out := h.published[0];
      assert h.published == [out];
      OneOnTopic(out, PROCESSING_TOPIC);
      OneOnTopic(out, config.dlqTopic);
    }
  }

  lemma WorkKeepsInv(c: Codec, config: Config, s: State, weather: Weather)
    requires Lawful(c) && Inv(c, config, s) && config.dlqTopic != PROCESSING_TOPIC
    ensures Inv(c, config, WorkStep(c, config, s, weather))
  {
    if s.processing != [] {
      var h := Handle(c, config, s.processing[0], weather);
      HandleConserves(c, config, s.processing[0], weather);
      SettleKeepsMessagesGood(c, config, s, h);
      forall id: ImageId
        ensures Accounted(c, Settle(config, s, h), id) == s.published[id] + s.duplicated[id]
      {
        SettleConserves(c, config, s, h, id);
        assert Accounted(c, s, id) == s.published[id] + s.duplicated[id];
      }
    }
  }

  /** Taking up the next dead letter moves its task from the dead to the living. */
  lemma ReplayNextConserves(c: Codec, config: Config, s: State, id: ImageId)
    requires s.cursor < |s.dlq| && GoodLetter(c, s.dlq[s.cursor])
    ensures Accounted(c, ReplayStep(c, s, true), id) == Accounted(c, s, id)
  {
    var letter, s' := s.dlq[s.cursor], ReplayStep(c, s, true);
    ReplayedTasks(c, config, [letter]);
    LiveConcat(c, s.processing, Replayed(c, [letter]), id);
    assert Unreplayed(s) == [letter] + Unreplayed(s');
    DeadConcat(c, [letter], Unreplayed(s'), id);
  }

  lemma AbandonConserves(c: Codec, s: State, id: ImageId)
    requires s.cursor <= |s.dlq|
    ensures
      var s' := Abandon(c, s);
      Accounted(c, s', id) + s.duplicated[id] == Accounted(c, s, id) + s'.duplicated[id]
  {
    var s' := Abandon(c, s);
    assert Unreplayed(s') == s.dlq;
    DeadSplit(c, s.dlq, s.cursor, id);
    IdsCount(Dead(c, s.dlq[..s.cursor]), id);
  }

  lemma DeadSplit(c: Codec, letters: seq<Message>, n: nat, id: ImageId)
    requires n <= |letters|
    ensures Count(Dead(c, letters), id) == Count(Dead(c, letters[..n]), id) + Count(Dead(c, letters[n..]), id)
  {
    assert letters == letters[..n] + letters[n..];
    DeadConcat(c, letters[..n], letters[n..], id);
  }

  lemma AbandonKeepsInv(c: Codec, config: Config, s: State)
    requires Inv(c, config, s)
    ensures Inv(c, config, Abandon(c, s))
  {
    var s' := Abandon(c, s);
    forall id: ImageId
      ensures Accounted(c, s', id) == s'.published[id] + s'.duplicated[id]
    {
      assert Accounted(c, s, id) == s.published[id] + s.duplicated[id];
      AbandonConserves(c, s, id);
    }
  }

  lemma ReplayNextKeepsInv(c: Codec, config: Config, s: State, sendUp: bool)
    requires Inv(c, config, s)
    ensures Inv(c, config, ReplayStep(c, s, sendUp))
  {
    if s.cursor < |s.dlq| {
      var letter, s' := s.dlq[s.cursor], ReplayStep(c, s, sendUp);
      assert GoodLetter(c, letter);
      ReplayedTasks(c, config, [letter]);
      hide GoodLetter, GoodTask, Replayed, Accounted;
      if s' == Abandon(c, s) {
        AbandonKeepsInv(c, config, s);
      } else {
        forall id: ImageId
          ensures Accounted(c, s', id) == s'.published[id] + s'.duplicated[id]
        {
          assert Accounted(c, s, id) == s.published[id] + s.duplicated[id];
          ReplayNextConserves(c, config, s, id);
        }
      }
    }
  }

  lemma CommitKeepsInv(c: Codec, config: Config, s: State)
    requires Inv(c, config, s)
    ensures Inv(c, config, Apply(c, config, s, ReplayCommit))
  {
    var s' := Apply(c, config, s, ReplayCommit);
    assert Unreplayed(s') == Unreplayed(s);
    forall id: ImageId
      ensures Accounted(c, s', id) == s'.published[id] + s'.duplicated[id]
    {
      assert Accounted(c, s, id) == s.published[id] + s.duplicated[id];
    }
  }

  lemma UploadKeepsInv(c: Codec, config: Config, s: State, id: ImageId)
    requires Lawful(c) && Inv(c, config, s)
    ensures Inv(c, config, Apply(c, config, s, Upload(id)))
  {
    var s', m := Apply(c, config, s, Upload(id)), UploadMessage(c, id);
    UploadMessageParses(c, id);
    assert GoodTask(c, config, m);
    forall other: ImageId
      ensures Accounted(c, s', other) == s'.published[other] + s'.duplicated[other]
    {
      assert Accounted(c, s, other) == s.published[other] + s.duplicated[other];
      LiveConcat(c, s.processing, [m], other);
      assert Live(c, [m]) == [Parsed(c, m)];
      CountSingle(Parsed(c, m), other);
    }
  }

  lemma {:induction false} RunKeepsInv(c: Codec, config: Config, actions: seq<Action>)
    requires Lawful(c) && config.dlqTopic != PROCESSING_TOPIC
    ensures Inv(c, config, Run(c, config, actions))
  {
    if actions == [] {
    } else {
      var s, a := Run(c, config, actions[..|actions| - 1]), actions[|actions| - 1];
      RunKeepsInv(c, config, actions[..|actions| - 1]);
      hide Apply, Inv, Lawful;
      ApplyKeepsInv(c, config, s, a);
    }
  }

  lemma ApplyKeepsInv(c: Codec, config: Config, s: State, a: Action)
    requires Lawful(c) && config.dlqTopic != PROCESSING_TOPIC && Inv(c, config, s)
    ensures Inv(c, config, Apply(c, config, s, a))
  {
    match a
    case Upload(id) => UploadKeepsInv(c, config, s, id);
    case Work(weather) => WorkKeepsInv(c, config, s, weather); hide Inv, WorkStep;
    case ReplayNext(sendUp) => ReplayNextKeepsInv(c, config, s, sendUp); hide Inv, ReplayStep;
    case ReplayCommit => CommitKeepsInv(c, config, s);
    case ReplayStop => AbandonKeepsInv(c, config, s); hide Inv, Abandon;
  }

  predicate EveryReplayCommits(actions: seq<Action>) {
    forall a <- actions :: !a.ReplayStop? && (a.ReplayNext? ==> a.sendUp)
  }

  lemma {:induction false} CommittedReplaysDoNotDuplicate(c: Codec, config: Config, actions: seq<Action>)
    requires EveryReplayCommits(actions)
    ensures Run(c, config, actions).duplicated == multiset{}
  {
    hide Handle, Replayed;
    if actions != [] {
      CommittedReplaysDoNotDuplicate(c, config, actions[..|actions| - 1]);
      assert actions[|actions| - 1] in actions;
    }
  }

  /** The step has to dead-letter the task, and the dead-letter publish fails. */
  predicate BuryFails(config: Config, task: Task, weather: Weather) {
    weather.processingError.Some? && (task.attempt >= config.maxAttempts || weather.retryError.Some?) && !weather.dlqUp
  }

  /** The action is a worker step on the image's task whose dead-letter publish fails. */
  predicate LosesTask(c: Codec, config: Config, s: State, a: Action, id: ImageId) {
    a.Work? && s.processing != []
    && var task := Parsed(c, s.processing[0]);
       task.Some? && task.value.imageId == id && BuryFails(config, task.value, a.weather)
  }

  /** How often that happens in a run. */
  function FailedBurials(c: Codec, config: Config, actions: seq<Action>, id: ImageId): nat {
    if actions == [] then 0
    else
      var before := actions[..|actions| - 1];
      FailedBurials(c, config, before, id)
      + (if LosesTask(c, config, Run(c, config, before), actions[|actions| - 1], id) then 1 else 0)
  }

  lemma WorkLosesExactly(c: Codec, config: Config, s: State, weather: Weather, id: ImageId)
    ensures WorkStep(c, config, s, weather).lost[id]
            == s.lost[id] + (if LosesTask(c, config, s, Work(weather), id) then 1 else 0)
  {
    hide Parse, RetryMessage, DeadLetter, OnTopic;
  }

  /** In every run, an image's lost tasks are exactly its failed dead-letter publishes. */
  lemma {:induction false} LostExactly(c: Codec, config: Config, actions: seq<Action>, id: ImageId)
    ensures Run(c, config, actions).lost[id] == FailedBurials(c, config, actions, id)
  {
    hide WorkStep, LosesTask, Replayed;
    if actions != [] {
      var before, a := actions[..|actions| - 1], actions[|actions| - 1];
      LostExactly(c, config, before, id);
      if a.Work? {
        WorkLosesExactly(c, config, Run(c, config, before), a.weather, id);
      } else {
        OnlyWorkLoses(c, config, Run(c, config, before), a, id);
      }
    }
  }

  lemma OnlyWorkLoses(c: Codec, config: Config, s: State, a: Action, id: ImageId)
    requires !a.Work?
    ensures !LosesTask(c, config, s, a, id) && Apply(c, config, s, a).lost == s.lost
  {
  }

  predicate DeadLettersArrive(actions: seq<Action>) {
    forall a <- actions :: a.Work? ==> a.weather.dlqUp
  }

  lemma {:induction false} NoFailedBurials(c: Codec, config: Config, actions: seq<Action>, id: ImageId)
    requires DeadLettersArrive(actions)
    ensures FailedBurials(c, config, actions, id) == 0
  {
    hide Run;
    if actions != [] {
      NoFailedBurials(c, config, actions[..|actions| - 1], id);
      assert actions[|actions| - 1] in actions;
    }
  }

  /**
    Task conservation at every point of every run, per image: what waits in the processing queue, what
    is dead and not being replayed, what finished and the failed dead-letter publishes add up to what
    uploads published plus what replay runs sent and did not commit.  With no replay run cut short
    nothing is duplicated, and with no failing dead-letter publish nothing is lost.
   */
  lemma {:induction false} TaskConservation(c: Codec, config: Config, actions: seq<Action>, id: ImageId)
    requires Lawful(c) && config.dlqTopic != PROCESSING_TOPIC
    ensures
      var s := Run(c, config, actions);
      var waiting := Count(Live(c, s.processing), id) + Count(Dead(c, Unreplayed(s)), id);
      && waiting + s.finished[id] + FailedBurials(c, config, actions, id) == s.published[id] + s.duplicated[id]
      && (EveryReplayCommits(actions) ==> s.duplicated[id] == 0)
      && (DeadLettersArrive(actions) ==> waiting + s.finished[id] == s.published[id] + s.duplicated[id])
  {
    RunKeepsInv(c, config, actions);
    LostExactly(c, config, actions, id);
    if EveryReplayCommits(actions) {
      CommittedReplaysDoNotDuplicate(c, config, actions);
    }
    if DeadLettersArrive(actions) {
      NoFailedBurials(c, config, actions, id);
    }
    hide Run, FailedBurials;
    assert Accounted(c, Run(c, config, actions), id)
           == Run(c, config, actions).published[id] + Run(c, config, actions).duplicated[id];
  }

  /** Every message on either queue carries its image id text as key, through any retries and replays. */
  lemma {:induction false} KeyIsImageId(c: Codec, config: Config, actions: seq<Action>, m: Message)
    requires Lawful(c) && config.dlqTopic != PROCESSING_TOPIC
    requires m in Run(c, config, actions).processing || m in Run(c, config, actions).dlq
    ensures
      var s := Run(c, config, actions);
      var task := if m in s.processing then Parse(c, m.value) else DeadTask(c, m);
      task.Some? && m.key == c.showId(task.value.imageId)
  {
    RunKeepsInv(c, config, actions);
  }

  /** A replay run that handles n dead letters without a failing send. */
  function ReplayMany(c: Codec, s: State, n: nat): State {
    if n == 0 then s else ReplayStep(c, ReplayMany(c, s, n - 1), true)
  }

  lemma {:induction false} ReplayManySends(c: Codec, s: State, n: nat)
    requires s.cursor == 0 && n <= |s.dlq|
    ensures ReplayMany(c, s, n) == s.(processing := s.processing + Replayed(c, s.dlq[..n]), cursor := n)
  {
    if n > 0 {
      ReplayManySends(c, s, n - 1);
      var before, letter := s.dlq[..n - 1], s.dlq[n - 1];
      assert s.dlq[..n][..n - 1] == before && [letter][..0] == [];
      assert Replayed(c, s.dlq[..n]) == Replayed(c, before) + Replayed(c, [letter]);
      hide Replayed;
    }
  }

  lemma {:induction false} ReplayedIsWhatTheToolSends(c: Codec, letters: seq<Message>)
    ensures
      var sent := DlqReplay.Replays(c, seq(|letters|, i requires 0 <= i < |letters| => letters[i].value));
      && |Replayed(c, letters)| == |sent|
      && forall i :: 0 <= i < |sent| ==> Replayed(c, letters)[i] == Message(PROCESSING_TOPIC, sent[i].key, sent[i].value)
  {
    hide Replay;
    if letters != [] {
      var before := letters[..|letters| - 1];
      var values := seq(|letters|, i requires 0 <= i < |letters| => letters[i].value);
      assert values[..|values| - 1] == seq(|before|, i requires 0 <= i < |before| => before[i].value);
      ReplayedIsWhatTheToolSends(c, before);
    }
  }

  /** What the replay actions put on the processing queue, letter by letter, is what the replay tool sends, in order. */
  lemma {:induction false} ReplayActionsAreTheTool(c: Codec, s: State, n: nat)
    requires s.cursor == 0 && n <= |s.dlq|
    ensures
      var sent := DlqReplay.Replays(c, seq(n, i requires 0 <= i < n => s.dlq[i].value));
      var s' := ReplayMany(c, s, n);
      && |s'.processing| == |s.processing| + |sent| && s'.processing[..|s.processing|] == s.processing
      && forall i :: 0 <= i < |sent| ==>
           s'.processing[|s.processing| + i] == Message(PROCESSING_TOPIC, sent[i].key, sent[i].value)
  {
    var letters := s.dlq[..n];
    ReplayManySends(c, s, n);
    ReplayedIsWhatTheToolSends(c, letters);
    hide ReplayMany, Replayed;
    assert seq(n, i requires 0 <= i < n => s.dlq[i].value)
           == seq(|letters|, i requires 0 <= i < |letters| => letters[i].value);
  }

  // ---------------------------------------------------------------------------------------
  // Termination
  // ---------------------------------------------------------------------------------------

  /** How many more times a queued message can be consumed. */
  function Remaining(c: Codec, config: Config, m: Message): nat {
    var task := Parse(c, m.value);
    if task.Some? && task.value.attempt < config.maxAttempts then config.maxAttempts - task.value.attempt + 1 else 1
  }

  function Measure(c: Codec, config: Config, queue: seq<Message>): nat {
    if queue == [] then 0
    else Measure(c, config, queue[..|queue| - 1]) + Remaining(c, config, queue[|queue| - 1])
  }

  lemma {:induction false} MeasureConcat(c: Codec, config: Config, a: seq<Message>, b: seq<Message>)
    ensures Measure(c, config, a + b) == Measure(c, config, a) + Measure(c, config, b)
    decreases |b|
  {
    if b == [] {
      assert a + b == a;
    } else {
      MeasureConcat(c, config, a, b[..|b| - 1]);
      assert (a + b)[..|a + b| - 1] == a + b[..|b| - 1];
    }
  }

  lemma RetryLowersRemaining(c: Codec, config: Config, m: Message)
    requires Lawful(c) && Parse(c, m.value).Some? && Parse(c, m.value).value.attempt < config.maxAttempts
    ensures
      var task := Parse(c, m.value).value;
      Remaining(c, config, RetryMessage(c, m, task.imageId, task.attempt + 1)) < Remaining(c, config, m)
  {
    var task := Parse(c, m.value).value;
    RetryMessageParses(c, m, task.imageId, task.attempt + 1);
  }

  lemma HandleLowersRemaining(c: Codec, config: Config, m: Message, weather: Weather)
    requires Lawful(c) && config.dlqTopic != PROCESSING_TOPIC
    ensures Measure(c, config, OnTopic(Handle(c, config, m, weather).published, PROCESSING_TOPIC))
            < Remaining(c, config, m)
  {
    hide Parse, Lawful, RetryMessage, DeadLetter, RetryFields, Pow2;
    var h := Handle(c, config, m, weather);
    assert h.published == [] || h.published == [h.published[0]];
    if h.published == [] {
      OneOnTopic(m, PROCESSING_TOPIC);
    } else {
      var out := h.published[0];
      OneOnTopic(out, PROCESSING_TOPIC);
      MeasureSingle(c, config, out);
      if h.fate.Retried? {
        RetryLowersRemaining(c, config, m);
      } else {
        BuriedOnDlq(c, config, m, weather);
      }
    }
  }

  lemma BuriedOnDlq(c: Codec, config: Config, m: Message, weather: Weather)
    requires Handle(c, config, m, weather).published != [] && !Handle(c, config, m, weather).fate.Retried?
    ensures Handle(c, config, m, weather).published[0].topic == config.dlqTopic
  {
    hide Parse, RetryMessage, RetryFields, Pow2;
  }

  lemma MeasureSingle(c: Codec, config: Config, m: Message)
    ensures Measure(c, config, [m]) == Remaining(c, config, m)
  {
    assert [m][..0] == [];
  }

  /** On any queue whatever, malformed messages included, a worker step strictly lowers the measure. */
  lemma WorkLowersMeasure(c: Codec, config: Config, s: State, weather: Weather)
    requires Lawful(c) && config.dlqTopic != PROCESSING_TOPIC && s.processing != []
    ensures Measure(c, config, WorkStep(c, config, s, weather).processing) < Measure(c, config, s.processing)
  {
    var m, rest := s.processing[0], s.processing[1..];
    var live := OnTopic(Handle(c, config, m, weather).published, PROCESSING_TOPIC);
    assert s.processing == [m] + rest;
    MeasureConcat(c, config, [m], rest);
    MeasureConcat(c, config, rest, live);
    MeasureSingle(c, config, m);
    HandleLowersRemaining(c, config, m, weather);
  }

  function WorkAll(c: Codec, config: Config, s: State, weathers: seq<Weather>): State {
    if weathers == [] then s
    else WorkStep(c, config, WorkAll(c, config, s, weathers[..|weathers| - 1]), weathers[|weathers| - 1])
  }

  lemma {:induction false} WorkAllLowersMeasure(c: Codec, config: Config, s: State, weathers: seq<Weather>)
    requires Lawful(c) && config.dlqTopic != PROCESSING_TOPIC
    ensures
      var left := WorkAll(c, config, s, weathers).processing;
      left == [] || Measure(c, config, left) + |weathers| <= Measure(c, config, s.processing)
  {
    if weathers != [] {
      var before := weathers[..|weathers| - 1];
      WorkAllLowersMeasure(c, config, s, before);
      var t := WorkAll(c, config, s, before);
      if t.processing != [] {
        WorkLowersMeasure(c, config, t, weathers[|weathers| - 1]);
      }
    }
  }

  lemma {:induction false} MeasureZero(c: Codec, config: Config, queue: seq<Message>)
    ensures Measure(c, config, queue) >= |queue|
  {
    if queue != [] {
      MeasureZero(c, config, queue[..|queue| - 1]);
    }
  }

  /** Without new uploads the worker drains any queue within Measure steps, whatever fails. */
  lemma {:induction false} WorkerDrains(c: Codec, config: Config, s: State, weathers: seq<Weather>)
    requires Lawful(c) && config.dlqTopic != PROCESSING_TOPIC
    requires |weathers| >= Measure(c, config, s.processing)
    ensures WorkAll(c, config, s, weathers).processing == []
  {
    WorkAllLowersMeasure(c, config, s, weathers);
    MeasureZero(c, config, WorkAll(c, config, s, weathers).processing);
  }

  // ---------------------------------------------------------------------------------------
  // The order of attempts
  // ---------------------------------------------------------------------------------------

  /** The attempts at which the image was handed to processing, in order. */
  function Attempts(ran: seq<Task>, id: ImageId): seq<nat> {
    if ran == [] then []
    else Attempts(ran[..|ran| - 1], id) + (if ran[|ran| - 1].imageId == id then [ran[|ran| - 1].attempt] else [])
  }

  function UpTo(n: nat): seq<nat> {
    seq(n, i => i)
  }

  predicate NoReplays(actions: seq<Action>) {
    forall a <- actions :: a.Upload? || a.Work?
  }

  predicate RetryPublishesSucceed(actions: seq<Action>) {
    forall a <- actions :: a.Work? ==> a.weather.retryError.None?
  }

  /** The attempts so far are 0, 1, ..., n-1, and a waiting message for the image carries attempt n. */
  ghost predicate InOrder(c: Codec, config: Config, s: State, id: ImageId, retriesUp: bool) {
    var n := |Attempts(s.ran, id)|;
    && s.cursor == 0
    && Attempts(s.ran, id) == UpTo(n)
    && n <= config.maxAttempts + 1
    && (s.published[id] == 0 ==> n == 0)
    && (forall m <- s.processing :: Is(Parsed(c, m), id) == 1 ==> Parsed(c, m).value.attempt == n)
    && (retriesUp && Count(Dead(c, s.dlq), id) > 0 ==> n == config.maxAttempts + 1)
  }

  lemma {:induction false} CountZero(tasks: seq<Option<Task>>, id: ImageId, i: nat)
    requires Count(tasks, id) == 0 && i < |tasks|
    ensures Is(tasks[i], id) == 0
  {
    if i < |tasks| - 1 {
      CountZero(tasks[..|tasks| - 1], id, i);
    }
  }

  /** With one task in all, the messages behind the one being handled are for other images. */
  lemma AloneInQueue(c: Codec, queue: seq<Message>, id: ImageId)
    requires queue != [] && Is(Parsed(c, queue[0]), id) == 1 && Count(Live(c, queue), id) <= 1
    ensures forall m <- queue[1..] :: Is(Parsed(c, m), id) == 0
  {
    var m, rest := queue[0], queue[1..];
    assert queue == [m] + rest;
    LiveConcat(c, [m], rest, id);
    LiveSingle(c, m, id);
    forall m' <- rest ensures Is(Parsed(c, m'), id) == 0 {
      var i :| 0 <= i < |rest| && rest[i] == m';
      CountZero(Live(c, rest), id, i);
    }
  }

  lemma SettleKeepsOrderOfOther(c: Codec, config: Config, s: State, h: Handled, id: ImageId, retriesUp: bool)
    requires s.processing != [] && Conserved(c, config, s.processing[0], h) && config.dlqTopic != PROCESSING_TOPIC
    requires InOrder(c, config, s, id, retriesUp) && Is(h.ran, id) == 0
    ensures InOrder(c, config, Settle(config, s, h), id, retriesUp)
  {
    var s' := Settle(config, s, h);
    assert s'.ran[..|s'.ran| - 1] == s.ran;
    assert Attempts(s'.ran, id) == Attempts(s.ran, id);
    PublishedStandsForConsumed(c, config, s.processing[0], h, id);
    DeadConcat(c, s.dlq, OnTopic(h.published, config.dlqTopic), id);
    SettledFront(c, config, s, h);
  }

  /** The messages waiting after a step: those behind, and possibly one retry. */
  lemma SettledFront(c: Codec, config: Config, s: State, h: Handled)
    requires s.processing != [] && Conserved(c, config, s.processing[0], h) && config.dlqTopic != PROCESSING_TOPIC
    ensures
      Settle(config, s, h).processing == s.processing[1..] + (if h.fate.Retried? then h.published else [])
  {
    if h.published != [] {
      var out := h.published[0];
      assert h.published == [out];
      OneOnTopic(out, PROCESSING_TOPIC);
    }
  }

  lemma SettleKeepsOrderOfRan(c: Codec, config: Config, s: State, h: Handled, id: ImageId, retriesUp: bool)
    requires s.processing != [] && Conserved(c, config, s.processing[0], h) && config.dlqTopic != PROCESSING_TOPIC
    requires InOrder(c, config, s, id, retriesUp) && Is(h.ran, id) == 1
    requires Accounted(c, s, id) <= 1 && s.published[id] != 0
    requires h.ran.value.attempt <= config.maxAttempts
    requires retriesUp && h.fate.DeadLettered? ==> h.ran.value.attempt == config.maxAttempts
    ensures InOrder(c, config, Settle(config, s, h), id, retriesUp)
  {
    hide GoodLetter, DeadTask, GoodTask, Parsed, Count, Live, Dead, Attempts, UpTo, OnTopic, Accounted;
    var s', n := Settle(config, s, h), |Attempts(s.ran, id)|;
    AttemptsMove(s.ran, s'.ran, h.ran.value, id, n);
    AliveNotDead(c, s, id);
    AloneInQueue(c, s.processing, id);
    SettledFront(c, config, s, h);
    forall m <- s'.processing ensures Is(Parsed(c, m), id) == 1 ==> Parsed(c, m).value.attempt == n + 1 {
      if m !in s.processing[1..] {
        assert h.fate.Retried? && m == h.published[0];
      }
    }
    if !h.fate.DeadLettered? {
      NothingBuried(c, config, s.processing[0], h);
      assert s'.dlq == s.dlq;
    }
  }

  lemma AttemptsMove(ran: seq<Task>, ran': seq<Task>, task: Task, id: ImageId, n: nat)
    requires ran' == ran + [task] && task.imageId == id && task.attempt == n && Attempts(ran, id) == UpTo(n)
    ensures Attempts(ran', id) == UpTo(n + 1) && |Attempts(ran', id)| == n + 1
  {
    assert ran'[..|ran'| - 1] == ran;
    assert UpTo(n) + [n] == UpTo(n + 1);
  }

  lemma AliveNotDead(c: Codec, s: State, id: ImageId)
    requires s.processing != [] && Is(Parsed(c, s.processing[0]), id) == 1 && Accounted(c, s, id) <= 1
    requires s.cursor == 0
    ensures Count(Dead(c, s.dlq), id) == 0 && Count(Live(c, s.processing), id) == 1
  {
    hide Parsed, DeadTask;
    var m, rest := s.processing[0], s.processing[1..];
    assert s.processing == [m] + rest && Unreplayed(s) == s.dlq;
    LiveConcat(c, [m], rest, id);
    LiveSingle(c, m, id);
  }

  lemma NothingBuried(c: Codec, config: Config, m: Message, h: Handled)
    requires Conserved(c, config, m, h) && config.dlqTopic != PROCESSING_TOPIC && !h.fate.DeadLettered?
    ensures OnTopic(h.published, config.dlqTopic) == []
  {
    hide GoodTask, Parsed;
    if h.published != [] {
      assert h.published == [h.published[0]];
      OneOnTopic(h.published[0], config.dlqTopic);
    }
  }

  lemma {:induction false} RunKeepsOrder(c: Codec, config: Config, actions: seq<Action>, id: ImageId)
    requires Lawful(c) && config.dlqTopic != PROCESSING_TOPIC && NoReplays(actions)
    requires Run(c, config, actions).published[id] <= 1
    ensures InOrder(c, config, Run(c, config, actions), id, RetryPublishesSucceed(actions))
  {
    if actions == [] {
      assert Dead(c, []) == [];
    } else {
      var before, a := actions[..|actions| - 1], actions[|actions| - 1];
      var s, up := Run(c, config, before), RetryPublishesSucceed(actions);
      RunKeepsOrder(c, config, before, id);
      assert up ==> RetryPublishesSucceed(before);
      RunKeepsInv(c, config, before);
      CommittedReplaysDoNotDuplicate(c, config, before);
      assert Accounted(c, s, id) == s.published[id];
      if a.Upload? {
        UploadKeepsOrder(c, config, s, a.id, id, up);
      } else {
        assert a in actions;
        WorkKeepsOrder(c, config, s, a.weather, id, up);
      }
    }
  }

  lemma WorkKeepsOrder(c: Codec, config: Config, s: State, weather: Weather, id: ImageId, up: bool)
    requires Lawful(c) && config.dlqTopic != PROCESSING_TOPIC
    requires Inv(c, config, s) && InOrder(c, config, s, id, up)
    requires Accounted(c, s, id) == s.published[id] <= 1
    requires up ==> weather.retryError.None?
    ensures InOrder(c, config, WorkStep(c, config, s, weather), id, up)
  {
    if s.processing != [] {
      var h := Handle(c, config, s.processing[0], weather);
      HandleConserves(c, config, s.processing[0], weather);
      if Is(h.ran, id) == 1 {
        assert GoodTask(c, config, s.processing[0]);
        LiveNonEmpty(c, s, id);
        SettleKeepsOrderOfRan(c, config, s, h, id, up);
      } else {
        SettleKeepsOrderOfOther(c, config, s, h, id, up);
      }
    }
  }

  lemma LiveNonEmpty(c: Codec, s: State, id: ImageId)
    requires s.processing != [] && Is(Parsed(c, s.processing[0]), id) == 1
    ensures Accounted(c, s, id) >= 1
  {
    assert s.processing == [s.processing[0]] + s.processing[1..];
    LiveConcat(c, [s.processing[0]], s.processing[1..], id);
    LiveSingle(c, s.processing[0], id);
  }

  lemma UploadKeepsOrder(c: Codec, config: Config, s: State, uploaded: ImageId, id: ImageId, up: bool)
    requires Lawful(c) && InOrder(c, config, s, id, up)
    requires s.published[id] + (if uploaded == id then 1 else 0) <= 1
    ensures InOrder(c, config, Apply(c, config, s, Upload(uploaded)), id, up)
  {
    UploadMessageParses(c, uploaded);
  }

  /**
    Without replays, an image uploaded once is processed with attempts 0, 1, 2, ... in that order and
    at most maxAttempts + 1 times, however its task interleaves with others and whatever fails; and if
    the retry publishes succeed it is dead-lettered only after all maxAttempts + 1 of them, once.
   */
  lemma {:induction false} AttemptsInOrder(c: Codec, config: Config, actions: seq<Action>, id: ImageId)
    requires Lawful(c) && config.dlqTopic != PROCESSING_TOPIC && NoReplays(actions)
    requires Run(c, config, actions).published[id] <= 1
    ensures
      var s := Run(c, config, actions);
      && |Attempts(s.ran, id)| <= config.maxAttempts + 1
      && (forall i :: 0 <= i < |Attempts(s.ran, id)| ==> Attempts(s.ran, id)[i] == i)
      && Count(Dead(c, s.dlq), id) <= 1
      && (RetryPublishesSucceed(actions) && Count(Dead(c, s.dlq), id) == 1 ==>
            |Attempts(s.ran, id)| == config.maxAttempts + 1)
  {
    RunKeepsOrder(c, config, actions, id);
    RunKeepsInv(c, config, actions);
    CommittedReplaysDoNotDuplicate(c, config, actions);
    var s := Run(c, config, actions);
    hide Run;
    assert Accounted(c, s, id) == s.published[id] && Unreplayed(s) == s.dlq;
  }

  // ---------------------------------------------------------------------------------------
  // A task that always fails
  // ---------------------------------------------------------------------------------------

  predicate AlwaysFails(weather: Weather) {
    weather.processingError.Some? && weather.retryError.None? && weather.dlqUp
  }

  predicate EveryStepFails(actions: seq<Action>) {
    forall a <- actions :: a.Work? ==> AlwaysFails(a.weather)
  }

  /** The delay before the retry that follows a failed attempt; there is none after the last. */
  function DelayAfter(config: Config, attempt: nat): real {
    if attempt < config.maxAttempts then config.backoff * Pow2(attempt) as real else 0.0
  }

  /** The delays of all tasks that ran. */
  function Delays(config: Config, ran: seq<Task>): real {
    if ran == [] then 0.0 else Delays(config, ran[..|ran| - 1]) + DelayAfter(config, ran[|ran| - 1].attempt)
  }

  /** The delays of one image's attempts. */
  function OwnDelays(config: Config, attempts: seq<nat>): real {
    if attempts == [] then 0.0
    else OwnDelays(config, attempts[..|attempts| - 1]) + DelayAfter(config, attempts[|attempts| - 1])
  }

  /** The delays before the retries 1, ..., n. */
  function TotalBackoff(config: Config, n: nat): real {
    if n == 0 then 0.0 else TotalBackoff(config, n - 1) + config.backoff * Pow2(n - 1) as real
  }

  lemma {:induction false} TotalBackoffIsGeometric(config: Config, n: nat)
    ensures TotalBackoff(config, n) == config.backoff * (Pow2(n) as real - 1.0)
  {
    if n > 0 {
      TotalBackoffIsGeometric(config, n - 1);
      var p := Pow2(n - 1) as real;
      assert Pow2(n) as real == 2.0 * p;
      Doubling(config.backoff, p);
    }
  }

  lemma Doubling(b: real, p: real)
    ensures b * (p - 1.0) + b * p == b * (2.0 * p - 1.0)
  {
  }

  lemma {:induction false} OwnDelaysUpTo(config: Config, n: nat)
    requires n <= config.maxAttempts
    ensures OwnDelays(config, UpTo(n)) == TotalBackoff(config, n)
  {
    hide Pow2;
    if n > 0 {
      OwnDelaysUpTo(config, n - 1);
      assert UpTo(n)[..n - 1] == UpTo(n - 1);
    }
  }

  /** A failing step finishes nothing and sleeps exactly for the retry of the task it ran. */
  lemma FailingStep(c: Codec, config: Config, s: State, weather: Weather)
    requires Inv(c, config, s) && AlwaysFails(weather) && s.processing != []
    ensures
      var s' := WorkStep(c, config, s, weather);
      && s'.finished == s.finished
      && |s'.ran| == |s.ran| + 1 && s'.ran[..|s.ran|] == s.ran
      && s'.slept == s.slept + DelayAfter(config, s'.ran[|s.ran|].attempt)
  {
    assert GoodTask(c, config, s.processing[0]);
    hide Parse, RetryMessage, DeadLetter, OnTopic, Pow2, Inv;
  }

  /** Nothing has finished, and the worker has slept for exactly the retries it made. */
  predicate OnlyFailures(config: Config, s: State) {
    s.finished == multiset{} && s.slept == Delays(config, s.ran)
  }

  lemma FailingAction(c: Codec, config: Config, s: State, a: Action)
    requires Inv(c, config, s) && OnlyFailures(config, s) && (a.Work? ==> AlwaysFails(a.weather))
    ensures OnlyFailures(config, Apply(c, config, s, a))
  {
    hide Inv, Handle, Replayed, DelayAfter, Settle, AlwaysFails;
    if a.Work? && s.processing != [] {
      FailingStep(c, config, s, a.weather);
      hide WorkStep;
    }
  }

  /** In a run whose steps all fail nothing finishes, and the worker sleeps for exactly the retries it makes. */
  lemma {:induction false} FailingRun(c: Codec, config: Config, actions: seq<Action>)
    requires Lawful(c) && config.dlqTopic != PROCESSING_TOPIC && EveryStepFails(actions)
    ensures OnlyFailures(config, Run(c, config, actions))
  {
    if actions != [] {
      var before, a := actions[..|actions| - 1], actions[|actions| - 1];
      assert a in actions;
      hide Inv, Apply, OnlyFailures, AlwaysFails, Lawful;
      FailingRun(c, config, before);
      RunKeepsInv(c, config, before);
      FailingAction(c, config, Run(c, config, before), a);
    }
  }

  /** Without replays, once an always failing image no longer waits, it has run all its attempts and is dead, once. */
  lemma {:induction false} FailingTaskIsBuried(c: Codec, config: Config, actions: seq<Action>, id: ImageId)
    requires Lawful(c) && config.dlqTopic != PROCESSING_TOPIC && NoReplays(actions) && EveryStepFails(actions)
    requires Run(c, config, actions).published[id] == 1
    requires Count(Live(c, Run(c, config, actions).processing), id) == 0
    ensures
      var s := Run(c, config, actions);
      && Count(Dead(c, s.dlq), id) == 1
      && Attempts(s.ran, id) == UpTo(config.maxAttempts + 1)
      && OwnDelays(config, Attempts(s.ran, id)) == config.backoff * (Pow2(config.maxAttempts) as real - 1.0)
      && s.slept == Delays(config, s.ran)
  {
    hide Run, FailedBurials, Pow2, Delays, OwnDelays, InOrder;
    assert EveryReplayCommits(actions) && DeadLettersArrive(actions) && RetryPublishesSucceed(actions);
    FailingRun(c, config, actions);
    TaskConservation(c, config, actions, id);
    RunKeepsOrder(c, config, actions, id);
    BuriedAfterAll(c, config, Run(c, config, actions), id);
    OwnDelaysAll(config);
  }

  /** An image that is in order, does not wait and is accounted for only among the dead has run all its attempts. */
  lemma BuriedAfterAll(c: Codec, config: Config, s: State, id: ImageId)
    requires InOrder(c, config, s, id, true) && Count(Dead(c, Unreplayed(s)), id) == 1
    ensures Count(Dead(c, s.dlq), id) == 1 && Attempts(s.ran, id) == UpTo(config.maxAttempts + 1)
  {
    hide Attempts, Count, Dead;
    assert Unreplayed(s) == s.dlq;
  }

  lemma OwnDelaysAll(config: Config)
    ensures OwnDelays(config, UpTo(config.maxAttempts + 1)) == config.backoff * (Pow2(config.maxAttempts) as real - 1.0)
  {
    var n := config.maxAttempts;
    OwnDelaysUpTo(config, n);
    TotalBackoffIsGeometric(config, n);
    assert UpTo(n + 1)[..n] == UpTo(n);
    hide Pow2, TotalBackoff;
  }

  function Works(weathers: seq<Weather>): seq<Action> {
    seq(|weathers|, i requires 0 <= i < |weathers| => Work(weathers[i]))
  }

  lemma {:induction false} RunWorks(c: Codec, config: Config, actions: seq<Action>, weathers: seq<Weather>)
    ensures Run(c, config, actions + Works(weathers)) == WorkAll(c, config, Run(c, config, actions), weathers)
  {
    hide WorkStep;
    if weathers == [] {
      assert actions + Works(weathers) == actions;
    } else {
      var before := weathers[..|weathers| - 1];
      RunWorks(c, config, actions, before);
      var all := actions + Works(weathers);
      assert all[..|all| - 1] == actions + Works(before);
    }
  }

  /**
    If processing always fails and every publish succeeds, then from any state of any run without
    replays, among any other tasks, the worker drains the queue; an image uploaded once has then been
    processed with attempts 0, ..., maxAttempts in that order, has cost the worker a delay of
    backoff * (2^maxAttempts - 1), and is dead-lettered once.
   */
  lemma {:induction false} AlwaysFailingTask(c: Codec, config: Config, actions: seq<Action>, weathers: seq<Weather>, id: ImageId)
    requires Lawful(c) && config.dlqTopic != PROCESSING_TOPIC && NoReplays(actions) && EveryStepFails(actions)
    requires Run(c, config, actions).published[id] == 1
    requires |weathers| >= Measure(c, config, Run(c, config, actions).processing) && forall w <- weathers :: AlwaysFails(w)
    ensures
      var s := Run(c, config, actions + Works(weathers));
      && s.processing == []
      && Count(Dead(c, s.dlq), id) == 1
      && Attempts(s.ran, id) == UpTo(config.maxAttempts + 1)
      && OwnDelays(config, Attempts(s.ran, id)) == config.backoff * (Pow2(config.maxAttempts) as real - 1.0)
      && s.slept == Delays(config, s.ran)
  {
    var all := actions + Works(weathers);
    WorkerDrains(c, config, Run(c, config, actions), weathers);
    RunWorks(c, config, actions, weathers);
    WorkPublishesNothingNew(c, config, Run(c, config, actions), weathers);
    hide Run, Measure, WorkAll, Pow2, Delays, OwnDelays, Attempts;
    assert NoReplays(all) && EveryStepFails(all);
    FailingTaskIsBuried(c, config, all, id);
  }

  lemma {:induction false} WorkPublishesNothingNew(c: Codec, config: Config, s: State, weathers: seq<Weather>)
    ensures WorkAll(c, config, s, weathers).published == s.published
  {
    hide Handle;
    if weathers != [] {
      WorkPublishesNothingNew(c, config, s, weathers[..|weathers| - 1]);
    }
  }
}
