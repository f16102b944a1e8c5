/** The worker: consume a task, process it, and on failure retry with backoff or dead-letter it. */
module ProcessingWorker {
  import opened Basics
  import opened TaskMessages
  import opened MessageBroker

  /** Worker settings after the constructor's clamping. */
  datatype Config = Config(maxAttempts: nat, backoff: real, dlqTopic: string) {
    ghost predicate Valid() {
      backoff >= 0.0
    }
  }

  /**
    What the surroundings do during one step: the exception processing raised, if any, the exception
    of the retry publish, if any, and whether the dead-letter publish goes through.
   */
  datatype Weather = Weather(processingError: Option<string>, retryError: Option<string>, dlqUp: bool,
                             now: string, parseError: string)

  datatype Fate = Finished | Retried | DeadLettered | Lost

  /** What one consumed message leads to: the messages published, the time slept, the task that ran. */
  datatype Handled = Handled(published: seq<Message>, slept: real, ran: Option<Task>, fate: Fate)

  function Pow2(n: nat): nat {
    if n == 0 then 1 else 2 * Pow2(n - 1)
  }

  function Bury(c: Codec, config: Config, m: Message, weather: Weather, reason: string, error: string,
                payload: Fields, slept: real, ran: Option<Task>): Handled
  {
    if weather.dlqUp then
      Handled([DeadLetter(c, config.dlqTopic, m, weather.now, reason, error, payload)], slept, ran, DeadLettered)
    else Handled([], slept, ran, Lost)
  }

  /** The specification of one step on the message m. */
  function Handle(c: Codec, config: Config, m: Message, weather: Weather): Handled {
    match Parse(c, m.value)
    case None => Bury(c, config, m, weather, "malformed", weather.parseError, map[], 0.0, None)
    case Some(task) =>
      if weather.processingError.None? then Handled([], 0.0, Some(task), Finished)
      else if task.attempt < config.maxAttempts then
        var slept := config.backoff * Pow2(task.attempt) as real;
        if weather.retryError.None? then
          Handled([RetryMessage(c, m, task.imageId, task.attempt + 1)], slept, Some(task), Retried)
        else
          Bury(c, config, m, weather, "retry_publish_failed", weather.retryError.value,
               RetryFields(c, task.imageId, task.attempt + 1), slept, Some(task))
      else
        Bury(c, config, m, weather, "retries_exhausted", weather.processingError.value, task.payload, 0.0, Some(task))
  }

  /** Why a message is dead-lettered rather than retried or finished. */
  function ReasonFor(c: Codec, config: Config, m: Message): string {
    var task := Parse(c, m.value);
    if task.None? then "malformed"
    else if task.value.attempt < config.maxAttempts then "retry_publish_failed"
    else "retries_exhausted"
  }

  /** The error is the one that kept the task from being finished or retried. */
  predicate Happened(config: Config, task: Option<Task>, weather: Weather, error: string) {
    if task.None? then error == weather.parseError
    else if task.value.attempt < config.maxAttempts then weather.retryError == Some(error)
    else weather.processingError == Some(error)
  }

  /**
    The dead letter names the reason and the error of the step that failed and keeps the original
    message's key and text; its payload is the task, where the replay tool looks first.
   */
  predicate Explains(c: Codec, config: Config, m: Message, weather: Weather, fields: Fields) {
    var task := Parse(c, m.value);
    && Field(fields, "reason") == JString(ReasonFor(c, config, m))
    && Field(fields, "dead_lettered_at") == JString(weather.now)
    && Field(fields, "original_topic") == JString("image.processing")
    && Field(fields, "original_key") == JString(m.key)
    && Field(fields, "original_value") == JString(c.decode(m.value))
    && Field(fields, "error").JString? && Happened(config, task, weather, Field(fields, "error").s)
    && Field(fields, "payload").JObject?
    && (task.Some? ==>
          c.parseId(c.str(Field(Field(fields, "payload").fields, "image_id"))) == Some(task.value.imageId))
  }

  /** Every dead letter the worker publishes reads back as an explanation of what happened. */
  lemma DeadLetterExplains(c: Codec, config: Config, m: Message, weather: Weather)
    requires Lawful(c) && Handle(c, config, m, weather).fate.DeadLettered?
    ensures
      var h := Handle(c, config, m, weather);
      && |h.published| == 1 && h.published[0].topic == config.dlqTopic && h.published[0].key == m.key
      && var read := c.loadsBytes(h.published[0].value);
         read.Some? && read.value.JObject? && Explains(c, config, m, weather, read.value.fields)
  {
    var task := Parse(c, m.value);
    hide Pow2, Lawful, Explains, RetryMessage, RetryFields;
    var error: string, payload: Fields := weather.parseError, map[];
    if task.Some? {
      if task.value.attempt < config.maxAttempts {
        error, payload := weather.retryError.value, RetryFields(c, task.value.imageId, task.value.attempt + 1);
        RetryFieldsDumpable(c, task.value.imageId, task.value.attempt + 1);
      } else {
        error, payload := weather.processingError.value, task.value.payload;
        PayloadDumpable(c, m.value);
      }
    }
    FieldsExplain(c, config, m, weather, error, payload);
    DeadLetterLoads(c, m, weather.now, ReasonFor(c, config, m), error, payload);
    hide Parse, DeadLetterFields;
  }

  lemma FieldsExplain(c: Codec, config: Config, m: Message, weather: Weather, error: string, payload: Fields)
    requires Lawful(c) && Happened(config, Parse(c, m.value), weather, error)
    requires
      var task := Parse(c, m.value);
      task.Some? ==> payload == task.value.payload
                     || payload == RetryFields(c, task.value.imageId, task.value.attempt + 1)
    ensures Explains(c, config, m, weather, DeadLetterFields(c, m, weather.now, ReasonFor(c, config, m), error, payload))
  {
    hide Happened, ReasonFor;
  }

  /**
    What becomes of a consumed message: finished when processing raised nothing; retried below the limit
    when that can be published; otherwise, malformed messages included, dead-lettered, or lost when that
    publish fails.  A retry is one message for the processing topic, at the next attempt; a dead letter
    is one message for the dead-letter topic; nothing else is published.
   */
  lemma FateExactly(c: Codec, config: Config, m: Message, weather: Weather)
    requires Lawful(c)
    ensures
      var task, h := Parse(c, m.value), Handle(c, config, m, weather);
      var retries := task.Some? && weather.processingError.Some? && task.value.attempt < config.maxAttempts
                     && weather.retryError.None?;
      && (task.Some? && weather.processingError.None? ==> h.fate == Finished && h.published == [])
      && (retries ==>
            && h.fate == Retried && |h.published| == 1 && h.published[0].topic == "image.processing"
            && var next := Parse(c, h.published[0].value);
               next.Some? && next.value.imageId == task.value.imageId && next.value.attempt == task.value.attempt + 1)
      && (!retries && (task.None? || weather.processingError.Some?) ==>
            if weather.dlqUp then h.fate == DeadLettered && |h.published| == 1 && h.published[0].topic == config.dlqTopic
            else h.fate == Lost && h.published == [])
      && h.ran == task
  {
    var task := Parse(c, m.value);
    if task.Some? {
      RetryMessageParses(c, m, task.value.imageId, task.value.attempt + 1);
    }
    hide Parse, Lawful, RetryMessage, RetryFields, DeadLetterFields, Pow2;
  }

  /** A step sleeps exactly before a retry, twice as long for each further attempt, whether or not the publish then works. */
  lemma SleepsBeforeRetries(c: Codec, config: Config, m: Message, weather: Weather)
    ensures
      var task, h := Parse(c, m.value), Handle(c, config, m, weather);
      && (task.None? || weather.processingError.None? || task.value.attempt >= config.maxAttempts ==> h.slept == 0.0)
      && (task.Some? && weather.processingError.Some? && task.value.attempt < config.maxAttempts ==>
            if task.value.attempt == 0 then h.slept == config.backoff
            else h.slept == 2.0 * (config.backoff * Pow2(task.value.attempt - 1) as real))
  {
    hide Parse, DeadLetter, RetryMessage, RetryFields;
    var task := Parse(c, m.value);
    if task.Some? && 0 < task.value.attempt {
      var half := Pow2(task.value.attempt - 1) as real;
      assert Pow2(task.value.attempt) as real == 2.0 * half;
      assert config.backoff * (2.0 * half) == 2.0 * (config.backoff * half);
    }
  }

  class Worker {
    const c: Codec
    const config: Config
    const broker: Broker
    var slept: real

    constructor (c: Codec, broker: Broker, retryMaxAttempts: int, retryBackoffSeconds: real, dlqTopic: string)
      ensures this.c == c && this.broker == broker && slept == 0.0
      ensures config.Valid() && config.dlqTopic == dlqTopic
      ensures config.maxAttempts == if retryMaxAttempts >= 0 then retryMaxAttempts else 0
      ensures config.backoff == if retryBackoffSeconds >= 0.0 then retryBackoffSeconds else 0.0
    {
      this.c, this.broker, this.slept := c, broker, 0.0;
      this.config := Config(if retryMaxAttempts >= 0 then retryMaxAttempts else 0,
                            if retryBackoffSeconds >= 0.0 then retryBackoffSeconds else 0.0, dlqTopic);
    }

    /**
      execute_once: the oldest processing message leaves the queue and exactly what the specification
      says is published in its place.
     */
    method ExecuteOnce(weather: Weather) returns (consumed: bool, fate: Fate)
      requires config.Valid()
      modifies this, broker
      ensures consumed <==> Waiting(old(broker.queues), PROCESSING_TOPIC) != []
      ensures !consumed ==> slept == old(slept)
                            && broker.queues == old(broker.queues)[PROCESSING_TOPIC := []]
      ensures consumed ==>
                var waiting := Waiting(old(broker.queues), PROCESSING_TOPIC);
                var h := Handle(c, config, waiting[0], weather);
                && fate == h.fate
                && slept == old(slept) + h.slept
                && broker.queues == AppendAll(old(broker.queues)[PROCESSING_TOPIC := waiting[1..]], h.published)
    {
      var message := broker.Consume(PROCESSING_TOPIC);
      if message.None? {
        return false, Finished;
      }
      var m := message.value;
      var task := Parse(c, m.value);
      if task.None? {
        fate := PublishDeadLetter(m, weather, "malformed", weather.parseError, map[]);
        return true, fate;
      }
      if weather.processingError.Some? {
        fate := HandleRetryOrDlq(m, task.value, weather);
      } else {
        fate := Finished;
      }
      consumed := true;
    }

    method HandleRetryOrDlq(m: Message, task: Task, weather: Weather) returns (fate: Fate)
      requires config.Valid() && Parse(c, m.value) == Some(task) && weather.processingError.Some?
      modifies this, broker
      ensures
        var h := Handle(c, config, m, weather);
        fate == h.fate && slept == old(slept) + h.slept && broker.queues == AppendAll(old(broker.queues), h.published)
    {
      if task.attempt < config.maxAttempts {
        fate := PublishRetry(m, task.imageId, task.attempt + 1, weather);
        return;
      }
      fate := PublishDeadLetter(m, weather, "retries_exhausted", weather.processingError.value, task.payload);
    }

    method PublishRetry(m: Message, id: ImageId, nextAttempt: nat, weather: Weather) returns (fate: Fate)
      requires config.Valid() && nextAttempt >= 1
      modifies this, broker
      ensures slept == old(slept) + config.backoff * Pow2(nextAttempt - 1) as real
      ensures
        if weather.retryError.None? then
          fate == Retried && broker.queues == Append(old(broker.queues), RetryMessage(c, m, id, nextAttempt))
        else
          var h := Bury(c, config, m, weather, "retry_publish_failed", weather.retryError.value,
                        RetryFields(c, id, nextAttempt), 0.0, None);
          fate == h.fate && broker.queues == AppendAll(old(broker.queues), h.published)
    {
      var delay := config.backoff * Pow2(nextAttempt - 1) as real;
      if delay > 0.0 {
        slept := slept + delay;
      }
      var ok := broker.Publish(RetryMessage(c, m, id, nextAttempt), weather.retryError.None?);
      fate := Retried;
      if !ok {
        fate := PublishDeadLetter(m, weather, "retry_publish_failed", weather.retryError.value,
                                  RetryFields(c, id, nextAttempt));
      }
    }

    method PublishDeadLetter(m: Message, weather: Weather, reason: string, error: string, payload: Fields)
      returns (fate: Fate)
      modifies broker
      ensures
        var h := Bury(c, config, m, weather, reason, error, payload, 0.0, None);
        fate == h.fate && broker.queues == AppendAll(old(broker.queues), h.published)
    {
      var letter := DeadLetter(c, config.dlqTopic, m, weather.now, reason, error, payload);
      var ok := broker.Publish(letter, weather.dlqUp);
      fate := if ok then DeadLettered else Lost;
      assert [letter][..0] == [];
      assert AppendAll(broker.queues, []) == broker.queues;
    }
  }
}
