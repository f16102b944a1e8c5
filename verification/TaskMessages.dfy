/**
  Messages of the processing pipeline: what the upload publishes, what the worker reads, what it
  republishes or dead-letters, and what the replay tool makes of a dead letter.
 */
module TaskMessages {
  import opened Basics

  datatype Json =
    | JNull
    | JBool(b: bool)
    | JInt(n: int)
    | JFloat(mantissa: int, exponent: int)
    | JString(s: string)
    | JArray(items: seq<Json>)
    | JObject(fields: map<string, Json>)

  type Fields = map<string, Json>

  /**
    The library functions the pipeline leans on: uuid.UUID and str, json.loads on text and on bytes,
    json.dumps with the encoding to bytes, and the decoding of bytes with replacement characters.
    `None` stands for a ValueError.
   */
  datatype Codec = Codec(
    parseId: string -> Option<ImageId>, showId: ImageId -> string, str: Json -> string,
    loads: string -> Option<Json>, loadsBytes: Bytes -> Option<Json>, dump: Fields -> Bytes,
    decode: Bytes -> string)

  /** What the code puts into an object without looking inside: text, an integer, or something that was loaded. */
  ghost predicate Plain(c: Codec, j: Json) {
    j.JString? || j.JInt? || exists b: Bytes :: c.loadsBytes(b) == Some(j)
  }

  /** A field of an object the code dumps: plain, or an object of plain fields. */
  ghost predicate Dumpable(c: Codec, j: Json) {
    Plain(c, j) || (j.JObject? && forall name <- j.fields :: Plain(c, j.fields[name]))
  }

  /** What those libraries promise. */
  ghost predicate Lawful(c: Codec) {
    && (forall id: ImageId :: c.parseId(c.showId(id)) == Some(id) && c.showId(id) != "")
    && (forall s: string :: c.str(JString(s)) == s)
    && c.parseId(c.str(JNull)) == None
    && (forall fields: Fields ::
          (forall name <- fields :: Dumpable(c, fields[name])) ==> c.loadsBytes(c.dump(fields)) == Some(JObject(fields)))
  }

  const PROCESSING_TOPIC := "image.processing"

  datatype Message = Message(topic: string, key: string, value: Bytes)

  /** What the worker gets out of a well-formed message. */
  datatype Task = Task(imageId: ImageId, attempt: nat, payload: Fields)

  /** isinstance(x, int) holds of booleans too. */
  function AsInt(j: Json): Option<int> {
    match j
    case JInt(n) => Some(n)
    case JBool(b) => Some(if b then 1 else 0)
    case _ => None
  }

  /** _parse_payload; `None` is the malformed case. */
  function Parse(c: Codec, value: Bytes): Option<Task> {
    match c.loadsBytes(value)
    case Some(JObject(fields)) =>
      if "image_id" !in fields then None
      else
        var id := c.parseId(c.str(fields["image_id"]));
        var attempt := AsInt(if "attempt" in fields then fields["attempt"] else JInt(0));
        if id.None? || attempt.None? || attempt.value < 0 then None
        else Some(Task(id.value, attempt.value, fields))
    case _ => None
  }

  function UploadMessage(c: Codec, id: ImageId): Message {
    Message(PROCESSING_TOPIC, c.showId(id), c.dump(map["image_id" := JString(c.showId(id))]))
  }

  function RetryFields(c: Codec, id: ImageId, attempt: int): Fields {
    map["image_id" := JString(c.showId(id)), "attempt" := JInt(attempt)]
  }

  function RetryMessage(c: Codec, m: Message, id: ImageId, attempt: int): Message {
    Message(PROCESSING_TOPIC, if m.key != "" then m.key else c.showId(id), c.dump(RetryFields(c, id, attempt)))
  }

  function DeadLetterFields(c: Codec, m: Message, now: string, reason: string, error: string, payload: Fields): Fields {
    map["dead_lettered_at" := JString(now),
        "reason" := JString(reason),
        "error" := JString(error),
        "original_topic" := JString(PROCESSING_TOPIC),
        "original_key" := JString(m.key),
        "original_value" := JString(c.decode(m.value)),
        "payload" := JObject(payload)]
  }

  function DeadLetter(c: Codec, topic: string, m: Message, now: string, reason: string, error: string,
                      payload: Fields): Message
  {
    Message(topic, m.key, c.dump(DeadLetterFields(c, m, now, reason, error, payload)))
  }

  // ---------------------------------------------------------------------------------------
  // The replay tool's view of a dead letter
  // ---------------------------------------------------------------------------------------

  datatype ReplayMessage = ReplayMessage(key: string, value: Bytes)

  function Field(fields: Fields, name: string): Json {
    if name in fields then fields[name] else JNull
  }

  /** Python truth value. */
  predicate Truthy(j: Json) {
    match j
    case JNull => false
    case JBool(b) => b
    case JInt(n) => n != 0
    case JFloat(mantissa, _) => mantissa != 0
    case JString(s) => s != ""
    case JArray(items) => items != []
    case JObject(fields) => fields != map[]
  }

  function FreshFields(c: Codec, imageId: Json): Fields {
    map["image_id" := JString(c.str(imageId)), "attempt" := JInt(0)]
  }

  function Rebuild(c: Codec, originalKey: Json, imageId: Json): ReplayMessage {
    ReplayMessage(c.str(if Truthy(originalKey) then originalKey else imageId), c.dump(FreshFields(c, imageId)))
  }

  /** _build_replay_message; `None` is the ValueError that makes the tool skip the record. */
  function BuildReplay(c: Codec, letter: Fields): Option<ReplayMessage> {
    var embedded := Field(letter, "payload");
    if embedded.JObject? && Field(embedded.fields, "image_id") != JNull then
      Some(Rebuild(c, Field(letter, "original_key"), Field(embedded.fields, "image_id")))
    else
      match Field(letter, "original_value")
      case JString(text) =>
        (match c.loads(text)
         case Some(JObject(original)) =>
           if "image_id" in original then
             Some(Rebuild(c, Field(letter, "original_key"), JString(c.str(original["image_id"]))))
           else None
         case _ => None)
      case _ => None
  }

  /** _parse_dlq_payload followed by _build_replay_message. */
  function Replay(c: Codec, value: Bytes): Option<ReplayMessage> {
    match c.loadsBytes(value)
    case Some(JObject(letter)) => BuildReplay(c, letter)
    case _ => None
  }

  // ---------------------------------------------------------------------------------------
  // Round trips
  // ---------------------------------------------------------------------------------------

  /** What the upload publishes is read back as attempt 0 for the same image. */
  lemma UploadMessageParses(c: Codec, id: ImageId)
    requires Lawful(c)
    ensures
      var task := Parse(c, UploadMessage(c, id).value);
      task.Some? && task.value.imageId == id && task.value.attempt == 0
  {
    var fields: Fields := map["image_id" := JString(c.showId(id))];
    assert forall name <- fields :: Dumpable(c, fields[name]);
  }

  /**
    A message is accepted exactly when it is a JSON object with an image_id whose text is a UUID and,
    if it has an attempt, that is a non-negative integer (True and False count as 1 and 0); it is then
    that image at that attempt, or at attempt 0, with the whole object as payload.
   */
  lemma AcceptedExactly(c: Codec, value: Bytes, task: Task)
    ensures Parse(c, value) == Some(task) <==>
              && c.loadsBytes(value) == Some(JObject(task.payload))
              && "image_id" in task.payload && c.parseId(c.str(task.payload["image_id"])) == Some(task.imageId)
              && (if "attempt" in task.payload then
                    || task.payload["attempt"] == JInt(task.attempt)
                    || (task.payload["attempt"] == JBool(true) && task.attempt == 1)
                    || (task.payload["attempt"] == JBool(false) && task.attempt == 0)
                  else task.attempt == 0)
  {
  }

  lemma RetryFieldsDumpable(c: Codec, id: ImageId, attempt: int)
    ensures
      var fields := RetryFields(c, id, attempt);
      (forall name <- fields :: Dumpable(c, fields[name])) && Dumpable(c, JObject(fields))
  {
  }

  /** What a well-formed message carries was loaded, so it can be dumped again. */
  lemma PayloadDumpable(c: Codec, value: Bytes)
    requires Parse(c, value).Some?
    ensures Dumpable(c, JObject(Parse(c, value).value.payload))
  {
    assert c.loadsBytes(value) == Some(JObject(Parse(c, value).value.payload));
  }

  /** A retry is read back as the same image with the attempt it carries, under the old key if there was one. */
  lemma RetryMessageParses(c: Codec, m: Message, id: ImageId, attempt: nat)
    requires Lawful(c)
    ensures Parse(c, RetryMessage(c, m, id, attempt).value) == Some(Task(id, attempt, RetryFields(c, id, attempt)))
    ensures RetryMessage(c, m, id, attempt).topic == "image.processing"
    ensures RetryMessage(c, m, id, attempt).key == if m.key == "" then c.showId(id) else m.key
  {
    RetryFieldsDumpable(c, id, attempt);
  }

  /** A rebuilt message carries the id text it was given, with the attempt reset. */
  lemma RebuildParses(c: Codec, originalKey: Json, imageId: Json)
    requires Lawful(c)
    ensures
      var task := Parse(c, Rebuild(c, originalKey, imageId).value);
      var id := c.parseId(c.str(imageId));
      if id.Some? then task.Some? && task.value.imageId == id.value && task.value.attempt == 0 else task.None?
  {
    var fields := FreshFields(c, imageId);
    assert forall name <- fields :: Dumpable(c, fields[name]);
  }

  lemma DeadLetterLoads(c: Codec, m: Message, now: string, reason: string, error: string, payload: Fields)
    requires Lawful(c) && Dumpable(c, JObject(payload))
    ensures
      var fields := DeadLetterFields(c, m, now, reason, error, payload);
      c.loadsBytes(c.dump(fields)) == Some(JObject(fields))
  {
    var fields := DeadLetterFields(c, m, now, reason, error, payload);
    assert forall name <- fields :: Dumpable(c, fields[name]) by {
      hide Lawful;
    }
  }

  /** What a dead letter becomes when replayed depends only on the payload and, failing that, on the original text. */
  lemma ReplayOfDeadLetter(c: Codec, topic: string, m: Message, now: string, reason: string, error: string,
                           payload: Fields)
    requires Lawful(c) && Dumpable(c, JObject(payload))
    ensures Replay(c, DeadLetter(c, topic, m, now, reason, error, payload).value)
            == BuildReplay(c, DeadLetterFields(c, m, now, reason, error, payload))
  {
    DeadLetterLoads(c, m, now, reason, error, payload);
  }

  /**
    Round trip: a message that parses, dead-lettered with its own payload (retries exhausted) or with
    the payload of the retry that could not be published, comes back from the replay tool as the same
    image at attempt 0, under the original key, or under the image id text if that was empty.
   */
  lemma DeadLetterRoundTrip(c: Codec, topic: string, m: Message, now: string, reason: string, error: string,
                            payload: Fields, attempt: int)
    requires Lawful(c) && Parse(c, m.value).Some?
    requires payload == Parse(c, m.value).value.payload
             || payload == RetryFields(c, Parse(c, m.value).value.imageId, attempt)
    ensures
      var id := Parse(c, m.value).value.imageId;
      var back := Replay(c, DeadLetter(c, topic, m, now, reason, error, payload).value);
      && back.Some?
      && Parse(c, back.value.value).Some?
      && Parse(c, back.value.value).value.imageId == id
      && Parse(c, back.value.value).value.attempt == 0
      && (m.key != "" ==> back.value.key == m.key)
      && (m.key == "" ==> c.parseId(back.value.key) == Some(id))
  {
    hide Dumpable, Plain;
    PayloadDumpable(c, m.value);
    RetryFieldsDumpable(c, Parse(c, m.value).value.imageId, attempt);
    ReplayOfDeadLetter(c, topic, m, now, reason, error, payload);
    RebuildParses(c, JString(m.key), payload["image_id"]);
  }

  /**
    Any dead letter is replayable exactly when its payload is an object with an image_id other than null,
    or its original text is JSON of an object with an image_id.
   */
  lemma ReplayableExactly(c: Codec, value: Bytes)
    ensures Replay(c, value).Some? <==>
              && c.loadsBytes(value).Some? && c.loadsBytes(value).value.JObject?
              && var letter := c.loadsBytes(value).value.fields;
                 || ("payload" in letter && letter["payload"].JObject? && "image_id" in letter["payload"].fields
                     && letter["payload"].fields["image_id"] != JNull)
                 || ("original_value" in letter && letter["original_value"].JString?
                     && var original := c.loads(letter["original_value"].s);
                        original.Some? && original.value.JObject? && "image_id" in original.value.fields)
  {
  }

  /**
    A malformed message is replayable exactly when its text is a JSON object with an image_id, and
    the replayed message parses exactly when that id does: a bad attempt is repaired, a bad id is not.
   */
  lemma MalformedReplayExactly(c: Codec, topic: string, m: Message, now: string, error: string)
    requires Lawful(c)
    ensures
      var back := Replay(c, DeadLetter(c, topic, m, now, "malformed", error, map[]).value);
      var original := c.loads(c.decode(m.value));
      && (back.Some? <==> original.Some? && original.value.JObject? && "image_id" in original.value.fields)
      && (back.Some? ==>
            var id := c.parseId(c.str(original.value.fields["image_id"]));
            var task := Parse(c, back.value.value);
            && (if id.Some? then task.Some? && task.value.imageId == id.value && task.value.attempt == 0
                else task.None?)
            && back.value.key == if m.key != "" then m.key else c.str(original.value.fields["image_id"]))
  {
    ReplayOfDeadLetter(c, topic, m, now, "malformed", error, map[]);
    var original := c.loads(c.decode(m.value));
    if original.Some? && original.value.JObject? && "image_id" in original.value.fields {
      RebuildParses(c, JString(m.key), JString(c.str(original.value.fields["image_id"])));
    }
  }
}
