/** The in-memory broker: one FIFO queue per topic. */
module MessageBroker {
  import opened Basics
  import opened TaskMessages

  type Queues = map<string, seq<Message>>

  /** The waiting messages of a topic, oldest first. */
  function Waiting(queues: Queues, topic: string): seq<Message> {
    if topic in queues then queues[topic] else []
  }

  function Append(queues: Queues, m: Message): Queues {
    queues[m.topic := Waiting(queues, m.topic) + [m]]
  }

  function AppendAll(queues: Queues, ms: seq<Message>): Queues {
    if ms == [] then queues else Append(AppendAll(queues, ms[..|ms| - 1]), ms[|ms| - 1])
  }

  class Broker {
    var queues: Queues

    constructor ()
      ensures queues == map[]
    {
      queues := map[];
    }

    /** _get_queue: a topic's queue, created on first use. */
    method Open(topic: string)
      modifies this
      ensures queues == old(queues)[topic := Waiting(old(queues), topic)]
    {
      if topic !in queues {
        queues := queues[topic := []];
      }
    }

    /** `up` is the broker's answer: a publish that raises leaves the queues alone. */
    method Publish(m: Message, up: bool) returns (ok: bool)
      modifies this
      ensures ok == up
      ensures queues == if ok then Append(old(queues), m) else old(queues)
    {
      ok := up;
      if up {
        Open(m.topic);
        queues := queues[m.topic := queues[m.topic] + [m]];
      }
    }

    /** The oldest waiting message leaves the queue; the other topics are untouched. */
    method Consume(topic: string) returns (m: Option<Message>)
      modifies this
      ensures m.Some? <==> Waiting(old(queues), topic) != []
      ensures m.Some? ==> Waiting(old(queues), topic) == [m.value] + Waiting(queues, topic)
      ensures m.None? ==> Waiting(queues, topic) == []
      ensures queues == old(queues)[topic := Waiting(queues, topic)]
    {
      Open(topic);
      if queues[topic] == [] {
        return None;
      }
      m := Some(queues[topic][0]);
      queues := queues[topic := queues[topic][1..]];
    }

    method Close()
      modifies this
      ensures queues == map[]
    {
      queues := map[];
    }
  }

  /** Publishing touches only the messages' own topics, in publication order. */
  lemma {:induction false} AppendAllByTopic(queues: Queues, ms: seq<Message>, topic: string)
    ensures Waiting(AppendAll(queues, ms), topic) == Waiting(queues, topic) + OnTopic(ms, topic)
  {
    if ms == [] {
    } else {
      AppendAllByTopic(queues, ms[..|ms| - 1], topic);
    }
  }

  function OnTopic(ms: seq<Message>, topic: string): seq<Message> {
    if ms == [] then []
    else OnTopic(ms[..|ms| - 1], topic) + (if ms[|ms| - 1].topic == topic then [ms[|ms| - 1]] else [])
  }
}
