/** The replay tool's batch loop: poll dead letters, republish the replayable ones, commit each batch. */
module DlqReplay {
  import opened Basics
  import opened TaskMessages

  /** One poll: the records of each partition; an empty poll means nothing arrived in time. */
  type Poll = seq<seq<Bytes>>

  function Records(poll: Poll): seq<Bytes> {
    if poll == [] then [] else poll[0] + Records(poll[1..])
  }

  function Stream(polls: seq<Poll>): seq<Bytes> {
    if polls == [] then [] else Records(polls[0]) + Stream(polls[1..])
  }

  /** Every poll keeps to max_records, the part of the limit not yet inspected. */
  predicate RespectsMaxRecords(polls: seq<Poll>, limit: int) {
    polls == [] || limit <= 0
    || (|Records(polls[0])| <= limit && RespectsMaxRecords(polls[1..], limit - |Records(polls[0])|))
  }

  /** How many records a run that nothing interrupts inspects: whole polls, up to the first empty one or the limit. */
  function Inspectable(polls: seq<Poll>, limit: int): nat {
    if polls == [] || limit <= 0 || polls[0] == [] then 0
    else |Records(polls[0])| + Inspectable(polls[1..], limit - |Records(polls[0])|)
  }

  /** The messages the tool makes of the records, skipping those it cannot replay. */
  function Replays(c: Codec, records: seq<Bytes>): seq<ReplayMessage> {
    if records == [] then []
    else
      var last := Replay(c, records[|records| - 1]);
      Replays(c, records[..|records| - 1]) + (if last.Some? then [last.value] else [])
  }

  function Skipped(c: Codec, records: seq<Bytes>): nat {
    if records == [] then 0
    else Skipped(c, records[..|records| - 1]) + (if Replay(c, records[|records| - 1]).None? then 1 else 0)
  }

  lemma {:induction false} ReplayedOrSkipped(c: Codec, records: seq<Bytes>)
    ensures |Replays(c, records)| + Skipped(c, records) == |records|
  {
    if records != [] {
      ReplayedOrSkipped(c, records[..|records| - 1]);
    }
  }

  lemma {:induction false} ReplaysOfPrefix(c: Codec, records: seq<Bytes>, n: nat)
    requires n <= |records|
    ensures Replays(c, records[..n]) <= Replays(c, records)
  {
    if n < |records| {
      ReplaysOfPrefix(c, records[..|records| - 1], n);
      assert records[..|records| - 1][..n] == records[..n];
    } else {
      assert records[..n] == records;
    }
  }

  /**
    The counters and effects of a run.  `handled` counts the records that were sent or skipped;
    `raised` says that a send or a commit failed and ended the run.
   */
  datatype Outcome = Outcome(inspected: nat, replayed: nat, skipped: nat, handled: nat,
                             sent: seq<ReplayMessage>, committed: nat, raised: bool)

  /** What holds of the counters after any number of records of the stream. */
  ghost predicate Tally(c: Codec, dryRun: bool, stream: seq<Bytes>, o: Outcome) {
    && o.committed <= o.handled <= o.inspected <= |stream|
    && (o.raised ==> o.inspected <= o.handled + 1)
    && (!o.raised ==> o.inspected == o.handled)
    && o.skipped == Skipped(c, stream[..o.handled])
    && o.sent == (if dryRun then [] else Replays(c, stream[..o.handled]))
    && o.replayed == |o.sent|
    && (dryRun ==> o.committed == 0 && !o.raised)
  }

  /** Of the first n records every one that can be replayed was sent, and its send did not fail. */
  ghost predicate SendsWorked(c: Codec, dryRun: bool, stream: seq<Bytes>, n: nat, sendFails: nat -> bool)
    requires n <= |stream|
  {
    !dryRun ==> forall k :: 0 <= k < n && Replay(c, stream[k]).Some? ==> !sendFails(k)
  }

  /** The run ended in the send of a record that can be replayed. */
  ghost predicate SendRaised(c: Codec, dryRun: bool, stream: seq<Bytes>, o: Outcome, sendFails: nat -> bool) {
    && o.raised && !dryRun && o.inspected == o.handled + 1 <= |stream|
    && Replay(c, stream[o.handled]).Some? && sendFails(o.handled)
  }

  /** The run ended in the commit of a poll whose records were all handled. */
  ghost predicate CommitRaised(dryRun: bool, o: Outcome, commitFails: nat -> bool) {
    o.raised && !dryRun && o.inspected == o.handled > o.committed && commitFails(o.handled)
  }

  lemma TallyStart(c: Codec, dryRun: bool, stream: seq<Bytes>)
    ensures Tally(c, dryRun, stream, Outcome(0, 0, 0, 0, [], 0, false))
  {
    assert stream[..0] == [];
  }

  /** What a finished run's tally amounts to. */
  lemma TallyEnd(c: Codec, dryRun: bool, stream: seq<Bytes>, o: Outcome)
    requires Tally(c, dryRun, stream, o)
    ensures o.committed <= o.handled <= o.inspected <= |stream| && (!o.raised ==> o.inspected == o.handled)
    ensures o.sent == if dryRun then [] else Replays(c, stream[..o.handled])
    ensures !dryRun ==> o.replayed + o.skipped == o.handled
    ensures Replays(c, stream[..o.committed]) <= o.sent
    ensures dryRun ==> o.committed == 0 && o.replayed == 0 && !o.raised
  {
    ReplayedOrSkipped(c, stream[..o.handled]);
    ReplaysOfPrefix(c, stream[..o.handled], o.committed);
    assert stream[..o.handled][..o.committed] == stream[..o.committed];
    assert stream[..0] == [];
  }

  /** After i polls the run has seen all before `inspected`; the rest of the stream is in the polls to come. */
  ghost predicate Cursor(polls: seq<Poll>, i: nat, inspected: nat, limit: int) {
    && i <= |polls| && inspected <= |Stream(polls)|
    && Stream(polls)[inspected..] == Stream(polls[i..])
    && RespectsMaxRecords(polls[i..], limit - inspected)
    && (limit >= 0 ==> inspected <= limit)
    && inspected + Inspectable(polls[i..], limit - inspected) == Inspectable(polls, limit)
  }

  lemma CursorStart(polls: seq<Poll>, limit: int)
    requires RespectsMaxRecords(polls, limit)
    ensures Cursor(polls, 0, 0, limit)
  {
    assert polls[0..] == polls && Stream(polls)[0..] == Stream(polls);
  }

  /** The next poll is the next stretch of the stream. */
  lemma CursorMoves(polls: seq<Poll>, i: nat, inspected: nat, limit: int)
    requires Cursor(polls, i, inspected, limit) && i < |polls| && inspected < limit && polls[i] != []
    ensures
      var n, stream := |Records(polls[i])|, Stream(polls);
      && inspected + n <= |stream| && inspected + n <= limit
      && stream[inspected..inspected + n] == Records(polls[i])
      && Cursor(polls, i + 1, inspected + n, limit)
  {
    var stream, rest := Stream(polls), polls[i..];
    assert rest[0] == polls[i] && rest[1..] == polls[i + 1..];
    assert Stream(rest) == Records(polls[i]) + Stream(polls[i + 1..]);
    hide Stream, Records;
    SliceOfSlice(stream, 0, stream, inspected, Records(polls[i]), Stream(polls[i + 1..]));
  }

  lemma CursorEnd(polls: seq<Poll>, i: nat, inspected: nat, limit: int)
    requires Cursor(polls, i, inspected, limit)
    ensures limit >= 0 ==> inspected <= limit
    ensures i == |polls| || polls[i] == [] || inspected >= limit ==> inspected == Inspectable(polls, limit)
  {
  }

  lemma TallyOne(c: Codec, stream: seq<Bytes>, n: nat)
    requires n < |stream|
    ensures Replays(c, stream[..n + 1])
            == Replays(c, stream[..n]) + (if Replay(c, stream[n]).Some? then [Replay(c, stream[n]).value] else [])
    ensures Skipped(c, stream[..n + 1]) == Skipped(c, stream[..n]) + (if Replay(c, stream[n]).None? then 1 else 0)
  {
    hide Replay;
    assert stream[..n + 1][..n] == stream[..n];
    assert stream[..n + 1][n] == stream[n];
  }

  /** The loop body: what one record does to the counters. */
  function Inspect(dryRun: bool, message: Option<ReplayMessage>, o: Outcome, sendFails: bool): Outcome {
    var n := o.inspected + 1;
    if message.None? then o.(inspected := n, handled := n, skipped := o.skipped + 1)
    else if dryRun then o.(inspected := n, handled := n)
    else if sendFails then o.(inspected := n, raised := true)
    else o.(inspected := n, handled := n, sent := o.sent + [message.value], replayed := o.replayed + 1)
  }

  lemma InspectKeepsTally(c: Codec, dryRun: bool, stream: seq<Bytes>, o: Outcome, sendFails: bool)
    requires Tally(c, dryRun, stream, o) && !o.raised && o.inspected < |stream|
    ensures Tally(c, dryRun, stream, Inspect(dryRun, Replay(c, stream[o.inspected]), o, sendFails))
  {
    hide Replay, Replays, Skipped;
    TallyOne(c, stream, o.inspected);
  }

  /** One partition's records of a poll, in order. */
  method ReplayPartition(c: Codec, dryRun: bool, records: seq<Bytes>, ghost stream: seq<Bytes>, o: Outcome,
                         sendFails: nat -> bool) returns (o': Outcome)
    requires Tally(c, dryRun, stream, o) && !o.raised && o.handled == o.inspected
    requires o.inspected + |records| <= |stream| && stream[o.inspected..o.inspected + |records|] == records
    requires SendsWorked(c, dryRun, stream, o.handled, sendFails)
    ensures Tally(c, dryRun, stream, o') && o'.committed == o.committed
    ensures o'.handled <= o'.inspected <= o.inspected + |records|
    ensures SendsWorked(c, dryRun, stream, o'.handled, sendFails)
    ensures if o'.raised then SendRaised(c, dryRun, stream, o', sendFails)
            else o'.inspected == o'.handled == o.inspected + |records|
  {
    hide Tally, Replay;
    o' := o;
    var i := 0;
    while i < |records|
      invariant 0 <= i <= |records|
      invariant Tally(c, dryRun, stream, o') && !o'.raised && o'.committed == o.committed
      invariant o'.inspected == o'.handled == o.inspected + i
      invariant SendsWorked(c, dryRun, stream, o'.handled, sendFails)
    {
      assert records[i] == stream[o'.inspected];
      var message, at := Replay(c, records[i]), o'.inspected;
      InspectKeepsTally(c, dryRun, stream, o', sendFails(at));
      if message.None? {
        o' := o'.(inspected := at + 1, handled := at + 1, skipped := o'.skipped + 1);
      } else if dryRun {
        o' := o'.(inspected := at + 1, handled := at + 1);
      } else if sendFails(at) {
        o' := o'.(inspected := at + 1, raised := true);
        return;
      } else {
        o' := o'.(inspected := at + 1, handled := at + 1, sent := o'.sent + [message.value],
                  replayed := o'.replayed + 1);
      }
      i := i + 1;
    }
  }

  /** A commit, whether it works or raises. */
  lemma CommitKeepsTally(c: Codec, dryRun: bool, stream: seq<Bytes>, o: Outcome)
    requires Tally(c, dryRun, stream, o) && !o.raised
    ensures o.committed <= o.handled == o.inspected <= |stream|
    ensures !dryRun ==> Tally(c, dryRun, stream, o.(raised := true))
    ensures !dryRun ==> Tally(c, dryRun, stream, o.(committed := o.inspected))
  {
  }

  lemma NextPartition(poll: Poll, i: nat)
    requires i < |poll|
    ensures Records(poll[i..]) == poll[i] + Records(poll[i + 1..])
  {
    assert poll[i..][1..] == poll[i + 1..];
  }

  lemma NoneLeft(poll: Poll)
    ensures Records(poll[|poll|..]) == []
  {
  }

  /** One poll: all its partitions, then the commit. */
  method ReplayPoll(c: Codec, dryRun: bool, poll: Poll, ghost stream: seq<Bytes>, o: Outcome,
                    sendFails: nat -> bool, commitFails: nat -> bool) returns (o': Outcome)
    requires Tally(c, dryRun, stream, o) && !o.raised && (dryRun || o.committed == o.handled)
    requires o.inspected + |Records(poll)| <= |stream| && o.handled == o.inspected
    requires stream[o.inspected..o.inspected + |Records(poll)|] == Records(poll)
    requires SendsWorked(c, dryRun, stream, o.handled, sendFails)
    ensures Tally(c, dryRun, stream, o')
    ensures o'.handled <= o'.inspected <= o.inspected + |Records(poll)|
    ensures SendsWorked(c, dryRun, stream, o'.handled, sendFails)
    ensures o'.raised ==> o'.committed == o.committed
    ensures if o'.raised then
              SendRaised(c, dryRun, stream, o', sendFails)
              || (CommitRaised(dryRun, o', commitFails) && o'.handled == o.inspected + |Records(poll)|)
            else
              && o'.inspected == o'.handled == o.inspected + |Records(poll)| && (dryRun || o'.committed == o'.handled)
              && (!dryRun && Records(poll) != [] ==> !commitFails(o'.handled))
  {
    hide Tally, Records, SendsWorked, Replay;
    o' := o;
    ghost var seen := 0;
    assert poll[0..] == poll && Records(poll)[0..] == Records(poll);
    CommitKeepsTally(c, dryRun, stream, o);
    for i := 0 to |poll|
      invariant Tally(c, dryRun, stream, o') && !o'.raised && o'.committed == o.committed
      invariant 0 <= seen && seen + |Records(poll[i..])| == |Records(poll)|
      invariant Records(poll)[seen..] == Records(poll[i..])
      invariant o'.inspected == o'.handled == o.inspected + seen
      invariant SendsWorked(c, dryRun, stream, o'.handled, sendFails)
    {
      NextPartition(poll, i);
      SliceOfSlice(stream, o.inspected, Records(poll), seen, poll[i], Records(poll[i + 1..]));
      o' := ReplayPartition(c, dryRun, poll[i], stream, o', sendFails);
      if o'.raised {
        return;
      }
      seen := seen + |poll[i]|;
    }
    NoneLeft(poll);
    CommitKeepsTally(c, dryRun, stream, o');
    if !dryRun && o'.inspected > o.inspected {
      if commitFails(o'.inspected) {
        o' := o'.(raised := true);
        return;
      }
      o' := o'.(committed := o'.inspected);
    }
  }

  lemma SliceOfSlice(stream: seq<Bytes>, at: nat, records: seq<Bytes>, seen: nat, first: seq<Bytes>, rest: seq<Bytes>)
    requires at + |records| <= |stream| && stream[at..at + |records|] == records
    requires seen <= |records| && records[seen..] == first + rest
    ensures at + seen + |first| <= |stream| && stream[at + seen..at + seen + |first|] == first
    ensures seen + |first| <= |records| && records[seen + |first|..] == rest
  {
    assert |records| - seen == |first| + |rest|;
    forall k | 0 <= k < |first|
      ensures stream[at + seen + k] == first[k]
    {
      assert records[seen..][k] == first[k];
      assert stream[at..at + |records|][seen + k] == records[seen + k];
    }
  }

  /** Where the stream stands after the first i polls. */
  function End(polls: seq<Poll>, i: nat): nat
    requires i <= |polls|
  {
    |Stream(polls[..i])|
  }

  lemma {:induction false} StreamAppend(a: seq<Poll>, b: seq<Poll>)
    ensures Stream(a + b) == Stream(a) + Stream(b)
  {
    hide Records;
    if a == [] {
      assert a + b == b && Stream(a) == [];
    } else {
      assert (a + b)[0] == a[0];
      StreamAppend(a[1..], b);
      assert (a + b)[1..] == a[1..] + b;
    }
  }

  lemma EndMoves(polls: seq<Poll>, i: nat)
    requires i < |polls|
    ensures End(polls, i + 1) == End(polls, i) + |Records(polls[i])|
  {
    assert polls[..i + 1] == polls[..i] + [polls[i]];
    StreamAppend(polls[..i], [polls[i]]);
    assert Stream([polls[i]]) == Records(polls[i]) + Stream([]);
  }

  /**
    A run that nothing interrupts inspects whole polls and goes on until the limit is reached, a poll is
    empty, or there are no more.
   */
  lemma {:induction false} InspectsUntil(polls: seq<Poll>, limit: int) returns (i: nat)
    ensures i <= |polls| && Inspectable(polls, limit) == End(polls, i)
    ensures i == |polls| || polls[i] == [] || limit <= End(polls, i)
    ensures forall j :: 0 <= j < i ==> polls[j] != [] && End(polls, j) < limit
  {
    if polls == [] || limit <= 0 || polls[0] == [] {
      i := 0;
    } else {
      var n := |Records(polls[0])|;
      var k := InspectsUntil(polls[1..], limit - n);
      i := k + 1;
      forall j | 0 < j <= |polls| ensures End(polls, j) == n + End(polls[1..], j - 1) {
        assert polls[..j][1..] == polls[1..][..j - 1] && polls[..j][0] == polls[0];
      }
      forall j | 0 <= j < i ensures polls[j] != [] && End(polls, j) < limit {
        if j > 0 {
          assert polls[1..][j - 1] == polls[j];
        }
      }
    }
  }

  /** The run commits after poll i: the poll brought records. */
  predicate CommitsAfter(polls: seq<Poll>, i: nat)
    requires i < |polls|
  {
    Records(polls[i]) != []
  }

  /** No commit among the first n polls fails. */
  ghost predicate CommitsWorked(dryRun: bool, polls: seq<Poll>, n: nat, commitFails: nat -> bool)
    requires n <= |polls|
  {
    !dryRun ==> forall i :: 0 <= i < n && CommitsAfter(polls, i) ==> !commitFails(End(polls, i + 1))
  }

  lemma CommitsMove(dryRun: bool, polls: seq<Poll>, i: nat, commitFails: nat -> bool)
    requires i < |polls| && CommitsWorked(dryRun, polls, i, commitFails)
    requires !dryRun && Records(polls[i]) != [] ==> !commitFails(End(polls, i + 1))
    ensures CommitsWorked(dryRun, polls, i + 1, commitFails)
  {
    hide End, Records;
  }

  lemma RunStart(c: Codec, dryRun: bool, polls: seq<Poll>, sendFails: nat -> bool, commitFails: nat -> bool)
    ensures End(polls, 0) == 0 && SendsWorked(c, dryRun, Stream(polls), 0, sendFails)
    ensures CommitsWorked(dryRun, polls, 0, commitFails)
  {
  }

  /**
    The while loop: poll until the limit is reached, an empty poll comes back, or a call fails.  `done`
    counts the polls that were handled and committed.
   */
  method PollUntilDone(c: Codec, limit: int, dryRun: bool, polls: seq<Poll>,
                       sendFails: nat -> bool, commitFails: nat -> bool) returns (o: Outcome, ghost done: nat)
    requires RespectsMaxRecords(polls, limit)
    ensures Tally(c, dryRun, Stream(polls), o) && o.handled <= |Stream(polls)|
    ensures limit >= 0 ==> o.inspected <= limit
    ensures SendsWorked(c, dryRun, Stream(polls), o.handled, sendFails)
    ensures done <= |polls| && CommitsWorked(dryRun, polls, done, commitFails)
    ensures !dryRun ==> o.committed == End(polls, done)
    ensures if o.raised then
              && done < |polls| && o.inspected <= End(polls, done + 1)
              && (SendRaised(c, dryRun, Stream(polls), o, sendFails)
                  || (CommitRaised(dryRun, o, commitFails) && o.handled == End(polls, done + 1)))
            else o.inspected == o.handled == Inspectable(polls, limit) && (dryRun || o.committed == o.handled)
  {
    hide Tally, Stream, Cursor, Records, Replay, End, RespectsMaxRecords, Inspectable, SendsWorked, SendRaised,
         CommitsWorked;
    o := Outcome(0, 0, 0, 0, [], 0, false);
    TallyStart(c, dryRun, Stream(polls));
    CursorStart(polls, limit);
    RunStart(c, dryRun, polls, sendFails, commitFails);
    done := 0;
    var i := 0;
    while o.inspected < limit
      invariant 0 <= i <= |polls| && done == i
      invariant Tally(c, dryRun, Stream(polls), o) && !o.raised && (dryRun || o.committed == o.handled)
      invariant Cursor(polls, i, o.inspected, limit) && o.inspected == o.handled == End(polls, i) <= |Stream(polls)|
      invariant SendsWorked(c, dryRun, Stream(polls), o.handled, sendFails)
      invariant CommitsWorked(dryRun, polls, i, commitFails)
      decreases |polls| - i
    {
      if i == |polls| || polls[i] == [] {
        break;
      }
      CursorMoves(polls, i, o.inspected, limit);
      EndMoves(polls, i);
      o := ReplayPoll(c, dryRun, polls[i], Stream(polls), o, sendFails, commitFails);
      if o.raised {
        return;
      }
      CommitsMove(dryRun, polls, i, commitFails);
      i := i + 1;
      done := i;
    }
    CursorEnd(polls, i, o.inspected, limit);
  }

  /**
    _run_replay.  For every sequence of polls that keeps to max_records, the run ends having inspected
    at most `limit` records.  Outside a dry run, if nothing raised, every inspected record was replayed
    or skipped and is committed.  What counts as sent was sent without failing; the run ends at the first
    failing send or commit, and says which; every commit before went through, and everything replayable
    among the committed records was sent.  A dry run sends and commits nothing.
   */
  method RunReplay(c: Codec, limit: int, dryRun: bool, polls: seq<Poll>,
                   sendFails: nat -> bool, commitFails: nat -> bool) returns (o: Outcome, ghost done: nat)
    requires RespectsMaxRecords(polls, limit)
    ensures limit >= 0 ==> o.inspected <= limit
    ensures o.inspected <= |Stream(polls)| && o.committed <= o.handled <= o.inspected
    ensures o.sent == if dryRun then [] else Replays(c, Stream(polls)[..o.handled])
    ensures !dryRun ==>
              forall k :: 0 <= k < o.handled && Replay(c, Stream(polls)[k]).Some? ==> !sendFails(k)
    ensures Replays(c, Stream(polls)[..o.committed]) <= o.sent
    ensures done <= |polls| && CommitsWorked(dryRun, polls, done, commitFails)
    ensures !dryRun ==> o.committed == End(polls, done)
    ensures !dryRun && !o.raised ==> o.inspected == o.replayed + o.skipped && o.committed == o.inspected
    ensures dryRun ==> o.committed == 0 && o.replayed == 0 && !o.raised
    ensures if o.raised then
              && done < |polls| && o.inspected <= End(polls, done + 1)
              && (SendRaised(c, dryRun, Stream(polls), o, sendFails)
                  || (CommitRaised(dryRun, o, commitFails) && o.handled == End(polls, done + 1)))
            else o.inspected == Inspectable(polls, limit)
  {
    hide Tally, Replays, Stream, RespectsMaxRecords, Inspectable, Replay, End;
    o, done := PollUntilDone(c, limit, dryRun, polls, sendFails, commitFails);
    TallyEnd(c, dryRun, Stream(polls), o);
  }
}
