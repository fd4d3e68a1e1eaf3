/**
 The event stream reader of jobs/stream.py: a polling loop with a cursor over a log that other
 processes keep appending to (WHATWG HTML, section 9.2 Server-sent events).
 */
module JobStream {
  import opened Prelude
  import opened JobModel
  import opened JobInvariant
  import opened JobTheorems

  const BATCH: nat := 100

  datatype Settings = Settings(heartbeatInterval: int, maxDuration: int)

  /** What the consumer gets: an event with the clock reading that follows its sending, or a heartbeat with the
      reading that called for it. */
  datatype Item = Delivered(event: Event, at: int) | Heartbeat(at: int)

  /** One pass of the loop: how many items had been sent before it, how many events its poll returned, whether
      the job had finished by then, and the time it looked at afterwards, if it did. */
  datatype Pass = Pass(before: nat, count: nat, finished: bool, now: Option<int>)

  /** `Open`: the consumer stopped pulling, or the observation ends here. */
  datatype End = Missing | JobFinished | TimedOut | Open

  /** SELECT ... WHERE owner AND sequence > after ORDER BY sequence, over rows stored in that order. */
  function EventsAfter(log: seq<Event>, owner: Owner, after: nat): seq<Event> {
    if log == [] then []
    else (if log[0].owner == owner && log[0].sequence > after then [log[0]] else []) + EventsAfter(log[1..], owner, after)
  }

  function Poll(log: seq<Event>, owner: Owner, after: nat): seq<Event> {
    var rows := EventsAfter(log, owner, after);
    if |rows| > BATCH then rows[..BATCH] else rows
  }

  predicate Visible(s: State, owner: Owner, id: JobId) {
    id in s.entries && s.entries[id].job.owner == owner
  }

  predicate SeesFinished(s: State, owner: Owner, id: JobId) {
    Visible(s, owner, id) && s.entries[id].job.status.Terminal()
  }

  /** The part of a log a reader saw that started after sequence `after` and got as far as `cursor`. */
  function Seen(log: seq<Event>, after: nat, cursor: nat): seq<Event> {
    if after <= cursor <= |log| then log[after..cursor] else []
  }

  function Events(items: seq<Item>): seq<Event> {
    if items == [] then [] else
    Events(items[..|items| - 1]) + if items[|items| - 1].Delivered? then [items[|items| - 1].event] else []
  }

  lemma {:induction false} EventsAfterIsSuffix(log: seq<Event>, owner: Owner, after: nat, offset: nat)
    requires forall i :: 0 <= i < |log| ==> log[i].sequence == offset + i + 1 && log[i].owner == owner
    ensures EventsAfter(log, owner, after)
            == if after <= offset then log else if after - offset <= |log| then log[after - offset..] else []
  {
    if log != [] {
      EventsAfterIsSuffix(log[1..], owner, after, offset + 1);
    }
  }

  /** The next stretch of a log, a hundred events at most and fewer only at its end; nothing if the cursor lies
      beyond the log. */
  ghost predicate NextStretch(log: seq<Event>, after: nat, events: seq<Event>) {
    && |events| <= 100
    && (after <= |log| ==> after + |events| <= |log| && events == log[after..after + |events|]
                           && (|events| < 100 ==> after + |events| == |log|))
    && (after > |log| ==> events == [])
    && (forall i :: 0 <= i < |events| ==> events[i].sequence == after + i + 1)
  }

  lemma PollIsNextStretch(e: Entry, supply: nat, after: nat)
    requires EntryOk(e, supply)
    ensures NextStretch(e.log, after, Poll(e.log, e.job.owner, after))
  {
    StretchOfNumbered(e.log, e.job.owner, after);
  }

  lemma StretchOfNumbered(log: seq<Event>, owner: Owner, after: nat)
    requires Numbered(log) && forall i :: 0 <= i < |log| ==> log[i].owner == owner
    ensures NextStretch(log, after, Poll(log, owner, after))
  {
    EventsAfterIsSuffix(log, owner, after, 0);
    if after <= |log| {
      var count := Min(BATCH, |log| - after);
      assert log[after..][..count] == log[after..after + count];
      assert Poll(log, owner, after) == log[after..after + count];
    }
  }

  // ----- what the reader observes -----

  /** Successive polls see successive states of one run that began with empty tables. */
  ghost predicate Observed(polls: seq<State>, between: seq<seq<Step>>) {
    |between| == |polls|
    && (polls != [] ==>
          var last := |polls| - 1;
          && Observed(polls[..last], between[..last])
          && polls[last] == Run(if last == 0 then EMPTY else polls[last - 1], between[last]))
  }

  lemma {:induction false} ObservedAt(polls: seq<State>, between: seq<seq<Step>>, k: nat)
    requires Observed(polls, between) && k < |polls|
    ensures polls[k] == Run(if k == 0 then EMPTY else polls[k - 1], between[k])
  {
    var last := |polls| - 1;
    if k < last {
      ObservedAt(polls[..last], between[..last], k);
    }
  }

  lemma {:induction false} ObservedInv(polls: seq<State>, between: seq<seq<Step>>, k: nat)
    requires Observed(polls, between) && k < |polls|
    ensures Inv(polls[k])
  {
    ObservedAt(polls, between, k);
    if k == 0 {
      EmptyInv();
      RunKeepsInv(EMPTY, between[0]);
    } else {
      ObservedInv(polls, between, k - 1);
      RunKeepsInv(polls[k - 1], between[k]);
    }
  }

  /** Every poll, whenever it happens and wherever the cursor is, returns the next stretch of the log. */
  lemma ObservedPoll(polls: seq<State>, between: seq<seq<Step>>, k: nat, owner: Owner, id: JobId, after: nat)
    requires Observed(polls, between) && k < |polls| && Visible(polls[k], owner, id)
    ensures NextStretch(polls[k].entries[id].log, after, Poll(polls[k].entries[id].log, owner, after))
  {
    ObservedInv(polls, between, k);
    PollIsNextStretch(polls[k].entries[id], polls[k].supply, after);
  }

  lemma {:induction false} ObservedEvolves(polls: seq<State>, between: seq<seq<Step>>, j: nat, k: nat, id: JobId)
    requires Observed(polls, between) && j <= k < |polls| && id in polls[j].entries
    ensures id in polls[k].entries && Evolves(polls[j].entries[id], polls[k].entries[id])
    decreases k - j
  {
    if j < k {
      ObservedEvolves(polls, between, j, k - 1, id);
      ObservedInv(polls, between, k - 1);
      ObservedAt(polls, between, k);
      RunEvolves(polls[k - 1], between[k], id);
      EvolvesTransitive(polls[j].entries[id], polls[k - 1].entries[id], polls[k].entries[id]);
    } else {
      ObservedInv(polls, between, k);
      RunEvolves(polls[k], [], id);
    }
  }

  // ----- the loop -----

  /** Yields a batch; the cursor follows the last event sent, and the clock is read after each. */
  method SendBatch(events: seq<Event>, sent: seq<Item>, after: nat, clock: nat -> int, readings: nat)
    returns (out: seq<Item>, cursor: nat)
    requires forall i :: 0 <= i < |events| ==> events[i].sequence == after + i + 1
    ensures Events(out) == Events(sent) + events && cursor == after + |events|
    ensures Batch(out, |sent|, clock, readings) && |out| == |sent| + |events| && out[..|sent|] == sent
  {
    out, cursor := sent, after;
    for i := 0 to |events|
      invariant Events(out) == Events(sent) + events[..i] && cursor == after + i
      invariant Batch(out, |sent|, clock, readings) && |out| == |sent| + i && out[..|sent|] == sent
    {
      OneMoreSent(out, |sent|, events[i], clock, readings);
      out, cursor := out + [Delivered(events[i], clock(readings + i))], events[i].sequence;
    }
    assert events[..|events|] == events;
  }

  lemma OneMoreSent(out: seq<Item>, before: nat, event: Event, clock: nat -> int, readings: nat)
    requires Batch(out, before, clock, readings)
    ensures var out' := out + [Delivered(event, clock(readings + |out| - before))];
            && Batch(out', before, clock, readings) && out'[..before] == out[..before] && Events(out') == Events(out) + [event]
  {
    var item := Delivered(event, clock(readings + |out| - before));
    assert (out + [item])[..|out|] == out;
  }

  lemma HeartbeatSendsNothing(sent: seq<Item>, now: int)
    ensures Events(sent + [Heartbeat(now)]) == Events(sent)
  {
    assert (sent + [Heartbeat(now)])[..|sent|] == sent;
  }

  // ----- time -----

  /** When the consumer last heard anything: the latest sending, or the start. */
  function LastSent(out: seq<Item>, started: int): int {
    if out == [] then started else out[|out| - 1].at
  }

  /** How often the clock has been read before the pass after these. */
  function ReadingsBefore(passes: seq<Pass>): nat {
    if passes == [] then 1
    else
      var last := passes[|passes| - 1];
      ReadingsBefore(passes[..|passes| - 1]) + last.count + if last.now.Some? then 1 else 0
  }

  predicate TooLong(p: Pass, started: int, settings: Settings) {
    p.now.Some? && p.now.value - started >= settings.maxDuration
  }

  /** The pass goes on in silence: nothing was sent for the heartbeat interval. */
  predicate SilentTooLong(out: seq<Item>, p: Pass, started: int, settings: Settings)
    requires p.before + p.count <= |out|
  {
    p.now.Some? && p.now.value - LastSent(out[..p.before + p.count], started) >= settings.heartbeatInterval
  }

  /** What one pass sends and when: its events, and a heartbeat exactly if it goes on after a silence. */
  ghost predicate PassTimed(out: seq<Item>, p: Pass, clock: nat -> int, readings: nat, started: int, settings: Settings) {
    && p.before + p.count <= |out|
    && (forall i :: p.before <= i < p.before + p.count ==> out[i].Delivered? && out[i].at == clock(readings + i - p.before))
    && p.now == (if p.count < BATCH && !p.finished then Some(clock(readings + p.count)) else None)
    && out[p.before + p.count..] ==
       if SilentTooLong(out, p, started, settings) && !TooLong(p, started, settings) then [Heartbeat(p.now.value)] else []
  }

  /** The items sent are those of the passes, one pass after the other. */
  ghost predicate Timed(out: seq<Item>, passes: seq<Pass>, clock: nat -> int, started: int, settings: Settings)
    decreases |passes|
  {
    if passes == [] then out == []
    else
      var front, p := passes[..|passes| - 1], passes[|passes| - 1];
      && PassTimed(out, p, clock, ReadingsBefore(front), started, settings)
      && Timed(out[..p.before], front, clock, started, settings)
  }

  /** None of these passes had reached the maximal duration. */
  ghost predicate InTime(passes: seq<Pass>, started: int, settings: Settings) {
    forall k :: 0 <= k < |passes| ==> !TooLong(passes[k], started, settings)
  }

  lemma TimedPush(out: seq<Item>, out': seq<Item>, passes: seq<Pass>, p: Pass, clock: nat -> int, started: int, settings: Settings)
    requires Timed(out, passes, clock, started, settings) && p.before == |out| <= |out'| && out'[..|out|] == out
    requires PassTimed(out', p, clock, ReadingsBefore(passes), started, settings)
    ensures Timed(out', passes + [p], clock, started, settings)
  {
    assert (passes + [p])[..|passes|] == passes;
  }

  lemma TimedBounds(out: seq<Item>, passes: seq<Pass>, clock: nat -> int, started: int, settings: Settings, k: nat)
    requires Timed(out, passes, clock, started, settings) && k < |passes|
    ensures passes[k].before + passes[k].count <= |out|
    decreases |passes|
  {
    if k < |passes| - 1 {
      TimedBounds(out[..passes[|passes| - 1].before], passes[..|passes| - 1], clock, started, settings, k);
    }
  }

  /** A heartbeat after this pass: it goes on, after a silence of the interval. */
  ghost predicate Beats(out: seq<Item>, p: Pass, started: int, settings: Settings) {
    && p.before + p.count <= |out|
    && SilentTooLong(out, p, started, settings) && !TooLong(p, started, settings)
  }

  /** The i-th item is a heartbeat if and only if some pass sent its events up to there, went on, and nothing
      had been sent for the interval when it looked at the clock. */
  lemma {:induction false} HeartbeatsExactly(out: seq<Item>, passes: seq<Pass>, clock: nat -> int, started: int,
                                             settings: Settings, i: nat)
    requires Timed(out, passes, clock, started, settings) && i < |out|
    ensures out[i].Heartbeat? <==> exists k :: (0 <= k < |passes| && passes[k].before + passes[k].count == i
                                                && Beats(out, passes[k], started, settings))
    decreases |passes|
  {
    var n := |passes| - 1;
    var front, p := passes[..n], passes[n];
    if i < p.before {
      HeartbeatsExactly(out[..p.before], front, clock, started, settings, i);
      PassesAreEarlier(out, passes, clock, started, settings, i);
    } else if i >= p.before + p.count {
      assert out[i] == out[p.before + p.count..][i - p.before - p.count];
      assert passes[n] == p;
    } else {
      forall k | 0 <= k < |passes| && passes[k].before + passes[k].count == i
        ensures !Beats(out, passes[k], started, settings)
      {
        if k < n {
          BeatComesBefore(out, passes, clock, started, settings, k);
        }
      }
    }
  }

  /** Heartbeats of earlier passes lie before the last pass. */
  lemma {:induction false} BeatComesBefore(out: seq<Item>, passes: seq<Pass>, clock: nat -> int, started: int,
                                           settings: Settings, k: nat)
    requires Timed(out, passes, clock, started, settings) && k < |passes| - 1
    ensures passes[k].before + passes[k].count <= passes[|passes| - 1].before
    ensures Beats(out, passes[k], started, settings) ==> passes[k].before + passes[k].count < passes[|passes| - 1].before
    decreases |passes|
  {
    var n := |passes| - 1;
    var front, cut := passes[..n], out[..passes[n].before];
    TimedBounds(cut, front, clock, started, settings, k);
    assert cut[..passes[k].before + passes[k].count] == out[..passes[k].before + passes[k].count];
    if k < n - 1 {
      BeatComesBefore(cut, front, clock, started, settings, k);
      TimedBounds(cut, front, clock, started, settings, n - 1);
    }
  }

  lemma PassesAreEarlier(out: seq<Item>, passes: seq<Pass>, clock: nat -> int, started: int, settings: Settings, i: nat)
    requires Timed(out, passes, clock, started, settings) && passes != [] && i < passes[|passes| - 1].before
    ensures var n := |passes| - 1;
            (exists k :: (0 <= k < |passes| && passes[k].before + passes[k].count == i && Beats(out, passes[k], started, settings)))
            <==> exists k :: (0 <= k < n && passes[..n][k].before + passes[..n][k].count == i
                              && Beats(out[..passes[n].before], passes[..n][k], started, settings))
  {
    var n := |passes| - 1;
    var front, cut := passes[..n], out[..passes[n].before];
    forall k | 0 <= k < n && passes[k].before + passes[k].count == i
      ensures Beats(out, passes[k], started, settings) <==> Beats(cut, front[k], started, settings)
    {
      assert cut[..i] == out[..i];
    }
    if k :| 0 <= k < |passes| && passes[k].before + passes[k].count == i && Beats(out, passes[k], started, settings) {
      assert front[k] == passes[k];
    }
  }

  // ----- one pass -----

  /** The events of one pass, each followed by a reading of the clock. */
  ghost predicate Batch(out: seq<Item>, before: nat, clock: nat -> int, readings: nat) {
    && before <= |out|
    && forall i :: before <= i < |out| ==> out[i].Delivered? && out[i].at == clock(readings + i - before)
  }

  /** What follows a batch: the end of a finished job's stream, another poll at once after a full batch, or a
      look at the clock, which ends the stream or may send a heartbeat. */
  method AfterBatch(sent: seq<Item>, before: nat, finished: bool, settings: Settings, clock: nat -> int, started: int,
                    lastSent: int, readings: nat)
    returns (out: seq<Item>, readings': nat, lastSent': int, ended: Option<End>, pass: Pass)
    requires Batch(sent, before, clock, readings) && |sent| - before <= BATCH
    requires lastSent == LastSent(sent[..before], started)
    ensures ended == None || ended == Some(JobFinished) || ended == Some(TimedOut)
    ensures ended == Some(JobFinished) <==> finished && |sent| - before < BATCH
    ensures ended == Some(TimedOut) <==> TooLong(pass, started, settings)
    ensures ended == Some(TimedOut) ==> |sent| - before < BATCH && !finished
    ensures out == sent || exists now :: out == sent + [Heartbeat(now)]
    ensures pass.before == before && pass.count == |sent| - before && pass.finished == finished
    ensures PassTimed(out, pass, clock, readings, started, settings)
    ensures lastSent' == LastSent(out, started) && readings' == readings + pass.count + if pass.now.Some? then 1 else 0
  {
    var count := |sent| - before;
    out, readings', lastSent', ended, pass := sent, readings, lastSent, None, Pass(before, count, finished, None);
    assert sent[before + count..] == [];
    if count > 0 {
      readings' := readings' + count;
      lastSent' := clock(readings' - 1);
    } else {
      assert sent[..before] == sent;
    }
    if count == BATCH {
      return;
    }
    if finished {
      ended := Some(JobFinished);
      return;
    }
    var now := clock(readings');
    readings' := readings' + 1;
    pass := pass.(now := Some(now));
    assert sent[..before + count] == sent;
    if now - started >= settings.maxDuration {
      ended := Some(TimedOut);
      return;
    }
    if now - lastSent' >= settings.heartbeatInterval {
      out := sent + [Heartbeat(now)];
      assert out[..before + count] == sent && out[before + count..] == [Heartbeat(now)];
      lastSent' := now;
    }
  }

  /** One poll, the n-th, and the sending of what it returned. */
  method ReadBatch(s: State, owner: Owner, id: JobId, sent: seq<Item>, after: nat, cursor: nat, clock: nat -> int, readings: nat,
                   ghost polls: seq<State>, ghost between: seq<seq<Step>>, ghost n: nat)
    returns (out: seq<Item>, cursor': nat, count: nat, finished: bool)
    requires Observed(polls, between) && n < |polls| && s == polls[n] && Visible(s, owner, id)
    requires SentBefore(polls, n, id, owner, sent, after, cursor) && Prompt(polls, n, owner, id, after, cursor)
    ensures Caught(s, id, owner, out, after, cursor') && cursor' == cursor + count && count <= BATCH
    ensures count < BATCH ==> cursor' >= |s.entries[id].log|
    ensures finished <==> s.entries[id].job.status.Terminal()
    ensures count == BATCH || !finished ==> Prompt(polls, n + 1, owner, id, after, cursor')
    ensures Batch(out, |sent|, clock, readings) && |out| == |sent| + count && out[..|sent|] == sent
  {
    var e := s.entries[id];
    ObservedPoll(polls, between, n, owner, id, cursor);
    var events := Poll(e.log, owner, cursor);
    count, finished := |events|, e.job.status.Terminal();
    out, cursor' := SendBatch(events, sent, cursor, clock, readings);
    if n > 0 {
      CaughtNext(polls, between, n, id, owner, sent, after, cursor);
    }
    CaughtUp(s, id, owner, sent, out, after, cursor, events);
    if count == BATCH || !finished {
      StillPrompt(polls, between, n, id, owner, after, cursor, cursor');
    }
  }

  /** One pass of the loop over a visible job, with the n-th poll; a value in `ended` leaves the loop. */
  method Round(s: State, owner: Owner, id: JobId, sent: seq<Item>, after: nat, cursor: nat, settings: Settings,
               clock: nat -> int, started: int, lastSent: int, readings: nat,
               ghost polls: seq<State>, ghost between: seq<seq<Step>>, ghost n: nat)
    returns (out: seq<Item>, cursor': nat, readings': nat, lastSent': int, ended: Option<End>, pass: Pass)
    requires Observed(polls, between) && n < |polls| && s == polls[n] && Visible(s, owner, id)
    requires SentBefore(polls, n, id, owner, sent, after, cursor) && Prompt(polls, n, owner, id, after, cursor)
    requires lastSent == LastSent(sent, started)
    ensures ended == None || ended == Some(JobFinished) || ended == Some(TimedOut)
    ensures Caught(s, id, owner, out, after, cursor')
    ensures ended.Some? ==> cursor' >= |s.entries[id].log|
    ensures ended == Some(JobFinished) <==> s.entries[id].job.status.Terminal() && pass.count < BATCH
    ensures ended == None ==> Prompt(polls, n + 1, owner, id, after, cursor')
    // what the clock decides
    ensures pass.before == |sent| <= |out| && out[..|sent|] == sent && pass.finished == s.entries[id].job.status.Terminal()
    ensures PassTimed(out, pass, clock, readings, started, settings)
    ensures ended == Some(TimedOut) <==> TooLong(pass, started, settings)
    ensures lastSent' == LastSent(out, started) && readings' == readings + pass.count + if pass.now.Some? then 1 else 0
  {
    var batch, count, finished;
    batch, cursor', count, finished := ReadBatch(s, owner, id, sent, after, cursor, clock, readings, polls, between, n);
    out, readings', lastSent', ended, pass := AfterBatch(batch, |sent|, finished, settings, clock, started, lastSent, readings);
    if out != batch {
      HeartbeatKeepsCaught(s, id, owner, batch, after, cursor', out[|batch|].at);
    }
  }

  lemma HeartbeatKeepsCaught(s: State, id: JobId, owner: Owner, out: seq<Item>, after: nat, cursor: nat, now: int)
    requires Caught(s, id, owner, out, after, cursor)
    ensures Caught(s, id, owner, out + [Heartbeat(now)], after, cursor)
  {
    HeartbeatSendsNothing(out, now);
  }

  /** Where the reader stands after `n` passes: what it sent, and when. */
  ghost predicate Standing(polls: seq<State>, n: nat, owner: Owner, id: JobId, after: nat, settings: Settings,
                           clock: nat -> int, out: seq<Item>, cursor: nat, passes: seq<Pass>)
    requires n <= |polls|
  {
    && |passes| == n && SentBefore(polls, n, id, owner, out, after, cursor)
    && Timed(out, passes, clock, clock(0), settings)
  }

  /** The stream timed out: only its last pass came too late. */
  ghost predicate EndsLate(passes: seq<Pass>, started: int, settings: Settings) {
    && passes != [] && TooLong(passes[|passes| - 1], started, settings)
    && InTime(passes[..|passes| - 1], started, settings)
  }

  /** One more pass, added to the record. */
  method NextPass(polls: seq<State>, owner: Owner, id: JobId, sent: seq<Item>, after: nat, cursor: nat, settings: Settings,
                  clock: nat -> int, lastSent: int, readings: nat, passes: seq<Pass>, n: nat, ghost between: seq<seq<Step>>)
    returns (out: seq<Item>, cursor': nat, readings': nat, lastSent': int, ended: Option<End>, passes': seq<Pass>)
    requires Observed(polls, between) && n < |polls| && Visible(polls[n], owner, id)
    requires Standing(polls, n, owner, id, after, settings, clock, sent, cursor, passes)
    requires Prompt(polls, n, owner, id, after, cursor) && InTime(passes, clock(0), settings)
    requires lastSent == LastSent(sent, clock(0)) && readings == ReadingsBefore(passes)
    ensures Standing(polls, n + 1, owner, id, after, settings, clock, out, cursor', passes')
    ensures lastSent' == LastSent(out, clock(0)) && readings' == ReadingsBefore(passes')
    ensures ended == None || ended == Some(JobFinished) || ended == Some(TimedOut)
    ensures ended.Some? ==> cursor' >= |polls[n].entries[id].log|
    ensures ended == Some(JobFinished) ==> polls[n].entries[id].job.status.Terminal()
    ensures ended == None ==> Prompt(polls, n + 1, owner, id, after, cursor')
    ensures ended == Some(TimedOut) ==> EndsLate(passes', clock(0), settings)
    ensures ended != Some(TimedOut) ==> InTime(passes', clock(0), settings)
  {
    var pass;
    out, cursor', readings', lastSent', ended, pass :=
      Round(polls[n], owner, id, sent, after, cursor, settings, clock, clock(0), lastSent, readings, polls, between, n);
    TimedPush(sent, out, passes, pass, clock, clock(0), settings);
    passes' := passes + [pass];
    assert passes'[..n] == passes;
  }

  /** Follows a job through any interleaving with its writers. `polls` are the states its read
      transactions happen to see and `clock` its monotonic readings, the first one taken at the start. */
  method FollowEvents(polls: seq<State>, owner: Owner, id: JobId, after: nat, settings: Settings, clock: nat -> int,
                      ghost between: seq<seq<Step>>)
    returns (out: seq<Item>, end: End, cursor: nat, polled: nat, passes: seq<Pass>)
    requires Observed(polls, between)
    ensures polled <= |polls| && (end != Open ==> polled > 0) && (end == Open ==> polled == |polls|)
    ensures end == Missing <==> |polls| > 0 && !Visible(polls[0], owner, id)
    ensures end == Missing ==> out == [] && cursor == after && passes == []
    // exactly the log after the starting cursor, as far as the final cursor: no gap, no repeat
    ensures end != Missing ==> SentBefore(polls, polled, id, owner, out, after, cursor)
    // a deliberate end leaves nothing unread behind
    ensures end == JobFinished || end == TimedOut ==> cursor >= |polls[polled - 1].entries[id].log|
    ensures end == JobFinished ==> polls[polled - 1].entries[id].job.status.Terminal()
    // a finished job cannot keep the stream open for more than one poll per full batch
    ensures end == Open ==> Prompt(polls, polled, owner, id, after, cursor)
    // the stream times out at the first look at the clock that is late enough, and heartbeats break every silence
    ensures end != Missing ==> |passes| == polled && Timed(out, passes, clock, clock(0), settings)
    ensures end == TimedOut ==> EndsLate(passes, clock(0), settings)
    ensures end != TimedOut ==> InTime(passes, clock(0), settings)
  {
    out, cursor, polled, passes := [], after, 0, [];
    var readings: nat := 1;
    var lastSent := clock(0);
    while polled < |polls|
      invariant polled <= |polls| && (polled > 0 ==> Visible(polls[0], owner, id))
      invariant Standing(polls, polled, owner, id, after, settings, clock, out, cursor, passes)
      invariant Prompt(polls, polled, owner, id, after, cursor) && InTime(passes, clock(0), settings)
      invariant lastSent == LastSent(out, clock(0)) && readings == ReadingsBefore(passes)
    {
      if polled > 0 {
        VisibleStays(polls, between, polled, id, owner);
      }
      if !Visible(polls[polled], owner, id) {
        return out, Missing, cursor, polled + 1, passes;
      }
      var ended;
      out, cursor, readings, lastSent, ended, passes :=
        NextPass(polls, owner, id, out, after, cursor, settings, clock, lastSent, readings, passes, polled, between);
      polled := polled + 1;
      if ended.Some? {
        return out, ended.value, cursor, polled, passes;
      }
    }
    end := Open;
  }

  /** The reader has sent the log from `after` to `cursor`, where the cursor may lie beyond the log only
      if it started there. */
  ghost predicate Caught(s: State, id: JobId, owner: Owner, out: seq<Item>, after: nat, cursor: nat) {
    && Visible(s, owner, id)
    && after <= cursor <= Max(after, |s.entries[id].log|)
    && Events(out) == Seen(s.entries[id].log, after, cursor)
  }

  /** Where the reader stands before its n-th poll. */
  ghost predicate SentBefore(polls: seq<State>, n: nat, id: JobId, owner: Owner, out: seq<Item>, after: nat,
      cursor: nat)
    requires n <= |polls|
  {
    if n == 0 then out == [] && cursor == after else Caught(polls[n - 1], id, owner, out, after, cursor)
  }

  /** A job once seen stays visible. */
  lemma VisibleStays(polls: seq<State>, between: seq<seq<Step>>, n: nat, id: JobId, owner: Owner)
    requires Observed(polls, between) && 0 < n < |polls| && Visible(polls[n - 1], owner, id)
    ensures Visible(polls[n], owner, id)
  {
    ObservedEvolves(polls, between, n - 1, n, id);
  }

  lemma CaughtLater(s: State, s': State, id: JobId, owner: Owner, out: seq<Item>, after: nat, cursor: nat)
    requires Caught(s, id, owner, out, after, cursor)
    requires id in s'.entries && Evolves(s.entries[id], s'.entries[id])
    ensures Caught(s', id, owner, out, after, cursor)
  {
    var log, log' := s.entries[id].log, s'.entries[id].log;
    if cursor <= |log| {
      assert log[after..cursor] == log'[after..cursor];
    }
  }

  lemma CaughtNext(polls: seq<State>, between: seq<seq<Step>>, n: nat, id: JobId, owner: Owner, out: seq<Item>,
      after: nat, cursor: nat)
    requires Observed(polls, between) && 0 < n < |polls| && Caught(polls[n - 1], id, owner, out, after, cursor)
    ensures Caught(polls[n], id, owner, out, after, cursor)
  {
    ObservedEvolves(polls, between, n - 1, n, id);
    CaughtLater(polls[n - 1], polls[n], id, owner, out, after, cursor);
  }

  lemma CaughtUp(s: State, id: JobId, owner: Owner, sent: seq<Item>, out: seq<Item>, after: nat, cursor: nat,
      events: seq<Event>)
    requires Visible(s, owner, id) && NextStretch(s.entries[id].log, cursor, events)
    requires (sent == [] && cursor == after) || Caught(s, id, owner, sent, after, cursor)
    requires Events(out) == Events(sent) + events
    ensures Caught(s, id, owner, out, after, cursor + |events|)
    ensures |events| < BATCH ==> cursor + |events| >= |s.entries[id].log|
  {
    SeenGrows(s.entries[id].log, after, cursor, events);
  }

  lemma SeenGrows(log: seq<Event>, after: nat, cursor: nat, events: seq<Event>)
    requires after <= cursor && NextStretch(log, cursor, events)
    ensures Seen(log, after, cursor) + events == Seen(log, after, cursor + |events|)
  {
    if cursor <= |log| {
      assert log[after..cursor] + log[cursor..cursor + |events|] == log[after..cursor + |events|];
    }
  }

  /** A full batch since every poll that saw the job finished. */
  ghost predicate Prompt(polls: seq<State>, n: nat, owner: Owner, id: JobId, after: nat, cursor: nat)
    requires n <= |polls|
  {
    forall k :: 0 <= k < n && SeesFinished(polls[k], owner, id) ==> cursor >= after + BATCH * (n - k)
  }

  /** Once finished, finished at every later poll, so another poll without an end was a full one. */
  lemma StillPrompt(polls: seq<State>, between: seq<seq<Step>>, n: nat, id: JobId, owner: Owner, after: nat,
      cursor: nat, cursor': nat)
    requires Observed(polls, between) && n < |polls| && Prompt(polls, n, owner, id, after, cursor)
    requires after <= cursor <= cursor'
    requires SeesFinished(polls[n], owner, id) ==> cursor' == cursor + BATCH
    ensures Prompt(polls, n + 1, owner, id, after, cursor')
  {
    forall k | 0 <= k < n + 1 && SeesFinished(polls[k], owner, id)
      ensures cursor' >= after + BATCH * (n + 1 - k)
    {
      ObservedEvolves(polls, between, k, n, id);
    }
  }

  // ----- what the reader has, in the end -----

  /** A stream that ended because the job finished has delivered the whole log after its starting cursor,
      and its last event is the job's terminal event unless that one was at or before the cursor. */
  lemma FinishedStreamIsComplete(s: State, owner: Owner, id: JobId, after: nat, cursor: nat)
    requires Inv(s) && Visible(s, owner, id) && s.entries[id].job.status.Terminal()
    requires after <= cursor <= Max(after, |s.entries[id].log|) && cursor >= |s.entries[id].log|
    ensures var log := s.entries[id].log;
            && (after < |log| ==> Seen(log, after, cursor) == log[after..] && cursor == |log|
                                  && Seen(log, after, cursor)[cursor - after - 1].kind.Terminal())
            && (after >= |log| ==> Seen(log, after, cursor) == [] && log[|log| - 1].kind.Terminal())
  {
    EntryLogShape(s.entries[id], s.supply);
    WholeLogSeen(s.entries[id].log, after, cursor);
  }

  lemma WholeLogSeen(log: seq<Event>, after: nat, cursor: nat)
    requires log != [] && log[|log| - 1].kind.Terminal()
    requires after <= cursor <= Max(after, |log|) && cursor >= |log|
    ensures after < |log| ==> Seen(log, after, cursor) == log[after..] && cursor == |log|
                              && Seen(log, after, cursor)[cursor - after - 1].kind.Terminal()
    ensures after >= |log| ==> Seen(log, after, cursor) == []
  {
  }

  /** Reconnecting with the last sequence received continues the same reading: the two streams together
      are one stream of the later log. */
  lemma ReconnectComposes(s: State, steps: seq<Step>, id: JobId, after: nat, middle: nat, cursor: nat)
    requires Inv(s) && id in s.entries && id in Run(s, steps).entries
    requires after <= middle <= |s.entries[id].log|
    requires middle <= cursor <= |Run(s, steps).entries[id].log|
    ensures Seen(s.entries[id].log, after, middle) + Seen(Run(s, steps).entries[id].log, middle, cursor)
            == Seen(Run(s, steps).entries[id].log, after, cursor)
  {
    RunEvolves(s, steps, id);
    SeenComposes(s.entries[id].log, Run(s, steps).entries[id].log, after, middle, cursor);
  }

  lemma SeenComposes(log: seq<Event>, log': seq<Event>, after: nat, middle: nat, cursor: nat)
    requires log <= log' && after <= middle <= |log| && middle <= cursor <= |log'|
    ensures Seen(log, after, middle) + Seen(log', middle, cursor) == Seen(log', after, cursor)
  {
  }

  // ----- a consumer that stops -----

  /** Whoever stops listening after any number of items has received the log from the starting cursor on,
      without a gap or a repeat, up to the last event received. */
  lemma {:induction false} StoppingAnywhere(log: seq<Event>, out: seq<Item>, after: nat, cursor: nat, n: nat)
    requires after <= cursor && n <= |out| && Events(out) == Seen(log, after, cursor)
    ensures |Events(out[..n])| <= |Events(out)| && Events(out[..n]) == Events(out)[..|Events(out[..n])|]
    ensures cursor <= |log| ==> Events(out[..n]) == Seen(log, after, after + |Events(out[..n])|)
  {
    EventsOfPrefix(out, n);
    if cursor <= |log| {
      assert log[after..cursor][..|Events(out[..n])|] == log[after..after + |Events(out[..n])|];
    }
  }

  lemma {:induction false} EventsOfPrefix(out: seq<Item>, n: nat)
    requires n <= |out|
    ensures Events(out[..n]) <= Events(out)
    decreases |out|
  {
    if n == |out| {
      assert out[..n] == out;
    } else {
      EventsOfPrefix(out[..|out| - 1], n);
      assert out[..|out| - 1][..n] == out[..n];
    }
  }
}
