/** The idempotency store of idempotency/service.py: one record per (owner, key), forgotten after seven days. */
module Idempotency {
  import opened Prelude

  /** Microseconds. */
  type Instant = int

  const RETENTION: int := 7 * 24 * 60 * 60 * 1_000_000

  datatype Slot = Slot(owner: string, key: string)

  datatype Request = Request(slot: Slot, operation: string, hash: string)

  datatype ResultRef = ResultRef(kind: string, id: string)

  datatype Record = Record(operation: string, hash: string, result: ResultRef, status: int, createdAt: Instant)

  /** What the business code would do if this request ran it. */
  datatype Execution = Produces(result: ResultRef, status: int) | Raises(error: string)

  datatype Reply =
    | Executed(result: ResultRef, status: int)
    | Replayed(result: ResultRef, status: int)
    | KeyConflict
    | Raised(error: string)
    | NotSuccessful(status: int)

  type Table = map<Slot, Record>

  predicate IsLive(r: Record, now: Instant) {
    now - r.createdAt < RETENTION
  }

  /** The record that still counts at this moment, if any. */
  function LiveOf(t: Table, slot: Slot, now: Instant): Option<Record> {
    if slot in t && IsLive(t[slot], now) then Some(t[slot]) else None
  }

  function Answer(live: Option<Record>, request: Request, execute: Execution): Reply {
    match live
    case Some(r) => if r.hash != request.hash then KeyConflict else Replayed(r.result, r.status)
    case None =>
      match execute
      case Raises(error) => Raised(error)
      case Produces(result, status) => if 200 <= status <= 299 then Executed(result, status) else NotSuccessful(status)
  }

  function RecordFor(request: Request, execute: Execution, now: Instant): Record
    requires execute.Produces?
  {
    Record(request.operation, request.hash, execute.result, execute.status, now)
  }

  // ----- histories -----

  datatype Event =
    | Call(request: Request, execute: Execution, now: Instant)
    | PurgeExpired(now: Instant)

  function Handle(t: Table, e: Event): Table {
    match e
    case Call(request, execute, now) =>
      if Answer(LiveOf(t, request.slot, now), request, execute).Executed?
      then t[request.slot := RecordFor(request, execute, now)]
      else t
    case PurgeExpired(now) => Purged(t, now)
  }

  function Purged(t: Table, now: Instant): Table {
    map slot | slot in t && t[slot].createdAt > now - RETENTION :: t[slot]
  }

  function TableAfter(h: seq<Event>): Table {
    if h == [] then map[] else Handle(TableAfter(h[..|h| - 1]), h[|h| - 1])
  }

  /** The reply to the i-th event, a call. */
  function ReplyAt(h: seq<Event>, i: nat): Reply
    requires i < |h| && h[i].Call?
  {
    Answer(LiveOf(TableAfter(h[..i]), h[i].request.slot, h[i].now), h[i].request, h[i].execute)
  }

  predicate Monotone(h: seq<Event>) {
    forall i, j :: 0 <= i < j < |h| ==> h[i].now <= h[j].now
  }

  predicate ExecutedAt(h: seq<Event>, i: nat, slot: Slot) {
    i < |h| && h[i].Call? && h[i].request.slot == slot && ReplyAt(h, i).Executed?
  }

  lemma PrefixReply(h: seq<Event>, n: nat, i: nat, slot: Slot)
    requires n <= |h|
    ensures i < n ==> (ExecutedAt(h, i, slot) <==> ExecutedAt(h[..n], i, slot))
  {
    if i < n {
      assert h[..n][..i] == h[..i];
    }
  }

  /** A stored record was written by a call of the history. */
  lemma {:induction false} RecordsAreWritten(h: seq<Event>, slot: Slot)
    requires slot in TableAfter(h)
    ensures exists i :: (
      0 <= i < |h| && ExecutedAt(h, i, slot) && TableAfter(h)[slot] == RecordFor(h[i].request, h[i].execute, h[i].now))
    decreases |h|
  {
    var n := |h| - 1;
    var g := h[..n];
    if ExecutedAt(h, n, slot) {
      assert TableAfter(h)[slot] == RecordFor(h[n].request, h[n].execute, h[n].now);
    } else {
      assert slot in TableAfter(g) && TableAfter(h)[slot] == TableAfter(g)[slot];
      RecordsAreWritten(g, slot);
      var i :| 0 <= i < |g| && ExecutedAt(g, i, slot) && TableAfter(g)[slot] == RecordFor(g[i].request, g[i].execute,
          g[i].now);
      PrefixReply(h, n, i, slot);
    }
  }

  /** A record stays until it expires, whoever purges or asks. */
  lemma {:induction false} RecordsStay(h: seq<Event>, i: nat, slot: Slot)
    requires ExecutedAt(h, i, slot)
    requires forall k :: i < k < |h| ==> h[k].now - h[i].now < RETENTION
    ensures slot in TableAfter(h) && TableAfter(h)[slot] == RecordFor(h[i].request, h[i].execute, h[i].now)
    decreases |h|
  {
    var n := |h| - 1;
    if i < n {
      PrefixReply(h, n, i, slot);
      RecordsStay(h[..n], i, slot);
    }
  }

  /** The reply a caller is promised: the one of the execution still in its retention period, else its own. */
  ghost predicate FirstReplyHolds(h: seq<Event>, i: nat, j: nat)
    requires i < j < |h| && h[j].Call? && ExecutedAt(h, i, h[j].request.slot)
  {
    ReplyAt(h, j) == (
      if h[i].request.hash == h[j].request.hash then Replayed(h[i].execute.result, h[i].execute.status) else KeyConflict)
  }

  /** Within the retention period of an execution, the same key is replayed or refused, never run again. */
  lemma ReplaysTheFirst(h: seq<Event>, i: nat, j: nat)
    requires Monotone(h) && i < j < |h| && h[j].Call? && ExecutedAt(h, i, h[j].request.slot)
    requires h[j].now - h[i].now < RETENTION
    ensures FirstReplyHolds(h, i, j)
  {
    PrefixReply(h, j, i, h[j].request.slot);
    RecordsStay(h[..j], i, h[j].request.slot);
  }

  /** With no execution of the key in the retention period before it, a request runs its own code. */
  lemma RunsWhenNothingIsRemembered(h: seq<Event>, j: nat)
    requires Monotone(h) && j < |h| && h[j].Call?
    requires forall i :: 0 <= i < j && ExecutedAt(h, i, h[j].request.slot) ==> h[j].now - h[i].now >= RETENTION
    ensures match h[j].execute
            case Raises(error) => ReplyAt(h, j) == Raised(error)
            case Produces(result, status) =>
              ReplyAt(h, j) == if status >= 200 && status < 300 then Executed(result, status) else NotSuccessful(status)
  {
    var slot := h[j].request.slot;
    if slot in TableAfter(h[..j]) {
      RecordsAreWritten(h[..j], slot);
      var i :| 0 <= i < j && ExecutedAt(h[..j], i, slot) && TableAfter(h[..j])[slot] == RecordFor(h[..j][i].request,
          h[..j][i].execute, h[..j][i].now);
      PrefixReply(h, j, i, slot);
    }
  }

  /** Two executions under one key are at least the retention period apart. */
  lemma AtMostOncePerRetention(h: seq<Event>, i: nat, j: nat, slot: Slot)
    requires Monotone(h) && i < j && ExecutedAt(h, i, slot) && ExecutedAt(h, j, slot)
    ensures h[j].now - h[i].now >= 7 * 24 * 60 * 60 * 1_000_000
  {
    if h[j].now - h[i].now < RETENTION {
      ReplaysTheFirst(h, i, j);
    }
  }

  ghost predicate Repeats(h: seq<Event>, i: nat, j: nat)
    requires i < j < |h| && h[i].Call? && h[j].Call? && h[i].execute.Produces?
  {
    && h[i].request.hash == h[j].request.hash
    && ReplyAt(h, j) == Replayed(h[i].execute.result, h[i].execute.status)
  }

  /** A replay repeats a real execution: same key, same content, inside the retention period. */
  lemma ReplaysAreGenuine(h: seq<Event>, j: nat)
    requires Monotone(h) && j < |h| && h[j].Call? && ReplyAt(h, j).Replayed?
    ensures exists i :: 0 <= i < j && ExecutedAt(h, i, h[j].request.slot) && h[j].now - h[i].now < RETENTION && Repeats(h, i, j)
  {
    if forall i :: 0 <= i < j && ExecutedAt(h, i, h[j].request.slot) ==> h[j].now - h[i].now >= RETENTION {
      RunsWhenNothingIsRemembered(h, j);
    } else {
      var i :| 0 <= i < j && ExecutedAt(h, i, h[j].request.slot) && h[j].now - h[i].now < RETENTION;
      ReplaysTheFirst(h, i, j);
    }
  }

  // ----- cleaning up is invisible -----

  function CallsOnly(h: seq<Event>): seq<Event> {
    if h == [] then []
    else
      var front := CallsOnly(h[..|h| - 1]);
      if h[|h| - 1].Call? then front + [h[|h| - 1]] else front
  }

  function Replies(h: seq<Event>): seq<Reply> {
    if h == [] then []
    else
      var front := Replies(h[..|h| - 1]);
      if h[|h| - 1].Call? then front + [ReplyAt(h, |h| - 1)] else front
  }

  lemma PurgeKeepsLive(t: Table, at: Instant, now: Instant, slot: Slot)
    requires at <= now
    ensures LiveOf(Purged(t, at), slot, now) == LiveOf(t, slot, now)
  {
  }

  lemma CallKeepsAgreement(t: Table, u: Table, e: Event, now: Instant, slot: Slot)
    requires e.Call? && LiveOf(t, e.request.slot, e.now) == LiveOf(u, e.request.slot, e.now)
    requires LiveOf(t, slot, now) == LiveOf(u, slot, now)
    ensures LiveOf(Handle(t, e), slot, now) == LiveOf(Handle(u, e), slot, now)
  {
  }

  /** With and without purges, the same records count from the last event on. */
  lemma {:induction false} SameLiveRecords(h: seq<Event>, now: Instant, slot: Slot)
    requires Monotone(h) && (h != [] ==> h[|h| - 1].now <= now)
    ensures LiveOf(TableAfter(h), slot, now) == LiveOf(TableAfter(CallsOnly(h)), slot, now)
    decreases |h|
  {
    if h != [] {
      var last, g := h[|h| - 1], h[..|h| - 1];
      assert Monotone(g);
      SameLiveRecords(g, now, slot);
      if last.Call? {
        SameLiveRecords(g, last.now, last.request.slot);
        CallKeepsAgreement(TableAfter(g), TableAfter(CallsOnly(g)), last, now, slot);
        assert (CallsOnly(g) + [last])[..|CallsOnly(g)|] == CallsOnly(g);
      } else {
        PurgeKeepsLive(TableAfter(g), last.now, now, slot);
      }
    }
  }

  /** Purging at any moments of any history changes no reply. */
  lemma {:induction false} PurgingIsInvisible(h: seq<Event>)
    requires Monotone(h)
    ensures Replies(h) == Replies(CallsOnly(h))
    decreases |h|
  {
    if h != [] {
      var n := |h| - 1;
      var last, g := h[n], h[..n];
      PurgingIsInvisible(g);
      if last.Call? {
        SameLiveRecords(g, last.now, last.request.slot);
        assert (CallsOnly(g) + [last])[..|CallsOnly(g)|] == CallsOnly(g);
      }
    }
  }

  // ----- purges by a clock that runs ahead -----

  predicate AllCalls(h: seq<Event>) {
    forall i :: 0 <= i < |h| ==> h[i].Call?
  }

  /** The replies to calls, from a given table on. */
  function RepliesFrom(t: Table, calls: seq<Event>): seq<Reply>
    requires AllCalls(calls)
    decreases |calls|
  {
    if calls == [] then []
    else
      var c := calls[0];
      [Answer(LiveOf(t, c.request.slot, c.now), c.request, c.execute)] + RepliesFrom(Handle(t, c), calls[1..])
  }

  lemma {:induction false} RepliesSplit(h: seq<Event>, calls: seq<Event>)
    requires AllCalls(calls)
    ensures Replies(h + calls) == Replies(h) + RepliesFrom(TableAfter(h), calls)
    decreases |calls|
  {
    if calls == [] {
      assert h + calls == h;
    } else {
      var g := h + [calls[0]];
      assert g[..|h|] == h && g[|h|] == calls[0];
      RepliesSplit(g, calls[1..]);
      assert h + calls == g + calls[1..];
    }
  }

  /** `u` is `t` without some of its records. */
  predicate Lacks(t: Table, u: Table) {
    forall slot :: slot in u ==> slot in t && u[slot] == t[slot]
  }

  /** Nobody asks for a missing record while it would still count. */
  ghost predicate LossUnseen(t: Table, u: Table, calls: seq<Event>)
    requires AllCalls(calls)
  {
    forall i :: 0 <= i < |calls| ==> LossUnseenBy(t, u, calls[i])
  }

  predicate LossUnseenBy(t: Table, u: Table, c: Event)
    requires c.Call?
  {
    c.request.slot in t && c.request.slot !in u ==> !IsLive(t[c.request.slot], c.now)
  }

  lemma LossStep(t: Table, u: Table, c: Event)
    requires Lacks(t, u) && c.Call? && LossUnseenBy(t, u, c)
    ensures Lacks(Handle(t, c), Handle(u, c))
    ensures LiveOf(t, c.request.slot, c.now) == LiveOf(u, c.request.slot, c.now)
  {
  }

  lemma LossStaysUnseen(t: Table, u: Table, c: Event, later: Event)
    requires Lacks(t, u) && c.Call? && later.Call? && c.now <= later.now && LossUnseenBy(t, u, c)
    ensures LossUnseenBy(t, u, later) <==> LossUnseenBy(Handle(t, c), Handle(u, c), later)
  {
  }

  /** Losing records changes some reply exactly if somebody asks for one of them while it counts. */
  lemma {:induction false} LossVisibleExactly(t: Table, u: Table, calls: seq<Event>)
    requires Lacks(t, u) && AllCalls(calls) && Monotone(calls)
    ensures RepliesFrom(u, calls) == RepliesFrom(t, calls) <==> LossUnseen(t, u, calls)
    decreases |calls|
  {
    if calls == [] {
      return;
    }
    var c, rest := calls[0], calls[1..];
    assert calls == [c] + rest;
    LossUnseenCons(t, u, c, rest);
    if LossUnseenBy(t, u, c) {
      LossStep(t, u, c);
      LossVisibleExactly(Handle(t, c), Handle(u, c), rest);
      LossCarriesOver(t, u, c, rest);
      SameTail(Answer(LiveOf(t, c.request.slot, c.now), c.request, c.execute), RepliesFrom(Handle(u, c), rest),
          RepliesFrom(Handle(t, c), rest));
    } else {
      assert RepliesFrom(u, calls)[0] != RepliesFrom(t, calls)[0];
    }
  }

  lemma SameTail<T>(x: T, a: seq<T>, b: seq<T>)
    ensures [x] + a == [x] + b <==> a == b
  {
    assert ([x] + a)[1..] == a && ([x] + b)[1..] == b;
  }

  lemma LossUnseenCons(t: Table, u: Table, c: Event, rest: seq<Event>)
    requires c.Call? && AllCalls(rest)
    ensures LossUnseen(t, u, [c] + rest) <==> LossUnseenBy(t, u, c) && LossUnseen(t, u, rest)
  {
    assert ([c] + rest)[0] == c;
    assert forall i :: 0 <= i < |rest| ==> ([c] + rest)[i + 1] == rest[i];
  }

  lemma LossCarriesOver(t: Table, u: Table, c: Event, rest: seq<Event>)
    requires Lacks(t, u) && c.Call? && LossUnseenBy(t, u, c) && AllCalls(rest)
    requires forall i :: 0 <= i < |rest| ==> c.now <= rest[i].now
    ensures LossUnseen(t, u, rest) <==> LossUnseen(Handle(t, c), Handle(u, c), rest)
  {
    forall i | 0 <= i < |rest|
      ensures LossUnseenBy(t, u, rest[i]) <==> LossUnseenBy(Handle(t, c), Handle(u, c), rest[i])
    {
      LossStaysUnseen(t, u, c, rest[i]);
    }
  }

  /** The call's record is past its retention by the clock that purged, but not by the call's own. */
  predicate PurgedTooEarly(t: Table, ahead: Instant, c: Event)
    requires c.Call?
  {
    c.request.slot in t && !IsLive(t[c.request.slot], ahead) && IsLive(t[c.request.slot], c.now)
  }

  lemma PurgeIsLoss(t: Table, ahead: Instant, calls: seq<Event>)
    requires AllCalls(calls)
    ensures Lacks(t, Purged(t, ahead))
    ensures LossUnseen(t, Purged(t, ahead), calls) <==> !exists i :: 0 <= i < |calls| && PurgedTooEarly(t, ahead, calls[i])
  {
    forall i | 0 <= i < |calls|
      ensures LossUnseenBy(t, Purged(t, ahead), calls[i]) <==> !PurgedTooEarly(t, ahead, calls[i])
    {
    }
  }

  lemma RepliesAfterPurge(h: seq<Event>, ahead: Instant, calls: seq<Event>)
    requires AllCalls(calls)
    ensures Replies(h + [PurgeExpired(ahead)] + calls) == Replies(h) + RepliesFrom(Purged(TableAfter(h), ahead), calls)
  {
    var p := h + [PurgeExpired(ahead)];
    assert p[..|h|] == h && p[|h|] == PurgeExpired(ahead);
    RepliesSplit(p, calls);
  }

  /**
   A purge by any clock, at any point of a history, changes a later reply exactly if some later call
   uses a key whose record it removed although that record still counts by the call's clock.
   */
  lemma PurgeVisibleExactly(h: seq<Event>, ahead: Instant, calls: seq<Event>)
    requires AllCalls(calls) && Monotone(calls)
    ensures Replies(h + [PurgeExpired(ahead)] + calls) != Replies(h + calls)
            <==> exists i :: 0 <= i < |calls| && PurgedTooEarly(TableAfter(h), ahead, calls[i])
  {
    var t := TableAfter(h);
    RepliesAfterPurge(h, ahead, calls);
    RepliesSplit(h, calls);
    PurgeIsLoss(t, ahead, calls);
    LossVisibleExactly(t, Purged(t, ahead), calls);
    SamePrefix(Replies(h), RepliesFrom(Purged(t, ahead), calls), RepliesFrom(t, calls));
  }

  lemma SamePrefix<T>(x: seq<T>, a: seq<T>, b: seq<T>)
    ensures x + a == x + b <==> a == b
  {
    assert (x + a)[|x|..] == a && (x + b)[|x|..] == b;
  }

  /** The clock has to be monotone: a purge by a clock running ahead makes a key run twice. */
  lemma PurgingAheadIsVisible(request: Request, execute: Execution, now: Instant)
    requires execute.Produces? && 200 <= execute.status <= 299
    ensures Replies([Call(request, execute, now), PurgeExpired(now + RETENTION), Call(request, execute, now)])
         == [Executed(execute.result, execute.status), Executed(execute.result, execute.status)]
  {
    var c, p := Call(request, execute, now), PurgeExpired(now + RETENTION);
    var h := [c, p, c];
    assert h[..2] == [c, p] && h[..2][..1] == [c] && h[..2][..1][..0] == [];
    assert TableAfter([c]) == map[request.slot := RecordFor(request, execute, now)] by {
      assert [c][..0] == [];
    }
    assert TableAfter([c, p]) == map[] by {
      assert [c, p][..1] == [c];
    }
    assert Replies([c]) == [ReplyAt([c], 0)];
    assert Replies([c, p]) == Replies([c]);
  }

  // ----- requests whose hash covers the operation only -----

  /** How the link commands build their requests: no body, so the hash is that of the operation's name. */
  function BodilessRequest(slot: Slot, operation: string, hashOf: string -> string): Request {
    Request(slot, operation, hashOf(operation))
  }

  ghost predicate Injective(f: string -> string) {
    forall a, b :: f(a) == f(b) ==> a == b
  }

  /** Such a request is replayed, whatever it asks to be done to which link, exactly if the same operation
      was executed under its key within the retention period. */
  lemma BodilessReplayedExactly(h: seq<Event>, j: nat, hashOf: string -> string)
    requires Monotone(h) && Injective(hashOf) && j < |h| && h[j].Call?
    requires forall i :: 0 <= i <= j && h[i].Call? && h[i].request.slot == h[j].request.slot ==>
               h[i].request == BodilessRequest(h[i].request.slot, h[i].request.operation, hashOf)
    ensures ReplyAt(h, j).Replayed? <==>
      exists i :: 0 <= i < j && ExecutedAt(h, i, h[j].request.slot) && h[j].now - h[i].now < RETENTION
        && h[i].request.operation == h[j].request.operation
  {
    if ReplyAt(h, j).Replayed? {
      ReplaysAreGenuine(h, j);
    }
    if i :| 0 <= i < j && ExecutedAt(h, i, h[j].request.slot) && h[j].now - h[i].now < RETENTION
            && h[i].request.operation == h[j].request.operation {
      ReplaysTheFirst(h, i, j);
    }
  }

  /** One key, one operation, two links: the second command is not run and gets the first one's link. */
  lemma OneKeyTwoLinks(slot: Slot, operation: string, hashOf: string -> string, first: ResultRef, second: ResultRef,
      status: int, then_: Instant, now: Instant)
    requires first != second && 200 <= status <= 299 && then_ <= now < then_ + RETENTION
    ensures var r := BodilessRequest(slot, operation, hashOf);
            Replies([Call(r, Produces(first, status), then_), Call(r, Produces(second, status), now)])
            == [Executed(first, status), Replayed(first, status)]
  {
    var r := BodilessRequest(slot, operation, hashOf);
    var c, d := Call(r, Produces(first, status), then_), Call(r, Produces(second, status), now);
    RepliesSplit([], [c, d]);
    assert [] + [c, d] == [c, d];
    assert [c, d][1..] == [d] && [d][1..] == [];
    assert RepliesFrom(map[], [c, d]) == [Executed(first, status)] + RepliesFrom(Handle(map[], c), [d]);
    assert RepliesFrom(Handle(map[], c), [d]) == [Replayed(first, status)] + RepliesFrom(Handle(Handle(map[], c), d),
        []);
  }

  // ----- the store -----

  class IdempotencyStore {
    var records: Table

    /** One write transaction around run_idempotent: an exception restores every row. */
    method RunIdempotent(request: Request, execute: Execution, now: Instant) returns (reply: Reply)
      modifies this
      ensures reply == Answer(LiveOf(old(records), request.slot, now), request, execute)
      ensures records == Handle(old(records), Call(request, execute, now))
      ensures !reply.Executed? ==> records == old(records)
    {
      var before := records;
      if request.slot in records {
        var existing := records[request.slot];
        if IsLive(existing, now) {
          if existing.hash != request.hash {
            return KeyConflict;
          }
          return Replayed(existing.result, existing.status);
        }
        records := records - {request.slot};
      }
      if execute.Raises? {
        records := before;
        return Raised(execute.error);
      }
      if !(200 <= execute.status <= 299) {
        records := before;
        return NotSuccessful(execute.status);
      }
      records := records[request.slot := RecordFor(request, execute, now)];
      return Executed(execute.result, execute.status);
    }

    method PurgeExpiredRecords(now: Instant) returns (deleted: nat)
      modifies this
      ensures records == Handle(old(records), PurgeExpired(now))
      ensures forall slot :: slot in records <==> LiveOf(old(records), slot, now).Some?
      ensures deleted == |old(records)| - |records|
    {
      var kept := Purged(records, now);
      assert kept.Keys <= records.Keys;
      assert |kept.Keys| + |records.Keys - kept.Keys| == |records.Keys|;
      deleted := |records| - |kept|;
      records := kept;
    }
  }
}
