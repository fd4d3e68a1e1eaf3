/** The in-process fixed-window limiter of auth/rate_limit.py. Hits are taken in the order of their clock readings. */
module Limiter {
  import opened Prelude

  /** Microseconds. */
  type Instant = int

  const SECOND: int := 1_000_000
  const PRUNE_THRESHOLD: nat := 10_000

  datatype Rule = Rule(name: string, limit: int, window: int)

  const LOGIN_PER_IDENTIFIER := Rule("login:identifier", 10, 15 * 60 * SECOND)
  const LOGIN_PER_IP_PREFIX := Rule("login:ip", 30, 15 * 60 * SECOND)
  const REGISTER_PER_IP_PREFIX := Rule("register:ip", 5, 60 * 60 * SECOND)
  const RESET_PER_IP_PREFIX := Rule("reset:ip", 10, 15 * 60 * SECOND)
  const CHANGE_PASSWORD_PER_USER := Rule("change-password:user", 10, 15 * 60 * SECOND)

  const RULES := [LOGIN_PER_IDENTIFIER, LOGIN_PER_IP_PREFIX, REGISTER_PER_IP_PREFIX, RESET_PER_IP_PREFIX, CHANGE_PASSWORD_PER_USER]

  const LONGEST_WINDOW: int := Longest(RULES)

  function Longest(rules: seq<Rule>): int {
    if rules == [] then 0 else Max(rules[0].window, Longest(rules[1..]))
  }

  datatype Slot = Slot(rule: string, key: string)

  datatype Window = Window(startedAt: Instant, used: nat)

  type Windows = map<Slot, Window>

  datatype Hit = Hit(rule: Rule, key: string, now: Instant)

  datatype Reply = Accepted | Limited(retryAfter: int)

  function SlotOf(hit: Hit): Slot {
    Slot(hit.rule.name, hit.key)
  }

  function CeilSeconds(micros: int): int {
    -((-micros) / SECOND)
  }

  /** The window this hit falls into, opened now if there is none or it is over. */
  function Current(w: Windows, hit: Hit): Window {
    var found := if SlotOf(hit) in w then w[SlotOf(hit)] else Window(hit.now, 0);
    if hit.now >= found.startedAt + hit.rule.window then Window(hit.now, 0) else found
  }

  function Decide(current: Window, hit: Hit): Reply {
    if current.used >= hit.rule.limit
    then Limited(Max(1, CeilSeconds(current.startedAt + hit.rule.window - hit.now)))
    else Accepted
  }

  function Pruned(w: Windows, now: Instant): Windows {
    if |w| > PRUNE_THRESHOLD then map slot | slot in w && w[slot].startedAt > now - LONGEST_WINDOW :: w[slot] else w
  }

  function Counted(w: Windows, hit: Hit): Windows {
    var current := Current(w, hit);
    if Decide(current, hit).Accepted? then w[SlotOf(hit) := Window(current.startedAt, current.used + 1)] else w
  }

  // ----- histories, with the pruning switched on or off -----

  function Swept(w: Windows, now: Instant, prune: bool): Windows {
    if prune then Pruned(w, now) else w
  }

  function After(h: seq<Hit>, prune: bool): Windows {
    if h == [] then map[]
    else
      var last := h[|h| - 1];
      Counted(Swept(After(h[..|h| - 1], prune), last.now, prune), last)
  }

  function ReplyAt(h: seq<Hit>, i: nat, prune: bool): Reply
    requires i < |h|
  {
    Decide(Current(Swept(After(h[..i], prune), h[i].now, prune), h[i]), h[i])
  }

  predicate Monotone(h: seq<Hit>) {
    forall i, j :: 0 <= i < j < |h| ==> h[i].now <= h[j].now
  }

  predicate ShortWindows(h: seq<Hit>) {
    forall i :: 0 <= i < |h| ==> h[i].rule.window <= LONGEST_WINDOW
  }

  /** Every rule of the application is covered. */
  lemma RulesAreShort(rule: Rule)
    requires rule in RULES
    ensures 0 < rule.window <= LONGEST_WINDOW && rule.limit >= 1
  {
    var rs := RULES;
    LongestIsLongest(rs, rule);
  }

  lemma {:induction false} LongestIsLongest(rules: seq<Rule>, rule: Rule)
    requires rule in rules
    ensures rule.window <= Longest(rules)
  {
    if rule != rules[0] {
      LongestIsLongest(rules[1..], rule);
    }
  }

  // ----- pruning is invisible -----

  /** The tables differ only in windows that are over for every rule. */
  predicate Agree(pruned: Windows, full: Windows, now: Instant) {
    && (forall slot :: slot in pruned ==> slot in full && pruned[slot] == full[slot])
    && (forall slot :: slot in full && slot !in pruned ==> full[slot].startedAt + LONGEST_WINDOW <= now)
  }

  lemma PruneAgrees(pruned: Windows, full: Windows, now: Instant)
    requires Agree(pruned, full, now)
    ensures Agree(Pruned(pruned, now), full, now)
  {
  }

  lemma AgreeingTablesDecideAlike(pruned: Windows, full: Windows, hit: Hit)
    requires Agree(pruned, full, hit.now) && hit.rule.window <= LONGEST_WINDOW
    ensures Current(pruned, hit) == Current(full, hit)
    ensures Agree(Counted(pruned, hit), Counted(full, hit), hit.now)
  {
  }

  lemma {:induction false} TablesAgree(h: seq<Hit>, now: Instant)
    requires Monotone(h) && ShortWindows(h) && (h != [] ==> h[|h| - 1].now <= now)
    ensures Agree(After(h, true), After(h, false), now)
    decreases |h|
  {
    if h != [] {
      var last, g := h[|h| - 1], h[..|h| - 1];
      TablesAgree(g, last.now);
      PruneAgrees(After(g, true), After(g, false), last.now);
      AgreeingTablesDecideAlike(Pruned(After(g, true), last.now), After(g, false), last);
    }
  }

  /** Dropping old windows changes no decision and no waiting time. */
  lemma PruningIsInvisible(h: seq<Hit>, i: nat)
    requires Monotone(h) && ShortWindows(h) && i < |h|
    ensures ReplyAt(h, i, true) == ReplyAt(h, i, false)
  {
    var g := h[..i];
    TablesAgree(g, h[i].now);
    PruneAgrees(After(g, true), After(g, false), h[i].now);
    AgreeingTablesDecideAlike(Pruned(After(g, true), h[i].now), After(g, false), h[i]);
  }

  /** A table over the threshold loses exactly the windows that began an hour ago or earlier; a smaller one nothing. */
  lemma PruningDropsExactly(w: Windows, now: Instant, slot: Slot)
    ensures slot in Pruned(w, now) <==> slot in w && (|w| <= 10_000 || w[slot].startedAt > now - 60 * 60 * SECOND)
    ensures slot in Pruned(w, now) ==> Pruned(w, now)[slot] == w[slot]
  {
    LongestIsAnHour();
  }

  lemma LongestIsAnHour()
    ensures LONGEST_WINDOW == 60 * 60 * SECOND
  {
    var rs := RULES;
    assert rs[2].window == 60 * 60 * SECOND;
    LongestReached(rs, 60 * 60 * SECOND);
  }

  lemma {:induction false} LongestReached(rules: seq<Rule>, window: int)
    requires window >= 0 && forall i :: 0 <= i < |rules| ==> rules[i].window <= window
    ensures Longest(rules) <= window
    ensures (exists i :: 0 <= i < |rules| && rules[i].window == window) ==> Longest(rules) == window
  {
    if rules != [] {
      LongestReached(rules[1..], window);
      if rules[0].window != window && exists i :: 0 <= i < |rules| && rules[i].window == window {
        var i :| 0 <= i < |rules| && rules[i].window == window;
        assert rules[1..][i - 1].window == window;
      }
    }
  }

  // ----- how many hits get through -----

  /** Accepted hits of a slot with from <= time < until. */
  function AcceptedIn(h: seq<Hit>, slot: Slot, from: Instant, until: Instant, prune: bool): nat {
    if h == [] then 0
    else
      var n := |h| - 1;
      AcceptedIn(h[..n], slot, from, until, prune)
      + (if SlotOf(h[n]) == slot && from <= h[n].now < until && ReplyAt(h, n, prune).Accepted? then 1 else 0)
  }

  /** The slot is only ever hit under this rule. */
  predicate Ruled(h: seq<Hit>, slot: Slot, rule: Rule) {
    forall i :: 0 <= i < |h| && SlotOf(h[i]) == slot ==> h[i].rule == rule
  }

  lemma {:induction false} SameCounts(h: seq<Hit>, slot: Slot, from: Instant, until: Instant)
    requires Monotone(h) && ShortWindows(h)
    ensures AcceptedIn(h, slot, from, until, true) == AcceptedIn(h, slot, from, until, false)
    decreases |h|
  {
    if h != [] {
      SameCounts(h[..|h| - 1], slot, from, until);
      PruningIsInvisible(h, |h| - 1);
    }
  }

  /** What the open window says about the hits accepted from an instant on, for one window length. */
  predicate CountBound(w: Windows, slot: Slot, rule: Rule, from: Instant, now: Instant, n: nat) {
    if slot !in w then n == 0
    else
      var open := w[slot];
      && open.startedAt <= now && 1 <= open.used <= rule.limit
      && (now < from ==> n == 0)
      && (open.startedAt < from ==> n <= open.used - 1)
      && (from <= open.startedAt < from + rule.window ==> n <= rule.limit - 1 + open.used)
      && n <= 2 * rule.limit - 1
  }

  lemma CountStep(w: Windows, hit: Hit, from: Instant, before: Instant, n: nat)
    requires before <= hit.now && hit.rule.window > 0
    requires CountBound(w, SlotOf(hit), hit.rule, from, before, n)
    ensures CountBound(Counted(w, hit), SlotOf(hit), hit.rule, from, hit.now,
                       n + (if from <= hit.now < from + hit.rule.window && Decide(Current(w, hit), hit).Accepted? then 1 else 0))
  {
  }

  lemma {:induction false} BoundKept(h: seq<Hit>, slot: Slot, rule: Rule, from: Instant, now: Instant)
    requires Monotone(h) && Ruled(h, slot, rule) && rule.window > 0 && (h != [] ==> h[|h| - 1].now <= now)
    ensures CountBound(After(h, false), slot, rule, from, now, AcceptedIn(h, slot, from, from + rule.window, false))
    decreases |h|
  {
    if h != [] {
      var last, g := h[|h| - 1], h[..|h| - 1];
      BoundKept(g, slot, rule, from, last.now);
      if SlotOf(last) == slot {
        CountStep(After(g, false), last, from, last.now, AcceptedIn(g, slot, from, from + rule.window, false));
      }
    }
  }

  /**
   Two windows meet inside any interval of one window length, and the hit that opened the first of
   them lies before it: at most one hit less than twice the limit gets through.
   */
  lemma AtMostTwiceTheLimit(h: seq<Hit>, slot: Slot, rule: Rule, from: Instant)
    requires Monotone(h) && ShortWindows(h) && Ruled(h, slot, rule) && 0 < rule.window
    ensures AcceptedIn(h, slot, from, from + rule.window, true) <= Max(0, 2 * rule.limit - 1)
  {
    SameCounts(h, slot, from, from + rule.window);
    BoundKept(h, slot, rule, from, if h == [] then from else h[|h| - 1].now);
  }

  /** What that means for the application: so many attempts get through in a quarter of an hour, or in an hour. */
  lemma BoundsOfTheApplication(h: seq<Hit>, slot: Slot, rule: Rule, from: Instant)
    requires Monotone(h) && ShortWindows(h) && Ruled(h, slot, rule) && rule in RULES
    ensures var quarter := AcceptedIn(h, slot, from, from + 15 * 60 * SECOND, true);
            match rule.name
            case "login:identifier" => quarter <= 19
            case "login:ip" => quarter <= 59
            case "register:ip" => AcceptedIn(h, slot, from, from + 60 * 60 * SECOND, true) <= 9
            case "reset:ip" => quarter <= 19
            case "change-password:user" => quarter <= 19
            case _ => false
  {
    AtMostTwiceTheLimit(h, slot, rule, from);
  }

  function OpenWindow(w: Windows, slot: Slot): Option<Window> {
    if slot in w then Some(w[slot]) else None
  }

  /** A history followed by n times the same hit. */
  function Followed(h: seq<Hit>, hit: Hit, n: nat): seq<Hit> {
    if n == 0 then h else Followed(h, hit, n - 1) + [hit]
  }

  predicate Passes(h: seq<Hit>, hit: Hit) {
    Decide(Current(After(h, false), hit), hit).Accepted?
  }

  lemma OneMore(h: seq<Hit>, hit: Hit, from: Instant, until: Instant)
    ensures After(h + [hit], false) == Counted(After(h, false), hit)
    ensures AcceptedIn(h + [hit], SlotOf(hit), from, until, false)
         == AcceptedIn(h, SlotOf(hit), from, until, false) + (if from <= hit.now < until && Passes(h, hit) then 1 else 0)
  {
    assert (h + [hit])[..|h|] == h;
  }

  /** The table after n times the same hit. */
  function Stacked(w: Windows, hit: Hit, n: nat): Windows {
    if n == 0 then w else Counted(Stacked(w, hit, n - 1), hit)
  }

  /** As many hits get through as the window has room for. */
  lemma {:induction false} StackFills(w: Windows, hit: Hit, n: nat)
    requires Current(w, hit).used + n <= hit.rule.limit && hit.rule.window > 0
    ensures var open := Current(w, hit);
            && Current(Stacked(w, hit, n), hit) == Window(open.startedAt, open.used + n)
            && (n > 0 ==> OpenWindow(Stacked(w, hit, n), SlotOf(hit)) == Some(Window(open.startedAt, open.used + n)))
  {
    if n > 0 {
      StackFills(w, hit, n - 1);
    }
  }

  /** Following a history by n hits is stacking them on its table. */
  predicate FollowedIsStacked(h: seq<Hit>, hit: Hit, n: nat) {
    After(Followed(h, hit, n), false) == Stacked(After(h, false), hit, n)
  }

  lemma {:induction false} AfterFollowed(h: seq<Hit>, hit: Hit, n: nat)
    ensures FollowedIsStacked(h, hit, n)
  {
    if n == 0 {
      FollowedNot(h, hit);
    } else {
      AfterFollowed(h, hit, n - 1);
      FollowedStep(h, hit, n);
    }
  }

  lemma FollowedNot(h: seq<Hit>, hit: Hit)
    ensures FollowedIsStacked(h, hit, 0)
  {
  }

  lemma FollowedStep(h: seq<Hit>, hit: Hit, n: nat)
    requires n > 0 && FollowedIsStacked(h, hit, n - 1)
    ensures FollowedIsStacked(h, hit, n)
  {
    FollowedOnce(h, hit, n, Stacked(After(h, false), hit, n - 1));
    StackedOnce(After(h, false), hit, n);
  }

  lemma FollowedOnce(h: seq<Hit>, hit: Hit, n: nat, w: Windows)
    requires n > 0 && After(Followed(h, hit, n - 1), false) == w
    ensures After(Followed(h, hit, n), false) == Counted(w, hit)
  {
    OneMore(Followed(h, hit, n - 1), hit, hit.now, hit.now);
  }

  lemma StackedOnce(w: Windows, hit: Hit, n: nat)
    requires n > 0
    ensures Stacked(w, hit, n) == Counted(Stacked(w, hit, n - 1), hit)
  {
  }

  /** The window a hit meets has room for n more. */
  predicate Room(h: seq<Hit>, hit: Hit, n: nat) {
    Current(After(h, false), hit).used + n <= hit.rule.limit && hit.rule.window > 0
  }

  lemma PassesAfter(h: seq<Hit>, hit: Hit, n: nat)
    requires Room(h, hit, n + 1)
    ensures Passes(Followed(h, hit, n), hit)
  {
    AfterFollowed(h, hit, n);
    StackFills(After(h, false), hit, n);
  }

  lemma {:induction false} PassedAreCounted(h: seq<Hit>, hit: Hit, n: nat, from: Instant, until: Instant)
    requires forall m: nat :: m < n ==> Passes(Followed(h, hit, m), hit)
    ensures AcceptedIn(Followed(h, hit, n), SlotOf(hit), from, until, false)
         == AcceptedIn(h, SlotOf(hit), from, until, false) + (if from <= hit.now < until then n else 0)
  {
    if n > 0 {
      PassedAreCounted(h, hit, n - 1, from, until);
      CountedOnce(h, hit, n, from, until);
    }
  }

  lemma AllAreCounted(h: seq<Hit>, hit: Hit, n: nat, from: Instant, until: Instant)
    requires Room(h, hit, n)
    ensures AcceptedIn(Followed(h, hit, n), SlotOf(hit), from, until, false)
         == AcceptedIn(h, SlotOf(hit), from, until, false) + (if from <= hit.now < until then n else 0)
  {
    forall m: nat | m < n
      ensures Passes(Followed(h, hit, m), hit)
    {
      PassesAfter(h, hit, m);
    }
    PassedAreCounted(h, hit, n, from, until);
  }

  lemma CountedOnce(h: seq<Hit>, hit: Hit, n: nat, from: Instant, until: Instant)
    requires n > 0 && Passes(Followed(h, hit, n - 1), hit)
    ensures AcceptedIn(Followed(h, hit, n), SlotOf(hit), from, until, false)
         == AcceptedIn(Followed(h, hit, n - 1), SlotOf(hit), from, until, false) + (if from <= hit.now < until then 1 else 0)
  {
    OneMore(Followed(h, hit, n - 1), hit, from, until);
  }

  lemma {:induction false} FollowedIsOrdered(h: seq<Hit>, hit: Hit, n: nat)
    requires Monotone(h) && ShortWindows(h) && hit.rule.window <= LONGEST_WINDOW && (forall i :: 0 <= i < |h| ==> h[i].now <= hit.now)
    ensures Monotone(Followed(h, hit, n)) && ShortWindows(Followed(h, hit, n))
    ensures forall i :: 0 <= i < |Followed(h, hit, n)| ==> Followed(h, hit, n)[i].now <= hit.now
  {
    if n > 0 {
      FollowedIsOrdered(h, hit, n - 1);
    }
  }

  /** One hit, the rest of its window's just before it ends, and a full new window. */
  function Squeezed(rule: Rule, key: string): seq<Hit>
    requires rule.limit >= 1
  {
    Followed(FirstWindow(rule, key), Hit(rule, key, rule.window), rule.limit)
  }

  function FirstWindow(rule: Rule, key: string): seq<Hit>
    requires rule.limit >= 1
  {
    Followed(Followed([], Hit(rule, key, 0), 1), Hit(rule, key, rule.window - 1), rule.limit - 1)
  }

  lemma SqueezedIsOrdered(rule: Rule, key: string)
    requires rule.limit >= 1 && 1 <= rule.window <= LONGEST_WINDOW
    ensures Monotone(Squeezed(rule, key)) && ShortWindows(Squeezed(rule, key))
  {
    FollowedIsOrdered([], Hit(rule, key, 0), 1);
    FollowedIsOrdered(Followed([], Hit(rule, key, 0), 1), Hit(rule, key, rule.window - 1), rule.limit - 1);
    FollowedIsOrdered(FirstWindow(rule, key), Hit(rule, key, rule.window), rule.limit);
  }

  lemma FirstHit(rule: Rule, key: string)
    requires rule.limit >= 1 && rule.window >= 2
    ensures var h, slot := Followed([], Hit(rule, key, 0), 1), Slot(rule.name, key);
            && OpenWindow(After(h, false), slot) == Some(Window(0, 1))
            && AcceptedIn(h, slot, 1, 1 + rule.window, false) == 0
  {
    AfterFollowed([], Hit(rule, key, 0), 1);
    StackFills(map[], Hit(rule, key, 0), 1);
    AllAreCounted([], Hit(rule, key, 0), 1, 1, 1 + rule.window);
  }

  lemma FirstWindowFills(rule: Rule, key: string)
    requires rule.limit >= 1 && 2 <= rule.window
    ensures OpenWindow(After(FirstWindow(rule, key), false), Slot(rule.name, key)) == Some(Window(0, rule.limit))
  {
    FirstHit(rule, key);
    var w, hit := After(Followed([], Hit(rule, key, 0), 1), false), Hit(rule, key, rule.window - 1);
    AfterFollowed(Followed([], Hit(rule, key, 0), 1), hit, rule.limit - 1);
    StackFills(w, hit, rule.limit - 1);
  }

  lemma FirstWindowCount(rule: Rule, key: string)
    requires rule.limit >= 1 && 2 <= rule.window
    ensures AcceptedIn(FirstWindow(rule, key), Slot(rule.name, key), 1, 1 + rule.window, false) == rule.limit - 1
  {
    FirstHit(rule, key);
    AllAreCounted(Followed([], Hit(rule, key, 0), 1), Hit(rule, key, rule.window - 1), rule.limit - 1, 1,
        1 + rule.window);
  }

  lemma SqueezedCount(rule: Rule, key: string)
    requires rule.limit >= 1 && 2 <= rule.window
    ensures AcceptedIn(Squeezed(rule, key), Slot(rule.name, key), 1, 1 + rule.window, false) == 2 * rule.limit - 1
  {
    FirstWindowFills(rule, key);
    FirstWindowCount(rule, key);
    AllAreCounted(FirstWindow(rule, key), Hit(rule, key, rule.window), rule.limit, 1, 1 + rule.window);
  }

  /** The bound is reached. */
  lemma TheBoundIsReached(rule: Rule, key: string)
    requires rule.limit >= 1 && 2 <= rule.window <= LONGEST_WINDOW
    ensures Monotone(Squeezed(rule, key))
    ensures AcceptedIn(Squeezed(rule, key), Slot(rule.name, key), 1, 1 + rule.window, true) == 2 * rule.limit - 1
  {
    SqueezedIsOrdered(rule, key);
    SqueezedCount(rule, key);
    SameCounts(Squeezed(rule, key), Slot(rule.name, key), 1, 1 + rule.window);
  }

  // ----- waiting -----

  lemma {:induction false} RefusalsChangeNothing(h: seq<Hit>, i: nat, slot: Slot)
    requires i <= |h| && forall k :: i <= k < |h| && SlotOf(h[k]) == slot ==> ReplyAt(h, k, false).Limited?
    ensures OpenWindow(After(h, false), slot) == OpenWindow(After(h[..i], false), slot)
    decreases |h|
  {
    if i == |h| {
      assert h[..i] == h;
    } else {
      var n := |h| - 1;
      var g := h[..n];
      forall k | i <= k < n && SlotOf(g[k]) == slot
        ensures ReplyAt(g, k, false).Limited?
      {
        assert g[..k] == h[..k];
      }
      RefusalsChangeNothing(g, i, slot);
      assert g[..i] == h[..i];
    }
  }

  /**
   The wait a refusal reports is honoured: with only refusals in between, a hit after it gets through
   unless the rule admits nothing at all, and one at least a second short of it does not.
   */
  lemma WaitIsHonoured(h: seq<Hit>, i: nat, j: nat, slot: Slot, rule: Rule)
    requires Monotone(h) && ShortWindows(h) && Ruled(h, slot, rule)
    requires i < j < |h| && SlotOf(h[i]) == slot && SlotOf(h[j]) == slot
    requires forall k :: i <= k < j && SlotOf(h[k]) == slot ==> ReplyAt(h, k, true).Limited?
    ensures var wait := ReplyAt(h, i, true).retryAfter;
            && wait >= 1
            && (h[j].now >= h[i].now + wait * SECOND ==> (ReplyAt(h, j, true).Accepted? <==> rule.limit >= 1))
            && (h[j].now <= h[i].now + (wait - 1) * SECOND ==> ReplyAt(h, j, true).Limited?)
  {
    PruningIsInvisible(h, i);
    PruningIsInvisible(h, j);
    var g := h[..j];
    forall k | i <= k < j && SlotOf(g[k]) == slot
      ensures ReplyAt(g, k, false).Limited?
    {
      PruningIsInvisible(h, k);
      assert g[..k] == h[..k];
    }
    RefusalsChangeNothing(g, i, slot);
    assert g[..i] == h[..i];
    WaitFits(After(h[..i], false), After(h[..j], false), h[i], h[j]);
  }

  lemma WaitFits(w: Windows, w': Windows, denied: Hit, hit: Hit)
    requires SlotOf(denied) == SlotOf(hit) && denied.rule == hit.rule && denied.now <= hit.now
    requires OpenWindow(w, SlotOf(hit)) == OpenWindow(w', SlotOf(hit))
    requires Decide(Current(w, denied), denied).Limited?
    ensures var wait, reply := Decide(Current(w, denied), denied).retryAfter, Decide(Current(w', hit), hit);
            && (hit.now >= denied.now + wait * SECOND ==> (reply.Accepted? <==> hit.rule.limit >= 1))
            && (hit.now <= denied.now + (wait - 1) * SECOND ==> reply.Limited?)
  {
    CeilRoundsUp(Current(w, denied).startedAt + denied.rule.window - denied.now);
  }

  lemma CeilRoundsUp(micros: int)
    ensures (CeilSeconds(micros) - 1) * SECOND < micros <= CeilSeconds(micros) * SECOND
  {
  }

  // ----- the limiter -----

  class FixedWindowRateLimiter {
    var windows: Windows

    constructor ()
      ensures windows == map[]
    {
      windows := map[];
    }

    /** Counts one attempt at the given clock reading, or says how long to wait. */
    method HitOnce(rule: Rule, key: string, now: Instant) returns (reply: Reply)
      modifies this
      ensures reply == Decide(Current(Pruned(old(windows), now), Hit(rule, key, now)), Hit(rule, key, now))
      ensures windows == Counted(Pruned(old(windows), now), Hit(rule, key, now))
    {
      if |windows| > PRUNE_THRESHOLD {
        var horizon := now - LONGEST_WINDOW;
        windows := map slot | slot in windows && windows[slot].startedAt > horizon :: windows[slot];
      }
      var slot := Slot(rule.name, key);
      var startedAt, used := now, 0;
      if slot in windows {
        startedAt, used := windows[slot].startedAt, windows[slot].used;
      }
      if now >= startedAt + rule.window {
        startedAt, used := now, 0;
      }
      if used >= rule.limit {
        return Limited(Max(1, CeilSeconds(startedAt + rule.window - now)));
      }
      windows := windows[slot := Window(startedAt, used + 1)];
      return Accepted;
    }

    /** Serving hits one after another gives exactly the replies the theorems are about. */
    method Serve(hits: seq<Hit>) returns (replies: seq<Reply>)
      requires windows == map[]
      modifies this
      ensures |replies| == |hits| && forall i :: 0 <= i < |hits| ==> replies[i] == ReplyAt(hits, i, true)
    {
      replies := [];
      for n := 0 to |hits|
        invariant windows == After(hits[..n], true)
        invariant |replies| == n && forall i :: 0 <= i < n ==> replies[i] == ReplyAt(hits, i, true)
      {
        assert hits[..n + 1][..n] == hits[..n];
        var reply := HitOnce(hits[n].rule, hits[n].key, hits[n].now);
        replies := replies + [reply];
      }
    }
  }
}
