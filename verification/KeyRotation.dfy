/** Rotating API keys on rate limits (server/src/control/agents/groq_client.py): a circular scan for a key out of
    cooldown, the soonest one as a fallback, and a failover loop bounded by the number of keys. The sourcing
    service carries the same class. */
module KeyRotation {
  import opened Common

  /** What the upstream answers to one request. */
  datatype Outcome = Answered | Limited(cooldown: real) | Broken

  /** How a call ends; with a single key a rate limit is passed on unhandled. */
  datatype Ending = Succeeded | AllRateLimited | RateLimitPassedOn | ErrorPassedOn

  /** How a call ends when its last request is answered so. */
  function EndingOf(last: Outcome, severalKeys: bool): Ending {
    match last
    case Answered => Succeeded
    case Broken => ErrorPassedOn
    case Limited(_) => if severalKeys then AllRateLimited else RateLimitPassedOn
  }

  /** The key `steps` places after `start` on the ring. */
  function Slot(start: nat, steps: nat, n: nat): nat
    requires n > 0
  {
    (start + steps) % n
  }

  lemma SlotWraps(start: nat, steps: nat, n: nat)
    requires start <= n && steps < n
    ensures Slot(start, steps, n) == if start + steps < n then start + steps else start + steps - n
  {
    if start + steps >= n {
      assert start + steps == n + (start + steps - n);
      SmallRemainder(start + steps - n, n);
    } else {
      SmallRemainder(start + steps, n);
    }
  }

  lemma SmallRemainder(x: nat, n: nat)
    requires x < n
    ensures x % n == x && (n + x) % n == x
  {
  }

  /** The first index with the smallest cooldown. */
  function Soonest(cooldowns: seq<real>): (r: nat)
    requires cooldowns != []
    ensures r < |cooldowns|
    ensures forall j :: 0 <= j < |cooldowns| ==> cooldowns[r] <= cooldowns[j]
    ensures forall j :: 0 <= j < r ==> cooldowns[r] < cooldowns[j]
  {
    var n := |cooldowns| - 1;
    if n == 0 then 0
    else
      var front := Soonest(cooldowns[..n]);
      if cooldowns[n] < cooldowns[front] then n else front
  }

  /** A scan from `start` that read the clock once per key: it stops at the first key out of cooldown, or after all
      of them. */
  ghost predicate Scanned(cooldowns: seq<real>, start: nat, readings: seq<real>)
    requires cooldowns != []
  {
    var n := |cooldowns|;
    && 1 <= |readings| <= n
    && (forall s :: 0 <= s < |readings| - 1 ==> readings[s] < cooldowns[Slot(start, s, n)])
    && (|readings| < n ==> readings[|readings| - 1] >= cooldowns[Slot(start, |readings| - 1, n)])
  }

  /** The key such a scan settles on. */
  function Selected(cooldowns: seq<real>, start: nat, readings: seq<real>): (r: nat)
    requires cooldowns != [] && readings != []
    ensures r < |cooldowns|
  {
    var last := Slot(start, |readings| - 1, |cooldowns|);
    if readings[|readings| - 1] >= cooldowns[last] then last else Soonest(cooldowns)
  }

  /** From `start` on, one key after the other round the ring: the key settled on is the first one out of cooldown when
      looked at, or, if none was, the first of those with the smallest cooldown. */
  ghost predicate ScansTo(cooldowns: seq<real>, start: nat, readings: seq<real>, key: nat)
    requires cooldowns != []
  {
    var n, last := |cooldowns|, |readings| - 1;
    && 1 <= |readings| <= n && key < n
    && (forall s :: 0 <= s < last ==> readings[s] < cooldowns[(start + s) % n])
    && if readings[last] >= cooldowns[(start + last) % n] then key == (start + last) % n
       else
         && |readings| == n
         && (forall j :: 0 <= j < n ==> cooldowns[key] <= cooldowns[j])
         && (forall j :: 0 <= j < key ==> cooldowns[key] < cooldowns[j])
  }

  lemma {:induction false} SelectedIsFreeOrSoonest(cooldowns: seq<real>, start: nat, readings: seq<real>)
    requires cooldowns != [] && Scanned(cooldowns, start, readings)
    ensures ScansTo(cooldowns, start, readings, Selected(cooldowns, start, readings))
  {
  }

  class Clock {
    var now: real

    method Time() returns (t: real)
      modifies this
      ensures t == now >= old(now)
    {
      var elapsed: real := *;
      now := now + if elapsed > 0.0 then elapsed else 0.0;
      t := now;
    }
  }

  /** The class-level state all clients share. */
  class KeyRing {
    const keys: seq<string>
    var cooldowns: seq<real>
    var current: nat
    var rateLimits: nat

    ghost predicate Valid()
      reads this
    {
      keys != [] && |cooldowns| == |keys| && current < |keys|
    }

    constructor (keys: seq<string>)
      requires keys != []
      ensures Valid() && this.keys == keys && current == 0 && rateLimits == 0
      ensures forall i :: 0 <= i < |keys| ==> cooldowns[i] == 0.0
    {
      this.keys := keys;
      cooldowns := seq(|keys|, _ => 0.0);
      current, rateLimits := 0, 0;
    }

    /** Scanning from `start` and moving on to the key found. */
    method Select(start: nat, clock: Clock) returns (ghost readings: seq<real>)
      requires Valid() && start <= |keys|
      modifies this`current, clock
      ensures Valid() && cooldowns == old(cooldowns)
      ensures Scanned(cooldowns, start, readings) && current == Selected(cooldowns, start, readings)
      ensures ScansTo(cooldowns, start, readings, current)
      ensures clock.now >= old(clock.now)
      ensures forall s :: 0 <= s < |readings| ==> readings[s] >= old(clock.now)
    {
      var n := |keys|;
      readings := [];
      var found := false;
      for step := 0 to n
        invariant |readings| == step && !found
        invariant clock.now >= old(clock.now)
        invariant forall s :: 0 <= s < |readings| ==> readings[s] >= old(clock.now)
        invariant forall s :: 0 <= s < step ==> readings[s] < cooldowns[Slot(start, s, n)]
      {
        var candidate := Slot(start, step, n);
        var t := clock.Time();
        readings := readings + [t];
        if t >= cooldowns[candidate] {
          current := candidate;
          SelectedIsFreeOrSoonest(cooldowns, start, readings);
          return;
        }
      }
      current := Soonest(cooldowns);
      SelectedIsFreeOrSoonest(cooldowns, start, readings);
    }
  }

  /** Each request carried the key at its index. */
  predicate Carried(keys: seq<string>, requests: seq<string>, tried: seq<nat>) {
    && |requests| == |tried|
    && forall i :: 0 <= i < |tried| ==> tried[i] < |keys| && requests[i] == keys[tried[i]]
  }

  /** A rate limit as it was handled: the key it hit, when that went into cooldown and for how long, the clock
      readings of the scan for another key, and the key found. */
  datatype Handling = Handling(key: nat, at: real, cooldown: real, readings: seq<real>, next: nat)

  /** The cooldowns once these rate limits have been handled. */
  function CooldownsAfter(initial: seq<real>, limits: seq<Handling>): (r: seq<real>)
    ensures |r| == |initial|
  {
    if limits == [] then initial
    else CoolDown(CooldownsAfter(initial, limits[..|limits| - 1]), limits[|limits| - 1])
  }

  function CoolDown(cooldowns: seq<real>, l: Handling): (r: seq<real>)
    ensures |r| == |cooldowns|
    ensures forall j :: 0 <= j < |r| ==> r[j] == if j == l.key then l.at + l.cooldown else cooldowns[j]
  {
    if l.key < |cooldowns| then cooldowns[l.key := l.at + l.cooldown] else cooldowns
  }

  /** The key in use after these rate limits. */
  function KeyAfter(origin: nat, limits: seq<Handling>): nat {
    if limits == [] then origin else limits[|limits| - 1].next
  }

  /** Not before `start`, the key goes into cooldown and a scan from the next place on settles on another. */
  ghost predicate Rotates(cooldowns: seq<real>, l: Handling, start: real)
    requires cooldowns != []
  {
    && l.key < |cooldowns| && l.at >= start
    && Scanned(CoolDown(cooldowns, l), l.key + 1, l.readings)
    && l.next == Selected(CoolDown(cooldowns, l), l.key + 1, l.readings)
    && forall s :: 0 <= s < |l.readings| ==> l.readings[s] >= start
  }

  /** In full: the key that was limited goes into cooldown, no other, and the scan goes on from the next place. */
  lemma {:induction false} RotationScans(cooldowns: seq<real>, l: Handling, start: real)
    requires cooldowns != [] && Rotates(cooldowns, l, start)
    ensures var cooled := cooldowns[l.key := l.at + l.cooldown];
      l.at >= start && ScansTo(cooled, l.key + 1, l.readings, l.next)
  {
    assert CoolDown(cooldowns, l) == cooldowns[l.key := l.at + l.cooldown];
    SelectedIsFreeOrSoonest(CoolDown(cooldowns, l), l.key + 1, l.readings);
  }

  /** The i-th rate limit hit the key then in use, put it into cooldown for as long as its answer asked, and moved on
      to the key the scan settled on. */
  ghost predicate HandledAt(
    initial: seq<real>, start: real, origin: nat, limits: seq<Handling>, upstream: nat -> Outcome, i: nat)
    requires initial != [] && i < |limits|
  {
    var l, front := limits[i], limits[..i];
    && l.key == KeyAfter(origin, front) && upstream(i) == Limited(l.cooldown)
    && Rotates(CooldownsAfter(initial, front), l, start)
  }

  ghost predicate Handled(
    initial: seq<real>, start: real, origin: nat, limits: seq<Handling>, upstream: nat -> Outcome)
    requires initial != []
  {
    forall i :: 0 <= i < |limits| ==> HandledAt(initial, start, origin, limits, upstream, i)
  }

  /** The keys the rate limits hit, in order. */
  function Keys(limits: seq<Handling>): (r: seq<nat>)
    ensures |r| == |limits|
  {
    if limits == [] then [] else Keys(limits[..|limits| - 1]) + [limits[|limits| - 1].key]
  }

  lemma {:induction false} HandledGrows(
    initial: seq<real>, start: real, origin: nat, limits: seq<Handling>, upstream: nat -> Outcome, l: Handling)
    requires initial != [] && Handled(initial, start, origin, limits, upstream)
    requires l.key == KeyAfter(origin, limits) && upstream(|limits|) == Limited(l.cooldown)
    requires Rotates(CooldownsAfter(initial, limits), l, start)
    ensures Handled(initial, start, origin, limits + [l], upstream)
    ensures CooldownsAfter(initial, limits + [l]) == CoolDown(CooldownsAfter(initial, limits), l)
  {
    forall i | 0 <= i < |limits + [l]| ensures HandledAt(initial, start, origin, limits + [l], upstream, i) {
      if i < |limits| {
        assert HandledAt(initial, start, origin, limits, upstream, i);
        assert (limits + [l])[..i] == limits[..i];
      } else {
        assert (limits + [l])[..i] == limits;
      }
    }
    assert (limits + [l])[..|limits|] == limits;
  }

  lemma {:induction false} HandledPrefix(
    initial: seq<real>, start: real, origin: nat, limits: seq<Handling>, upstream: nat -> Outcome)
    requires initial != [] && limits != [] && Handled(initial, start, origin, limits, upstream)
    ensures var front, l := limits[..|limits| - 1], limits[|limits| - 1];
      && Handled(initial, start, origin, front, upstream)
      && l.key == KeyAfter(origin, front) && Rotates(CooldownsAfter(initial, front), l, start)
  {
    var n := |limits| - 1;
    forall i | 0 <= i < n ensures HandledAt(initial, start, origin, limits[..n], upstream, i) {
      assert HandledAt(initial, start, origin, limits, upstream, i);
      assert limits[..n][..i] == limits[..i];
    }
    assert HandledAt(initial, start, origin, limits, upstream, n);
  }

  /** A call on a ring with these cooldowns, begun with key `origin`: the keys it tried, the rate limits it handled
      and how it ended. */
  ghost predicate IsCall(
    initial: seq<real>, start: real, origin: nat, upstream: nat -> Outcome, ending: Ending, tried: seq<nat>,
    limits: seq<Handling>)
    requires initial != []
  {
    && 1 <= |tried| <= |initial| && (ending == AllRateLimited ==> |tried| == |initial|)
    && ending == EndingOf(upstream(|tried| - 1), |initial| > 1)
    && tried == Keys(limits) + (if ending == AllRateLimited then [] else [KeyAfter(origin, limits)])
    && Handled(initial, start, origin, limits, upstream)
  }

  /** A key that hit no rate limit keeps its cooldown. */
  lemma {:induction false} UnlimitedKeepsCooldown(initial: seq<real>, limits: seq<Handling>, j: nat)
    requires j < |initial| && j !in Keys(limits)
    ensures CooldownsAfter(initial, limits)[j] == initial[j]
  {
    if limits != [] {
      UnlimitedKeepsCooldown(initial, limits[..|limits| - 1], j);
    }
  }

  /** A key that hit some has the cooldown set by the last of them. */
  lemma {:induction false} LastLimitCounts(initial: seq<real>, limits: seq<Handling>, i: nat)
    requires i < |limits| && limits[i].key < |initial|
    requires forall k :: i < k < |limits| ==> limits[k].key != limits[i].key
    ensures CooldownsAfter(initial, limits)[limits[i].key] == limits[i].at + limits[i].cooldown
  {
    if i < |limits| - 1 {
      LastLimitCounts(initial, limits[..|limits| - 1], i);
    }
  }

  lemma CarriedOneMore(keys: seq<string>, requests: seq<string>, tried: seq<nat>, i: nat)
    requires Carried(keys, requests, tried) && i < |keys|
    ensures Carried(keys, requests + [keys[i]], tried + [i])
  {
  }

  /** One client; `key` is the key its connection is set up with. */
  class RotationalChatGroq {
    const ring: KeyRing
    var key: string

    ghost predicate Synced()
      reads this, ring
    {
      ring.Valid() && key == ring.keys[ring.current]
    }

    constructor (ring: KeyRing, clock: Clock)
      requires ring.Valid()
      modifies ring`current, clock
      ensures this.ring == ring && Synced()
      ensures ring.cooldowns == old(ring.cooldowns) && ring.rateLimits == old(ring.rateLimits)
    {
      this.ring := ring;
      key := "";
      new;
      ghost var readings := ring.Select(ring.current, clock);
      key := ring.keys[ring.current];
    }

    method SyncToActiveKey()
      requires ring.Valid()
      modifies this`key
      ensures Synced()
    {
      if key != ring.keys[ring.current] {
        key := ring.keys[ring.current];
      }
    }

    /** After a rate limit on the active key: cool it down, move to the next key, reconnect. */
    method FailOver(cooldown: real, clock: Clock) returns (ghost l: Handling)
      requires Synced()
      modifies this`key, ring, clock
      ensures Synced() && ring.rateLimits == old(ring.rateLimits) + 1
      ensures l.key == old(ring.current) && l.cooldown == cooldown && Rotates(old(ring.cooldowns), l, old(clock.now))
      ensures ring.cooldowns == CoolDown(old(ring.cooldowns), l) && ring.current == l.next
      ensures ring.cooldowns == old(ring.cooldowns)[old(ring.current) := l.at + cooldown] && l.at >= old(clock.now)
      ensures clock.now >= old(clock.now)
    {
      ring.rateLimits := ring.rateLimits + 1;
      ghost var cooldowns, active := ring.cooldowns, ring.current;
      var at := clock.Time();
      ring.cooldowns := ring.cooldowns[ring.current := at + cooldown];
      ghost var readings := ring.Select(ring.current + 1, clock);
      l := Handling(active, at, cooldown, readings, ring.current);
      assert ring.cooldowns == CoolDown(cooldowns, l);
      SyncToActiveKey();
    }

    /** A call. `upstream(i)` is the answer to its i-th request; `requests` are the keys its requests carried and
        `tried` their indices, `limits` the rate limits it handled. It asks at most once per key in all, cools down
        exactly the keys that were limited, and gives up only when that many requests were rate limited and among
        them was one with the key it began with and one with every key then out of cooldown. */
    method Generate(upstream: nat -> Outcome, clock: Clock)
      returns (ending: Ending, requests: seq<string>, ghost tried: seq<nat>, ghost limits: seq<Handling>)
      requires ring.Valid()
      modifies this`key, ring, clock
      ensures Synced() && Carried(ring.keys, requests, tried)
      ensures IsCall(old(ring.cooldowns), old(clock.now), old(ring.current), upstream, ending, tried, limits)
      ensures ring.cooldowns == CooldownsAfter(old(ring.cooldowns), limits)
      ensures ring.current == KeyAfter(old(ring.current), limits)
      ensures ring.rateLimits == old(ring.rateLimits) + |limits|
      ensures 1 <= |tried| <= |ring.keys|
      ensures ending == Succeeded <==> upstream(|tried| - 1) == Answered
      ensures ending == ErrorPassedOn <==> upstream(|tried| - 1) == Broken
      ensures ending == RateLimitPassedOn <==> upstream(|tried| - 1).Limited? && |ring.keys| == 1
      ensures ending == AllRateLimited <==> upstream(|tried| - 1).Limited? && |ring.keys| > 1
      ensures ending == AllRateLimited ==> |tried| == |ring.keys| == |limits|
      ensures ending == AllRateLimited ==>
                forall j :: 0 <= j < |ring.keys| && (j == old(ring.current) || old(ring.cooldowns)[j] <= old(clock.now)) ==>
                  j in tried
    {
      ghost var initial, start, origin := ring.cooldowns, clock.now, ring.current;
      SyncToActiveKey();
      if |ring.keys| <= 1 {
        requests, tried, limits := [key], [ring.current], [];
        ending := EndingOf(upstream(0), false);
      } else {
        ending, requests, tried, limits := GenerateWithFailover(upstream, clock);
        if ending == AllRateLimited {
          GivingUpTriesAvailable(initial, start, origin, upstream, tried, limits);
        }
      }
    }

    /** A failover after others in the same call. */
    method FailOverFrom(
      cooldown: real, clock: Clock, ghost initial: seq<real>, ghost start: real, ghost origin: nat,
      ghost limits: seq<Handling>, ghost upstream: nat -> Outcome)
      returns (ghost limitsAfter: seq<Handling>)
      requires Synced() && origin < |initial| == |ring.keys| && start <= clock.now
      requires upstream(|limits|) == Limited(cooldown)
      requires Handled(initial, start, origin, limits, upstream)
      requires ring.cooldowns == CooldownsAfter(initial, limits) && ring.current == KeyAfter(origin, limits)
      modifies this`key, ring, clock
      ensures Synced() && ring.rateLimits == old(ring.rateLimits) + 1 && clock.now >= old(clock.now)
      ensures |limitsAfter| == |limits| + 1 && Handled(initial, start, origin, limitsAfter, upstream)
      ensures Keys(limitsAfter) == Keys(limits) + [old(ring.current)]
      ensures ring.cooldowns == CooldownsAfter(initial, limitsAfter) && ring.current == KeyAfter(origin, limitsAfter)
    {
      ghost var l := FailOver(cooldown, clock);
      HandledGrows(initial, start, origin, limits, upstream, l);
      limitsAfter := limits + [l];
    }

    method GenerateWithFailover(upstream: nat -> Outcome, clock: Clock)
      returns (ending: Ending, requests: seq<string>, ghost tried: seq<nat>, ghost limits: seq<Handling>)
      requires Synced() && |ring.keys| > 1
      modifies this`key, ring, clock
      ensures Synced() && Carried(ring.keys, requests, tried)
      ensures IsCall(old(ring.cooldowns), old(clock.now), old(ring.current), upstream, ending, tried, limits)
      ensures ring.cooldowns == CooldownsAfter(old(ring.cooldowns), limits)
      ensures ring.current == KeyAfter(old(ring.current), limits)
      ensures ring.rateLimits == old(ring.rateLimits) + |limits|
    {
      ghost var initial, start, origin := ring.cooldowns, clock.now, ring.current;
      var n, attempts := |ring.keys|, 0;
      requests, tried, limits, ending := [], [], [], AllRateLimited;
      while attempts < n && ending == AllRateLimited
        invariant 0 <= attempts <= n && |limits| == attempts && Synced()
        invariant Carried(ring.keys, requests, tried)
        invariant tried == Keys(limits) + if ending == AllRateLimited then [] else [ring.current]
        invariant Handled(initial, start, origin, limits, upstream)
        invariant ring.cooldowns == CooldownsAfter(initial, limits) && ring.current == KeyAfter(origin, limits)
        invariant ring.rateLimits == old(ring.rateLimits) + attempts
        invariant clock.now >= start
        invariant ending == AllRateLimited ==> attempts == 0 || upstream(attempts - 1).Limited?
        invariant ending != AllRateLimited ==> attempts < n && ending == EndingOf(upstream(attempts), true)
        decreases n - attempts, if ending == AllRateLimited then 1 else 0
      {
        var outcome := upstream(attempts);
        CarriedOneMore(ring.keys, requests, tried, ring.current);
        requests, tried := requests + [key], tried + [ring.current];
        if outcome.Limited? {
          limits := FailOverFrom(outcome.cooldown, clock, initial, start, origin, limits, upstream);
          attempts := attempts + 1;
        } else {
          ending := EndingOf(outcome, true);
        }
      }
    }
  }

  // ================================================================ which keys a call tries before it gives up

  /** How far round the ring, from the key the call began with, index j is. */
  function Offset(origin: nat, j: nat, n: nat): nat
    requires origin < n && j < n
  {
    if j >= origin then j - origin else j + n - origin
  }

  /** Until every key that was available at the start has been tried, the next key lies further round the ring than
      the number of requests made, and no available key before it was passed over. */
  ghost predicate Advancing(cooldowns: seq<real>, start: real, origin: nat, tried: seq<nat>, next: nat)
    requires origin < |cooldowns| && next < |cooldowns|
  {
    var n := |cooldowns|;
    || (forall j :: 0 <= j < n && cooldowns[j] <= start ==> j in tried)
    || (&& Offset(origin, next, n) >= |tried|
        && forall j :: 0 <= j < n && cooldowns[j] <= start && Offset(origin, j, n) < Offset(origin, next, n) ==>
             j in tried)
  }

  lemma OffsetOfSlot(origin: nat, active: nat, s: nat, n: nat)
    requires origin < n && active < n && Offset(origin, active, n) + 1 + s < n
    ensures Slot(active + 1, s, n) < n && Offset(origin, Slot(active + 1, s, n), n) == Offset(origin, active, n) + 1 + s
  {
    SlotWraps(active + 1, s, n);
  }

  /** Indices further round the ring than `active` are the ones the scan from `active + 1` visits in order. */
  lemma SlotOfOffset(origin: nat, active: nat, j: nat, n: nat)
    requires origin < n && active < n && j < n && Offset(origin, active, n) < Offset(origin, j, n)
    ensures Slot(active + 1, Offset(origin, j, n) - Offset(origin, active, n) - 1, n) == j
  {
    OffsetOfSlot(origin, active, Offset(origin, j, n) - Offset(origin, active, n) - 1, n);
  }

  /** The scan did not pass over an index still out of cooldown. */
  lemma ScanStopsAt(cooldowns: seq<real>, active: nat, readings: seq<real>, start: real, d: nat)
    requires active < |cooldowns| && d < |cooldowns| - 1
    requires Scanned(cooldowns, active + 1, readings) && forall s :: 0 <= s < |readings| ==> readings[s] >= start
    requires cooldowns[Slot(active + 1, d, |cooldowns|)] <= start
    ensures |readings| - 1 <= d
    ensures Selected(cooldowns, active + 1, readings) == Slot(active + 1, |readings| - 1, |cooldowns|)
  {
  }

  /** A key available at the start is available still, unless it was tried. */
  ghost predicate StillFree(initial: seq<real>, start: real, tried: seq<nat>, cooldowns: seq<real>) {
    && |initial| == |cooldowns|
    && forall j :: 0 <= j < |initial| && initial[j] <= start && j !in tried ==> cooldowns[j] <= start
  }

  lemma {:induction false} StillAdvancing(
    initial: seq<real>, start: real, origin: nat, tried: seq<nat>, active: nat,
    cooldowns: seq<real>, readings: seq<real>, next: nat)
    requires origin < |initial| == |cooldowns| && active < |initial|
    requires Advancing(initial, start, origin, tried, active)
    requires StillFree(initial, start, tried + [active], cooldowns)
    requires Scanned(cooldowns, active + 1, readings) && next == Selected(cooldowns, active + 1, readings)
    requires forall s :: 0 <= s < |readings| ==> readings[s] >= start
    ensures Advancing(initial, start, origin, tried + [active], next)
  {
    var n := |initial|;
    if j :| 0 <= j < n && initial[j] <= start && j !in tried + [active] {
      var here := Offset(origin, active, n);
      SlotOfOffset(origin, active, j, n);
      ScanStopsAt(cooldowns, active, readings, start, Offset(origin, j, n) - here - 1);
      OffsetOfSlot(origin, active, |readings| - 1, n);
      forall i | 0 <= i < n && initial[i] <= start && Offset(origin, i, n) < Offset(origin, next, n)
        ensures i in tried + [active]
      {
        if Offset(origin, i, n) > here {
          SlotOfOffset(origin, active, i, n);
          assert readings[Offset(origin, i, n) - here - 1] < cooldowns[i];
        }
      }
    }
  }

  /** The rate limits of a call lead it round the ring. */
  lemma {:induction false} HandledAdvances(
    initial: seq<real>, start: real, origin: nat, limits: seq<Handling>, upstream: nat -> Outcome)
    requires origin < |initial| && Handled(initial, start, origin, limits, upstream)
    ensures KeyAfter(origin, limits) < |initial|
    ensures Advancing(initial, start, origin, Keys(limits), KeyAfter(origin, limits))
    ensures limits != [] ==> origin in Keys(limits)
  {
    if limits != [] {
      var front, l := limits[..|limits| - 1], limits[|limits| - 1];
      HandledPrefix(initial, start, origin, limits, upstream);
      HandledAdvances(initial, start, origin, front, upstream);
      var cooldowns := CoolDown(CooldownsAfter(initial, front), l);
      forall j | 0 <= j < |initial| && j !in Keys(front) + [l.key] ensures cooldowns[j] == initial[j] {
        UnlimitedKeepsCooldown(initial, front, j);
      }
      StillAdvancing(initial, start, origin, Keys(front), l.key, cooldowns, l.readings, l.next);
      if front == [] {
        assert Keys(front) == [] && l.key == origin;
      }
    }
  }

  /** A call that gives up has tried the key it began with and every key available then. */
  lemma {:induction false} GivingUpTriesAvailable(
    initial: seq<real>, start: real, origin: nat, upstream: nat -> Outcome, tried: seq<nat>, limits: seq<Handling>)
    requires origin < |initial| && IsCall(initial, start, origin, upstream, AllRateLimited, tried, limits)
    ensures forall j :: 0 <= j < |initial| && (j == origin || initial[j] <= start) ==> j in tried
  {
    HandledAdvances(initial, start, origin, limits, upstream);
  }

  // ================================================================ which keys a call may miss

  predicate CoolingAt(cooldowns: seq<real>, active: nat, now: real, s: nat)
    requires cooldowns != []
  {
    cooldowns[Slot(active + 1, s, |cooldowns|)] > now
  }

  /** Where the scan from behind `active`, from its d-th place on, ends at this time. */
  function FirstFree(cooldowns: seq<real>, active: nat, now: real, d: nat): (r: nat)
    requires d < |cooldowns|
    ensures d <= r < |cooldowns| && (r < |cooldowns| - 1 ==> !CoolingAt(cooldowns, active, now, r))
    ensures forall s :: d <= s < r ==> CoolingAt(cooldowns, active, now, s)
    decreases |cooldowns| - d
  {
    if d == |cooldowns| - 1 || !CoolingAt(cooldowns, active, now, d) then d
    else FirstFree(cooldowns, active, now, d + 1)
  }

  /** The readings of a scan from behind `active`, all within one instant. */
  function InstantScan(cooldowns: seq<real>, active: nat, now: real): (r: seq<real>)
    requires cooldowns != []
    ensures Scanned(cooldowns, active + 1, r) && forall s :: 0 <= s < |r| ==> r[s] == now
  {
    var d := FirstFree(cooldowns, active, now, 0);
    ScanEndsAt(cooldowns, active, now, d);
    Still(now, d + 1)
  }

  /** If the active key is free, such a scan ends on a free key, at the latest on the active one again. */
  lemma {:induction false} InstantScanFindsFree(cooldowns: seq<real>, active: nat, now: real)
    requires active < |cooldowns| && cooldowns[active] <= now
    ensures var next := Selected(cooldowns, active + 1, InstantScan(cooldowns, active, now)); cooldowns[next] <= now
  {
    var d := FirstFree(cooldowns, active, now, 0);
    SlotWraps(active + 1, |cooldowns| - 1, |cooldowns|);
    assert cooldowns[Slot(active + 1, d, |cooldowns|)] <= now by {
      assert d < |cooldowns| - 1 ==> !CoolingAt(cooldowns, active, now, d);
    }
  }

  /** A rate limit without a cooldown on a key, handled in no time. */
  function Instant(cooldowns: seq<real>, key: nat, now: real): (l: Handling)
    requires key < |cooldowns|
    ensures l.key == key && l.cooldown == 0.0 && Rotates(cooldowns, l, now)
    ensures l.next < |cooldowns| && CoolDown(cooldowns, l)[l.next] <= now
  {
    var cooled := cooldowns[key := now + 0.0];
    var readings := InstantScan(cooled, key, now);
    InstantScanFindsFree(cooled, key, now);
    assert cooled == CoolDown(cooldowns, Handling(key, now, 0.0, readings, 0));
    Handling(key, now, 0.0, readings, Selected(cooled, key + 1, readings))
  }

  /** The clock read n times within one instant. */
  function Still(now: real, n: nat): (r: seq<real>)
    ensures |r| == n && forall s :: 0 <= s < n ==> r[s] == now
  {
    seq(n, _ => now)
  }

  lemma {:induction false} ScanEndsAt(cooldowns: seq<real>, active: nat, now: real, d: nat)
    requires d < |cooldowns| && (d < |cooldowns| - 1 ==> !CoolingAt(cooldowns, active, now, d))
    requires forall s :: 0 <= s < d ==> CoolingAt(cooldowns, active, now, s)
    ensures Scanned(cooldowns, active + 1, Still(now, d + 1))
  {
    var readings := Still(now, d + 1);
    forall s | 0 <= s < |readings| - 1 ensures readings[s] < cooldowns[Slot(active + 1, s, |cooldowns|)] {
      assert CoolingAt(cooldowns, active, now, s);
    }
  }

  /** An upstream that limits every request and asks for no cooldown. */
  function NeverAnswering(): nat -> Outcome {
    _ => Limited(0.0)
  }

  /** With such an upstream, and all within one instant, a key in cooldown at the start is never used. */
  lemma {:induction false} Avoiding(initial: seq<real>, start: real, origin: nat, j: nat, m: nat)
    returns (limits: seq<Handling>)
    requires origin < |initial| && j < |initial| && j != origin && initial[j] > start
    ensures |limits| == m && Handled(initial, start, origin, limits, NeverAnswering())
    ensures j !in Keys(limits) && j != KeyAfter(origin, limits) < |initial|
  {
    limits := [];
    if m > 0 {
      limits := Avoiding(initial, start, origin, j, m - 1);
      var cooldowns := CooldownsAfter(initial, limits);
      UnlimitedKeepsCooldown(initial, limits, j);
      var l := Instant(cooldowns, KeyAfter(origin, limits), start);
      assert CoolDown(cooldowns, l)[j] > start;
      HandledGrows(initial, start, origin, limits, NeverAnswering(), l);
      assert (limits + [l])[..|limits|] == limits;
      limits := limits + [l];
    }
  }

  /** Whatever is answered, no call begun like this gives up without having tried key j. */
  ghost predicate SurelyTried(initial: seq<real>, start: real, origin: nat, j: nat)
    requires initial != []
  {
    forall upstream, tried, limits ::
      IsCall(initial, start, origin, upstream, AllRateLimited, tried, limits) ==> j in tried
  }

  /** "All keys are rate limited" speaks for a key exactly if the call began with it or it was out of cooldown
      then. */
  lemma {:induction false} SurelyTriedIff(initial: seq<real>, start: real, origin: nat, j: nat)
    requires |initial| > 1 && origin < |initial| && j < |initial|
    ensures SurelyTried(initial, start, origin, j) <==> j == origin || initial[j] <= start
  {
    if j == origin || initial[j] <= start {
      forall upstream, tried, limits | IsCall(initial, start, origin, upstream, AllRateLimited, tried, limits)
        ensures j in tried
      {
        GivingUpTriesAvailable(initial, start, origin, upstream, tried, limits);
      }
    } else {
      var limits := Avoiding(initial, start, origin, j, |initial|);
      assert IsCall(initial, start, origin, NeverAnswering(), AllRateLimited, Keys(limits), limits);
    }
  }

  /** Such a call: of two keys the second is cooling down, and the first is limited twice in a row. */
  lemma {:induction false} KeyLeftUntried(now: real) returns (limits: seq<Handling>)
    ensures IsCall([now, now + 100.0], now, 0, NeverAnswering(), AllRateLimited, [0, 0], limits)
  {
    var initial := [now, now + 100.0];
    limits := Avoiding(initial, now, 0, 1, 2);
    HandledAdvances(initial, now, 0, limits, NeverAnswering());
    HandledKeysInRange(initial, now, 0, limits, NeverAnswering());
    assert Keys(limits)[0] in Keys(limits) && Keys(limits)[1] in Keys(limits);
  }

  lemma {:induction false} HandledKeysInRange(
    initial: seq<real>, start: real, origin: nat, limits: seq<Handling>, upstream: nat -> Outcome)
    requires initial != [] && Handled(initial, start, origin, limits, upstream)
    ensures forall k :: k in Keys(limits) ==> k < |initial|
  {
    if limits != [] {
      HandledPrefix(initial, start, origin, limits, upstream);
      HandledKeysInRange(initial, start, origin, limits[..|limits| - 1], upstream);
    }
  }
}
