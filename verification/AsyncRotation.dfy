/** Concurrent asynchronous calls sharing one key ring (server/src/control/agents/groq_client.py). Everything between
    two awaits is one atomic step; between its steps a call only waits for its request. */
module AsyncRotation {
  import opened Common
  import opened KeyRotation

  type ClientId = int
  type CallId = int

  /** A call waiting for the answer to a request: `active` is the index it remembers, `key` the credential its request
      was sent with. */
  datatype Waiting = Waiting(client: ClientId, attempts: nat, active: nat, key: string)

  /** `clients` are the credentials the client objects hold at present; calls may share a client. */
  datatype World = World(
    keys: seq<string>, cooldowns: seq<real>, current: nat, rateLimits: nat,
    clients: map<ClientId, string>, calls: map<CallId, Waiting>)

  /** The atomic steps. `readings` are the clock readings of the step's scan, `at` the one taken for the cooldown. */
  datatype Step =
    | Construct(client: ClientId, readings: seq<real>)
    | Begin(call: CallId, client: ClientId)
    | Answer(call: CallId)
    | Fail(call: CallId)
    | RateLimit(call: CallId, at: real, cooldown: real, readings: seq<real>)

  ghost predicate Allowed(w: World, step: Step)
    requires Valid(w)
  {
    match step
    case Construct(client, readings) => client !in w.clients && Scanned(w.cooldowns, w.current, readings)
    case Begin(call, client) => client in w.clients && call !in w.calls
    case Answer(call) => call in w.calls
    case Fail(call) => call in w.calls
    case RateLimit(call, at, cooldown, readings) =>
      && call in w.calls
      && (|w.keys| > 1 ==> Scanned(Cooled(w, call, at, cooldown), w.calls[call].active + 1, readings))
  }

  /** Every waiting request carries the key of the index its call remembers; the ring stays in shape. */
  ghost predicate Valid(w: World) {
    && w.keys != [] && |w.cooldowns| == |w.keys| && w.current < |w.keys|
    && forall c :: c in w.calls ==> CallValid(w, w.calls[c])
  }

  predicate CallValid(w: World, call: Waiting) {
    && call.client in w.clients
    && call.attempts < |w.keys| && call.active < |w.keys| && call.key == w.keys[call.active]
  }

  function Cooled(w: World, call: CallId, at: real, cooldown: real): seq<real>
    requires call in w.calls && w.calls[call].active < |w.cooldowns|
  {
    w.cooldowns[w.calls[call].active := at + cooldown]
  }

  /** A client is given new credentials if it does not hold the active key already. */
  function Sync(w: World, client: ClientId): (r: World)
    requires w.current < |w.keys| && client in w.clients
  {
    var active := w.keys[w.current];
    if w.clients[client] != active then w.(clients := w.clients[client := active]) else w
  }

  /** After that the client holds the active key; no other client and nothing else is touched. */
  lemma SyncedClientHoldsActiveKey(w: World, client: ClientId)
    requires w.current < |w.keys| && client in w.clients
    ensures var synced := Sync(w, client);
      && synced.clients.Keys == w.clients.Keys && synced.clients[client] == w.keys[w.current]
      && (forall c :: c in w.clients && c != client ==> synced.clients[c] == w.clients[c])
      && synced == w.(clients := synced.clients)
  {
  }

  /** A call's next request: it goes with whatever credentials the client holds, and the call remembers the index. */
  function Send(w: World, client: ClientId, attempts: nat): Waiting
    requires client in w.clients
  {
    Waiting(client, attempts, w.current, w.clients[client])
  }

  ghost function Next(w: World, step: Step): World
    requires Valid(w)
  {
    if !Allowed(w, step) then w
    else
      match step
      case Construct(client, readings) =>
        var selected := Selected(w.cooldowns, w.current, readings);
        w.(current := selected, clients := w.clients[client := w.keys[selected]])
      case Begin(call, client) =>
        var synced := Sync(w, client);
        synced.(calls := synced.calls[call := Send(synced, client, 0)])
      case Answer(call) => w.(calls := w.calls - {call})
      case Fail(call) => w.(calls := w.calls - {call})
      case RateLimit(call, at, cooldown, readings) =>
        if |w.keys| == 1 then w.(calls := w.calls - {call})
        else FailedOver(w, call, at, cooldown, readings)
  }

  /** A rate limit on a call: its key cools down, the ring moves on, and the call asks again or gives up. */
  ghost function FailedOver(w: World, call: CallId, at: real, cooldown: real, readings: seq<real>): World
    requires Valid(w) && call in w.calls && readings != []
  {
    var asked := w.calls[call];
    var cooldowns := Cooled(w, call, at, cooldown);
    var moved := w.(cooldowns := cooldowns, current := Selected(cooldowns, asked.active + 1, readings),
                    rateLimits := w.rateLimits + 1);
    assert CallValid(w, asked);
    var synced := Sync(moved, asked.client);
    if asked.attempts + 1 < |w.keys| then
      synced.(calls := synced.calls[call := Send(synced, asked.client, asked.attempts + 1)])
    else synced.(calls := synced.calls - {call})
  }

  /** Whatever the client held before, what it sends after synchronizing carries the key of the index remembered. */
  lemma {:induction false} SentWithActiveKey(w: World, client: ClientId, attempts: nat)
    requires Valid(w) && client in w.clients && attempts < |w.keys|
    ensures var synced := Sync(w, client); Valid(synced) && CallValid(synced, Send(synced, client, attempts))
  {
    SyncedClientHoldsActiveKey(w, client);
    forall c | c in w.calls ensures CallValid(Sync(w, client), w.calls[c]) {
      assert CallValid(w, w.calls[c]);
    }
  }

  lemma {:induction false} FailingOverKeepsValid(
    w: World, call: CallId, at: real, cooldown: real, readings: seq<real>)
    requires Valid(w) && call in w.calls && readings != []
    ensures Valid(FailedOver(w, call, at, cooldown, readings)) && FailedOver(w, call, at, cooldown, readings).keys == w.keys
  {
    var asked := w.calls[call];
    assert CallValid(w, asked);
    var cooldowns := Cooled(w, call, at, cooldown);
    var moved := w.(cooldowns := cooldowns, current := Selected(cooldowns, asked.active + 1, readings),
                    rateLimits := w.rateLimits + 1);
    forall c | c in moved.calls ensures CallValid(moved, moved.calls[c]) {
      assert CallValid(w, w.calls[c]);
    }
    if asked.attempts + 1 < |w.keys| {
      SentWithActiveKey(moved, asked.client, asked.attempts + 1);
    } else {
      SentWithActiveKey(moved, asked.client, 0);
    }
  }

  lemma {:induction false} StepKeepsValid(w: World, step: Step)
    requires Valid(w)
    ensures Valid(Next(w, step)) && Next(w, step).keys == w.keys
  {
    var after := Next(w, step);
    if Allowed(w, step) && step.Begin? {
      SentWithActiveKey(w, step.client, 0);
    } else if Allowed(w, step) && step.RateLimit? && |w.keys| > 1 {
      FailingOverKeepsValid(w, step.call, step.at, step.cooldown, step.readings);
    } else {
      forall c | c in after.calls ensures CallValid(after, after.calls[c]) {
        assert c in w.calls && CallValid(w, w.calls[c]);
      }
    }
  }

  ghost function After(w: World, steps: seq<Step>): (r: World)
    requires Valid(w)
    ensures Valid(r) && r.keys == w.keys
  {
    if steps == [] then w
    else
      var before := After(w, steps[..|steps| - 1]);
      StepKeepsValid(before, steps[|steps| - 1]);
      Next(before, steps[|steps| - 1])
  }

  lemma {:induction false} AfterOneMore(w: World, steps: seq<Step>, step: Step)
    requires Valid(w)
    ensures After(w, steps + [step]) == Next(After(w, steps), step)
  {
    assert (steps + [step])[..|steps|] == steps;
  }

  /** Handling a rate limit, in whatever interleaving, cools down exactly the key that the limited request carried,
      and no other, and counts once. */
  lemma {:induction false} RateLimitCoolsUsedKey(w: World, steps: seq<Step>, step: Step)
    requires Valid(w) && step.RateLimit? && |w.keys| > 1 && Allowed(After(w, steps), step)
    ensures var before, after := After(w, steps), After(w, steps + [step]);
      var asked := before.calls[step.call];
      && before.keys[asked.active] == asked.key
      && after.cooldowns[asked.active] == step.at + step.cooldown
      && (forall j :: 0 <= j < |before.keys| && j != asked.active ==> after.cooldowns[j] == before.cooldowns[j])
      && after.rateLimits == before.rateLimits + 1
  {
    AfterOneMore(w, steps, step);
    LimitStep(After(w, steps), step);
  }

  /** A client is made with the key a scan from the active one settles on; nobody waiting notices. */
  lemma {:induction false} ConstructedClient(w: World, client: ClientId, readings: seq<real>)
    requires Valid(w) && Allowed(w, Construct(client, readings))
    ensures var after := Next(w, Construct(client, readings));
      && client !in w.clients && ScansTo(w.cooldowns, w.current, readings, after.current)
      && after.clients == w.clients[client := w.keys[after.current]]
      && after.calls == w.calls && after.cooldowns == w.cooldowns && after.rateLimits == w.rateLimits
  {
    SelectedIsFreeOrSoonest(w.cooldowns, w.current, readings);
  }

  /** A call begins with the active key, which its client then holds; the ring is as it was. */
  lemma {:induction false} BegunCall(w: World, call: CallId, client: ClientId)
    requires Valid(w) && client in w.clients && call !in w.calls
    ensures var after := Next(w, Begin(call, client));
      && after.calls == w.calls[call := Waiting(client, 0, w.current, w.keys[w.current])]
      && after.clients == w.clients[client := w.keys[w.current]]
      && after.cooldowns == w.cooldowns && after.current == w.current && after.rateLimits == w.rateLimits
  {
    SyncedClientHoldsActiveKey(w, client);
    assert w.clients[client := w.keys[w.current]] == Sync(w, client).clients;
  }

  /** An answer, or another error, ends its call and touches nothing else; so does a rate limit where there is no other
      key to go to. */
  lemma {:induction false} EndedCall(w: World, step: Step)
    requires Valid(w) && (step.Answer? || step.Fail? || (step.RateLimit? && |w.keys| == 1)) && step.call in w.calls
    ensures Next(w, step) == w.(calls := w.calls - {step.call})
  {
  }

  /** After a rate limit the ring is at the key a scan from behind the limited one settles on, and there the call asks
      again, unless it has asked as often as there are keys; nobody else notices. */
  lemma {:induction false} LimitedCall(w: World, step: Step)
    requires Valid(w) && |w.keys| > 1 && step.RateLimit? && Allowed(w, step)
    ensures var me, after := w.calls[step.call], Next(w, step);
      && me.active < |w.keys| && after.cooldowns == w.cooldowns[me.active := step.at + step.cooldown]
      && (if me.attempts + 1 < |w.keys| then
            after.calls == w.calls[step.call := Waiting(me.client, me.attempts + 1, after.current, w.keys[after.current])]
          else after.calls == w.calls - {step.call})
  {
    LimitStep(w, step);
    FailingOverKeepsValid(w, step.call, step.at, step.cooldown, step.readings);
    assert step.call in Next(w, step).calls ==> CallValid(Next(w, step), Next(w, step).calls[step.call]);
  }

  lemma {:induction false} LimitedRing(w: World, step: Step)
    requires Valid(w) && |w.keys| > 1 && step.RateLimit? && Allowed(w, step)
    ensures var active, after := w.calls[step.call].active, Next(w, step);
      after.cooldowns != [] && ScansTo(after.cooldowns, active + 1, step.readings, after.current)
  {
    LimitStep(w, step);
    SelectedIsFreeOrSoonest(Cooled(w, step.call, step.at, step.cooldown), w.calls[step.call].active + 1, step.readings);
  }

  /** No other step touches a cooldown or the counter. */
  lemma {:induction false} OnlyRateLimitsCool(w: World, step: Step)
    requires Valid(w) && !(step.RateLimit? && |w.keys| > 1 && Allowed(w, step))
    ensures Next(w, step).cooldowns == w.cooldowns && Next(w, step).rateLimits == w.rateLimits
  {
  }

  /** The rate limits handled along a run. */
  ghost function Handled(w: World, steps: seq<Step>): nat
    requires Valid(w)
  {
    if steps == [] then 0
    else
      var front, last := steps[..|steps| - 1], steps[|steps| - 1];
      Handled(w, front) + if last.RateLimit? && |w.keys| > 1 && Allowed(After(w, front), last) then 1 else 0
  }

  lemma {:induction false} CounterCountsRateLimits(w: World, steps: seq<Step>)
    requires Valid(w)
    ensures After(w, steps).rateLimits == w.rateLimits + Handled(w, steps)
  {
    if steps != [] {
      var front, last := steps[..|steps| - 1], steps[|steps| - 1];
      CounterCountsRateLimits(w, front);
      if !(last.RateLimit? && |w.keys| > 1 && Allowed(After(w, front), last)) {
        OnlyRateLimitsCool(After(w, front), last);
      }
    }
  }

  /** The keys the requests of one call went with along a run, since it last began. */
  ghost function Asked(w: World, steps: seq<Step>, call: CallId): seq<nat>
    requires Valid(w)
  {
    if steps == [] then []
    else
      var front, last := steps[..|steps| - 1], steps[|steps| - 1];
      if Allowed(After(w, front), last) && last.Begin? && last.call == call then [After(w, front).current]
      else if Allowed(After(w, front), last) && last.RateLimit? && last.call == call && call in After(w, steps).calls then
        Asked(w, front, call) + [After(w, steps).calls[call].active]
      else Asked(w, front, call)
  }

  /** A call's requests, before and after a step: none yet when it begins, one more after its own rate limit. */
  lemma {:induction false} RequestsCounted(before: World, step: Step, call: CallId)
    requires Valid(before) && call in Next(before, step).calls
    ensures var after := Next(before, step).calls[call];
      && after.attempts < |before.keys|
      && if Allowed(before, step) && step.Begin? && step.call == call then after.attempts == 0
         else call in before.calls
              && after.attempts == before.calls[call].attempts
                 + if Allowed(before, step) && step.RateLimit? && step.call == call then 1 else 0
  {
    StepKeepsValid(before, step);
    assert CallValid(Next(before, step), Next(before, step).calls[call]);
  }

  /** A call asks at most once per key in all, however it is interleaved with others. */
  lemma {:induction false} AtMostOneRequestPerKey(w: World, steps: seq<Step>, call: CallId)
    requires Valid(w) && call !in w.calls
    ensures |Asked(w, steps, call)| <= |w.keys|
    ensures call in After(w, steps).calls ==> |Asked(w, steps, call)| == After(w, steps).calls[call].attempts + 1
  {
    if steps != [] {
      var front, last := steps[..|steps| - 1], steps[|steps| - 1];
      AtMostOneRequestPerKey(w, front, call);
      if call in After(w, steps).calls {
        RequestsCounted(After(w, front), last, call);
      }
    }
  }

  // ================================================================ giving up, with other calls in between

  /** The clock shows at least `start`. */
  ghost predicate NotBefore(step: Step, start: real) {
    step.RateLimit? ==> step.at >= start && forall s :: 0 <= s < |step.readings| ==> step.readings[s] >= start
  }

  /** A rate limit of another call hits one of these keys. */
  predicate HitsOnly(w: World, step: Step, call: CallId, others: set<nat>) {
    step.RateLimit? && step.call != call && step.call in w.calls ==> w.calls[step.call].active in others
  }

  /** A run that begins, at time `start`, with a call's beginning and during which that call stays on; the rate limits
      of other calls meanwhile hit only keys in `others`. */
  ghost predicate Lasts(w: World, steps: seq<Step>, call: CallId, start: real, others: set<nat>)
    requires Valid(w)
  {
    && steps != [] && call in After(w, steps).calls
    && var front, last := steps[..|steps| - 1], steps[|steps| - 1];
       if front == [] then last.Begin? && last.call == call && Allowed(w, last)
       else
         && Lasts(w, front, call, start, others)
         && NotBefore(last, start) && HitsOnly(After(w, front), last, call, others)
  }

  /** Such a run with one more step, by which the call gives up. */
  ghost predicate GivesUp(w: World, steps: seq<Step>, call: CallId, start: real, others: set<nat>)
    requires Valid(w)
  {
    && steps != [] && |w.keys| > 1
    && var front, last := steps[..|steps| - 1], steps[|steps| - 1];
       && Lasts(w, front, call, start, others)
       && last.RateLimit? && last.call == call && Allowed(After(w, front), last) && NotBefore(last, start)
       && call !in After(w, steps).calls
  }

  /** The cooldowns as they would have to be for the keys other calls may hit to count as unavailable. */
  function Masked(cooldowns: seq<real>, start: real, others: set<nat>): (r: seq<real>)
    ensures |r| == |cooldowns|
    ensures forall j :: 0 <= j < |r| ==> r[j] == if j in others then start + 1.0 else cooldowns[j]
  {
    seq(|cooldowns|, j requires 0 <= j < |cooldowns| => if j in others then start + 1.0 else cooldowns[j])
  }

  /** Where a call stands: its requests, the last one with the key it remembers, have taken it round the ring past
      all keys that were available when it began and that no other call has hit. */
  ghost predicate OnItsWay(w: World, after: World, asked: seq<nat>, call: CallId, start: real, others: set<nat>)
    requires Valid(w) && Valid(after) && call in after.calls && |after.keys| == |w.keys|
  {
    var me, initial := after.calls[call], Masked(w.cooldowns, start, others);
    && CallValid(after, me)
    && |asked| == me.attempts + 1 && asked[0] == w.current && asked[me.attempts] == me.active
    && StillFree(initial, start, asked[..me.attempts], after.cooldowns)
    && Advancing(initial, start, w.current, asked[..me.attempts], me.active)
  }

  lemma {:induction false} LastingIsOnItsWay(w: World, steps: seq<Step>, call: CallId, start: real, others: set<nat>)
    requires Valid(w) && Lasts(w, steps, call, start, others)
    ensures OnItsWay(w, After(w, steps), Asked(w, steps, call), call, start, others)
  {
    var front, last := steps[..|steps| - 1], steps[|steps| - 1];
    var before, after := After(w, front), After(w, steps);
    assert CallValid(after, after.calls[call]);
    if front != [] {
      LastingIsOnItsWay(w, front, call, start, others);
      if Allowed(before, last) && last.RateLimit? && last.call == call {
        OwnLimitAdvances(w, before, last, Asked(w, front, call), call, start, others);
        LimitStep(before, last);
        assert Asked(w, steps, call)[..|Asked(w, front, call)|] == Asked(w, front, call);
      } else {
        OtherStepsDoNotMatter(w, before, last, Asked(w, front, call), call, start, others);
      }
    }
  }

  /** What a rate limit on a call does, on a ring of several keys. */
  lemma {:induction false} LimitStep(before: World, step: Step)
    requires Valid(before) && |before.keys| > 1 && step.RateLimit? && Allowed(before, step)
    ensures var me, after := before.calls[step.call], Next(before, step);
      && CallValid(before, me)
      && after.cooldowns == Cooled(before, step.call, step.at, step.cooldown)
      && after.current == Selected(after.cooldowns, me.active + 1, step.readings)
      && after.rateLimits == before.rateLimits + 1
      && after.calls.Keys == (if me.attempts + 1 < |before.keys| then before.calls.Keys
                              else before.calls.Keys - {step.call})
      && (step.call in after.calls ==> after.calls[step.call].active == after.current
                                       && after.calls[step.call].attempts == me.attempts + 1)
      && (forall c :: c in after.calls && c != step.call ==> after.calls[c] == before.calls[c])
  {
    assert CallValid(before, before.calls[step.call]);
  }

  lemma {:induction false} StillFreeAfterOwn(
    initial: seq<real>, start: real, tried: seq<nat>, cooldowns: seq<real>, active: nat, until: real)
    requires StillFree(initial, start, tried, cooldowns) && active < |cooldowns|
    ensures StillFree(initial, start, tried + [active], cooldowns[active := until])
  {
  }

  lemma {:induction false} OwnLimitKeepsWay(
    w: World, before: World, after: World, step: Step, asked: seq<nat>, call: CallId, start: real, others: set<nat>)
    requires Valid(w) && Valid(before) && |before.keys| == |w.keys| && call in before.calls
    requires OnItsWay(w, before, asked, call, start, others)
    requires step.RateLimit? && NotBefore(step, start)
    requires var active := before.calls[call].active;
      && after.cooldowns == before.cooldowns[active := step.at + step.cooldown]
      && Scanned(after.cooldowns, active + 1, step.readings)
      && after.current == Selected(after.cooldowns, active + 1, step.readings)
    ensures StillFree(Masked(w.cooldowns, start, others), start, asked, after.cooldowns)
    ensures Advancing(Masked(w.cooldowns, start, others), start, w.current, asked, after.current)
  {
    OneMoreTried(Masked(w.cooldowns, start, others), start, w.current, asked, before.calls[call].attempts,
                 before.cooldowns, step);
  }

  lemma {:induction false} OwnLimitAdvances(
    w: World, before: World, step: Step, asked: seq<nat>, call: CallId, start: real, others: set<nat>)
    requires Valid(w) && Valid(before) && |before.keys| == |w.keys| > 1 && call in before.calls
    requires OnItsWay(w, before, asked, call, start, others)
    requires step.RateLimit? && step.call == call && Allowed(before, step) && NotBefore(step, start)
    ensures var initial, after := Masked(w.cooldowns, start, others), Next(before, step);
      && StillFree(initial, start, asked, after.cooldowns)
      && Advancing(initial, start, w.current, asked, after.current)
      && (call !in after.calls ==> |asked| == |w.keys|)
  {
    var after := Next(before, step);
    LimitStep(before, step);
    OwnLimitKeepsWay(w, before, after, step, asked, call, start, others);
  }

  lemma {:induction false} OneMoreTried(
    initial: seq<real>, start: real, origin: nat, asked: seq<nat>, n: nat, cooldowns: seq<real>, step: Step)
    requires origin < |initial| == |cooldowns| && |asked| == n + 1 && asked[n] < |initial|
    requires StillFree(initial, start, asked[..n], cooldowns) && Advancing(initial, start, origin, asked[..n], asked[n])
    requires step.RateLimit? && NotBefore(step, start)
    requires Scanned(cooldowns[asked[n] := step.at + step.cooldown], asked[n] + 1, step.readings)
    ensures var after := cooldowns[asked[n] := step.at + step.cooldown];
      StillFree(initial, start, asked, after)
      && Advancing(initial, start, origin, asked, Selected(after, asked[n] + 1, step.readings))
  {
    var after := cooldowns[asked[n] := step.at + step.cooldown];
    TakeOneMore(asked, n);
    assert asked[..n + 1] == asked;
    StillFreeAfterOwn(initial, start, asked[..n], cooldowns, asked[n], step.at + step.cooldown);
    StillAdvancing(initial, start, origin, asked[..n], asked[n], after, step.readings,
                   Selected(after, asked[n] + 1, step.readings));
  }

  lemma {:induction false} OtherStepsDoNotMatter(
    w: World, before: World, step: Step, asked: seq<nat>, call: CallId, start: real, others: set<nat>)
    requires Valid(w) && Valid(before) && |before.keys| == |w.keys| && call in before.calls
    requires OnItsWay(w, before, asked, call, start, others)
    requires call in Next(before, step).calls && HitsOnly(before, step, call, others)
    requires !(Allowed(before, step) && step.RateLimit? && step.call == call)
    ensures Valid(Next(before, step)) && OnItsWay(w, Next(before, step), asked, call, start, others)
    ensures Next(before, step).calls[call] == before.calls[call]
  {
    StepKeepsValid(before, step);
    var after := Next(before, step);
    assert CallValid(after, after.calls[call]);
  }

  /** A call that gives up has tried the key it began with and every key that was available then and that no other
      call hit meanwhile. */
  lemma {:induction false} GivingUpTriesUndisturbed(
    w: World, steps: seq<Step>, call: CallId, start: real, others: set<nat>)
    requires Valid(w) && GivesUp(w, steps, call, start, others)
    ensures forall j :: 0 <= j < |w.keys| && (j == w.current || (w.cooldowns[j] <= start && j !in others)) ==>
              j in Asked(w, steps, call)
  {
    var front, last := steps[..|steps| - 1], steps[|steps| - 1];
    LastingIsOnItsWay(w, front, call, start, others);
    OwnLimitAdvances(w, After(w, front), last, Asked(w, front, call), call, start, others);
  }

  // ================================================================ which keys a call may miss then

  /** Asking again and again within one instant, with no cooldown asked for. */
  function OwnLimit(w: World, call: CallId, now: real): Step
    requires call in w.calls && w.calls[call].active < |w.cooldowns|
  {
    RateLimit(call, now, 0.0, Instant(w.cooldowns, w.calls[call].active, now).readings)
  }

  /** It is allowed, and never leads to a key in cooldown. */
  lemma {:induction false} OwnLimitAvoids(w: World, call: CallId, now: real, j: nat)
    requires Valid(w) && |w.keys| > 1 && call in w.calls && j < |w.keys|
    requires w.cooldowns[j] > now && w.calls[call].active != j
    ensures w.calls[call].active < |w.cooldowns|
    ensures var step := OwnLimit(w, call, now); var after := Next(w, step);
      && Allowed(w, step) && NotBefore(step, now)
      && after.cooldowns[j] > now && after.current != j
  {
    var me := w.calls[call];
    assert CallValid(w, me);
    var l := Instant(w.cooldowns, me.active, now);
    assert Cooled(w, call, now, 0.0) == CoolDown(w.cooldowns, l);
    LimitStep(w, OwnLimit(w, call, now));
  }

  /** A call that misses a key so far: the key is in cooldown, and the call was elsewhere all along. */
  ghost predicate Misses(w: World, steps: seq<Step>, call: CallId, now: real, others: set<nat>, j: nat)
    requires Valid(w)
  {
    && Lasts(w, steps, call, now, others) && j < |w.keys| && After(w, steps).cooldowns[j] > now
    && After(w, steps).calls[call].active != j && j !in Asked(w, steps, call)
  }

  lemma {:induction false} OneMoreOwnLimit(
    w: World, steps: seq<Step>, call: CallId, now: real, others: set<nat>, j: nat)
    returns (longer: seq<Step>)
    requires Valid(w) && |w.keys| > 1 && Misses(w, steps, call, now, others, j)
    ensures var attempts := After(w, steps).calls[call].attempts;
      if attempts + 1 < |w.keys| then
        Misses(w, longer, call, now, others, j) && After(w, longer).calls[call].attempts == attempts + 1
      else GivesUp(w, longer, call, now, others) && j !in Asked(w, longer, call)
  {
    var before := After(w, steps);
    OwnLimitAvoids(before, call, now, j);
    var step := OwnLimit(before, call, now);
    longer := steps + [step];
    AfterOneMore(w, steps, step);
    LimitStep(before, step);
    assert longer[..|longer| - 1] == steps && longer[|longer| - 1] == step;
  }

  lemma {:induction false} MissesToTheEnd(w: World, steps: seq<Step>, call: CallId, now: real, others: set<nat>, j: nat)
    returns (longer: seq<Step>)
    requires Valid(w) && |w.keys| > 1 && Misses(w, steps, call, now, others, j)
    ensures GivesUp(w, longer, call, now, others) && j !in Asked(w, longer, call)
    decreases |w.keys| - After(w, steps).calls[call].attempts
  {
    var before := After(w, steps);
    assert CallValid(before, before.calls[call]);
    longer := OneMoreOwnLimit(w, steps, call, now, others, j);
    if before.calls[call].attempts + 1 < |w.keys| {
      longer := MissesToTheEnd(w, longer, call, now, others, j);
    }
  }

  /** A ring in this state, with a client, and another call waiting for an answer with key j. */
  function Amid(keys: seq<string>, cooldowns: seq<real>, origin: nat, j: nat): World
    requires origin < |keys| && j < |keys|
  {
    World(keys, cooldowns, origin, 0, map[0 := keys[origin]], map[1 := Waiting(0, 0, j, keys[j])])
  }

  lemma {:induction false} JustBegun(
    keys: seq<string>, cooldowns: seq<real>, origin: nat, now: real, others: set<nat>, j: nat)
    requires |cooldowns| == |keys| > 1 && origin < |keys| && j < |keys|
    ensures var w, steps := Amid(keys, cooldowns, origin, j), [Begin(0, 0)];
      && Valid(w) && Lasts(w, steps, 0, now, others) && Asked(w, steps, 0) == [origin]
      && After(w, steps) == w.(calls := w.calls[0 := Waiting(0, 0, origin, keys[origin])])
  {
    var w, begin := Amid(keys, cooldowns, origin, j), Begin(0, 0);
    assert [begin][..0] == [] && After(w, []) == w;
    assert Allowed(w, begin);
  }

  /** The call begins, and if need be the other one is limited. */
  lemma {:induction false} BeginningToMiss(
    keys: seq<string>, cooldowns: seq<real>, origin: nat, now: real, others: set<nat>, j: nat)
    returns (steps: seq<Step>)
    requires |cooldowns| == |keys| > 1 && origin < |keys| && j < |keys|
    requires j != origin && (cooldowns[j] > now || j in others)
    ensures Valid(Amid(keys, cooldowns, origin, j))
    ensures Misses(Amid(keys, cooldowns, origin, j), steps, 0, now, others, j)
  {
    var w := Amid(keys, cooldowns, origin, j);
    steps := [Begin(0, 0)];
    JustBegun(keys, cooldowns, origin, now, others, j);
    var begun := After(w, steps);
    if cooldowns[j] <= now {
      var cooled := cooldowns[j := now + 1.0];
      var limit := RateLimit(1, now, 1.0, InstantScan(cooled, j, now));
      assert Cooled(begun, 1, now, 1.0) == cooled;
      LimitStep(begun, limit);
      AfterOneMore(w, steps, limit);
      assert (steps + [limit])[..1] == steps;
      steps := steps + [limit];
    }
  }

  /** However the call is interleaved with others that hit only these keys, it does not give up without having tried
      key j. */
  ghost predicate SurelyTriedAmid(
    keys: seq<string>, cooldowns: seq<real>, origin: nat, start: real, others: set<nat>, j: nat)
  {
    forall w: World, steps, call ::
      (Valid(w) && w.keys == keys && w.cooldowns == cooldowns && w.current == origin
       && GivesUp(w, steps, call, start, others)) ==> j in Asked(w, steps, call)
  }

  /** Among other calls, "all keys are rate limited" speaks for a key exactly if the call began with it, or it was out
      of cooldown then and is none that the other calls' rate limits hit meanwhile. */
  lemma {:induction false} SurelyTriedAmidIff(
    keys: seq<string>, cooldowns: seq<real>, origin: nat, start: real, others: set<nat>, j: nat)
    requires |cooldowns| == |keys| > 1 && origin < |keys| && j < |keys|
    ensures SurelyTriedAmid(keys, cooldowns, origin, start, others, j) <==>
            j == origin || (cooldowns[j] <= start && j !in others)
  {
    if j == origin || (cooldowns[j] <= start && j !in others) {
      forall w: World, steps, call |
        Valid(w) && w.keys == keys && w.cooldowns == cooldowns && w.current == origin
        && GivesUp(w, steps, call, start, others)
        ensures j in Asked(w, steps, call)
      {
        GivingUpTriesUndisturbed(w, steps, call, start, others);
      }
    } else {
      var w := Amid(keys, cooldowns, origin, j);
      var steps := BeginningToMiss(keys, cooldowns, origin, start, others, j);
      steps := MissesToTheEnd(w, steps, 0, start, others, j);
    }
  }

  /** A new ring of two keys, nothing cooling down, with one client for two calls. */
  const FRESH := World(["a", "b"], [0.0, 0.0], 0, 0, map[0 := "a"], map[])

  const BOTH_BEGUN: seq<Step> := [Begin(0, 0), Begin(1, 0)]

  const LONG_LIMIT := RateLimit(1, 0.0, 100.0, [0.0])

  const LONG_LIMIT_AGAIN := RateLimit(1, 0.0, 100.0, [0.0, 0.0])

  /** A step of another call prolongs a run. */
  lemma {:induction false} OtherStepLasts(
    w: World, steps: seq<Step>, step: Step, call: CallId, start: real, others: set<nat>)
    requires Valid(w) && Lasts(w, steps, call, start, others)
    requires call in Next(After(w, steps), step).calls && NotBefore(step, start)
    requires HitsOnly(After(w, steps), step, call, others)
    requires match step case Begin(c, _) => c != call case RateLimit(c, _, _, _) => c != call case _ => true
    ensures Lasts(w, steps + [step], call, start, others)
    ensures Asked(w, steps + [step], call) == Asked(w, steps, call)
  {
    AfterOneMore(w, steps, step);
    assert (steps + [step])[..|steps|] == steps;
  }

  lemma {:induction false} BothBegin()
    ensures Valid(FRESH)
    ensures After(FRESH, BOTH_BEGUN) ==
            FRESH.(calls := map[0 := Waiting(0, 0, 0, "a"), 1 := Waiting(0, 0, 0, "a")])
    ensures Lasts(FRESH, BOTH_BEGUN, 0, 0.0, {0, 1}) && Asked(FRESH, BOTH_BEGUN, 0) == [0]
  {
    var begun := [Begin(0, 0)];
    assert begun[..0] == [] && After(FRESH, []) == FRESH;
    assert After(FRESH, begun) == FRESH.(calls := map[0 := Waiting(0, 0, 0, "a")]);
    OtherStepLasts(FRESH, begun, Begin(1, 0), 0, 0.0, {0, 1});
    AfterOneMore(FRESH, begun, Begin(1, 0));
    assert begun + [Begin(1, 0)] == BOTH_BEGUN;
  }

  /** Both calls begin and the second is limited: their client moves on to the other key while the first call's
      request is still out with the old one. */
  lemma {:induction false} ClientMovesOn()
    ensures Valid(FRESH)
    ensures var after := After(FRESH, BOTH_BEGUN + [LONG_LIMIT]);
      && after == World(["a", "b"], [100.0, 0.0], 1, 1, map[0 := "b"],
                        map[0 := Waiting(0, 0, 0, "a"), 1 := Waiting(0, 1, 1, "b")])
      && after.clients[after.calls[0].client] != after.calls[0].key
  {
    BothBegin();
    AfterOneMore(FRESH, BOTH_BEGUN, LONG_LIMIT);
    SlotWraps(1, 0, 2);
    assert Cooled(After(FRESH, BOTH_BEGUN), 1, 0.0, 100.0) == [100.0, 0.0];
  }

  /** The second call is limited on both keys. */
  lemma {:induction false} BothUsedUp()
    ensures Valid(FRESH)
    ensures Misses(FRESH, BOTH_BEGUN + [LONG_LIMIT] + [LONG_LIMIT_AGAIN], 0, 0.0, {0, 1}, 1)
  {
    BothBegin();
    ClientMovesOn();
    OtherStepLasts(FRESH, BOTH_BEGUN, LONG_LIMIT, 0, 0.0, {0, 1});
    AfterOneMore(FRESH, BOTH_BEGUN, LONG_LIMIT);
    LimitedAgain(After(FRESH, BOTH_BEGUN + [LONG_LIMIT]));
    OtherStepLasts(FRESH, BOTH_BEGUN + [LONG_LIMIT], LONG_LIMIT_AGAIN, 0, 0.0, {0, 1});
    AfterOneMore(FRESH, BOTH_BEGUN + [LONG_LIMIT], LONG_LIMIT_AGAIN);
  }

  lemma {:induction false} LimitedAgain(w: World)
    requires Valid(w) && w.keys == ["a", "b"] && w.cooldowns == [100.0, 0.0]
    requires w.calls == map[0 := Waiting(0, 0, 0, "a"), 1 := Waiting(0, 1, 1, "b")]
    ensures var after := Next(w, LONG_LIMIT_AGAIN);
      && 0 in after.calls && after.calls[0] == w.calls[0] && after.cooldowns == [100.0, 100.0]
  {
    SlotWraps(2, 0, 2);
    SlotWraps(2, 1, 2);
    assert Cooled(w, 1, 0.0, 100.0) == [100.0, 100.0];
  }

  /** On a new ring, with nothing cooling down, a call that begins with the first of two keys can be told that all keys
      are rate limited without having tried the second: the other call has used it up meanwhile. */
  lemma {:induction false} FreeKeyLeftUntried() returns (steps: seq<Step>)
    ensures Valid(FRESH) && FRESH.cooldowns[1] <= 0.0
    ensures GivesUp(FRESH, steps, 0, 0.0, {0, 1}) && 1 !in Asked(FRESH, steps, 0)
  {
    BothUsedUp();
    steps := MissesToTheEnd(FRESH, BOTH_BEGUN + [LONG_LIMIT] + [LONG_LIMIT_AGAIN], 0, 0.0, {0, 1}, 1);
  }
}
