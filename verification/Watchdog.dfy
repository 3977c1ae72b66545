/**
 * The network watchdog: the health record that probes, inbound handshakes and
 * endpoint refreshes update, and the loop that decides when to ask for a refresh.
 */
module Watchdog {
  import opened Prelude

  const RECENT_INBOUND_SKIP_MULTIPLIER: nat := 2

  datatype Status = Disabled | Healthy | Degraded | Refreshing | Failed

  datatype Config = Config(enabled: bool, interval: nat, failuresBeforeRefresh: nat)

  datatype Health = Health(
    status: Status,
    generation: nat,
    startedAt: nat,
    lastInbound: Option<nat>,
    lastProbeOk: Option<nat>,
    lastProbeFailed: Option<nat>,
    probeFailures: nat,
    refreshCount: nat,
    refreshFailures: nat,
    lastRefresh: Option<nat>,
    notBefore: Option<nat>)

  function Min(a: nat, b: nat): nat {
    if a <= b then a else b
  }

  function Max(a: nat, b: nat): nat {
    if a <= b then b else a
  }

  function Initial(now: nat): Health {
    Health(Healthy, 1, now, None, None, None, 0, 0, 0, None, None)
  }

  /** Seconds to wait after so many failed refreshes in a row. */
  function RefreshBackoff(failures: nat): nat {
    if failures <= 1 then 5 * 60
    else if failures == 2 then 10 * 60
    else if failures == 3 then 20 * 60
    else 60 * 60
  }

  function Inbound(h: Health, now: nat): Health {
    h.(lastInbound := Some(now), probeFailures := 0, refreshFailures := 0, notBefore := None, status := Healthy)
  }

  function ProbeSuccess(h: Health, now: nat): Health {
    h.(lastProbeOk := Some(now), probeFailures := 0, refreshFailures := 0, notBefore := None, status := Healthy)
  }

  function ProbeFailure(h: Health, now: nat): Health {
    h.(lastProbeFailed := Some(now), probeFailures := SaturatingAdd(h.probeFailures, 1, U32_MAX),
       status := if h.status.Failed? then Failed else Degraded)
  }

  function RefreshStarted(h: Health): Health {
    h.(probeFailures := 0, status := Refreshing)
  }

  function RefreshSuccess(h: Health, now: nat): Health {
    h.(generation := SaturatingAdd(h.generation, 1, U64_MAX), startedAt := now,
       refreshCount := SaturatingAdd(h.refreshCount, 1, U64_MAX), lastRefresh := Some(now), lastInbound := None,
       probeFailures := 0, refreshFailures := 0, notBefore := None, status := Healthy)
  }

  function RefreshFailure(h: Health, now: nat): Health {
    var failures := SaturatingAdd(h.refreshFailures, 1, U32_MAX);
    h.(lastRefresh := Some(now), refreshFailures := failures,
       notBefore := Some(SaturatingAdd(now, RefreshBackoff(failures), U64_MAX)), status := Failed)
  }

  predicate RefreshAllowed(h: Health, now: nat) {
    h.notBefore.None? || now >= h.notBefore.value
  }

  predicate ShouldRefresh(h: Health, config: Config) {
    config.enabled && h.probeFailures >= Max(config.failuresBeforeRefresh, 1)
  }

  predicate SkipProbe(h: Health, config: Config, now: nat) {
    && h.lastInbound.Some?
    && now <= h.lastInbound.value + config.interval * RECENT_INBOUND_SKIP_MULTIPLIER
  }

  /** A turn goes on to probe: no refresh is on its way and no handshake came in lately. */
  predicate Probes(h: Health, config: Config, now: nat) {
    !h.status.Refreshing? && !SkipProbe(h, config, now)
  }

  // ---------- The health record as an object ----------

  class NetworkWatchdogHealth {
    var status: Status
    var generation: nat
    var startedAt: nat
    var lastInbound: Option<nat>
    var lastProbeOk: Option<nat>
    var lastProbeFailed: Option<nat>
    var probeFailures: nat
    var refreshCount: nat
    var refreshFailures: nat
    var lastRefresh: Option<nat>
    var notBefore: Option<nat>

    function Value(): Health
      reads this
    {
      Health(status, generation, startedAt, lastInbound, lastProbeOk, lastProbeFailed, probeFailures,
             refreshCount, refreshFailures, lastRefresh, notBefore)
    }

    constructor (now: nat)
      ensures Value() == Initial(now)
    {
      status, generation, startedAt := Healthy, 1, now;
      lastInbound, lastProbeOk, lastProbeFailed, probeFailures := None, None, None, 0;
      refreshCount, refreshFailures, lastRefresh, notBefore := 0, 0, None, None;
    }

    method SetDisabled()
      modifies this
      ensures Value() == old(Value()).(status := Disabled)
    {
      status := Disabled;
    }

    method RecordInboundHandshake(now: nat)
      modifies this
      ensures Value() == Inbound(old(Value()), now)
    {
      lastInbound := Some(now);
      probeFailures := 0;
      refreshFailures := 0;
      notBefore := None;
      status := Healthy;
    }

    method RecordProbeSuccess(now: nat)
      modifies this
      ensures Value() == ProbeSuccess(old(Value()), now)
    {
      lastProbeOk := Some(now);
      probeFailures := 0;
      refreshFailures := 0;
      notBefore := None;
      status := Healthy;
    }

    method RecordProbeFailure(now: nat) returns (failures: nat)
      modifies this
      ensures Value() == ProbeFailure(old(Value()), now) && failures == probeFailures
    {
      lastProbeFailed := Some(now);
      probeFailures := SaturatingAdd(probeFailures, 1, U32_MAX);
      if status != Failed {
        status := Degraded;
      }
      failures := probeFailures;
    }

    method RecordEndpointRefreshStarted()
      modifies this
      ensures Value() == RefreshStarted(old(Value()))
    {
      probeFailures := 0;
      status := Refreshing;
    }

    method RecordEndpointRefreshSuccess(now: nat)
      modifies this
      ensures Value() == RefreshSuccess(old(Value()), now)
    {
      generation := SaturatingAdd(generation, 1, U64_MAX);
      startedAt := now;
      refreshCount := SaturatingAdd(refreshCount, 1, U64_MAX);
      lastRefresh := Some(now);
      lastInbound := None;
      probeFailures := 0;
      refreshFailures := 0;
      notBefore := None;
      status := Healthy;
    }

    method RecordEndpointRefreshFailure(now: nat)
      modifies this
      ensures Value() == RefreshFailure(old(Value()), now)
    {
      lastRefresh := Some(now);
      refreshFailures := SaturatingAdd(refreshFailures, 1, U32_MAX);
      notBefore := Some(SaturatingAdd(now, RefreshBackoff(refreshFailures), U64_MAX));
      status := Failed;
    }

    /** A turn of the loop before its probe: whether there is one. */
    method BeginTurn(config: Config, now: nat) returns (probe: bool)
      ensures probe == Probes(Value(), config, now)
    {
      if status == Refreshing {
        return false;
      }
      probe := !SkipProbe(Value(), config, now);
    }

    /** After the probe: the outcome is recorded, and whether it calls for a refresh. */
    method ApplyProbeOutcome(config: Config, probeOk: bool, now: nat) returns (shouldRefresh: bool)
      modifies this
      ensures Value() == if probeOk then ProbeSuccess(old(Value()), now) else ProbeFailure(old(Value()), now)
      ensures shouldRefresh <==> !probeOk && ShouldRefresh(Value(), config)
    {
      if probeOk {
        RecordProbeSuccess(now);
        return false;
      }
      var failures := RecordProbeFailure(now);
      shouldRefresh := config.enabled && failures >= Max(config.failuresBeforeRefresh, 1);
    }

    /** At last: the command, unless a backoff is in force. */
    method Decide(shouldRefresh: bool, now: nat) returns (command: bool)
      modifies this
      ensures command <==> shouldRefresh && RefreshAllowed(old(Value()), now)
      ensures Value() == if command then RefreshStarted(old(Value())) else old(Value())
    {
      if shouldRefresh && !RefreshAllowed(Value(), now) {
        return false;
      }
      if shouldRefresh {
        RecordEndpointRefreshStarted();
      }
      command := shouldRefresh;
    }
  }

  // ---------- Runs ----------

  /** Where the loop is: waiting for its next turn, for its probe, or about to decide. */
  datatype Loop = Idle | Probing | Deciding(refresh: bool)

  /** Anything may happen between the parts of a turn. */
  datatype Event =
    | TurnBegan(now: nat)
    | Probed(ok: bool, now: nat)
    | Decided(now: nat)
    | InboundCame(now: nat)
    | RefreshSucceeded(now: nat)
    | RefreshFailed(now: nat)

  /** The health, the loop, the commands sent, those not answered yet, and the probes that failed. */
  datatype World = World(health: Health, loop: Loop, commands: nat, inFlight: nat, failedProbes: nat)

  predicate Enabled(w: World, e: Event) {
    match e
    case TurnBegan(_) => w.loop.Idle?
    case Probed(_, _) => w.loop.Probing?
    case Decided(_) => w.loop.Deciding?
    case InboundCame(_) => true
    case RefreshSucceeded(_) => w.inFlight > 0
    case RefreshFailed(_) => w.inFlight > 0
  }

  /** The event sends a refresh command. */
  predicate Asks(w: World, e: Event) {
    e.Decided? && w.loop == Deciding(true) && RefreshAllowed(w.health, e.now)
  }

  function Step(config: Config, w: World, e: Event): World
    requires Enabled(w, e)
  {
    match e
    case TurnBegan(now) => if Probes(w.health, config, now) then w.(loop := Probing) else w
    case Probed(ok, now) =>
      if ok then w.(health := ProbeSuccess(w.health, now), loop := Deciding(false))
      else
        var h := ProbeFailure(w.health, now);
        w.(health := h, loop := Deciding(ShouldRefresh(h, config)), failedProbes := w.failedProbes + 1)
    case Decided(now) =>
      if Asks(w, e) then World(RefreshStarted(w.health), Idle, w.commands + 1, w.inFlight + 1, w.failedProbes)
      else w.(loop := Idle)
    case InboundCame(now) => w.(health := Inbound(w.health, now))
    case RefreshSucceeded(now) => w.(health := RefreshSuccess(w.health, now), inFlight := w.inFlight - 1)
    case RefreshFailed(now) => w.(health := RefreshFailure(w.health, now), inFlight := w.inFlight - 1)
  }

  predicate Runs(config: Config, w: World, es: seq<Event>)
    decreases |es|
  {
    es == [] || (Enabled(w, es[0]) && Runs(config, Step(config, w, es[0]), es[1..]))
  }

  function Run(config: Config, w: World, es: seq<Event>): World
    requires Runs(config, w, es)
    decreases |es|
  {
    if es == [] then w else Run(config, Step(config, w, es[0]), es[1..])
  }

  function Start(now: nat): World {
    World(Initial(now), Idle, 0, 0, 0)
  }

  // ---------- Every command has its own failed probes ----------

  predicate Paid(config: Config, w: World) {
    var n := Max(config.failuresBeforeRefresh, 1);
    && w.commands * n + w.health.probeFailures <= w.failedProbes
    && (w.loop == Deciding(true) ==> w.commands * n + n <= w.failedProbes)
  }

  lemma StepPaid(config: Config, w: World, e: Event)
    requires Enabled(w, e) && Paid(config, w)
    ensures Paid(config, Step(config, w, e))
  {
    var n := Max(config.failuresBeforeRefresh, 1);
    assert (w.commands + 1) * n == w.commands * n + n;
  }

  /** In every run there are at least as many failed probes as the threshold for each refresh asked for. */
  lemma {:induction false} CommandsArePaid(config: Config, w: World, es: seq<Event>)
    requires Runs(config, w, es) && Paid(config, w)
    ensures Paid(config, Run(config, w, es))
    decreases |es|
  {
    if es != [] {
      StepPaid(config, w, es[0]);
      CommandsArePaid(config, Step(config, w, es[0]), es[1..]);
    }
  }

  // ---------- The backoff ----------

  lemma BackoffGrows(a: nat, b: nat)
    requires a <= b
    ensures 300 <= RefreshBackoff(a) <= RefreshBackoff(b) <= 3600
  {
  }

  /** The refresh at `from` failed, `k` in a row by then, and nothing has cleared the backoff. */
  predicate BackingOff(h: Health, from: nat, k: nat) {
    && h.notBefore.Some? && h.refreshFailures >= Min(k, U32_MAX)
    && h.notBefore.value >= SaturatingAdd(from, RefreshBackoff(Min(k, U32_MAX)), U64_MAX)
  }

  /** No good news, and no clock outside the backoff of the refresh that failed at `from`. */
  predicate WithinBackoff(e: Event, from: nat, k: nat) {
    var until := SaturatingAdd(from, RefreshBackoff(Min(k, U32_MAX)), U64_MAX);
    match e
    case TurnBegan(_) => true
    case Probed(ok, _) => !ok
    case Decided(now) => now < until
    case RefreshFailed(now) => from <= now
    case _ => false
  }

  lemma StepBackingOff(config: Config, w: World, e: Event, from: nat, k: nat)
    requires Enabled(w, e) && BackingOff(w.health, from, k) && WithinBackoff(e, from, k)
    ensures BackingOff(Step(config, w, e).health, from, k)
    ensures Step(config, w, e).commands == w.commands
  {
    if e.RefreshFailed? {
      BackoffGrows(Min(k, U32_MAX), SaturatingAdd(w.health.refreshFailures, 1, U32_MAX));
    }
  }

  lemma {:induction false} NoCommandWithinBackoff(config: Config, w: World, es: seq<Event>, from: nat, k: nat)
    requires Runs(config, w, es) && BackingOff(w.health, from, k)
    requires forall i :: 0 <= i < |es| ==> WithinBackoff(es[i], from, k)
    ensures Run(config, w, es).commands == w.commands
    decreases |es|
  {
    if es != [] {
      assert WithinBackoff(es[0], from, k);
      StepBackingOff(config, w, es[0], from, k);
      NoCommandWithinBackoff(config, Step(config, w, es[0]), es[1..], from, k);
    }
  }

  /**
   * After a refresh fails, the `k`-th in a row, no refresh is asked for within the backoff
   * for `k`, over any run without a probe that succeeds, an inbound handshake or a refresh
   * that succeeds.
   */
  lemma BackoffHolds(config: Config, w: World, now: nat, es: seq<Event>)
    requires w.inFlight > 0 && w.health.refreshFailures <= U32_MAX
    requires var w' := Step(config, w, RefreshFailed(now)); Runs(config, w', es)
    requires forall i :: 0 <= i < |es| ==> WithinBackoff(es[i], now, w.health.refreshFailures + 1)
    ensures Run(config, Step(config, w, RefreshFailed(now)), es).commands == w.commands
  {
    NoCommandWithinBackoff(config, Step(config, w, RefreshFailed(now)), es, now, w.health.refreshFailures + 1);
  }

  // ---------- Generations, and one refresh at a time ----------

  /** The generation is one more than the refreshes that succeeded, until the counters stick. */
  predicate Numbered(h: Health) {
    1 <= h.generation && h.refreshCount <= U64_MAX && h.generation == Min(h.refreshCount + 1, U64_MAX)
  }

  /** A refresh is in flight exactly in the refreshing state, only one is, and no turn is under way then. */
  predicate Single(w: World) {
    w.inFlight == (if w.health.status.Refreshing? then 1 else 0) && (w.inFlight == 0 || w.loop.Idle?)
  }

  /** An inbound handshake while a refresh is in flight. */
  predicate Interrupts(w: World, e: Event) {
    e.InboundCame? && w.inFlight > 0
  }

  predicate Undisturbed(config: Config, w: World, es: seq<Event>)
    requires Runs(config, w, es)
    decreases |es|
  {
    es == [] || (!Interrupts(w, es[0]) && Undisturbed(config, Step(config, w, es[0]), es[1..]))
  }

  lemma StepNumbered(config: Config, w: World, e: Event)
    requires Enabled(w, e) && Numbered(w.health)
    ensures Numbered(Step(config, w, e).health)
  {
  }

  lemma StepSingle(config: Config, w: World, e: Event)
    requires Enabled(w, e) && Single(w) && !Interrupts(w, e)
    ensures Single(Step(config, w, e))
  {
  }

  /** At most one refresh is in flight, at every moment of the run. */
  predicate AtMostOne(config: Config, w: World, es: seq<Event>)
    requires Runs(config, w, es)
    decreases |es|
  {
    w.inFlight <= 1 && (es == [] || AtMostOne(config, Step(config, w, es[0]), es[1..]))
  }

  /** No refresh is asked for beside another. */
  predicate NeverBeside(config: Config, w: World, es: seq<Event>)
    requires Runs(config, w, es)
    decreases |es|
  {
    es == [] || (!(Asks(w, es[0]) && w.inFlight > 0) && NeverBeside(config, Step(config, w, es[0]), es[1..]))
  }

  /** A run from a start has at most one refresh in flight throughout exactly when none is asked for beside another. */
  lemma OneAtATimeIff(config: Config, now: nat, es: seq<Event>)
    requires Runs(config, Start(now), es)
    ensures AtMostOne(config, Start(now), es) <==> NeverBeside(config, Start(now), es)
  {
    OneAtATimeFrom(config, Start(now), es);
  }

  lemma {:induction false} OneAtATimeFrom(config: Config, w: World, es: seq<Event>)
    requires Runs(config, w, es) && w.inFlight <= 1
    ensures AtMostOne(config, w, es) <==> NeverBeside(config, w, es)
    decreases |es|
  {
    if es != [] {
      var w' := Step(config, w, es[0]);
      if w'.inFlight <= 1 {
        OneAtATimeFrom(config, w', es[1..]);
      }
    }
  }

  lemma {:induction false} RunNumbered(config: Config, w: World, es: seq<Event>)
    requires Runs(config, w, es) && Numbered(w.health)
    ensures Numbered(Run(config, w, es).health)
    decreases |es|
  {
    if es != [] {
      StepNumbered(config, w, es[0]);
      RunNumbered(config, Step(config, w, es[0]), es[1..]);
    }
  }

  lemma {:induction false} RunSingle(config: Config, w: World, es: seq<Event>)
    requires Runs(config, w, es) && Single(w) && Undisturbed(config, w, es)
    ensures Single(Run(config, w, es))
    decreases |es|
  {
    if es != [] {
      StepSingle(config, w, es[0]);
      RunSingle(config, Step(config, w, es[0]), es[1..]);
    }
  }

  /** Without a handshake during a refresh, no run from a start ever asks for a second one beside the first. */
  lemma OneAtATime(config: Config, now: nat, es: seq<Event>)
    requires Runs(config, Start(now), es) && Undisturbed(config, Start(now), es)
    ensures AtMostOne(config, Start(now), es)
  {
    UndisturbedFrom(config, Start(now), es);
  }

  lemma {:induction false} UndisturbedFrom(config: Config, w: World, es: seq<Event>)
    requires Runs(config, w, es) && Undisturbed(config, w, es) && Single(w)
    ensures AtMostOne(config, w, es)
    decreases |es|
  {
    if es != [] {
      StepSingle(config, w, es[0]);
      UndisturbedFrom(config, Step(config, w, es[0]), es[1..]);
    }
  }

  // ---------- Where it fails ----------

  lemma {:induction false} RunAppend(config: Config, w: World, a: seq<Event>, b: seq<Event>)
    requires Runs(config, w, a) && Runs(config, Run(config, w, a), b)
    ensures Runs(config, w, a + b) && Run(config, w, a + b) == Run(config, Run(config, w, a), b)
    decreases |a|
  {
    if a == [] {
      assert a + b == b;
    } else {
      assert (a + b)[1..] == a[1..] + b;
      RunAppend(config, Step(config, w, a[0]), a[1..], b);
    }
  }

  /** Turns at one time whose probes fail. */
  function FailedTurn(t: nat): seq<Event> {
    [TurnBegan(t)] + ([Probed(false, t)] + ([Decided(t)] + []))
  }

  function FailedTurns(k: nat, t: nat): seq<Event> {
    if k == 0 then [] else FailedTurn(t) + FailedTurns(k - 1, t)
  }

  /** What a turn at `t` needs for its probe to happen and its decision to be free. */
  predicate Ready(config: Config, w: World, t: nat) {
    config.enabled && w.loop.Idle? && Probes(w.health, config, t) && w.health.notBefore.None?
  }

  lemma RunCons(config: Config, w: World, e: Event, es: seq<Event>)
    requires Enabled(w, e) && Runs(config, Step(config, w, e), es)
    ensures Runs(config, w, [e] + es) && Run(config, w, [e] + es) == Run(config, Step(config, w, e), es)
  {
    assert ([e] + es)[1..] == es;
  }

  /** A failed turn adds a failure, and asks for a refresh when that makes the threshold. */
  lemma OneFailedTurn(config: Config, w: World, t: nat)
    requires Ready(config, w, t) && w.health.probeFailures < U32_MAX
    ensures Runs(config, w, FailedTurn(t))
    ensures var w', k := Run(config, w, FailedTurn(t)), w.health.probeFailures + 1;
            if k < Max(config.failuresBeforeRefresh, 1)
            then Ready(config, w', t) && w'.health.probeFailures == k && w'.inFlight == w.inFlight
            else w'.loop.Idle? && w'.health == RefreshStarted(ProbeFailure(w.health, t)) && w'.inFlight == w.inFlight + 1
  {
    var w1 := Step(config, w, TurnBegan(t));
    var w2 := Step(config, w1, Probed(false, t));
    var w3 := Step(config, w2, Decided(t));
    RunCons(config, w2, Decided(t), []);
    RunCons(config, w1, Probed(false, t), [Decided(t)] + []);
    RunCons(config, w, TurnBegan(t), [Probed(false, t)] + ([Decided(t)] + []));
    assert Run(config, w, FailedTurn(t)) == w3;
  }

  /** As many failed turns as are missing to the threshold ask for a refresh. */
  lemma {:induction false} FailedTurnsAsk(config: Config, w: World, k: nat, t: nat)
    requires Ready(config, w, t) && k > 0
    requires w.health.probeFailures + k == Max(config.failuresBeforeRefresh, 1) <= U32_MAX
    ensures Runs(config, w, FailedTurns(k, t))
    ensures var w' := Run(config, w, FailedTurns(k, t));
            && w'.loop.Idle? && w'.inFlight == w.inFlight + 1 && w'.health.notBefore.None?
            && w'.health.lastInbound == w.health.lastInbound
    decreases k
  {
    OneFailedTurn(config, w, t);
    var w' := Run(config, w, FailedTurn(t));
    assert w'.health.lastInbound == w.health.lastInbound && w'.health.notBefore.None? by { TurnKeeps(config, w, t); }
    if k > 1 {
      FailedTurnsAsk(config, w', k - 1, t);
      RunAppend(config, w, FailedTurn(t), FailedTurns(k - 1, t));
    } else {
      assert FailedTurns(1, t) == FailedTurn(t) + FailedTurns(0, t) == FailedTurn(t);
    }
  }

  lemma TurnKeeps(config: Config, w: World, t: nat)
    requires Ready(config, w, t) && Runs(config, w, FailedTurn(t))
    ensures var h := Run(config, w, FailedTurn(t)).health;
            h.lastInbound == w.health.lastInbound && h.notBefore == w.health.notBefore
  {
    var w1 := Step(config, w, TurnBegan(t));
    var w2 := Step(config, w1, Probed(false, t));
    RunCons(config, w2, Decided(t), []);
    RunCons(config, w1, Probed(false, t), [Decided(t)] + []);
    RunCons(config, w, TurnBegan(t), [Probed(false, t)] + ([Decided(t)] + []));
  }

  /**
   * For every threshold: enough failed probes ask for a refresh, a handshake comes in before
   * the answer, and as many failed probes after its quiet time ask for a second one.
   */
  lemma SecondRefresh(config: Config, now: nat, t: nat)
    requires config.enabled && config.failuresBeforeRefresh <= U32_MAX
    requires t > now + config.interval * RECENT_INBOUND_SKIP_MULTIPLIER
    ensures var n := Max(config.failuresBeforeRefresh, 1);
            var es := FailedTurns(n, now) + ([InboundCame(now)] + FailedTurns(n, t));
            Runs(config, Start(now), es) && Run(config, Start(now), es).inFlight == 2
  {
    var n := Max(config.failuresBeforeRefresh, 1);
    FailedTurnsAsk(config, Start(now), n, now);
    var w := Run(config, Start(now), FailedTurns(n, now));
    var w' := Step(config, w, InboundCame(now));
    FailedTurnsAsk(config, w', n, t);
    RunCons(config, w, InboundCame(now), FailedTurns(n, t));
    RunAppend(config, Start(now), FailedTurns(n, now), [InboundCame(now)] + FailedTurns(n, t));
  }
}
