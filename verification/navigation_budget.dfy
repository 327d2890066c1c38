/** The time budget of a navigation (camouflare/timer.py, camouflare/navigation.py) on a clock that counts
    milliseconds and never runs backwards. */
module NavigationBudget {
  import opened Basics

  const STAGE_CAP_MS: int := 15000
  const RESULT_RESERVE_MS: int := 1000

  /** A `TimeoutTimer`. */
  datatype Timer = Timer(timeoutMs: int, started: int)

  function NewTimer(timeoutMs: int, now: int): Timer {
    Timer(Max(1, timeoutMs), now)
  }

  function Deadline(t: Timer): int {
    t.started + t.timeoutMs
  }

  /** `_unspent_ms`. */
  function Unspent(t: Timer, now: int): int {
    t.timeoutMs - (now - t.started)
  }

  /** `_timer_keeping`: the new timer starts when the old one did. */
  function TimerKeeping(t: Timer, reserve: int, now: int): Option<Timer> {
    if Unspent(t, now) <= reserve then None else Some(NewTimer(t.timeoutMs - reserve, now).(started := t.started))
  }

  function ResultReserve(t: Timer): int {
    Min(RESULT_RESERVE_MS, Max(1, t.timeoutMs / 2))
  }

  /** The reserve of `_navigation_timer`. */
  function NavigationReserve(t: Timer, now: int): int {
    Min(ResultReserve(t), Max(1, Unspent(t, now) / 2))
  }

  /** `_navigation_timer`, which reads the clock twice; None where it raises. */
  function NavigationTimer(t: Timer, now: int, later: int): Option<Timer> {
    TimerKeeping(t, NavigationReserve(t, now), later)
  }

  /** `_stage_timeout_ms`. */
  function StageTimeout(t: Timer, reserve: int, now: int): int {
    Min(STAGE_CAP_MS, Max(1, Unspent(t, now) - reserve))
  }

  /** What the browser stages leave to an eligible timeout fallback. */
  function FallbackReserve(t: Timer, eligible: bool, now: int): int {
    if eligible then Min(STAGE_CAP_MS, Max(0, Unspent(t, now)) / 2) else 0
  }

  // ----- laws of the arithmetic -----

  /** What is left is the time to the deadline, and a timer is given a millisecond at least. */
  lemma TimersEndAtTheirDeadline(timeoutMs: int, started: int, now: int)
    ensures var t := NewTimer(timeoutMs, started);
            && t.started == started && Unspent(t, now) == started + t.timeoutMs - now
            && t.timeoutMs == if timeoutMs >= 1 then timeoutMs else 1
  {
  }

  /** The reserve is a second, or half of what is left when that is less, and never zero. */
  lemma ReserveIsHalfOrASecond(timeoutMs: int, started: int, now: int)
    requires started <= now
    ensures var t := NewTimer(timeoutMs, started);
            var left := started + t.timeoutMs - now;
            NavigationReserve(t, now) == if left >= 2000 then 1000 else if left >= 2 then left / 2 else 1
  {
  }

  /** A derived timer ends exactly `reserve` before its parent, and exists exactly while its own time is
      not used up; so at no moment does it have more time left than the parent less the reserve. */
  lemma DerivedDeadline(t: Timer, reserve: int, now: int)
    requires t.started <= now
    ensures TimerKeeping(t, reserve, now).Some? <==> now < Deadline(t) - reserve
    ensures TimerKeeping(t, reserve, now).Some? ==>
              var d := TimerKeeping(t, reserve, now).value;
              && Deadline(d) == Deadline(t) - reserve && d.started == t.started && d.timeoutMs >= 1
              && forall later :: Unspent(d, later) == Unspent(t, later) - reserve
  {
  }

  /** Unless the clock moves between its two readings, a navigation gets a timer exactly when two
      milliseconds are left, and at its deadline the request still has the whole reserve. */
  lemma ShortBudgetsStillNavigate(timeoutMs: int, started: int, now: int)
    requires started <= now
    ensures var t := NewTimer(timeoutMs, started);
            && (NavigationTimer(t, now, now).Some? <==> Unspent(t, now) >= 2)
            && (NavigationTimer(t, now, now).Some? ==>
                  var n := NavigationTimer(t, now, now).value;
                  && Unspent(n, now) >= 1
                  && Deadline(t) - Deadline(n) == Min(RESULT_RESERVE_MS, Max(1, Unspent(t, now) / 2)) >= 1)
  {
    var t := NewTimer(timeoutMs, started);
    assert Unspent(t, now) <= t.timeoutMs;
    DerivedDeadline(t, NavigationReserve(t, now), now);
  }

  /** A stage is never given zero time, which Playwright takes for no limit. With a millisecond left beyond
      the reserve it gets fifteen seconds or ends exactly at the deadline less the reserve, whichever is
      sooner; with less it gets one millisecond. */
  lemma StageTimeouts(t: Timer, reserve: int, now: int)
    ensures var stage, limit := StageTimeout(t, reserve, now), t.started + t.timeoutMs - reserve;
            && 1 <= stage <= 15000
            && (now + 1 <= limit ==> now + stage <= limit && (stage == 15000 || now + stage == limit))
            && (now + 1 > limit ==> stage == 1)
  {
  }

  /** A timeout fallback is left fifteen seconds, or half of what is left when that is less; nothing is
      kept for one that is not eligible. */
  lemma FallbackShare(t: Timer, eligible: bool, now: int)
    ensures var left := t.started + t.timeoutMs - now;
            FallbackReserve(t, eligible, now)
            == if !eligible || left <= 0 then 0 else if left >= 30000 then 15000 else left / 2
  {
  }

  // ----- the stages of one navigation -----

  datatype StageOutcome = Done | TimedOut | BrowserGone | OtherError

  /** A stage that began at `start` with `timeout`, and how it ended. */
  datatype Begun = Begun(start: int, timeout: int, outcome: StageOutcome)

  /** The clock and the browser: time passes in stages, which honour their timeouts, and outside of them. */
  class Environment {
    var now: int
    ghost var outside: int
    ghost var log: seq<Begun>

    constructor (now: int)
      ensures this.now == now && outside == 0 && log == []
    {
      this.now := now;
      outside := 0;
      log := [];
    }

    /** Any time may pass before the clock is read. */
    method ReadClock() returns (t: int)
      modifies this
      ensures t == now && old(now) <= now && outside - old(outside) == now - old(now) && log == old(log)
    {
      var passed: int :| passed >= 0;
      now := now + passed;
      outside := outside + passed;
      t := now;
    }

    /** A browser stage or a direct fetch ends within its timeout, somehow. */
    method Stage(timeout: int) returns (outcome: StageOutcome)
      requires timeout >= 0
      modifies this
      ensures old(now) <= now <= old(now) + timeout && outside == old(outside)
      ensures log == old(log) + [Begun(old(now), timeout, outcome)]
    {
      var used: int :| 0 <= used <= timeout;
      outcome := *;
      log := log + [Begun(now, timeout, outcome)];
      now := now + used;
    }
  }

  /** How a navigation went; `left` is the fallback's time when it starts. */
  datatype Navigation =
    | Rejected
    | Refused
    | Answered
    | Loaded
    | Committed
    | Fallback(left: int)
    | BrowserFallback(left: int)
    | Failed

  /** The end of the two browser stages, started at `loading` and at `committing` with the timeouts that
      `_stage_timeout_ms` gives a timer that still had two milliseconds at `checked`. */
  lemma StagesLeaveTheShare(browser: Timer, checked: int, loading: int, loaded: int, committing: int, committed: int)
    requires Unspent(browser, checked) >= 2
    requires checked <= loading <= loaded <= loading + StageTimeout(browser, 1, loading)
    requires loaded <= committing <= committed <= committing + StageTimeout(browser, 0, committing)
    ensures committed <= Deadline(browser) + (loading - checked) + (committing - loaded)
  {
  }

  /** A browser stage's timeout when the browser's time ends at `limit`. */
  predicate TimedBy(stage: Begun, limit: int) {
    var left := limit - stage.start;
    stage.timeout == if left >= 15000 then 15000 else if left >= 1 then left else 1
  }

  /** The browser stages that ran, with the time that `limit` leaves them, and what became of them: the
      second runs exactly if the first timed out, and a fallback follows exactly where one may. */
  ghost predicate Follows(stages: seq<Begun>, limit: int, eligible: bool, fallback: bool, left: int, r: Navigation) {
    && |stages| <= 2
    && (|stages| >= 1 ==> TimedBy(stages[0], limit - 1))
    && (|stages| == 1 ==> stages[0].outcome != TimedOut)
    && (|stages| == 2 ==> stages[0].outcome == TimedOut && TimedBy(stages[1], limit))
    && r == if stages == [] then Refused
            else Consequence(stages[|stages| - 1].outcome, |stages|, eligible, fallback, left)
  }

  /** What the last browser stage, the first or the second one, leads to. */
  function Consequence(outcome: StageOutcome, stages: nat, eligible: bool, fallback: bool, left: int): Navigation {
    match outcome
    case Done => if stages == 1 then Loaded else Committed
    case TimedOut => if eligible && left > 0 then Fallback(left) else Failed
    case BrowserGone => if fallback then BrowserFallback(left) else Failed
    case OtherError => Failed
  }

  /** Wait for the DOM and, if that times out, for the commit, on a timer that still had two milliseconds at
      `checked`. */
  method RunStages(env: Environment, browser: Timer, ghost checked: int) returns (outcome: StageOutcome, stages: nat)
    requires checked <= env.now && Unspent(browser, checked) >= 2
    modifies env
    ensures env.now >= old(env.now) && env.outside >= old(env.outside)
    ensures old(env.log) <= env.log && 1 <= stages <= 2 && |env.log| == |old(env.log)| + stages
    ensures var ran := env.log[|old(env.log)|..];
            && outcome == ran[stages - 1].outcome && (stages == 2 <==> ran[0].outcome == TimedOut)
            && TimedBy(ran[0], browser.started + browser.timeoutMs - 1)
            && (stages == 2 ==> TimedBy(ran[1], browser.started + browser.timeoutMs))
    ensures stages == 2 ==>
              env.now <= browser.started + browser.timeoutMs + (old(env.now) - checked) + env.outside - old(env.outside)
  {
    hide StageTimeout;
    var loading := env.ReadClock();
    StageTimeouts(browser, 1, loading);
    outcome := env.Stage(StageTimeout(browser, 1, loading));
    stages := 1;
    if outcome == TimedOut {
      ghost var loaded := env.now;
      var committing := env.ReadClock();
      StageTimeouts(browser, 0, committing);
      outcome := env.Stage(StageTimeout(browser, 0, committing));
      StagesLeaveTheShare(browser, checked, loading, loaded, committing, env.now);
      stages := 2;
    }
  }

  /** The browser stages of `navigate_get` and what follows them. `budget` is the navigation time left
      when they begin. */
  method BrowserStages(env: Environment, navigation: Timer, eligible: bool, fallback: bool)
    returns (r: Navigation, ghost budget: int)
    requires navigation.timeoutMs >= 1 && navigation.started <= env.now
    modifies env
    ensures env.now >= old(env.now) && env.outside >= old(env.outside)
    ensures old(env.log) <= env.log
    ensures var share := if !eligible || budget <= 0 then 0 else if budget >= 30000 then 15000 else budget / 2;
            Follows(env.log[|old(env.log)|..], navigation.started + navigation.timeoutMs - share, eligible, fallback,
                    navigation.started + navigation.timeoutMs - env.now, r)
    ensures !r.Rejected? && !r.Answered?
    ensures budget >= Unspent(navigation, old(env.now)) - (env.outside - old(env.outside))
    ensures r.Fallback? ==>
              && eligible && r.left > 0 && r.left == Unspent(navigation, env.now)
              && r.left >= Min(STAGE_CAP_MS, budget / 2) - (env.outside - old(env.outside))
    ensures r.BrowserFallback? ==> fallback && r.left == Unspent(navigation, env.now)
    ensures env.outside == old(env.outside) ==>
              (r.Refused? <==> Unspent(navigation, old(env.now)) < if eligible then 3 else 2)
  {
    hide StageTimeout;
    var started := env.ReadClock();
    budget := Unspent(navigation, started);
    var kept := FallbackReserve(navigation, eligible, started);
    FallbackShare(navigation, eligible, started);
    var derivedAt := env.ReadClock();
    var derived := TimerKeeping(navigation, kept, derivedAt);
    var checked := env.ReadClock();
    if derived == None || Unspent(derived.value, checked) < 2 {
      return Refused, budget;
    }
    var browser := derived.value;
    var outcome, stages := RunStages(env, browser, checked);
    if outcome == Done {
      return if stages == 1 then Loaded else Committed, budget;
    }
    if outcome == TimedOut {
      var ended := env.ReadClock();
      if eligible && Unspent(navigation, ended) > 0 {
        return Fallback(Unspent(navigation, ended)), budget;
      }
    }
    if outcome == BrowserGone && fallback {
      return BrowserFallback(Unspent(navigation, env.now)), budget;
    }
    return Failed, budget;
  }

  /** What the request asks for: headers bound to its origin, a screenshot of the page. `allowed` says
      that a direct fetch may come first, `preflight` that one is tried. */
  datatype Wish = Wish(bound: bool, screenshot: bool, allowed: bool, preflight: bool)

  /** Headers bound to the origin never go through the browser. */
  predicate Impossible(wish: Wish) {
    wish.bound && (!wish.allowed || wish.screenshot)
  }

  /** A direct fetch ran, unless it was refused, for all the time up to the reserve, and its success is the
      answer. */
  ghost predicate Fetched(before: seq<Begun>, after: seq<Begun>, timer: Timer, r: Navigation) {
    if r.Refused? then after == before
    else
      && |after| == |before| + 1 && before <= after
      && var direct := after[|before|];
         && 1 <= direct.timeout
         && 1 <= timer.started + timer.timeoutMs - (direct.start + direct.timeout) <= 1000
         && r == if direct.outcome == Done then Answered else Failed
  }

  /** The stages of a navigation that no direct fetch answered: a failed direct fetch if one was to be tried
      first, and the browser's, which lead to the result; a refusal may come before any of them. */
  ghost predicate Browsed(stages: seq<Begun>, skipped: nat, eligible: bool, fallback: bool, r: Navigation) {
    || (stages == [] && r == Refused)
    || exists limit, left :: Browses(stages, skipped, limit, eligible, fallback, left, r)
  }

  ghost predicate Browses(stages: seq<Begun>, skipped: nat, limit: int, eligible: bool, fallback: bool, left: int,
                          r: Navigation) {
    && skipped <= |stages| && (forall i :: 0 <= i < skipped ==> stages[i].outcome != Done)
    && Follows(stages[skipped..], limit, eligible, fallback, left, r)
  }

  /** A direct fetch within the navigation's time. */
  method FetchDirectly(env: Environment, timer: Timer) returns (r: Navigation)
    requires timer.timeoutMs >= 1 && timer.started <= env.now
    modifies env
    ensures r.Refused? || r.Answered? || r.Failed?
    ensures env.now >= old(env.now) && env.outside >= old(env.outside)
    ensures !r.Refused? ==> Unspent(timer, env.now) >= 1
    ensures Fetched(old(env.log), env.log, timer, r)
    ensures env.outside == old(env.outside) ==> (r.Refused? <==> Unspent(timer, old(env.now)) < 2)
  {
    var first := env.ReadClock();
    var second := env.ReadClock();
    var derived := NavigationTimer(timer, first, second);
    if derived == None {
      return Refused;
    }
    DerivedDeadline(timer, NavigationReserve(timer, first), second);
    var outcome := env.Stage(Unspent(derived.value, second));
    return if outcome == Done then Answered else Failed;
  }

  /** `navigate_get` with a running request timer. `eligible` says that a timeout may fall back to a direct
      fetch, `fallback` that a dead browser may. A request with origin-bound headers is answered by a
      direct fetch or not at all. Time that passes outside the stages is the only thing that can eat into
      what a timeout fallback is left with, and without such time a navigation is refused only for want of
      the few milliseconds it needs; whatever a direct fetch does first, the request keeps time to collect. */
  method NavigateGet(env: Environment, timer: Timer, wish: Wish, eligible: bool, fallback: bool)
    returns (r: Navigation, ghost budget: int)
    requires timer.timeoutMs >= 1 && timer.started <= env.now
    modifies env
    ensures r.Rejected? <==> Impossible(wish)
    ensures r.Rejected? ==> env.log == old(env.log)
    ensures wish.bound && !r.Rejected? ==> Fetched(old(env.log), env.log, timer, r)
    ensures !wish.bound && wish.preflight ==>
              (r.Answered? <==>
                 |env.log| > |old(env.log)| && old(env.log) <= env.log && env.log[|old(env.log)|].outcome == Done)
    ensures r.Answered? ==> (wish.bound || wish.preflight) && Unspent(timer, env.now) >= 1
    ensures !wish.bound && !r.Answered? ==>
              && old(env.log) <= env.log
              && Browsed(env.log[|old(env.log)|..], if wish.preflight then 1 else 0, eligible, fallback, r)
    ensures r.Fallback? ==>
              && eligible && r.left > 0
              && r.left >= Min(STAGE_CAP_MS, budget / 2) - (env.outside - old(env.outside))
    ensures r.Fallback? || r.BrowserFallback? ==> r.left < Unspent(timer, env.now)
    ensures !wish.bound && !wish.preflight && !r.Refused? ==>
              budget >= Unspent(timer, old(env.now)) - RESULT_RESERVE_MS - (env.outside - old(env.outside))
    ensures !Impossible(wish) && (wish.bound || !wish.preflight) && env.outside == old(env.outside) ==>
              (r.Refused? <==> Unspent(timer, old(env.now)) < if wish.bound then 2 else if eligible then 5 else 3)
  {
    hide Follows, StageTimeout;
    budget := 0;
    if wish.bound {
      if !wish.allowed || wish.screenshot {
        return Rejected, budget;
      }
      r := FetchDirectly(env, timer);
      return;
    }
    var first := env.ReadClock();
    var second := env.ReadClock();
    var navigation := NavigationTimer(timer, first, second);
    if navigation == None {
      return Refused, budget;
    }
    DerivedDeadline(timer, NavigationReserve(timer, first), second);
    if wish.preflight {
      var direct := env.Stage(Unspent(navigation.value, second));
      if direct == Done {
        return Answered, budget;
      }
    }
    ghost var before := env.log;
    r, budget := BrowserStages(env, navigation.value, eligible, fallback);
    ghost var stages := env.log[|old(env.log)|..];
    assert stages[|before| - |old(env.log)|..] == env.log[|before|..];
    ghost var share := if !eligible || budget <= 0 then 0 else if budget >= 30000 then 15000 else budget / 2;
    ghost var limit := navigation.value.started + navigation.value.timeoutMs - share;
    ghost var left := navigation.value.started + navigation.value.timeoutMs - env.now;
    assert Browses(stages, if wish.preflight then 1 else 0, limit, eligible, fallback, left, r);
  }
}
