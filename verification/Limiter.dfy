/**
 The fixed-window counters: the request limiter and the login limiter keep the same Redis
 counter (increment, then set the expiry only if there is none); the login limiter also
 clears it after a successful sign-in.
 */
module Limiter {
  import opened Options

  datatype Counter = Counter(count: nat, expires: int)
  datatype Config = Config(limit: int, window: nat)

  /** Clocks and windows count milliseconds. */
  const SECOND := 1000

  /** A counter whose deadline has passed reads as absent. */
  function Live(c: Option<Counter>, now: int): Option<Counter> {
    if c.Some? && now < c.value.expires then c else None
  }

  function Bump(cfg: Config, c: Option<Counter>, now: int): Counter {
    match Live(c, now)
    case None => Counter(1, now + cfg.window)
    case Some(k) => Counter(k.count + 1, k.expires)
  }

  datatype Event = Attempt(at: int) | Reset(at: int)

  function Next(cfg: Config, c: Option<Counter>, e: Event): Option<Counter> {
    match e
    case Attempt(at) => Some(Bump(cfg, c, at))
    case Reset(_) => None
  }

  predicate Passes(cfg: Config, c: Option<Counter>, e: Event) {
    e.Attempt? && Bump(cfg, c, e.at).count <= cfg.limit
  }

  /** How many attempts pass inside [lo, hi). */
  function Passed(cfg: Config, c: Option<Counter>, events: seq<Event>, lo: int, hi: int): nat
    decreases |events|
  {
    if events == [] then 0
    else (if Passes(cfg, c, events[0]) && lo <= events[0].at < hi then 1 else 0) +
         Passed(cfg, Next(cfg, c, events[0]), events[1..], lo, hi)
  }

  function Resets(events: seq<Event>, lo: int, hi: int): nat
    decreases |events|
  {
    if events == [] then 0
    else (if events[0].Reset? && lo <= events[0].at < hi then 1 else 0) + Resets(events[1..], lo, hi)
  }

  predicate Ordered(events: seq<Event>) {
    forall i, j :: 0 <= i < j < |events| ==> events[i].at <= events[j].at
  }

  /**
   The wait a refused client is told, in whole seconds.  The server rounds what is left of the
   window to seconds, up from `SECOND - bias` on; a key that has lapsed by then, and a failed
   round trip, are answered with the whole window.
   */
  function Advertised(cfg: Config, deadline: int, asked: int, answered: bool, bias: nat): int {
    if answered && asked < deadline then (deadline - asked + bias) / SECOND else cfg.window / SECOND
  }

  function Max0(x: int): nat {
    if x < 0 then 0 else x
  }

  // --- the limiters ------------------------------------------------------------------------

  class FixedWindow {
    const limit: int
    const window: nat
    var counters: map<string, Counter>

    constructor (limit: int, window: nat)
      ensures this.limit == limit && this.window == window && counters == map[]
    {
      this.limit, this.window := limit, window;
      counters := map[];
    }

    ghost function Of(key: string): Option<Counter>
      reads this
    {
      if key in counters then Some(counters[key]) else None
    }

    /**
     Count the attempt; when it is refused, ask at `asked` how long the key still lives.
     No other key is touched.
     */
    method Allow(key: string, now: int, asked: int, answered: bool, bias: nat) returns (allowed: bool, retryAfter: int)
      requires now <= asked && bias < SECOND
      modifies this
      ensures Of(key) == Next(Config(limit, window), old(Of(key)), Attempt(now))
      ensures forall other :: other != key ==> Of(other) == old(Of(other))
      ensures allowed <==> Passes(Config(limit, window), old(Of(key)), Attempt(now))
      ensures allowed ==> retryAfter == 0
      ensures var cfg := Config(limit, window);
        !allowed ==> retryAfter == Advertised(cfg, Bump(cfg, old(Of(key)), now).expires, asked, answered, bias)
    {
      if key !in counters || counters[key].expires <= now {
        counters := counters[key := Counter(0, now + window)];
      }
      counters := counters[key := counters[key].(count := counters[key].count + 1)];
      allowed := counters[key].count <= limit;
      if allowed {
        return true, 0;
      }
      var ttl := if asked < counters[key].expires then (counters[key].expires - asked + bias) / SECOND else -2;
      if !answered || ttl < 0 {
        ttl := window / SECOND;
      }
      retryAfter := ttl;
    }

    /** After a successful sign-in the key's counter is gone; no other key is touched. */
    method Clear(key: string, now: int)
      modifies this
      ensures Of(key) == Next(Config(limit, window), old(Of(key)), Reset(now))
      ensures key !in counters
      ensures forall other :: other != key ==> Of(other) == old(Of(other))
    {
      counters := counters - {key};
    }
  }

  // --- bounds ------------------------------------------------------------------------------

  lemma {:induction false} NothingAfter(cfg: Config, c: Option<Counter>, events: seq<Event>, lo: int, hi: int)
    requires forall i :: 0 <= i < |events| ==> hi <= events[i].at
    ensures Passed(cfg, c, events, lo, hi) == 0
    decreases |events|
  {
    if events != [] { NothingAfter(cfg, Next(cfg, c, events[0]), events[1..], lo, hi); }
  }

  lemma OneMoreReset(r: nat, l: nat)
    ensures (1 + r) * l == l + r * l
  {}

  /** Inside a window that outlasts the interval: what is left of its budget, and one budget per reset. */
  lemma {:induction false} InsideWindow(cfg: Config, k: Counter, events: seq<Event>, lo: int, hi: int)
    requires Ordered(events) && hi <= k.expires && hi <= lo + cfg.window
    requires events != [] ==> lo <= events[0].at
    ensures Passed(cfg, Some(k), events, lo, hi) <= Max0(cfg.limit - k.count) + Resets(events, lo, hi) * Max0(cfg.limit)
    decreases |events|, 0
  {
    if events != [] {
      var e := events[0];
      if hi <= e.at {
        NothingAfter(cfg, Some(k), events, lo, hi);
      } else if e.Reset? {
        FreshStart(cfg, events[1..], lo, hi);
      } else {
        InsideWindow(cfg, Bump(cfg, Some(k), e.at), events[1..], lo, hi);
      }
    }
  }

  /** Starting with no window: one budget, and one more per reset. */
  lemma {:induction false} FreshStart(cfg: Config, events: seq<Event>, lo: int, hi: int)
    requires Ordered(events) && hi <= lo + cfg.window
    requires events != [] ==> lo <= events[0].at
    ensures Passed(cfg, None, events, lo, hi) <= (1 + Resets(events, lo, hi)) * Max0(cfg.limit)
    decreases |events|, 1
  {
    if events != [] {
      var e := events[0];
      if hi <= e.at {
        NothingAfter(cfg, None, events, lo, hi);
      } else if e.Reset? {
        FreshStart(cfg, events[1..], lo, hi);
        OneMoreReset(1 + Resets(events[1..], lo, hi), Max0(cfg.limit));
      } else {
        InsideWindow(cfg, Bump(cfg, None, e.at), events[1..], lo, hi);
        OneMoreReset(Resets(events[1..], lo, hi), Max0(cfg.limit));
      }
    }
  }

  /** The old window may end inside the interval; the next one then outlasts it. */
  lemma {:induction false} AcrossWindows(cfg: Config, k: Counter, events: seq<Event>, lo: int, hi: int)
    requires Ordered(events) && hi <= k.expires + cfg.window && hi <= lo + cfg.window
    requires events != [] ==> lo <= events[0].at
    ensures Passed(cfg, Some(k), events, lo, hi) <=
            Max0(cfg.limit - k.count) + (1 + Resets(events, lo, hi)) * Max0(cfg.limit)
    decreases |events|
  {
    if events != [] {
      var e := events[0];
      var rest := Resets(events[1..], lo, hi);
      if hi <= e.at {
        NothingAfter(cfg, Some(k), events, lo, hi);
      } else if e.Reset? {
        FreshStart(cfg, events[1..], lo, hi);
        OneMoreReset(1 + rest, Max0(cfg.limit));
      } else if e.at < k.expires {
        AcrossWindows(cfg, Bump(cfg, Some(k), e.at), events[1..], lo, hi);
      } else {
        InsideWindow(cfg, Bump(cfg, Some(k), e.at), events[1..], lo, hi);
        OneMoreReset(rest, Max0(cfg.limit));
      }
    }
  }

  /** A counter as earlier events left it: opened by one attempt, no later than the next event. */
  predicate Plausible(cfg: Config, c: Option<Counter>, events: seq<Event>) {
    c.Some? ==> c.value.count >= 1 && (events != [] ==> c.value.expires <= events[0].at + cfg.window)
  }

  lemma {:induction false} AnyInterval(cfg: Config, c: Option<Counter>, events: seq<Event>, lo: int)
    requires Ordered(events) && Plausible(cfg, c, events)
    ensures var hi := lo + cfg.window;
      Passed(cfg, c, events, lo, hi) <= Max0(cfg.limit - 1) + (1 + Resets(events, lo, hi)) * Max0(cfg.limit)
    decreases |events|
  {
    var hi := lo + cfg.window;
    if events != [] {
      if events[0].at < lo {
        AnyInterval(cfg, Next(cfg, c, events[0]), events[1..], lo);
      } else if Live(c, events[0].at).Some? {
        AcrossWindows(cfg, c.value, events, lo, hi);
      } else {
        LapsedIsAbsent(cfg, c, events, lo, hi);
        FreshStart(cfg, events, lo, hi);
      }
    }
  }

  lemma LapsedIsAbsent(cfg: Config, c: Option<Counter>, events: seq<Event>, lo: int, hi: int)
    requires events != [] && Live(c, events[0].at).None?
    ensures Passed(cfg, c, events, lo, hi) == Passed(cfg, None, events, lo, hi)
  {}

  /**
   Over any half-open interval as long as the window, wherever it starts, at most
   2 * limit - 1 attempts pass, and limit more for each reset inside it.
   */
  lemma SlidingBound(cfg: Config, events: seq<Event>, lo: int)
    requires Ordered(events) && cfg.limit >= 1
    ensures Passed(cfg, None, events, lo, lo + cfg.window) <=
            2 * cfg.limit - 1 + Resets(events, lo, lo + cfg.window) * cfg.limit
  {
    AnyInterval(cfg, None, events, lo);
    OneMoreReset(Resets(events, lo, lo + cfg.window), cfg.limit);
  }

  predicate AllAttempts(events: seq<Event>, lo: int, hi: int) {
    forall i :: 0 <= i < |events| ==> events[i].Attempt? && lo <= events[i].at < hi
  }

  /** Inside one window, the first `limit` attempts pass and no other does. */
  lemma {:induction false} WindowBudget(cfg: Config, k: Counter, events: seq<Event>, lo: int)
    requires AllAttempts(events, lo, k.expires)
    ensures Passed(cfg, Some(k), events, lo, k.expires) ==
            if |events| <= Max0(cfg.limit - k.count) then |events| else Max0(cfg.limit - k.count)
    decreases |events|
  {
    if events != [] { WindowBudget(cfg, Bump(cfg, Some(k), events[0].at), events[1..], lo); }
  }

  function After(cfg: Config, c: Option<Counter>, events: seq<Event>): Option<Counter>
    decreases |events|
  {
    if events == [] then c else After(cfg, Next(cfg, c, events[0]), events[1..])
  }

  lemma {:induction false} WindowIsFixed(cfg: Config, k: Counter, events: seq<Event>, lo: int)
    requires AllAttempts(events, lo, k.expires)
    ensures After(cfg, Some(k), events) == Some(Counter(k.count + |events|, k.expires))
    decreases |events|
  {
    if events != [] { WindowIsFixed(cfg, Bump(cfg, Some(k), events[0].at), events[1..], lo); }
  }

  lemma {:induction false} AfterConcat(cfg: Config, c: Option<Counter>, a: seq<Event>, b: seq<Event>)
    ensures After(cfg, c, a + b) == After(cfg, After(cfg, c, a), b)
    decreases |a|
  {
    if a == [] {
      assert a + b == b;
    } else {
      assert (a + b)[1..] == a[1..] + b;
      AfterConcat(cfg, Next(cfg, c, a[0]), a[1..], b);
    }
  }

  /**
   A reset gives the whole budget back, whatever the counter stood at and whenever its window would
   have ended: of the attempts in the window that the next one opens, exactly the first `limit` pass.
   */
  lemma ResetRestoresTheBudget(cfg: Config, before: seq<Event>, at: int, attempts: seq<Event>, i: nat)
    requires i < |attempts| && AllAttempts(attempts, attempts[0].at, attempts[0].at + cfg.window)
    ensures Passes(cfg, After(cfg, None, before + [Reset(at)] + attempts[..i]), attempts[i]) <==> i < cfg.limit
  {
    var reset := before + [Reset(at)];
    AfterConcat(cfg, None, reset, attempts[..i]);
    AfterConcat(cfg, None, before, [Reset(at)]);
    assert After(cfg, None, reset) == None by { AfterReset(cfg, After(cfg, None, before), at); }
    if i > 0 {
      var opening := Counter(1, attempts[0].at + cfg.window);
      assert After(cfg, None, attempts[..i]) == After(cfg, Some(opening), attempts[..i][1..]);
      WindowIsFixed(cfg, opening, attempts[..i][1..], attempts[0].at);
    }
  }

  lemma AfterReset(cfg: Config, c: Option<Counter>, at: int)
    ensures After(cfg, c, [Reset(at)]) == None
  {
    assert [Reset(at)][1..] == [];
  }

  /** However the client hammers meanwhile, it is refused before the window ends and passes from then on. */
  lemma RefusedUntilTheDeadline(cfg: Config, c: Option<Counter>, now: int, meanwhile: seq<Event>, at: int)
    requires cfg.limit >= 1 && !Passes(cfg, c, Attempt(now))
    requires AllAttempts(meanwhile, now, Bump(cfg, c, now).expires) && now <= at
    ensures Passes(cfg, After(cfg, Next(cfg, c, Attempt(now)), meanwhile), Attempt(at)) <==> Bump(cfg, c, now).expires <= at
  {
    WindowIsFixed(cfg, Bump(cfg, c, now), meanwhile, now);
  }

  lemma Rounding(left: nat, bias: nat)
    requires bias < SECOND
    ensures var told := (left + bias) / SECOND * SECOND;
      && left + bias - SECOND < told <= left + bias
      && (told == left <==> left % SECOND == 0)
      && (left <= told <==> left % SECOND == 0 || SECOND <= left % SECOND + bias)
  {
    var q, x := left / SECOND, left % SECOND;
    assert left == q * SECOND + x;
    if x + bias < SECOND {
      assert (left + bias) / SECOND == q;
    } else {
      assert (left + bias) / SECOND == q + 1;
    }
  }

  /**
   What the advertised wait is worth.  While the window lasts it ends at most `bias` after the
   deadline and less than `SECOND - bias` before it, exactly at the deadline for whole seconds
   only; a client that comes back then is let in exactly when the wait was not rounded down.
   A lapsed key or a failed question costs the client a whole window.
   */
  lemma AdvertisedWait(
    cfg: Config, c: Option<Counter>, now: int, asked: int, answered: bool, bias: nat, meanwhile: seq<Event>)
    requires cfg.limit >= 1 && !Passes(cfg, c, Attempt(now))
    requires now <= asked && bias < SECOND
    requires AllAttempts(meanwhile, now, Bump(cfg, c, now).expires)
    ensures var deadline := Bump(cfg, c, now).expires;
      var left := deadline - asked;
      var back := asked + Advertised(cfg, deadline, asked, answered, bias) * SECOND;
      var letIn := Passes(cfg, After(cfg, Next(cfg, c, Attempt(now)), meanwhile), Attempt(back));
      if answered && left > 0 then
        && deadline - (SECOND - bias) < back <= deadline + bias
        && (back == deadline <==> left % SECOND == 0)
        && (letIn <==> left % SECOND == 0 || SECOND <= left % SECOND + bias)
      else
        && asked + cfg.window - SECOND < back <= asked + cfg.window
        && (letIn <==> deadline <= back)
  {
    var deadline := Bump(cfg, c, now).expires;
    var back := asked + Advertised(cfg, deadline, asked, answered, bias) * SECOND;
    if answered && asked < deadline {
      Rounding(deadline - asked, bias);
    } else {
      Rounding(cfg.window, 0);
    }
    RefusedUntilTheDeadline(cfg, c, now, meanwhile, back);
  }

  function Burst(n: nat, at: int): seq<Event> {
    seq(n, _ => Attempt(at))
  }

  lemma {:induction false} BurstPasses(
      cfg: Config, k: Counter, n: nat, at: int, rest: seq<Event>, lo: int, hi: int)
    requires at < k.expires && k.count + n <= cfg.limit && lo <= at < hi
    ensures Passed(cfg, Some(k), Burst(n, at) + rest, lo, hi) ==
            n + Passed(cfg, Some(Counter(k.count + n, k.expires)), rest, lo, hi)
    decreases n
  {
    var events := Burst(n, at) + rest;
    if n == 0 {
      assert events == rest;
    } else {
      assert events[0] == Attempt(at) && events[1..] == Burst(n - 1, at) + rest;
      BurstPasses(cfg, Counter(k.count + 1, k.expires), n - 1, at, rest, lo, hi);
    }
  }

  /** The rest of the first window's budget, at its last moment. */
  lemma FirstBurst(cfg: Config, rest: seq<Event>)
    requires cfg.limit >= 1 && cfg.window >= 2
    ensures var w := cfg.window;
      Passed(cfg, None, [Attempt(0)] + (Burst(cfg.limit - 1, w - 1) + rest), w - 1, w - 1 + w) ==
      cfg.limit - 1 + Passed(cfg, Some(Counter(cfg.limit, w)), rest, w - 1, w - 1 + w)
  {
    var w := cfg.window;
    var events := [Attempt(0)] + (Burst(cfg.limit - 1, w - 1) + rest);
    assert events[1..] == Burst(cfg.limit - 1, w - 1) + rest;
    BurstPasses(cfg, Counter(1, w), cfg.limit - 1, w - 1, rest, w - 1, w - 1 + w);
  }

  /** The next window's whole budget, at its first moment. */
  lemma SecondBurst(cfg: Config)
    requires cfg.limit >= 1 && cfg.window >= 2
    ensures var w := cfg.window;
      Passed(cfg, Some(Counter(cfg.limit, w)), Burst(cfg.limit, w), w - 1, w - 1 + w) == cfg.limit
  {
    var w := cfg.window;
    var second := Burst(cfg.limit, w);
    assert second[0] == Attempt(w) && second[1..] == Burst(cfg.limit - 1, w) + [];
    BurstPasses(cfg, Counter(1, w + w), cfg.limit - 1, w, [], w - 1, w - 1 + w);
  }

  /** The sliding bound is reached, for every limit: a burst at the end of one window and one at the start of the next. */
  lemma SlidingBoundIsTight(cfg: Config)
    requires cfg.limit >= 1 && cfg.window >= 2
    ensures var w := cfg.window;
      var events := [Attempt(0)] + (Burst(cfg.limit - 1, w - 1) + Burst(cfg.limit, w));
      && Ordered(events)
      && Resets(events, w - 1, w - 1 + w) == 0
      && Passed(cfg, None, events, w - 1, w - 1 + w) == 2 * cfg.limit - 1
  {
    var w := cfg.window;
    var first, second := Burst(cfg.limit - 1, w - 1), Burst(cfg.limit, w);
    BurstsInOrder(first, second, w);
    FirstBurst(cfg, second);
    SecondBurst(cfg);
    NoResets([Attempt(0)] + (first + second), w - 1, w - 1 + w);
  }

  lemma BurstsInOrder(first: seq<Event>, second: seq<Event>, w: nat)
    requires w >= 2
    requires forall i :: 0 <= i < |first| ==> first[i] == Attempt(w - 1)
    requires forall i :: 0 <= i < |second| ==> second[i] == Attempt(w)
    ensures Ordered([Attempt(0)] + (first + second))
    ensures forall i :: 0 <= i < |[Attempt(0)] + (first + second)| ==> ([Attempt(0)] + (first + second))[i].Attempt?
  {}

  lemma {:induction false} NoResets(events: seq<Event>, lo: int, hi: int)
    requires forall i :: 0 <= i < |events| ==> events[i].Attempt?
    ensures Resets(events, lo, hi) == 0
  {
    if events != [] { NoResets(events[1..], lo, hi); }
  }
}
