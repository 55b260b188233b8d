/** The console's token bucket (internal/control/console_limit.go), over exact arithmetic. Times are in seconds. */
module ConsoleLimiter {
  datatype Kind = ReadOnly | ReadWrite

  datatype Config = Config(burst: real, refill: real)

  predicate Sane(c: Config) { c.burst >= 0.0 && c.refill > 0.0 }

  datatype State = State(tokens: map<Kind, real>, updated: map<Kind, real>)

  const IDLE := State(map[], map[])

  function Min(a: real, b: real): real { if a < b then a else b }

  function Max(a: real, b: real): real { if a < b then b else a }

  /** The tokens a span of time earns. */
  function Earned(span: real, refill: real): real { span * refill }

  lemma EarnedSplits(a: real, b: real, refill: real)
    ensures Earned(a + b, refill) == Earned(a, refill) + Earned(b, refill)
  {}

  lemma EarnedGrows(a: real, b: real, refill: real)
    requires a <= b && refill > 0.0
    ensures Earned(a, refill) <= Earned(b, refill)
  {
    assert Earned(b, refill) - Earned(a, refill) == (b - a) * refill;
  }

  lemma EarnedUnits(refill: real)
    ensures Earned(0.0, refill) == 0.0 && Earned(1.0, refill) == refill
  {}

  /** The tokens of a kind once the time since its last call has been credited; a bucket starts full. */
  function Refilled(c: Config, s: State, kind: Kind, now: real): real {
    if kind !in s.updated || kind !in s.tokens then c.burst
    else if now > s.updated[kind] then Min(c.burst, s.tokens[kind] + Earned(now - s.updated[kind], c.refill))
    else s.tokens[kind]
  }

  predicate Admits(c: Config, s: State, kind: Kind, now: real) { Refilled(c, s, kind, now) >= 1.0 }

  function After(c: Config, s: State, kind: Kind, now: real): State {
    var tokens := Refilled(c, s, kind, now);
    State(s.tokens[kind := if tokens < 1.0 then tokens else tokens - 1.0], s.updated[kind := now])
  }

  /** How long a refused caller is told to wait: until one whole token exists, in whole nanoseconds, at least a second. */
  function Wait(c: Config, tokens: real): (w: real)
    requires Sane(c)
    ensures w >= 1.0
  {
    Max(1.0, ((1.0 - tokens) / c.refill * 1_000_000_000.0).Floor as real / 1_000_000_000.0)
  }

  class Limiter {
    const config: Config
    var tokens: map<Kind, real>
    var updated: map<Kind, real>

    ghost function View(): State
      reads this
    {
      State(tokens, updated)
    }

    constructor (config: Config)
      ensures this.config == config && View() == IDLE
    {
      this.config := config;
      tokens, updated := map[], map[];
    }

    method Allow(kind: Kind, now: real) returns (admitted: bool, wait: real)
      requires Sane(config) && tokens.Keys == updated.Keys
      modifies this
      ensures View() == After(config, old(View()), kind, now)
      ensures admitted == Admits(config, old(View()), kind, now)
      ensures wait == if admitted then 0.0 else Wait(config, tokens[kind])
      ensures tokens.Keys == updated.Keys
    {
      hide Earned, Wait;
      if kind !in updated {
        tokens := tokens[kind := config.burst];
      } else {
        var elapsed := now - updated[kind];
        if elapsed > 0.0 {
          tokens := tokens[kind := Min(config.burst, tokens[kind] + Earned(elapsed, config.refill))];
        }
      }
      updated := updated[kind := now];
      if tokens[kind] < 1.0 {
        return false, Wait(config, tokens[kind]);
      }
      tokens := tokens[kind := tokens[kind] - 1.0];
      return true, 0.0;
    }
  }

  // ------------------------------------------------------------------ runs

  datatype Call = Call(kind: Kind, now: real)

  function Run(c: Config, s: State, calls: seq<Call>): State {
    if calls == [] then s
    else var last := calls[|calls| - 1]; After(c, Run(c, s, calls[..|calls| - 1]), last.kind, last.now)
  }

  /** How many calls of a kind were let through. */
  function Admitted(c: Config, s: State, calls: seq<Call>, kind: Kind): nat {
    if calls == [] then 0
    else
      var init, last := calls[..|calls| - 1], calls[|calls| - 1];
      Admitted(c, s, init, kind) + if last.kind == kind && Admits(c, Run(c, s, init), kind, last.now) then 1 else 0
  }

  function TimesOf(calls: seq<Call>, kind: Kind): seq<real> {
    if calls == [] then []
    else var last := calls[|calls| - 1]; TimesOf(calls[..|calls| - 1], kind) + if last.kind == kind then [last.now] else []
  }

  /** How far the clock has moved forward over these readings. */
  function Forward(times: seq<real>): real {
    if |times| < 2 then 0.0
    else Forward(times[..|times| - 1]) + Max(0.0, times[|times| - 1] - times[|times| - 2])
  }

  /** Tokens stay between nothing and the burst. */
  ghost predicate InBounds(c: Config, s: State) {
    s.tokens.Keys == s.updated.Keys && forall kind :: kind in s.tokens ==> 0.0 <= s.tokens[kind] <= c.burst
  }

  lemma AfterInBounds(c: Config, s: State, kind: Kind, now: real)
    requires Sane(c) && InBounds(c, s)
    ensures InBounds(c, After(c, s, kind, now))
    ensures 0.0 <= Refilled(c, s, kind, now) <= c.burst
  {
    hide Earned;
    if kind in s.updated && now > s.updated[kind] {
      EarnedUnits(c.refill);
      EarnedGrows(0.0, now - s.updated[kind], c.refill);
    }
  }

  lemma {:induction false} RunInBounds(c: Config, s: State, calls: seq<Call>)
    requires Sane(c) && InBounds(c, s)
    ensures InBounds(c, Run(c, s, calls))
  {
    hide Refilled, Sane;
    if calls != [] {
      var init, last := calls[..|calls| - 1], calls[|calls| - 1];
      RunInBounds(c, s, init);
      AfterInBounds(c, Run(c, s, init), last.kind, last.now);
    }
  }

  lemma {:induction false} OtherKindsAreFree(c: Config, s: State, calls: seq<Call>, kind: Kind)
    requires forall i :: 0 <= i < |calls| ==> calls[i].kind != kind
    ensures var t := Run(c, s, calls);
            && (kind in t.tokens <==> kind in s.tokens) && (kind in t.updated <==> kind in s.updated)
            && (kind in s.tokens ==> t.tokens[kind] == s.tokens[kind]) && (kind in s.updated ==> t.updated[kind] == s.updated[kind])
            && Admitted(c, s, calls, kind) == 0
  {
    if calls != [] { OtherKindsAreFree(c, s, calls[..|calls| - 1], kind); }
  }

  /** What a kind has been let through and what it has left never exceed the burst plus what the clock has earned. */
  lemma {:induction false} Budget(c: Config, s: State, calls: seq<Call>, kind: Kind)
    requires Sane(c) && InBounds(c, s) && TimesOf(calls, kind) != []
    ensures var t, times := Run(c, s, calls), TimesOf(calls, kind);
            && kind in t.tokens && kind in t.updated && t.updated[kind] == times[|times| - 1]
            && Admitted(c, s, calls, kind) as real + t.tokens[kind] <= c.burst + Earned(Forward(times), c.refill)
  {
    hide Earned;
    EarnedUnits(c.refill);
    var init, last := calls[..|calls| - 1], calls[|calls| - 1];
    RunInBounds(c, s, init);
    var u, before, times := Run(c, s, init), TimesOf(init, kind), TimesOf(calls, kind);
    AfterInBounds(c, u, last.kind, last.now);
    if last.kind != kind {
      assert times == before;
      Budget(c, s, init, kind);
    } else if before == [] {
      NoneYet(c, s, init, kind);
    } else {
      Budget(c, s, init, kind);
      assert times[..|times| - 1] == before && times[|times| - 2] == before[|before| - 1];
      EarnedSplits(Forward(before), Max(0.0, last.now - u.updated[kind]), c.refill);
      StepBudget(c, u, kind, last.now);
    }
  }

  lemma {:induction false} NoneYet(c: Config, s: State, calls: seq<Call>, kind: Kind)
    requires TimesOf(calls, kind) == []
    ensures Admitted(c, s, calls, kind) == 0
  {
    if calls != [] {
      NoneYet(c, s, calls[..|calls| - 1], kind);
    }
  }

  lemma StepBudget(c: Config, s: State, kind: Kind, now: real)
    requires Sane(c) && InBounds(c, s) && kind in s.tokens
    ensures Refilled(c, s, kind, now) <= s.tokens[kind] + Earned(Max(0.0, now - s.updated[kind]), c.refill)
  {
    hide Earned;
    EarnedUnits(c.refill);
  }

  lemma {:induction false} ForwardOfSteady(times: seq<real>, start: real, end: real)
    requires times != [] && forall i :: 0 <= i < |times| ==> start <= times[i] <= end
    requires forall i, j :: 0 <= i < j < |times| ==> times[i] <= times[j]
    ensures Forward(times) == times[|times| - 1] - times[0]
  {
    if |times| >= 2 {
      var init := times[..|times| - 1];
      ForwardOfSteady(init, start, end);
    }
  }

  /** Whatever happened before, and whatever the other kind does meanwhile: of the calls of one kind that a steady clock
      dates between `start` and `end`, at most the burst plus the refill for that time is let through. */
  lemma AdmissionBound(c: Config, earlier: seq<Call>, calls: seq<Call>, kind: Kind, start: real, end: real)
    requires Sane(c) && start <= end
    requires forall i :: 0 <= i < |TimesOf(calls, kind)| ==> start <= TimesOf(calls, kind)[i] <= end
    requires forall i, j :: 0 <= i < j < |TimesOf(calls, kind)| ==> TimesOf(calls, kind)[i] <= TimesOf(calls, kind)[j]
    ensures Admitted(c, Run(c, IDLE, earlier), calls, kind) as real <= c.burst + Earned(end - start, c.refill)
  {
    hide Earned, Run, Admitted, TimesOf, Forward;
    RunInBounds(c, IDLE, earlier);
    var s, times := Run(c, IDLE, earlier), TimesOf(calls, kind);
    EarnedUnits(c.refill);
    EarnedGrows(0.0, end - start, c.refill);
    if times == [] {
      NoneYet(c, s, calls, kind);
    } else {
      RunInBounds(c, s, calls);
      Budget(c, s, calls, kind);
      ForwardOfSteady(times, start, end);
      EarnedGrows(times[|times| - 1] - times[0], end - start, c.refill);
    }
  }

  // ------------------------------------------------------------------ what a refused caller may rely on

  /** The seconds until one whole token exists. */
  function Needed(c: Config, tokens: real): real
    requires Sane(c)
  {
    (1.0 - tokens) / c.refill
  }

  /** The Retry-After header: the wait rounded to the nearest whole second. */
  function Header(wait: real): int { (wait + 0.5).Floor }

  predicate Whole(x: real) { x.Floor as real == x }

  function Fraction(x: real): real { x - x.Floor as real }

  lemma EarnedExactly(c: Config, tokens: real, span: real)
    requires Sane(c)
    ensures tokens + Earned(span, c.refill) >= 1.0 <==> span >= Needed(c, tokens)
  {
    var needed := Needed(c, tokens);
    assert needed * c.refill == 1.0 - tokens;
    assert Earned(span, c.refill) - (1.0 - tokens) == (span - needed) * c.refill;
  }

  /** A refused caller that comes back is let through exactly when a token fits the bucket and the time for one has gone by. */
  lemma ComingBack(c: Config, s: State, kind: Kind, now: real, later: real)
    requires Sane(c) && !Admits(c, s, kind, now) && later > now
    ensures Admits(c, After(c, s, kind, now), kind, later) <==>
              c.burst >= 1.0 && later - now >= Needed(c, Refilled(c, s, kind, now))
  {
    hide Earned, Needed, Sane;
    EarnedExactly(c, Refilled(c, s, kind, now), later - now);
  }

  lemma NeededIsPositive(c: Config, tokens: real)
    requires Sane(c) && tokens < 1.0
    ensures Needed(c, tokens) > 0.0
  {
    var needed := Needed(c, tokens);
    assert needed * c.refill == 1.0 - tokens;
  }

  /** The wait is the time needed cut to whole nanoseconds, and at least a second. */
  lemma WaitCuts(c: Config, tokens: real)
    requires Sane(c) && tokens < 1.0
    ensures var x, w := Needed(c, tokens), Wait(c, tokens);
            && (x <= 1.0 ==> w == 1.0) && (x > 1.0 ==> w <= x < w + 0.000_000_001)
            && (x > 1.0 && Whole(x) ==> w == x)
  {
    var x := Needed(c, tokens);
    NeededIsPositive(c, tokens);
    var nanos := x * 1_000_000_000.0;
    assert nanos.Floor as real <= nanos < nanos.Floor as real + 1.0;
    if x > 1.0 && Whole(x) {
      assert nanos == (x.Floor * 1_000_000_000) as real;
    }
  }

  /** Rounding a cut time to the nearest second reaches the whole time exactly when it rounds up, or there was nothing
      to round. */
  lemma HeaderReaches(x: real, w: real)
    requires x > 0.0 && (x <= 1.0 ==> w == 1.0) && (x > 1.0 ==> w <= x < w + 0.000_000_001)
    requires x > 1.0 && Whole(x) ==> w == x
    requires (w * 1_000_000_000.0).Floor as real == w * 1_000_000_000.0
    ensures Header(w) as real >= x <==> x <= 1.0 || Whole(x) || Fraction(w) >= 0.5
    ensures Header(w) as real + 1.0 > x && Header(w) >= 1
  {
    if x > 1.0 && Fraction(w) >= 0.5 {
      assert Header(w) == w.Floor + 1;
      var nanos := (w * 1_000_000_000.0).Floor;
      assert nanos < (w.Floor + 1) * 1_000_000_000;
    }
  }

  /** Waiting as the header says is enough exactly when the bucket can hold a token and the token takes at most a second,
      or a whole number of seconds, or the wait is at least half a second over a whole number. */
  lemma HeaderIsEnoughExactly(c: Config, s: State, kind: Kind, now: real)
    requires Sane(c) && !Admits(c, s, kind, now)
    ensures var tokens := Refilled(c, s, kind, now);
            var x, w := Needed(c, tokens), Wait(c, tokens);
            Admits(c, After(c, s, kind, now), kind, now + Header(w) as real) <==>
              c.burst >= 1.0 && (x <= 1.0 || Whole(x) || Fraction(w) >= 0.5)
  {
    hide Earned, Needed, Wait, Admits, After, Refilled, Whole, Header;
    var later := Told(c, s, kind, now);
    ComingBack(c, s, kind, now, later);
  }

  /** A second more than the header says is enough exactly if the bucket can hold a token at all. */
  lemma OneMoreSecondIsEnough(c: Config, s: State, kind: Kind, now: real, later: real)
    requires Sane(c) && !Admits(c, s, kind, now)
    requires later >= now + Header(Wait(c, Refilled(c, s, kind, now))) as real + 1.0
    ensures Admits(c, After(c, s, kind, now), kind, later) <==> c.burst >= 1.0
  {
    hide Earned, Needed, Wait, Admits, After, Refilled, Whole, Header;
    var told := Told(c, s, kind, now);
    ComingBack(c, s, kind, now, later);
  }

  /** A refused caller that waits as told is let through if a token takes at most a second, as it does whenever the bucket
      earns at least one a second. */
  lemma RetryAfterIsHonoured(c: Config, s: State, kind: Kind, now: real, later: real)
    requires Sane(c) && InBounds(c, s) && c.burst >= 1.0 && !Admits(c, s, kind, now)
    requires later >= now + Header(Wait(c, Refilled(c, s, kind, now))) as real
    ensures c.refill >= 1.0 ==> Needed(c, Refilled(c, s, kind, now)) <= 1.0
    ensures Needed(c, Refilled(c, s, kind, now)) <= 1.0 ==> Admits(c, After(c, s, kind, now), kind, later)
  {
    AfterInBounds(c, s, kind, now);
    hide Earned, Needed, Wait, Admits, After, Refilled, Whole, Header, Fraction;
    var told := Told(c, s, kind, now);
    ComingBack(c, s, kind, now, later);
    FastNeedsASecond(c, Refilled(c, s, kind, now));
  }

  lemma FastNeedsASecond(c: Config, tokens: real)
    requires Sane(c) && tokens >= 0.0
    ensures c.refill >= 1.0 ==> Needed(c, tokens) <= 1.0
  {
    EarnedExactly(c, tokens, 1.0);
  }

  /** When the header sends the caller back, and how that relates to the time it needs. */
  lemma Told(c: Config, s: State, kind: Kind, now: real) returns (later: real)
    requires Sane(c) && !Admits(c, s, kind, now)
    ensures var x, w := Needed(c, Refilled(c, s, kind, now)), Wait(c, Refilled(c, s, kind, now));
            && later == now + Header(w) as real && later >= now + 1.0 && later + 1.0 - now > x
            && (later - now >= x <==> x <= 1.0 || Whole(x) || Fraction(w) >= 0.5)
  {
    hide Earned, Needed, Wait, After, Refilled;
    var tokens := Refilled(c, s, kind, now);
    NeededIsPositive(c, tokens);
    WaitCuts(c, tokens);
    WaitInNanos(c, tokens);
    HeaderReaches(Needed(c, tokens), Wait(c, tokens));
    later := now + Header(Wait(c, tokens)) as real;
  }

  lemma WaitInNanos(c: Config, tokens: real)
    requires Sane(c)
    ensures var w := Wait(c, tokens); (w * 1_000_000_000.0).Floor as real == w * 1_000_000_000.0
  {
    NanosAreWhole(((1.0 - tokens) / c.refill * 1_000_000_000.0).Floor);
  }

  lemma NanosAreWhole(nanos: int)
    ensures var w := Max(1.0, nanos as real / 1_000_000_000.0); (w * 1_000_000_000.0).Floor as real == w * 1_000_000_000.0
  {
    assert nanos as real / 1_000_000_000.0 * 1_000_000_000.0 == nanos as real;
  }

  /** With one token and four back every five seconds, the second of two calls is told to wait one second, and is refused
      again after it. */
  lemma SlowBucketIsRefusedAgain(c: Config, kind: Kind)
    requires c == Config(1.0, 0.8)
    ensures var s := Run(c, IDLE, [Call(kind, 0.0)]);
            && !Admits(c, s, kind, 0.0) && Header(Wait(c, Refilled(c, s, kind, 0.0))) == 1
            && !Admits(c, After(c, s, kind, 0.0), kind, 1.0)
  {
    assert [Call(kind, 0.0)][..0] == [];
    assert Run(c, IDLE, [Call(kind, 0.0)]) == After(c, IDLE, kind, 0.0);
  }

  // ------------------------------------------------------------------ a full bucket

  /** So many calls of a kind at one instant. */
  function Burst(kind: Kind, now: real, n: nat): seq<Call> { seq(n, _ => Call(kind, now)) }

  /** A bucket starts full: of the first calls of a kind, all at one instant, exactly as many are let through as there are whole
      tokens in the burst. */
  lemma {:induction false} BurstIsAdmitted(c: Config, kind: Kind, now: real, n: nat)
    requires Sane(c)
    ensures n > 0 ==> kind in Run(c, IDLE, Burst(kind, now, n)).updated
    ensures var calls := Burst(kind, now, n);
            var s, admitted := Run(c, IDLE, calls), Admitted(c, IDLE, calls, kind);
            && admitted == (if n as real <= c.burst then n else c.burst.Floor)
            && Refilled(c, s, kind, now) == c.burst - admitted as real
  {
    if n == 0 {
      assert Burst(kind, now, 0) == [];
    } else {
      var calls, init := Burst(kind, now, n), Burst(kind, now, n - 1);
      assert calls == init + [Call(kind, now)] && calls[..n - 1] == init && calls[n - 1] == Call(kind, now);
      BurstIsAdmitted(c, kind, now, n - 1);
    }
  }
}
