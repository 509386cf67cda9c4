/**
 The token bucket script.  Levels are computed on the clock each caller sends
 along; the key expires by the server's clock, 3600 s after it was last written.
 */
module TokenBucket {
  import opened Basics

  const KEY_TTL: real := 3600.0

  /** The stored hash: the token level and the caller's time of the last request. */
  datatype Level = Level(tokens: real, last: real)

  lemma RefillNonNegative(c: Config, elapsed: real)
    requires c.refill >= 0.0 && elapsed >= 0.0
    ensures Refill(c, elapsed) >= 0.0
  {
  }

  lemma NoTimeNoRefill(c: Config)
    ensures Refill(c, 0.0) == 0.0
  {
  }

  /** What the key holds: the hash, and the server's time at which it is dropped. */
  datatype Stored = Stored(level: Level, expiresAt: real)

  /** One request: the caller's clock, which the script is given, and the server's, which expires keys. */
  datatype Request = Request(now: real, serverNow: real)

  datatype Config = Config(capacity: real, refill: real)

  function Min(a: real, b: real): real {
    if a < b then a else b
  }

  /** Tokens refilled in a stretch of time. */
  function Refill(c: Config, elapsed: real): real {
    elapsed * c.refill
  }

  /** The level before a request takes its tokens. */
  function Refilled(c: Config, key: Option<Level>, now: real): real {
    match key
    case None => c.capacity
    case Some(l) => Min(c.capacity, l.tokens + Refill(c, now - l.last))
  }

  /** The new hash and whether the request is granted. */
  function Take(c: Config, key: Option<Level>, now: real, cost: real): (Level, bool) {
    var tokens := Refilled(c, key, now);
    if tokens < cost then (Level(tokens, now), false) else (Level(tokens - cost, now), true)
  }

  /** The hash as the script finds it. */
  function Live(key: Option<Stored>, serverNow: real): Option<Level> {
    if key.Some? && serverNow < key.value.expiresAt then Some(key.value.level) else None
  }

  /** One evaluation: the new key and the reply. */
  function Script(c: Config, key: Option<Stored>, r: Request, cost: real): (Stored, bool) {
    var (level, granted) := Take(c, Live(key, r.serverNow), r.now, cost);
    (Stored(level, r.serverNow + KEY_TTL), granted)
  }

  class BucketKey {
    var key: Option<Stored>

    constructor ()
      ensures key == None
    {
      key := None;
    }

    /** One evaluation of the script: 1 or 0 as a boolean. */
    method Evaluate(c: Config, r: Request, cost: real) returns (granted: bool)
      modifies this
      ensures key == Some(Script(c, old(key), r, cost).0)
      ensures granted == Script(c, old(key), r, cost).1
      ensures key.value.level.last == r.now && key.value.expiresAt == r.serverNow + 3600.0
    {
      var tokens, last := c.capacity, r.now;
      if key.Some? && r.serverNow < key.value.expiresAt {
        tokens, last := key.value.level.tokens, key.value.level.last;
      }
      var elapsed := r.now - last;
      var delta := elapsed * c.refill;
      assert delta == Refill(c, elapsed);
      NoTimeNoRefill(c);
      tokens := Min(c.capacity, tokens + delta);
      assert tokens == Refilled(c, Live(key, r.serverNow), r.now);
      granted := tokens >= cost;
      if granted {
        tokens := tokens - cost;
      }
      key := Some(Stored(Level(tokens, r.now), r.serverNow + KEY_TTL));
    }
  }

  // ----- Runs of unit-cost requests -----

  function Run(c: Config, key: Option<Stored>, rs: seq<Request>): Option<Stored>
    decreases |rs|
  {
    if rs == [] then key else Run(c, Some(Script(c, key, rs[0], 1.0).0), rs[1..])
  }

  function Grants(c: Config, key: Option<Stored>, rs: seq<Request>): nat
    decreases |rs|
  {
    if rs == [] then 0
    else
      var (s, granted) := Script(c, key, rs[0], 1.0);
      (if granted then 1 else 0) + Grants(c, Some(s), rs[1..])
  }

  function LastGranted(c: Config, key: Option<Stored>, rs: seq<Request>): bool
    requires rs != []
    decreases |rs|
  {
    var (s, granted) := Script(c, key, rs[0], 1.0);
    if |rs| == 1 then granted else LastGranted(c, Some(s), rs[1..])
  }

  /** Capacity plus what the caller's clock refills between the first and the last request. */
  function Allowance(c: Config, rs: seq<Request>): real
    requires rs != []
  {
    c.capacity + Refill(c, rs[|rs| - 1].now - rs[0].now)
  }

  lemma RefillAdd(c: Config, x: real, y: real)
    ensures Refill(c, x + y) == Refill(c, x) + Refill(c, y)
  {
  }

  /** The script finds no more than was stored plus the refill since; an expired key may break this. */
  ghost predicate Pays(c: Config, s: Stored, r: Request) {
    Refilled(c, Live(Some(s), r.serverNow), r.now) <= s.level.tokens + Refill(c, r.now - s.level.last)
  }

  ghost predicate PaysThroughout(c: Config, s: Stored, rs: seq<Request>)
    decreases |rs|
  {
    rs != [] ==> Pays(c, s, rs[0]) && PaysThroughout(c, Script(c, Some(s), rs[0], 1.0).0, rs[1..])
  }

  /** Each request then pays for its grant out of the level: what was there plus the refill since. */
  lemma {:induction false} GrantsPaid(c: Config, s: Stored, rs: seq<Request>)
    requires PaysThroughout(c, s, rs)
    ensures var end := Run(c, Some(s), rs);
      end.Some? && (if rs == [] then end == Some(s) else end.value.level.last == rs[|rs| - 1].now)
      && Grants(c, Some(s), rs) as real + end.value.level.tokens
           <= s.level.tokens + Refill(c, end.value.level.last - s.level.last)
    decreases |rs|
  {
    if rs != [] {
      var s' := Script(c, Some(s), rs[0], 1.0).0;
      GrantsPaid(c, s', rs[1..]);
      var end := Run(c, Some(s), rs).value;
      RefillAdd(c, end.level.last - s'.level.last, s'.level.last - s.level.last);
    }
  }

  /** A paid run that leaves no debt stays within its allowance. */
  lemma PaidBound(c: Config, key: Option<Stored>, rs: seq<Request>)
    requires rs != [] && PaysThroughout(c, Script(c, key, rs[0], 1.0).0, rs[1..])
    requires Run(c, key, rs).Some? && Run(c, key, rs).value.level.tokens >= 0.0
    ensures Grants(c, key, rs) as real <= Allowance(c, rs)
  {
    var s := Script(c, key, rs[0], 1.0).0;
    GrantsPaid(c, s, rs[1..]);
    var end := Run(c, Some(s), rs[1..]).value;
    assert end.level.last == rs[|rs| - 1].now && s.level.last == rs[0].now;
  }

  // ----- Any two clocks -----

  /** The server sees no longer pause than d between consecutive requests. */
  ghost predicate IdleAtMost(rs: seq<Request>, d: real) {
    forall n :: 0 < n < |rs| ==> rs[n].serverNow - rs[n - 1].serverNow <= d
  }

  lemma {:induction false} KeptKeyPays(c: Config, key: Option<Stored>, rs: seq<Request>, d: real)
    requires rs != [] && IdleAtMost(rs, d) && d < KEY_TTL
    ensures PaysThroughout(c, Script(c, key, rs[0], 1.0).0, rs[1..])
    decreases |rs|
  {
    if |rs| > 1 {
      assert rs[1].serverNow - rs[0].serverNow <= d;
      KeptKeyPays(c, Some(Script(c, key, rs[0], 1.0).0), rs[1..], d);
    }
  }

  lemma {:induction false} LastGrantLeavesLevel(c: Config, key: Option<Stored>, rs: seq<Request>)
    requires rs != [] && LastGranted(c, key, rs)
    ensures Run(c, key, rs).Some? && Run(c, key, rs).value.level.tokens >= 0.0
    decreases |rs|
  {
    if |rs| > 1 {
      LastGrantLeavesLevel(c, Some(Script(c, key, rs[0], 1.0).0), rs[1..]);
    } else {
      assert rs[1..] == [];
    }
  }

  /**
   While the key is kept alive, there are at most capacity plus refill times
   elapsed grants from any request up to a later granted one, both included;
   the callers' clock may jump either way.
   */
  lemma WindowBound(c: Config, key: Option<Stored>, rs: seq<Request>, d: real)
    requires rs != [] && LastGranted(c, key, rs)
    requires IdleAtMost(rs, d) && d < KEY_TTL
    ensures Grants(c, key, rs) as real <= Allowance(c, rs)
  {
    KeptKeyPays(c, key, rs, d);
    LastGrantLeavesLevel(c, key, rs);
    PaidBound(c, key, rs);
  }

  lemma {:induction false} SmallBucketGrantsNothing(c: Config, key: Option<Stored>, rs: seq<Request>)
    requires c.capacity < 1.0
    ensures Grants(c, key, rs) == 0 && (rs != [] ==> !LastGranted(c, key, rs))
    decreases |rs|
  {
    if rs != [] {
      SmallBucketGrantsNothing(c, Some(Script(c, key, rs[0], 1.0).0), rs[1..]);
    }
  }

  /**
   With callers' clocks that may jump, the bound holds of all runs whose pauses
   are at most d exactly when no such pause outlives the key, or no request can
   be granted at all.
   */
  lemma JumpingClockBoundIff(c: Config, d: real)
    ensures d < KEY_TTL || c.capacity < 1.0 <==>
      (forall key, rs :: rs != [] && IdleAtMost(rs, d) && LastGranted(c, key, rs) ==>
         Grants(c, key, rs) as real <= Allowance(c, rs))
  {
    if d < KEY_TTL || c.capacity < 1.0 {
      forall key, rs | rs != [] && IdleAtMost(rs, d) && LastGranted(c, key, rs)
        ensures Grants(c, key, rs) as real <= Allowance(c, rs)
      {
        if c.capacity < 1.0 {
          SmallBucketGrantsNothing(c, key, rs);
        } else {
          WindowBound(c, key, rs, d);
        }
      }
    } else {
      var key, rs := StoppedClock(c, d);
    }
  }

  /** The caller's clock stands still while the server drops the key: two full buckets at one instant. */
  lemma StoppedClock(c: Config, d: real) returns (key: Option<Stored>, rs: seq<Request>)
    requires d >= KEY_TTL && c.capacity >= 1.0
    ensures rs != [] && IdleAtMost(rs, d) && LastGranted(c, key, rs)
    ensures Grants(c, key, rs) as real > Allowance(c, rs)
  {
    var f := c.capacity.Floor;
    var early, late := Request(0.0, 0.0), Request(0.0, KEY_TTL);
    key := None;
    rs := Burst(early, f) + Burst(late, f);
    var left := BurstGranted(c, None, early, f, Burst(late, f));
    var left' := BurstGranted(c, Some(left), late, f, []);
    assert Burst(late, f) + [] == Burst(late, f);
  }

  // ----- Bursts -----

  function Burst(r: Request, n: nat): (rs: seq<Request>)
    ensures |rs| == n && forall k :: 0 <= k < n ==> rs[k] == r
  {
    seq(n, _ => r)
  }

  lemma BurstNext(r: Request, n: nat, rest: seq<Request>)
    requires n > 0
    ensures (Burst(r, n) + rest)[0] == r && (Burst(r, n) + rest)[1..] == Burst(r, n - 1) + rest
  {
  }

  /** The next request at the same instant finds one token less. */
  lemma SameInstant(c: Config, key: Option<Stored>, r: Request)
    requires Refilled(c, Live(key, r.serverNow), r.now) >= 1.0
    ensures var (s, granted) := Script(c, key, r, 1.0);
      && granted && s == Stored(Level(Refilled(c, Live(key, r.serverNow), r.now) - 1.0, r.now), r.serverNow + KEY_TTL)
      && Refilled(c, Live(Some(s), r.serverNow), r.now) == s.level.tokens
  {
    NoTimeNoRefill(c);
    assert r.now - r.now == 0.0;
  }

  /** n requests at one instant are granted out of a level of n or more. */
  lemma {:induction false} BurstGranted(c: Config, key: Option<Stored>, r: Request, n: nat, rest: seq<Request>) returns (left: Stored)
    requires Refilled(c, Live(key, r.serverNow), r.now) >= n as real && n > 0
    ensures Grants(c, key, Burst(r, n) + rest) == n + Grants(c, Some(left), rest)
    ensures left == Stored(Level(Refilled(c, Live(key, r.serverNow), r.now) - n as real, r.now), r.serverNow + KEY_TTL)
    ensures LastGranted(c, key, Burst(r, n) + rest) == if rest == [] then true else LastGranted(c, Some(left), rest)
    decreases n
  {
    BurstNext(r, n, rest);
    SameInstant(c, key, r);
    left := Script(c, key, r, 1.0).0;
    if n > 1 {
      left := BurstGranted(c, Some(left), r, n - 1, rest);
    } else {
      assert Burst(r, 0) + rest == rest;
    }
  }

  // ----- With a clock that does not go back -----

  ghost predicate Nondecreasing(rs: seq<Request>) {
    forall n :: 0 < n < |rs| ==> rs[n - 1].now <= rs[n].now
  }

  ghost predicate InRange(c: Config, l: Level) {
    0.0 <= l.tokens <= c.capacity
  }

  ghost predicate Sane(c: Config) {
    c.capacity >= 0.0 && c.refill >= 0.0
  }

  /** A key that earlier requests can have left behind. */
  ghost predicate LeftBehind(c: Config, key: Option<Stored>, rs: seq<Request>) {
    key.Some? ==> InRange(c, key.value.level) && (rs != [] ==> key.value.level.last <= rs[0].now)
  }

  lemma RefillInRange(c: Config, l: Level, now: real)
    requires Sane(c) && InRange(c, l) && l.last <= now
    ensures l.tokens <= Refilled(c, Some(l), now) <= c.capacity
  {
    RefillNonNegative(c, now - l.last);
  }

  lemma StepInRange(c: Config, key: Option<Stored>, rs: seq<Request>)
    requires rs != [] && Sane(c) && LeftBehind(c, key, rs) && Nondecreasing(rs)
    ensures LeftBehind(c, Some(Script(c, key, rs[0], 1.0).0), rs[1..]) && Nondecreasing(rs[1..])
  {
    if key.Some? {
      RefillInRange(c, key.value.level, rs[0].now);
    }
    assert |rs| > 1 ==> rs[0].now <= rs[1].now;
  }

  /** The level stays between empty and full, whatever the server's clock does. */
  lemma {:induction false} LevelStaysInRange(c: Config, key: Option<Stored>, rs: seq<Request>)
    requires Sane(c) && LeftBehind(c, key, rs) && Nondecreasing(rs)
    ensures Run(c, key, rs).Some? ==> InRange(c, Run(c, key, rs).value.level)
    ensures rs != [] ==> Run(c, key, rs).Some?
    decreases |rs|
  {
    if rs != [] {
      StepInRange(c, key, rs);
      LevelStaysInRange(c, Some(Script(c, key, rs[0], 1.0).0), rs[1..]);
    }
  }

  /** Consecutive requests at least one token's refill time apart. */
  ghost predicate Spaced(c: Config, rs: seq<Request>) {
    forall n :: 0 < n < |rs| ==> Refill(c, rs[n].now - rs[n - 1].now) >= 1.0
  }

  lemma {:induction false} SpacedAllGranted(c: Config, key: Option<Stored>, rs: seq<Request>)
    requires c.capacity >= 1.0 && Spaced(c, rs)
    requires key.Some? ==> InRange(c, key.value.level)
    requires key.Some? && rs != [] ==> Refill(c, rs[0].now - key.value.level.last) >= 1.0
    ensures Grants(c, key, rs) == |rs|
    decreases |rs|
  {
    if rs != [] {
      assert |rs| > 1 ==> Refill(c, rs[1].now - rs[0].now) >= 1.0;
      SpacedAllGranted(c, Some(Script(c, key, rs[0], 1.0).0), rs[1..]);
    }
  }

  /** A caller that keeps to the refill rate is never refused, exactly when the bucket holds at least one token. */
  lemma SpacedNeverRefusedIff(c: Config)
    ensures c.capacity >= 1.0 <==> (forall rs :: Spaced(c, rs) ==> Grants(c, None, rs) == |rs|)
  {
    if c.capacity >= 1.0 {
      forall rs | Spaced(c, rs)
        ensures Grants(c, None, rs) == |rs|
      {
        SpacedAllGranted(c, None, rs);
      }
    } else {
      var rs := [Request(0.0, 0.0)];
      SmallBucketGrantsNothing(c, None, rs);
      assert Spaced(c, rs) && Grants(c, None, rs) != |rs|;
    }
  }

  // ----- Expiry of the key -----

  /** Callers and server share one clock, and it does not go back. */
  ghost predicate OneClock(rs: seq<Request>) {
    Nondecreasing(rs) && forall n :: 0 <= n < |rs| ==> rs[n].serverNow == rs[n].now
  }

  lemma RefilledAfterExpiry(c: Config, l: Level, now: real)
    requires Sane(c) && InRange(c, l) && now >= l.last + KEY_TTL && Refill(c, KEY_TTL) >= c.capacity
    ensures Refilled(c, Some(l), now) == c.capacity
  {
    RefillAdd(c, now - l.last - KEY_TTL, KEY_TTL);
    RefillNonNegative(c, now - l.last - KEY_TTL);
  }

  /** Losing an idle key shows in no level read from it exactly when one key lifetime refills the whole bucket. */
  lemma ExpiryUnobservableIff(c: Config)
    requires Sane(c)
    ensures Refill(c, KEY_TTL) >= c.capacity <==>
      (forall l, now :: InRange(c, l) && now >= l.last + KEY_TTL ==> Refilled(c, Some(l), now) == Refilled(c, None, now))
  {
    if Refill(c, KEY_TTL) >= c.capacity {
      forall l, now | InRange(c, l) && now >= l.last + KEY_TTL
        ensures Refilled(c, Some(l), now) == Refilled(c, None, now)
      {
        RefilledAfterExpiry(c, l, now);
      }
    } else {
      var l := Level(0.0, 0.0);
      assert InRange(c, l) && Refilled(c, Some(l), KEY_TTL) != Refilled(c, None, KEY_TTL);
    }
  }

  /** When a key lifetime refills the bucket, an expired key holds nothing the refill had not given back. */
  lemma {:induction false} RefillPays(c: Config, key: Option<Stored>, rs: seq<Request>)
    requires Sane(c) && Refill(c, KEY_TTL) >= c.capacity && rs != [] && OneClock(rs) && LeftBehind(c, key, rs)
    ensures PaysThroughout(c, Script(c, key, rs[0], 1.0).0, rs[1..])
    decreases |rs|
  {
    StepInRange(c, key, rs);
    if |rs| > 1 {
      var s := Script(c, key, rs[0], 1.0).0;
      if rs[1].now >= s.level.last + KEY_TTL {
        RefilledAfterExpiry(c, s.level, rs[1].now);
      }
      RefillPays(c, Some(s), rs[1..]);
    }
  }

  /**
   On one clock, the bound holds of every run exactly when one key lifetime
   refills the whole bucket, or no request can be granted at all.
   */
  lemma OneClockBoundIff(c: Config)
    requires Sane(c)
    ensures c.capacity < 1.0 || Refill(c, KEY_TTL) >= c.capacity <==>
      (forall key, rs :: rs != [] && OneClock(rs) && LeftBehind(c, key, rs) ==>
         Grants(c, key, rs) as real <= Allowance(c, rs))
  {
    if c.capacity < 1.0 || Refill(c, KEY_TTL) >= c.capacity {
      forall key, rs | rs != [] && OneClock(rs) && LeftBehind(c, key, rs)
        ensures Grants(c, key, rs) as real <= Allowance(c, rs)
      {
        OneClockBound(c, key, rs);
      }
    } else {
      var rs := BurstsAroundExpiry(c);
      assert LeftBehind(c, None, rs);
    }
  }

  lemma OneClockBound(c: Config, key: Option<Stored>, rs: seq<Request>)
    requires Sane(c) && rs != [] && OneClock(rs) && LeftBehind(c, key, rs)
    requires c.capacity < 1.0 || Refill(c, KEY_TTL) >= c.capacity
    ensures Grants(c, key, rs) as real <= Allowance(c, rs)
  {
    if c.capacity < 1.0 {
      SmallBucketGrantsNothing(c, key, rs);
      NondecreasingEnds(rs, |rs| - 1);
      RefillNonNegative(c, rs[|rs| - 1].now - rs[0].now);
    } else {
      RefillPays(c, key, rs);
      LevelStaysInRange(c, key, rs);
      PaidBound(c, key, rs);
    }
  }

  lemma {:induction false} NondecreasingEnds(rs: seq<Request>, n: nat)
    requires Nondecreasing(rs) && n < |rs|
    ensures rs[0].now <= rs[n].now
  {
    if n > 0 {
      NondecreasingEnds(rs, n - 1);
    }
  }

  function At(t: real): Request {
    Request(t, t)
  }

  /** A run over the bound for a bucket that outlasts its key. */
  lemma BurstsAroundExpiry(c: Config) returns (rs: seq<Request>)
    requires Sane(c) && c.capacity >= 1.0 && Refill(c, KEY_TTL) < c.capacity
    ensures rs != [] && OneClock(rs) && Grants(c, None, rs) as real > Allowance(c, rs)
  {
    var n := -(-c.capacity).Floor;
    if n as real - c.capacity < Refill(c, KEY_TTL) {
      rs := TwoBursts(c, n);
    } else {
      rs := ThreeBursts(c);
    }
  }

  function ThreeTimes(f: nat): (rs: seq<Request>)
    ensures OneClock(rs) && |rs| == 3 * f
    ensures f > 0 ==> rs[0] == At(0.0) && rs[|rs| - 1] == At(2.0 * KEY_TTL)
  {
    Burst(At(0.0), f) + (Burst(At(KEY_TTL), f) + Burst(At(2.0 * KEY_TTL), f))
  }

  /** Three buckets of whole tokens, one key lifetime apart. */
  lemma ThreeBursts(c: Config) returns (rs: seq<Request>)
    requires Sane(c) && c.capacity >= 1.0
    requires Refill(c, KEY_TTL) <= (-(-c.capacity).Floor) as real - c.capacity
    ensures rs != [] && OneClock(rs) && Grants(c, None, rs) as real > Allowance(c, rs)
  {
    var f := c.capacity.Floor;
    rs := ThreeTimes(f);
    assert Grants(c, None, rs) == 3 * f by {
      var third := Burst(At(2.0 * KEY_TTL), f);
      var second := Burst(At(KEY_TTL), f) + third;
      var left := BurstGranted(c, None, At(0.0), f, second);
      left := BurstGranted(c, Some(left), At(KEY_TTL), f, third);
      left := BurstGranted(c, Some(left), At(2.0 * KEY_TTL), f, []);
      assert third + [] == third;
    }
    RefillAdd(c, KEY_TTL, KEY_TTL);
  }

  /**
   The bucket is spent to the last fraction of a token: all but one of its n
   grants at once, the last one as soon as it is refilled.
   */
  lemma SpendAll(c: Config, key: Option<Stored>, t: real, n: nat, w: real, rest: seq<Request>) returns (left: Stored)
    requires Live(key, t).None? && 1.0 <= c.capacity <= n as real < c.capacity + 1.0
    requires 0.0 <= w < KEY_TTL && Refill(c, w) == n as real - c.capacity
    ensures Grants(c, key, Burst(At(t), n - 1) + [At(t + w)] + rest) == n + Grants(c, Some(left), rest)
    ensures left == Stored(Level(0.0, t + w), t + w + KEY_TTL)
  {
    var later := [At(t + w)] + rest;
    assert Burst(At(t), n - 1) + [At(t + w)] + rest == Burst(At(t), n - 1) + later;
    var key' := key;
    if n > 1 {
      left := BurstGranted(c, key, At(t), n - 1, later);
      key' := Some(left);
    } else {
      assert Burst(At(t), n - 1) + later == later;
    }
    assert later[0] == At(t + w) && later[1..] == rest;
    left := Script(c, key', At(t + w), 1.0).0;
  }

  lemma TwoBursts(c: Config, n: nat) returns (rs: seq<Request>)
    requires Sane(c) && 1.0 <= c.capacity <= n as real < c.capacity + 1.0
    requires n as real - c.capacity < Refill(c, KEY_TTL) < c.capacity
    ensures rs != [] && OneClock(rs) && Grants(c, None, rs) as real > Allowance(c, rs)
  {
    var w := WaitFor(c, n as real - c.capacity);
    var t := w + KEY_TTL;
    var second := Burst(At(t), n - 1) + [At(t + w)];
    rs := Burst(At(0.0), n - 1) + [At(0.0 + w)] + second;
    assert Grants(c, None, rs) == n + n by {
      var left := SpendAll(c, None, 0.0, n, w, second);
      assert second + [] == second;
      left := SpendAll(c, Some(left), t, n, w, []);
    }
    TwoSpends(n, w, t);
    RefillAdd(c, w, w);
    RefillAdd(c, w + w, KEY_TTL);
  }

  lemma TwoSpends(n: nat, w: real, t: real)
    requires n > 0 && 0.0 <= w <= t
    ensures var rs := Burst(At(0.0), n - 1) + [At(0.0 + w)] + (Burst(At(t), n - 1) + [At(t + w)]);
      OneClock(rs) && rs[|rs| - 1].now == t + w && (rs[0].now == 0.0 || rs[0].now == w)
  {
  }

  /** The time in which a share of a key lifetime's refill comes in. */
  lemma WaitFor(c: Config, tokens: real) returns (w: real)
    requires 0.0 <= tokens < Refill(c, KEY_TTL) && Sane(c)
    ensures 0.0 <= w < KEY_TTL && Refill(c, w) == tokens
  {
    w := tokens / c.refill;
    assert w * c.refill == tokens;
    if w >= KEY_TTL {
      RefillNonNegative(c, w - KEY_TTL);
    }
    RefillAdd(c, w - KEY_TTL, KEY_TTL);
  }

  /** The same requests as a server with a stopped clock sees them: no key ever expires. */
  function Everlasting(rs: seq<Request>): seq<Request> {
    seq(|rs|, n requires 0 <= n < |rs| => Request(rs[n].now, 0.0))
  }

  lemma {:induction false} ExpiryKeepsGrants(c: Config, key: Option<Stored>, ever: Option<Stored>, rs: seq<Request>)
    requires Sane(c) && Refill(c, KEY_TTL) >= c.capacity && OneClock(rs) && LeftBehind(c, key, rs)
    requires key.Some? <==> ever.Some?
    requires key.Some? ==> key.value == Stored(ever.value.level, key.value.level.last + KEY_TTL) && ever.value.expiresAt > 0.0
    ensures Grants(c, key, rs) == Grants(c, ever, Everlasting(rs))
    decreases |rs|
  {
    if rs != [] {
      if key.Some? && rs[0].now >= key.value.expiresAt {
        RefilledAfterExpiry(c, key.value.level, rs[0].now);
      }
      StepInRange(c, key, rs);
      var r := Request(rs[0].now, 0.0);
      assert Everlasting(rs)[0] == r && Everlasting(rs)[1..] == Everlasting(rs[1..]);
      ExpiryKeepsGrants(c, Some(Script(c, key, rs[0], 1.0).0), Some(Script(c, ever, r, 1.0).0), rs[1..]);
    }
  }

  /** On one clock, the expiring key grants what an everlasting one would exactly when the bound holds. */
  lemma ExpiryKeepsGrantsIff(c: Config)
    requires Sane(c)
    ensures c.capacity < 1.0 || Refill(c, KEY_TTL) >= c.capacity <==>
      (forall rs :: OneClock(rs) ==> Grants(c, None, rs) == Grants(c, None, Everlasting(rs)))
  {
    if c.capacity < 1.0 || Refill(c, KEY_TTL) >= c.capacity {
      forall rs | OneClock(rs)
        ensures Grants(c, None, rs) == Grants(c, None, Everlasting(rs))
      {
        if c.capacity < 1.0 {
          SmallBucketGrantsNothing(c, None, rs);
          SmallBucketGrantsNothing(c, None, Everlasting(rs));
        } else {
          ExpiryKeepsGrants(c, None, None, rs);
        }
      }
    } else {
      var rs := BurstsAroundExpiry(c);
      var ever := Everlasting(rs);
      KeptKeyPays(c, None, ever, 0.0);
      LevelStaysInRange(c, None, ever);
      PaidBound(c, None, ever);
      assert Allowance(c, ever) == Allowance(c, rs);
    }
  }

  // ----- Refused requests -----

  /** The requests of a run that are granted. */
  function Granted(c: Config, key: Option<Stored>, rs: seq<Request>): seq<Request>
    decreases |rs|
  {
    if rs == [] then []
    else
      var (s, granted) := Script(c, key, rs[0], 1.0);
      (if granted then [rs[0]] else []) + Granted(c, Some(s), rs[1..])
  }

  /** The level a request at time t would find, on one clock. */
  function Seen(c: Config, key: Option<Stored>, t: real): real {
    Refilled(c, Live(key, t), t)
  }

  /** A key that requests on one clock up to time t can have left. */
  ghost predicate OnTime(c: Config, key: Option<Stored>, t: real) {
    key.Some? ==>
      InRange(c, key.value.level) && key.value.level.last <= t && key.value.expiresAt == key.value.level.last + KEY_TTL
  }

  /** What is seen later is what is seen now plus the refill, up to the capacity. */
  lemma SeenLater(c: Config, key: Option<Stored>, t: real, u: real)
    requires Sane(c) && Refill(c, KEY_TTL) >= c.capacity && OnTime(c, key, t) && t <= u
    ensures Seen(c, key, u) == Min(c.capacity, Seen(c, key, t) + Refill(c, u - t))
    ensures 0.0 <= Seen(c, key, t) <= c.capacity
  {
    RefillNonNegative(c, u - t);
    if key.Some? {
      var l := key.value.level;
      RefillNonNegative(c, t - l.last);
      RefillAdd(c, u - t, t - l.last);
      assert u - t + (t - l.last) == u - l.last;
      if t >= l.last + KEY_TTL {
        RefilledAfterExpiry(c, l, t);
      }
      if u >= l.last + KEY_TTL {
        RefilledAfterExpiry(c, l, u);
      }
    }
  }

  ghost predicate Alike(c: Config, key: Option<Stored>, other: Option<Stored>, t: real) {
    OnTime(c, key, t) && OnTime(c, other, t) && Seen(c, key, t) == Seen(c, other, t)
  }

  lemma StayAlike(c: Config, key: Option<Stored>, other: Option<Stored>, t: real, u: real)
    requires Sane(c) && Refill(c, KEY_TTL) >= c.capacity && Alike(c, key, other, t) && t <= u
    ensures Alike(c, key, other, u) && 0.0 <= Seen(c, key, u) <= c.capacity
  {
    SeenLater(c, key, t, u);
    SeenLater(c, other, t, u);
    RefillNonNegative(c, u - t);
  }

  /** A granted request leaves alike keys equal, and a refused one alike to the key it found. */
  lemma RequestOnAlike(c: Config, key: Option<Stored>, other: Option<Stored>, r: Request)
    requires Sane(c) && Alike(c, key, other, r.now) && r.serverNow == r.now && 0.0 <= Seen(c, key, r.now) <= c.capacity
    ensures var (s, granted) := Script(c, key, r, 1.0);
      if granted then Script(c, other, r, 1.0) == (s, true) && Alike(c, Some(s), Some(s), r.now)
      else Alike(c, Some(s), other, r.now)
  {
    NoTimeNoRefill(c);
    assert r.now - r.now == 0.0;
  }

  ghost predicate Between(t: real, rs: seq<Request>, u: real) {
    if rs == [] then t <= u else t <= rs[0].now && rs[|rs| - 1].now <= u
  }

  lemma {:induction false} WithoutRefusals(c: Config, key: Option<Stored>, other: Option<Stored>, rs: seq<Request>,
                                           t: real, u: real)
    requires Sane(c) && Refill(c, KEY_TTL) >= c.capacity && OneClock(rs) && Alike(c, key, other, t)
    requires Between(t, rs, u)
    ensures Grants(c, other, Granted(c, key, rs)) == |Granted(c, key, rs)| == Grants(c, key, rs)
    ensures Alike(c, Run(c, key, rs), Run(c, other, Granted(c, key, rs)), u)
    decreases |rs|
  {
    if rs == [] {
      StayAlike(c, key, other, t, u);
    } else {
      var r := rs[0];
      var (s, granted) := Script(c, key, r, 1.0);
      StayAlike(c, key, other, t, r.now);
      RequestOnAlike(c, key, other, r);
      var rest := Granted(c, Some(s), rs[1..]);
      assert rs == [r] + rs[1..];
      if granted {
        WithoutRefusals(c, Some(s), Some(s), rs[1..], r.now, u);
        assert Granted(c, key, rs) == [r] + rest;
      } else {
        WithoutRefusals(c, Some(s), other, rs[1..], r.now, u);
        assert Granted(c, key, rs) == [] + rest == rest;
      }
    }
  }

  /** Without its refused requests a run still gets the others granted, and whoever comes later finds the same level. */
  ghost predicate NoTrace(c: Config, key: Option<Stored>, rs: seq<Request>, u: real) {
    && Grants(c, key, Granted(c, key, rs)) == |Granted(c, key, rs)| == Grants(c, key, rs)
    && Seen(c, Run(c, key, Granted(c, key, rs)), u) == Seen(c, Run(c, key, rs), u)
  }

  /** On one clock, refused requests leave no trace exactly when one key lifetime refills the whole bucket. */
  lemma RefusalsLeaveNoTraceIff(c: Config)
    requires Sane(c)
    ensures Refill(c, KEY_TTL) >= c.capacity <==>
      (forall key, rs, t, u :: OneClock(rs) && OnTime(c, key, t) && Between(t, rs, u) ==> NoTrace(c, key, rs, u))
  {
    if Refill(c, KEY_TTL) >= c.capacity {
      forall key, rs, t, u | OneClock(rs) && OnTime(c, key, t) && Between(t, rs, u)
        ensures NoTrace(c, key, rs, u)
      {
        WithoutRefusals(c, key, key, rs, t, u);
      }
    } else {
      var key, rs := RenewedByRefusal(c);
      assert Between(0.0, rs, KEY_TTL);
    }
  }

  /** A time in which less than one token comes in. */
  lemma LessThanOneToken(c: Config) returns (w: real)
    requires c.refill >= 0.0
    ensures 0.0 < w <= 1.0 && Refill(c, w) < 1.0
  {
    w := 1.0 / (1.0 + c.refill);
    assert w * (1.0 + c.refill) == 1.0;
    RefillNonNegative(c, w);
  }

  lemma OneRefused(c: Config, key: Option<Stored>, r: Request)
    requires !Script(c, key, r, 1.0).1
    ensures Run(c, key, [r]) == Some(Script(c, key, r, 1.0).0) && Granted(c, key, [r]) == []
  {
    assert [r][1..] == [];
  }

  /** A refused request renews an empty bucket's key, which would otherwise have been dropped and started full. */
  lemma RenewedByRefusal(c: Config) returns (key: Option<Stored>, rs: seq<Request>)
    requires Sane(c) && Refill(c, KEY_TTL) < c.capacity
    ensures OneClock(rs) && OnTime(c, key, 0.0) && rs != [] && 0.0 <= rs[0].now && rs[|rs| - 1].now <= KEY_TTL
    ensures !NoTrace(c, key, rs, KEY_TTL)
  {
    var w := LessThanOneToken(c);
    key, rs := Some(Stored(Level(0.0, 0.0), KEY_TTL)), [At(w)];
    RefillAdd(c, KEY_TTL - w, w);
    RefillNonNegative(c, w);
    RefillNonNegative(c, KEY_TTL - w);
    assert w - 0.0 == w && KEY_TTL - w + w == KEY_TTL;
    assert 0.0 <= Refill(c, w) <= Refill(c, KEY_TTL) < c.capacity;
    assert Refilled(c, Live(key, w), w) == Refill(c, w);
    var s := Stored(Level(Refill(c, w), w), w + KEY_TTL);
    assert Script(c, key, rs[0], 1.0) == (s, false);
    OneRefused(c, key, rs[0]);
    assert Seen(c, Some(s), KEY_TTL) == Min(c.capacity, Refill(c, w) + Refill(c, KEY_TTL - w)) < c.capacity;
    assert Seen(c, key, KEY_TTL) == c.capacity;
  }
}
