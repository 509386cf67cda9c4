/**
 Keys with expiry, as the shared store offers them: set-if-absent markers and
 counters whose window starts with their first increment.  Time is in seconds.
 */
module KeyStore {
  import opened Basics

  datatype Entry = Entry(count: int, expiresAt: Option<int>)

  function Live(key: Option<Entry>, now: int): Option<Entry> {
    match key
    case Some(Entry(_, Some(e))) => if now < e then key else None
    case _ => key
  }

  function Lookup(keys: map<string, Entry>, key: string): Option<Entry> {
    if key in keys then Some(keys[key]) else None
  }

  /** SET NX EX: set the key if it is not live, and say whether it was set. */
  function AfterSetNx(keys: map<string, Entry>, key: string, ttl: int, now: int): (map<string, Entry>, bool) {
    if Live(Lookup(keys, key), now).None? then (keys[key := Entry(1, Some(now + ttl))], true) else (keys, false)
  }

  /** INCR, then EXPIRE only if the key has no expiry; a non-positive window deletes the key at once. */
  function AfterIncr(key: Option<Entry>, window: int, now: int): (Option<Entry>, int) {
    var entry := match Live(key, now) case Some(e) => e.(count := e.count + 1) case None => Entry(1, None);
    if entry.expiresAt.Some? then (Some(entry), entry.count)
    else if window <= 0 then (None, entry.count)
    else (Some(entry.(expiresAt := Some(now + window))), entry.count)
  }

  /** The iat check of a proof. */
  predicate InSkew(now: int, iat: int, skew: int) {
    -skew <= now - iat <= skew
  }

  function OneShotTtl(exp: int, now: int): int {
    if exp - now > 1 then exp - now else 1
  }

  class Store {
    var keys: map<string, Entry>

    constructor ()
      ensures keys == map[]
    {
      keys := map[];
    }

    /** SET key 1 NX EX ttl */
    method SetNxWithTtl(key: string, ttl: int, now: int) returns (ok: bool)
      requires ttl >= 1
      modifies this
      ensures (keys, ok) == AfterSetNx(old(keys), key, ttl, now)
    {
      ok := Live(Lookup(keys, key), now).None?;
      if ok {
        keys := keys[key := Entry(1, Some(now + ttl))];
      }
    }

    method IncrWithWindow(key: string, window: int, limit: int, now: int) returns (count: int, allowed: bool)
      modifies this
      ensures (Lookup(keys, key), count) == AfterIncr(Lookup(old(keys), key), window, now)
      ensures keys - {key} == old(keys) - {key}
      ensures allowed <==> count <= limit
    {
      var live := Live(Lookup(keys, key), now);
      count := if live.Some? then live.value.count + 1 else 1;
      var expiry := if live.Some? then live.value.expiresAt else None;
      if expiry.None? && window <= 0 {
        keys := keys - {key};
      } else {
        keys := keys[key := Entry(count, if expiry.Some? then expiry else Some(now + window))];
      }
      allowed := count <= limit;
    }

    /** The replay part of proof verification: the skew check, then the jti marker. */
    method VerifyDpopJti(jti: string, iat: int, skew: int, ttl: int, now: int) returns (ok: bool)
      requires ttl >= 1
      modifies this
      ensures (keys, ok) ==
        if iat - skew <= now <= iat + skew then AfterSetNx(old(keys), "dpop:jti:" + jti, ttl, now) else (old(keys), false)
    {
      if !InSkew(now, iat, skew) {
        return false;
      }
      ok := SetNxWithTtl("dpop:jti:" + jti, ttl, now);
    }

    /** false stands for the replay error. */
    method ConsumeOneShot(jti: string, exp: int, now: int) returns (ok: bool)
      modifies this
      ensures (keys, ok) == AfterSetNx(old(keys), "jti:used:" + jti, if exp > now then exp - now else 1, now)
    {
      ok := SetNxWithTtl("jti:used:" + jti, OneShotTtl(exp, now), now);
    }
  }

  // ----- Markers over whole runs -----

  /** One set-if-absent command. */
  datatype Mark = Mark(key: string, ttl: int, at: int)

  ghost predicate InOrder(marks: seq<Mark>) {
    && (forall n :: 0 <= n < |marks| ==> marks[n].ttl >= 1)
    && (forall m, n :: 0 <= m < n < |marks| ==> marks[m].at <= marks[n].at)
  }

  ghost function KeysAfter(marks: seq<Mark>): map<string, Entry> {
    if marks == [] then map[]
    else
      var last := marks[|marks| - 1];
      AfterSetNx(KeysAfter(marks[..|marks| - 1]), last.key, last.ttl, last.at).0
  }

  /** Command n of the run found its key absent. */
  ghost predicate Accepted(marks: seq<Mark>, n: nat)
    requires n < |marks|
  {
    AfterSetNx(KeysAfter(marks[..n]), marks[n].key, marks[n].ttl, marks[n].at).1
  }

  lemma KeysAfterStep(marks: seq<Mark>, n: nat)
    requires n < |marks|
    ensures KeysAfter(marks[..n + 1]) ==
      if Accepted(marks, n) then KeysAfter(marks[..n])[marks[n].key := Entry(1, Some(marks[n].at + marks[n].ttl))]
      else KeysAfter(marks[..n])
  {
    assert marks[..n + 1][..n] == marks[..n];
  }

  /** The first use of a key always passes, whatever else was marked. */
  lemma FirstUsePasses(marks: seq<Mark>, n: nat)
    requires n < |marks| && forall m :: 0 <= m < n ==> marks[m].key != marks[n].key
    ensures Accepted(marks, n)
  {
    NeverMarked(marks[..n], marks[n].key);
  }

  lemma {:induction false} NeverMarked(marks: seq<Mark>, key: string)
    requires forall m :: 0 <= m < |marks| ==> marks[m].key != key
    ensures key !in KeysAfter(marks)
  {
    if marks != [] {
      NeverMarked(marks[..|marks| - 1], key);
    }
  }

  /** An accepted mark stays in the store until its time is up, whatever else happens. */
  lemma {:induction false} MarkStays(marks: seq<Mark>, m: nat, n: nat)
    requires InOrder(marks) && m < n < |marks| && Accepted(marks, m)
    requires marks[n].at < marks[m].at + marks[m].ttl
    ensures Lookup(KeysAfter(marks[..n]), marks[m].key) == Some(Entry(1, Some(marks[m].at + marks[m].ttl)))
  {
    if n == m + 1 {
      KeysAfterStep(marks, m);
    } else {
      MarkStays(marks, m, n - 1);
      KeysAfterStep(marks, n - 1);
    }
  }

  /** A key is accepted again only once the earlier mark has run out. */
  lemma SameKeyApart(marks: seq<Mark>, m: nat, n: nat)
    requires InOrder(marks) && m < n < |marks| && marks[m].key == marks[n].key
    requires Accepted(marks, m) && Accepted(marks, n)
    ensures marks[n].at >= marks[m].at + marks[m].ttl
  {
    if marks[n].at < marks[m].at + marks[m].ttl {
      MarkStays(marks, m, n);
    }
  }

  // ----- Proof replay -----

  /** Commands m and n of the run are two presentations of one proof, and both pass. */
  ghost predicate PassesTwice(marks: seq<Mark>, m: nat, n: nat, iat: int, skew: int, ttl: int) {
    && InOrder(marks) && m < n < |marks| && marks[m].key == marks[n].key && marks[m].ttl == ttl
    && Accepted(marks, m) && Accepted(marks, n)
    && InSkew(marks[m].at, iat, skew) && InSkew(marks[n].at, iat, skew)
  }

  /** A proof that passes twice was still in its iat window after the first marker had expired. */
  lemma ProofAcceptedTwice(marks: seq<Mark>, m: nat, n: nat, iat: int, skew: int, ttl: int)
    requires PassesTwice(marks, m, n, iat, skew, ttl)
    ensures marks[m].at + ttl <= marks[n].at <= iat + skew
    ensures ttl <= 2 * skew
  {
    SameKeyApart(marks, m, n);
  }

  ghost predicate Replayable(skew: int, ttl: int) {
    exists marks: seq<Mark>, m: nat, n: nat, iat :: PassesTwice(marks, m, n, iat, skew, ttl)
  }

  /** A proof passes at most once in every run exactly when the marker outlives the whole iat window. */
  lemma ReplayFreeIff(skew: int, ttl: int)
    requires ttl >= 1
    ensures !Replayable(skew, ttl) <==> ttl > 2 * skew
  {
    if Replayable(skew, ttl) {
      var marks: seq<Mark>, m: nat, n: nat, iat :| PassesTwice(marks, m, n, iat, skew, ttl);
      ProofAcceptedTwice(marks, m, n, iat, skew, ttl);
    }
    if ttl <= 2 * skew {
      var marks := [Mark("dpop:jti:j", ttl, 0), Mark("dpop:jti:j", ttl, ttl)];
      KeysAfterStep(marks, 0);
      assert marks[..0] == [];
      assert PassesTwice(marks, 0, 1, skew, skew, ttl);
    }
  }

  /** With the shipped 60 s skew and 120 s marker only a proof dated exactly 60 s ahead passes twice, at its last second. */
  lemma ShippedReplayCorner(marks: seq<Mark>, m: nat, n: nat, iat: int)
    requires PassesTwice(marks, m, n, iat, 60, 120)
    ensures iat == marks[m].at + 60 && marks[n].at == iat + 60
  {
    ProofAcceptedTwice(marks, m, n, iat, 60, 120);
  }

  // ----- One-shot tokens -----

  /** A token is consumed at most once before it expires: a second consumption comes at or after `exp`. */
  lemma OneShotBeforeExpiry(marks: seq<Mark>, m: nat, n: nat, exp: int)
    requires InOrder(marks) && m < n < |marks| && marks[m].key == marks[n].key
    requires marks[m].ttl == OneShotTtl(exp, marks[m].at) && Accepted(marks, m) && Accepted(marks, n)
    ensures marks[n].at >= exp && marks[n].at > marks[m].at
  {
    SameKeyApart(marks, m, n);
  }

  // ----- The fixed-window counter -----

  /** How many of the calls of one caller are allowed. */
  function Allowed(key: Option<Entry>, window: int, limit: int, times: seq<int>): nat
    decreases |times|
  {
    if times == [] then 0
    else
      var (key', count) := AfterIncr(key, window, times[0]);
      (if count <= limit then 1 else 0) + Allowed(key', window, limit, times[1..])
  }

  /** Windows that can start in a stretch of `length` seconds: the quotient rounded up. */
  function Starts(length: int, window: int): nat
    requires window >= 1
    decreases Max0(length)
  {
    if length <= 0 then 0 else 1 + Starts(length - window, window)
  }

  lemma {:induction false} StartsMonotone(x: int, y: int, window: int)
    requires window >= 1 && x <= y
    ensures Starts(x, window) <= Starts(y, window)
    decreases Max0(y)
  {
    if x > 0 {
      StartsMonotone(x - window, y - window, window);
    }
  }

  ghost predicate TimedWithin(times: seq<int>, a: int, b: int) {
    times != [] ==> a <= times[0] < b && TimedWithin(times[1..], times[0], b)
  }

  /** What a counter can still allow before time b. */
  function Budget(key: Option<Entry>, window: int, limit: int, now: int, b: int): int
    requires window >= 1
  {
    match Live(key, now)
    case Some(Entry(count, Some(e))) => Max0(limit - count) + Max0(limit) * Starts(b - e, window)
    case _ => Max0(limit) * Starts(b - now, window)
  }

  ghost predicate Windowed(key: Option<Entry>) {
    key.Some? ==> key.value.count >= 1 && key.value.expiresAt.Some?
  }

  lemma BudgetStep(key: Option<Entry>, window: int, limit: int, now: int, t: int, b: int)
    requires window >= 1 && Windowed(key) && now <= t < b
    ensures var (key', count) := AfterIncr(key, window, t);
      && Windowed(key')
      && (if count <= limit then 1 else 0) + Budget(key', window, limit, t, b) <= Budget(key, window, limit, now, b)
  {
    var p := Max0(limit);
    if Live(key, t).None? {
      assert p * Starts(b - t, window) == p + p * Starts(b - t - window, window);
      assert b - t - window == b - (t + window);
      var from := if Live(key, now).Some? then key.value.expiresAt.value else now;
      StartsMonotone(b - t, b - from, window);
      ScaledMonotone(p, Starts(b - t, window), Starts(b - from, window));
    }
  }

  lemma {:induction false} AllowedWithinBudget(key: Option<Entry>, window: int, limit: int, times: seq<int>, a: int, b: int)
    requires window >= 1 && Windowed(key) && TimedWithin(times, a, b)
    ensures Allowed(key, window, limit, times) <= Max0(Budget(key, window, limit, a, b))
    decreases |times|
  {
    if times != [] {
      BudgetStep(key, window, limit, a, times[0], b);
      var key' := AfterIncr(key, window, times[0]).0;
      AllowedWithinBudget(key', window, limit, times[1..], times[0], b);
    }
  }

  /**
   Over any stretch [a, b) the counter allows one full quota per window that can
   start in it, and one call less than a quota from the window before.
   */
  lemma WindowBound(key: Option<Entry>, window: int, limit: int, times: seq<int>, a: int, b: int)
    requires window >= 1 && Windowed(key) && TimedWithin(times, a, b)
    ensures Allowed(key, window, limit, times) <= Max0(limit - 1) + Max0(limit) * Starts(b - a, window)
  {
    var p := Max0(limit);
    AllowedWithinBudget(key, window, limit, times, a, b);
    if Live(key, a).Some? {
      var e := key.value.expiresAt.value;
      StartsMonotone(b - e, b - a, window);
      ScaledMonotone(p, Starts(b - e, window), Starts(b - a, window));
    }
  }

  /** In particular, any interval as long as the window sees fewer than twice the limit. */
  lemma TwiceTheLimit(key: Option<Entry>, window: int, limit: int, times: seq<int>, a: int)
    requires window >= 1 && limit >= 1 && Windowed(key) && TimedWithin(times, a, a + window)
    ensures Allowed(key, window, limit, times) <= 2 * limit - 1
  {
    WindowBound(key, window, limit, times, a, a + window);
    assert Starts(window, window) == 1;
  }

  function Burst(at: int, n: nat): seq<int> {
    seq(n, _ => at)
  }

  lemma {:induction false} BurstAllowed(key: Option<Entry>, window: int, limit: int, at: int, n: nat, rest: seq<int>)
    returns (key': Option<Entry>)
    requires window >= 1 && Windowed(key)
    requires n + (if Live(key, at).Some? then key.value.count else 0) <= limit
    ensures Allowed(key, window, limit, Burst(at, n) + rest) == n + Allowed(key', window, limit, rest)
    ensures Windowed(key') && (Live(key, at).Some? ==> key'.Some? && key'.value.expiresAt == key.value.expiresAt)
    decreases n
  {
    if n == 0 {
      assert Burst(at, 0) + rest == rest;
      key' := key;
    } else {
      var key1 := AfterIncr(key, window, at).0;
      assert (Burst(at, n) + rest)[1..] == Burst(at, n - 1) + rest;
      key' := BurstAllowed(key1, window, limit, at, n - 1, rest);
    }
  }

  /**
   And the bound is reached from an unused key: one call opens a window, and the
   next stretch of one window length sees its end and the start of the next.
   */
  lemma BoundReached(window: int, limit: int) returns (opening: int, times: seq<int>, a: int)
    requires window >= 2 && limit >= 1
    ensures opening <= a && TimedWithin(times, a, a + window)
    ensures Allowed(AfterIncr(None, window, opening).0, window, limit, times) == 2 * limit - 1
  {
    opening, a := 0, window - 1;
    var key := AfterIncr(None, window, opening).0;
    var late, early := Burst(window, limit), Burst(window - 1, limit - 1);
    times := early + late;
    var key1 := BurstAllowed(key, window, limit, window - 1, limit - 1, late);
    var key2 := BurstAllowed(key1, window, limit, window, limit, []);
    assert late + [] == late;
    BurstTimed(window - 1, limit - 1, window, limit, a, a + window);
  }

  lemma {:induction false} BurstTimed(s: int, m: nat, t: int, n: nat, a: int, b: int)
    requires a <= s <= t < b
    ensures TimedWithin(Burst(s, m) + Burst(t, n), a, b)
    decreases m + n
  {
    var times := Burst(s, m) + Burst(t, n);
    if m > 0 {
      assert times[1..] == Burst(s, m - 1) + Burst(t, n);
      BurstTimed(s, m - 1, t, n, s, b);
    } else if n > 0 {
      assert times[1..] == Burst(s, 0) + Burst(t, n - 1);
      BurstTimed(t, 0, t, n - 1, t, b);
      assert Burst(t, 0) == Burst(s, 0);
    }
  }
}
