/**
 The batching audit writer: a bounded queue, the flush loop with its local
 buffer, and the drain at shutdown.  The store, the broadcast and the backup file
 each succeed or fail as their environment says.
 */
module AuditWriter {
  import opened Basics

  const QUEUE_SIZE: nat := 10000

  datatype FlushOutcome = FlushOutcome(commits: bool, broadcasts: bool, backupWorks: bool)

  /** What left the queue's path: a flushed batch, or an event that found the queue full. */
  datatype Entry<E> = Batch(events: seq<E>, outcome: FlushOutcome) | Overflow(event: E, backupWorks: bool)

  /** One turn of the flush loop as its environment shapes it; `elapsed` is the time it then measures since its last flush. */
  datatype Wake<E> = Wake(
    arrivals: seq<E>,
    backupWorks: bool,
    timesOut: bool,
    elapsed: real,
    outcome: FlushOutcome)

  /** The two settings of the writer, the interval in seconds. */
  datatype Config = Config(batchSize: int, interval: real)

  predicate IntervalOver<E>(c: Config, w: Wake<E>) {
    w.elapsed >= c.interval
  }

  // ----- What the log of a writer amounts to -----

  function Flushed<E>(log: seq<Entry<E>>): seq<E> {
    if log == [] then []
    else Flushed(log[..|log| - 1]) + if log[|log| - 1].Batch? then log[|log| - 1].events else []
  }

  function StoredBatches<E>(log: seq<Entry<E>>): seq<seq<E>> {
    if log == [] then []
    else
      var last := log[|log| - 1];
      StoredBatches(log[..|log| - 1]) + if last.Batch? && last.outcome.commits then [last.events] else []
  }

  /** A batch is backed up when the commit fails, and also when the broadcast after it fails. */
  function BackedUp<E>(log: seq<Entry<E>>): seq<seq<E>> {
    if log == [] then []
    else
      var last := log[|log| - 1];
      BackedUp(log[..|log| - 1]) +
      match last
      case Batch(events, o) => if !(o.commits && o.broadcasts) && o.backupWorks then [events] else []
      case Overflow(e, works) => if works then [[e]] else []
  }

  lemma {:induction false} EntryAccounted<E>(log: seq<Entry<E>>, n: nat)
    requires n < |log|
    ensures log[n].Batch? && log[n].outcome.commits ==> log[n].events in StoredBatches(log)
    ensures log[n].Batch? && !log[n].outcome.commits && log[n].outcome.backupWorks ==> log[n].events in BackedUp(log)
    ensures log[n].Overflow? && log[n].backupWorks ==> [log[n].event] in BackedUp(log)
  {
    if n < |log| - 1 {
      EntryAccounted(log[..|log| - 1], n);
    }
  }

  /** The store holds exactly the batches whose commit succeeded. */
  lemma {:induction false} StoredIff<E>(log: seq<Entry<E>>, b: seq<E>)
    ensures b in StoredBatches(log) <==> exists n :: 0 <= n < |log| && log[n].Batch? && log[n].events == b && log[n].outcome.commits
  {
    if log != [] {
      StoredIff(log[..|log| - 1], b);
      assert forall n :: 0 <= n < |log| - 1 ==> log[n] == log[..|log| - 1][n];
    }
  }

  /**
   The backup holds exactly the batches whose commit or broadcast failed and the
   single events that found the queue full, as far as it could be written.
   */
  lemma {:induction false} BackedUpIff<E>(log: seq<Entry<E>>, b: seq<E>)
    ensures b in BackedUp(log) <==> exists n :: 0 <= n < |log| && BackedUpBy(log[n], b)
  {
    if log != [] {
      BackedUpIff(log[..|log| - 1], b);
      LastBackedUp(log, b);
      assert forall n :: 0 <= n < |log| - 1 ==> log[n] == log[..|log| - 1][n];
    }
  }

  lemma LastBackedUp<E>(log: seq<Entry<E>>, b: seq<E>)
    requires log != []
    ensures b in BackedUp(log) <==> b in BackedUp(log[..|log| - 1]) || BackedUpBy(log[|log| - 1], b)
  {
  }

  ghost predicate BackedUpBy<E>(entry: Entry<E>, b: seq<E>) {
    || (entry.Batch? && entry.events == b && entry.outcome.backupWorks && (!entry.outcome.commits || !entry.outcome.broadcasts))
    || (entry.Overflow? && b == [entry.event] && entry.backupWorks)
  }

  /** Unless both the commit and the backup of some batch fail, every flushed event is in the store or in the backup. */
  lemma {:induction false} FlushedIsKept<E>(log: seq<Entry<E>>, e: E)
    requires forall n :: 0 <= n < |log| && log[n].Batch? ==> log[n].outcome.commits || log[n].outcome.backupWorks
    requires e in Flushed(log)
    ensures (exists b :: b in StoredBatches(log) && e in b) || (exists b :: b in BackedUp(log) && e in b)
  {
    var last := |log| - 1;
    if e in Flushed(log[..last]) {
      FlushedIsKept(log[..last], e);
    } else {
      EntryAccounted(log, last);
    }
  }

  predicate BatchesWithin<E>(log: seq<Entry<E>>, size: nat) {
    forall n :: 0 <= n < |log| && log[n].Batch? ==> 1 <= |log[n].events| <= size
  }

  // ----- How much the loop holds -----

  /** Lengths of the queue and of the loop's buffer. */
  datatype Load = Load(queued: nat, held: nat)

  /** A buffer is flushed when it reaches this; a batch size below one acts as one. */
  function BatchLimit(c: Config): (limit: nat)
    ensures limit >= 1
  {
    if c.batchSize < 1 then 1 else c.batchSize
  }

  function Capped(n: nat): nat {
    if n > QUEUE_SIZE then QUEUE_SIZE else n
  }

  predicate Takes<E>(queued: nat, w: Wake<E>) {
    !w.timesOut && Capped(queued + |w.arrivals|) > 0
  }

  /** One turn: arrivals up to the queue's bound, one event taken, and a flush when it is due. */
  function Turn<E>(c: Config, l: Load, w: Wake<E>): Load {
    var arrived := Capped(l.queued + |w.arrivals|);
    var taken := if Takes(l.queued, w) then 1 else 0;
    var held := l.held + taken;
    Load(arrived - taken, if held >= c.batchSize || IntervalOver(c, w) then 0 else held)
  }

  function Turns<E>(c: Config, queued: nat, wakes: seq<Wake<E>>): Load {
    if wakes == [] then Load(Capped(queued), 0)
    else Turn(c, Turns(c, queued, wakes[..|wakes| - 1]), wakes[|wakes| - 1])
  }

  /** How many events the loop's buffer holds after these turns. */
  function Held<E>(c: Config, queued: nat, wakes: seq<Wake<E>>): nat {
    Turns(c, queued, wakes).held
  }

  /** Length of the queue after these turns; batching does not touch it. */
  function Waiting<E>(queued: nat, wakes: seq<Wake<E>>): nat {
    if wakes == [] then Capped(queued)
    else
      var before, w := Waiting(queued, wakes[..|wakes| - 1]), wakes[|wakes| - 1];
      Capped(before + |w.arrivals|) - if Takes(before, w) then 1 else 0
  }

  /** Events taken off the queue since the interval last ran out. */
  function TakenSince<E>(c: Config, queued: nat, wakes: seq<Wake<E>>): nat {
    if wakes == [] || IntervalOver(c, wakes[|wakes| - 1]) then 0
    else
      var earlier := wakes[..|wakes| - 1];
      TakenSince(c, queued, earlier) + if Takes(Waiting(queued, earlier), wakes[|wakes| - 1]) then 1 else 0
  }

  /** The buffer holds what was taken since the interval last ran out, less the full batches. */
  lemma {:induction false} HeldIs<E>(c: Config, queued: nat, wakes: seq<Wake<E>>)
    ensures Turns(c, queued, wakes).queued == Waiting(queued, wakes)
    ensures Held(c, queued, wakes) == TakenSince(c, queued, wakes) % BatchLimit(c)
  {
    if wakes != [] {
      var earlier, w := wakes[..|wakes| - 1], wakes[|wakes| - 1];
      HeldIs(c, queued, earlier);
      RemainderAfter(TakenSince(c, queued, earlier), if Takes(Waiting(queued, earlier), w) then 1 else 0, BatchLimit(c));
    }
  }

  lemma RemainderAfter(n: nat, taken: nat, m: nat)
    requires m >= 1 && taken <= 1
    ensures 0 % m == 0 && n % m < m
    ensures (n + taken) % m == if n % m + taken == m then 0 else n % m + taken
  {
    if n % m + taken == m {
      RemainderIs(n + taken, n / m + 1, 0, m);
    } else {
      RemainderIs(n + taken, n / m, n % m + taken, m);
    }
  }

  lemma RemainderIs(n: nat, q: nat, r: nat, m: nat)
    requires n == q * m + r && r < m
    ensures n % m == r
  {
    var d := n / m - q;
    assert d * m == n / m * m - q * m == r - n % m;
    if d > 0 {
      ScaledMonotone(m, 1, d);
    } else if d < 0 {
      ScaledMonotone(m, d, -1);
    }
  }

  /** Measured times are never negative. */
  ghost predicate Timed<E>(wakes: seq<Wake<E>>) {
    forall n :: 0 <= n < |wakes| ==> wakes[n].elapsed >= 0.0
  }

  /**
   Stopping at the queue wait loses nothing, whatever happened before, exactly
   when the settings make every event its own batch: by size, or because the
   interval is always over.
   */
  lemma NothingHeldIff<E>(c: Config, queued: nat, e: E)
    ensures c.batchSize <= 1 || c.interval <= 0.0 <==>
      forall wakes: seq<Wake<E>> :: Timed(wakes) ==> Held(c, queued, wakes) == 0
  {
    if c.batchSize <= 1 || c.interval <= 0.0 {
      forall wakes: seq<Wake<E>> | Timed(wakes)
        ensures Held(c, queued, wakes) == 0
      {
        HeldIs(c, queued, wakes);
      }
    } else {
      var wakes := OneEventHeld(c, queued, e);
    }
  }

  /** One event arrives and is taken before the interval runs out. */
  lemma OneEventHeld<E>(c: Config, queued: nat, e: E) returns (wakes: seq<Wake<E>>)
    requires c.batchSize > 1 && c.interval > 0.0
    ensures Timed(wakes) && Held(c, queued, wakes) == 1
  {
    wakes := [Wake([e], true, false, 0.0, FlushOutcome(true, true, true))];
    assert wakes[..0] == [];
    assert Turns(c, queued, wakes[..0]) == Load(Capped(queued), 0);
  }

  class BatchWriter<E> {
    const config: Config
    var queue: seq<E>
    var stored: seq<seq<E>>
    var backup: seq<seq<E>>
    /** Every event enqueue said yes to, in order. */
    ghost var accepted: seq<E>
    ghost var log: seq<Entry<E>>

    ghost predicate Valid()
      reads this
    {
      |queue| <= QUEUE_SIZE && stored == StoredBatches(log) && backup == BackedUp(log)
    }

    /** Nothing accepted is missing: it was flushed, sits in the loop's buffer, or is still queued. */
    ghost predicate Conserves(buf: seq<E>)
      reads this
    {
      accepted == Flushed(log) + buf + queue
    }

    function Limit(): nat {
      BatchLimit(config)
    }

    constructor (config: Config)
      ensures this.config == config && Valid() && Conserves([])
      ensures queue == [] && log == [] && accepted == []
    {
      this.config := config;
      queue, stored, backup, accepted, log := [], [], [], [], [];
    }

    method WriteBackup(events: seq<E>, works: bool)
      modifies this`backup
      ensures backup == if works && events != [] then old(backup) + [events] else old(backup)
    {
      if events != [] && works {
        backup := backup + [events];
      }
    }

    method Enqueue(event: E, backupWorks: bool) returns (ok: bool)
      requires Valid()
      modifies this`queue, this`backup, this`accepted, this`log
      ensures Valid()
      ensures ok <==> |old(queue)| < 10000
      ensures ok ==> queue == old(queue) + [event] && accepted == old(accepted) + [event] && log == old(log)
      ensures !ok ==> queue == old(queue) && accepted == old(accepted) && log == old(log) + [Overflow(event, backupWorks)]
    {
      if |queue| < QUEUE_SIZE {
        queue := queue + [event];
        accepted := accepted + [event];
        return true;
      }
      WriteBackup([event], backupWorks);
      log := log + [Overflow(event, backupWorks)];
      ok := false;
    }

    method Flush(events: seq<E>, outcome: FlushOutcome)
      requires Valid()
      modifies this`stored, this`backup, this`log
      ensures Valid()
      ensures log == if events == [] then old(log) else old(log) + [Batch(events, outcome)]
    {
      if events == [] {
        return;
      }
      if outcome.commits {
        stored := stored + [events];
      }
      if !(outcome.commits && outcome.broadcasts) {
        WriteBackup(events, outcome.backupWorks);
      }
      log := log + [Batch(events, outcome)];
    }

    /** One producer enqueueing while the loop waits. */
    method ArriveOne(event: E, backupWorks: bool, ghost buf: seq<E>)
      requires Valid() && Conserves(buf) && BatchesWithin(log, Limit())
      modifies this`queue, this`backup, this`accepted, this`log
      ensures Valid() && Conserves(buf) && BatchesWithin(log, Limit())
      ensures Flushed(log) == old(Flushed(log)) && |queue| == Capped(|old(queue)| + 1)
    {
      ghost var log0, queue0 := log, queue;
      var ok := Enqueue(event, backupWorks);
      assert Flushed(log0) + buf + (queue0 + [event]) == Flushed(log0) + buf + queue0 + [event];
    }

    method Arrive(arrivals: seq<E>, backupWorks: bool, ghost buf: seq<E>)
      requires Valid() && Conserves(buf) && BatchesWithin(log, Limit())
      modifies this`queue, this`backup, this`accepted, this`log
      ensures Valid() && Conserves(buf) && BatchesWithin(log, Limit())
      ensures Flushed(log) == old(Flushed(log)) && |queue| == Capped(|old(queue)| + |arrivals|)
    {
      for n := 0 to |arrivals|
        invariant Valid() && Conserves(buf) && BatchesWithin(log, Limit())
        invariant Flushed(log) == old(Flushed(log)) && |queue| == Capped(|old(queue)| + n)
      {
        ArriveOne(arrivals[n], backupWorks, buf);
      }
    }

    /** The end of one wait: an event moves from the queue to the buffer, or the wait timed out. */
    method TakeNext(buf0: seq<E>, timesOut: bool) returns (buf: seq<E>)
      requires Valid() && Conserves(buf0)
      modifies this`queue
      ensures Valid() && Conserves(buf)
      ensures if timesOut || old(queue) == [] then buf == buf0 && queue == old(queue)
              else buf == buf0 + [old(queue)[0]] && queue == old(queue)[1..]
    {
      buf := buf0;
      if !timesOut && queue != [] {
        buf := buf + [queue[0]];
        queue := queue[1..];
        assert buf + queue == buf0 + old(queue);
      }
    }

    method FlushBuffer(buf: seq<E>, outcome: FlushOutcome)
      requires Valid() && Conserves(buf) && BatchesWithin(log, Limit()) && |buf| <= Limit()
      modifies this`stored, this`backup, this`log
      ensures Valid() && Conserves([]) && BatchesWithin(log, Limit())
    {
      Flush(buf, outcome);
    }

    method FlushIfDue(buf0: seq<E>, intervalOver: bool, outcome: FlushOutcome) returns (buf: seq<E>)
      requires Valid() && Conserves(buf0) && BatchesWithin(log, Limit()) && |buf0| <= Limit()
      modifies this`stored, this`backup, this`log
      ensures Valid() && Conserves(buf) && BatchesWithin(log, Limit()) && |buf| < Limit()
      ensures if |buf0| >= Limit() || intervalOver then buf == [] else buf == buf0
    {
      buf := buf0;
      if |buf| >= config.batchSize || (buf != [] && intervalOver) {
        FlushBuffer(buf, outcome);
        buf := [];
      }
    }

    /** One turn of the flush loop. */
    method TakeTurn(buf0: seq<E>, w: Wake<E>) returns (buf: seq<E>)
      requires Valid() && Conserves(buf0) && BatchesWithin(log, Limit()) && |buf0| < Limit()
      modifies this
      ensures Valid() && Conserves(buf) && BatchesWithin(log, Limit()) && |buf| < Limit()
      ensures Turn(config, Load(|old(queue)|, |buf0|), w) == Load(|queue|, |buf|)
    {
      Arrive(w.arrivals, w.backupWorks, buf0);
      buf := TakeNext(buf0, w.timesOut);
      buf := FlushIfDue(buf, IntervalOver(config, w), w.outcome);
    }

    /** The flush loop up to its cancellation at the queue wait; `buf` is what it held then. */
    method Run(wakes: seq<Wake<E>>) returns (buf: seq<E>)
      requires Valid() && Conserves([]) && BatchesWithin(log, Limit())
      modifies this
      ensures Valid() && Conserves(buf) && BatchesWithin(log, Limit())
      ensures |buf| < Limit()
      ensures wakes != [] && IntervalOver(config, wakes[|wakes| - 1]) ==> buf == []
      ensures Turns(config, |old(queue)|, wakes) == Load(|queue|, |buf|)
    {
      buf := [];
      for n := 0 to |wakes|
        invariant Valid() && Conserves(buf) && BatchesWithin(log, Limit())
        invariant |buf| < Limit()
        invariant Turns(config, |old(queue)|, wakes[..n]) == Load(|queue|, |buf|)
      {
        assert wakes[..n + 1][..n] == wakes[..n];
        buf := TakeTurn(buf, wakes[n]);
      }
      assert wakes[..|wakes|] == wakes;
    }

    /** Flush whatever is queued, as one batch of any size. */
    method Drain(outcome: FlushOutcome)
      requires Valid()
      modifies this
      ensures Valid() && queue == [] && accepted == old(accepted)
      ensures log == if old(queue) == [] then old(log) else old(log) + [Batch(old(queue), outcome)]
    {
      var buf: seq<E> := [];
      while queue != []
        invariant Valid() && log == old(log) && accepted == old(accepted)
        invariant buf + queue == old(queue)
      {
        buf := buf + [queue[0]];
        queue := queue[1..];
      }
      assert buf == old(queue);
      if buf != [] {
        Flush(buf, outcome);
      }
    }

    /** A run that is stopped at the queue wait: what the loop still buffered is never flushed. */
    method RunThenStop(wakes: seq<Wake<E>>, outcome: FlushOutcome) returns (dropped: seq<E>)
      requires Valid() && Conserves([]) && BatchesWithin(log, Limit())
      modifies this
      ensures Valid() && queue == [] && |dropped| < Limit()
      ensures |dropped| == Held(config, |old(queue)|, wakes)
      ensures exists early, late :: Flushed(log) == early + late && accepted == early + dropped + late
      ensures Flushed(log) == accepted <==> Held(config, |old(queue)|, wakes) == 0
    {
      dropped := Run(wakes);
      ghost var log0, late := log, queue;
      Drain(outcome);
      assert Flushed(log) == Flushed(log0) + late && accepted == Flushed(log0) + dropped + late;
    }
  }
}
