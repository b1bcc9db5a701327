/** What a grid bucket talks to: the grid proxy that executes commands against
    the authoritative state, and the time meter that reads the clock and sleeps.
    Both are modelled as oracles (they hand out answers fixed in advance) and
    both record every call they receive in one shared ghost journal, so that the
    order of proxy calls, clock readings and sleeps can be stated. */
module Environment {
  import opened Commands

  /** A snapshot of a bucket's state: the words of the Java `long[]`. */
  datatype BucketState = BucketState(words: seq<int>)

  /** The bucket's configuration. Only its time meter is visible to the bucket;
      capacity and refill parameters are opaque here. */
  class BucketConfiguration {
    const timeMeter: TimeMeter

    constructor (timeMeter: TimeMeter)
      ensures this.timeMeter == timeMeter
    {
      this.timeMeter := timeMeter;
    }
  }

  /** The state installed on the authority when a bucket is created. */
  datatype GridBucketState = GridBucketState(configuration: BucketConfiguration, state: BucketState)

  /** One observable call on the proxy or the time meter. */
  datatype Event =
    | InitialStateSet(state: GridBucketState)
    | Executed(command: Command, reply: Reply)
    | ExecuteFailed(command: Command)
    | TimeRead(time: int)
    | Slept(duration: int)
    | SleepInterrupted(duration: int)
  {
    predicate IsProxyCall() {
      InitialStateSet? || Executed? || ExecuteFailed?
    }

    predicate IsSleep() {
      Slept? || SleepInterrupted?
    }
  }

  /** The calls received by the proxy, in order. */
  function ProxyCalls(events: seq<Event>): (calls: seq<Event>)
    ensures |calls| <= |events|
  {
    if events == [] then []
    else (if events[0].IsProxyCall() then [events[0]] else []) + ProxyCalls(events[1..])
  }

  lemma {:induction false} ProxyCallsConcat(a: seq<Event>, b: seq<Event>)
    ensures ProxyCalls(a + b) == ProxyCalls(a) + ProxyCalls(b)
  {
    if a == [] {
      assert a + b == b;
    } else {
      var head := if a[0].IsProxyCall() then [a[0]] else [];
      assert (a + b)[0] == a[0];
      assert (a + b)[1..] == a[1..] + b;
      ProxyCallsConcat(a[1..], b);
      assert ProxyCalls(a + b) == head + (ProxyCalls(a[1..]) + ProxyCalls(b));
      assert ProxyCalls(a) == head + ProxyCalls(a[1..]);
    }
  }

  /** A log extended by the proxy calls of `a` and then of `b` is the log
      extended by the proxy calls of `a + b`. */
  lemma ProxyCallsExtend(log: seq<Event>, a: seq<Event>, b: seq<Event>)
    ensures log + ProxyCalls(a + b) == (log + ProxyCalls(a)) + ProxyCalls(b)
  {
    ProxyCallsConcat(a, b);
  }

  /** Events that are not proxy calls add nothing to a proxy's log. */
  lemma {:induction false} ProxyCallsQuiet(events: seq<Event>)
    requires forall i :: 0 <= i < |events| ==> !events[i].IsProxyCall()
    ensures ProxyCalls(events) == []
  {
    if events != [] {
      ProxyCallsQuiet(events[1..]);
    }
  }

  /** The proxy's protocol: the initial state was installed exactly once, and
      before any command was executed. */
  ghost predicate Installed(events: seq<Event>) {
    var calls := ProxyCalls(events);
    && calls != []
    && calls[0].InitialStateSet?
    && forall i :: 1 <= i < |calls| ==> !calls[i].InitialStateSet?
  }

  /** Appending a call that is not an installation keeps the protocol. */
  lemma {:induction false} InstalledAppend(events: seq<Event>, e: Event)
    requires Installed(events)
    requires !e.InitialStateSet?
    ensures Installed(events + [e])
    ensures ProxyCalls(events + [e]) == ProxyCalls(events) + (if e.IsProxyCall() then [e] else [])
  {
    ProxyCallsConcat(events, [e]);
    assert ProxyCalls([e]) == (if e.IsProxyCall() then [e] else []) + ProxyCalls([]);
  }

  /** A ghost record of calls, shared by a time meter and the proxies of the
      buckets whose configuration uses it. */
  class Journal {
    ghost var events: seq<Event>

    constructor ()
      ensures events == []
    {
      events := [];
    }
  }

  /** The client side of the authority. The replies it will return are fixed in
      advance, one stream per Java result type; a stream that has run out means
      the authority can no longer be reached. `calls` are the calls this proxy
      received; the shared journal records them too, interleaved with the
      calls of the time meter. */
  class GridProxy {
    ghost const journal: Journal
    ghost var calls: seq<Event>
    var longReplies: seq<int>
    var boolReplies: seq<bool>
    var snapshotReplies: seq<seq<int>>

    constructor (ghost journal: Journal, longReplies: seq<int>, boolReplies: seq<bool>, snapshotReplies: seq<seq<int>>)
      ensures this.journal == journal && calls == []
      ensures this.longReplies == longReplies && this.boolReplies == boolReplies
      ensures this.snapshotReplies == snapshotReplies
    {
      this.journal := journal;
      calls := [];
      this.longReplies := longReplies;
      this.boolReplies := boolReplies;
      this.snapshotReplies := snapshotReplies;
    }

    /** Installs the authoritative state; allowed once, before anything else. */
    method SetInitialState(state: GridBucketState)
      requires calls == []
      modifies this, journal
      ensures calls == [InitialStateSet(state)]
      ensures Installed(calls)
      ensures journal.events == old(journal.events) + [InitialStateSet(state)]
      ensures longReplies == old(longReplies) && boolReplies == old(boolReplies)
      ensures snapshotReplies == old(snapshotReplies)
    {
      calls := [InitialStateSet(state)];
      journal.events := journal.events + [InitialStateSet(state)];
      assert ProxyCalls(calls) == [InitialStateSet(state)] + ProxyCalls([]);
    }

    /** Executes a command whose result is a `long`. */
    method ExecuteLong(command: Command) returns (r: Result<int>)
      requires command.YieldsLong()
      requires Installed(calls)
      modifies this, journal
      ensures Installed(calls)
      ensures boolReplies == old(boolReplies) && snapshotReplies == old(snapshotReplies)
      ensures old(longReplies) == [] ==>
        && r == Failed(TransportFailure) && longReplies == []
        && calls == old(calls) + [ExecuteFailed(command)]
        && journal.events == old(journal.events) + [ExecuteFailed(command)]
      ensures old(longReplies) != [] ==>
        && r == Ok(old(longReplies)[0]) && longReplies == old(longReplies)[1..]
        && calls == old(calls) + [Executed(command, LongReply(r.value))]
        && journal.events == old(journal.events) + [Executed(command, LongReply(r.value))]
    {
      var e;
      if longReplies == [] {
        r, e := Failed(TransportFailure), ExecuteFailed(command);
      } else {
        r, e := Ok(longReplies[0]), Executed(command, LongReply(longReplies[0]));
        longReplies := longReplies[1..];
      }
      InstalledAppend(calls, e);
      calls := calls + [e];
      journal.events := journal.events + [e];
    }

    /** Executes a command whose result is a `boolean`. */
    method ExecuteBool(command: Command) returns (r: Result<bool>)
      requires command.YieldsBool()
      requires Installed(calls)
      modifies this, journal
      ensures Installed(calls)
      ensures longReplies == old(longReplies) && snapshotReplies == old(snapshotReplies)
      ensures old(boolReplies) == [] ==>
        && r == Failed(TransportFailure) && boolReplies == []
        && calls == old(calls) + [ExecuteFailed(command)]
        && journal.events == old(journal.events) + [ExecuteFailed(command)]
      ensures old(boolReplies) != [] ==>
        && r == Ok(old(boolReplies)[0]) && boolReplies == old(boolReplies)[1..]
        && calls == old(calls) + [Executed(command, BoolReply(r.value))]
        && journal.events == old(journal.events) + [Executed(command, BoolReply(r.value))]
    {
      var e;
      if boolReplies == [] {
        r, e := Failed(TransportFailure), ExecuteFailed(command);
      } else {
        r, e := Ok(boolReplies[0]), Executed(command, BoolReply(boolReplies[0]));
        boolReplies := boolReplies[1..];
      }
      InstalledAppend(calls, e);
      calls := calls + [e];
      journal.events := journal.events + [e];
    }

    /** Executes a command whose result is a `long[]`. */
    method ExecuteSnapshot(command: Command) returns (r: Result<seq<int>>)
      requires command.YieldsSnapshot()
      requires Installed(calls)
      modifies this, journal
      ensures Installed(calls)
      ensures longReplies == old(longReplies) && boolReplies == old(boolReplies)
      ensures old(snapshotReplies) == [] ==>
        && r == Failed(TransportFailure) && snapshotReplies == []
        && calls == old(calls) + [ExecuteFailed(command)]
        && journal.events == old(journal.events) + [ExecuteFailed(command)]
      ensures old(snapshotReplies) != [] ==>
        && r == Ok(old(snapshotReplies)[0]) && snapshotReplies == old(snapshotReplies)[1..]
        && calls == old(calls) + [Executed(command, SnapshotReply(r.value))]
        && journal.events == old(journal.events) + [Executed(command, SnapshotReply(r.value))]
    {
      var e;
      if snapshotReplies == [] {
        r, e := Failed(TransportFailure), ExecuteFailed(command);
      } else {
        r, e := Ok(snapshotReplies[0]), Executed(command, SnapshotReply(snapshotReplies[0]));
        snapshotReplies := snapshotReplies[1..];
      }
      InstalledAppend(calls, e);
      calls := calls + [e];
      journal.events := journal.events + [e];
    }
  }

  /** The state of a time meter seen as an oracle: `timeline(k)` is the reading
      returned by the k-th call of currentTime, `interruptions(k)` says whether
      the k-th sleep is interrupted, and `readCount`/`sleepCount` count the calls so far. */
  datatype Clock = Clock(timeline: nat -> int, readCount: nat, interruptions: nat -> bool, sleepCount: nat)
  {
    /** The reading the next call of currentTime returns. */
    function Now(): int {
      timeline(readCount)
    }

    function AfterRead(): Clock {
      this.(readCount := readCount + 1)
    }

    /** Whether the next sleep is interrupted. */
    predicate Interrupts() {
      interruptions(sleepCount)
    }

    function AfterSleep(): Clock {
      this.(sleepCount := sleepCount + 1)
    }
  }

  /** The clock and sleep primitive the bucket's configuration supplies. */
  class TimeMeter {
    ghost const journal: Journal
    var clock: Clock

    constructor (ghost journal: Journal, timeline: nat -> int, interruptions: nat -> bool)
      ensures this.journal == journal
      ensures clock == Clock(timeline, 0, interruptions, 0)
    {
      this.journal := journal;
      clock := Clock(timeline, 0, interruptions, 0);
    }

    method CurrentTime() returns (t: int)
      modifies this, journal
      ensures t == old(clock).Now()
      ensures clock == old(clock).AfterRead()
      ensures journal.events == old(journal.events) + [TimeRead(t)]
      ensures ProxyCalls(journal.events) == old(ProxyCalls(journal.events))
    {
      t := clock.Now();
      clock := clock.AfterRead();
      ProxyCallsConcat(journal.events, [TimeRead(t)]);
      journal.events := journal.events + [TimeRead(t)];
      assert ProxyCalls([TimeRead(t)]) == [] + ProxyCalls([]);
    }

    /** Blocks for `duration`; reports whether the sleep was interrupted. */
    method Sleep(duration: int) returns (interrupted: bool)
      modifies this, journal
      ensures interrupted == old(clock).Interrupts()
      ensures clock == old(clock).AfterSleep()
      ensures journal.events == old(journal.events) + [if interrupted then SleepInterrupted(duration) else Slept(duration)]
      ensures ProxyCalls(journal.events) == old(ProxyCalls(journal.events))
    {
      interrupted := clock.Interrupts();
      clock := clock.AfterSleep();
      var e := if interrupted then SleepInterrupted(duration) else Slept(duration);
      ProxyCallsConcat(journal.events, [e]);
      journal.events := journal.events + [e];
      assert ProxyCalls([e]) == [] + ProxyCalls([]);
    }
  }
}
