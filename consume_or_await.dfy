/** A reference definition of the blocking admission loop of a grid bucket
    (consume `tokens`, or wait at most `limit` time units for them), as a
    function of what the proxy and the clock will answer, and the properties
    of every run it describes. */
module ConsumeOrAwait {
  import opened Commands
  import opened Environment

  /** What one call of the loop did: its outcome, the calls it made in order,
      the proxy replies left over and the clock afterwards. */
  datatype Run = Run(outcome: Result<bool>, events: seq<Event>, replies: seq<int>, clock: Clock)

  /** The clock once the deadline checks of a pass are done: bounded mode reads it. */
  function Checked(limit: int, clock: Clock): Clock {
    if limit > 0 then clock.AfterRead() else clock
  }

  /** The clock with which the next pass starts, after a pass that slept. */
  function Resumed(limit: int, clock: Clock): Clock {
    Checked(limit, clock).AfterSleep()
  }

  /** The loop from its first pass on: every pass executes the same
      consume-or-report-deficit command; a reply of 0 admits, Long.MAX_VALUE
      denies at once, and any other reply is a time to sleep before the next
      pass, which in bounded mode (`limit > 0`) is refused when the time
      elapsed since `start` has reached `limit` or the sleep would reach it. */
  function Loop(tokens: int, limit: int, start: int, replies: seq<int>, clock: Clock): (run: Run)
    decreases |replies|
    ensures run.events != []
    ensures replies != [] ==> |run.replies| < |replies|
  {
    var command := ConsumeOrCalculateTimeToCloseDeficitCommand(tokens);
    if replies == [] then
      Run(Failed(TransportFailure), [ExecuteFailed(command)], replies, clock)
    else
      var timeToCloseDeficit := replies[0];
      var executed := [Executed(command, LongReply(timeToCloseDeficit))];
      if timeToCloseDeficit == 0 then
        Run(Ok(true), executed, replies[1..], clock)
      else if timeToCloseDeficit == LONG_MAX then
        Run(Ok(false), executed, replies[1..], clock)
      else if limit > 0 && clock.Now() - start >= limit then
        Run(Ok(false), executed + [TimeRead(clock.Now())], replies[1..], clock.AfterRead())
      else if limit > 0 && timeToCloseDeficit >= limit - (clock.Now() - start) then
        Run(Ok(false), executed + [TimeRead(clock.Now())], replies[1..], clock.AfterRead())
      else
        var checked := if limit > 0 then executed + [TimeRead(clock.Now())] else executed;
        if clock.Interrupts() then
          Run(Failed(Interrupted), checked + [SleepInterrupted(timeToCloseDeficit)], replies[1..], Resumed(limit, clock))
        else
          var rest := Loop(tokens, limit, start, replies[1..], Resumed(limit, clock));
          Run(rest.outcome, checked + [Slept(timeToCloseDeficit)] + rest.events, rest.replies, rest.clock)
  }

  /** The whole blocking call: bounded mode first reads the start time; unbounded
      mode never reads the clock and starts from 0. */
  function Await(tokens: int, limit: int, replies: seq<int>, clock: Clock): (run: Run)
    ensures run.events != []
    ensures limit > 0 <==> run.events[0].TimeRead?
    ensures replies != [] ==> |run.replies| < |replies|
  {
    if limit > 0 then
      var run := Loop(tokens, limit, clock.Now(), replies, clock.AfterRead());
      Run(run.outcome, [TimeRead(clock.Now())] + run.events, run.replies, run.clock)
    else
      Loop(tokens, limit, 0, replies, clock)
  }

  /** A pass that sleeps (uninterrupted) and hands over to the next pass. */
  predicate Retries(limit: int, start: int, replies: seq<int>, clock: Clock) {
    && replies != []
    && replies[0] != 0
    && replies[0] != LONG_MAX
    && (limit > 0 ==> clock.Now() - start < limit && replies[0] < limit - (clock.Now() - start))
    && !clock.Interrupts()
  }

  /** The calls of a pass that sleeps for `d` and hands over to the next pass. */
  function SleepingPass(tokens: int, limit: int, d: int, clock: Clock): seq<Event> {
    [Executed(ConsumeOrCalculateTimeToCloseDeficitCommand(tokens), LongReply(d))]
    + (if limit > 0 then [TimeRead(clock.Now())] else [])
    + [Slept(d)]
  }

  /** One pass that sleeps, then the rest of the loop. */
  lemma RetryStep(tokens: int, limit: int, start: int, replies: seq<int>, clock: Clock)
    requires Retries(limit, start, replies, clock)
    ensures var run := Loop(tokens, limit, start, replies, clock);
      var rest := Loop(tokens, limit, start, replies[1..], Resumed(limit, clock));
      && run.events == SleepingPass(tokens, limit, replies[0], clock) + rest.events
      && run.outcome == rest.outcome && run.replies == rest.replies && run.clock == rest.clock
  {
  }

  function Last(events: seq<Event>): Event
    requires events != []
  {
    events[|events| - 1]
  }

  /** The replies the proxy returned for the commands in `events`, in order. */
  function RepliesSeen(events: seq<Event>): seq<int> {
    if events == [] then []
    else
      (if events[0].Executed? && events[0].reply.LongReply? then [events[0].reply.number] else [])
      + RepliesSeen(events[1..])
  }

  /** The total time the loop asked the time meter to sleep. */
  function TotalSleep(events: seq<Event>): int {
    if events == [] then 0
    else (if events[0].IsSleep() then events[0].duration else 0) + TotalSleep(events[1..])
  }

  lemma AppendAssoc<T>(a: seq<T>, b: seq<T>, c: seq<T>)
    ensures a + (b + c) == (a + b) + c
  {
  }

  lemma {:induction false} RepliesSeenConcat(a: seq<Event>, b: seq<Event>)
    ensures RepliesSeen(a + b) == RepliesSeen(a) + RepliesSeen(b)
  {
    if a == [] {
      assert a + b == b;
    } else {
      assert (a + b)[1..] == a[1..] + b;
      RepliesSeenConcat(a[1..], b);
    }
  }

  lemma {:induction false} TotalSleepConcat(a: seq<Event>, b: seq<Event>)
    ensures TotalSleep(a + b) == TotalSleep(a) + TotalSleep(b)
  {
    if a == [] {
      assert a + b == b;
    } else {
      assert (a + b)[1..] == a[1..] + b;
      TotalSleepConcat(a[1..], b);
    }
  }

  /** Clock readings and sleeps carry no reply. */
  lemma {:induction false} RepliesSeenQuiet(events: seq<Event>)
    requires forall i :: 0 <= i < |events| ==> !events[i].Executed?
    ensures RepliesSeen(events) == []
  {
    if events != [] {
      RepliesSeenQuiet(events[1..]);
    }
  }

  /** A pass sees exactly one reply: the one its command returned. */
  lemma PassSeesOneReply(e: Event, d: int, tail: seq<Event>)
    requires e.Executed? && e.reply == LongReply(d)
    requires forall i :: 0 <= i < |tail| ==> !tail[i].Executed?
    ensures RepliesSeen([e] + tail) == [d]
  {
    RepliesSeenQuiet(tail);
    assert ([e] + tail)[1..] == tail;
  }

  /** The loop re-queries the authority on every pass: it consumes the proxy's
      replies in order, one per executed command, and leaves the rest. */
  lemma {:induction false} RepliesConsumedInOrder(tokens: int, limit: int, start: int, replies: seq<int>, clock: Clock)
    ensures var run := Loop(tokens, limit, start, replies, clock);
      replies == RepliesSeen(run.events) + run.replies
  {
    var run := Loop(tokens, limit, start, replies, clock);
    if replies == [] {
      assert RepliesSeen(run.events) == [] + RepliesSeen([]);
    } else if Retries(limit, start, replies, clock) {
      var d := replies[0];
      var pass := SleepingPass(tokens, limit, d, clock);
      var rest := Loop(tokens, limit, start, replies[1..], Resumed(limit, clock));
      RetryStep(tokens, limit, start, replies, clock);
      PassSeesOneReply(pass[0], d, pass[1..]);
      assert pass == [pass[0]] + pass[1..];
      RepliesSeenConcat(pass, rest.events);
      RepliesConsumedInOrder(tokens, limit, start, replies[1..], Resumed(limit, clock));
    } else {
      HaltingPassSeesOneReply(tokens, limit, start, replies, clock);
    }
  }

  /** A pass that ends the loop sees exactly the reply of its command. */
  lemma HaltingPassSeesOneReply(tokens: int, limit: int, start: int, replies: seq<int>, clock: Clock)
    requires replies != [] && !Retries(limit, start, replies, clock)
    ensures RepliesSeen(Loop(tokens, limit, start, replies, clock).events) == [replies[0]]
  {
    var run := Loop(tokens, limit, start, replies, clock);
    var d := replies[0];
    var e := Executed(ConsumeOrCalculateTimeToCloseDeficitCommand(tokens), LongReply(d));
    if d == 0 || d == LONG_MAX {
      PassSeesOneReply(e, d, []);
      assert run.events == [e] + [];
    } else if limit > 0 && (clock.Now() - start >= limit || d >= limit - (clock.Now() - start)) {
      PassSeesOneReply(e, d, [TimeRead(clock.Now())]);
      assert run.events == [e] + [TimeRead(clock.Now())];
    } else {
      var tail := (if limit > 0 then [TimeRead(clock.Now())] else []) + [SleepInterrupted(d)];
      PassSeesOneReply(e, d, tail);
      assert run.events == [e] + tail;
    }
  }

  /** A pass makes exactly one proxy call: its command. */
  lemma PassMakesOneProxyCall(e: Event, tail: seq<Event>)
    requires e.IsProxyCall()
    requires forall i :: 0 <= i < |tail| ==> !tail[i].IsProxyCall()
    ensures ProxyCalls([e] + tail) == [e]
  {
    ProxyCallsQuiet(tail);
    assert ([e] + tail)[1..] == tail;
  }

  /** The only proxy call of a sleeping pass is its command, answered with `d`. */
  lemma SleepingPassOneProxyCall(tokens: int, limit: int, d: int, clock: Clock)
    ensures ProxyCalls(SleepingPass(tokens, limit, d, clock))
      == [Executed(ConsumeOrCalculateTimeToCloseDeficitCommand(tokens), LongReply(d))]
  {
    var e := Executed(ConsumeOrCalculateTimeToCloseDeficitCommand(tokens), LongReply(d));
    var tail := (if limit > 0 then [TimeRead(clock.Now())] else []) + [Slept(d)];
    PassMakesOneProxyCall(e, tail);
    assert SleepingPass(tokens, limit, d, clock) == [e] + tail;
  }

  /** A pass that ends the loop makes exactly one proxy call: its command, which
      failed when no reply was left. */
  lemma HaltingPassOneProxyCall(tokens: int, limit: int, start: int, replies: seq<int>, clock: Clock)
    requires !Retries(limit, start, replies, clock)
    ensures var events := Loop(tokens, limit, start, replies, clock).events;
      var command := ConsumeOrCalculateTimeToCloseDeficitCommand(tokens);
      && events[0] == (if replies == [] then ExecuteFailed(command) else Executed(command, LongReply(replies[0])))
      && ProxyCalls(events) == [events[0]]
  {
    var run := Loop(tokens, limit, start, replies, clock);
    var command := ConsumeOrCalculateTimeToCloseDeficitCommand(tokens);
    if replies == [] {
      PassMakesOneProxyCall(ExecuteFailed(command), []);
      assert run.events == [ExecuteFailed(command)] + [];
    } else {
      var d := replies[0];
      var e := Executed(command, LongReply(d));
      if d == 0 || d == LONG_MAX {
        PassMakesOneProxyCall(e, []);
        assert run.events == [e] + [];
      } else if limit > 0 && (clock.Now() - start >= limit || d >= limit - (clock.Now() - start)) {
        PassMakesOneProxyCall(e, [TimeRead(clock.Now())]);
        assert run.events == [e] + [TimeRead(clock.Now())];
      } else {
        var tail := (if limit > 0 then [TimeRead(clock.Now())] else []) + [SleepInterrupted(d)];
        PassMakesOneProxyCall(e, tail);
        assert run.events == [e] + tail;
      }
    }
  }

  /** The outcome is read off the last call the loop made: admitted exactly when
      the last reply was 0; denied exactly when the last reply was
      Long.MAX_VALUE or the last call was a deadline check of the clock; a
      transport failure exactly when the last command could not be executed; an
      interruption exactly when the last sleep was interrupted. */
  lemma {:induction false} OutcomeFollowsLastEvent(tokens: int, limit: int, start: int, replies: seq<int>, clock: Clock)
    ensures Loop(tokens, limit, start, replies, clock).events != []
    ensures var run := Loop(tokens, limit, start, replies, clock);
      var command := ConsumeOrCalculateTimeToCloseDeficitCommand(tokens);
      && (run.outcome == Ok(true) <==> Last(run.events) == Executed(command, LongReply(0)))
      && (run.outcome == Ok(false) <==>
            Last(run.events) == Executed(command, LongReply(LONG_MAX)) || Last(run.events).TimeRead?)
      && (run.outcome == Failed(TransportFailure) <==> Last(run.events) == ExecuteFailed(command))
      && (run.outcome == Failed(Interrupted) <==> Last(run.events).SleepInterrupted?)
  {
    if Retries(limit, start, replies, clock) {
      OutcomeFollowsLastEvent(tokens, limit, start, replies[1..], Resumed(limit, clock));
    }
  }

  /** A denial that follows a clock reading happens only in bounded mode, right
      after a reply `d`, and only when the time elapsed since `start` has reached
      `limit` or sleeping `d` would reach it. */
  lemma {:induction false} DeniedAtClockOnlyPastBudget(tokens: int, limit: int, start: int, replies: seq<int>, clock: Clock)
    ensures var run := Loop(tokens, limit, start, replies, clock);
      var command := ConsumeOrCalculateTimeToCloseDeficitCommand(tokens);
      var n := |run.events|;
      n > 0 && run.events[n - 1].TimeRead? ==>
        && limit > 0
        && n >= 2
        && run.events[n - 2].Executed?
        && run.events[n - 2].command == command
        && run.events[n - 2].reply.LongReply?
        && var elapsed := run.events[n - 1].time - start;
           elapsed >= limit || run.events[n - 2].reply.number >= limit - elapsed
  {
    if Retries(limit, start, replies, clock) {
      var rest := Loop(tokens, limit, start, replies[1..], Resumed(limit, clock));
      DeniedAtClockOnlyPastBudget(tokens, limit, start, replies[1..], Resumed(limit, clock));
      OutcomeFollowsLastEvent(tokens, limit, start, replies[1..], Resumed(limit, clock));
    }
  }

  /** Every pass sends the same command, for the same number of tokens, and the
      loop never installs state. */
  lemma {:induction false} EveryPassSameCommand(tokens: int, limit: int, start: int, replies: seq<int>, clock: Clock)
    ensures var events := Loop(tokens, limit, start, replies, clock).events;
      forall i :: 0 <= i < |events| ==>
        && !events[i].InitialStateSet?
        && (events[i].Executed? || events[i].ExecuteFailed? ==>
              events[i].command == ConsumeOrCalculateTimeToCloseDeficitCommand(tokens))
  {
    var events := Loop(tokens, limit, start, replies, clock).events;
    if Retries(limit, start, replies, clock) {
      var rest := Loop(tokens, limit, start, replies[1..], Resumed(limit, clock)).events;
      var pass := SleepingPass(tokens, limit, replies[0], clock);
      RetryStep(tokens, limit, start, replies, clock);
      EveryPassSameCommand(tokens, limit, start, replies[1..], Resumed(limit, clock));
      forall i | 0 <= i < |events|
        ensures !events[i].InitialStateSet?
        ensures events[i].Executed? || events[i].ExecuteFailed? ==>
          events[i].command == ConsumeOrCalculateTimeToCloseDeficitCommand(tokens)
      {
        if i >= |pass| {
          assert events[i] == rest[i - |pass|];
        } else {
          assert events[i] == pass[i];
        }
      }
    }
  }

  /** Long.MAX_VALUE ends the loop on the spot: the command that returned it is
      the last call made (no clock reading, no sleep after it) and the outcome
      is a denial. */
  lemma {:induction false} ImpossibleEndsAtOnce(tokens: int, limit: int, start: int, replies: seq<int>, clock: Clock)
    ensures var run := Loop(tokens, limit, start, replies, clock);
      var command := ConsumeOrCalculateTimeToCloseDeficitCommand(tokens);
      forall i :: 0 <= i < |run.events| && run.events[i] == Executed(command, LongReply(LONG_MAX)) ==>
        i == |run.events| - 1 && run.outcome == Ok(false)
  {
    var run := Loop(tokens, limit, start, replies, clock);
    if Retries(limit, start, replies, clock) {
      var rest := Loop(tokens, limit, start, replies[1..], Resumed(limit, clock));
      var pass := SleepingPass(tokens, limit, replies[0], clock);
      RetryStep(tokens, limit, start, replies, clock);
      ImpossibleEndsAtOnce(tokens, limit, start, replies[1..], Resumed(limit, clock));
      forall i | 0 <= i < |run.events| && run.events[i] == Executed(ConsumeOrCalculateTimeToCloseDeficitCommand(tokens), LongReply(LONG_MAX))
        ensures i == |run.events| - 1 && run.outcome == Ok(false)
      {
        if i >= |pass| {
          assert run.events[i] == rest.events[i - |pass|];
        }
      }
    }
  }

  /** A reply of 0 ends the loop on the spot: the command that returned it is
      the last call made and the outcome is an admission. */
  lemma {:induction false} ZeroEndsAtOnce(tokens: int, limit: int, start: int, replies: seq<int>, clock: Clock)
    ensures var run := Loop(tokens, limit, start, replies, clock);
      var command := ConsumeOrCalculateTimeToCloseDeficitCommand(tokens);
      forall i :: 0 <= i < |run.events| && run.events[i] == Executed(command, LongReply(0)) ==>
        i == |run.events| - 1 && run.outcome == Ok(true)
  {
    var run := Loop(tokens, limit, start, replies, clock);
    if Retries(limit, start, replies, clock) {
      var rest := Loop(tokens, limit, start, replies[1..], Resumed(limit, clock));
      var pass := SleepingPass(tokens, limit, replies[0], clock);
      RetryStep(tokens, limit, start, replies, clock);
      ZeroEndsAtOnce(tokens, limit, start, replies[1..], Resumed(limit, clock));
      forall i | 0 <= i < |run.events| && run.events[i] == Executed(ConsumeOrCalculateTimeToCloseDeficitCommand(tokens), LongReply(0))
        ensures i == |run.events| - 1 && run.outcome == Ok(true)
      {
        if i >= |pass| {
          assert run.events[i] == rest.events[i - |pass|];
        }
      }
    }
  }

  /** The loop never retries after a transport failure: a command that could
      not be executed is the last call made and the outcome is that failure. */
  lemma {:induction false} TransportFailureEndsAtOnce(tokens: int, limit: int, start: int, replies: seq<int>, clock: Clock)
    ensures var run := Loop(tokens, limit, start, replies, clock);
      forall i :: 0 <= i < |run.events| && run.events[i].ExecuteFailed? ==>
        i == |run.events| - 1 && run.outcome == Failed(TransportFailure)
  {
    var run := Loop(tokens, limit, start, replies, clock);
    if Retries(limit, start, replies, clock) {
      var rest := Loop(tokens, limit, start, replies[1..], Resumed(limit, clock));
      var pass := SleepingPass(tokens, limit, replies[0], clock);
      RetryStep(tokens, limit, start, replies, clock);
      TransportFailureEndsAtOnce(tokens, limit, start, replies[1..], Resumed(limit, clock));
      forall i | 0 <= i < |run.events| && run.events[i].ExecuteFailed?
        ensures i == |run.events| - 1 && run.outcome == Failed(TransportFailure)
      {
        if i >= |pass| {
          assert run.events[i] == rest.events[i - |pass|];
        }
      }
    }
  }

  /** In bounded mode, a clock reading showing that `limit` has elapsed since
      `start` ends the loop on the spot with a denial: no sleep follows it. */
  lemma {:induction false} ExhaustedBudgetEndsAtOnce(tokens: int, limit: int, start: int, replies: seq<int>, clock: Clock)
    requires limit > 0
    ensures var run := Loop(tokens, limit, start, replies, clock);
      forall i :: 0 <= i < |run.events| && run.events[i].TimeRead? && run.events[i].time - start >= limit ==>
        i == |run.events| - 1 && run.outcome == Ok(false)
  {
    var run := Loop(tokens, limit, start, replies, clock);
    if Retries(limit, start, replies, clock) {
      var rest := Loop(tokens, limit, start, replies[1..], Resumed(limit, clock));
      var pass := SleepingPass(tokens, limit, replies[0], clock);
      RetryStep(tokens, limit, start, replies, clock);
      ExhaustedBudgetEndsAtOnce(tokens, limit, start, replies[1..], Resumed(limit, clock));
      forall i | 0 <= i < |run.events| && run.events[i].TimeRead? && run.events[i].time - start >= limit
        ensures i == |run.events| - 1 && run.outcome == Ok(false)
      {
        if i >= |pass| {
          assert run.events[i] == rest.events[i - |pass|];
        }
      }
    }
  }

  /** In bounded mode every sleep is for the reply of the same pass and is
      issued only after a clock reading from which the sleep ends strictly
      before the deadline: (reading - start) + duration < limit. */
  lemma {:induction false} BoundedSleepWithinBudget(tokens: int, limit: int, start: int, replies: seq<int>, clock: Clock)
    requires limit > 0
    ensures var events := Loop(tokens, limit, start, replies, clock).events;
      forall i :: 0 <= i < |events| && events[i].IsSleep() ==>
        && 2 <= i
        && events[i - 2] == Executed(ConsumeOrCalculateTimeToCloseDeficitCommand(tokens), LongReply(events[i].duration))
        && events[i - 1].TimeRead?
        && (events[i - 1].time - start) + events[i].duration < limit
  {
    var events := Loop(tokens, limit, start, replies, clock).events;
    if Retries(limit, start, replies, clock) {
      var rest := Loop(tokens, limit, start, replies[1..], Resumed(limit, clock)).events;
      var pass := SleepingPass(tokens, limit, replies[0], clock);
      RetryStep(tokens, limit, start, replies, clock);
      BoundedSleepWithinBudget(tokens, limit, start, replies[1..], Resumed(limit, clock));
      forall i | 0 <= i < |events| && events[i].IsSleep()
        ensures 2 <= i
        ensures events[i - 2] == Executed(ConsumeOrCalculateTimeToCloseDeficitCommand(tokens), LongReply(events[i].duration))
        ensures events[i - 1].TimeRead? && (events[i - 1].time - start) + events[i].duration < limit
      {
        if i >= 3 {
          assert events[i] == rest[i - 3];
          assert events[i - 1] == rest[i - 4] && events[i - 2] == rest[i - 5];
        } else {
          assert events[i] == pass[i];
          assert events[..3] == pass;
        }
      }
    }
  }

  /** In unbounded mode the clock is never read, every sleep is for the reply
      just received, and the only way to be denied is Long.MAX_VALUE. */
  lemma {:induction false} UnboundedPasses(tokens: int, limit: int, start: int, replies: seq<int>, clock: Clock)
    requires limit <= 0
    ensures var run := Loop(tokens, limit, start, replies, clock);
      var command := ConsumeOrCalculateTimeToCloseDeficitCommand(tokens);
      && run.clock.readCount == clock.readCount
      && (forall i :: 0 <= i < |run.events| ==> !run.events[i].TimeRead?)
      && (forall i :: 0 <= i < |run.events| && run.events[i].IsSleep() ==>
            1 <= i && run.events[i - 1] == Executed(command, LongReply(run.events[i].duration)))
      && (run.outcome == Ok(false) ==>
            (run.events != [] && Last(run.events) == Executed(command, LongReply(LONG_MAX))))
  {
    var run := Loop(tokens, limit, start, replies, clock);
    if Retries(limit, start, replies, clock) {
      var rest := Loop(tokens, limit, start, replies[1..], Resumed(limit, clock));
      var pass := SleepingPass(tokens, limit, replies[0], clock);
      RetryStep(tokens, limit, start, replies, clock);
      UnboundedPasses(tokens, limit, start, replies[1..], Resumed(limit, clock));
      assert |pass| == 2;
      forall i | 0 <= i < |run.events|
        ensures !run.events[i].TimeRead?
        ensures run.events[i].IsSleep() ==>
          1 <= i && run.events[i - 1] == Executed(ConsumeOrCalculateTimeToCloseDeficitCommand(tokens), LongReply(run.events[i].duration))
      {
        if i >= 2 {
          assert run.events[i] == rest.events[i - 2];
          if i >= 3 {
            assert run.events[i - 1] == rest.events[i - 3];
          }
        } else {
          assert run.events[i] == pass[i];
          assert run.events[..2] == pass;
        }
      }
      if run.outcome == Ok(false) {
        assert Last(run.events) == Last(rest.events);
      }
    }
  }

  /** The whole call in unbounded mode: the clock is never read, every sleep
      lasts exactly the reply just received, and a denial always comes from
      Long.MAX_VALUE. */
  lemma UnboundedNeverReadsClock(tokens: int, limit: int, replies: seq<int>, clock: Clock)
    requires limit <= 0
    ensures var run := Await(tokens, limit, replies, clock);
      && run.clock.readCount == clock.readCount
      && (forall i :: 0 <= i < |run.events| ==> !run.events[i].TimeRead?)
      && (forall i :: 0 <= i < |run.events| && run.events[i].IsSleep() ==>
            1 <= i && run.events[i - 1] == Executed(ConsumeOrCalculateTimeToCloseDeficitCommand(tokens), LongReply(run.events[i].duration)))
      && (run.outcome == Ok(false) ==>
            (run.events != [] &&
             Last(run.events) == Executed(ConsumeOrCalculateTimeToCloseDeficitCommand(tokens), LongReply(LONG_MAX))))
  {
    UnboundedPasses(tokens, limit, 0, replies, clock);
  }

  /** The clock keeps up with the sleeps: every reading in `events` shows at
      least `start` plus `base` plus the time slept before it. */
  ghost predicate ClockKeepsUp(start: int, base: int, events: seq<Event>) {
    forall j :: 0 <= j < |events| && events[j].TimeRead? ==> events[j].time - start >= base + TotalSleep(events[..j])
  }

  /** A clock that keeps up with a run keeps up with its tail, counting the
      sleeps of the prefix as already slept. */
  lemma ClockKeepsUpAfter(start: int, base: int, prefix: seq<Event>, events: seq<Event>)
    requires ClockKeepsUp(start, base, prefix + events)
    ensures ClockKeepsUp(start, base + TotalSleep(prefix), events)
  {
    var whole := prefix + events;
    forall j | 0 <= j < |events| && events[j].TimeRead?
      ensures events[j].time - start >= base + TotalSleep(prefix) + TotalSleep(events[..j])
    {
      assert whole[..|prefix| + j] == prefix + events[..j];
      TotalSleepConcat(prefix, events[..j]);
      assert whole[|prefix| + j] == events[j];
    }
  }

  /** The budget argument behind the deadline: if every clock reading shows at
      least `base` plus the sleeps issued so far, then whenever the loop sleeps
      at all, `base` plus everything it slept stays below `limit`. */
  lemma {:induction false} SleepsStayInBudget(tokens: int, limit: int, start: int, replies: seq<int>, clock: Clock, base: int)
    requires limit > 0
    requires ClockKeepsUp(start, base, Loop(tokens, limit, start, replies, clock).events)
    ensures var events := Loop(tokens, limit, start, replies, clock).events;
      TotalSleep(events) == 0 || base + TotalSleep(events) < limit
  {
    var events := Loop(tokens, limit, start, replies, clock).events;
    if replies != [] {
      var d := replies[0];
      var checked := [Executed(ConsumeOrCalculateTimeToCloseDeficitCommand(tokens), LongReply(d)), TimeRead(clock.Now())];
      assert TotalSleep(checked) == 0 by {
        assert TotalSleep(checked) == 0 + TotalSleep(checked[1..]);
        assert checked[1..] == [TimeRead(clock.Now())];
        assert TotalSleep(checked[1..]) == 0 + TotalSleep([]);
      }
      if d != 0 && d != LONG_MAX && clock.Now() - start < limit && d < limit - (clock.Now() - start) {
        var last := if clock.Interrupts() then SleepInterrupted(d) else Slept(d);
        assert events[..2] == checked;
        assert events[1] == TimeRead(clock.Now());
        assert TotalSleep(events[..1]) == 0 + TotalSleep([]);
        assert ClockKeepsUp(start, base, events);
        assert events[1].time - start >= base + TotalSleep(events[..1]);
        assert [last][1..] == [];
        assert TotalSleep([last]) == last.duration + TotalSleep([]);
        TotalSleepConcat(checked, [last]);
        if !clock.Interrupts() {
          var rest := Loop(tokens, limit, start, replies[1..], Resumed(limit, clock)).events;
          RetryStep(tokens, limit, start, replies, clock);
          assert events == (checked + [last]) + rest;
          TotalSleepConcat(checked + [last], rest);
          ClockKeepsUpAfter(start, base, checked + [last], rest);
          SleepsStayInBudget(tokens, limit, start, replies[1..], Resumed(limit, clock), base + d);
        } else {
          assert events == checked + [last];
        }
      } else if d != 0 && d != LONG_MAX {
        assert events == checked;
      } else {
        assert TotalSleep(events) == 0 + TotalSleep([]);
      }
    } else {
      assert TotalSleep(events) == 0 + TotalSleep([]);
    }
  }


  /** Deadline respect: in bounded mode, on a clock that keeps up with the
      sleeps, the call as a whole never sleeps for `limit` or longer. */
  lemma DeadlineRespected(tokens: int, limit: int, replies: seq<int>, clock: Clock)
    requires limit > 0
    requires ClockKeepsUp(clock.Now(), 0, Await(tokens, limit, replies, clock).events)
    ensures TotalSleep(Await(tokens, limit, replies, clock).events) < limit
  {
    var start := clock.Now();
    var head := [TimeRead(start)];
    var events := Await(tokens, limit, replies, clock).events;
    var loop := Loop(tokens, limit, start, replies, clock.AfterRead()).events;
    assert events == head + loop;
    assert TotalSleep(head) == 0 + TotalSleep([]);
    TotalSleepConcat(head, loop);
    ClockKeepsUpAfter(start, 0, head, loop);
    SleepsStayInBudget(tokens, limit, start, replies, clock.AfterRead(), 0);
  }

  /** The whole call: it is admitted exactly when its last call was a command
      answered with 0; a reply of 0 is its last call and an admission; a
      Long.MAX_VALUE reply is its last call and a denial; a command that could
      not be executed is its last call and a transport failure. */
  lemma AwaitEndsOnSentinels(tokens: int, limit: int, replies: seq<int>, clock: Clock)
    ensures var run := Await(tokens, limit, replies, clock);
      var command := ConsumeOrCalculateTimeToCloseDeficitCommand(tokens);
      && run.events != []
      && (run.outcome == Ok(true) <==> Last(run.events) == Executed(command, LongReply(0)))
      && (forall i :: 0 <= i < |run.events| && run.events[i] == Executed(command, LongReply(0)) ==>
            i == |run.events| - 1 && run.outcome == Ok(true))
      && (forall i :: 0 <= i < |run.events| && run.events[i] == Executed(command, LongReply(LONG_MAX)) ==>
            i == |run.events| - 1 && run.outcome == Ok(false))
      && (forall i :: 0 <= i < |run.events| && run.events[i].ExecuteFailed? ==>
            i == |run.events| - 1 && run.outcome == Failed(TransportFailure))
  {
    var command := ConsumeOrCalculateTimeToCloseDeficitCommand(tokens);
    var run := Await(tokens, limit, replies, clock);
    var start := if limit > 0 then clock.Now() else 0;
    var first := if limit > 0 then clock.AfterRead() else clock;
    var loop := Loop(tokens, limit, start, replies, first);
    OutcomeFollowsLastEvent(tokens, limit, start, replies, first);
    ZeroEndsAtOnce(tokens, limit, start, replies, first);
    ImpossibleEndsAtOnce(tokens, limit, start, replies, first);
    TransportFailureEndsAtOnce(tokens, limit, start, replies, first);
    if limit > 0 {
      assert run.events == [TimeRead(clock.Now())] + loop.events;
      assert Last(run.events) == Last(loop.events);
      forall i | 0 <= i < |run.events| && (run.events[i].Executed? || run.events[i].ExecuteFailed?)
        ensures i >= 1 && run.events[i] == loop.events[i - 1]
      {
      }
    }
  }

  /** BoundedSleepWithinBudget at one index. */
  lemma BoundedSleepAt(tokens: int, limit: int, start: int, replies: seq<int>, clock: Clock, j: int)
    requires limit > 0
    requires var events := Loop(tokens, limit, start, replies, clock).events;
      0 <= j < |events| && events[j].IsSleep()
    ensures var events := Loop(tokens, limit, start, replies, clock).events;
      && 2 <= j
      && events[j - 2] == Executed(ConsumeOrCalculateTimeToCloseDeficitCommand(tokens), LongReply(events[j].duration))
      && events[j - 1].TimeRead?
      && (events[j - 1].time - start) + events[j].duration < limit
  {
    BoundedSleepWithinBudget(tokens, limit, start, replies, clock);
  }

  /** ExhaustedBudgetEndsAtOnce at one index. */
  lemma ExhaustedBudgetAt(tokens: int, limit: int, start: int, replies: seq<int>, clock: Clock, j: int)
    requires limit > 0
    requires var events := Loop(tokens, limit, start, replies, clock).events;
      0 <= j < |events| && events[j].TimeRead? && events[j].time - start >= limit
    ensures var run := Loop(tokens, limit, start, replies, clock);
      j == |run.events| - 1 && run.outcome == Ok(false)
  {
    ExhaustedBudgetEndsAtOnce(tokens, limit, start, replies, clock);
  }

  /** The bounded call as a whole: it starts with the reading that becomes
      `start`; every sleep lasts its pass's reply and ends before the deadline
      measured from that reading; a later reading that shows the limit has
      elapsed is the last call and a denial. */
  lemma BoundedAwait(tokens: int, limit: int, replies: seq<int>, clock: Clock)
    requires limit > 0
    ensures var run := Await(tokens, limit, replies, clock);
      var start := clock.Now();
      && run.events != [] && run.events[0] == TimeRead(start)
      && (forall i :: 0 <= i < |run.events| && run.events[i].IsSleep() ==>
            && 3 <= i
            && run.events[i - 2] == Executed(ConsumeOrCalculateTimeToCloseDeficitCommand(tokens), LongReply(run.events[i].duration))
            && run.events[i - 1].TimeRead?
            && (run.events[i - 1].time - start) + run.events[i].duration < limit)
      && (forall i :: 1 <= i < |run.events| && run.events[i].TimeRead? && run.events[i].time - start >= limit ==>
            i == |run.events| - 1 && run.outcome == Ok(false))
  {
    var start := clock.Now();
    var run := Await(tokens, limit, replies, clock);
    var loop := Loop(tokens, limit, start, replies, clock.AfterRead());
    assert run.events == [TimeRead(start)] + loop.events;
    assert run.outcome == loop.outcome;
    forall i | 0 <= i < |run.events| && run.events[i].IsSleep()
      ensures 3 <= i
      ensures run.events[i - 2] == Executed(ConsumeOrCalculateTimeToCloseDeficitCommand(tokens), LongReply(run.events[i].duration))
      ensures run.events[i - 1].TimeRead? && (run.events[i - 1].time - start) + run.events[i].duration < limit
    {
      assert run.events[i] == loop.events[i - 1];
      BoundedSleepAt(tokens, limit, start, replies, clock.AfterRead(), i - 1);
      assert run.events[i - 1] == loop.events[i - 2];
      assert run.events[i - 2] == loop.events[i - 3];
    }
    forall i | 1 <= i < |run.events| && run.events[i].TimeRead? && run.events[i].time - start >= limit
      ensures i == |run.events| - 1 && run.outcome == Ok(false)
    {
      assert run.events[i] == loop.events[i - 1];
      ExhaustedBudgetAt(tokens, limit, start, replies, clock.AfterRead(), i - 1);
    }
  }

  /** EveryPassSameCommand at one index. */
  lemma SameCommandAt(tokens: int, limit: int, start: int, replies: seq<int>, clock: Clock, j: int)
    requires 0 <= j < |Loop(tokens, limit, start, replies, clock).events|
    ensures var e := Loop(tokens, limit, start, replies, clock).events[j];
      && !e.InitialStateSet?
      && (e.Executed? || e.ExecuteFailed? ==> e.command == ConsumeOrCalculateTimeToCloseDeficitCommand(tokens))
  {
    EveryPassSameCommand(tokens, limit, start, replies, clock);
  }

  /** The whole call sends only `ConsumeOrCalculateTimeToCloseDeficitCommand`
      for the requested tokens, and never installs state. */
  lemma AwaitSameCommand(tokens: int, limit: int, replies: seq<int>, clock: Clock)
    ensures var events := Await(tokens, limit, replies, clock).events;
      forall i :: 0 <= i < |events| ==>
        && !events[i].InitialStateSet?
        && (events[i].Executed? || events[i].ExecuteFailed? ==>
              events[i].command == ConsumeOrCalculateTimeToCloseDeficitCommand(tokens))
  {
    var events := Await(tokens, limit, replies, clock).events;
    var start := if limit > 0 then clock.Now() else 0;
    var first := if limit > 0 then clock.AfterRead() else clock;
    var shift := if limit > 0 then 1 else 0;
    var loop := Loop(tokens, limit, start, replies, first).events;
    assert events == (if limit > 0 then [TimeRead(clock.Now())] else []) + loop;
    forall i | 0 <= i < |events|
      ensures !events[i].InitialStateSet?
      ensures events[i].Executed? || events[i].ExecuteFailed? ==>
        events[i].command == ConsumeOrCalculateTimeToCloseDeficitCommand(tokens)
    {
      if i >= shift {
        assert events[i] == loop[i - shift];
        SameCommandAt(tokens, limit, start, replies, first, i - shift);
      }
    }
  }
}
