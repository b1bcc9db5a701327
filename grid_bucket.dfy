/** The client-side handle of a bucket whose state lives on a grid: every
    operation becomes a command executed through the bucket's grid proxy, and
    the blocking consume retries and sleeps on the client. */
module Grid {
  import opened Commands
  import opened Environment
  import opened ConsumeOrAwait

  /** What one pass of the blocking loop decided: `Some` outcome ends the loop,
      `None` means it slept and tries again. */
  datatype Option<+T> = None | Some(value: T)

  class GridBucket {
    const configuration: BucketConfiguration
    const gridProxy: GridProxy

    /** The proxy and the time meter record into the same journal, and the
        proxy's initial state was installed exactly once, before any command. */
    ghost predicate Valid()
      reads gridProxy
    {
      && configuration.timeMeter.journal == gridProxy.journal
      && Installed(gridProxy.calls)
    }

    /** Stores the proxy and installs the initial state on it, once. The initial
        bucket state is computed from the configuration by code outside this
        model and is passed in. */
    constructor (configuration: BucketConfiguration, gridProxy: GridProxy, initialState: BucketState)
      requires configuration.timeMeter.journal == gridProxy.journal
      requires gridProxy.calls == []
      modifies gridProxy, gridProxy.journal
      ensures this.configuration == configuration && this.gridProxy == gridProxy
      ensures Valid()
      ensures gridProxy.journal.events
        == old(gridProxy.journal.events) + [InitialStateSet(GridBucketState(configuration, initialState))]
      ensures gridProxy.calls == [InitialStateSet(GridBucketState(configuration, initialState))]
      ensures gridProxy.longReplies == old(gridProxy.longReplies) && gridProxy.boolReplies == old(gridProxy.boolReplies)
      ensures gridProxy.snapshotReplies == old(gridProxy.snapshotReplies)
    {
      this.configuration := configuration;
      this.gridProxy := gridProxy;
      new;
      var initial := GridBucketState(configuration, initialState);
      gridProxy.SetInitialState(initial);
    }

    /** Executes one ConsumeAsMuchAsPossibleCommand(limit) and returns the
        proxy's result unchanged. */
    method ConsumeAsMuchAsPossibleImpl(limit: int) returns (consumed: Result<int>)
      requires Valid()
      modifies gridProxy, gridProxy.journal
      ensures Valid()
      ensures gridProxy.boolReplies == old(gridProxy.boolReplies)
      ensures gridProxy.snapshotReplies == old(gridProxy.snapshotReplies)
      ensures old(gridProxy.longReplies) == [] ==>
        && consumed == Failed(TransportFailure) && gridProxy.longReplies == []
        && gridProxy.calls == old(gridProxy.calls) + [ExecuteFailed(ConsumeAsMuchAsPossibleCommand(limit))]
        && gridProxy.journal.events == old(gridProxy.journal.events) + [ExecuteFailed(ConsumeAsMuchAsPossibleCommand(limit))]
      ensures old(gridProxy.longReplies) != [] ==>
        && consumed == Ok(old(gridProxy.longReplies)[0])
        && gridProxy.longReplies == old(gridProxy.longReplies)[1..]
        && gridProxy.calls == old(gridProxy.calls) + [Executed(ConsumeAsMuchAsPossibleCommand(limit), LongReply(consumed.value))]
        && gridProxy.journal.events
           == old(gridProxy.journal.events) + [Executed(ConsumeAsMuchAsPossibleCommand(limit), LongReply(consumed.value))]
    {
      consumed := gridProxy.ExecuteLong(ConsumeAsMuchAsPossibleCommand(limit));
    }

    /** Executes one TryConsumeCommand(tokensToConsume) and returns the proxy's
        result unchanged. */
    method TryConsumeImpl(tokensToConsume: int) returns (admitted: Result<bool>)
      requires Valid()
      modifies gridProxy, gridProxy.journal
      ensures Valid()
      ensures gridProxy.longReplies == old(gridProxy.longReplies)
      ensures gridProxy.snapshotReplies == old(gridProxy.snapshotReplies)
      ensures old(gridProxy.boolReplies) == [] ==>
        && admitted == Failed(TransportFailure) && gridProxy.boolReplies == []
        && gridProxy.calls == old(gridProxy.calls) + [ExecuteFailed(TryConsumeCommand(tokensToConsume))]
        && gridProxy.journal.events == old(gridProxy.journal.events) + [ExecuteFailed(TryConsumeCommand(tokensToConsume))]
      ensures old(gridProxy.boolReplies) != [] ==>
        && admitted == Ok(old(gridProxy.boolReplies)[0])
        && gridProxy.boolReplies == old(gridProxy.boolReplies)[1..]
        && gridProxy.calls == old(gridProxy.calls) + [Executed(TryConsumeCommand(tokensToConsume), BoolReply(admitted.value))]
        && gridProxy.journal.events
           == old(gridProxy.journal.events) + [Executed(TryConsumeCommand(tokensToConsume), BoolReply(admitted.value))]
    {
      admitted := gridProxy.ExecuteBool(TryConsumeCommand(tokensToConsume));
    }

    /** Consumes `tokensToConsume`, waiting for them if needed; a positive
        `waitIfBusyTimeLimit` bounds the wait. The calls made and the outcome
        are exactly those of the reference definition Await, run on what the
        proxy and the time meter answer. */
    method ConsumeOrAwaitImpl(tokensToConsume: int, waitIfBusyTimeLimit: int) returns (admitted: Result<bool>)
      requires Valid()
      modifies gridProxy, gridProxy.journal, configuration.timeMeter
      ensures Valid()
      ensures var run := Await(tokensToConsume, waitIfBusyTimeLimit, old(gridProxy.longReplies), old(configuration.timeMeter.clock));
        && admitted == run.outcome
        && gridProxy.calls == old(gridProxy.calls) + ProxyCalls(run.events)
        && gridProxy.journal.events == old(gridProxy.journal.events) + run.events
        && gridProxy.longReplies == run.replies
        && configuration.timeMeter.clock == run.clock
      ensures gridProxy.boolReplies == old(gridProxy.boolReplies)
      ensures gridProxy.snapshotReplies == old(gridProxy.snapshotReplies)
    {
      var timeMeter := configuration.timeMeter;
      ghost var journal := gridProxy.journal;
      ghost var whole := Await(tokensToConsume, waitIfBusyTimeLimit, gridProxy.longReplies, timeMeter.clock);
      var isWaitingLimited := waitIfBusyTimeLimit > 0;
      var methodStartTime := 0;
      if isWaitingLimited {
        methodStartTime := timeMeter.CurrentTime();
      }
      // the calls made so far
      ghost var done := journal.events[|old(journal.events)|..];
      ProxyCallsQuiet(done);

      while true
        invariant Valid()
        invariant gridProxy.boolReplies == old(gridProxy.boolReplies)
        invariant gridProxy.snapshotReplies == old(gridProxy.snapshotReplies)
        invariant journal.events == old(journal.events) + done
        invariant gridProxy.calls == old(gridProxy.calls) + ProxyCalls(done)
        invariant var rest := Loop(tokensToConsume, waitIfBusyTimeLimit, methodStartTime, gridProxy.longReplies, timeMeter.clock);
          && rest.outcome == whole.outcome
          && rest.replies == whole.replies
          && rest.clock == whole.clock
          && whole.events == done + rest.events
        decreases |gridProxy.longReplies|
      {
        ghost var replies := gridProxy.longReplies;
        ghost var clock := timeMeter.clock;
        var verdict := AttemptConsume(tokensToConsume, waitIfBusyTimeLimit, methodStartTime);
        if verdict.Some? {
          AppendAssoc(old(journal.events), done, Loop(tokensToConsume, waitIfBusyTimeLimit, methodStartTime, replies, clock).events);
          HaltingPassOneProxyCall(tokensToConsume, waitIfBusyTimeLimit, methodStartTime, replies, clock);
          ProxyCallsExtend(old(gridProxy.calls), done, Loop(tokensToConsume, waitIfBusyTimeLimit, methodStartTime, replies, clock).events);
          admitted := verdict.value;
          break;
        }
        ghost var pass := SleepingPass(tokensToConsume, waitIfBusyTimeLimit, replies[0], clock);
        RetryStep(tokensToConsume, waitIfBusyTimeLimit, methodStartTime, replies, clock);
        AppendAssoc(done, pass, Loop(tokensToConsume, waitIfBusyTimeLimit, methodStartTime, replies[1..], Resumed(waitIfBusyTimeLimit, clock)).events);
        AppendAssoc(old(journal.events), done, pass);
        SleepingPassOneProxyCall(tokensToConsume, waitIfBusyTimeLimit, replies[0], clock);
        ProxyCallsExtend(old(gridProxy.calls), done, pass);
        done := done + pass;
      }
    }

    /** One pass of the blocking consume: executes the consume-or-report-deficit
        command once and either reaches the verdict of the whole loop (`Some`)
        or sleeps for the reported deficit and leaves the loop going (`None`).
        `methodStartTime` is the time read when the bounded wait began. */
    method AttemptConsume(tokensToConsume: int, waitIfBusyTimeLimit: int, methodStartTime: int)
      returns (verdict: Option<Result<bool>>)
      requires Valid()
      modifies gridProxy, gridProxy.journal, configuration.timeMeter
      ensures Valid()
      ensures gridProxy.boolReplies == old(gridProxy.boolReplies)
      ensures gridProxy.snapshotReplies == old(gridProxy.snapshotReplies)
      ensures var run := Loop(tokensToConsume, waitIfBusyTimeLimit, methodStartTime, old(gridProxy.longReplies), old(configuration.timeMeter.clock));
        verdict.Some? ==>
          && !Retries(waitIfBusyTimeLimit, methodStartTime, old(gridProxy.longReplies), old(configuration.timeMeter.clock))
          && verdict.value == run.outcome
          && gridProxy.calls == old(gridProxy.calls) + [run.events[0]]
          && gridProxy.journal.events == old(gridProxy.journal.events) + run.events
          && gridProxy.longReplies == run.replies
          && configuration.timeMeter.clock == run.clock
      ensures verdict.None? ==>
          && Retries(waitIfBusyTimeLimit, methodStartTime, old(gridProxy.longReplies), old(configuration.timeMeter.clock))
          && gridProxy.calls == old(gridProxy.calls)
             + [Executed(ConsumeOrCalculateTimeToCloseDeficitCommand(tokensToConsume), LongReply(old(gridProxy.longReplies)[0]))]
          && gridProxy.journal.events == old(gridProxy.journal.events)
             + SleepingPass(tokensToConsume, waitIfBusyTimeLimit, old(gridProxy.longReplies)[0], old(configuration.timeMeter.clock))
          && gridProxy.longReplies == old(gridProxy.longReplies)[1..]
          && configuration.timeMeter.clock == Resumed(waitIfBusyTimeLimit, old(configuration.timeMeter.clock))
    {
      var timeMeter := configuration.timeMeter;
      ghost var journal := gridProxy.journal;
      ghost var replies := gridProxy.longReplies;
      ghost var clock := timeMeter.clock;
      ghost var rest := Loop(tokensToConsume, waitIfBusyTimeLimit, methodStartTime, replies, clock);
      var isWaitingLimited := waitIfBusyTimeLimit > 0;
      var consumeCommand := ConsumeOrCalculateTimeToCloseDeficitCommand(tokensToConsume);
      var reply := gridProxy.ExecuteLong(consumeCommand);
      if reply.Failed? {
        return Some(Failed(reply.failure));
      }
      var timeToCloseDeficit := reply.value;
      ghost var pass := [Executed(consumeCommand, LongReply(timeToCloseDeficit))];
      assert replies != [] && timeToCloseDeficit == replies[0];
      if timeToCloseDeficit == 0 {
        return Some(Ok(true));
      }
      if timeToCloseDeficit == LONG_MAX {
        return Some(Ok(false));
      }

      if isWaitingLimited {
        var currentTime := timeMeter.CurrentTime();
        pass := pass + [TimeRead(currentTime)];
        var methodDuration := currentTime - methodStartTime;
        if methodDuration >= waitIfBusyTimeLimit {
          assert rest.events == pass;
          return Some(Ok(false));
        }
        var sleepingTimeLimit := waitIfBusyTimeLimit - methodDuration;
        if timeToCloseDeficit >= sleepingTimeLimit {
          assert rest.events == pass;
          return Some(Ok(false));
        }
      }
      var interrupted := timeMeter.Sleep(timeToCloseDeficit);
      if interrupted {
        pass := pass + [SleepInterrupted(timeToCloseDeficit)];
        assert rest.events == pass;
        return Some(Failed(Interrupted));
      }
      pass := pass + [Slept(timeToCloseDeficit)];
      assert pass == SleepingPass(tokensToConsume, waitIfBusyTimeLimit, timeToCloseDeficit, clock);
      verdict := None;
    }

    /** Executes one CreateSnapshotCommand and wraps exactly the words it
        returns as a BucketState. */
    method CreateSnapshot() returns (snapshot: Result<BucketState>)
      requires Valid()
      modifies gridProxy, gridProxy.journal
      ensures Valid()
      ensures gridProxy.longReplies == old(gridProxy.longReplies)
      ensures gridProxy.boolReplies == old(gridProxy.boolReplies)
      ensures old(gridProxy.snapshotReplies) == [] ==>
        && snapshot == Failed(TransportFailure) && gridProxy.snapshotReplies == []
        && gridProxy.calls == old(gridProxy.calls) + [ExecuteFailed(CreateSnapshotCommand)]
        && gridProxy.journal.events == old(gridProxy.journal.events) + [ExecuteFailed(CreateSnapshotCommand)]
      ensures old(gridProxy.snapshotReplies) != [] ==>
        && snapshot == Ok(BucketState(old(gridProxy.snapshotReplies)[0]))
        && gridProxy.snapshotReplies == old(gridProxy.snapshotReplies)[1..]
        && gridProxy.calls == old(gridProxy.calls) + [Executed(CreateSnapshotCommand, SnapshotReply(snapshot.value.words))]
        && gridProxy.journal.events
           == old(gridProxy.journal.events) + [Executed(CreateSnapshotCommand, SnapshotReply(snapshot.value.words))]
    {
      var snapshotBytes := gridProxy.ExecuteSnapshot(CreateSnapshotCommand);
      if snapshotBytes.Failed? {
        return Failed(snapshotBytes.failure);
      }
      snapshot := Ok(BucketState(snapshotBytes.value));
    }
  }
}
