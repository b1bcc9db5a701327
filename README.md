# GridBucket: the client side of a grid-backed token bucket

This project models `GridBucket`, the client-side handle of a token bucket
whose authoritative state lives on a data grid. The bucket keeps no tokens
itself. Every operation becomes a command that the bucket's `GridProxy`
executes atomically on the grid:

- the constructor installs the initial state on the proxy, once;
- `consumeAsMuchAsPossibleImpl` and `tryConsumeImpl` send one command each
  and pass the proxy's answer through unchanged;
- `createSnapshot` sends one command and wraps the returned `long[]`;
- `consumeOrAwaitImpl` is a blocking loop. Each pass sends the same
  "consume, or tell me how long to wait" command. A reply of 0 admits the
  request. `Long.MAX_VALUE` denies it at once. Any other reply is a time to
  sleep before the next pass. With a positive wait limit (bounded mode) the
  loop first reads the clock. It denies the request when the limit has
  already elapsed, or when the sleep would reach the limit.

The model has four modules:

- `Commands` (commands.dfy): the commands, their replies, and the `Result` of
  an operation, which is either a value or a `Failure`. A failure is a
  transport failure or an interrupted sleep.
- `Environment` (environment.dfy): the grid proxy and the time meter. Both
  are oracle classes. The proxy hands out replies from streams fixed in
  advance, one stream per Java result type. A stream that has run out stands
  for an unreachable grid. The time meter's `Clock` gives the k-th clock
  reading and says whether the k-th sleep is interrupted. Every proxy keeps
  a ghost log of the calls it received. A time meter and the proxies of the
  buckets built on its configuration also record their calls, interleaved,
  in one shared `Journal`; the journal and the proxies' logs are ghost
  state, a device for stating the order of calls, not Java state. `Installed` is the protocol, stated on each
  proxy's own log: the initial state is installed exactly once, before any
  command. Several buckets may share one configuration, each with its own
  proxy.
- `ConsumeOrAwait` (consume_or_await.dfy): `Loop` and `Await`, a reference
  definition of the blocking loop. They are functions of what the proxy and
  the clock will answer. Each returns the outcome, the calls made in order,
  the replies left over and the clock afterwards. The lemmas state the
  loop's properties for every such answer sequence.
- `Grid` (grid_bucket.dfy): the class `GridBucket`. Its methods change the
  proxy, the time meter and the journal. `ConsumeOrAwaitImpl` keeps the
  Java `while (true)` loop. Its body, one pass, is the method
  `AttemptConsume`. The loop is proved to make exactly the calls `Await`
  describes and to return its outcome. The loop terminates because every
  pass uses up one proxy reply.

## Model

| member | source | states |
|---|---|---|
| Environment.GridProxy.SetInitialState | src/main/java/com/github/bandwidthlimiter/bucket/grid/GridBucket.java:16 | on a proxy that has had no call, installing the state becomes its only logged call; afterwards the protocol `Installed` holds on the proxy's log and the shared journal gains exactly that call |
| Environment.GridProxy.ExecuteLong | src/main/java/com/github/bandwidthlimiter/bucket/grid/GridBucket.java:36 | a `long` command returns the next reply and appends it to the proxy's log and the journal, or fails and logs the failed call when no reply is left; the protocol is kept and the other streams are untouched |
| Environment.GridProxy.ExecuteBool | src/main/java/com/github/bandwidthlimiter/bucket/grid/GridBucket.java:26 | the same for a `boolean` command |
| Environment.GridProxy.ExecuteSnapshot | src/main/java/com/github/bandwidthlimiter/bucket/grid/GridBucket.java:61 | the same for a `long[]` command |
| Environment.TimeMeter.CurrentTime | src/main/java/com/github/bandwidthlimiter/bucket/grid/GridBucket.java:45 | returns the next clock reading, logs it, and makes no proxy call |
| Environment.TimeMeter.Sleep | src/main/java/com/github/bandwidthlimiter/bucket/grid/GridBucket.java:55 | logs a sleep of the given duration, reports whether it was interrupted, and makes no proxy call |
| Grid.GridBucket.constructor | src/main/java/com/github/bandwidthlimiter/bucket/grid/GridBucket.java:12-17 | stores the configuration and the proxy; on a proxy that has had no call yet, its log becomes exactly one `InitialStateSet` of the configuration with the initial state, so the state is installed exactly once, before any command; the journal gains that call. Other buckets may already use the same configuration and journal through their own proxies. The proxy's three reply streams are left as the caller built them |
| Grid.GridBucket.ConsumeAsMuchAsPossibleImpl | src/main/java/com/github/bandwidthlimiter/bucket/grid/GridBucket.java:20-22 | sends exactly one `ConsumeAsMuchAsPossibleCommand(limit)` and returns the proxy's reply unchanged, or the transport failure |
| Grid.GridBucket.TryConsumeImpl | src/main/java/com/github/bandwidthlimiter/bucket/grid/GridBucket.java:24-27 | sends exactly one `TryConsumeCommand(tokensToConsume)` and returns the proxy's reply unchanged, or the transport failure |
| Grid.GridBucket.ConsumeOrAwaitImpl | src/main/java/com/github/bandwidthlimiter/bucket/grid/GridBucket.java:30-57 | the outcome, the calls made in order (proxy calls, clock readings, sleeps), the replies used up and the clock afterwards are exactly those of `Await`; the proxy's own log gains exactly the proxy calls of that run, so the installed state stays first and the protocol holds afterwards |
| Grid.GridBucket.AttemptConsume | src/main/java/com/github/bandwidthlimiter/bucket/grid/GridBucket.java:36-55 | one pass either ends the loop (it is not a retrying pass) with the outcome and calls of `Loop`, or sleeps; either way the proxy's own log gains exactly the pass's command. A sleeping pass makes exactly the calls execute, (bounded mode) read the clock, sleep for the reply, and hands the rest of the replies and the clock to the next pass |
| Grid.GridBucket.CreateSnapshot | src/main/java/com/github/bandwidthlimiter/bucket/grid/GridBucket.java:60-63 | sends exactly one `CreateSnapshotCommand` and returns a `BucketState` holding exactly the returned words, or the transport failure |
| ConsumeOrAwait.Loop | src/main/java/com/github/bandwidthlimiter/bucket/grid/GridBucket.java:35-56 | the reference definition of the loop from its first pass: every run makes at least one call, and a run on a non-empty reply stream uses up at least one reply |
| ConsumeOrAwait.Await | src/main/java/com/github/bandwidthlimiter/bucket/grid/GridBucket.java:30-34 | the reference definition of the whole call: it makes at least one call, its first call is a clock reading exactly in bounded mode (`limit > 0`), and on a non-empty reply stream it uses up at least one reply |
| ConsumeOrAwait.HaltingPassOneProxyCall | src/main/java/com/github/bandwidthlimiter/bucket/grid/GridBucket.java:35-55 | a pass that ends the loop calls the proxy exactly once, first: the command, answered with the next reply, or failed when none is left |
| ConsumeOrAwait.SleepingPassOneProxyCall | src/main/java/com/github/bandwidthlimiter/bucket/grid/GridBucket.java:35-55 | a pass that sleeps calls the proxy exactly once: the command, answered with the duration it then sleeps |
| ConsumeOrAwait.RepliesConsumedInOrder | src/main/java/com/github/bandwidthlimiter/bucket/grid/GridBucket.java:35-36 | every pass asks the grid again: the replies the loop saw, followed by the replies left over, are the proxy's replies in order |
| ConsumeOrAwait.OutcomeFollowsLastEvent | src/main/java/com/github/bandwidthlimiter/bucket/grid/GridBucket.java:36-55 | the outcome is read off the last call, in both directions: admitted iff the last call was a command answered with 0; denied iff the last call was a command answered with `Long.MAX_VALUE` or a clock reading; a transport failure iff the last call was a command that could not be executed; interrupted iff the last call was an interrupted sleep |
| ConsumeOrAwait.AwaitEndsOnSentinels | src/main/java/com/github/bandwidthlimiter/bucket/grid/GridBucket.java:30-42 | for the whole call: admitted iff the last call was a command answered with 0; a reply of 0 is the last call made and the call is admitted; a `Long.MAX_VALUE` reply is the last call made and the call is denied; a command that could not be executed is the last call made and the call fails with it |
| ConsumeOrAwait.ImpossibleEndsAtOnce | src/main/java/com/github/bandwidthlimiter/bucket/grid/GridBucket.java:40-42 | a `Long.MAX_VALUE` reply is the last call of the loop (no clock reading and no sleep after it) and the outcome is a denial |
| ConsumeOrAwait.ZeroEndsAtOnce | src/main/java/com/github/bandwidthlimiter/bucket/grid/GridBucket.java:36-39 | a reply of 0 is the last call of the loop (no clock reading and no sleep after it) and the outcome is an admission |
| ConsumeOrAwait.TransportFailureEndsAtOnce | src/main/java/com/github/bandwidthlimiter/bucket/grid/GridBucket.java:36 | a command that could not be executed is the last call of the loop (no retry after it) and the outcome is that transport failure |
| ConsumeOrAwait.ExhaustedBudgetEndsAtOnce | src/main/java/com/github/bandwidthlimiter/bucket/grid/GridBucket.java:44-49 | in bounded mode, a clock reading at least `limit` after the start is the last call of the loop and the outcome is a denial, so no sleep follows it |
| ConsumeOrAwait.DeniedAtClockOnlyPastBudget | src/main/java/com/github/bandwidthlimiter/bucket/grid/GridBucket.java:44-53 | a run that ends on a clock reading is in bounded mode, the reading follows the pass's command and its reply `d`, and either the limit has elapsed or `d` reaches the remaining budget |
| ConsumeOrAwait.BoundedSleepWithinBudget | src/main/java/com/github/bandwidthlimiter/bucket/grid/GridBucket.java:50-55 | in bounded mode every sleep follows the same pass's command and clock reading, lasts exactly that command's reply, and ends before the deadline: (reading - start) + duration < limit |
| ConsumeOrAwait.BoundedAwait | src/main/java/com/github/bandwidthlimiter/bucket/grid/GridBucket.java:30-55 | for the whole bounded call, with `start` the first clock reading: the call starts with that reading; every sleep follows its pass's command and clock reading, lasts that command's reply, and ends before `start + limit`; a reading at least `limit` after `start` is the last call and a denial |
| ConsumeOrAwait.EveryPassSameCommand | src/main/java/com/github/bandwidthlimiter/bucket/grid/GridBucket.java:32-36 | every command the loop sends is `ConsumeOrCalculateTimeToCloseDeficitCommand(tokensToConsume)`, and the loop never installs state |
| ConsumeOrAwait.UnboundedPasses | src/main/java/com/github/bandwidthlimiter/bucket/grid/GridBucket.java:44-55 | with `limit <= 0` the loop never reads the clock, every sleep lasts exactly the reply just received, and a denial comes only from `Long.MAX_VALUE` |
| ConsumeOrAwait.UnboundedNeverReadsClock | src/main/java/com/github/bandwidthlimiter/bucket/grid/GridBucket.java:31-33 | the whole call in unbounded mode leaves the clock's reading count unchanged, makes no clock reading, sleeps each time for exactly the reply just received, and is denied only when its last call was answered with `Long.MAX_VALUE` |
| ConsumeOrAwait.AwaitSameCommand | src/main/java/com/github/bandwidthlimiter/bucket/grid/GridBucket.java:30-36 | every command the whole call sends is `ConsumeOrCalculateTimeToCloseDeficitCommand(tokensToConsume)`, and the call never installs state |
| ConsumeOrAwait.SleepsStayInBudget | src/main/java/com/github/bandwidthlimiter/bucket/grid/GridBucket.java:44-55 | if every clock reading shows at least `base` plus the time slept so far, then a run that sleeps at all sleeps for less than `limit - base` in total |
| ConsumeOrAwait.DeadlineRespected | src/main/java/com/github/bandwidthlimiter/bucket/grid/GridBucket.java:30-55 | in bounded mode, on a clock that advances at least by each sleep, the whole call sleeps for less than `waitIfBusyTimeLimit` in total |

## Left out

- Command semantics: the capacity and refill arithmetic of the commands is not part of this model. Command replies come from the proxy's reply streams.
- Transport: `GridProxy`'s atomicity and the distributed grid are not part of this model. The proxy is an oracle, and an empty reply stream stands for a call that cannot reach the grid.
- Transient transport failures: a transport failure is permanent in the model. Once a reply stream is empty, every later command of that result type fails, so a failure followed by a success cannot be expressed.
- Real time: readings and interruptions are supplied in advance by the `Clock`. `InterruptedException` becomes the outcome `Failed(Interrupted)`.
- Java `long` arithmetic: `currentTime - methodStartTime` and the budget subtraction are done on unbounded integers, so overflow is not modelled.
- `BandwidthAlgorithms.createInitialState(configuration)` is not part of this model. Its result is passed to the constructor as `initialState`.
- `AbstractBucket`, its public wrappers and its argument checks are not part of this model. No precondition is placed on the token counts or the wait limit.
- Termination: the Java loop may spin forever against a grid that keeps answering. The model bounds the loop by the replies the proxy has left and ends with a transport failure once none is left.
- DeadlineRespected: assumes the clock advances at least by each sleep (`ClockKeepsUp`). Without that assumption only the per-reading bound of BoundedSleepWithinBudget holds.
- Grid.GridBucket.constructor: installing the initial state is assumed to succeed. A transport failure of `setInitialState`, which makes the Java constructor throw, is not modelled.
- Grid.GridBucket.ConsumeOrAwaitImpl: the Java loop body is a separate method, `AttemptConsume`, so that each part of the proof stays small. The calls made and their order are unchanged.
