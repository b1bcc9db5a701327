/** The commands a grid bucket sends to the authority that owns its state, the
    replies they come back with, and the outcomes the bucket reports. */
module Commands {

  /** Java's Long.MAX_VALUE: the reply that means "this request can never be met". */
  const LONG_MAX: int := 0x7FFF_FFFF_FFFF_FFFF

  /** One self-contained unit of work executed atomically by the authority. */
  datatype Command =
    | ConsumeAsMuchAsPossibleCommand(limit: int)
    | TryConsumeCommand(tokensToConsume: int)
    | ConsumeOrCalculateTimeToCloseDeficitCommand(tokensToConsume: int)
    | CreateSnapshotCommand
  {
    /** The command's Java result type is `long`. */
    predicate YieldsLong() {
      ConsumeAsMuchAsPossibleCommand? || ConsumeOrCalculateTimeToCloseDeficitCommand?
    }

    /** The command's Java result type is `boolean`. */
    predicate YieldsBool() {
      TryConsumeCommand?
    }

    /** The command's Java result type is `long[]`. */
    predicate YieldsSnapshot() {
      CreateSnapshotCommand?
    }
  }

  /** The scalar (or array) result of one executed command. */
  datatype Reply =
    | LongReply(number: int)
    | BoolReply(flag: bool)
    | SnapshotReply(words: seq<int>)

  /** Why an operation did not produce a value: the proxy could not execute the
      command, or a sleep of the blocking loop was interrupted. */
  datatype Failure = TransportFailure | Interrupted

  datatype Result<+T> = Ok(value: T) | Failed(failure: Failure)
}
