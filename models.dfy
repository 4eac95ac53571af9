/**
 * The records exchanged between the gateway and its three dependencies
 * (internal/models/models.go) and the shape of a dependency's answer
 * (internal/clients/clients.go: a value together with an error).
 */
module Models {
  import opened Wrappers

  const MinInt64: int := -0x8000_0000_0000_0000
  const MaxInt64: int := 0x7FFF_FFFF_FFFF_FFFF

  /** Go's int64. */
  newtype Int64 = x: int | MinInt64 <= x <= MaxInt64

  /** Go's time.Duration: a signed 64-bit count of nanoseconds. */
  newtype Duration = x: int | MinInt64 <= x <= MaxInt64

  datatype User = User(id: string, name: string)

  datatype Permissions = Permissions(chatId: string, userId: string, allowed: bool)

  datatype VectorContext = VectorContext(chatId: string, snippet: string, source: string, latencyMs: Int64)

  /** The body of a 200 reply; `context` is nil (None) when vector memory did not contribute. */
  datatype ChatSummaryResponse = ChatSummaryResponse(
    user: User,
    permissions: Permissions,
    context: Option<VectorContext>,
    degraded: bool)

  /** A non-nil Go error, identified by its message. */
  datatype Error = Error(message: string)

  /**
   * What a dependency call hands back: Go returns a value and an error, and
   * the handler never looks at the value when the error is non-nil.
   */
  datatype Outcome<+T> = Ok(value: T) | Err(cause: Error)

  type UserResult = Outcome<User>
  type PermsResult = Outcome<Permissions>
  type CtxResult = Outcome<VectorContext>

  /** The only errors a done context reports (ctx.Err(): context.DeadlineExceeded or context.Canceled). */
  datatype ContextErr = DeadlineExceeded | Canceled {
    function AsError(): Error {
      match this
      case DeadlineExceeded => Error("context deadline exceeded")
      case Canceled => Error("context canceled")
    }
  }
}
