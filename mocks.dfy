/**
 * The configurable stand-ins for the three dependencies (internal/mocks/mocks.go).
 * Only the answer each one reports is modelled; the delay itself is time, which
 * the model replaces by the order of events in a trace. `cancelled` says whether
 * the shared context was done before the mock's timer fired, and with which of
 * the two context errors.
 */
module Mocks {
  import opened Wrappers
  import opened Models

  datatype UserServiceMock = UserServiceMock(delay: Duration, fail: bool)

  datatype PermissionsServiceMock = PermissionsServiceMock(delay: Duration, fail: bool, allowed: bool)

  datatype VectorMemoryMock = VectorMemoryMock(delay: Duration, fail: bool)

  const ErrUserService := Error("user service error")
  const ErrPermissionsService := Error("permissions service error")
  const ErrVectorMemory := Error("vector memory error")

  /** The name every successful user lookup reports. */
  const MockUserName: string := "Иван"
  const MockSnippet: string := "Контекст из VectorMemory (пример)"
  const MockSource: string := "vector"

  /** sleepCtx: no wait at all for a non-positive delay, otherwise the context's error if it fires first. */
  function SleepCtx(delay: Duration, cancelled: Option<ContextErr>): (r: Option<Error>)
    ensures r.Some? <==> delay > 0 && cancelled.Some?
    ensures r.Some? ==> r == Some(cancelled.value.AsError())
  {
    if delay <= 0 then None else match cancelled
      case None => None
      case Some(e) => Some(e.AsError())
  }

  function GetUser(m: UserServiceMock, userId: string, cancelled: Option<ContextErr>): (r: UserResult)
    ensures r.Ok? <==> !m.fail && SleepCtx(m.delay, cancelled).None?
    ensures r.Ok? ==> r.value == User(userId, MockUserName)
    ensures m.fail ==> r.Err?
  {
    match SleepCtx(m.delay, cancelled)
    case Some(e) => Err(e)
    case None => if m.fail then Err(ErrUserService) else Ok(User(userId, MockUserName))
  }

  function CheckAccess(m: PermissionsServiceMock, userId: string, chatId: string, cancelled: Option<ContextErr>): (r: PermsResult)
    ensures r.Ok? <==> !m.fail && SleepCtx(m.delay, cancelled).None?
    ensures r.Ok? ==> r.value == Permissions(chatId, userId, m.allowed)
    ensures m.fail ==> r.Err?
  {
    match SleepCtx(m.delay, cancelled)
    case Some(e) => Err(e)
    case None => if m.fail then Err(ErrPermissionsService) else Ok(Permissions(chatId, userId, m.allowed))
  }

  /** `elapsedMs` is what time.Since(start).Milliseconds() would read. */
  function GetContext(m: VectorMemoryMock, chatId: string, cancelled: Option<ContextErr>, elapsedMs: Int64): (r: CtxResult)
    ensures r.Ok? <==> !m.fail && SleepCtx(m.delay, cancelled).None?
    ensures r.Ok? ==> r.value == VectorContext(chatId, MockSnippet, MockSource, elapsedMs)
    ensures m.fail ==> r.Err?
  {
    match SleepCtx(m.delay, cancelled)
    case Some(e) => Err(e)
    case None =>
      if m.fail then Err(ErrVectorMemory)
      else Ok(VectorContext(chatId, MockSnippet, MockSource, elapsedMs))
  }
}
