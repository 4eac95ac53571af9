/**
 * The ChatSummary handler (internal/handlers/handlers.go and
 * internal/handlers/chat_summary.go): validation, the per-request copy of the
 * dependency configuration with query-string overrides, the fan-in loop over
 * an event trace, and the reply.
 */
module Handlers {
  import opened Wrappers
  import opened Models
  import opened Mocks
  import opened QueryParams
  import opened FanIn

  /** The dependency configuration one request runs with. */
  datatype Clients = Clients(users: UserServiceMock, perms: PermissionsServiceMock, vm: VectorMemoryMock)

  /** A request lacks one of the two identifiers the handler needs. */
  predicate MissingIds(q: Query) {
    QueryGet(q, "user_id") == "" || QueryGet(q, "chat_id") == ""
  }

  /** A duration override applies exactly when the value is non-empty and time.ParseDuration accepts it. */
  predicate DelayOverridden(q: Query, key: string, lib: DurationParser) {
    QueryGet(q, key) != "" && lib(QueryGet(q, key)).Some?
  }

  /** Keeps the configured value unless the parser succeeded. */
  function OrKeep<T>(configured: T, p: Parsed<T>): (v: T)
    ensures p.ok ==> v == p.value
    ensures !p.ok ==> v == configured
  {
    if p.ok then p.value else configured
  }

  function OverrideUsers(base: UserServiceMock, q: Query, lib: DurationParser): (r: UserServiceMock)
    ensures DelayOverridden(q, "user_delay", lib) ==> r.delay == lib(QueryGet(q, "user_delay")).value
    ensures !DelayOverridden(q, "user_delay", lib) ==> r.delay == base.delay
    ensures QueryGet(q, "user_fail") in TrueWords ==> r.fail
    ensures QueryGet(q, "user_fail") in FalseWords ==> !r.fail
    ensures QueryGet(q, "user_fail") !in TrueWords + FalseWords ==> r.fail == base.fail
  {
    base.(delay := OrKeep(base.delay, ParseDuration(QueryGet(q, "user_delay"), lib)),
          fail := OrKeep(base.fail, ParseBool(QueryGet(q, "user_fail"))))
  }

  function OverridePerms(base: PermissionsServiceMock, q: Query, lib: DurationParser): (r: PermissionsServiceMock)
    ensures DelayOverridden(q, "perms_delay", lib) ==> r.delay == lib(QueryGet(q, "perms_delay")).value
    ensures !DelayOverridden(q, "perms_delay", lib) ==> r.delay == base.delay
    ensures QueryGet(q, "perms_fail") in TrueWords ==> r.fail
    ensures QueryGet(q, "perms_fail") in FalseWords ==> !r.fail
    ensures QueryGet(q, "perms_fail") !in TrueWords + FalseWords ==> r.fail == base.fail
    ensures QueryGet(q, "perms_allowed") in TrueWords ==> r.allowed
    ensures QueryGet(q, "perms_allowed") in FalseWords ==> !r.allowed
    ensures QueryGet(q, "perms_allowed") !in TrueWords + FalseWords ==> r.allowed == base.allowed
  {
    base.(delay := OrKeep(base.delay, ParseDuration(QueryGet(q, "perms_delay"), lib)),
          fail := OrKeep(base.fail, ParseBool(QueryGet(q, "perms_fail"))),
          allowed := OrKeep(base.allowed, ParseBool(QueryGet(q, "perms_allowed"))))
  }

  function OverrideVm(base: VectorMemoryMock, q: Query, lib: DurationParser): (r: VectorMemoryMock)
    ensures DelayOverridden(q, "vm_delay", lib) ==> r.delay == lib(QueryGet(q, "vm_delay")).value
    ensures !DelayOverridden(q, "vm_delay", lib) ==> r.delay == base.delay
    ensures QueryGet(q, "vm_fail") in TrueWords ==> r.fail
    ensures QueryGet(q, "vm_fail") in FalseWords ==> !r.fail
    ensures QueryGet(q, "vm_fail") !in TrueWords + FalseWords ==> r.fail == base.fail
  {
    base.(delay := OrKeep(base.delay, ParseDuration(QueryGet(q, "vm_delay"), lib)),
          fail := OrKeep(base.fail, ParseBool(QueryGet(q, "vm_fail"))))
  }

  /** None of the override parameters is present. */
  predicate NoOverrides(q: Query) {
    "user_delay" !in q && "user_fail" !in q &&
    "perms_delay" !in q && "perms_fail" !in q && "perms_allowed" !in q &&
    "vm_delay" !in q && "vm_fail" !in q
  }

  /** The configuration a request dispatches with: each dependency's own copy, overridden from the query. */
  function PerRequestClients(c: Clients, q: Query, lib: DurationParser): (r: Clients)
    ensures NoOverrides(q) ==> r == c
  {
    Clients(OverrideUsers(c.users, q, lib), OverridePerms(c.perms, q, lib), OverrideVm(c.vm, q, lib))
  }

  /** The reply for a request without user_id or chat_id. */
  const BadRequest := Reply(StatusBadRequest, ErrorBody(MsgMissingIds))

  /**
   * The handler object, shared by every request. ChatSummary has no modifies
   * clause, so the verifier holds it to never writing these fields: overrides
   * only ever touch the per-request copies.
   */
  class Handlers {
    var users: UserServiceMock
    var perms: PermissionsServiceMock
    var vm: VectorMemoryMock

    constructor New(users: UserServiceMock, perms: PermissionsServiceMock, vm: VectorMemoryMock)
      ensures this.users == users && this.perms == perms && this.vm == vm
    {
      this.users := users;
      this.perms := perms;
      this.vm := vm;
    }

    /**
     * One request. `q` is the parsed query string, `lib` stands for
     * time.ParseDuration, and `trace` lists what the handler's select takes,
     * in order (see module FanIn). `dispatched` is the configuration the three
     * dependency calls were started with, or None when none was started.
     */
    method ChatSummary(q: Query, lib: DurationParser, trace: seq<Event>) returns (reply: Reply, dispatched: Option<Clients>)
      ensures dispatched.None? <==> MissingIds(q)
      ensures dispatched.None? ==> reply == BadRequest
      ensures dispatched.Some? ==> dispatched.value == PerRequestClients(Clients(users, perms, vm), q, lib)
      ensures dispatched.Some? ==> reply == Verdict(Loop(trace, Start))
    {
      var userId := QueryGet(q, "user_id");
      var chatId := QueryGet(q, "chat_id");
      if userId == "" || chatId == "" {
        reply, dispatched := BadRequest, None;
        return;
      }

      var clients := PerRequestCopy(q, lib);
      dispatched := Some(clients);
      reply := Collect(trace);
    }

    /** The override step: copies of the shared configuration, changed field by field where a parameter parses. */
    method PerRequestCopy(q: Query, lib: DurationParser) returns (c: Clients)
      ensures c == PerRequestClients(Clients(users, perms, vm), q, lib)
    {
      var usersClient, permsClient, vmClient := users, perms, vm;

      var ub := users;
      var d := ParseDuration(QueryGet(q, "user_delay"), lib);
      if d.ok { ub := ub.(delay := d.value); }
      var b := ParseBool(QueryGet(q, "user_fail"));
      if b.ok { ub := ub.(fail := b.value); }
      usersClient := ub;
      assert usersClient == OverrideUsers(users, q, lib);

      var pb := perms;
      d := ParseDuration(QueryGet(q, "perms_delay"), lib);
      if d.ok { pb := pb.(delay := d.value); }
      b := ParseBool(QueryGet(q, "perms_fail"));
      if b.ok { pb := pb.(fail := b.value); }
      b := ParseBool(QueryGet(q, "perms_allowed"));
      if b.ok { pb := pb.(allowed := b.value); }
      permsClient := pb;
      assert permsClient == OverridePerms(perms, q, lib);

      var vb := vm;
      d := ParseDuration(QueryGet(q, "vm_delay"), lib);
      if d.ok { vb := vb.(delay := d.value); }
      b := ParseBool(QueryGet(q, "vm_fail"));
      if b.ok { vb := vb.(fail := b.value); }
      vmClient := vb;
      assert vmClient == OverrideVm(vm, q, lib);

      c := Clients(usersClient, permsClient, vmClient);
    }
  }

  /**
   * Fan-in and reply assembly: the select loop over the trace until both
   * critical results are in or the deadline is taken, the critical-error check,
   * and one non-blocking read of the vector-memory slot.
   */
  method Collect(trace: seq<Event>) returns (reply: Reply)
    ensures reply == Verdict(Loop(trace, Start))
  {
    // Go's zero values stand in for the results not yet received.
    var userRes: UserResult := Ok(User("", ""));
    var permsRes: PermsResult := Ok(Permissions("", "", false));
    var gotUser, gotPerms := false, false;
    var vmSlot: Option<CtxResult> := None;
    var i := 0;
    while !(gotUser && gotPerms)
      invariant 0 <= i <= |trace|
      invariant Loop(trace, Start) ==
        Shifted(Loop(trace[i..], Recorded(if gotUser then Some(userRes) else None,
                                           if gotPerms then Some(permsRes) else None,
                                           vmSlot)), i)
      decreases |trace| - i
    {
      // Running out of events is the deadline firing.
      var e := if i < |trace| then trace[i] else Deadline;
      ghost var before := Recorded(if gotUser then Some(userRes) else None,
                                   if gotPerms then Some(permsRes) else None,
                                   vmSlot);
      if e.Deadline? {
        LoopStops(trace[i..], before);
        reply := Reply(StatusInternalServerError, ErrorBody(MsgSlaExceeded));
        return;
      }
      LoopRecords(trace[i..], before, i);
      assert trace[i..][1..] == trace[i + 1..];
      match e {
        case UserDone(ur) =>
          gotUser, userRes := true, ur;
        case PermsDone(pr) =>
          gotPerms, permsRes := true, pr;
        case VmDone(vr) =>
          // The vector-memory goroutine fills its slot; the loop does not receive from it.
          if vmSlot.None? { vmSlot := Some(vr); }
      }
      i := i + 1;
    }

    if userRes.Err? || permsRes.Err? {
      reply := Reply(StatusInternalServerError, ErrorBody(MsgCriticalFailed));
      return;
    }

    // One non-blocking read of the vector-memory slot.
    var contextData: Option<VectorContext> := None;
    var degraded: bool;
    match vmSlot {
      case Some(vr) =>
        if vr.Ok? {
          contextData, degraded := Some(vr.value), false;
        } else {
          degraded := true;
        }
      case None =>
        // Vector memory has not answered yet.
        degraded := true;
    }
    reply := Reply(StatusOK, SummaryBody(ChatSummaryResponse(userRes.value, permsRes.value, contextData, degraded)));
  }

  /** A user mock configured to fail makes every request that reaches the fan-in fail with 500. */
  lemma FailingUserMockIs500(cfg: UserServiceMock, userId: string, cancelled: Option<ContextErr>, t: seq<Event>)
    requires cfg.fail && AtMostOnce(t)
    requires forall m :: 0 <= m < |t| && t[m].UserDone? ==> t[m].userResult == GetUser(cfg, userId, cancelled)
    ensures Verdict(Loop(t, Start)).status == StatusInternalServerError
  {
    forall m | 0 <= m < |t| && t[m].UserDone?
      ensures t[m].userResult.Err?
    {
      assert t[m].userResult == GetUser(cfg, userId, cancelled);
    }
    UserErrorsAre500(t);
  }

  /**
   * user_fail=1 (or any true spelling): whatever the timing and the order of
   * events, the request fails with 500.
   */
  lemma UserFailOverrideIs500(base: UserServiceMock, q: Query, lib: DurationParser, t: seq<Event>, cancelled: Option<ContextErr>)
    requires QueryGet(q, "user_fail") in TrueWords && AtMostOnce(t)
    requires forall m :: 0 <= m < |t| && t[m].UserDone? ==>
      t[m].userResult == GetUser(OverrideUsers(base, q, lib), QueryGet(q, "user_id"), cancelled)
    ensures Verdict(Loop(t, Start)).status == StatusInternalServerError
  {
    FailingUserMockIs500(OverrideUsers(base, q, lib), QueryGet(q, "user_id"), cancelled, t);
  }
}
