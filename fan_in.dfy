/**
 * The decision core of ChatSummary (internal/handlers/chat_summary.go:109-172),
 * stated sequentially. The three goroutines and their one-slot channels are
 * replaced by a trace: the events in the order in which the handler's `select`
 * takes them. A VmDone event is the vector-memory goroutine filling its slot at
 * that point; the loop itself never receives from that slot. The trace running
 * out stands for the deadline, which always fires in the end.
 */
module FanIn {
  import opened Wrappers
  import opened Models

  datatype Event =
    | UserDone(userResult: UserResult)
    | PermsDone(permsResult: PermsResult)
    | VmDone(ctxResult: CtxResult)
    | Deadline

  datatype Kind = UserKind | PermsKind | VmKind | DeadlineKind

  function KindOf(e: Event): Kind {
    match e
    case UserDone(_) => UserKind
    case PermsDone(_) => PermsKind
    case VmDone(_) => VmKind
    case Deadline => DeadlineKind
  }

  /** Each dependency channel has one slot and exactly one send, so each dependency reports at most once. */
  predicate AtMostOnce(t: seq<Event>) {
    forall i, j :: 0 <= i < j < |t| && KindOf(t[i]) == KindOf(t[j]) ==> t[i].Deadline?
  }

  /** The handler's locals: gotUser/userRes, gotPerms/permsRes, and the vector-memory slot. */
  datatype Recorded = Recorded(user: Option<UserResult>, perms: Option<PermsResult>, vmSlot: Option<CtxResult>) {
    /** The loop condition `gotUser && gotPerms`. */
    predicate Complete() { user.Some? && perms.Some? }
  }

  const Start := Recorded(None, None, None)

  /** One non-deadline event; a second send into a full slot would block, so the slot keeps its first value. */
  function Record(r: Recorded, e: Event): Recorded {
    match e
    case UserDone(u) => r.(user := Some(u))
    case PermsDone(p) => r.(perms := Some(p))
    case VmDone(c) => if r.vmSlot.None? then r.(vmSlot := Some(c)) else r
    case Deadline => r
  }

  /**
   * How the fan-in loop ends: `at` is the number of trace events before the
   * point where it stopped (for SlaExceeded, the position of the deadline).
   */
  datatype LoopEnd =
    | SlaExceeded(at: nat)
    | Collected(at: nat, user: UserResult, perms: PermsResult, vmSlot: Option<CtxResult>)

  function Shifted(e: LoopEnd, n: nat): LoopEnd {
    e.(at := e.at + n)
  }

  /** The fan-in loop over the remaining trace, from the recorded state `r`. */
  function Loop(rest: seq<Event>, r: Recorded): (end: LoopEnd)
    ensures end.at <= |rest|
    ensures forall j :: 0 <= j < end.at ==> !rest[j].Deadline?
    ensures end.SlaExceeded? ==> !r.Complete() && (end.at == |rest| || rest[end.at].Deadline?)
    ensures end.Collected? && !r.Complete() ==>
      0 < end.at && (rest[end.at - 1].UserDone? || rest[end.at - 1].PermsDone?)
    decreases |rest|
  {
    if r.Complete() then Collected(0, r.user.value, r.perms.value, r.vmSlot)
    else if rest == [] || rest[0].Deadline? then SlaExceeded(0)
    else Shifted(Loop(rest[1..], Record(r, rest[0])), 1)
  }

  /** The loop stops at a deadline, or when the trace runs out, while a critical result is outstanding. */
  lemma LoopStops(rest: seq<Event>, r: Recorded)
    requires !r.Complete() && (rest == [] || rest[0].Deadline?)
    ensures Loop(rest, r) == SlaExceeded(0)
  {
  }

  /** Any other event is recorded and the loop takes the next one. */
  lemma LoopRecords(rest: seq<Event>, r: Recorded, n: nat)
    requires !r.Complete() && rest != [] && !rest[0].Deadline?
    ensures Shifted(Loop(rest, r), n) == Shifted(Loop(rest[1..], Record(r, rest[0])), n + 1)
  {
    ShiftedTwice(Loop(rest[1..], Record(r, rest[0])), 1, n);
  }

  /** Position of the first event of kind `k`, or |t| when there is none. */
  function FirstOf(t: seq<Event>, k: Kind): (n: nat)
    ensures n <= |t|
    ensures n < |t| ==> KindOf(t[n]) == k
    ensures forall j :: 0 <= j < n ==> KindOf(t[j]) != k
  {
    if t == [] then 0 else if KindOf(t[0]) == k then 0 else 1 + FirstOf(t[1..], k)
  }

  /**
   * Reference description of the loop's end, by positions: both critical
   * results arrive before the first deadline, or the deadline wins; the slot
   * holds vector memory's answer only if it came before the later critical one.
   */
  function Exit(t: seq<Event>): LoopEnd {
    var u, p, v, d := FirstOf(t, UserKind), FirstOf(t, PermsKind), FirstOf(t, VmKind), FirstOf(t, DeadlineKind);
    if u < d && p < d then
      var at := if u < p then p + 1 else u + 1;
      Collected(at, t[u].userResult, t[p].permsResult, if v < at then Some(t[v].ctxResult) else None)
    else SlaExceeded(d)
  }

  /** The locals after the events of `t`, in order. */
  function Replay(t: seq<Event>): Recorded
    decreases |t|
  {
    if t == [] then Start else Record(Replay(t[..|t| - 1]), t[|t| - 1])
  }

  lemma {:induction false} ReplayRecords(t: seq<Event>, k: nat)
    requires AtMostOnce(t) && k <= |t|
    ensures Replay(t[..k]).user == (var u := FirstOf(t, UserKind); if u < k then Some(t[u].userResult) else None)
    ensures Replay(t[..k]).perms == (var p := FirstOf(t, PermsKind); if p < k then Some(t[p].permsResult) else None)
    ensures Replay(t[..k]).vmSlot == (var v := FirstOf(t, VmKind); if v < k then Some(t[v].ctxResult) else None)
  {
    if k > 0 {
      ReplayRecords(t, k - 1);
      assert t[..k][..k - 1] == t[..k - 1];
      var e := t[k - 1];
      var u, p, v := FirstOf(t, UserKind), FirstOf(t, PermsKind), FirstOf(t, VmKind);
      if e.UserDone? {
        assert u == k - 1;
      } else if e.PermsDone? {
        assert p == k - 1;
      } else if e.VmDone? {
        assert v <= k - 1;
      }
    }
  }

  /** The exit position of the reference description never lies beyond the trace. */
  lemma ExitInRange(t: seq<Event>)
    ensures Exit(t).at <= |t|
  {
  }

  /** One turn of the loop: a non-deadline event is recorded and the loop goes on. */
  lemma LoopStep(t: seq<Event>, i: nat)
    requires i < |t| && !Replay(t[..i]).Complete() && !t[i].Deadline?
    ensures Loop(t[i..], Replay(t[..i])) == Shifted(Loop(t[i + 1..], Replay(t[..i + 1])), 1)
  {
    assert t[i..][1..] == t[i + 1..];
    assert t[..i + 1][..i] == t[..i];
  }

  lemma ShiftedTwice(e: LoopEnd, m: nat, n: nat)
    ensures Shifted(Shifted(e, m), n) == Shifted(e, m + n)
  {
  }

  /** Before the reference exit point the loop is still waiting and sees no deadline. */
  lemma BeforeExit(t: seq<Event>, i: nat)
    requires AtMostOnce(t) && i < Exit(t).at
    ensures i < |t| && !Replay(t[..i]).Complete() && !t[i].Deadline?
  {
    ExitInRange(t);
    ReplayRecords(t, i);
  }

  /** At the reference exit point the loop stops and reports what the reference says. */
  lemma AtExit(t: seq<Event>)
    requires AtMostOnce(t)
    ensures Exit(t).at <= |t|
    ensures Shifted(Loop(t[Exit(t).at..], Replay(t[..Exit(t).at])), Exit(t).at) == Exit(t)
  {
    ExitInRange(t);
    var i := Exit(t).at;
    ReplayRecords(t, i);
    var u, p, d := FirstOf(t, UserKind), FirstOf(t, PermsKind), FirstOf(t, DeadlineKind);
    if u < d && p < d {
      assert Replay(t[..i]).Complete();
    } else {
      assert i == d && !Replay(t[..i]).Complete();
    }
  }

  lemma {:induction false} LoopFrom(t: seq<Event>, i: nat)
    requires AtMostOnce(t) && i <= Exit(t).at
    ensures i <= |t|
    ensures Shifted(Loop(t[i..], Replay(t[..i])), i) == Exit(t)
    decreases |t| - i
  {
    if i < Exit(t).at {
      BeforeExit(t, i);
      LoopStep(t, i);
      LoopFrom(t, i + 1);
      ShiftedTwice(Loop(t[i + 1..], Replay(t[..i + 1])), 1, i);
    } else {
      AtExit(t);
    }
  }

  /** The fan-in loop run over a whole trace ends exactly as the reference description says. */
  lemma LoopIsExit(t: seq<Event>)
    requires AtMostOnce(t)
    ensures Loop(t, Start) == Exit(t)
  {
    LoopFrom(t, 0);
    assert t[0..] == t && t[..0] == [];
  }

  /** What the loop leaves behind as far as the critical dependencies are concerned. */
  function CriticalOutcome(e: LoopEnd): Option<(UserResult, PermsResult)> {
    if e.Collected? then Some((e.user, e.perms)) else None
  }

  lemma {:induction false} SameCritical(rest: seq<Event>, r: Recorded, r': Recorded)
    requires r.user == r'.user && r.perms == r'.perms
    ensures CriticalOutcome(Loop(rest, r)) == CriticalOutcome(Loop(rest, r'))
    ensures Loop(rest, r).at == Loop(rest, r').at
    decreases |rest|
  {
    if !r.Complete() && rest != [] && !rest[0].Deadline? {
      SameCritical(rest[1..], Record(r, rest[0]), Record(r', rest[0]));
    }
  }

  /**
   * A vector-memory completion, wherever it arrives, neither ends the loop nor
   * changes whether it times out or which critical results it collects.
   */
  lemma {:induction false} VmArrivalIrrelevant(a: seq<Event>, c: CtxResult, b: seq<Event>, r: Recorded)
    ensures CriticalOutcome(Loop(a + [VmDone(c)] + b, r)) == CriticalOutcome(Loop(a + b, r))
    decreases |a|
  {
    var t, t' := a + [VmDone(c)] + b, a + b;
    if r.Complete() {
    } else if a == [] {
      assert t[1..] == b && t' == b;
      SameCritical(b, Record(r, VmDone(c)), r);
    } else if a[0].Deadline? {
      assert t[0] == a[0] && t'[0] == a[0];
    } else {
      assert t[0] == a[0] && t'[0] == a[0];
      assert t[1..] == a[1..] + [VmDone(c)] + b;
      assert t'[1..] == a[1..] + b;
      VmArrivalIrrelevant(a[1..], c, b, Record(r, a[0]));
    }
  }

  lemma FirstOfSameKinds(t: seq<Event>, t': seq<Event>, k: Kind)
    requires |t| == |t'|
    requires forall m :: 0 <= m < |t| ==> (KindOf(t[m]) == k <==> KindOf(t'[m]) == k)
    ensures FirstOf(t, k) == FirstOf(t', k)
  {
  }

  /** Under AtMostOnce, a non-deadline event is the first, and only, event of its kind. */
  lemma OnlyOfKind(t: seq<Event>, n: nat)
    requires AtMostOnce(t) && n < |t| && !t[n].Deadline?
    ensures FirstOf(t, KindOf(t[n])) == n
  {
  }

  lemma SwapKeepsAtMostOnce(t: seq<Event>, i: nat, j: nat)
    requires AtMostOnce(t)
    requires i < |t| && j < |t| && t[i].UserDone? && t[j].PermsDone?
    ensures AtMostOnce(t[i := t[j]][j := t[i]])
  {
    var t' := t[i := t[j]][j := t[i]];
    forall x, y | 0 <= x < y < |t'| && KindOf(t'[x]) == KindOf(t'[y])
      ensures t'[x].Deadline?
    {
      var x0 := if x == i then j else if x == j then i else x;
      var y0 := if y == i then j else if y == j then i else y;
      assert t'[x] == t[x0] && t'[y] == t[y0];
    }
  }

  /**
   * The order in which the user and permissions answers arrive does not
   * matter: exchanging their positions leaves the loop's end unchanged.
   */
  lemma ArrivalOrderIrrelevant(t: seq<Event>, i: nat, j: nat)
    requires AtMostOnce(t)
    requires i < |t| && j < |t| && t[i].UserDone? && t[j].PermsDone?
    ensures AtMostOnce(t[i := t[j]][j := t[i]])
    ensures Loop(t[i := t[j]][j := t[i]], Start) == Loop(t, Start)
  {
    var t' := t[i := t[j]][j := t[i]];
    SwapKeepsAtMostOnce(t, i, j);
    assert t'[i] == t[j] && t'[j] == t[i];
    FirstOfSameKinds(t, t', VmKind);
    FirstOfSameKinds(t, t', DeadlineKind);
    OnlyOfKind(t, i);
    OnlyOfKind(t, j);
    OnlyOfKind(t', i);
    OnlyOfKind(t', j);
    LoopIsExit(t);
    LoopIsExit(t');
  }

  const StatusOK := 200
  const StatusBadRequest := 400
  const StatusInternalServerError := 500

  const MsgMissingIds: string := "нужны параметры user_id и chat_id"
  const MsgSlaExceeded: string := "критичный сервис не успел за SLA"
  const MsgCriticalFailed: string := "критичный сервис вернул ошибку"

  /** The JSON body: an error object, or the summary record. */
  datatype Body = ErrorBody(message: string) | SummaryBody(summary: ChatSummaryResponse)

  /** What writeJSON is asked to send: a status code and a body. */
  datatype Reply = Reply(status: int, body: Body)

  /** The answer the handler assembles once the fan-in loop has ended. */
  function Verdict(end: LoopEnd): (r: Reply)
    ensures r.status == StatusInternalServerError <==> end.SlaExceeded? || end.user.Err? || end.perms.Err?
    ensures r.status == StatusInternalServerError || r.status == StatusOK
    ensures end.SlaExceeded? ==> r.body == ErrorBody(MsgSlaExceeded)
    ensures end.Collected? && (end.user.Err? || end.perms.Err?) ==> r.body == ErrorBody(MsgCriticalFailed)
    ensures r.status == StatusOK ==>
      end.Collected? && end.user.Ok? && end.perms.Ok? && r.body.SummaryBody? &&
      r.body.summary.user == end.user.value && r.body.summary.permissions == end.perms.value
    ensures r.status == StatusOK ==>
      (r.body.summary.context.Some? <==> end.vmSlot.Some? && end.vmSlot.value.Ok?)
    ensures r.status == StatusOK && r.body.summary.context.Some? ==>
      r.body.summary.context.value == end.vmSlot.value.value
    ensures r.status == StatusOK ==> r.body.summary.degraded == r.body.summary.context.None?
  {
    match end
    case SlaExceeded(_) => Reply(StatusInternalServerError, ErrorBody(MsgSlaExceeded))
    case Collected(_, u, p, slot) =>
      if u.Err? || p.Err? then Reply(StatusInternalServerError, ErrorBody(MsgCriticalFailed))
      else
        var (context, degraded) :=
          match slot
          case Some(Ok(c)) => (Some(c), false)
          case Some(Err(_)) => (None, true)
          case None => (None, true);
        Reply(StatusOK, SummaryBody(ChatSummaryResponse(u.value, p.value, context, degraded)))
  }

  /** A critical dependency that reports an error yields 500, whether or not it beat the deadline. */
  lemma CriticalErrorIs500(t: seq<Event>, k: nat)
    requires AtMostOnce(t) && k < |t|
    requires (t[k].UserDone? && t[k].userResult.Err?) || (t[k].PermsDone? && t[k].permsResult.Err?)
    ensures Verdict(Loop(t, Start)).status == StatusInternalServerError
  {
    LoopIsExit(t);
    var u, p := FirstOf(t, UserKind), FirstOf(t, PermsKind);
    if t[k].UserDone? {
      assert u == k;
    } else {
      assert p == k;
    }
  }

  /** If every user answer in the trace is an error, the request fails with 500. */
  lemma UserErrorsAre500(t: seq<Event>)
    requires AtMostOnce(t)
    requires forall m :: 0 <= m < |t| && t[m].UserDone? ==> t[m].userResult.Err?
    ensures Verdict(Loop(t, Start)).status == StatusInternalServerError
  {
    LoopIsExit(t);
  }

  /** A critical answer that has not arrived by the first deadline yields the SLA error. */
  lemma SlowCriticalExceedsSla(t: seq<Event>)
    requires AtMostOnce(t)
    requires !(FirstOf(t, UserKind) < FirstOf(t, DeadlineKind) && FirstOf(t, PermsKind) < FirstOf(t, DeadlineKind))
    ensures Loop(t, Start) == SlaExceeded(FirstOf(t, DeadlineKind))
    ensures Verdict(Loop(t, Start)) == Reply(StatusInternalServerError, ErrorBody(MsgSlaExceeded))
  {
    LoopIsExit(t);
  }

  /**
   * Both critical calls succeed before the deadline but vector memory has not
   * answered by then: 200 with the critical payloads, no context, degraded.
   */
  lemma LateVectorMemoryDegrades(t: seq<Event>)
    requires AtMostOnce(t)
    requires var u, p, d := FirstOf(t, UserKind), FirstOf(t, PermsKind), FirstOf(t, DeadlineKind);
      u < d && p < d && t[u].userResult.Ok? && t[p].permsResult.Ok? && FirstOf(t, VmKind) > u && FirstOf(t, VmKind) > p
    ensures var r := Verdict(Loop(t, Start));
      r.status == StatusOK && r.body.summary.context.None? && r.body.summary.degraded &&
      r.body.summary.user == t[FirstOf(t, UserKind)].userResult.value &&
      r.body.summary.permissions == t[FirstOf(t, PermsKind)].permsResult.value
  {
    LoopIsExit(t);
  }

  /**
   * Both critical calls succeed before the deadline and vector memory has
   * already answered without error: 200, the context included, not degraded.
   */
  lemma EarlyVectorMemoryCompletes(t: seq<Event>)
    requires AtMostOnce(t)
    requires var u, p, v, d := FirstOf(t, UserKind), FirstOf(t, PermsKind), FirstOf(t, VmKind), FirstOf(t, DeadlineKind);
      u < d && p < d && t[u].userResult.Ok? && t[p].permsResult.Ok? && (v < u || v < p) && t[v].ctxResult.Ok?
    ensures var r := Verdict(Loop(t, Start));
      r.status == StatusOK && !r.body.summary.degraded &&
      r.body.summary.context == Some(t[FirstOf(t, VmKind)].ctxResult.value)
  {
    LoopIsExit(t);
  }

  /**
   * The delays the handler tests configure (user 10ms, permissions 50ms,
   * vector memory 100ms or 3s) put vector memory after both critical answers,
   * so the reply is degraded and carries no context.
   */
  lemma TestDelaysDegrade(u: User, p: Permissions, c: CtxResult, later: seq<Event>)
    ensures var r := Verdict(Loop([UserDone(Ok(u)), PermsDone(Ok(p)), VmDone(c)] + later, Start));
      r.status == StatusOK && r.body.summary.context.None? && r.body.summary.degraded
  {
    var t := [UserDone(Ok(u)), PermsDone(Ok(p)), VmDone(c)] + later;
    var r1 := Record(Start, UserDone(Ok(u)));
    var r2 := Record(r1, PermsDone(Ok(p)));
    assert t[1..][1..] == [VmDone(c)] + later;
    assert Loop(t[1..][1..], r2) == Collected(0, Ok(u), Ok(p), None);
    assert Loop(t[1..], r1) == Collected(1, Ok(u), Ok(p), None);
    assert Loop(t, Start) == Collected(2, Ok(u), Ok(p), None);
  }
}
