/** The approval-gated tool harness as a state machine. */
module Harness {
  import opened Common

  /** A resolved absolute path. */
  datatype Path = Path(parts: seq<string>) {
    function Name(): string { if parts == [] then "" else parts[|parts| - 1] }
    function Parent(): Path { if parts == [] then this else Path(parts[..|parts| - 1]) }
  }

  predicate Inside(root: Path, p: Path) { root.parts <= p.parts }

  predicate StartsWith(s: string, prefix: string) { prefix <= s }

  predicate EndsWith(s: string, suffix: string) { |suffix| <= |s| && s[|s| - |suffix|..] == suffix }

  /** Environment files, which no read may reach. */
  predicate Protected(p: Path) {
    p.Name() != ".env.example" && (p.Name() == ".env" || EndsWith(p.Name(), ".env") || StartsWith(p.Name(), ".env."))
  }

  datatype Response = Once | Always | Reject | OtherResponse

  /** An approval record as presented; `valid` is the answer of its own validity check. */
  datatype Approval = Approval(
    id: string, runId: string, action: string, risk: string, argumentsDigest: string, subject: string,
    denied: bool, response: Response, valid: bool)

  /** The workspace, the snapshot the approvals are bound to, and the argument digest. */
  datatype Env = Env(root: Path, subject: string, digest: (string, Path) -> string)

  const RUN_ID := "run-opencode-harness-001"
  const ACTION := "filesystem.read"
  const RISK := "external_directory"

  function RequestId(callId: string): string { "approval-" + callId }

  datatype EventKind = PartUpdated | PermissionAsked | PermissionReplied | OtherEvent

  datatype CallState = Pending | Running | Completed | Error | PendingApproval | NoState

  datatype Event = Event(sequence: nat, kind: EventKind, callId: string, state: CallState)

  datatype ToolCall = ToolCall(callId: string, tool: string)

  /** One `read` call: the path as first resolved, as resolved again before execution, the
      approval presented, and whether the reader returns. */
  datatype ReadCall = ReadCall(callId: string, target: Path, again: Path, approval: Option<Approval>,
                               readerReturns: bool)

  datatype Reply = Reply(state: CallState) | Raised

  datatype State = State(
    events: seq<Event>,
    toolCalls: seq<ToolCall>,
    allowed: set<Path>,
    consumed: set<string>,
    readLog: seq<Path>)
  {
    function Emit(kind: EventKind, callId: string, state: CallState): State {
      this.(events := events + [Event(|events| + 1, kind, callId, state)])
    }

    predicate Knows(callId: string) { exists i :: 0 <= i < |toolCalls| && toolCalls[i].callId == callId }

    function Register(callId: string, tool: string): State { this.(toolCalls := toolCalls + [ToolCall(callId, tool)]) }
  }

  const INITIAL := State([], [], {}, {}, [])

  predicate SameRequest(env: Env, c: ReadCall, a: Approval) {
    && a.id == RequestId(c.callId)
    && a.runId == RUN_ID
    && a.action == ACTION
    && a.risk == RISK
    && a.argumentsDigest == env.digest(c.callId, c.target)
    && a.subject == env.subject
  }

  predicate Rejected(a: Approval) { a.denied || a.response == Reject }

  /** The approval may be spent on this call now. */
  predicate Spendable(env: Env, s: State, c: ReadCall, a: Approval) {
    SameRequest(env, c, a) && !Rejected(a) && (a.response == Once || a.response == Always) && a.id !in s.consumed
      && a.valid
  }

  /** Registration of the call, once. */
  function Opened(s: State, callId: string): State {
    if s.Knows(callId) then s else s.Register(callId, "read").Emit(PartUpdated, callId, Pending)
  }

  /** Execution: the target must not have moved if it lies outside, then the reader runs. */
  function Execute(env: Env, s: State, c: ReadCall): (State, Reply) {
    if !Inside(env.root, c.target) && c.again != c.target then (s.Emit(PartUpdated, c.callId, Error), Reply(Error))
    else
      var running := s.Emit(PartUpdated, c.callId, Running).(readLog := s.readLog + [c.target]);
      if c.readerReturns then (running.Emit(PartUpdated, c.callId, Completed), Reply(Completed)) else (running, Raised)
  }

  /** The state after the approval has been spent. */
  function Spend(s: State, c: ReadCall, a: Approval): State {
    s.(consumed := s.consumed + {a.id},
       allowed := if a.response == Always then s.allowed + {c.target.Parent()} else s.allowed)
     .Emit(PermissionReplied, c.callId, NoState)
  }

  function ReadStep(env: Env, s0: State, c: ReadCall): (State, Reply) {
    var s := Opened(s0, c.callId);
    if Protected(c.target) then (s.Emit(PartUpdated, c.callId, Error), Reply(Error))
    else if Inside(env.root, c.target) || c.target.Parent() in s.allowed then Execute(env, s, c)
    else match c.approval
      case None => (s.Emit(PermissionAsked, c.callId, NoState), Reply(PendingApproval))
      case Some(a) =>
        if !SameRequest(env, c, a) then (s.Emit(PartUpdated, c.callId, Error), Reply(Error))
        else if Rejected(a) then
          (s.Emit(PermissionReplied, c.callId, NoState).Emit(PartUpdated, c.callId, Error), Reply(Error))
        else if !Spendable(env, s, c, a) then (s.Emit(PartUpdated, c.callId, Error), Reply(Error))
        else Execute(env, Spend(s, c, a), c)
  }

  /** `edit` and `check_python`: a target outside is refused; a failure part-way raises. */
  function LocalStep(env: Env, s: State, callId: string, tool: string, target: Path, succeeds: bool): (State, Reply) {
    if !Inside(env.root, target) then (s, Raised)
    else
      var running := s.Register(callId, tool).Emit(PartUpdated, callId, Pending).Emit(PartUpdated, callId, Running);
      if succeeds then (running.Emit(PartUpdated, callId, Completed), Reply(Completed)) else (running, Raised)
  }

  /** The harness object. `readLog` records each target handed to the reader. */
  class OpenCodeHarness {
    const env: Env
    var events: seq<Event>
    var toolCalls: seq<ToolCall>
    var alwaysAllowedDirectories: set<Path>
    var consumedApprovals: set<string>
    var readLog: seq<Path>

    constructor (env: Env)
      ensures this.env == env && View() == INITIAL
    {
      this.env := env;
      events, toolCalls, alwaysAllowedDirectories, consumedApprovals, readLog := [], [], {}, {}, [];
    }

    function View(): State
      reads this
    {
      State(events, toolCalls, alwaysAllowedDirectories, consumedApprovals, readLog)
    }

    method Emit(kind: EventKind, callId: string, state: CallState)
      modifies this`events
      ensures View() == old(View()).Emit(kind, callId, state)
    {
      events := events + [Event(|events| + 1, kind, callId, state)];
    }

    method Read(c: ReadCall) returns (reply: Reply)
      modifies this
      ensures (View(), reply) == ReadStep(env, old(View()), c)
    {
      if !exists i :: 0 <= i < |toolCalls| && toolCalls[i].callId == c.callId {
        toolCalls := toolCalls + [ToolCall(c.callId, "read")];
        Emit(PartUpdated, c.callId, Pending);
      }
      assert View() == Opened(old(View()), c.callId);
      if Protected(c.target) {
        Emit(PartUpdated, c.callId, Error);
        return Reply(Error);
      }
      if !Inside(env.root, c.target) {
        if c.target.Parent() !in alwaysAllowedDirectories {
          if c.approval.None? {
            Emit(PermissionAsked, c.callId, NoState);
            return Reply(PendingApproval);
          }
          var a := c.approval.value;
          if !SameRequest(env, c, a) {
            Emit(PartUpdated, c.callId, Error);
            return Reply(Error);
          }
          if a.denied || a.response == Reject {
            Emit(PermissionReplied, c.callId, NoState);
            Emit(PartUpdated, c.callId, Error);
            return Reply(Error);
          }
          if !(a.response == Once || a.response == Always) || a.id in consumedApprovals || !a.valid {
            Emit(PartUpdated, c.callId, Error);
            return Reply(Error);
          }
          consumedApprovals := consumedApprovals + {a.id};
          if a.response == Always {
            alwaysAllowedDirectories := alwaysAllowedDirectories + {c.target.Parent()};
          }
          Emit(PermissionReplied, c.callId, NoState);
        }
        if c.again != c.target {
          Emit(PartUpdated, c.callId, Error);
          return Reply(Error);
        }
      }
      Emit(PartUpdated, c.callId, Running);
      readLog := readLog + [c.target];
      if !c.readerReturns {
        return Raised;
      }
      Emit(PartUpdated, c.callId, Completed);
      return Reply(Completed);
    }

    /** `edit` and `check_python` differ only in the tool they name. */
    method Local(callId: string, tool: string, target: Path, succeeds: bool) returns (reply: Reply)
      modifies this
      ensures (View(), reply) == LocalStep(env, old(View()), callId, tool, target, succeeds)
    {
      if !Inside(env.root, target) {
        return Raised;
      }
      toolCalls := toolCalls + [ToolCall(callId, tool)];
      Emit(PartUpdated, callId, Pending);
      Emit(PartUpdated, callId, Running);
      if !succeeds {
        return Raised;
      }
      Emit(PartUpdated, callId, Completed);
      return Reply(Completed);
    }
  }

  // ---------- whole runs ----------

  datatype Op =
    | DoRead(call: ReadCall)
    | DoLocal(callId: string, tool: string, target: Path, succeeds: bool)
    | DoEmit(kind: EventKind, callId: string, state: CallState)

  function Step(env: Env, s: State, op: Op): State {
    match op
    case DoRead(c) => ReadStep(env, s, c).0
    case DoLocal(callId, tool, target, succeeds) => LocalStep(env, s, callId, tool, target, succeeds).0
    case DoEmit(kind, callId, state) => s.Emit(kind, callId, state)
  }

  /** `tr` is the sequence of states a run of the operations goes through. */
  ghost predicate IsRun(env: Env, ops: seq<Op>, tr: seq<State>) {
    && |tr| == |ops| + 1 && tr[0] == INITIAL
    && forall i :: 0 <= i < |ops| ==> tr[i + 1] == Step(env, tr[i], ops[i])
  }

  ghost predicate Numbered(events: seq<Event>) {
    forall i :: 0 <= i < |events| ==> events[i].sequence == i + 1
  }

  /** `t` differs from `s` only by appended events, numbered on, and tool calls. */
  ghost predicate OnlyEvents(s: State, t: State) {
    && t.allowed == s.allowed && t.consumed == s.consumed && t.readLog == s.readLog
    && s.events <= t.events && (Numbered(s.events) ==> Numbered(t.events))
  }

  lemma EmitOnlyEvents(s: State, kind: EventKind, callId: string, state: CallState)
    ensures OnlyEvents(s, s.Emit(kind, callId, state))
  {
  }

  lemma OpenedOnlyEvents(s: State, callId: string)
    ensures OnlyEvents(s, Opened(s, callId))
  {
    EmitOnlyEvents(s.Register(callId, "read"), PartUpdated, callId, Pending);
  }

  lemma LocalOnlyEvents(env: Env, s: State, callId: string, tool: string, target: Path, succeeds: bool)
    ensures OnlyEvents(s, LocalStep(env, s, callId, tool, target, succeeds).0)
  {
    var a := s.Register(callId, tool);
    EmitOnlyEvents(a, PartUpdated, callId, Pending);
    var b := a.Emit(PartUpdated, callId, Pending);
    EmitOnlyEvents(b, PartUpdated, callId, Running);
    EmitOnlyEvents(b.Emit(PartUpdated, callId, Running), PartUpdated, callId, Completed);
  }

  /** The reader was called on the target, or it was not and nothing but events changed. */
  lemma ExecuteEffects(env: Env, s: State, c: ReadCall)
    ensures var t := Execute(env, s, c).0;
      && t.allowed == s.allowed && t.consumed == s.consumed
      && (t.readLog == s.readLog || t.readLog == s.readLog + [c.target])
      && (t.readLog != s.readLog && !Inside(env.root, c.target) ==> c.again == c.target)
      && s.events <= t.events && (Numbered(s.events) ==> Numbered(t.events))
  {
    EmitOnlyEvents(s, PartUpdated, c.callId, Running);
    EmitOnlyEvents(s.Emit(PartUpdated, c.callId, Running), PartUpdated, c.callId, Completed);
  }

  /** What a single step can do to reads, approvals, directories and events. */
  ghost predicate Effects(env: Env, s: State, op: Op, t: State) {
    && s.consumed <= t.consumed && s.allowed <= t.allowed
    && s.events <= t.events && (Numbered(s.events) ==> Numbered(t.events))
    && (t.readLog == s.readLog || ReadsTarget(env, s, op, t))
    && (t.consumed != s.consumed ==> Spends(env, s, op, t))
    && (t.allowed != s.allowed ==>
          && Spends(env, s, op, t) && op.call.approval.value.response == Always
          && !Inside(env.root, op.call.target) && t.allowed == s.allowed + {op.call.target.Parent()})
  }

  /** The step hands its target to the reader: the target is not protected, and if it is
      outside it did not move, and its directory was allowed or the step spends an approval. */
  ghost predicate ReadsTarget(env: Env, s: State, op: Op, t: State) {
    && op.DoRead? && t.readLog == s.readLog + [op.call.target] && !Protected(op.call.target)
    && (!Inside(env.root, op.call.target) ==>
          op.call.again == op.call.target && (op.call.target.Parent() in s.allowed || Spends(env, s, op, t)))
  }

  ghost predicate Spends(env: Env, s: State, op: Op, t: State) {
    && op.DoRead? && op.call.approval.Some?
    && Spendable(env, s, op.call, op.call.approval.value)
    && t.consumed == s.consumed + {RequestId(op.call.callId)}
  }

  lemma ReadEffects(env: Env, s0: State, c: ReadCall)
    ensures Effects(env, s0, DoRead(c), ReadStep(env, s0, c).0)
  {
    var s := Opened(s0, c.callId);
    OpenedOnlyEvents(s0, c.callId);
    EmitOnlyEvents(s, PartUpdated, c.callId, Error);
    EmitOnlyEvents(s, PermissionAsked, c.callId, NoState);
    EmitOnlyEvents(s, PermissionReplied, c.callId, NoState);
    EmitOnlyEvents(s.Emit(PermissionReplied, c.callId, NoState), PartUpdated, c.callId, Error);
    if Protected(c.target) {
    } else if Inside(env.root, c.target) || c.target.Parent() in s.allowed {
      ExecuteEffects(env, s, c);
    } else if c.approval.Some? && Spendable(env, s, c, c.approval.value) {
      SpendEffects(env, s, c);
    }
  }

  lemma SpendEffects(env: Env, s: State, c: ReadCall)
    requires c.approval.Some? && Spendable(env, s, c, c.approval.value)
    ensures var a, t := c.approval.value, Execute(env, Spend(s, c, c.approval.value), c).0;
      && t.consumed == s.consumed + {RequestId(c.callId)} && RequestId(c.callId) !in s.consumed
      && t.allowed == (if a.response == Always then s.allowed + {c.target.Parent()} else s.allowed)
      && (t.readLog == s.readLog || t.readLog == s.readLog + [c.target])
      && (t.readLog != s.readLog && !Inside(env.root, c.target) ==> c.again == c.target)
      && s.events <= t.events && (Numbered(s.events) ==> Numbered(t.events))
  {
    ExecuteEffects(env, Spend(s, c, c.approval.value), c);
  }

  lemma StepEffects(env: Env, s: State, op: Op)
    ensures Effects(env, s, op, Step(env, s, op))
  {
    match op {
      case DoRead(c) => ReadEffects(env, s, c);
      case DoLocal(callId, tool, target, succeeds) => LocalOnlyEvents(env, s, callId, tool, target, succeeds);
      case DoEmit(kind, callId, state) => EmitOnlyEvents(s, kind, callId, state);
    }
  }

  /** Every step of the run has lawful effects. */
  ghost predicate Lawful(env: Env, ops: seq<Op>, tr: seq<State>) {
    && |tr| == |ops| + 1 && tr[0] == INITIAL
    && forall i :: 0 <= i < |ops| ==> Effects(env, tr[i], ops[i], tr[i + 1])
  }

  lemma RunsAreLawful(env: Env, ops: seq<Op>, tr: seq<State>)
    requires IsRun(env, ops, tr)
    ensures Lawful(env, ops, tr)
  {
    forall i | 0 <= i < |ops|
      ensures Effects(env, tr[i], ops[i], tr[i + 1])
    {
      StepEffects(env, tr[i], ops[i]);
    }
  }

  /** Operation `i` hands an outside target to the reader although its directory was not yet
      allowed when the call began. */
  ghost predicate UncoveredRead(env: Env, ops: seq<Op>, tr: seq<State>, i: nat)
    requires i < |ops| && |tr| == |ops| + 1
  {
    && ops[i].DoRead?
    && !Inside(env.root, ops[i].call.target)
    && ops[i].call.target.Parent() !in tr[i].allowed
    && tr[i + 1].readLog != tr[i].readLog
  }

  function Spent(op: Op): string { if op.DoRead? then RequestId(op.call.callId) else "" }

  /** An uncovered outside read spends, in the same call, an approval that was unspent. */
  lemma UncoveredReadSpends(env: Env, ops: seq<Op>, tr: seq<State>, i: nat)
    requires Lawful(env, ops, tr) && i < |ops| && UncoveredRead(env, ops, tr, i)
    ensures Spends(env, tr[i], ops[i], tr[i + 1])
    ensures Spent(ops[i]) !in tr[i].consumed && tr[i + 1].consumed == tr[i].consumed + {Spent(ops[i])}
  {
    assert Effects(env, tr[i], ops[i], tr[i + 1]);
  }

  lemma {:induction false} ConsumedGrows(env: Env, ops: seq<Op>, tr: seq<State>, i: nat, j: nat)
    requires Lawful(env, ops, tr) && i <= j <= |ops|
    ensures tr[i].consumed <= tr[j].consumed
    decreases j - i
  {
    if i < j {
      ConsumedGrows(env, ops, tr, i, j - 1);
      assert Effects(env, tr[j - 1], ops[j - 1], tr[j - 1 + 1]);
    }
  }

  /** Distinct uncovered outside reads spend distinct approvals. */
  lemma UncoveredReadsInjective(env: Env, ops: seq<Op>, tr: seq<State>, i: nat, j: nat)
    requires Lawful(env, ops, tr) && i < j < |ops| && UncoveredRead(env, ops, tr, i) && UncoveredRead(env, ops, tr, j)
    ensures Spent(ops[i]) != Spent(ops[j])
  {
    UncoveredReadSpends(env, ops, tr, i);
    UncoveredReadSpends(env, ops, tr, j);
    ConsumedGrows(env, ops, tr, i + 1, j);
  }

  ghost function Uncovered(env: Env, ops: seq<Op>, tr: seq<State>, n: nat): set<nat>
    requires n <= |ops| && |tr| == |ops| + 1
  {
    set i: nat | i < n && UncoveredRead(env, ops, tr, i)
  }

  lemma UncoveredStep(env: Env, ops: seq<Op>, tr: seq<State>, n: nat)
    requires n < |ops| && |tr| == |ops| + 1
    ensures Uncovered(env, ops, tr, n + 1) ==
      Uncovered(env, ops, tr, n) + (if UncoveredRead(env, ops, tr, n) then {n} else {})
    ensures n !in Uncovered(env, ops, tr, n)
  {
  }

  lemma ConsumedCounts(env: Env, ops: seq<Op>, tr: seq<State>, n: nat)
    requires Lawful(env, ops, tr) && n < |ops|
    ensures |tr[n + 1].consumed| >= |tr[n].consumed| + (if UncoveredRead(env, ops, tr, n) then 1 else 0)
  {
    if UncoveredRead(env, ops, tr, n) {
      UncoveredReadSpends(env, ops, tr, n);
    } else {
      ConsumedGrows(env, ops, tr, n, n + 1);
      SubsetSize(tr[n].consumed, tr[n + 1].consumed);
    }
  }

  /** There are never more uncovered outside reads than spent approvals. */
  lemma {:induction false} UncoveredReadsBounded(env: Env, ops: seq<Op>, tr: seq<State>, n: nat)
    requires Lawful(env, ops, tr) && n <= |ops|
    ensures |Uncovered(env, ops, tr, n)| <= |tr[n].consumed|
  {
    if n > 0 {
      UncoveredReadsBounded(env, ops, tr, n - 1);
      UncoveredStep(env, ops, tr, n - 1);
      ConsumedCounts(env, ops, tr, n - 1);
    } else {
      assert Uncovered(env, ops, tr, 0) == {};
    }
  }

  /** Operation `i` spent an "always" approval for an outside target in the directory. */
  ghost predicate Granted(env: Env, ops: seq<Op>, tr: seq<State>, i: nat, dir: Path)
    requires i < |ops| && |tr| == |ops| + 1
  {
    && Spends(env, tr[i], ops[i], tr[i + 1])
    && ops[i].call.approval.value.response == Always
    && ops[i].call.target.Parent() == dir
    && !Inside(env.root, ops[i].call.target)
  }

  /** Every always-allowed directory goes back to a spent "always" approval for a target in it. */
  lemma {:induction false} DirectoriesGranted(env: Env, ops: seq<Op>, tr: seq<State>, n: nat, dir: Path)
    requires Lawful(env, ops, tr) && n <= |ops| && dir in tr[n].allowed
    ensures exists i :: 0 <= i < n && Granted(env, ops, tr, i, dir)
  {
    if n > 0 {
      assert Effects(env, tr[n - 1], ops[n - 1], tr[n - 1 + 1]);
      if dir in tr[n - 1].allowed {
        DirectoriesGranted(env, ops, tr, n - 1, dir);
      } else {
        assert Granted(env, ops, tr, n - 1, dir);
      }
    }
  }

  /** The reader never sees a protected name, and events are numbered 1, 2, 3 and so on. */
  ghost predicate Safe(s: State) {
    (forall i :: 0 <= i < |s.readLog| ==> !Protected(s.readLog[i])) && Numbered(s.events)
  }

  lemma {:induction false} EveryStateSafe(env: Env, ops: seq<Op>, tr: seq<State>, n: nat)
    requires Lawful(env, ops, tr) && n <= |ops|
    ensures Safe(tr[n])
  {
    if n > 0 {
      EveryStateSafe(env, ops, tr, n - 1);
      assert Effects(env, tr[n - 1], ops[n - 1], tr[n - 1 + 1]);
    }
  }

  /** Operation `i` reached the reader with a target outside the workspace. */
  ghost predicate OutsideRead(env: Env, ops: seq<Op>, tr: seq<State>, i: nat)
    requires i < |ops| && |tr| == |ops| + 1
  {
    ops[i].DoRead? && !Inside(env.root, ops[i].call.target) && tr[i + 1].readLog != tr[i].readLog
  }

  /** The target did not move, and an approval is spent on this call or an earlier one granted
      its directory. */
  ghost predicate Authorized(env: Env, ops: seq<Op>, tr: seq<State>, i: nat)
    requires i < |ops| && |tr| == |ops| + 1 && ops[i].DoRead?
  {
    && ops[i].call.again == ops[i].call.target
    && (Spends(env, tr[i], ops[i], tr[i + 1])
        || exists k :: 0 <= k < i && Granted(env, ops, tr, k, ops[i].call.target.Parent()))
  }

  /** An outside target reaches the reader only when authorized. */
  lemma OutsideReadsAuthorized(env: Env, ops: seq<Op>, tr: seq<State>, i: nat)
    requires Lawful(env, ops, tr) && i < |ops| && OutsideRead(env, ops, tr, i)
    ensures Authorized(env, ops, tr, i)
  {
    assert Effects(env, tr[i], ops[i], tr[i + 1]);
    if ops[i].call.target.Parent() in tr[i].allowed {
      DirectoriesGranted(env, ops, tr, i, ops[i].call.target.Parent());
    }
  }

  /** Safety over every run of the harness. */
  lemma RunSafety(env: Env, ops: seq<Op>, tr: seq<State>)
    requires IsRun(env, ops, tr)
    ensures forall i, j :: 0 <= i < j < |ops| && UncoveredRead(env, ops, tr, i) && UncoveredRead(env, ops, tr, j) ==>
              Spent(ops[i]) != Spent(ops[j])
    ensures forall i :: 0 <= i < |ops| && UncoveredRead(env, ops, tr, i) ==>
              Spent(ops[i]) !in tr[i].consumed && Spends(env, tr[i], ops[i], tr[i + 1])
    ensures |Uncovered(env, ops, tr, |ops|)| <= |tr[|ops|].consumed|
    ensures forall n, dir :: 0 <= n <= |ops| && dir in tr[n].allowed ==> exists i ::
      0 <= i < n && Granted(env, ops, tr, i, dir)
    ensures forall i :: 0 <= i < |ops| && OutsideRead(env, ops, tr, i) ==> Authorized(env, ops, tr, i)
    ensures forall n :: 0 <= n <= |ops| ==> Safe(tr[n])
  {
    RunsAreLawful(env, ops, tr);
    forall i, j | 0 <= i < j < |ops| && UncoveredRead(env, ops, tr, i) && UncoveredRead(env, ops, tr, j)
      ensures Spent(ops[i]) != Spent(ops[j])
    {
      UncoveredReadsInjective(env, ops, tr, i, j);
    }
    forall i | 0 <= i < |ops| && UncoveredRead(env, ops, tr, i)
      ensures Spent(ops[i]) !in tr[i].consumed && Spends(env, tr[i], ops[i], tr[i + 1])
    {
      UncoveredReadSpends(env, ops, tr, i);
    }
    UncoveredReadsBounded(env, ops, tr, |ops|);
    forall n, dir | 0 <= n <= |ops| && dir in tr[n].allowed
      ensures exists i :: 0 <= i < n && Granted(env, ops, tr, i, dir)
    {
      DirectoriesGranted(env, ops, tr, n, dir);
    }
    forall i | 0 <= i < |ops| && OutsideRead(env, ops, tr, i)
      ensures Authorized(env, ops, tr, i)
    {
      OutsideReadsAuthorized(env, ops, tr, i);
    }
    forall n | 0 <= n <= |ops|
      ensures Safe(tr[n])
    {
      EveryStateSafe(env, ops, tr, n);
    }
  }
}
