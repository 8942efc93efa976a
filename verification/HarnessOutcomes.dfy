/** What each call of the harness does and answers, decided by its inputs and the state before it. */
module HarnessOutcomes {
  import opened Common
  import opened Harness

  // ---------- the questions, in other words ----------

  /** The last part of the path ends in `.env` or begins with `.env.`, and it is not the template. */
  ghost predicate EnvironmentFile(p: Path) {
    p.parts != [] &&
    var name := p.parts[|p.parts| - 1];
    name != ".env.example" && ((exists x: string :: name == x + ".env") || exists x: string :: name == ".env." + x)
  }

  /** The path continues the root. */
  ghost predicate InWorkspace(env: Env, p: Path) { exists below :: p.parts == env.root.parts + below }

  /** The directory that holds the target. */
  function Directory(p: Path): Path { if p.parts == [] then p else Path(p.parts[..|p.parts| - 1]) }

  /** The record that grants exactly this read. */
  function Issued(env: Env, c: ReadCall, response: Response): Approval {
    Approval("approval-" + c.callId, "run-opencode-harness-001", "filesystem.read", "external_directory",
      env.digest(c.callId, c.target), env.subject, false, response, true)
  }

  /** The call brings a grant that has not been spent. */
  ghost predicate Approved(env: Env, s: State, c: ReadCall) {
    && (c.approval == Some(Issued(env, c, Once)) || c.approval == Some(Issued(env, c, Always)))
    && "approval-" + c.callId !in s.consumed
  }

  lemma EndsMeans(s: string, suffix: string)
    ensures EndsWith(s, suffix) <==> exists x: string :: s == x + suffix
  {
    if EndsWith(s, suffix) {
      assert s == s[..|s| - |suffix|] + suffix;
    }
  }

  lemma StartsMeans(s: string, prefix: string)
    ensures StartsWith(s, prefix) <==> exists x: string :: s == prefix + x
  {
    if StartsWith(s, prefix) {
      assert s == prefix + s[|prefix|..];
    }
  }

  lemma ProtectedMeans(p: Path)
    ensures Protected(p) <==> EnvironmentFile(p)
  {
    if p.parts != [] {
      var name := p.parts[|p.parts| - 1];
      EndsMeans(name, ".env");
      StartsMeans(name, ".env.");
    }
  }

  lemma InsideMeans(env: Env, p: Path)
    ensures Inside(env.root, p) <==> InWorkspace(env, p)
  {
    if Inside(env.root, p) {
      assert p.parts == env.root.parts + p.parts[|env.root.parts|..];
    }
  }

  lemma SpendableMeans(env: Env, s: State, c: ReadCall)
    requires c.approval.Some?
    ensures Spendable(env, s, c, c.approval.value) <==> Approved(env, s, c)
  {
  }

  // ---------- one read ----------

  /** The target is outside, its directory is not allowed yet, and it is no environment file: the
      call needs an approval. */
  ghost predicate NeedsApproval(env: Env, s: State, c: ReadCall) {
    !EnvironmentFile(c.target) && !InWorkspace(env, c.target) && Directory(c.target) !in s.allowed
  }

  /** The reader is called: on a file of the workspace, or on an outside one that did not move and
      whose directory is allowed or whose read is approved. */
  ghost predicate Reads(env: Env, s: State, c: ReadCall) {
    && !EnvironmentFile(c.target)
    && (InWorkspace(env, c.target)
        || (c.again == c.target && (Directory(c.target) in s.allowed || Approved(env, s, c))))
  }

  /** What the reply says. */
  ghost function Answer(env: Env, s: State, c: ReadCall): Reply {
    if Reads(env, s, c) then (if c.readerReturns then Reply(Completed) else Raised)
    else if NeedsApproval(env, s, c) && c.approval.None? then Reply(PendingApproval)
    else Reply(Error)
  }

  /** Kind, call and state of the events from `n` on. */
  function Since(events: seq<Event>, n: nat): (r: seq<(EventKind, string, CallState)>)
    requires n <= |events|
    ensures |r| == |events| - n
    ensures forall i :: 0 <= i < |r| ==> r[i] == (events[n + i].kind, events[n + i].callId, events[n + i].state)
  {
    seq(|events| - n, i requires 0 <= i < |events| - n =>
      (events[n + i].kind, events[n + i].callId, events[n + i].state))
  }

  /** The approval is answered in this call: it is spent or rejected. */
  ghost predicate Answered(env: Env, s: State, c: ReadCall) {
    NeedsApproval(env, s, c) && c.approval.Some? && (Approved(env, s, c) || Turned(env, c, c.approval.value))
  }

  /** A matching record that says no. */
  ghost predicate Turned(env: Env, c: ReadCall, a: Approval) {
    (a.denied || a.response == Reject)
    && a.(denied := false, response := Once, valid := true) == Issued(env, c, Once)
  }

  ghost predicate CalledBefore(s: State, callId: string) { exists t :: t in s.toolCalls && t.callId == callId }

  /** What is announced, in order. */
  ghost function Announced(env: Env, s: State, c: ReadCall): seq<(EventKind, string, CallState)> {
    (if CalledBefore(s, c.callId) then [] else [(PartUpdated, c.callId, Pending)])
    + (if Answered(env, s, c) then [(PermissionReplied, c.callId, NoState)] else [])
    + match Answer(env, s, c)
      case Reply(Completed) => [(PartUpdated, c.callId, Running), (PartUpdated, c.callId, Completed)]
      case Raised => [(PartUpdated, c.callId, Running)]
      case Reply(PendingApproval) => [(PermissionAsked, c.callId, NoState)]
      case Reply(_) => [(PartUpdated, c.callId, Error)]
  }

  lemma EmitSince(s: State, kind: EventKind, callId: string, state: CallState, n: nat)
    requires n <= |s.events|
    ensures Since(s.Emit(kind, callId, state).events, n) == Since(s.events, n) + [(kind, callId, state)]
  {
  }

  lemma KnownMeans(s: State, callId: string)
    ensures s.Knows(callId) <==> CalledBefore(s, callId)
  {
    if CalledBefore(s, callId) {
      var t :| t in s.toolCalls && t.callId == callId;
      var i :| 0 <= i < |s.toolCalls| && s.toolCalls[i] == t;
    }
  }

  lemma ReadReply(env: Env, s: State, c: ReadCall)
    ensures ReadStep(env, s, c).1 == Answer(env, s, c)
    ensures ReadStep(env, s, c).0.readLog == s.readLog + (if Reads(env, s, c) then [c.target] else [])
  {
    ProtectedMeans(c.target);
    InsideMeans(env, c.target);
    if c.approval.Some? {
      SpendableMeans(env, Opened(s, c.callId), c);
    }
    assert s.readLog + [] == s.readLog;
  }

  lemma ReadGrants(env: Env, s: State, c: ReadCall)
    ensures var spent := NeedsApproval(env, s, c) && Approved(env, s, c);
      && ReadStep(env, s, c).0.consumed == s.consumed + (if spent then {"approval-" + c.callId} else {})
      && ReadStep(env, s, c).0.allowed ==
           s.allowed + (if spent && c.approval.value.response == Always then {Directory(c.target)} else {})
  {
    ProtectedMeans(c.target);
    InsideMeans(env, c.target);
    if c.approval.Some? {
      SpendableMeans(env, Opened(s, c.callId), c);
    }
  }

  lemma OpenedSince(s: State, callId: string)
    ensures var o := Opened(s, callId);
      && |s.events| <= |o.events|
      && Since(o.events, |s.events|) == (if s.Knows(callId) then [] else [(PartUpdated, callId, Pending)])
      && o.toolCalls == s.toolCalls + (if s.Knows(callId) then [] else [ToolCall(callId, "read")])
  {
  }

  lemma ExecuteSince(env: Env, s: State, c: ReadCall, n: nat)
    requires n <= |s.events|
    ensures var t := Execute(env, s, c).0;
      && n <= |t.events| && t.toolCalls == s.toolCalls
      && Since(t.events, n) == Since(s.events, n) +
           if !Inside(env.root, c.target) && c.again != c.target then [(PartUpdated, c.callId, Error)]
           else if c.readerReturns then [(PartUpdated, c.callId, Running), (PartUpdated, c.callId, Completed)]
           else [(PartUpdated, c.callId, Running)]
  {
    EmitSince(s, PartUpdated, c.callId, Error, n);
    EmitSince(s, PartUpdated, c.callId, Running, n);
    EmitSince(s.Emit(PartUpdated, c.callId, Running), PartUpdated, c.callId, Completed, n);
  }

  lemma ReadAnnounces(env: Env, s: State, c: ReadCall)
    ensures |s.events| <= |ReadStep(env, s, c).0.events|
    ensures Since(ReadStep(env, s, c).0.events, |s.events|) == Announced(env, s, c)
    ensures ReadStep(env, s, c).0.toolCalls == Opened(s, c.callId).toolCalls
  {
    if EnvironmentFile(c.target) {
      EnvironmentAnnounces(env, s, c);
    } else if !NeedsApproval(env, s, c) {
      FreeAnnounces(env, s, c);
    } else if Approved(env, s, c) {
      SpentAnnounces(env, s, c);
    } else {
      RefusedAnnounces(env, s, c);
    }
  }

  /** What is announced first. */
  function Opening(s: State, callId: string): seq<(EventKind, string, CallState)> {
    if s.Knows(callId) then [] else [(PartUpdated, callId, Pending)]
  }

  lemma EnvironmentAnnounced(env: Env, s: State, c: ReadCall)
    requires EnvironmentFile(c.target)
    ensures Announced(env, s, c) == Opening(s, c.callId) + [(PartUpdated, c.callId, Error)]
  {
    KnownMeans(s, c.callId);
    assert !Reads(env, s, c) && !NeedsApproval(env, s, c);
  }

  lemma ProtectedStep(env: Env, s: State, c: ReadCall)
    requires Protected(c.target)
    ensures ReadStep(env, s, c).0 == Opened(s, c.callId).Emit(PartUpdated, c.callId, Error)
  {
  }

  lemma RefusalSince(s: State, callId: string)
    ensures var t := Opened(s, callId).Emit(PartUpdated, callId, Error);
      && |s.events| <= |t.events| && t.toolCalls == Opened(s, callId).toolCalls
      && Since(t.events, |s.events|) == Opening(s, callId) + [(PartUpdated, callId, Error)]
  {
    OpenedSince(s, callId);
    EmitSince(Opened(s, callId), PartUpdated, callId, Error, |s.events|);
  }

  lemma EnvironmentAnnounces(env: Env, s: State, c: ReadCall)
    requires EnvironmentFile(c.target)
    ensures var t, o := ReadStep(env, s, c).0, Opened(s, c.callId);
      && |s.events| <= |t.events| && t.toolCalls == o.toolCalls
      && Since(t.events, |s.events|) == Announced(env, s, c)
  {
    EnvironmentAnnounced(env, s, c);
    ProtectedMeans(c.target);
    ProtectedStep(env, s, c);
    RefusalSince(s, c.callId);
  }

  lemma FreeAnnounces(env: Env, s: State, c: ReadCall)
    requires !EnvironmentFile(c.target) && (InWorkspace(env, c.target) || Directory(c.target) in s.allowed)
    ensures var t, o := ReadStep(env, s, c).0, Opened(s, c.callId);
      && |s.events| <= |t.events| && t.toolCalls == o.toolCalls
      && Since(t.events, |s.events|) == Announced(env, s, c)
  {
    var o, n := Opened(s, c.callId), |s.events|;
    OpenedSince(s, c.callId);
    KnownMeans(s, c.callId);
    ProtectedMeans(c.target);
    InsideMeans(env, c.target);
    assert ReadStep(env, s, c) == Execute(env, o, c);
    ExecuteSince(env, o, c, n);
  }

  /** The call needs an approval and brings none that can be spent. */
  lemma RefusedAnnounces(env: Env, s: State, c: ReadCall)
    requires NeedsApproval(env, s, c) && !Approved(env, s, c)
    ensures var t, o := ReadStep(env, s, c).0, Opened(s, c.callId);
      && |s.events| <= |t.events| && t.toolCalls == o.toolCalls
      && Since(t.events, |s.events|) == Announced(env, s, c)
  {
    var o, n := Opened(s, c.callId), |s.events|;
    OpenedSince(s, c.callId);
    KnownMeans(s, c.callId);
    ProtectedMeans(c.target);
    InsideMeans(env, c.target);
    EmitSince(o, PartUpdated, c.callId, Error, n);
    EmitSince(o, PermissionAsked, c.callId, NoState, n);
    EmitSince(o, PermissionReplied, c.callId, NoState, n);
    EmitSince(o.Emit(PermissionReplied, c.callId, NoState), PartUpdated, c.callId, Error, n);
    if c.approval.Some? {
      SpendableMeans(env, o, c);
    }
  }

  lemma SpentAnnounces(env: Env, s: State, c: ReadCall)
    requires NeedsApproval(env, s, c) && Approved(env, s, c)
    ensures var t, o := ReadStep(env, s, c).0, Opened(s, c.callId);
      && |s.events| <= |t.events| && t.toolCalls == o.toolCalls
      && Since(t.events, |s.events|) == Announced(env, s, c)
  {
    var o, n, a := Opened(s, c.callId), |s.events|, c.approval.value;
    OpenedSince(s, c.callId);
    KnownMeans(s, c.callId);
    ProtectedMeans(c.target);
    InsideMeans(env, c.target);
    SpendableMeans(env, o, c);
    SpendSince(o, c, a, n);
    ExecuteSince(env, Spend(o, c, a), c, n);
  }

  lemma SpendSince(s: State, c: ReadCall, a: Approval, n: nat)
    requires n <= |s.events|
    ensures Since(Spend(s, c, a).events, n) == Since(s.events, n) + [(PermissionReplied, c.callId, NoState)]
    ensures n <= |Spend(s, c, a).events| && Spend(s, c, a).toolCalls == s.toolCalls
  {
    EmitSince(s, PermissionReplied, c.callId, NoState, n);
  }

  /** One read, whole: the reply, the reader, the approvals and directories, the call list and the
      announcements. */
  lemma ReadOutcome(env: Env, s: State, c: ReadCall)
    ensures var (t, reply) := ReadStep(env, s, c);
      var spent := NeedsApproval(env, s, c) && Approved(env, s, c);
      && reply == Answer(env, s, c)
      && t.readLog == s.readLog + (if Reads(env, s, c) then [c.target] else [])
      && t.consumed == s.consumed + (if spent then {"approval-" + c.callId} else {})
      && t.allowed == s.allowed + (if spent && c.approval.value.response == Always then {Directory(c.target)} else {})
      && t.toolCalls == s.toolCalls + (if CalledBefore(s, c.callId) then [] else [ToolCall(c.callId, "read")])
      && |s.events| <= |t.events| && Since(t.events, |s.events|) == Announced(env, s, c)
  {
    ReadReply(env, s, c);
    ReadGrants(env, s, c);
    ReadAnnounces(env, s, c);
    KnownMeans(s, c.callId);
    OpenedSince(s, c.callId);
  }

  // ---------- the other tools ----------

  /** `edit` and `check_python` need no approval and get none: outside the workspace they raise
      before anything happens. */
  lemma LocalOutcome(env: Env, s: State, callId: string, tool: string, target: Path, succeeds: bool)
    ensures var (t, reply) := LocalStep(env, s, callId, tool, target, succeeds);
      && reply == (if InWorkspace(env, target) && succeeds then Reply(Completed) else Raised)
      && t.readLog == s.readLog && t.consumed == s.consumed && t.allowed == s.allowed
      && t.toolCalls == s.toolCalls + (if InWorkspace(env, target) then [ToolCall(callId, tool)] else [])
      && |s.events| <= |t.events| && Since(t.events, |s.events|) ==
           if !InWorkspace(env, target) then []
           else [(PartUpdated, callId, Pending), (PartUpdated, callId, Running)]
                + if succeeds then [(PartUpdated, callId, Completed)] else []
  {
    InsideMeans(env, target);
    var n, a := |s.events|, s.Register(callId, tool);
    EmitSince(a, PartUpdated, callId, Pending, n);
    var b := a.Emit(PartUpdated, callId, Pending);
    EmitSince(b, PartUpdated, callId, Running, n);
    EmitSince(b.Emit(PartUpdated, callId, Running), PartUpdated, callId, Completed, n);
  }

  // ---------- runs ----------

  /** Operation `i` of the run calls the reader. */
  ghost predicate ReadsAt(env: Env, ops: seq<Op>, tr: seq<State>, i: nat)
    requires i < |ops| && |tr| == |ops| + 1
  {
    ops[i].DoRead? && Reads(env, tr[i], ops[i].call)
  }

  /** The log holds the targets of these operations, and they are the reading ones, in order. */
  ghost predicate LogOf(env: Env, ops: seq<Op>, tr: seq<State>, n: nat, at: seq<nat>)
    requires n <= |ops| && |tr| == |ops| + 1
  {
    && |at| == |tr[n].readLog|
    && (forall j :: 0 <= j < |at| ==>
          at[j] < n && ReadsAt(env, ops, tr, at[j]) && tr[n].readLog[j] == ops[at[j]].call.target)
    && (forall i, j :: 0 <= i < j < |at| ==> at[i] < at[j])
    && (forall i: nat :: i < n && ReadsAt(env, ops, tr, i) ==> i in at)
  }

  lemma StepLogs(env: Env, s: State, op: Op)
    ensures Step(env, s, op).readLog ==
      s.readLog + (if op.DoRead? && Reads(env, s, op.call) then [op.call.target] else [])
  {
    match op {
      case DoRead(c) => ReadReply(env, s, c);
      case DoLocal(callId, tool, target, succeeds) => LocalOutcome(env, s, callId, tool, target, succeeds);
      case DoEmit(kind, callId, state) =>
    }
  }

  /** Over every run the reader is called exactly by the calls that may read, in their order, and by
      each of them once. */
  lemma {:induction false} RunReads(env: Env, ops: seq<Op>, tr: seq<State>, n: nat) returns (at: seq<nat>)
    requires IsRun(env, ops, tr) && n <= |ops|
    ensures LogOf(env, ops, tr, n, at)
  {
    at := [];
    if n > 0 {
      at := RunReads(env, ops, tr, n - 1);
      StepLogs(env, tr[n - 1], ops[n - 1]);
      assert tr[n - 1 + 1] == Step(env, tr[n - 1], ops[n - 1]);
      if ReadsAt(env, ops, tr, n - 1) {
        at := LogGrows(env, ops, tr, n - 1, at);
      }
    }
  }

  lemma LogGrows(env: Env, ops: seq<Op>, tr: seq<State>, n: nat, at: seq<nat>) returns (next: seq<nat>)
    requires n < |ops| && |tr| == |ops| + 1 && LogOf(env, ops, tr, n, at) && ReadsAt(env, ops, tr, n)
    requires tr[n + 1].readLog == tr[n].readLog + [ops[n].call.target]
    ensures LogOf(env, ops, tr, n + 1, next)
  {
    next := at + [n];
    forall i: nat | i < n + 1 && ReadsAt(env, ops, tr, i) ensures i in next {
      if i < n {
        assert i in at;
      }
    }
  }

  lemma {:induction false} AllowedGrows(env: Env, ops: seq<Op>, tr: seq<State>, i: nat, j: nat)
    requires IsRun(env, ops, tr) && i <= j <= |ops|
    ensures tr[i].allowed <= tr[j].allowed && tr[i].consumed <= tr[j].consumed
    decreases j - i
  {
    if i < j {
      AllowedGrows(env, ops, tr, i, j - 1);
      StepEffects(env, tr[j - 1], ops[j - 1]);
      assert tr[j - 1 + 1] == Step(env, tr[j - 1], ops[j - 1]);
    }
  }

  /** An "always" grant lasts: every later read in its directory that did not move is carried out,
      without another approval. */
  lemma GrantsLast(env: Env, ops: seq<Op>, tr: seq<State>, i: nat, j: nat)
    requires IsRun(env, ops, tr) && i < j < |ops| && ops[i].DoRead? && ops[j].DoRead?
    requires NeedsApproval(env, tr[i], ops[i].call) && Approved(env, tr[i], ops[i].call)
    requires ops[i].call.approval.value.response == Always
    requires Directory(ops[j].call.target) == Directory(ops[i].call.target)
    requires ops[j].call.again == ops[j].call.target && !EnvironmentFile(ops[j].call.target)
    ensures ReadsAt(env, ops, tr, j)
    ensures tr[j + 1].consumed == tr[j].consumed
  {
    ReadGrants(env, tr[i], ops[i].call);
    assert tr[i + 1] == Step(env, tr[i], ops[i]);
    AllowedGrows(env, ops, tr, i + 1, j);
    ReadGrants(env, tr[j], ops[j].call);
    assert tr[j + 1] == Step(env, tr[j], ops[j]);
  }

  /** A "once" grant does not: a later call that presents it and needs an approval is refused. */
  lemma SpentIsRefused(env: Env, ops: seq<Op>, tr: seq<State>, i: nat, j: nat)
    requires IsRun(env, ops, tr) && i < j < |ops| && ops[i].DoRead? && ops[j].DoRead?
    requires NeedsApproval(env, tr[i], ops[i].call) && Approved(env, tr[i], ops[i].call)
    requires ops[j].call.callId == ops[i].call.callId && ops[j].call.approval.Some?
    requires NeedsApproval(env, tr[j], ops[j].call)
    ensures ReadStep(env, tr[j], ops[j].call).1 == Reply(Error) && tr[j + 1].readLog == tr[j].readLog
  {
    ReadGrants(env, tr[i], ops[i].call);
    assert tr[i + 1] == Step(env, tr[i], ops[i]);
    AllowedGrows(env, ops, tr, i + 1, j);
    ReadReply(env, tr[j], ops[j].call);
    assert tr[j + 1] == Step(env, tr[j], ops[j]);
  }
}
