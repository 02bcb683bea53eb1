/** `batch_tool` over the whole bridge: a semaphore-bounded fan-out of calls on Python's side, the two
    wires, Node's handlers answering in any order, timers, and a reader that may fail. */
module Bridge {
  import opened Wrappers
  import opened Json
  import opened C = RpcClient
  import opened P = RpcProtocol

  /** What awaiting one call gives: a value, or an exception. */
  datatype CallOutcome = Value(value: Json) | Raised(failure: Failure)

  /** One coroutine of the batch: waiting for the semaphore, inside its call, or done. */
  datatype Task = Queued | Running(call: nat) | Finished(call: nat, outcome: CallOutcome)

  datatype State = State(
    calls: seq<CallSpec>,
    limit: nat,
    client: Client,
    tools: Tools,
    delivered: nat,               // replies the reader has handled
    tasks: seq<Task>,
    permits: nat,                 // the semaphore
    owner: seq<Option<nat>>,      // the batch entry each request was written for; None is other code's
    expired: set<nat>,            // calls whose timer has fired
    readerAlive: bool,
    readerError: Option<string>,
    firstFailure: Option<nat>)    // the task whose exception `gather` raises first

  function Start(calls: seq<CallSpec>, limit: nat): State {
    State(calls, limit, C.INIT, P.NO_CALLS, 0, seq(|calls|, _ => Queued), limit, [], {}, true, None, None)
  }

  datatype Step =
    | Acquire(task: nat)                     // take a permit, write the request, park its future
    | OtherCall(spec: CallSpec)              // user code outside the batch calls a tool
    | NodeReceives                           // the next tool_call frame reaches Node
    | NodeFinishes(handler: nat, finish: Finish)
    | StdinGone
    | Deliver                                // the next tool_result reaches Python's reader
    | ReaderFails(text: string)
    | ReaderStops                            // end of input: pending calls stay pending
    | CallExpires(call: nat)
    | OtherForgets(call: nat)
    | Resume(task: nat, late: bool)          // the awaiting coroutine continues; `late`: with a timeout

  predicate Enabled(s: State, step: Step) {
    match step
    case Acquire(i) => i < |s.tasks| && i < |s.calls| && s.tasks[i].Queued? && s.permits > 0
    case OtherCall(_) => true
    case NodeReceives => |s.tools.received| < |s.client.wire|
    case NodeFinishes(j, _) =>
      j < |s.tools.handlers| && |s.tools.received| == |s.tools.handlers| && s.tools.handlers[j].InFlight?
    case StdinGone => true
    case Deliver => s.readerAlive && s.delivered < |s.tools.replies|
    case ReaderFails(_) => s.readerAlive
    case ReaderStops => true
    case CallExpires(k) => 1 <= k <= |s.client.futures|
    case OtherForgets(k) => 1 <= k <= |s.client.futures| && s.client.FutureAt(k).Cancelled?
    case Resume(i, late) =>
      && i < |s.tasks| && i < |s.calls| && s.tasks[i].Running?
      && var k := s.tasks[i].call;
         && 1 <= k <= |s.client.futures| && !s.client.FutureAt(k).Pending?
         // A cancelled future always times out; a settled one may too, if its timer fired as well.
         && (if late then k in s.expired else !s.client.FutureAt(k).Cancelled?)
  }

  function OutcomeOf(f: Future): CallOutcome
    requires f.Resolved? || f.Failed?
  {
    if f.Resolved? then Value(f.value) else Raised(f.failure)
  }

  function Next(s: State, step: Step): State
    requires Enabled(s, step)
  {
    match step
    case Acquire(i) =>
      s.(permits := s.permits - 1, tasks := s.tasks[i := Running(s.client.callId + 1)],
         client := C.Next(s.client, StartCall(s.calls[i])), owner := s.owner + [Some(i)])
    case OtherCall(spec) => s.(client := C.Next(s.client, StartCall(spec)), owner := s.owner + [None])
    case NodeReceives => s.(tools := ReceiveCall(s.tools, s.client.wire[|s.tools.received|]))
    case NodeFinishes(j, finish) => s.(tools := FinishCall(s.tools, j, finish))
    case StdinGone => s.(tools := s.tools.(stdinOpen := false))
    case Deliver =>
      s.(delivered := s.delivered + 1, client := C.Next(s.client, Respond(s.tools.replies[s.delivered])))
    case ReaderFails(text) =>
      s.(readerAlive := false, readerError := Some(text), client := C.Next(s.client, FailAll(text)))
    case ReaderStops => s.(readerAlive := false)
    case CallExpires(k) => s.(expired := s.expired + {k}, client := C.Next(s.client, Expire(k)))
    case OtherForgets(k) => s.(client := C.Next(s.client, Forget(k)))
    case Resume(i, late) =>
      var k := s.tasks[i].call;
      var outcome := if late then Raised(TimedOut(s.calls[i].tool)) else OutcomeOf(s.client.FutureAt(k));
      s.(permits := s.permits + 1, tasks := s.tasks[i := Finished(k, outcome)],
         client := if late then C.Next(s.client, Forget(k)) else s.client,
         firstFailure := if outcome.Raised? && s.firstFailure.None? then Some(i) else s.firstFailure)
  }

  /** The state after a schedule; `None` if some step was not possible. */
  function Exec(s: State, steps: seq<Step>): Option<State> {
    if steps == [] then Some(s) else
    var before := Exec(s, steps[..|steps| - 1]);
    if before.Some? && Enabled(before.value, steps[|steps| - 1])
    then Some(Next(before.value, steps[|steps| - 1])) else None
  }

  predicate Done(s: State) {
    forall i :: 0 <= i < |s.tasks| ==> s.tasks[i].Finished?
  }

  // =====================================================================
  // The invariant
  // =====================================================================

  function RunningCount(tasks: seq<Task>): nat {
    if tasks == [] then 0
    else RunningCount(tasks[..|tasks| - 1]) + (if tasks[|tasks| - 1].Running? then 1 else 0)
  }

  /** Both wires are queues: Node has read a prefix of what Python wrote, and Python a prefix of the replies. */
  ghost predicate WiresInv(s: State) {
    && |s.tools.received| <= |s.client.wire| && s.tools.received == s.client.wire[..|s.tools.received|]
    && s.delivered <= |s.tools.replies|
    && (s.readerAlive ==> s.readerError.None?)
  }

  /** A settled future holds the reply Node gave to that very call, or the failure that ended it. */
  ghost predicate FutureExplained(s: State, k: nat)
    requires 1 <= k <= |s.client.futures|
  {
    match s.client.FutureAt(k)
    case Pending => true
    case Cancelled => k in s.expired
    case Failed(ReaderError(text)) => s.readerError == Some(text)
    case f =>
      k - 1 < |s.tools.handlers| && s.tools.handlers[k - 1].Answered? && FutureOf(s.tools.handlers[k - 1].reply) == f
  }

  ghost predicate FuturesInv(s: State) {
    forall k :: 1 <= k <= |s.client.futures| ==> FutureExplained(s, k)
  }

  /** A batch entry past the queue has a request on the wire, written for it and carrying its spec. */
  ghost predicate HasRequest(s: State, i: nat)
    requires i < |s.tasks| == |s.calls| && |s.owner| == |s.client.wire|
  {
    s.tasks[i].Queued?
    || (1 <= s.tasks[i].call <= |s.owner|
        && s.owner[s.tasks[i].call - 1] == Some(i)
        && s.client.wire[s.tasks[i].call - 1].spec == s.calls[i])
  }

  /** A request written for the batch is the one its entry is, or was, waiting for. */
  ghost predicate HasEntry(s: State, j: nat)
    requires j < |s.owner|
  {
    s.owner[j].Some? ==>
      s.owner[j].value < |s.tasks| && !s.tasks[s.owner[j].value].Queued? && s.tasks[s.owner[j].value].call == j + 1
  }

  /** Every batch entry past the queue has exactly one request on the wire. */
  ghost predicate OwnersInv(s: State) {
    && |s.tasks| == |s.calls| && |s.owner| == |s.client.wire| == |s.client.futures|
    && (forall i :: 0 <= i < |s.tasks| ==> HasRequest(s, i))
    && (forall j :: 0 <= j < |s.owner| ==> HasEntry(s, j))
  }

  ghost predicate OutcomeExplained(s: State, i: nat)
    requires i < |s.tasks| && i < |s.calls|
  {
    s.tasks[i].Finished? && 1 <= s.tasks[i].call <= |s.client.futures| ==>
      var k, f := s.tasks[i].call, s.client.FutureAt(s.tasks[i].call);
      && !f.Pending?
      && match s.tasks[i].outcome
         case Raised(TimedOut(tool)) => tool == s.calls[i].tool && k in s.expired
         case o => (f.Resolved? || f.Failed?) && o == OutcomeOf(f)
  }

  ghost predicate TasksInv(s: State) {
    && |s.tasks| == |s.calls|
    && (forall i :: 0 <= i < |s.tasks| ==> OutcomeExplained(s, i))
    && s.permits + RunningCount(s.tasks) == s.limit
    && (s.firstFailure.Some? ==>
          && s.firstFailure.value < |s.tasks|
          && s.tasks[s.firstFailure.value].Finished? && s.tasks[s.firstFailure.value].outcome.Raised?)
    && (s.firstFailure.None? ==>
          forall i :: 0 <= i < |s.tasks| && s.tasks[i].Finished? ==> s.tasks[i].outcome.Value?)
  }

  ghost predicate Inv(s: State) {
    C.Inv(s.client) && P.ToolsInv(s.tools) && WiresInv(s) && FuturesInv(s) && OwnersInv(s) && TasksInv(s)
  }

  lemma {:induction false} RunningUpdate(tasks: seq<Task>, i: nat, t: Task)
    requires i < |tasks|
    ensures RunningCount(tasks[i := t]) + (if tasks[i].Running? then 1 else 0)
         == RunningCount(tasks) + (if t.Running? then 1 else 0)
  {
    var n := |tasks|;
    if i < n - 1 {
      RunningUpdate(tasks[..n - 1], i, t);
      assert tasks[i := t][..n - 1] == tasks[..n - 1][i := t];
    } else {
      assert tasks[i := t][..n - 1] == tasks[..n - 1];
    }
  }

  lemma {:induction false} NoneRunning(tasks: seq<Task>)
    requires forall i :: 0 <= i < |tasks| ==> !tasks[i].Running?
    ensures RunningCount(tasks) == 0
  {
    if tasks != [] {
      NoneRunning(tasks[..|tasks| - 1]);
    }
  }

  lemma StartHoldsInv(calls: seq<CallSpec>, limit: nat)
    ensures Inv(Start(calls, limit))
  {
    NoneRunning(Start(calls, limit).tasks);
  }

  // ---- one lemma per side of the bridge ----

  /** What a step of the client may do to settled futures, in the form the invariant needs. */
  lemma ClientStep(c: Client, a: C.Action)
    requires C.Inv(c)
    ensures C.Inv(C.Next(c, a))
    ensures |c.futures| <= |C.Next(c, a).futures|
    ensures forall k :: 1 <= k <= |c.futures| && !c.FutureAt(k).Pending? ==> C.Next(c, a).FutureAt(k) == c.FutureAt(k)
  {
    C.NextKeepsInv(c, a);
    forall k | 1 <= k <= |c.futures|
      ensures !c.FutureAt(k).Pending? ==> C.Next(c, a).FutureAt(k) == c.FutureAt(k)
    {
      SettledOnlyByItsOwn(c, a, k);
    }
  }

  /** Later states explain a future that has not changed at least as well. */
  lemma StillExplained(s: State, n: State, k: nat)
    requires 1 <= k <= |s.client.futures| && k <= |n.client.futures| && FutureExplained(s, k)
    requires n.client.FutureAt(k) == s.client.FutureAt(k)
    requires s.expired <= n.expired && (s.readerError.Some? ==> n.readerError == s.readerError)
    requires |s.tools.handlers| <= |n.tools.handlers|
    requires forall j :: 0 <= j < |s.tools.handlers| && s.tools.handlers[j].Answered? ==>
      n.tools.handlers[j] == s.tools.handlers[j]
    ensures FutureExplained(n, k)
  {
  }

  /** Outcomes stay explained while tasks, and settled futures, stay as they are. */
  lemma OutcomesStay(s: State, n: State)
    requires TasksInv(s) && n.calls == s.calls && |n.tasks| == |s.tasks| && s.expired <= n.expired
    requires |s.client.futures| <= |n.client.futures|
    requires forall k :: 1 <= k <= |s.client.futures| && !s.client.FutureAt(k).Pending? ==>
      n.client.FutureAt(k) == s.client.FutureAt(k)
    requires OwnersInv(s)
    ensures forall i :: 0 <= i < |n.tasks| && n.tasks[i] == s.tasks[i] ==> OutcomeExplained(n, i)
  {
    forall i | 0 <= i < |n.tasks| && n.tasks[i] == s.tasks[i]
      ensures OutcomeExplained(n, i)
    {
      assert OutcomeExplained(s, i) && HasRequest(s, i);
    }
  }

  lemma StartCallFutures(s: State, step: Step)
    requires Inv(s) && Enabled(s, step) && (step.Acquire? || step.OtherCall?)
    ensures FuturesInv(Next(s, step)) && C.Inv(Next(s, step).client)
    ensures forall i :: 0 <= i < |s.tasks| && Next(s, step).tasks[i] == s.tasks[i] ==>
      OutcomeExplained(Next(s, step), i)
  {
    hide ToolsInv, OutcomeExplained;
    var n := Next(s, step);
    ClientStep(s.client, StartCall(if step.Acquire? then s.calls[step.task] else step.spec));
    forall k | 1 <= k <= |n.client.futures|
      ensures FutureExplained(n, k)
    {
      if k <= |s.client.futures| {
        StillExplained(s, n, k);
      }
    }
    OutcomesStay(s, n);
  }

  lemma StartCallOwners(s: State, step: Step)
    requires Inv(s) && Enabled(s, step) && (step.Acquire? || step.OtherCall?)
    ensures OwnersInv(Next(s, step))
  {
    hide ToolsInv, FuturesInv, TasksInv;
    var n := Next(s, step);
    forall i | 0 <= i < |n.tasks|
      ensures HasRequest(n, i)
    {
      assert HasRequest(s, i);
    }
    forall j | 0 <= j < |n.owner|
      ensures HasEntry(n, j)
    {
      if j < |s.owner| {
        assert HasEntry(s, j);
      }
    }
  }

  lemma StartCallStep(s: State, step: Step)
    requires Inv(s) && Enabled(s, step) && (step.Acquire? || step.OtherCall?)
    ensures Inv(Next(s, step))
  {
    var n := Next(s, step);
    StartCallFutures(s, step);
    StartCallOwners(s, step);
    hide ToolsInv, FuturesInv, C.Inv, OwnersInv;
    if step.Acquire? {
      RunningUpdate(s.tasks, step.task, Running(s.client.callId + 1));
      assert OutcomeExplained(n, step.task);
    }
    hide OutcomeExplained;
    assert TasksInv(n);
  }

  lemma SameOwners(s: State, n: State)
    requires OwnersInv(s) && n.calls == s.calls && n.owner == s.owner && n.client.wire == s.client.wire
    requires |n.client.futures| == |s.client.futures| && |n.tasks| == |s.tasks|
    requires forall i :: 0 <= i < |s.tasks| ==>
      n.tasks[i].Queued? == s.tasks[i].Queued? && (!s.tasks[i].Queued? ==> n.tasks[i].call == s.tasks[i].call)
    ensures OwnersInv(n)
  {
    forall i | 0 <= i < |n.tasks|
      ensures HasRequest(n, i)
    {
      assert HasRequest(s, i);
    }
    forall j | 0 <= j < |n.owner|
      ensures HasEntry(n, j)
    {
      assert HasEntry(s, j);
    }
  }

  lemma ToolsFrame(s: State, n: State)
    requires Inv(s) && n == s.(tools := n.tools) && ToolsInv(n.tools) && WiresInv(n)
    requires |s.tools.handlers| <= |n.tools.handlers|
    requires forall j :: 0 <= j < |s.tools.handlers| && s.tools.handlers[j].Answered? ==>
      n.tools.handlers[j] == s.tools.handlers[j]
    ensures Inv(n)
  {
    hide ToolsInv, C.Inv, FutureExplained, OutcomeExplained;
    forall k | 1 <= k <= |n.client.futures|
      ensures FutureExplained(n, k)
    {
      StillExplained(s, n, k);
    }
    SameOwners(s, n);
    OutcomesStay(s, n);
  }

  lemma ToolsStep(s: State, step: Step)
    requires Inv(s) && Enabled(s, step) && (step.NodeReceives? || step.NodeFinishes? || step.StdinGone?)
    ensures Inv(Next(s, step))
  {
    hide FuturesInv, OwnersInv, TasksInv, C.Inv;
    match step {
      case NodeReceives => ReceiveKeepsInv(s.tools, s.client.wire[|s.tools.received|]);
      case NodeFinishes(j, finish) =>
        FinishKeepsInv(s.tools, j, finish);
        hide FinishCall;
      case StdinGone =>
    }
    ToolsFrame(s, Next(s, step));
  }

  lemma DeliverStep(s: State)
    requires Inv(s) && Enabled(s, Deliver)
    ensures Inv(Next(s, Deliver))
  {
    var n := Next(s, Deliver);
    var r := s.tools.replies[s.delivered];
    var j := s.tools.owners[s.delivered];
    ClientStep(s.client, Respond(r));
    assert r.id == Some(CallIdText(j + 1));
    forall k | 1 <= k <= |n.client.futures|
      ensures FutureExplained(n, k)
    {
      assert FutureExplained(s, k);
      SettledOnlyByItsOwn(s.client, Respond(r), k);
      if n.client.FutureAt(k) != s.client.FutureAt(k) {
        CallIdTextInjective(j + 1, k);
      }
    }
    SameOwners(s, n);
    OutcomesStay(s, n);
  }

  function FailureAction(step: Step): C.Action
    requires step.ReaderFails? || step.CallExpires? || step.OtherForgets?
  {
    match step
    case ReaderFails(text) => FailAll(text)
    case CallExpires(k) => Expire(k)
    case OtherForgets(k) => Forget(k)
  }

  lemma FailureExplains(s: State, n: State, a: C.Action, k: nat)
    requires (a.FailAll? || a.Expire? || a.Forget?) && 1 <= k <= |s.client.futures| && k <= |n.client.futures|
    requires FutureExplained(s, k) && n.tools == s.tools
    requires n.expired == if a.Expire? then s.expired + {a.call} else s.expired
    requires n.readerError == (if a.FailAll? then Some(a.text) else s.readerError)
      && (a.FailAll? ==> s.readerError.None?)
    requires n.client.FutureAt(k) != s.client.FutureAt(k) ==>
      || (a.Expire? && a.call == k && n.client.FutureAt(k).Cancelled?)
      || (a.FailAll? && n.client.FutureAt(k) == Failed(ReaderError(a.text)))
    ensures FutureExplained(n, k)
  {
  }

  lemma FailureExplained(s: State, step: Step, k: nat)
    requires Inv(s) && Enabled(s, step) && (step.ReaderFails? || step.CallExpires? || step.OtherForgets?)
    requires 1 <= k <= |s.client.futures|
    ensures k <= |Next(s, step).client.futures| && FutureExplained(Next(s, step), k)
  {
    var n, a := Next(s, step), FailureAction(step);
    assert FutureExplained(s, k);
    assert n.client == C.Next(s.client, a) && n.tools == s.tools;
    assert n.expired == (if a.Expire? then s.expired + {a.call} else s.expired);
    assert n.readerError == (if a.FailAll? then Some(a.text) else s.readerError)
      && (a.FailAll? ==> s.readerError.None?);
    hide *;
    ClientStep(s.client, a);
    SettledOnlyByItsOwn(s.client, a, k);
    FailureExplains(s, n, a, k);
  }

  lemma FailureFutures(s: State, step: Step)
    requires Inv(s) && Enabled(s, step) && (step.ReaderFails? || step.CallExpires? || step.OtherForgets?)
    ensures FuturesInv(Next(s, step)) && C.Inv(Next(s, step).client)
    ensures |Next(s, step).client.futures| == |s.client.futures| && Next(s, step).client.wire == s.client.wire
    ensures forall i :: 0 <= i < |s.tasks| ==> OutcomeExplained(Next(s, step), i)
  {
    hide ToolsInv, OutcomeExplained, FutureExplained;
    var n := Next(s, step);
    ClientStep(s.client, FailureAction(step));
    forall k | 1 <= k <= |n.client.futures|
      ensures FutureExplained(n, k)
    {
      FailureExplained(s, step, k);
    }
    OutcomesStay(s, n);
  }

  lemma FailureStep(s: State, step: Step)
    requires Inv(s) && Enabled(s, step) && (step.ReaderFails? || step.CallExpires? || step.OtherForgets?)
    ensures Inv(Next(s, step))
  {
    FailureFutures(s, step);
    SameOwners(s, Next(s, step));
    hide ToolsInv, C.Inv, C.Next, FuturesInv, OutcomeExplained, FailureAction, OwnersInv;
  }

  lemma ReaderStopsStep(s: State)
    requires Inv(s)
    ensures Inv(Next(s, ReaderStops))
  {
    hide ToolsInv, OutcomeExplained, C.Inv, FutureExplained;
    var n := Next(s, ReaderStops);
    forall k | 1 <= k <= |n.client.futures|
      ensures FutureExplained(n, k)
    {
      StillExplained(s, n, k);
    }
    SameOwners(s, n);
    OutcomesStay(s, n);
  }

  lemma ResumeFutures(s: State, step: Step)
    requires Inv(s) && Enabled(s, step) && step.Resume?
    ensures FuturesInv(Next(s, step)) && C.Inv(Next(s, step).client)
    ensures Next(s, step).client.futures == s.client.futures
    ensures forall i :: 0 <= i < |s.tasks| && Next(s, step).tasks[i] == s.tasks[i] ==>
      OutcomeExplained(Next(s, step), i)
  {
    hide ToolsInv, OutcomeExplained;
    var n := Next(s, step);
    var k := s.tasks[step.task].call;
    ClientStep(s.client, Forget(k));
    assert n.client.futures == s.client.futures;
    forall j | 1 <= j <= |n.client.futures|
      ensures FutureExplained(n, j)
    {
      StillExplained(s, n, j);
    }
    OutcomesStay(s, n);
  }

  lemma ResumeOwners(s: State, step: Step)
    requires Inv(s) && Enabled(s, step) && step.Resume?
    ensures OwnersInv(Next(s, step)) && WiresInv(Next(s, step))
  {
    hide ToolsInv, C.Inv, FuturesInv, TasksInv, OwnersInv;
    SameOwners(s, Next(s, step));
  }

  lemma ResumeExplained(s: State, step: Step)
    requires Inv(s) && Enabled(s, step) && step.Resume?
    ensures |Next(s, step).tasks| == |s.tasks| && OutcomeExplained(Next(s, step), step.task)
  {
    var k := s.tasks[step.task].call;
    ResumeFutures(s, step);
    assert FutureExplained(s, k);
    hide ToolsInv, C.Inv, C.Next, FuturesInv, OwnersInv, WiresInv;
  }

  lemma ResumeTasks(s: State, step: Step)
    requires Inv(s) && Enabled(s, step) && step.Resume?
    ensures TasksInv(Next(s, step))
  {
    ResumeFutures(s, step);
    ResumeExplained(s, step);
    hide ToolsInv, C.Inv, C.Next, FuturesInv, OwnersInv, WiresInv, OutcomeExplained, FutureExplained;
    RunningUpdate(s.tasks, step.task, Next(s, step).tasks[step.task]);
  }

  lemma ResumeStep(s: State, step: Step)
    requires Inv(s) && Enabled(s, step) && step.Resume?
    ensures Inv(Next(s, step))
  {
    hide ToolsInv, C.Inv, C.Next, FuturesInv, OwnersInv, TasksInv, WiresInv;
    ResumeFutures(s, step);
    ResumeOwners(s, step);
    ResumeTasks(s, step);
  }

  lemma NextKeepsInv(s: State, step: Step)
    requires Inv(s) && Enabled(s, step)
    ensures Inv(Next(s, step)) && Next(s, step).calls == s.calls && Next(s, step).limit == s.limit
  {
    assert Next(s, step).calls == s.calls && Next(s, step).limit == s.limit;
    hide Inv, Next, Enabled;
    match step
    case Acquire(_) => StartCallStep(s, step);
    case OtherCall(_) => StartCallStep(s, step);
    case NodeReceives => ToolsStep(s, step);
    case NodeFinishes(_, _) => ToolsStep(s, step);
    case StdinGone => ToolsStep(s, step);
    case Deliver => DeliverStep(s);
    case ReaderFails(_) => FailureStep(s, step);
    case ReaderStops => ReaderStopsStep(s);
    case CallExpires(_) => FailureStep(s, step);
    case OtherForgets(_) => FailureStep(s, step);
    case Resume(_, _) => ResumeStep(s, step);
  }

  lemma {:induction false} ExecKeepsInv(s: State, steps: seq<Step>)
    requires Inv(s) && Exec(s, steps).Some?
    ensures Inv(Exec(s, steps).value)
    ensures Exec(s, steps).value.calls == s.calls && Exec(s, steps).value.limit == s.limit
  {
    hide Inv, Enabled, Next;
    if steps != [] {
      ExecKeepsInv(s, steps[..|steps| - 1]);
      NextKeepsInv(Exec(s, steps[..|steps| - 1]).value, steps[|steps| - 1]);
    }
  }
}
