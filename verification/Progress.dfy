/** No schedule of `batch_tool` is a dead end: a quiet one can be completed by replies alone, and any
    other by the timers of its calls. */
module Progress {
  import opened Wrappers
  import opened Json
  import opened C = RpcClient
  import opened P = RpcProtocol
  import opened Bridge
  import opened Batch

  // =====================================================================
  // Through timers
  // =====================================================================

  function Work(tasks: seq<Task>): nat {
    if tasks == [] then 0
    else
      Work(tasks[..|tasks| - 1])
      + match tasks[|tasks| - 1] case Queued => 2 case Running(_) => 1 case Finished(_, _) => 0
  }

  lemma {:induction false} WorkUpdate(tasks: seq<Task>, i: nat, t: Task)
    requires i < |tasks|
    requires (tasks[i].Queued? && t.Running?) || (tasks[i].Running? && t.Finished?)
    ensures Work(tasks[i := t]) < Work(tasks)
  {
    var n := |tasks|;
    if i < n - 1 {
      WorkUpdate(tasks[..n - 1], i, t);
      assert tasks[i := t][..n - 1] == tasks[..n - 1][i := t];
    } else {
      assert tasks[i := t][..n - 1] == tasks[..n - 1];
    }
  }

  lemma {:induction false} ExecPrepend(s: State, step: Step, steps: seq<Step>)
    requires Enabled(s, step)
    ensures Exec(s, [step] + steps) == Exec(Bridge.Next(s, step), steps)
  {
    hide Enabled, Bridge.Next;
    if steps == [] {
      assert [step] + steps == [step];
      assert [step][..0] == [];
      assert Exec(s, []) == Some(s);
    } else {
      ExecPrepend(s, step, steps[..|steps| - 1]);
      assert ([step] + steps)[..|[step] + steps| - 1] == [step] + steps[..|steps| - 1];
    }
  }

  /** A running entry can always be ended by its timer. */
  lemma ExpireAndResume(s: State, i: nat) returns (expire: Step, resume: Step)
    requires Bridge.Inv(s) && i < |s.tasks| && s.tasks[i].Running?
    ensures Enabled(s, expire)
    ensures Enabled(Bridge.Next(s, expire), resume)
    ensures var n := Bridge.Next(Bridge.Next(s, expire), resume);
      Bridge.Inv(n) && n.limit == s.limit && Work(n.tasks) < Work(s.tasks)
  {
    assert HasRequest(s, i);
    expire, resume := CallExpires(s.tasks[i].call), Resume(i, true);
    var s1 := Bridge.Next(s, expire);
    assert Enabled(s1, resume) && s1.tasks == s.tasks;
    WorkUpdate(s.tasks, i, Bridge.Next(s1, resume).tasks[i]);
    hide Bridge.Inv;
    Bridge.NextKeepsInv(s, expire);
    Bridge.NextKeepsInv(s1, resume);
  }

  lemma AcquireNext(s: State, i: nat) returns (acquire: Step)
    requires Bridge.Inv(s) && s.limit >= 1 && i < |s.tasks| && s.tasks[i].Queued?
    requires forall j :: 0 <= j < |s.tasks| ==> !s.tasks[j].Running?
    ensures Enabled(s, acquire)
    ensures var n := Bridge.Next(s, acquire);
      Bridge.Inv(n) && n.limit == s.limit && Work(n.tasks) < Work(s.tasks)
  {
    NoneRunning(s.tasks);
    acquire := Acquire(i);
    assert Enabled(s, acquire);
    WorkUpdate(s.tasks, i, Running(s.client.callId + 1));
    Bridge.NextKeepsInv(s, acquire);
  }

  /** No schedule is a dead end: with a positive limit, every reachable state has a continuation in
      which the batch is done. No permit is ever lost. */
  lemma CanFinish(s: State) returns (steps: seq<Step>)
    requires Bridge.Inv(s) && s.limit >= 1
    ensures Exec(s, steps).Some? && Done(Exec(s, steps).value)
    decreases Work(s.tasks)
  {
    hide Bridge.Inv, Bridge.Next, Enabled;
    if Done(s) {
      return [];
    }
    if i: nat :| i < |s.tasks| && s.tasks[i].Running? {
      var expire, resume := ExpireAndResume(s, i);
      var s1 := Bridge.Next(s, expire);
      var rest := CanFinish(Bridge.Next(s1, resume));
      ExecPrepend(s1, resume, rest);
      ExecPrepend(s, expire, [resume] + rest);
      steps := [expire] + ([resume] + rest);
    } else {
      var i: nat :| i < |s.tasks| && !s.tasks[i].Finished?;
      assert s.tasks[i].Queued?;
      var acquire := AcquireNext(s, i);
      var rest := CanFinish(Bridge.Next(s, acquire));
      ExecPrepend(s, acquire, rest);
      steps := [acquire] + rest;
    }
  }

  lemma {:induction false} ExecConcat(s: State, a: seq<Step>, b: seq<Step>)
    requires Exec(s, a).Some?
    ensures Exec(s, a + b) == Exec(Exec(s, a).value, b)
  {
    hide Enabled, Bridge.Next;
    if b == [] {
      assert a + b == a;
    } else {
      ExecConcat(s, a, b[..|b| - 1]);
      assert (a + b)[..|a + b| - 1] == a + b[..|b| - 1];
    }
  }

  /** After any schedule whatever, some continuation completes the batch. */
  lemma EveryScheduleCanFinish(calls: seq<CallSpec>, limit: nat, steps: seq<Step>) returns (more: seq<Step>)
    requires limit >= 1 && Exec(Start(calls, limit), steps).Some?
    ensures Exec(Start(calls, limit), steps + more).Some? && Done(Exec(Start(calls, limit), steps + more).value)
  {
    StartHoldsInv(calls, limit);
    ExecKeepsInv(Start(calls, limit), steps);
    hide Bridge.Inv;
    more := CanFinish(Exec(Start(calls, limit), steps).value);
    ExecConcat(Start(calls, limit), steps, more);
  }

  /** Once stdin is gone no further reply is written, so a call still open then ends only by its timer. */
  lemma NothingIsSentWithoutStdin(s: State, j: nat, finish: Finish)
    requires Enabled(s, NodeFinishes(j, finish))
    ensures var gone := Bridge.Next(s, StdinGone);
      && Enabled(gone, NodeFinishes(j, finish))
      && Bridge.Next(gone, NodeFinishes(j, finish)).tools.replies == s.tools.replies
      && !Bridge.Next(gone, NodeFinishes(j, finish)).tools.stdinOpen
  {
  }

  // =====================================================================
  // Through replies
  // =====================================================================

  /** A delivered reply has settled the call it answers. */
  ghost predicate Settled(s: State) {
    && s.delivered <= |s.tools.owners|
    && forall d :: 0 <= d < s.delivered && s.tools.owners[d] < |s.client.futures| ==>
         !s.client.FutureAt(s.tools.owners[d] + 1).Pending?
  }

  /** The next reply answers the call whose handler wrote it. */
  lemma NextReply(s: State)
    requires Bridge.Inv(s) && s.delivered < |s.tools.replies|
    ensures |s.tools.owners| == |s.tools.replies| && s.tools.owners[s.delivered] < |s.client.futures|
    ensures s.tools.replies[s.delivered].id == Some(CallIdText(s.tools.owners[s.delivered] + 1))
    ensures C.Inv(s.client)
  {
    hide FuturesInv, TasksInv, HasRequest, HasEntry, CallIdText;
  }

  lemma DeliverEffect(s: State)
    requires Enabled(s, Deliver)
    ensures var n := Bridge.Next(s, Deliver);
      && n.client == C.Next(s.client, Respond(s.tools.replies[s.delivered])) && n.tools == s.tools
      && n.delivered == s.delivered + 1 && |n.client.futures| == |s.client.futures|
  {
  }

  lemma DeliverSettles(s: State)
    requires Bridge.Inv(s) && Settled(s) && Enabled(s, Deliver)
    ensures Settled(Bridge.Next(s, Deliver))
  {
    DeliverEffect(s);
    hide Bridge.Inv, CallIdText, Bridge.Next, Enabled, C.Next, C.Inv;
    NextReply(s);
    var r, j := s.tools.replies[s.delivered], s.tools.owners[s.delivered];
    ReplySettles(s.client, j + 1, r);
  }

  /** A reply settles its call, and leaves what is settled as it is. */
  lemma ReplySettles(c: Client, k: nat, r: Response)
    requires C.Inv(c) && 1 <= k <= |c.futures| && r.id == Some(CallIdText(k))
    ensures var n := C.Next(c, Respond(r));
      && |n.futures| >= |c.futures| && !n.FutureAt(k).Pending?
      && forall i :: 1 <= i <= |c.futures| && !c.FutureAt(i).Pending? ==> !n.FutureAt(i).Pending?
  {
    ClientStep(c, Respond(r));
    if c.FutureAt(k).Pending? {
      PendingIsSettled(c, k, r, "");
    }
    hide C.Next, CallIdText;
  }

  function ClientAction(s: State, step: Step): Option<C.Action>
    requires Enabled(s, step) && !step.Deliver?
  {
    match step
    case Acquire(i) => Some(StartCall(s.calls[i]))
    case OtherCall(spec) => Some(StartCall(spec))
    case ReaderFails(text) => Some(FailAll(text))
    case CallExpires(k) => Some(Expire(k))
    case OtherForgets(k) => Some(C.Action.Forget(k))
    case Resume(i, late) => if late then Some(C.Action.Forget(s.tasks[i].call)) else None
    case _ => None
  }

  lemma OwnersHaveFutures(s: State)
    requires Bridge.Inv(s)
    ensures C.Inv(s.client)
    ensures |s.tools.owners| == |s.tools.replies| && forall d :: 0 <= d < |s.tools.owners| ==>
      s.tools.owners[d] < |s.client.futures|
  {
    hide C.Next, FuturesInv, TasksInv, HasRequest, HasEntry;
  }

  lemma OtherEffect(s: State, step: Step)
    requires Enabled(s, step) && !step.Deliver?
    ensures var n, a := Bridge.Next(s, step), ClientAction(s, step);
      && n.client == (if a.Some? then C.Next(s.client, a.value) else s.client)
      && n.delivered == s.delivered && s.tools.owners <= n.tools.owners
  {
    hide C.Next;
  }

  lemma OthersKeepSettled(s: State, step: Step)
    requires Bridge.Inv(s) && Settled(s) && Enabled(s, step) && !step.Deliver?
    ensures Settled(Bridge.Next(s, step))
  {
    OtherEffect(s, step);
    hide Bridge.Inv, Bridge.Next, Enabled, ClientAction, C.Next;
    OwnersHaveFutures(s);
    var n, a := Bridge.Next(s, step), ClientAction(s, step);
    if a.Some? {
      ClientStep(s.client, a.value);
    }
    assert forall d :: 0 <= d < s.delivered ==> n.tools.owners[d] == s.tools.owners[d];
  }

  lemma {:induction false} ExecSettles(calls: seq<CallSpec>, limit: nat, steps: seq<Step>)
    requires Exec(Start(calls, limit), steps).Some?
    ensures Settled(Exec(Start(calls, limit), steps).value)
  {
    if steps != [] {
      var front, last := steps[..|steps| - 1], steps[|steps| - 1];
      ExecSettles(calls, limit, front);
      StartHoldsInv(calls, limit);
      ExecKeepsInv(Start(calls, limit), front);
      hide Bridge.Inv, Settled, Bridge.Next, Enabled;
      if last.Deliver? {
        DeliverSettles(Exec(Start(calls, limit), front).value);
      } else {
        OthersKeepSettled(Exec(Start(calls, limit), front).value, last);
      }
    }
  }

  /** Nothing has gone wrong so far, and both wires are open. */
  ghost predicate Healthy(s: State) {
    && Bridge.Inv(s) && Settled(s) && s.limit >= 1
    && s.readerAlive && s.tools.stdinOpen && s.expired == {} && s.readerError.None?
  }

  /** What is still to be done: calls to make, requests to read, tools to run, replies to deliver. */
  function Left(s: State): nat
    requires WiresInv(s)
  {
    4 * Work(s.tasks) + 3 * (|s.client.wire| - |s.tools.received|) + 2 * InFlightCount(s.tools.handlers)
    + (|s.tools.replies| - s.delivered)
  }

  ghost predicate Advances(s: State, step: Step, answers: nat -> Finish)
    requires WiresInv(s)
  {
    && Enabled(s, step) && !step.CallExpires? && !step.ReaderFails?
    && (step.NodeFinishes? && step.handler < |s.owner| && s.owner[step.handler].Some? ==>
          step.finish == answers(s.owner[step.handler].value))
    && var n := Bridge.Next(s, step);
       n.readerAlive && n.tools.stdinOpen && WiresInv(n) && Left(n) < Left(s)
  }

  lemma ReceiveAdvances(s: State, answers: nat -> Finish)
    requires Healthy(s) && |s.tools.received| < |s.client.wire|
    ensures Advances(s, NodeReceives, answers)
  {
    var n := Bridge.Next(s, NodeReceives);
    assert n.tools.handlers[..|s.tools.handlers|] == s.tools.handlers;
    Bridge.NextKeepsInv(s, NodeReceives);
    hide C.Inv, FuturesInv, OwnersInv, TasksInv, Settled;
  }

  lemma FinishAdvances(s: State, j: nat, answers: nat -> Finish) returns (step: Step)
    requires Healthy(s) && j < |s.tools.handlers| && s.tools.handlers[j].InFlight?
    ensures Advances(s, step, answers)
  {
    var finish := if j < |s.owner| && s.owner[j].Some? then answers(s.owner[j].value) else Threw(Null);
    step := NodeFinishes(j, finish);
    Bridge.NextKeepsInv(s, step);
    FinishEffect(s.tools, j, finish);
    hide C.Inv, FuturesInv, OwnersInv, TasksInv, Settled, FinishCall;
    InFlightAfter(s.tools.handlers, j, Bridge.Next(s, step).tools.handlers[j]);
  }

  lemma DeliverAdvances(s: State, answers: nat -> Finish)
    requires Healthy(s) && s.delivered < |s.tools.replies|
    ensures Advances(s, Deliver, answers)
  {
    Bridge.NextKeepsInv(s, Deliver);
    hide C.Inv, FuturesInv, OwnersInv, TasksInv, Settled, C.Next;
  }

  /** When nothing is under way on the wires, every running entry can continue. */
  lemma ResumeAdvances(s: State, i: nat, answers: nat -> Finish)
    requires Healthy(s) && |s.tools.received| == |s.client.wire| && s.delivered == |s.tools.replies|
    requires forall j :: 0 <= j < |s.tools.handlers| ==> !s.tools.handlers[j].InFlight?
    requires i < |s.tasks| && s.tasks[i].Running?
    ensures Advances(s, Resume(i, false), answers)
  {
    var k := s.tasks[i].call;
    assert HasRequest(s, i) && FutureExplained(s, k);
    assert s.tools.handlers[k - 1].Answered? && k - 1 in s.tools.owners;
    assert Enabled(s, Resume(i, false));
    Bridge.NextKeepsInv(s, Resume(i, false));
    WorkUpdate(s.tasks, i, Bridge.Next(s, Resume(i, false)).tasks[i]);
    hide C.Inv, FuturesInv, OwnersInv, Settled, ToolsInv;
  }

  lemma AcquireAdvances(s: State, i: nat, answers: nat -> Finish)
    requires Healthy(s) && i < |s.tasks| && s.tasks[i].Queued?
    requires forall j :: 0 <= j < |s.tasks| ==> !s.tasks[j].Running?
    ensures Advances(s, Acquire(i), answers)
  {
    NoneRunning(s.tasks);
    assert Enabled(s, Acquire(i));
    var n := Bridge.Next(s, Acquire(i));
    assert n.tasks == s.tasks[i := Running(s.client.callId + 1)] && |n.client.wire| == |s.client.wire| + 1;
    Bridge.NextKeepsInv(s, Acquire(i));
    hide C.Inv, C.Next, FuturesInv, OwnersInv, TasksInv, Settled, ToolsInv, InFlightCount, Work;
    WorkUpdate(s.tasks, i, Running(s.client.callId + 1));
  }

  lemma SomeStepAdvances(s: State, answers: nat -> Finish) returns (step: Step)
    requires Healthy(s) && !Done(s)
    ensures Advances(s, step, answers)
  {
    assert |s.tools.received| <= |s.client.wire| && s.delivered <= |s.tools.replies|;
    hide Healthy, Advances;
    if |s.tools.received| < |s.client.wire| {
      step := NodeReceives;
      ReceiveAdvances(s, answers);
    } else if j: nat :| j < |s.tools.handlers| && s.tools.handlers[j].InFlight? {
      step := FinishAdvances(s, j, answers);
    } else if s.delivered < |s.tools.replies| {
      step := Deliver;
      DeliverAdvances(s, answers);
    } else if i: nat :| i < |s.tasks| && s.tasks[i].Running? {
      step := Resume(i, false);
      ResumeAdvances(s, i, answers);
    } else {
      var i: nat :| i < |s.tasks| && !s.tasks[i].Finished?;
      step := Acquire(i);
      AcquireAdvances(s, i, answers);
    }
  }

  lemma HealthyAfter(calls: seq<CallSpec>, limit: nat, steps: seq<Step>)
    requires limit >= 1 && Exec(Start(calls, limit), steps).Some? && Quiet(steps)
    requires Exec(Start(calls, limit), steps).value.readerAlive
    requires Exec(Start(calls, limit), steps).value.tools.stdinOpen
    ensures Healthy(Exec(Start(calls, limit), steps).value)
  {
    StartHoldsInv(calls, limit);
    ExecKeepsInv(Start(calls, limit), steps);
    ExecSettles(calls, limit, steps);
    QuietMeansNoFailure(Start(calls, limit), steps);
    hide Bridge.Inv, Settled;
  }

  lemma StaysHealthy(s: State, step: Step, answers: nat -> Finish)
    requires Healthy(s) && WiresInv(s) && Advances(s, step, answers)
    ensures Healthy(Bridge.Next(s, step))
  {
    var n := Bridge.Next(s, step);
    assert n.expired == s.expired && n.readerError == s.readerError;
    hide Bridge.Next, Bridge.Inv, Settled, WiresInv;
    Bridge.NextKeepsInv(s, step);
    if step.Deliver? {
      DeliverSettles(s);
    } else {
      OthersKeepSettled(s, step);
    }
  }

  /** A quiet schedule, answered by `answers`, that leaves both wires open. */
  ghost predicate Open(start: State, steps: seq<Step>, answers: nat -> Finish) {
    && Quiet(steps) && AnswersBy(start, steps, answers) && Exec(start, steps).Some?
    && Healthy(Exec(start, steps).value) && WiresInv(Exec(start, steps).value)
  }

  lemma OneMoreStep(start: State, steps: seq<Step>, step: Step, answers: nat -> Finish)
    requires Open(start, steps, answers) && Advances(Exec(start, steps).value, step, answers)
    ensures Open(start, steps + [step], answers)
    ensures Left(Exec(start, steps + [step]).value) < Left(Exec(start, steps).value)
  {
    hide Enabled, Bridge.Next, WiresInv, Left, Healthy;
    assert (steps + [step])[..|steps + [step]| - 1] == steps;
    StaysHealthy(Exec(start, steps).value, step, answers);
  }

  lemma {:induction false} QuietFinish(start: State, steps: seq<Step>, answers: nat -> Finish)
    returns (more: seq<Step>)
    requires Open(start, steps, answers)
    ensures Open(start, steps + more, answers) && Done(Exec(start, steps + more).value)
    decreases Left(Exec(start, steps).value)
  {
    hide Exec, AnswersBy, Quiet, WiresInv, Healthy, Advances, Left;
    if Done(Exec(start, steps).value) {
      more := [];
      assert steps + more == steps;
    } else {
      hide Done;
      var step := SomeStepAdvances(Exec(start, steps).value, answers);
      OneMoreStep(start, steps, step, answers);
      var rest := QuietFinish(start, steps + [step], answers);
      more := [step] + rest;
      assert steps + more == steps + [step] + rest;
    }
  }

  /** After any quiet schedule, with both wires open and a positive limit, some continuation without
      timers finishes the batch through the replies to its calls, and the outcomes are those of the
      sequential map. */
  lemma QuietScheduleCompletes(calls: seq<CallSpec>, limit: nat, steps: seq<Step>, answers: nat -> Finish)
    returns (more: seq<Step>)
    requires limit >= 1 && Exec(Start(calls, limit), steps).Some?
    requires Quiet(steps) && AnswersBy(Start(calls, limit), steps, answers)
    requires Exec(Start(calls, limit), steps).value.readerAlive
    requires Exec(Start(calls, limit), steps).value.tools.stdinOpen
    ensures Quiet(steps + more) && AnswersBy(Start(calls, limit), steps + more, answers)
    ensures var s := Exec(Start(calls, limit), steps + more);
      s.Some? && Done(s.value) && Outcomes(s.value) == SequentialMap(calls, answers)
  {
    HealthyAfter(calls, limit, steps);
    assert WiresInv(Exec(Start(calls, limit), steps).value);
    hide Start, Healthy, WiresInv, Exec, AnswersBy, Done, Outcomes, SequentialMap;
    more := QuietFinish(Start(calls, limit), steps, answers);
    BatchIsSequentialMap(calls, limit, steps + more, answers);
  }

  /** In particular every batch can run to its end from the start. */
  lemma EveryBatchCompletes(calls: seq<CallSpec>, limit: nat, answers: nat -> Finish) returns (steps: seq<Step>)
    requires limit >= 1
    ensures Quiet(steps) && AnswersBy(Start(calls, limit), steps, answers)
    ensures var s := Exec(Start(calls, limit), steps);
      s.Some? && Done(s.value) && Outcomes(s.value) == SequentialMap(calls, answers)
  {
    assert Exec(Start(calls, limit), []) == Some(Start(calls, limit));
    hide Done, Outcomes, SequentialMap;
    steps := QuietScheduleCompletes(calls, limit, [], answers);
    assert [] + steps == steps;
  }
}
