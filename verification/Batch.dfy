/** What `batch_tool` returns, for every schedule of the bridge. */
module Batch {
  import opened Wrappers
  import opened Json
  import opened C = RpcClient
  import opened P = RpcProtocol
  import opened Bridge

  // =====================================================================
  // The fan-out is the sequential map
  // =====================================================================

  /** The outcome of a call made on its own, given how its tool ends. */
  function Alone(finish: Finish): CallOutcome {
    match finish
    case Returned(value, _, serializable) => if serializable then Value(value)
      else Raised(ToolCallError(SERIALIZE_ERROR))
    case Threw(error) => Raised(ToolCallError(error))
  }

  /** One call after the other; `answers` tells how the tool run of each entry ends. Entries are
      independent: equal requests may end differently. */
  function SequentialMap(calls: seq<CallSpec>, answers: nat -> Finish): seq<CallOutcome> {
    if calls == [] then []
    else SequentialMap(calls[..|calls| - 1], answers) + [Alone(answers(|calls| - 1))]
  }

  lemma {:induction false} SequentialMapAt(calls: seq<CallSpec>, answers: nat -> Finish)
    ensures |SequentialMap(calls, answers)| == |calls|
    ensures forall i :: 0 <= i < |calls| ==> SequentialMap(calls, answers)[i] == Alone(answers(i))
  {
    if calls != [] {
      SequentialMapAt(calls[..|calls| - 1], answers);
    }
  }

  function Outcomes(s: State): seq<CallOutcome>
    requires Done(s)
  {
    seq(|s.tasks|, i requires 0 <= i < |s.tasks| => s.tasks[i].outcome)
  }

  /** Along the schedule, the tool run of each batch entry ends the way `answers` says. Calls made
      outside the batch may end in any way. */
  ghost predicate AnswersBy(s: State, steps: seq<Step>, answers: nat -> Finish) {
    steps == []
    || (AnswersBy(s, steps[..|steps| - 1], answers)
        && match steps[|steps| - 1]
           case NodeFinishes(j, finish) =>
             var before := Exec(s, steps[..|steps| - 1]);
             before.Some? && j < |before.value.owner| && before.value.owner[j].Some? ==>
               finish == answers(before.value.owner[j].value)
           case _ => true)
  }

  /** Every answer to a request of the batch is its own entry's. */
  ghost predicate Faithful(s: State, answers: nat -> Finish) {
    forall j :: 0 <= j < |s.tools.handlers| && j < |s.owner| && s.tools.handlers[j].Answered? && s.owner[j].Some? ==>
      OutcomeOf(FutureOf(s.tools.handlers[j].reply)) == Alone(answers(s.owner[j].value))
  }

  lemma {:induction false} ScheduleIsFaithful(calls: seq<CallSpec>, limit: nat, steps: seq<Step>,
                                              answers: nat -> Finish)
    requires Exec(Start(calls, limit), steps).Some? && AnswersBy(Start(calls, limit), steps, answers)
    ensures Faithful(Exec(Start(calls, limit), steps).value, answers)
  {
    if steps != [] {
      var front, last := steps[..|steps| - 1], steps[|steps| - 1];
      ScheduleIsFaithful(calls, limit, front, answers);
      StartHoldsInv(calls, limit);
      ExecKeepsInv(Start(calls, limit), front);
      hide Bridge.Inv, Faithful, Bridge.Next, Enabled;
      StepIsFaithful(Exec(Start(calls, limit), front).value, last, answers);
    }
  }

  lemma StepIsFaithful(s: State, step: Step, answers: nat -> Finish)
    requires Bridge.Inv(s) && Enabled(s, step) && Faithful(s, answers)
    requires step.NodeFinishes? && step.handler < |s.owner| && s.owner[step.handler].Some? ==>
      step.finish == answers(s.owner[step.handler].value)
    ensures Faithful(Bridge.Next(s, step), answers)
  {
    hide C.Inv, FuturesInv, TasksInv, HasRequest, HasEntry;
  }

  /** The entry's outcome is that of its call alone, or its own timer fired, or the reader failed. */
  ghost predicate OwnOutcome(s: State, answers: nat -> Finish, i: nat)
    requires i < |s.tasks| && i < |s.calls|
  {
    s.tasks[i].Finished? ==>
      || s.tasks[i].outcome == Alone(answers(i))
      || (s.tasks[i].outcome == Raised(TimedOut(s.calls[i].tool)) && s.tasks[i].call in s.expired)
      || (s.readerError.Some? && s.tasks[i].outcome == Raised(ReaderError(s.readerError.value)))
  }

  lemma OutcomeIsOwn(s: State, answers: nat -> Finish, i: nat)
    requires Bridge.Inv(s) && Faithful(s, answers) && i < |s.tasks|
    ensures OwnOutcome(s, answers, i)
  {
    hide C.Inv;
    if s.tasks[i].Finished? {
      assert OutcomeExplained(s, i) && HasRequest(s, i);
      var k := s.tasks[i].call;
      assert FutureExplained(s, k);
    }
  }

  /** So it is in every reachable state, for every entry. */
  lemma EntriesAreTheirOwn(calls: seq<CallSpec>, limit: nat, steps: seq<Step>, answers: nat -> Finish)
    requires Exec(Start(calls, limit), steps).Some? && AnswersBy(Start(calls, limit), steps, answers)
    ensures var s := Exec(Start(calls, limit), steps).value;
      s.calls == calls && |s.tasks| == |calls| && forall i :: 0 <= i < |calls| ==> OwnOutcome(s, answers, i)
  {
    var s := Exec(Start(calls, limit), steps).value;
    StartHoldsInv(calls, limit);
    ExecKeepsInv(Start(calls, limit), steps);
    ScheduleIsFaithful(calls, limit, steps, answers);
    assert |s.tasks| == |calls|;
    hide Bridge.Inv, OwnOutcome;
    forall i | 0 <= i < |calls|
      ensures OwnOutcome(s, answers, i)
    {
      OutcomeIsOwn(s, answers, i);
    }
  }

  // ---- such answers exist for every schedule ----

  /** No tool run of entry `i` has ended yet. */
  ghost predicate Unanswered(s: State, i: nat) {
    forall j :: 0 <= j < |s.tools.handlers| && j < |s.owner| && s.owner[j] == Some(i) ==> s.tools.handlers[j].InFlight?
  }

  lemma UnansweredBefore(s: State, step: Step, i: nat)
    requires Enabled(s, step) && Unanswered(Bridge.Next(s, step), i)
    ensures Unanswered(s, i)
    ensures step.NodeFinishes? && step.handler < |s.owner| ==> s.owner[step.handler] != Some(i)
  {
    hide C.Next;
    var n := Bridge.Next(s, step);
    forall j | 0 <= j < |s.tools.handlers| && j < |s.owner| && s.owner[j] == Some(i)
      ensures s.tools.handlers[j].InFlight? && !(step.NodeFinishes? && step.handler == j)
    {
      assert n.owner[j] == Some(i) && n.tools.handlers[j].InFlight?;
    }
  }

  /** What `answers` says of an entry whose tool run has not ended does not matter. */
  lemma {:induction false} UnansweredIsFree(s: State, steps: seq<Step>, i: nat, a: nat -> Finish, b: nat -> Finish)
    requires Exec(s, steps).Some? && Unanswered(Exec(s, steps).value, i) && AnswersBy(s, steps, a)
    requires forall n :: n != i ==> a(n) == b(n)
    ensures AnswersBy(s, steps, b)
  {
    hide Unanswered, Enabled, Bridge.Next;
    if steps != [] {
      var front, last := steps[..|steps| - 1], steps[|steps| - 1];
      UnansweredBefore(Exec(s, front).value, last, i);
      UnansweredIsFree(s, front, i, a, b);
    }
  }

  lemma InFlightIsUnanswered(s: State, j: nat, i: nat)
    requires Bridge.Inv(s) && j < |s.tools.handlers| && s.tools.handlers[j].InFlight?
    requires j < |s.owner| && s.owner[j] == Some(i)
    ensures Unanswered(s, i)
  {
    hide C.Inv, ToolsInv, FuturesInv, TasksInv, WiresInv, HasRequest;
    assert HasEntry(s, j);
    forall j' | 0 <= j' < |s.owner| && s.owner[j'] == Some(i)
      ensures j' == j
    {
      assert HasEntry(s, j');
    }
  }

  lemma ExtendAnswers(s: State, front: seq<Step>, j: nat, finish: Finish, i: nat, known: nat -> Finish)
    returns (answers: nat -> Finish)
    requires Bridge.Inv(s) && AnswersBy(s, front, known)
    requires Exec(s, front).Some? && Enabled(Exec(s, front).value, NodeFinishes(j, finish))
    requires j < |Exec(s, front).value.owner| && Exec(s, front).value.owner[j] == Some(i)
    ensures AnswersBy(s, front, answers) && answers(i) == finish
  {
    answers := (n: nat) => if n == i then finish else known(n);
    ExecKeepsInv(s, front);
    FinishingIsInFlight(Exec(s, front).value, j, finish);
    hide Exec, AnswersBy, Bridge.Inv, Enabled, Unanswered;
    InFlightIsUnanswered(Exec(s, front).value, j, i);
    UnansweredIsFree(s, front, i, known, answers);
  }

  lemma {:induction false} AnswersFrom(s: State, steps: seq<Step>) returns (answers: nat -> Finish)
    requires Bridge.Inv(s) && Exec(s, steps).Some?
    ensures AnswersBy(s, steps, answers)
  {
    hide Enabled, Bridge.Next, Bridge.Inv;
    if steps == [] {
      answers := _ => Threw(Null);
    } else {
      var front, last := steps[..|steps| - 1], steps[|steps| - 1];
      answers := AnswersFrom(s, front);
      var before := Exec(s, front).value;
      if last.NodeFinishes? && last.handler < |before.owner| && before.owner[last.handler].Some? {
        answers := ExtendAnswers(s, front, last.handler, last.finish, before.owner[last.handler].value, answers);
      }
    }
  }

  /** Every schedule whatever has its answers, so to speak of them excludes no run. */
  lemma EveryScheduleHasAnswers(calls: seq<CallSpec>, limit: nat, steps: seq<Step>) returns (answers: nat -> Finish)
    requires Exec(Start(calls, limit), steps).Some?
    ensures AnswersBy(Start(calls, limit), steps, answers)
  {
    StartHoldsInv(calls, limit);
    answers := AnswersFrom(Start(calls, limit), steps);
  }

  lemma FinishingIsInFlight(s: State, j: nat, finish: Finish)
    requires Enabled(s, NodeFinishes(j, finish))
    ensures j < |s.tools.handlers| && s.tools.handlers[j].InFlight?
  {
  }

  /** No timer fires and the reader does not fail. */
  predicate Quiet(steps: seq<Step>) {
    forall i :: 0 <= i < |steps| ==> !steps[i].CallExpires? && !steps[i].ReaderFails?
  }

  lemma {:induction false} QuietMeansNoFailure(s: State, steps: seq<Step>)
    requires Exec(s, steps).Some? && Quiet(steps) && s.expired == {} && s.readerError.None?
    ensures Exec(s, steps).value.expired == {} && Exec(s, steps).value.readerError.None?
  {
    if steps != [] {
      QuietMeansNoFailure(s, steps[..|steps| - 1]);
    }
  }

  /** The main result: whatever order calls start, tools finish and replies arrive in, a finished batch
      holds, in input order, what running the calls one after the other would give. */
  lemma BatchIsSequentialMap(calls: seq<CallSpec>, limit: nat, steps: seq<Step>, answers: nat -> Finish)
    requires Exec(Start(calls, limit), steps).Some? && AnswersBy(Start(calls, limit), steps, answers) && Quiet(steps)
    requires Done(Exec(Start(calls, limit), steps).value)
    ensures Outcomes(Exec(Start(calls, limit), steps).value) == SequentialMap(calls, answers)
  {
    var s := Exec(Start(calls, limit), steps).value;
    QuietMeansNoFailure(Start(calls, limit), steps);
    EntriesAreTheirOwn(calls, limit, steps, answers);
    SequentialMapAt(calls, answers);
    hide Exec, AnswersBy;
    forall i | 0 <= i < |calls|
      ensures Outcomes(s)[i] == SequentialMap(calls, answers)[i]
    {
      assert OwnOutcome(s, answers, i);
    }
  }

  // =====================================================================
  // Each call once, at most `limit` at a time
  // =====================================================================

  /** In every reachable state an entry that has left the queue has exactly one request on the wire,
      with its tool and parameters; a queued one has none. */
  lemma IssuedExactlyOnce(calls: seq<CallSpec>, limit: nat, steps: seq<Step>, i: nat)
    requires Exec(Start(calls, limit), steps).Some? && i < |calls|
    ensures var s := Exec(Start(calls, limit), steps).value;
      && |s.tasks| == |calls| && |s.owner| == |s.client.wire|
      && (s.tasks[i].Queued? <==> Some(i) !in s.owner)
      && (forall j, j' :: 0 <= j < |s.owner| && 0 <= j' < |s.owner| && s.owner[j] == Some(i) == s.owner[j'] ==> j == j')
      && (forall j :: 0 <= j < |s.owner| && s.owner[j] == Some(i) ==> s.client.wire[j].spec == calls[i])
  {
    hide C.Inv, ToolsInv, TasksInv, FuturesInv, WiresInv, Bridge.Next, Enabled;
    var s := Exec(Start(calls, limit), steps).value;
    StartHoldsInv(calls, limit);
    ExecKeepsInv(Start(calls, limit), steps);
    hide Exec;
    assert HasRequest(s, i);
    forall j | 0 <= j < |s.owner| && s.owner[j] == Some(i)
      ensures !s.tasks[i].Queued? && s.tasks[i].call == j + 1
    {
      assert HasEntry(s, j);
    }
  }

  /** A finished entry's call is gone from `pending_calls`. */
  ghost predicate Released(s: State) {
    forall i :: 0 <= i < |s.tasks| && s.tasks[i].Finished? ==> CallIdText(s.tasks[i].call) !in s.client.pending
  }

  lemma PendingOnlyShrinks(s: State, step: Step)
    requires Enabled(s, step) && !step.Acquire? && !step.OtherCall?
    ensures Bridge.Next(s, step).client.pending.Keys <= s.client.pending.Keys
  {
    hide FinishCall, ReceiveCall;
  }

  lemma CallReleases(s: State, step: Step)
    requires Bridge.Inv(s) && Released(s) && Enabled(s, step) && (step.Acquire? || step.OtherCall?)
    ensures Released(Bridge.Next(s, step))
  {
    var n := Bridge.Next(s, step);
    hide ToolsInv, FuturesInv, TasksInv, WiresInv, CallIdText;
    forall i | 0 <= i < |n.tasks| && n.tasks[i].Finished?
      ensures CallIdText(n.tasks[i].call) !in n.client.pending
    {
      var k := n.tasks[i].call;
      assert HasRequest(s, i);
      if CallIdText(k) == CallIdText(s.client.callId + 1) {
        CallIdTextInjective(k, s.client.callId + 1);
      }
    }
  }

  /** A coroutine continues only once its future is settled, and then its entry is gone. */
  lemma ResumeReleases(s: State, i: nat, late: bool)
    requires Bridge.Inv(s) && Enabled(s, Resume(i, late))
    ensures CallIdText(s.tasks[i].call) !in Bridge.Next(s, Resume(i, late)).client.pending
  {
    hide ToolsInv, FuturesInv, TasksInv, WiresInv, OwnersInv, CallIdText;
    var k := s.tasks[i].call;
    if !late && CallIdText(k) in s.client.pending {
      CallIdTextInjective(k, s.client.pending[CallIdText(k)]);
    }
  }

  lemma StepReleases(s: State, step: Step)
    requires Bridge.Inv(s) && Released(s) && Enabled(s, step)
    ensures Released(Bridge.Next(s, step))
  {
    if step.Acquire? || step.OtherCall? {
      CallReleases(s, step);
    } else {
      var n := Bridge.Next(s, step);
      assert forall i :: 0 <= i < |s.tasks| && !(step.Resume? && step.task == i) ==> n.tasks[i] == s.tasks[i];
      if step.Resume? {
        ResumeReleases(s, step.task, step.late);
        assert n.tasks[step.task].call == s.tasks[step.task].call;
      }
      PendingOnlyShrinks(s, step);
      hide Bridge.Inv, Bridge.Next, Enabled, CallIdText;
    }
  }

  lemma {:induction false} ExecReleases(calls: seq<CallSpec>, limit: nat, steps: seq<Step>)
    requires Exec(Start(calls, limit), steps).Some?
    ensures Released(Exec(Start(calls, limit), steps).value)
  {
    if steps != [] {
      var front := steps[..|steps| - 1];
      ExecReleases(calls, limit, front);
      StartHoldsInv(calls, limit);
      ExecKeepsInv(Start(calls, limit), front);
      StepReleases(Exec(Start(calls, limit), front).value, steps[|steps| - 1]);
    }
  }

  /** Ids of the batch that wait for a reply. */
  ghost function Outstanding(s: State): set<string> {
    set id | id in s.client.pending && 1 <= s.client.pending[id] <= |s.owner| && s.owner[s.client.pending[id] - 1].Some?
  }

  function RunningIds(tasks: seq<Task>): set<string> {
    if tasks == [] then {}
    else
      RunningIds(tasks[..|tasks| - 1])
      + if tasks[|tasks| - 1].Running? then {CallIdText(tasks[|tasks| - 1].call)} else {}
  }

  lemma {:induction false} RunningIdsAre(tasks: seq<Task>)
    ensures |RunningIds(tasks)| <= RunningCount(tasks)
    ensures forall i :: 0 <= i < |tasks| && tasks[i].Running? ==> CallIdText(tasks[i].call) in RunningIds(tasks)
  {
    if tasks != [] {
      RunningIdsAre(tasks[..|tasks| - 1]);
    }
  }

  lemma {:induction false} SubsetSize<T>(a: set<T>, b: set<T>)
    requires a <= b
    ensures |a| <= |b|
  {
    if a != {} {
      var x :| x in a;
      SubsetSize(a - {x}, b - {x});
    }
  }

  /** At most `limit` calls of the batch are outstanding at once, in every reachable state. */
  lemma AtMostLimitOutstanding(calls: seq<CallSpec>, limit: nat, steps: seq<Step>)
    requires Exec(Start(calls, limit), steps).Some?
    ensures |Outstanding(Exec(Start(calls, limit), steps).value)| <= limit
  {
    var s := Exec(Start(calls, limit), steps).value;
    StartHoldsInv(calls, limit);
    ExecKeepsInv(Start(calls, limit), steps);
    ExecReleases(calls, limit, steps);
    RunningIdsAre(s.tasks);
    forall id | id in Outstanding(s)
      ensures id in RunningIds(s.tasks)
    {
      assert HasEntry(s, s.client.pending[id] - 1);
    }
    SubsetSize(Outstanding(s), RunningIds(s.tasks));
  }

  // =====================================================================
  // What the caller gets
  // =====================================================================

  /** The parts of `batch_tool` that look into values: path normalization, which may throw, the search
      for a tool-level error, and the text of an exception. */
  datatype Hooks = Hooks(
    normalize: (string, Json) -> Result<Json, string>,
    classify: Json -> Option<string>,
    summarize: Failure -> string)

  datatype BatchEntry = BatchEntry(index: nat, tool: string, ok: bool, value: Option<Json>, error: Option<string>)

  /** A call is a success if it returned a value that normalizes and holds no tool-level error. */
  predicate Succeeds(tool: string, outcome: CallOutcome, hooks: Hooks) {
    && outcome.Value?
    && hooks.normalize(tool, outcome.value).Ok?
    && hooks.classify(hooks.normalize(tool, outcome.value).value).None?
  }

  /** What an entry of collect mode tells about the outcome of its call. */
  predicate TellsOf(e: BatchEntry, index: nat, tool: string, outcome: CallOutcome, hooks: Hooks) {
    && e.index == index && e.tool == tool
    && (e.ok <==> Succeeds(tool, outcome, hooks))
    && (e.error.None? <==> e.ok)
    && (e.value.Some? <==> outcome.Value? && hooks.normalize(tool, outcome.value).Ok?)
    && (e.value.Some? ==> Ok(e.value.value) == hooks.normalize(tool, outcome.value))
    && (e.value.Some? && !e.ok ==> e.error == hooks.classify(e.value.value))
    && (outcome.Raised? ==> e.error == Some(hooks.summarize(outcome.failure)))
    && (outcome.Value? && e.value.None? ==> Err(e.error.value) == hooks.normalize(tool, outcome.value))
  }

  function CollectEntry(index: nat, tool: string, outcome: CallOutcome, hooks: Hooks): (e: BatchEntry)
    ensures TellsOf(e, index, tool, outcome, hooks)
  {
    match outcome
    case Raised(failure) => BatchEntry(index, tool, false, None, Some(hooks.summarize(failure)))
    case Value(value) =>
      match hooks.normalize(tool, value)
      case Err(text) => BatchEntry(index, tool, false, None, Some(text))
      case Ok(normalized) =>
        var toolError := hooks.classify(normalized);
        if toolError.Some? then BatchEntry(index, tool, false, Some(normalized), toolError)
        else BatchEntry(index, tool, true, Some(normalized), None)
  }

  /** The calls that succeed. */
  ghost function Successes(calls: seq<CallSpec>, outcomes: seq<CallOutcome>, hooks: Hooks): set<nat>
    requires |outcomes| == |calls|
  {
    set i: nat | i < |calls| && Succeeds(calls[i].tool, outcomes[i], hooks)
  }

  /** Collect mode: one entry per call, in input order, each telling of its own call; `succeeded` is the
      number of calls that succeed, and the others failed. */
  method CollectResults(calls: seq<CallSpec>, outcomes: seq<CallOutcome>, hooks: Hooks)
    returns (entries: seq<BatchEntry>, succeeded: nat, failed: nat)
    requires |outcomes| == |calls|
    ensures entries == Collected(calls, outcomes, hooks)
    ensures forall i :: 0 <= i < |calls| ==> TellsOf(entries[i], i, calls[i].tool, outcomes[i], hooks)
    ensures succeeded == |Successes(calls, outcomes, hooks)| && succeeded + failed == |calls|
  {
    entries := [];
    for i := 0 to |calls|
      invariant |entries| == i
      invariant forall j :: 0 <= j < i ==> entries[j] == CollectEntry(j, calls[j].tool, outcomes[j], hooks)
    {
      entries := entries + [CollectEntry(i, calls[i].tool, outcomes[i], hooks)];
    }
    succeeded := 0;
    ghost var counted: set<nat> := {};
    for i := 0 to |entries|
      invariant succeeded == |counted| <= i
      invariant counted == set j: nat | j < i && Succeeds(calls[j].tool, outcomes[j], hooks)
    {
      if entries[i].ok {
        succeeded := succeeded + 1;
        counted := counted + {i};
      }
    }
    assert counted == Successes(calls, outcomes, hooks);
    failed := |entries| - succeeded;
  }

  function Collected(calls: seq<CallSpec>, outcomes: seq<CallOutcome>, hooks: Hooks): (entries: seq<BatchEntry>)
    requires |outcomes| == |calls|
    ensures |entries| == |calls|
    ensures forall i :: 0 <= i < |calls| ==> TellsOf(entries[i], i, calls[i].tool, outcomes[i], hooks)
  {
    seq(|calls|, i requires 0 <= i < |calls| => CollectEntry(i, calls[i].tool, outcomes[i], hooks))
  }

  /** Collect mode after any schedule that finishes the batch, whatever timers fired and whether or not the
      reader failed: entry i tells of call i alone, or of its own timeout or of the reader. */
  lemma CollectModeIsOwn(calls: seq<CallSpec>, limit: nat, steps: seq<Step>, answers: nat -> Finish, hooks: Hooks)
    requires Exec(Start(calls, limit), steps).Some? && AnswersBy(Start(calls, limit), steps, answers)
    requires Done(Exec(Start(calls, limit), steps).value)
    ensures var s := Exec(Start(calls, limit), steps).value;
      && |Outcomes(s)| == |calls|
      && forall i :: 0 <= i < |calls| ==>
           var entry, tool := Collected(calls, Outcomes(s), hooks)[i], calls[i].tool;
           || TellsOf(entry, i, tool, Alone(answers(i)), hooks)
           || (s.tasks[i].call in s.expired && TellsOf(entry, i, tool, Raised(TimedOut(tool)), hooks))
           || (s.readerError.Some? && TellsOf(entry, i, tool, Raised(ReaderError(s.readerError.value)), hooks))
  {
    EntriesAreTheirOwn(calls, limit, steps, answers);
    hide Exec, AnswersBy, TellsOf, CollectEntry;
    var s := Exec(Start(calls, limit), steps).value;
    forall i | 0 <= i < |calls|
      ensures OwnOutcome(s, answers, i) && s.tasks[i].Finished?
    {
    }
  }

  /** Raise mode: the batch is decided as soon as one task fails, or when all are done. */
  predicate Decided(s: State) {
    Done(s) || (s.firstFailure.Some? && s.firstFailure.value < |s.tasks|
                && s.tasks[s.firstFailure.value].Finished? && s.tasks[s.firstFailure.value].outcome.Raised?)
  }

  /** `gather` raises the exception of the first task that failed, in time; without one it returns the
      values in input order. */
  function Gathered(s: State): (r: Result<seq<Json>, Failure>)
    requires Decided(s)
    ensures r.Ok? ==> Done(s) && |r.value| == |s.tasks|
  {
    if s.firstFailure.Some? && s.firstFailure.value < |s.tasks|
       && s.tasks[s.firstFailure.value].Finished? && s.tasks[s.firstFailure.value].outcome.Raised?
    then Err(s.tasks[s.firstFailure.value].outcome.failure)
    else Ok(seq(|s.tasks|, i requires 0 <= i < |s.tasks| =>
      if s.tasks[i].outcome.Value? then s.tasks[i].outcome.value else Null))
  }

  datatype BatchError = CallFailed(failure: Failure) | NormalizeFailed(text: string)

  /** The gathered values are normalized in input order, and the first one that throws ends the batch. */
  method NormalizeResults(calls: seq<CallSpec>, values: seq<Json>, hooks: Hooks)
    returns (r: Result<seq<Json>, string>)
    requires |values| == |calls|
    ensures r == Normalized(calls, values, hooks)
  {
    var normalized := [];
    for i := 0 to |calls|
      invariant Normalized(calls[..i], values[..i], hooks) == Ok(normalized)
    {
      assert calls[..i + 1][..i] == calls[..i] && values[..i + 1][..i] == values[..i];
      var value := hooks.normalize(calls[i].tool, values[i]);
      if value.Err? {
        FirstThrowEnds(calls, values, hooks, i);
        return Err(value.error);
      }
      normalized := normalized + [value.value];
    }
    assert calls[..|calls|] == calls && values[..|calls|] == values;
    r := Ok(normalized);
  }

  function Normalized(calls: seq<CallSpec>, values: seq<Json>, hooks: Hooks): Result<seq<Json>, string>
    requires |values| == |calls|
  {
    if calls == [] then Ok([]) else
    var n := |calls| - 1;
    var front := Normalized(calls[..n], values[..n], hooks);
    if front.Err? then front else
    var last := hooks.normalize(calls[n].tool, values[n]);
    if last.Err? then Err(last.error) else Ok(front.value + [last.value])
  }

  lemma {:induction false} FirstThrowEnds(calls: seq<CallSpec>, values: seq<Json>, hooks: Hooks, i: nat)
    requires |values| == |calls| && i < |calls|
    requires Normalized(calls[..i], values[..i], hooks).Ok? && hooks.normalize(calls[i].tool, values[i]).Err?
    ensures Normalized(calls, values, hooks) == Err(hooks.normalize(calls[i].tool, values[i]).error)
  {
    var n := |calls| - 1;
    if i < n {
      assert calls[..n][..i] == calls[..i] && values[..n][..i] == values[..i];
      FirstThrowEnds(calls[..n], values[..n], hooks, i);
    }
  }

  /** All values normalize, each to its own result, or the error is that of the first that does not. */
  lemma {:induction false} NormalizedInOrder(calls: seq<CallSpec>, values: seq<Json>, hooks: Hooks)
    requires |values| == |calls|
    ensures match Normalized(calls, values, hooks)
      case Ok(rs) =>
        |rs| == |calls| && forall i :: 0 <= i < |calls| ==> hooks.normalize(calls[i].tool, values[i]) == Ok(rs[i])
      case Err(text) => exists i ::
        && 0 <= i < |calls| && hooks.normalize(calls[i].tool, values[i]) == Err(text)
        && forall j :: 0 <= j < i ==> hooks.normalize(calls[j].tool, values[j]).Ok?
  {
    if calls != [] {
      var n := |calls| - 1;
      NormalizedInOrder(calls[..n], values[..n], hooks);
      if Normalized(calls[..n], values[..n], hooks).Err? {
        var i :| 0 <= i < n && hooks.normalize(calls[..n][i].tool, values[..n][i])
          == Err(Normalized(calls, values, hooks).error)
          && forall j :: 0 <= j < i ==> hooks.normalize(calls[..n][j].tool, values[..n][j]).Ok?;
        assert forall j :: 0 <= j <= i ==> calls[..n][j] == calls[j] && values[..n][j] == values[j];
      }
    }
  }

  function RaiseResult(s: State, hooks: Hooks): Result<seq<Json>, BatchError>
    requires Decided(s) && |s.tasks| == |s.calls|
  {
    var gathered := Gathered(s);
    if gathered.Err? then Err(CallFailed(gathered.error)) else
    var normalized := Normalized(s.calls, gathered.value, hooks);
    if normalized.Err? then Err(NormalizeFailed(normalized.error)) else Ok(normalized.value)
  }

  lemma StepKeepsFailure(s: State, step: Step)
    requires TasksInv(s) && s.firstFailure.Some? && Enabled(s, step)
    ensures var n, i := Bridge.Next(s, step), s.firstFailure.value;
      n.firstFailure == Some(i) && i < |s.tasks| && i < |n.tasks| && n.tasks[i] == s.tasks[i]
  {
    hide OutcomeExplained;
    assert s.tasks[s.firstFailure.value].Finished?;
  }

  /** The failure that is raised is fixed by the first task to fail, whatever happens afterwards. */
  lemma {:induction false} FirstFailureIsFinal(s: State, steps: seq<Step>)
    requires Bridge.Inv(s) && s.firstFailure.Some? && Exec(s, steps).Some?
    ensures var n, i := Exec(s, steps).value, s.firstFailure.value;
      n.firstFailure == Some(i) && i < |s.tasks| && i < |n.tasks| && n.tasks[i] == s.tasks[i]
  {
    hide Enabled, Bridge.Next, C.Inv, ToolsInv, FuturesInv, OwnersInv, WiresInv;
    if steps != [] {
      FirstFailureIsFinal(s, steps[..|steps| - 1]);
      ExecKeepsInv(s, steps[..|steps| - 1]);
      StepKeepsFailure(Exec(s, steps[..|steps| - 1]).value, steps[|steps| - 1]);
    }
  }

  /** Decided is exactly: some task has failed, or all have finished. */
  lemma GatherIsOwn(s: State, answers: nat -> Finish)
    requires Bridge.Inv(s) && forall i :: 0 <= i < |s.tasks| ==> i < |s.calls| && OwnOutcome(s, answers, i)
    ensures Decided(s) <==>
      Done(s) || exists i :: 0 <= i < |s.tasks| && s.tasks[i].Finished? && s.tasks[i].outcome.Raised?
    ensures Decided(s) && Gathered(s).Ok? ==>
      forall i :: 0 <= i < |s.tasks| ==> s.tasks[i].outcome == Alone(answers(i)) == Value(Gathered(s).value[i])
    ensures Decided(s) && Gathered(s).Err? ==>
      && s.firstFailure.Some? && s.firstFailure.value < |s.tasks|
      && s.tasks[s.firstFailure.value].Finished?
      && s.tasks[s.firstFailure.value].outcome == Raised(Gathered(s).error)
  {
    hide C.Inv, ToolsInv, FuturesInv, OwnersInv, WiresInv, OutcomeExplained;
    if Decided(s) && Gathered(s).Ok? {
      forall i | 0 <= i < |s.tasks|
        ensures s.tasks[i].outcome == Alone(answers(i)) == Value(Gathered(s).value[i])
      {
        assert OwnOutcome(s, answers, i);
      }
    }
  }

  /** What raise mode means: the normalized values of the calls alone, in input order, or the failure of the
      first task to fail, which is its own, or, when no call failed, the error of the first value that
      does not normalize. */
  ghost predicate RaisesOwn(s: State, r: Result<seq<Json>, BatchError>, answers: nat -> Finish, hooks: Hooks)
    requires |s.tasks| == |s.calls|
  {
    match r
    case Ok(rs) =>
      && |rs| == |s.calls|
      && forall i :: 0 <= i < |s.calls| ==>
           Alone(answers(i)).Value? && hooks.normalize(s.calls[i].tool, Alone(answers(i)).value) == Ok(rs[i])
    case Err(CallFailed(failure)) =>
      && s.firstFailure.Some? && s.firstFailure.value < |s.tasks|
      && s.tasks[s.firstFailure.value].Finished? && s.tasks[s.firstFailure.value].outcome == Raised(failure)
      && OwnOutcome(s, answers, s.firstFailure.value)
    case Err(NormalizeFailed(text)) =>
      && (forall i :: 0 <= i < |s.calls| ==> Alone(answers(i)).Value?)
      && exists i ::
        && 0 <= i < |s.calls| && hooks.normalize(s.calls[i].tool, Alone(answers(i)).value) == Err(text)
        && forall j :: 0 <= j < i ==> hooks.normalize(s.calls[j].tool, Alone(answers(j)).value).Ok?
  }

  lemma RaiseIsOwn(s: State, answers: nat -> Finish, hooks: Hooks)
    requires Bridge.Inv(s) && Decided(s) && |s.tasks| == |s.calls|
    requires forall i :: 0 <= i < |s.tasks| ==> OwnOutcome(s, answers, i)
    ensures RaisesOwn(s, RaiseResult(s, hooks), answers, hooks)
  {
    hide Bridge.Inv, Done, Decided, OwnOutcome;
    GatherIsOwn(s, answers);
    if Gathered(s).Ok? {
      NormalizedInOrder(s.calls, Gathered(s).value, hooks);
    }
    hide Gathered, Normalized;
  }

  /** Raise mode after any schedule whatever, with timers and a failing reader: it is decided exactly when
      a task has failed or all have finished, and then the result is the calls' own. */
  lemma RaiseModeIsOwn(calls: seq<CallSpec>, limit: nat, steps: seq<Step>, answers: nat -> Finish, hooks: Hooks)
    requires Exec(Start(calls, limit), steps).Some? && AnswersBy(Start(calls, limit), steps, answers)
    ensures var s := Exec(Start(calls, limit), steps).value;
      && |s.tasks| == |s.calls| && s.calls == calls
      && (Decided(s) <==>
            Done(s) || exists i :: 0 <= i < |s.tasks| && s.tasks[i].Finished? && s.tasks[i].outcome.Raised?)
      && (Decided(s) ==> RaisesOwn(s, RaiseResult(s, hooks), answers, hooks))
  {
    EntriesAreTheirOwn(calls, limit, steps, answers);
    StartHoldsInv(calls, limit);
    ExecKeepsInv(Start(calls, limit), steps);
    hide Exec, AnswersBy, Bridge.Inv, Done, OwnOutcome, Decided, RaisesOwn, RaiseResult;
    var s := Exec(Start(calls, limit), steps).value;
    GatherIsOwn(s, answers);
    if Decided(s) {
      RaiseIsOwn(s, answers, hooks);
    }
  }

  /** Without timers and reader failure a finished batch raises exactly when the sequential map has a
      failing entry, and then one of its failures; otherwise it gathers the map's values. */
  lemma GatherIsSequential(calls: seq<CallSpec>, limit: nat, steps: seq<Step>, answers: nat -> Finish)
    requires Exec(Start(calls, limit), steps).Some? && AnswersBy(Start(calls, limit), steps, answers) && Quiet(steps)
    requires Done(Exec(Start(calls, limit), steps).value)
    ensures var r, m := Gathered(Exec(Start(calls, limit), steps).value), SequentialMap(calls, answers);
      && (r.Ok? <==> forall i :: 0 <= i < |m| ==> m[i].Value?)
      && (r.Ok? ==> |r.value| == |m| && forall i :: 0 <= i < |m| ==> m[i] == Value(r.value[i]))
      && (r.Err? ==> Raised(r.error) in m)
  {
    var s := Exec(Start(calls, limit), steps).value;
    BatchIsSequentialMap(calls, limit, steps, answers);
    EntriesAreTheirOwn(calls, limit, steps, answers);
    StartHoldsInv(calls, limit);
    ExecKeepsInv(Start(calls, limit), steps);
    hide Exec, AnswersBy, Bridge.Inv, OwnOutcome;
    var m := SequentialMap(calls, answers);
    assert forall i :: 0 <= i < |m| ==> m[i] == s.tasks[i].outcome;
    GatherIsOwn(s, answers);
    if Gathered(s).Err? {
      assert m[s.firstFailure.value] == Raised(Gathered(s).error);
    }
  }

  /** The same in terms of the sequential map: the normalized values in input order, or the failure of some
      call, or, when no call failed, the error of the first value that does not normalize. */
  ghost predicate RaisesLike(r: Result<seq<Json>, BatchError>, calls: seq<CallSpec>, m: seq<CallOutcome>, hooks: Hooks)
    requires |m| == |calls|
  {
    match r
    case Ok(rs) =>
      |rs| == |m|
      && forall i :: 0 <= i < |m| ==> m[i].Value? && hooks.normalize(calls[i].tool, m[i].value) == Ok(rs[i])
    case Err(CallFailed(failure)) => Raised(failure) in m
    case Err(NormalizeFailed(text)) =>
      && (forall i :: 0 <= i < |m| ==> m[i].Value?)
      && exists i ::
        && 0 <= i < |m| && hooks.normalize(calls[i].tool, m[i].value) == Err(text)
        && forall j :: 0 <= j < i ==> hooks.normalize(calls[j].tool, m[j].value).Ok?
  }

  lemma RaiseModeIsSequential(calls: seq<CallSpec>, limit: nat, steps: seq<Step>, answers: nat -> Finish, hooks: Hooks)
    requires Exec(Start(calls, limit), steps).Some? && AnswersBy(Start(calls, limit), steps, answers) && Quiet(steps)
    requires Done(Exec(Start(calls, limit), steps).value)
    ensures |SequentialMap(calls, answers)| == |calls|
    ensures var s := Exec(Start(calls, limit), steps).value;
      |s.tasks| == |s.calls| && RaisesLike(RaiseResult(s, hooks), calls, SequentialMap(calls, answers), hooks)
  {
    EntriesAreTheirOwn(calls, limit, steps, answers);
    GatherIsSequential(calls, limit, steps, answers);
    SequentialMapAt(calls, answers);
    hide Exec, AnswersBy, SequentialMap, OwnOutcome;
    var s := Exec(Start(calls, limit), steps).value;
    var gathered := Gathered(s);
    if gathered.Ok? {
      NormalizedInOrder(calls, gathered.value, hooks);
    }
    hide Gathered, Normalized;
  }

  /** And collect mode tells of the sequential map, entry by entry. */
  lemma CollectModeIsSequential(calls: seq<CallSpec>, limit: nat, steps: seq<Step>, answers: nat -> Finish,
                                hooks: Hooks)
    requires Exec(Start(calls, limit), steps).Some? && AnswersBy(Start(calls, limit), steps, answers) && Quiet(steps)
    requires Done(Exec(Start(calls, limit), steps).value)
    ensures |Outcomes(Exec(Start(calls, limit), steps).value)| == |SequentialMap(calls, answers)| == |calls|
    ensures var entries := Collected(calls, Outcomes(Exec(Start(calls, limit), steps).value), hooks);
      forall i :: 0 <= i < |calls| ==>
        && TellsOf(entries[i], i, calls[i].tool, SequentialMap(calls, answers)[i], hooks)
        && (entries[i].ok <==> Succeeds(calls[i].tool, Alone(answers(i)), hooks))
  {
    BatchIsSequentialMap(calls, limit, steps, answers);
    SequentialMapAt(calls, answers);
    hide Exec, AnswersBy, SequentialMap, CollectEntry;
  }
}
