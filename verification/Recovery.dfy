/** One-shot recovery: a failed Python execution may add one recovery message to the conversation of
    the request it belongs to. Executions overlap, and each keeps the recovery record that was current
    when it started. */
module Recovery {
  import opened Wrappers

  datatype FailureClass = MissingAwait | AsyncWrapperIterated
  datatype Terminal = Success | FailedWithoutRecovery | FailedAfterRecovery
  datatype ToolPath = CodeExecutionPath | DirectPath

  datatype Record = Record(
    autoRouted: bool, firstToolPath: Option<ToolPath>, routedToCodeExecution: bool, codeExecutionAttempts: nat,
    recoveryAttempted: bool, failureClass: Option<FailureClass>, terminalState: Option<Terminal>)

  const FRESH := Record(false, None, false, 0, false, None, None)

  datatype Settings = Settings(autoRecover: bool, autoRecoverMaxAttempts: Option<int>)

  function NoteAttempt(r: Record): Record {
    r.(routedToCodeExecution := true, codeExecutionAttempts := r.codeExecutionAttempts + 1,
       firstToolPath := if r.firstToolPath.None? then Some(CodeExecutionPath) else r.firstToolPath)
  }

  predicate CanAttemptRecovery(r: Record, s: Settings) {
    && s.autoRecover
    && (if s.autoRecoverMaxAttempts.Some? then s.autoRecoverMaxAttempts.value else 1) > 0
    && r.codeExecutionAttempts > 0 && !r.recoveryAttempted
  }

  function NoteFailure(r: Record): Record {
    r.(terminalState := Some(if r.recoveryAttempted then FailedAfterRecovery else FailedWithoutRecovery))
  }

  /** How an execution ends: success, a Python error with its class if it was recognized, or another error. */
  datatype Ending = Succeeded | PythonError(failureClass: Option<FailureClass>) | OtherError

  /** The session: its records, which one belongs to the current request, the executions under way with
      the record each of them holds, and the recovery message waiting to be delivered. `delivered`
      counts the messages delivered since the last request began. */
  datatype Session = Session(
    records: seq<Record>, current: Option<nat>, running: seq<nat>,
    pending: Option<FailureClass>, allowed: bool, delivered: nat, started: nat)

  const IDLE := Session([], None, [], None, true, 0, 0)

  datatype Event =
    | BeforeAgentStart(mutation: bool)   // a prompt that asks for changes
    | ExecutionStarts
    | ExecutionEnds(index: nat, ending: Ending)
    | Context
    | AgentEnd

  function WithRecord(s: Session, k: nat, r: Record): Session {
    if k < |s.records| then s.(records := s.records[k := r]) else s
  }

  /** The end of the execution that holds record `k`. */
  function Ends(s: Session, k: nat, ending: Ending, settings: Settings): Session
    requires k < |s.records|
  {
    var r := s.records[k];
    match ending
    case Succeeded => WithRecord(s, k, r.(terminalState := Some(Success)))
    case OtherError => WithRecord(s, k, NoteFailure(r))
    case PythonError(failureClass) =>
      if s.allowed && failureClass.Some? && CanAttemptRecovery(r, settings)
      then
        var armed := r.(recoveryAttempted := true, failureClass := failureClass);
        WithRecord(s, k, NoteFailure(armed)).(pending := failureClass)
      else WithRecord(s, k, NoteFailure(r))
  }

  function Next(s: Session, e: Event, settings: Settings): Session {
    match e
    case BeforeAgentStart(mutation) =>
      s.(records := s.records + [FRESH], current := Some(|s.records|), pending := None, allowed := !mutation,
         delivered := 0, started := 0)
    case ExecutionStarts =>
      var t := if s.current.Some? then s else s.(records := s.records + [FRESH], current := Some(|s.records|));
      var k := t.current.value;
      if k < |t.records|
      then WithRecord(t, k, NoteAttempt(t.records[k])).(running := t.running + [k], started := t.started + 1)
      else t
    case ExecutionEnds(index, ending) =>
      if index < |s.running| && s.running[index] < |s.records|
      then Ends(s.(running := s.running[..index] + s.running[index + 1..]), s.running[index], ending, settings)
      else s
    case Context => if s.pending.Some? then s.(pending := None, delivered := s.delivered + 1) else s
    case AgentEnd => s.(pending := None, allowed := true, current := None)
  }

  function Run(s: Session, events: seq<Event>, settings: Settings): Session {
    if events == [] then s else Next(Run(s, events[..|events| - 1], settings), events[|events| - 1], settings)
  }

  /** Events inside one request. */
  predicate Inside(events: seq<Event>) {
    forall i :: 0 <= i < |events| ==> !events[i].BeforeAgentStart? && !events[i].AgentEnd?
  }

  /** Executions hold records that exist. */
  predicate WellFormed(s: Session) {
    forall i :: 0 <= i < |s.running| ==> s.running[i] < |s.records|
  }

  /** No execution left over from an earlier request could still arm a recovery. In particular this
      holds when all of them have settled. */
  predicate NoLeftover(s: Session, settings: Settings) {
    forall i :: 0 <= i < |s.running| && s.running[i] < |s.records| ==>
      !CanAttemptRecovery(s.records[s.running[i]], settings)
  }

  lemma NextIsWellFormed(s: Session, e: Event, settings: Settings)
    requires WellFormed(s) && (s.current.Some? ==> s.current.value < |s.records|)
    ensures var n := Next(s, e, settings); WellFormed(n) && (n.current.Some? ==> n.current.value < |n.records|)
  {
    if e.ExecutionEnds? && e.index < |s.running| {
      var n := Next(s, e, settings);
      assert |n.records| == |s.records| && n.current == s.current;
      assert forall i :: 0 <= i < |n.running| ==> n.running[i] in s.running;
    }
  }

  /** Every session that can be reached is well formed. */
  lemma {:induction false} RunsAreWellFormed(events: seq<Event>, settings: Settings)
    ensures var s := Run(IDLE, events, settings);
      WellFormed(s) && (s.current.Some? ==> s.current.value < |s.records|)
  {
    if events != [] {
      hide Next, WellFormed;
      RunsAreWellFormed(events[..|events| - 1], settings);
      NextIsWellFormed(Run(IDLE, events[..|events| - 1], settings), events[|events| - 1], settings);
    } else {
      assert WellFormed(IDLE);
    }
  }

  /** Within the request that owns record `k`. */
  ghost predicate Inv(s: Session, k: nat, mutation: bool, settings: Settings) {
    && s.current == Some(k) && k < |s.records| && s.allowed == !mutation && WellFormed(s)
    && (forall i :: 0 <= i < |s.running| && s.running[i] != k ==>
          mutation || !CanAttemptRecovery(s.records[s.running[i]], settings))
    && var r := s.records[k];
       && r.codeExecutionAttempts == s.started
       && (r.recoveryAttempted <==> r.failureClass.Some?)
       && s.delivered + (if s.pending.Some? then 1 else 0) <= (if r.recoveryAttempted then 1 else 0)
       && (mutation ==> !r.recoveryAttempted)
       && (s.pending.Some? ==> s.pending == r.failureClass)
  }

  lemma EndKeepsInv(s: Session, index: nat, ending: Ending, settings: Settings, k: nat, mutation: bool)
    requires Inv(s, k, mutation, settings) && index < |s.running|
    ensures var n := Next(s, ExecutionEnds(index, ending), settings);
      && Inv(n, k, mutation, settings)
      && (s.records[k].recoveryAttempted ==>
            n.records[k].recoveryAttempted && n.records[k].failureClass == s.records[k].failureClass)
  {
    var t := s.(running := s.running[..index] + s.running[index + 1..]);
    var j := s.running[index];
    var n := Ends(t, j, ending, settings);
    assert Inv(t, k, mutation, settings);
    assert n.running == t.running && |n.records| == |t.records|;
    assert !CanAttemptRecovery(t.records[j], settings) ==> !CanAttemptRecovery(n.records[j], settings);
  }

  lemma NextKeepsInv(s: Session, e: Event, settings: Settings, k: nat, mutation: bool)
    requires Inv(s, k, mutation, settings) && !e.BeforeAgentStart? && !e.AgentEnd?
    ensures var n := Next(s, e, settings);
      && Inv(n, k, mutation, settings)
      && (s.records[k].recoveryAttempted ==>
            n.records[k].recoveryAttempted && n.records[k].failureClass == s.records[k].failureClass)
  {
    if e.ExecutionEnds? {
      if e.index < |s.running| {
        EndKeepsInv(s, e.index, e.ending, settings, k, mutation);
      }
    }
  }

  lemma {:induction false} RequestKeepsInv(s: Session, mutation: bool, events: seq<Event>, settings: Settings)
    requires WellFormed(s) && (mutation || NoLeftover(s, settings)) && Inside(events)
    ensures Inv(Run(Next(s, BeforeAgentStart(mutation), settings), events, settings), |s.records|, mutation, settings)
  {
    if events != [] {
      RequestKeepsInv(s, mutation, events[..|events| - 1], settings);
      NextKeepsInv(Run(Next(s, BeforeAgentStart(mutation), settings), events[..|events| - 1], settings),
                   events[|events| - 1], settings, |s.records|, mutation);
    }
  }

  /** In every run of a request, with any number of overlapping executions: at most one recovery
      message is delivered, none for a mutation prompt, the attempt flag and the failure class go
      together, and the attempt count is the number of executions started. */
  lemma OneRecoveryPerRequest(s: Session, mutation: bool, events: seq<Event>, settings: Settings)
    requires WellFormed(s) && (mutation || NoLeftover(s, settings)) && Inside(events)
    ensures var t := Run(Next(s, BeforeAgentStart(mutation), settings), events, settings);
      && |s.records| < |t.records|
      && t.delivered <= 1
      && (mutation ==> t.delivered == 0 && t.pending.None?)
      && (t.records[|s.records|].recoveryAttempted <==> t.records[|s.records|].failureClass.Some?)
      && t.records[|s.records|].codeExecutionAttempts == t.started
  {
    RequestKeepsInv(s, mutation, events, settings);
  }

  /** Once a recovery was attempted, the flag and its class never change again within the request. */
  lemma {:induction false} AttemptNeverResets(s: Session, mutation: bool, before: seq<Event>, after: seq<Event>,
                                              settings: Settings)
    requires WellFormed(s) && (mutation || NoLeftover(s, settings)) && Inside(before) && Inside(after)
    ensures var begin := Next(s, BeforeAgentStart(mutation), settings);
      var mid, end := Run(begin, before, settings), Run(begin, before + after, settings);
      && |s.records| < |mid.records| && |s.records| < |end.records|
      && (mid.records[|s.records|].recoveryAttempted ==>
            end.records[|s.records|].recoveryAttempted
            && end.records[|s.records|].failureClass == mid.records[|s.records|].failureClass)
  {
    var begin := Next(s, BeforeAgentStart(mutation), settings);
    RequestKeepsInv(s, mutation, before, settings);
    if after == [] {
      assert before + after == before;
    } else {
      var front := after[..|after| - 1];
      assert (before + after)[..|before + after| - 1] == before + front;
      hide Next, Inv;
      AttemptNeverResets(s, mutation, before, front, settings);
      RequestKeepsInv(s, mutation, before + front, settings);
      NextKeepsInv(Run(begin, before + front, settings), after[|after| - 1], settings, |s.records|, mutation);
    }
  }

  /** And the one recovery does happen: the first recognized failure of the request's own execution is
      delivered at the next context event, if recovery is on and the prompt was no mutation. */
  lemma FirstFailureIsDelivered(s: Session, k: nat, settings: Settings, index: nat, failure: FailureClass)
    requires Inv(s, k, false, settings) && index < |s.running| && s.running[index] == k
      && CanAttemptRecovery(s.records[k], settings)
    ensures var n := Next(Next(s, ExecutionEnds(index, PythonError(Some(failure))), settings), Context, settings);
      n.delivered == s.delivered + 1 == 1 && k < |n.records| && n.records[k].failureClass == Some(failure)
  {
  }

  // ---- the proviso is exact ----

  function RunFrom(s: Session, events: seq<Event>, settings: Settings): Session
    decreases |events|
  {
    if events == [] then s else RunFrom(Next(s, events[0], settings), events[1..], settings)
  }

  lemma {:induction false} RunIsRunFrom(s: Session, events: seq<Event>, settings: Settings)
    ensures Run(s, events, settings) == RunFrom(s, events, settings)
    decreases |events|
  {
    hide Next;
    if |events| == 1 {
      assert events[..0] == [] && events[1..] == [];
    } else if |events| > 1 {
      RunIsRunFrom(s, events[..|events| - 1], settings);
      RunIsRunFrom(Next(s, events[0], settings), events[1..], settings);
      RunIsRunFrom(Next(s, events[0], settings), events[1..][..|events| - 2], settings);
      assert events[1..][..|events| - 2] == events[..|events| - 1][1..];
    }
  }

  /** A leftover execution that fails recognizably, delivered, and then the request's own recovery. */
  function TwoRecoveries(s: Session, i: nat): seq<Event>
    requires i < |s.running|
  {
    var failed := PythonError(Some(MissingAwait));
    [ExecutionEnds(i, failed), Context, ExecutionStarts, ExecutionEnds(|s.running| - 1, failed), Context]
  }

  lemma LeftoverDeliversTwice(s: Session, i: nat, settings: Settings)
    requires WellFormed(s) && i < |s.running| && CanAttemptRecovery(s.records[s.running[i]], settings)
    ensures Inside(TwoRecoveries(s, i))
    ensures Run(Next(s, BeforeAgentStart(false), settings), TwoRecoveries(s, i), settings).delivered == 2
  {
    var e := TwoRecoveries(s, i);
    var s0 := Next(s, BeforeAgentStart(false), settings);
    RunIsRunFrom(s0, e, settings);
    var s1 := Next(s0, e[0], settings);
    assert s1.pending.Some? && |s1.running| == |s.running| - 1;
    var s2 := Next(s1, e[1], settings);
    assert s2.delivered == 1 && s2.pending.None? && s2.records[|s.records|] == FRESH;
    var s3 := Next(s2, e[2], settings);
    assert s3.running[|s.running| - 1] == |s.records|;
    var s4 := Next(s3, e[3], settings);
    assert s4.pending.Some? && s4.delivered == 1;
    var s5 := Next(s4, e[4], settings);
    assert e[1..][1..] == e[2..] && e[2..][1..] == e[3..] && e[3..][1..] == e[4..] && e[4..][1..] == [];
    assert RunFrom(s4, e[4..], settings) == s5;
    assert RunFrom(s3, e[3..], settings) == s5;
    assert RunFrom(s2, e[2..], settings) == s5;
    assert RunFrom(s1, e[1..], settings) == s5;
  }

  lemma {:induction false} RunConcat(s: Session, a: seq<Event>, b: seq<Event>, settings: Settings)
    ensures Run(s, a + b, settings) == Run(Run(s, a, settings), b, settings)
  {
    hide Next;
    if b == [] {
      assert a + b == a;
    } else {
      RunConcat(s, a, b[..|b| - 1], settings);
      assert (a + b)[..|a + b| - 1] == a + b[..|b| - 1];
    }
  }

  /** Such a session is reached: an execution outlives its request, and the next request gets two messages. */
  lemma TwoMessagesFromIdle()
    ensures var failed := PythonError(Some(MissingAwait));
      var events := [BeforeAgentStart(false), ExecutionStarts, AgentEnd, BeforeAgentStart(false)]
        + [ExecutionEnds(0, failed), Context, ExecutionStarts, ExecutionEnds(0, failed), Context];
      Run(IDLE, events, Settings(true, None)).delivered == 2
  {
    var settings := Settings(true, None);
    var first := [BeforeAgentStart(false), ExecutionStarts, AgentEnd];
    var left := Run(IDLE, first, settings);
    LeftoverSession();
    assert left.running[0] == 0 && CanAttemptRecovery(left.records[0], settings);
    LeftoverDeliversTwice(left, 0, settings);
    var begin := [BeforeAgentStart(false)];
    assert begin[..0] == [] && Run(left, begin, settings) == Next(left, begin[0], settings);
    hide Next;
    RunConcat(IDLE, first, begin, settings);
    RunConcat(IDLE, first + begin, TwoRecoveries(left, 0), settings);
    assert first + begin == [BeforeAgentStart(false), ExecutionStarts, AgentEnd, BeforeAgentStart(false)];
  }

  lemma LeftoverSession()
    ensures Run(IDLE, [BeforeAgentStart(false), ExecutionStarts, AgentEnd], Settings(true, None))
         == Session([NoteAttempt(FRESH)], None, [0], None, true, 0, 1)
  {
    var settings := Settings(true, None);
    var e := [BeforeAgentStart(false), ExecutionStarts, AgentEnd];
    RunIsRunFrom(IDLE, e, settings);
    assert e[1..][1..] == e[2..] && e[2..][1..] == [];
    var s1 := Next(IDLE, e[0], settings);
    var s2 := Next(s1, e[1], settings);
    assert s2.records == [NoteAttempt(FRESH)];
  }

  /** At most one message in every run of a request, exactly when it is a mutation request or no
      execution left over from an earlier one can still arm a recovery. */
  lemma OneRecoveryIff(s: Session, mutation: bool, settings: Settings)
    requires WellFormed(s)
    ensures (forall events :: Inside(events) ==>
              Run(Next(s, BeforeAgentStart(mutation), settings), events, settings).delivered <= 1)
       <==> mutation || NoLeftover(s, settings)
  {
    if mutation || NoLeftover(s, settings) {
      forall events | Inside(events)
        ensures Run(Next(s, BeforeAgentStart(mutation), settings), events, settings).delivered <= 1
      {
        OneRecoveryPerRequest(s, mutation, events, settings);
      }
    } else {
      var i: nat :| i < |s.running| && CanAttemptRecovery(s.records[s.running[i]], settings);
      LeftoverDeliversTwice(s, i, settings);
    }
  }

  /** An execution that outlives even its mutation request meets a session that allows recovery again:
      its failure is delivered after the request has ended. */
  lemma OutlivingMutationIsRecovered(failure: FailureClass)
    ensures var events := [BeforeAgentStart(true), ExecutionStarts, AgentEnd,
      ExecutionEnds(0, PythonError(Some(failure))), Context];
      Run(IDLE, events, Settings(true, None)).delivered == 1
  {
    var settings := Settings(true, None);
    var e := [BeforeAgentStart(true), ExecutionStarts, AgentEnd, ExecutionEnds(0, PythonError(Some(failure))), Context];
    RunIsRunFrom(IDLE, e, settings);
    var s3 := Next(Next(Next(IDLE, e[0], settings), e[1], settings), e[2], settings);
    var s4 := Next(s3, e[3], settings);
    assert s4.pending == Some(failure);
    assert e[1..][1..] == e[2..] && e[2..][1..] == e[3..] && e[3..][1..] == e[4..] && e[4..][1..] == [];
    assert RunFrom(s4, e[4..], settings).delivered == 1;
    assert RunFrom(s3, e[3..], settings).delivered == 1;
    assert RunFrom(Next(Next(IDLE, e[0], settings), e[1], settings), e[2..], settings).delivered == 1;
    assert RunFrom(Next(IDLE, e[0], settings), e[1..], settings).delivered == 1;
  }

  // ---- when recovery is switched off ----

  predicate RecoveryIsOn(settings: Settings) {
    settings.autoRecover && (settings.autoRecoverMaxAttempts.Some? ==> settings.autoRecoverMaxAttempts.value > 0)
  }

  lemma {:induction false} OffMeansNone(events: seq<Event>, settings: Settings)
    requires !RecoveryIsOn(settings)
    ensures Run(IDLE, events, settings).delivered == 0 && Run(IDLE, events, settings).pending.None?
  {
    if events != [] {
      OffMeansNone(events[..|events| - 1], settings);
    }
  }

  /** No run ever delivers a message if and only if recovery is switched off, or allows no attempt. */
  lemma NoRecoveryIff(settings: Settings)
    ensures (forall events :: Run(IDLE, events, settings).delivered == 0) <==> !RecoveryIsOn(settings)
  {
    if RecoveryIsOn(settings) {
      OneFailureIsDelivered(settings);
      assert Run(IDLE, OneFailure(), settings).delivered == 1;
    } else {
      forall events
        ensures Run(IDLE, events, settings).delivered == 0
      {
        OffMeansNone(events, settings);
      }
    }
  }

  /** A request with one execution that fails recognizably. */
  function OneFailure(): seq<Event> {
    [BeforeAgentStart(false), ExecutionStarts, ExecutionEnds(0, PythonError(Some(MissingAwait))), Context]
  }

  lemma OneFailureIsDelivered(settings: Settings)
    requires RecoveryIsOn(settings)
    ensures Run(IDLE, OneFailure(), settings).delivered == 1
  {
    var e := OneFailure();
    RunIsRunFrom(IDLE, e, settings);
    assert e[1..][1..] == e[2..] && e[2..][1..] == e[3..] && e[3..][1..] == [];
    var s1 := Next(IDLE, e[0], settings);
    var s2 := Next(s1, e[1], settings);
    assert s2.records == [NoteAttempt(FRESH)] && s2.running == [0];
    var s3 := Next(s2, e[2], settings);
    assert s3.pending == Some(MissingAwait);
    var s4 := Next(s3, e[3], settings);
    assert RunFrom(s3, e[3..], settings) == s4;
    assert RunFrom(s2, e[2..], settings) == s4;
    assert RunFrom(s1, e[1..], settings) == s4;
  }

  // ---- what records say ----

  /** A record tells whether its request used code execution, and its last word fits its recovery. */
  predicate RecordFits(r: Record) {
    && (r.codeExecutionAttempts > 0 <==> r.routedToCodeExecution)
    && r.firstToolPath == (if r.codeExecutionAttempts > 0 then Some(CodeExecutionPath) else None)
    && (r.recoveryAttempted <==> r.failureClass.Some?)
    && (r.recoveryAttempted ==> r.codeExecutionAttempts > 0)
    && (r.terminalState == Some(FailedAfterRecovery) ==> r.recoveryAttempted)
    && (r.terminalState.Some? ==> r.codeExecutionAttempts > 0)
  }

  ghost predicate RecordsFit(s: Session) {
    && WellFormed(s) && (s.current.Some? ==> s.current.value < |s.records|)
    && (forall k :: 0 <= k < |s.records| ==> RecordFits(s.records[k]))
    && (forall i :: 0 <= i < |s.running| && s.running[i] < |s.records| ==>
          s.records[s.running[i]].codeExecutionAttempts > 0)
  }

  lemma EndKeepsRecords(s: Session, index: nat, ending: Ending, settings: Settings)
    requires RecordsFit(s) && index < |s.running|
    ensures RecordsFit(Next(s, ExecutionEnds(index, ending), settings))
  {
    var t := s.(running := s.running[..index] + s.running[index + 1..]);
    var j := s.running[index];
    var n := Ends(t, j, ending, settings);
    assert forall i :: 0 <= i < |t.running| ==> t.running[i] in s.running;
    assert RecordFits(s.records[j]) && s.records[j].codeExecutionAttempts > 0;
    assert RecordFits(n.records[j]) && n.records[j].codeExecutionAttempts == s.records[j].codeExecutionAttempts;
    assert forall k :: 0 <= k < |s.records| && k != j ==> n.records[k] == s.records[k];
    hide RecordFits, Ends;
  }

  lemma NextKeepsRecords(s: Session, e: Event, settings: Settings)
    requires RecordsFit(s)
    ensures RecordsFit(Next(s, e, settings))
  {
    if e.ExecutionEnds? && e.index < |s.running| {
      EndKeepsRecords(s, e.index, e.ending, settings);
    }
  }

  /** So it is for every record in every run. */
  lemma {:induction false} RunsKeepRecords(events: seq<Event>, settings: Settings)
    ensures RecordsFit(Run(IDLE, events, settings))
  {
    if events != [] {
      hide Next, RecordFits, WellFormed;
      RunsKeepRecords(events[..|events| - 1], settings);
      NextKeepsRecords(Run(IDLE, events[..|events| - 1], settings), events[|events| - 1], settings);
    } else {
      assert WellFormed(IDLE);
    }
  }

  /** The end of an execution gives its record the last word: success, or a failure, after a recovery exactly
      if one has been attempted by then. */
  lemma LastWord(s: Session, index: nat, ending: Ending, settings: Settings)
    requires WellFormed(s) && index < |s.running|
    ensures var k, n := s.running[index], Next(s, ExecutionEnds(index, ending), settings);
      && k < |n.records|
      && n.records[k].terminalState == Some(
           if ending.Succeeded? then Success
           else if n.records[k].recoveryAttempted then FailedAfterRecovery else FailedWithoutRecovery)
      && n.running == s.running[..index] + s.running[index + 1..]
  {
  }

  // ---- after the request ----

  /** What can still happen once a request is over, apart from new executions and new requests. */
  predicate Outlasting(events: seq<Event>) {
    forall i :: 0 <= i < |events| ==> events[i].ExecutionEnds? || events[i].Context? || events[i].AgentEnd?
  }

  /** Nothing is pending, and no execution under way can arm a recovery. */
  predicate Settled(s: Session, settings: Settings) {
    WellFormed(s) && s.pending.None? && NoLeftover(s, settings)
  }

  lemma EndStaysSettled(s: Session, index: nat, ending: Ending, settings: Settings)
    requires Settled(s, settings) && index < |s.running|
    ensures var n := Next(s, ExecutionEnds(index, ending), settings);
      Settled(n, settings) && n.delivered == s.delivered
  {
    var t := s.(running := s.running[..index] + s.running[index + 1..]);
    var j := s.running[index];
    assert forall i :: 0 <= i < |t.running| ==> t.running[i] in s.running;
    assert NoLeftover(t, settings);
    assert Next(s, ExecutionEnds(index, ending), settings) == Ends(t, j, ending, settings);
  }

  lemma {:induction false} StaysSettled(s: Session, events: seq<Event>, settings: Settings)
    requires Settled(s, settings) && Outlasting(events)
    ensures Settled(Run(s, events, settings), settings) && Run(s, events, settings).delivered == s.delivered
  {
    hide Settled;
    if events != [] {
      var before, e := Run(s, events[..|events| - 1], settings), events[|events| - 1];
      StaysSettled(s, events[..|events| - 1], settings);
      StepStaysSettled(before, e, settings);
    }
  }

  lemma StepStaysSettled(s: Session, e: Event, settings: Settings)
    requires Settled(s, settings) && (e.ExecutionEnds? || e.Context? || e.AgentEnd?)
    ensures Settled(Next(s, e, settings), settings) && Next(s, e, settings).delivered == s.delivered
  {
    if e.ExecutionEnds? && e.index < |s.running| {
      EndStaysSettled(s, e.index, e.ending, settings);
    }
  }

  /** A leftover execution fails recognizably, and its message is delivered although nobody asked. */
  function LateRecovery(i: nat): seq<Event> {
    [ExecutionEnds(i, PythonError(Some(MissingAwait))), Context]
  }

  lemma LeftoverDeliversLate(s: Session, i: nat, settings: Settings)
    requires WellFormed(s) && i < |s.running| && CanAttemptRecovery(s.records[s.running[i]], settings)
    ensures Outlasting(LateRecovery(i))
    ensures Run(Next(s, AgentEnd, settings), LateRecovery(i), settings).delivered == s.delivered + 1
  {
    var e, s0 := LateRecovery(i), Next(s, AgentEnd, settings);
    assert e[..1] == [e[0]] && [e[0]][..0] == [];
    assert Run(s0, [e[0]], settings) == Next(s0, e[0], settings);
    assert Next(s0, e[0], settings).pending.Some?;
  }

  /** Once a request has ended, no message is delivered by whatever of it is still under way, in any run,
      if and only if none of the executions under way can still arm a recovery. */
  lemma EndedRequestIsQuietIff(s: Session, settings: Settings)
    requires WellFormed(s)
    ensures (forall events :: Outlasting(events) ==>
              Run(Next(s, AgentEnd, settings), events, settings).delivered == s.delivered)
       <==> NoLeftover(s, settings)
  {
    if NoLeftover(s, settings) {
      forall events | Outlasting(events)
        ensures Run(Next(s, AgentEnd, settings), events, settings).delivered == s.delivered
      {
        StaysSettled(Next(s, AgentEnd, settings), events, settings);
      }
    } else {
      var i: nat :| i < |s.running| && CanAttemptRecovery(s.records[s.running[i]], settings);
      LeftoverDeliversLate(s, i, settings);
    }
  }

  /** So a mutation request gets no message, neither before nor after its end, in any run, if and only if
      none of the executions under way at its end can still arm a recovery. */
  lemma MutationIsNeverRecoveredIff(s: Session, events: seq<Event>, settings: Settings)
    requires WellFormed(s) && Inside(events)
    ensures var ending := Run(Next(s, BeforeAgentStart(true), settings), events, settings);
      && ending.delivered == 0
      && ((forall after :: Outlasting(after) ==> Run(Next(ending, AgentEnd, settings), after, settings).delivered == 0)
          <==> NoLeftover(ending, settings))
  {
    OneRecoveryPerRequest(s, true, events, settings);
    RequestKeepsInv(s, true, events, settings);
    EndedRequestIsQuietIff(Run(Next(s, BeforeAgentStart(true), settings), events, settings), settings);
  }

  // ---- the session as an object ----

  class RecoveryState {
    var autoRouted: bool
    var firstToolPath: Option<ToolPath>
    var routedToCodeExecution: bool
    var codeExecutionAttempts: nat
    var recoveryAttempted: bool
    var failureClass: Option<FailureClass>
    var terminalState: Option<Terminal>

    ghost function View(): Record
      reads this
    {
      Record(autoRouted, firstToolPath, routedToCodeExecution, codeExecutionAttempts, recoveryAttempted,
        failureClass, terminalState)
    }

    constructor ()
      ensures View() == FRESH
    {
      autoRouted, firstToolPath, routedToCodeExecution, codeExecutionAttempts := false, None, false, 0;
      recoveryAttempted, failureClass, terminalState := false, None, None;
    }

    method NoteCodeExecutionAttempt()
      modifies this
      ensures View() == NoteAttempt(old(View()))
    {
      routedToCodeExecution := true;
      if firstToolPath.None? {
        firstToolPath := Some(CodeExecutionPath);
      }
      codeExecutionAttempts := codeExecutionAttempts + 1;
    }

    method ArmAutomaticRecovery(settings: Settings, failure: FailureClass) returns (armed: bool)
      modifies this
      ensures armed == CanAttemptRecovery(old(View()), settings)
      ensures View() == if armed then old(View()).(recoveryAttempted := true, failureClass := Some(failure))
        else old(View())
    {
      if !CanAttemptRecovery(
           Record(autoRouted, firstToolPath, routedToCodeExecution, codeExecutionAttempts, recoveryAttempted,
             failureClass, terminalState),
           settings) {
        return false;
      }
      recoveryAttempted := true;
      failureClass := Some(failure);
      return true;
    }

    method NoteCodeExecutionFailure()
      modifies this
      ensures View() == NoteFailure(old(View()))
    {
      terminalState := Some(if recoveryAttempted then FailedAfterRecovery else FailedWithoutRecovery);
    }

    method NoteCodeExecutionSuccess()
      modifies this
      ensures View() == old(View()).(terminalState := Some(Success))
    {
      terminalState := Some(Success);
    }
  }

  class PtcSession {
    var pendingRecovery: Option<FailureClass>
    var recoveryAllowed: bool
    var recoveryState: RecoveryState?

    constructor ()
      ensures pendingRecovery.None? && recoveryAllowed && recoveryState == null
    {
      pendingRecovery, recoveryAllowed, recoveryState := None, true, null;
    }

    method HandleBeforeAgentStart(mutation: bool)
      modifies this
      ensures pendingRecovery.None? && recoveryAllowed == !mutation
      ensures recoveryState != null && fresh(recoveryState) && recoveryState.View() == FRESH
    {
      pendingRecovery, recoveryAllowed := None, !mutation;
      recoveryState := new RecoveryState();
    }

    /** The start of an execution: it keeps the record that is current now. */
    method ExecutionStarted() returns (state: RecoveryState)
      modifies this, recoveryState
      ensures state == recoveryState && (old(recoveryState) != null ==> state == old(recoveryState))
      ensures old(recoveryState) == null ==> fresh(state) && state.View() == NoteAttempt(FRESH)
      ensures old(recoveryState) != null ==> state.View() == NoteAttempt(old(recoveryState.View()))
      ensures pendingRecovery == old(pendingRecovery) && recoveryAllowed == old(recoveryAllowed)
    {
      if recoveryState == null {
        recoveryState := new RecoveryState();
      }
      state := recoveryState;
      state.NoteCodeExecutionAttempt();
    }

    method HandleContext() returns (message: Option<FailureClass>)
      modifies this
      ensures message == old(pendingRecovery) && pendingRecovery.None?
      ensures recoveryAllowed == old(recoveryAllowed) && recoveryState == old(recoveryState)
    {
      message := pendingRecovery;
      pendingRecovery := None;
    }

    method HandleAgentEnd()
      modifies this
      ensures pendingRecovery.None? && recoveryAllowed && recoveryState == null
    {
      pendingRecovery, recoveryAllowed, recoveryState := None, true, null;
    }

    /** The end of an execution of `code_execution`, with the recovery state it took when it started:
        the object's fields change as `Ends` changes the session's record. */
    method ExecutionEnded(state: RecoveryState, ending: Ending, settings: Settings)
      modifies this, state
      ensures recoveryAllowed == old(recoveryAllowed) && recoveryState == old(recoveryState)
      ensures forall s: Session, k: nat ::
        k < |s.records| && s.records[k] == old(state.View()) && s.allowed == recoveryAllowed
          && s.pending == old(pendingRecovery) ==>
          var n := Ends(s, k, ending, settings);
          n.records == s.records[k := state.View()] && n.pending == pendingRecovery && n.allowed == recoveryAllowed
    {
      match ending {
        case Succeeded =>
          state.NoteCodeExecutionSuccess();
        case PythonError(failureClass) =>
          if recoveryAllowed && failureClass.Some? {
            var armed := state.ArmAutomaticRecovery(settings, failureClass.value);
            if armed {
              pendingRecovery := failureClass;
            }
          }
          state.NoteCodeExecutionFailure();
        case OtherError =>
          state.NoteCodeExecutionFailure();
      }
    }
  }
}
