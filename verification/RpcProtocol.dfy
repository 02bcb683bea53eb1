/** Node's end of the RPC bridge. `RpcProtocol` reads frames from the Python process, starts every
    `tool_call` without waiting for the previous one, and settles one completion promise. */
module RpcProtocol {
  import opened Wrappers
  import opened Json
  import opened JsText
  import opened RpcClient
  import Stdout

  // =====================================================================
  // Nested tool calls
  // =====================================================================

  /** How a tool run ends. A returned value may fail to serialize when the reply is written. */
  datatype Finish =
    | Returned(value: Json, estimatedChars: nat, serializable: bool)
    | Threw(error: Json)

  const SERIALIZE_ERROR := Str("serialize")

  /** A call's handler: waiting for its tool, answered on the wire, or finished with stdin gone. */
  datatype Handler = InFlight | Answered(reply: Response) | Unsent

  datatype Tools = Tools(
    received: seq<Request>,
    handlers: seq<Handler>,
    replies: seq<Response>,
    owners: seq<nat>,            // which handler wrote each reply
    nestedToolCalls: nat,
    nestedToolNames: seq<string>,
    nestedResultChars: nat,
    nestedResultCount: nat,
    nestedErrors: nat,
    failedSends: nat,            // replies that threw while being serialized
    stdinOpen: bool)

  const NO_CALLS := Tools([], [], [], [], 0, [], 0, 0, 0, 0, true)

  function ValueReply(id: string, value: Json): Response {
    Response(Some(id), NoError, value)
  }

  function ErrorReply(id: string, error: Json): Response {
    Response(Some(id), ErrorObject(error), Null)
  }

  function ReceiveCall(t: Tools, request: Request): Tools {
    t.(received := t.received + [request], handlers := t.handlers + [InFlight],
       nestedToolCalls := t.nestedToolCalls + 1, nestedToolNames := t.nestedToolNames + [request.spec.tool])
  }

  /** `send`: nothing is written, or serialized, once stdin is destroyed. */
  function Send(t: Tools, j: nat, reply: Response): Tools
    requires j < |t.handlers|
  {
    if t.stdinOpen
    then t.(handlers := t.handlers[j := Answered(reply)], replies := t.replies + [reply], owners := t.owners + [j])
    else t.(handlers := t.handlers[j := Unsent])
  }

  function FinishCall(t: Tools, j: nat, finish: Finish): Tools
    requires j < |t.handlers| && |t.received| == |t.handlers|
  {
    var id := t.received[j].id;
    match finish
    case Returned(value, chars, serializable) =>
      var counted := t.(nestedResultCount := t.nestedResultCount + 1, nestedResultChars := t.nestedResultChars + chars);
      if t.stdinOpen && !serializable
      then Send(counted.(nestedErrors := counted.nestedErrors + 1, failedSends := counted.failedSends + 1),
                j, ErrorReply(id, SERIALIZE_ERROR))
      else Send(counted, j, ValueReply(id, value))
    case Threw(error) =>
      Send(t.(nestedErrors := t.nestedErrors + 1), j, ErrorReply(id, error))
  }

  function InFlightCount(handlers: seq<Handler>): nat {
    if handlers == [] then 0
    else InFlightCount(handlers[..|handlers| - 1]) + (if handlers[|handlers| - 1].InFlight? then 1 else 0)
  }

  predicate CountersInv(t: Tools) {
    && t.nestedToolCalls == |t.received| == |t.handlers| == |t.nestedToolNames|
    && (forall j :: 0 <= j < |t.received| ==> t.nestedToolNames[j] == t.received[j].spec.tool)
    && t.nestedResultCount + t.nestedErrors + InFlightCount(t.handlers) == t.nestedToolCalls + t.failedSends
  }

  /** Each reply is what its owner answered, and each answer has one reply. */
  ghost predicate RepliesInv(t: Tools) {
    && |t.owners| == |t.replies| && |t.handlers| == |t.received|
    && (forall i :: 0 <= i < |t.owners| ==>
          && t.owners[i] < |t.handlers|
          && t.handlers[t.owners[i]] == Answered(t.replies[i])
          && t.replies[i].id == Some(t.received[t.owners[i]].id))
    && (forall i, j :: 0 <= i < j < |t.owners| ==> t.owners[i] != t.owners[j])
    && (forall j :: 0 <= j < |t.handlers| && t.handlers[j].Answered? ==> j in t.owners)
    && (t.stdinOpen ==> forall j :: 0 <= j < |t.handlers| ==> !t.handlers[j].Unsent?)
  }

  ghost predicate ToolsInv(t: Tools) {
    CountersInv(t) && RepliesInv(t)
  }

  lemma {:induction false} InFlightAfter(handlers: seq<Handler>, j: nat, h: Handler)
    requires j < |handlers| && handlers[j].InFlight? && !h.InFlight?
    ensures InFlightCount(handlers[j := h]) == InFlightCount(handlers) - 1
  {
    var n := |handlers|;
    if j < n - 1 {
      InFlightAfter(handlers[..n - 1], j, h);
      assert handlers[j := h][..n - 1] == handlers[..n - 1][j := h];
    } else {
      assert handlers[j := h][..n - 1] == handlers[..n - 1];
    }
  }

  lemma ReceiveKeepsInv(t: Tools, request: Request)
    requires ToolsInv(t)
    ensures ToolsInv(ReceiveCall(t, request))
  {
    var n := ReceiveCall(t, request);
    assert n.handlers[..|t.handlers|] == t.handlers;
  }

  /** What finishing a call does to the handlers and the wire: one answer, or none once stdin is gone. */
  lemma FinishEffect(t: Tools, j: nat, finish: Finish)
    requires j < |t.handlers| && |t.received| == |t.handlers| && t.handlers[j].InFlight?
    ensures var n := FinishCall(t, j, finish);
      && n.received == t.received && n.nestedToolCalls == t.nestedToolCalls && n.nestedToolNames == t.nestedToolNames
      && n.stdinOpen == t.stdinOpen
      && n.nestedResultCount + n.nestedErrors + t.failedSends
        == t.nestedResultCount + t.nestedErrors + n.failedSends + 1
      && if t.stdinOpen
         then exists reply: Response ::
           && reply.id == Some(t.received[j].id) && n.handlers == t.handlers[j := Answered(reply)]
           && n.replies == t.replies + [reply] && n.owners == t.owners + [j]
         else n.handlers == t.handlers[j := Unsent] && n.replies == t.replies && n.owners == t.owners
  {
    if t.stdinOpen {
      var n := FinishCall(t, j, finish);
      var reply := n.handlers[j].reply;
      assert n.handlers == t.handlers[j := Answered(reply)];
    }
  }

  lemma FinishKeepsCounters(t: Tools, j: nat, finish: Finish)
    requires CountersInv(t) && j < |t.handlers| && t.handlers[j].InFlight?
    ensures CountersInv(FinishCall(t, j, finish))
  {
    FinishEffect(t, j, finish);
    hide FinishCall, InFlightCount;
    InFlightAfter(t.handlers, j, FinishCall(t, j, finish).handlers[j]);
  }

  lemma FinishKeepsInv(t: Tools, j: nat, finish: Finish)
    requires ToolsInv(t) && j < |t.handlers| && t.handlers[j].InFlight?
    ensures ToolsInv(FinishCall(t, j, finish))
    ensures |FinishCall(t, j, finish).handlers| == |t.handlers|
    ensures forall i :: 0 <= i < |t.handlers| && t.handlers[i].Answered? ==>
      FinishCall(t, j, finish).handlers[i] == t.handlers[i]
    ensures t.replies <= FinishCall(t, j, finish).replies && FinishCall(t, j, finish).received == t.received
  {
    FinishKeepsCounters(t, j, finish);
    FinishEffect(t, j, finish);
    hide FinishCall, CountersInv;
    assert j !in t.owners;
  }

  // ---- runs: calls arrive, tools settle in any order, stdin may go away ----

  datatype ToolEvent =
    | CallReceived(request: Request)
    | ToolFinished(handler: nat, finish: Finish)
    | StdinDestroyed

  /** Events that cannot happen (a handler settling twice) change nothing. */
  function ToolsNext(t: Tools, e: ToolEvent): Tools {
    match e
    case CallReceived(request) => ReceiveCall(t, request)
    case ToolFinished(j, finish) =>
      if j < |t.handlers| && |t.received| == |t.handlers| && t.handlers[j].InFlight? then FinishCall(t, j, finish)
        else t
    case StdinDestroyed => t.(stdinOpen := false)
  }

  function ToolsRun(events: seq<ToolEvent>): Tools {
    if events == [] then NO_CALLS else ToolsNext(ToolsRun(events[..|events| - 1]), events[|events| - 1])
  }

  lemma {:induction false} ToolsRunKeepsInv(events: seq<ToolEvent>)
    ensures ToolsInv(ToolsRun(events))
  {
    if events != [] {
      var t := ToolsRun(events[..|events| - 1]);
      ToolsRunKeepsInv(events[..|events| - 1]);
      match events[|events| - 1]
      case CallReceived(request) => ReceiveKeepsInv(t, request);
      case ToolFinished(j, finish) =>
        if j < |t.handlers| && t.handlers[j].InFlight? {
          FinishKeepsInv(t, j, finish);
        }
      case StdinDestroyed =>
    }
  }

  // ---- what the events alone say ----

  function Arrived(events: seq<ToolEvent>): nat {
    if events == [] then 0
    else Arrived(events[..|events| - 1]) + if events[|events| - 1].CallReceived? then 1 else 0
  }

  /** Call `j` has arrived and its tool has not ended yet. */
  predicate Open(events: seq<ToolEvent>, j: nat) {
    events != []
    && var front, e := events[..|events| - 1], events[|events| - 1];
       || (Open(front, j) && !(e.ToolFinished? && e.handler == j))
       || (e.CallReceived? && j == Arrived(front))
  }

  predicate StdinStaysOpen(events: seq<ToolEvent>) {
    StdinDestroyed !in events
  }

  /** The next event ends the tool run of an open call. */
  predicate Ends(front: seq<ToolEvent>, e: ToolEvent) {
    e.ToolFinished? && Open(front, e.handler)
  }

  /** How tool runs can end, as far as counting goes. */
  datatype Way = ByValue | ByError | Unserializable

  predicate EndsBy(front: seq<ToolEvent>, e: ToolEvent, way: Way) {
    Ends(front, e)
    && match way
       case ByValue => e.finish.Returned?
       case ByError => e.finish.Threw?
       case Unserializable => e.finish.Returned? && !e.finish.serializable && StdinStaysOpen(front)
  }

  /** The tool runs of the run that ended that way. */
  function EndedBy(events: seq<ToolEvent>, way: Way): nat {
    if events == [] then 0 else
    var front := events[..|events| - 1];
    EndedBy(front, way) + if EndsBy(front, events[|events| - 1], way) then 1 else 0
  }

  /** The estimated sizes of the values returned, all together. */
  function ReturnedChars(events: seq<ToolEvent>): nat {
    if events == [] then 0 else
    var front, e := events[..|events| - 1], events[|events| - 1];
    ReturnedChars(front) + if EndsBy(front, e, ByValue) then e.finish.estimatedChars else 0
  }

  /** The state agrees with the events about who is there, who is in flight and whether stdin is open. */
  ghost predicate Reflects(t: Tools, events: seq<ToolEvent>) {
    && |t.received| == |t.handlers| == Arrived(events)
    && (forall j: nat :: j < |t.handlers| && t.handlers[j].InFlight? <==> Open(events, j))
    && (t.stdinOpen <==> StdinStaysOpen(events))
  }

  lemma ReflectsStep(t: Tools, front: seq<ToolEvent>, e: ToolEvent)
    requires Reflects(t, front)
    ensures Reflects(ToolsNext(t, e), front + [e])
  {
    assert (front + [e])[..|front|] == front;
    hide Arrived, Open;
    assert Arrived(front + [e]) == Arrived(front) + if e.CallReceived? then 1 else 0 by {
      ArrivedSnoc(front, e);
    }
    forall j: nat
      ensures Open(front + [e], j) <==>
        (Open(front, j) && !(e.ToolFinished? && e.handler == j)) || (e.CallReceived? && j == Arrived(front))
    {
      OpenSnoc(front, e, j);
    }
  }

  lemma ArrivedSnoc(front: seq<ToolEvent>, e: ToolEvent)
    ensures Arrived(front + [e]) == Arrived(front) + if e.CallReceived? then 1 else 0
  {
    assert (front + [e])[..|front|] == front;
  }

  lemma OpenSnoc(front: seq<ToolEvent>, e: ToolEvent, j: nat)
    ensures Open(front + [e], j) <==>
      (Open(front, j) && !(e.ToolFinished? && e.handler == j)) || (e.CallReceived? && j == Arrived(front))
  {
    assert (front + [e])[..|front|] == front;
  }

  lemma {:induction false} RunReflects(events: seq<ToolEvent>)
    ensures Reflects(ToolsRun(events), events)
  {
    if events != [] {
      hide ToolsNext, Reflects;
      var front, e := events[..|events| - 1], events[|events| - 1];
      RunReflects(front);
      ReflectsStep(ToolsRun(front), front, e);
      assert events == front + [e];
    }
  }

  lemma CountStep(t: Tools, front: seq<ToolEvent>, e: ToolEvent)
    requires Reflects(t, front)
    ensures var n := ToolsNext(t, e);
      && n.nestedResultCount == t.nestedResultCount + (if EndsBy(front, e, ByValue) then 1 else 0)
      && n.nestedErrors == t.nestedErrors + (if EndsBy(front, e, ByError) then 1 else 0)
                           + (if EndsBy(front, e, Unserializable) then 1 else 0)
      && n.failedSends == t.failedSends + (if EndsBy(front, e, Unserializable) then 1 else 0)
      && n.nestedResultChars == t.nestedResultChars
                                + (if EndsBy(front, e, ByValue) then e.finish.estimatedChars else 0)
  {
    hide Arrived, Open;
  }

  /** The counters are what the events say, over every run: results are the runs that returned, errors those
      that threw and those that returned what did not serialize, and the sizes are those of the results. */
  lemma {:induction false} CountersAreTheEvents(events: seq<ToolEvent>)
    ensures var t := ToolsRun(events);
      && t.nestedToolCalls == Arrived(events)
      && t.nestedResultCount == EndedBy(events, ByValue)
      && t.nestedErrors == EndedBy(events, ByError) + EndedBy(events, Unserializable)
      && t.nestedResultChars == ReturnedChars(events)
      && t.failedSends == EndedBy(events, Unserializable)
  {
    hide ToolsNext, EndsBy, Reflects;
    RunReflects(events);
    assert |ToolsRun(events).received| == Arrived(events) by {
      RunCalls(events);
    }
    ToolsRunKeepsInv(events);
    if events != [] {
      var front := events[..|events| - 1];
      CountersAreTheEvents(front);
      RunReflects(front);
      CountStep(ToolsRun(front), front, events[|events| - 1]);
    }
  }

  lemma RunCalls(events: seq<ToolEvent>)
    ensures |ToolsRun(events).received| == Arrived(events)
  {
    RunReflects(events);
  }

  /** No run of a tool returned a value that failed to serialize. */
  predicate AllSerialize(events: seq<ToolEvent>) {
    forall i :: 0 <= i < |events| ==> !EndsBy(events[..i], events[i], Unserializable)
  }

  lemma {:induction false} AllSerializeIff(events: seq<ToolEvent>)
    ensures EndedBy(events, Unserializable) == 0 <==> AllSerialize(events)
  {
    hide EndsBy;
    if events != [] {
      var front := events[..|events| - 1];
      AllSerializeIff(front);
      assert forall i :: 0 <= i < |front| ==> front[..i] == events[..i] && front[i] == events[i];
    }
  }

  /** In every interleaving each call is counted and named once. Results, errors and calls in flight
      exceed the calls by the results that failed to serialize, so the counters add up exactly when the
      run has no such result. */
  lemma CountersAddUpIff(events: seq<ToolEvent>)
    ensures var t := ToolsRun(events);
      && t.nestedToolCalls == |t.nestedToolNames| == |t.received|
      && t.nestedResultCount + t.nestedErrors + InFlightCount(t.handlers)
        == t.nestedToolCalls + EndedBy(events, Unserializable)
      && (t.nestedToolCalls == t.nestedResultCount + t.nestedErrors + InFlightCount(t.handlers)
        <==> AllSerialize(events))
  {
    ToolsRunKeepsInv(events);
    CountersAreTheEvents(events);
    AllSerializeIff(events);
  }

  /** The reply a tool run is owed: its value, or an error with what it threw or why it did not serialize. */
  predicate Owed(reply: Response, finish: Finish) {
    match finish
    case Returned(value, _, serializable) =>
      if serializable then reply.error.NoError? && reply.value == value
      else reply.error == ErrorObject(SERIALIZE_ERROR)
    case Threw(error) => reply.error == ErrorObject(error)
  }

  lemma NextKeepsAnswers(t: Tools, e: ToolEvent, j: nat)
    requires j < |t.handlers| && !t.handlers[j].InFlight?
    ensures j < |ToolsNext(t, e).handlers| && ToolsNext(t, e).handlers[j] == t.handlers[j]
  {
  }

  lemma {:induction false} AnswerStays(events: seq<ToolEvent>, more: seq<ToolEvent>, j: nat)
    requires j < |ToolsRun(events).handlers| && !ToolsRun(events).handlers[j].InFlight?
    ensures j < |ToolsRun(events + more).handlers|
    ensures ToolsRun(events + more).handlers[j] == ToolsRun(events).handlers[j]
  {
    if more == [] {
      assert events + more == events;
    } else {
      AnswerStays(events, more[..|more| - 1], j);
      NextKeepsAnswers(ToolsRun(events + more[..|more| - 1]), more[|more| - 1], j);
      hide ToolsNext;
      assert (events + more)[..|events + more| - 1] == events + more[..|more| - 1];
    }
  }

  /** Whatever happens before and after, a tool run that ends while stdin is open is answered with what it is
      owed, and that stays its only answer. */
  lemma AnsweredWithItsOwn(before: seq<ToolEvent>, e: ToolEvent, after: seq<ToolEvent>)
    requires Ends(before, e) && StdinStaysOpen(before)
    ensures var t := ToolsRun(before + [e] + after);
      e.handler < |t.handlers| && t.handlers[e.handler].Answered? && Owed(t.handlers[e.handler].reply, e.finish)
  {
    RunReflects(before);
    assert (before + [e])[..|before|] == before;
    assert ToolsRun(before + [e]) == ToolsNext(ToolsRun(before), e);
    hide ToolsRun;
    AnswerStays(before + [e], after, e.handler);
  }

  /** One call whose result does not serialize is counted as a result and as an error. */
  lemma CountersDisagreeExample(request: Request, value: Json, chars: nat)
    ensures var t := ToolsRun([CallReceived(request), ToolFinished(0, Returned(value, chars, false))]);
      t.nestedToolCalls == 1 && t.nestedResultCount == 1 && t.nestedErrors == 1 && InFlightCount(t.handlers) == 0
  {
    var events := [CallReceived(request), ToolFinished(0, Returned(value, chars, false))];
    assert events[..1] == [events[0]] && [events[0]][..0] == [];
    assert ToolsRun([events[0]]) == ReceiveCall(NO_CALLS, request);
    assert ToolsRun(events) == FinishCall(ReceiveCall(NO_CALLS, request), 0, events[1].finish);
    assert |ToolsRun(events).handlers| == 1 && ToolsRun(events).handlers[..0] == [];
  }

  /** While stdin is open every finished call has exactly one `tool_result`, with its own id, and a
      call in flight has none. */
  lemma AnsweredExactlyOnce(events: seq<ToolEvent>, j: nat)
    requires ToolsRun(events).stdinOpen && j < |ToolsRun(events).handlers|
    ensures var t := ToolsRun(events);
      && |t.owners| == |t.replies| && |t.received| == |t.handlers|
      && (!t.handlers[j].InFlight? <==> j in t.owners)
      && (forall i :: 0 <= i < |t.replies| && t.owners[i] == j ==>
            t.replies[i].id == Some(t.received[j].id) && t.handlers[j] == Answered(t.replies[i]))
      && (forall i, i' :: 0 <= i < |t.replies| && 0 <= i' < |t.replies| && t.owners[i] == j == t.owners[i'] ==> i == i')
  {
    ToolsRunKeepsInv(events);
  }

  /** If the requests carry distinct ids, no two replies carry the same id. */
  lemma ReplyIdsAreDistinct(events: seq<ToolEvent>, i: nat, i': nat)
    requires var t := ToolsRun(events);
      i < i' < |t.replies| && forall a, b :: 0 <= a < b < |t.received| ==> t.received[a].id != t.received[b].id
    ensures ToolsRun(events).replies[i].id != ToolsRun(events).replies[i'].id
  {
    ToolsRunKeepsInv(events);
    var t := ToolsRun(events);
    assert t.owners[i] != t.owners[i'];
  }

  // =====================================================================
  // The completion latch
  // =====================================================================

  datatype Outcome =
    | Completed(output: string)
    | PythonFailed(message: string)
    | Malformed(detail: string)
    | UnexpectedClose(stderr: string)
    | Aborted
    | TransportFailed(message: string)
    | TimedOutWaiting

  /** A microtask that will call `rejectOnce`: for a line that threw, or for the closed stdout. */
  datatype Microtask = RejectLine(detail: string) | CheckClosed

  datatype Latch = Latch(
    completed: bool,
    microtasks: seq<Microtask>,
    stdoutClosed: bool,
    stderr: string,
    reported: Option<Outcome>)   // what waitForCompletion's race has settled to

  const OPEN := Latch(false, [], false, "", None)

  datatype LatchEvent =
    | CompleteFrame(output: string)
    | ErrorFrame(message: string)
    | BadLine(detail: string)
    | MicrotaskRuns
    | StdoutCloses
    | StderrData(text: string)
    | AbortSignal
    | ProcessError(message: string)
    | TimerFires

  /** `resolveOnce`/`rejectOnce`: only the first caller settles the promise, and only a promise
      settled before the timer reaches the caller of `waitForCompletion`. */
  function Settle(l: Latch, o: Outcome): Latch {
    if l.completed then l
    else l.(completed := true, reported := if l.reported.None? then Some(o) else l.reported)
  }

  function LatchNext(l: Latch, e: LatchEvent): Latch {
    match e
    // readline delivers no line after its close event
    case CompleteFrame(output) => if l.stdoutClosed then l else Settle(l, Completed(output))
    case ErrorFrame(message) => if l.stdoutClosed then l else Settle(l, PythonFailed(message))
    case BadLine(detail) => if l.stdoutClosed then l else l.(microtasks := l.microtasks + [RejectLine(detail)])
    case MicrotaskRuns =>
      if l.microtasks == [] then l else
      var rest := l.(microtasks := l.microtasks[1..]);
      (match l.microtasks[0]
       case RejectLine(detail) => Settle(rest, Malformed(detail))
       case CheckClosed => if l.completed then rest else Settle(rest, UnexpectedClose(l.stderr)))
    case StdoutCloses =>
      if l.stdoutClosed then l
      else if l.completed then l.(stdoutClosed := true)
      else l.(stdoutClosed := true, microtasks := l.microtasks + [CheckClosed])
    case StderrData(text) => l.(stderr := l.stderr + text)
    case AbortSignal => Settle(l, Aborted)
    case ProcessError(message) => Settle(l, TransportFailed(message))
    case TimerFires => l.(reported := if l.reported.None? then Some(TimedOutWaiting) else l.reported)
  }

  function LatchRun(events: seq<LatchEvent>): Latch {
    if events == [] then OPEN else LatchNext(LatchRun(events[..|events| - 1]), events[|events| - 1])
  }

  // ---- the reference: every attempt to settle, as if nothing remembered earlier ones ----

  /** The runtime without the latch: who would report what, in order. */
  datatype Attempts = Attempts(microtasks: seq<Microtask>, stdoutClosed: bool, stderr: string, made: seq<Outcome>)

  function Attempt(a: Attempts, o: Outcome): Attempts {
    a.(made := a.made + [o])
  }

  function AttemptsNext(a: Attempts, e: LatchEvent): Attempts {
    match e
    case CompleteFrame(output) => if a.stdoutClosed then a else Attempt(a, Completed(output))
    case ErrorFrame(message) => if a.stdoutClosed then a else Attempt(a, PythonFailed(message))
    case BadLine(detail) => if a.stdoutClosed then a else a.(microtasks := a.microtasks + [RejectLine(detail)])
    case MicrotaskRuns =>
      if a.microtasks == [] then a else
      var rest := a.(microtasks := a.microtasks[1..]);
      Attempt(rest, if a.microtasks[0].RejectLine? then Malformed(a.microtasks[0].detail)
        else UnexpectedClose(a.stderr))
    case StdoutCloses => if a.stdoutClosed then a
      else a.(stdoutClosed := true, microtasks := a.microtasks + [CheckClosed])
    case StderrData(text) => a.(stderr := a.stderr + text)
    case AbortSignal => Attempt(a, Aborted)
    case ProcessError(message) => Attempt(a, TransportFailed(message))
    case TimerFires => Attempt(a, TimedOutWaiting)
  }

  function AttemptsRun(events: seq<LatchEvent>): Attempts {
    if events == [] then Attempts([], false, "", [])
    else AttemptsNext(AttemptsRun(events[..|events| - 1]), events[|events| - 1])
  }

  /** An attempt other than the timer's, which does not touch the promise. */
  predicate SomeoneSettled(made: seq<Outcome>) {
    exists i :: 0 <= i < |made| && !made[i].TimedOutWaiting?
  }

  lemma SettledSnoc(made: seq<Outcome>, o: Outcome)
    ensures SomeoneSettled(made + [o]) <==> SomeoneSettled(made) || !o.TimedOutWaiting?
  {
    assert (made + [o])[|made|] == o && forall i :: 0 <= i < |made| ==> (made + [o])[i] == made[i];
  }

  /** The latch reports the first attempt made, and until there is one it does what is done without it. */
  predicate Simulates(l: Latch, a: Attempts) {
    && (l.reported.None? <==> a.made == [])
    && (l.reported.Some? ==> l.reported.value == a.made[0])
    && (!l.completed ==> l.microtasks == a.microtasks)
    && (l.completed ==> l.reported.Some?)
    && (l.completed <==> SomeoneSettled(a.made))
    && l.stdoutClosed == a.stdoutClosed && l.stderr == a.stderr
  }

  lemma SettlesLike(l: Latch, a: Attempts, o: Outcome)
    requires Simulates(l, a) && !o.TimedOutWaiting?
    ensures Simulates(Settle(l, o), Attempt(a, o))
  {
    SettledSnoc(a.made, o);
  }

  lemma StepSimulates(l: Latch, a: Attempts, e: LatchEvent)
    requires Simulates(l, a)
    ensures Simulates(LatchNext(l, e), AttemptsNext(a, e))
  {
    match e
    case CompleteFrame(output) => SettlesLike(l, a, Completed(output));
    case ErrorFrame(message) => SettlesLike(l, a, PythonFailed(message));
    case MicrotaskRuns =>
      if a.microtasks != [] {
        var task := a.microtasks[0];
        SettledSnoc(a.made, if task.RejectLine? then Malformed(task.detail) else UnexpectedClose(a.stderr));
      }
    case AbortSignal => SettlesLike(l, a, Aborted);
    case ProcessError(message) => SettlesLike(l, a, TransportFailed(message));
    case TimerFires => SettledSnoc(a.made, TimedOutWaiting);
    case _ =>
  }

  /** Each queued rejection, and each close check, runs once. */
  lemma MicrotasksRunOnce(l: Latch)
    requires l.microtasks != []
    ensures LatchNext(l, MicrotaskRuns).microtasks == l.microtasks[1..]
  {
  }

  /** The latch reports the first attempt of the unlatched run, and nothing before it is made. */
  lemma {:induction false} FirstAttemptIsReported(events: seq<LatchEvent>)
    ensures Simulates(LatchRun(events), AttemptsRun(events))
  {
    hide LatchNext, AttemptsNext;
    if events != [] {
      FirstAttemptIsReported(events[..|events| - 1]);
      StepSimulates(LatchRun(events[..|events| - 1]), AttemptsRun(events[..|events| - 1]), events[|events| - 1]);
    }
  }

  lemma StepOnlyAdds(a: Attempts, e: LatchEvent)
    ensures a.made <= AttemptsNext(a, e).made
  {
  }

  lemma {:induction false} AttemptsOnlyGrow(events: seq<LatchEvent>, more: seq<LatchEvent>)
    ensures AttemptsRun(events).made <= AttemptsRun(events + more).made
  {
    hide AttemptsNext;
    if more == [] {
      assert events + more == events;
    } else {
      AttemptsOnlyGrow(events, more[..|more| - 1]);
      StepOnlyAdds(AttemptsRun(events + more[..|more| - 1]), more[|more| - 1]);
      assert (events + more)[..|events + more| - 1] == events + more[..|more| - 1];
    }
  }

  /** What is reported is fixed by the first settling step of any run and never changes. */
  lemma ReportedOnce(events: seq<LatchEvent>, more: seq<LatchEvent>)
    requires LatchRun(events).reported.Some?
    ensures LatchRun(events + more).reported == LatchRun(events).reported
  {
    FirstAttemptIsReported(events);
    FirstAttemptIsReported(events + more);
    AttemptsOnlyGrow(events, more);
  }

  lemma NoCloseErrorYet(a: Attempts, e: LatchEvent)
    requires CheckClosed !in a.microtasks && forall i :: 0 <= i < |a.made| ==> !a.made[i].UnexpectedClose?
    requires !AttemptsNext(a, e).stdoutClosed
    ensures var n := AttemptsNext(a, e);
      CheckClosed !in n.microtasks && forall i :: 0 <= i < |n.made| ==> !n.made[i].UnexpectedClose?
  {
    assert e.MicrotaskRuns? && a.microtasks != [] ==> a.microtasks[0] in a.microtasks;
  }

  lemma {:induction false} NoCloseErrorBeforeClose(events: seq<LatchEvent>)
    requires !AttemptsRun(events).stdoutClosed
    ensures CheckClosed !in AttemptsRun(events).microtasks
    ensures forall i :: 0 <= i < |AttemptsRun(events).made| ==> !AttemptsRun(events).made[i].UnexpectedClose?
  {
    if events != [] {
      var before := AttemptsRun(events[..|events| - 1]);
      assert !before.stdoutClosed;
      NoCloseErrorBeforeClose(events[..|events| - 1]);
      NoCloseErrorYet(before, events[|events| - 1]);
    }
  }

  /** A terminal frame read before stdout closes always beats the unexpected-close error. */
  lemma TerminalFrameBeatsClose(before: seq<LatchEvent>, frame: LatchEvent, after: seq<LatchEvent>)
    requires frame.CompleteFrame? || frame.ErrorFrame?
    requires !LatchRun(before).stdoutClosed
    ensures LatchRun(before + [frame] + after).reported.Some?
    ensures !LatchRun(before + [frame] + after).reported.value.UnexpectedClose?
  {
    var events := before + [frame];
    assert events[..|events| - 1] == before;
    FirstAttemptIsReported(before);
    NoCloseErrorBeforeClose(before);
    FirstAttemptIsReported(events);
    ReportedOnce(events, after);
  }

  // =====================================================================
  // The protocol object
  // =====================================================================

  /** A decoded line from Python's stdout. */
  datatype Frame =
    | ToolCall(request: Request)
    | StdoutText(text: string)
    | Complete(output: string)
    | Error(message: string)
    | Notice               // update and progress frames, and a tool_result sent the wrong way
    | Unreadable(detail: string)

  class RpcProtocol {
    var completed: bool
    var microtasks: seq<Microtask>
    var stdoutClosed: bool
    var stderr: string
    var reported: Option<Outcome>
    var stdout: string
    var received: seq<Request>
    var handlers: seq<Handler>
    var replies: seq<Response>
    ghost var owners: seq<nat>
    ghost var failedSends: nat
    var nestedToolCalls: nat
    var nestedToolNames: seq<string>
    var nestedResultChars: nat
    var nestedResultCount: nat
    var nestedErrors: nat
    var stdinOpen: bool

    ghost function LatchView(): Latch
      reads this
    {
      Latch(completed, microtasks, stdoutClosed, stderr, reported)
    }

    ghost function ToolsView(): Tools
      reads this
    {
      Tools(received, handlers, replies, owners, nestedToolCalls, nestedToolNames, nestedResultChars,
            nestedResultCount, nestedErrors, failedSends, stdinOpen)
    }

    constructor ()
      ensures LatchView() == OPEN && ToolsView() == NO_CALLS && stdout == "" && ToolsInv(ToolsView())
    {
      completed, microtasks, stdoutClosed, stderr, reported, stdout := false, [], false, "", None, "";
      received, handlers, replies, owners, failedSends, stdinOpen := [], [], [], [], 0, true;
      nestedToolCalls, nestedToolNames, nestedResultChars, nestedResultCount, nestedErrors := 0, [], 0, 0, 0;
    }

    method ResolveOrRejectOnce(o: Outcome)
      modifies `completed, `reported
      ensures LatchView() == Settle(old(LatchView()), o)
    {
      if completed {
        return;
      }
      completed := true;
      if reported.None? {
        reported := Some(o);
      }
    }

    /** The `line` handler. The frame is already decoded; a line that does not decode makes the
        handler's promise reject, which is noticed one microtask later. */
    method HandleLine(frame: Frame)
      requires ToolsInv(ToolsView()) && !stdoutClosed
      modifies this
      ensures ToolsInv(ToolsView())
      ensures ToolsView() == if frame.ToolCall? then ReceiveCall(old(ToolsView()), frame.request) else old(ToolsView())
      ensures stdout == if frame.StdoutText? then old(stdout) + frame.text else old(stdout)
      ensures LatchView() == match frame
        case Complete(output) => LatchNext(old(LatchView()), CompleteFrame(Stdout.FinalOutput(old(stdout), output)))
        case Error(message) => LatchNext(old(LatchView()), ErrorFrame(message))
        case Unreadable(detail) => LatchNext(old(LatchView()), BadLine(detail))
        case _ => old(LatchView())
    {
      match frame {
        case ToolCall(request) =>
          ReceiveKeepsInv(ToolsView(), request);
          hide CountersInv, RepliesInv;
          nestedToolCalls := nestedToolCalls + 1;
          nestedToolNames := nestedToolNames + [request.spec.tool];
          received := received + [request];
          handlers := handlers + [InFlight];
        case StdoutText(text) =>
          if text != "" {
            stdout := if stdout != "" then stdout + text else text;
          }
        case Complete(output) =>
          var finalOutput := if stdout != "" then Trim(stdout + output) else output;
          ResolveOrRejectOnce(Completed(finalOutput));
        case Error(message) =>
          ResolveOrRejectOnce(PythonFailed(message));
        case Notice =>
        case Unreadable(detail) =>
          microtasks := microtasks + [RejectLine(detail)];
      }
    }

    method Write(j: nat, reply: Response)
      requires j < |handlers|
      modifies `handlers, `replies, `owners
      ensures ToolsView() == Send(old(ToolsView()), j, reply)
    {
      if stdinOpen {
        replies := replies + [reply];
        owners := owners + [j];
        handlers := handlers[j := Answered(reply)];
      } else {
        handlers := handlers[j := Unsent];
      }
    }

    /** `handleToolCall` after its tool has settled. A reply that fails to serialize is caught and
        answered like an error, although its result is already counted. */
    method ToolSettled(j: nat, finish: Finish)
      requires j < |handlers| && |received| == |handlers|
      modifies `handlers, `replies, `owners, `nestedErrors, `nestedResultCount, `nestedResultChars, `failedSends
      ensures ToolsView() == FinishCall(old(ToolsView()), j, finish)
    {
      hide Send;
      if finish.Threw? {
        AnswerWithError(j, finish.error);
        return;
      }
      nestedResultCount := nestedResultCount + 1;
      nestedResultChars := nestedResultChars + finish.estimatedChars;
      if stdinOpen && !finish.serializable {
        failedSends := failedSends + 1;
        AnswerWithError(j, SERIALIZE_ERROR);
      } else {
        Write(j, ValueReply(received[j].id, finish.value));
      }
    }

    /** The `catch` clause of `handleToolCall`. */
    method AnswerWithError(j: nat, error: Json)
      requires j < |handlers| && |received| == |handlers|
      modifies `handlers, `replies, `owners, `nestedErrors
      ensures var t := old(ToolsView());
        ToolsView() == Send(t.(nestedErrors := t.nestedErrors + 1), j, ErrorReply(t.received[j].id, error))
    {
      nestedErrors := nestedErrors + 1;
      Write(j, ErrorReply(received[j].id, error));
    }

    method RunMicrotask()
      requires microtasks != []
      modifies `completed, `reported, `microtasks
      ensures LatchView() == LatchNext(old(LatchView()), MicrotaskRuns)
    {
      var task := microtasks[0];
      microtasks := microtasks[1..];
      match task {
        case RejectLine(detail) =>
          ResolveOrRejectOnce(Malformed(detail));
        case CheckClosed =>
          if !completed {
            ResolveOrRejectOnce(UnexpectedClose(stderr));
          }
      }
    }

    method StdoutClosed()
      requires !stdoutClosed
      modifies `stdoutClosed, `microtasks
      ensures LatchView() == LatchNext(old(LatchView()), StdoutCloses)
    {
      stdoutClosed := true;
      if completed {
        return;
      }
      microtasks := microtasks + [CheckClosed];
    }

    method Abort()
      modifies `completed, `reported
      ensures LatchView() == LatchNext(old(LatchView()), AbortSignal)
    {
      ResolveOrRejectOnce(Aborted);
    }

    /** The process's `error` event. */
    method ProcessFailed(message: string)
      modifies `completed, `reported
      ensures LatchView() == LatchNext(old(LatchView()), ProcessError(message))
    {
      ResolveOrRejectOnce(TransportFailed(message));
    }

    method StderrReceived(text: string)
      modifies `stderr
      ensures LatchView() == LatchNext(old(LatchView()), StderrData(text))
    {
      stderr := stderr + text;
    }

    method WaitTimedOut()
      modifies `reported
      ensures LatchView() == LatchNext(old(LatchView()), TimerFires)
    {
      if reported.None? {
        reported := Some(TimedOutWaiting);
      }
    }
  }
}
