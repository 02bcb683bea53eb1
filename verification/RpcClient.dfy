/** Python's end of the RPC bridge. `RpcClient` numbers calls, writes them, parks a future for each in
    `pending_calls`, and settles futures from replies, timers and a failing reader. Futures are
    numbered by their call, so `pending_calls` maps an id to a call number. */
module RpcClient {
  import opened Wrappers
  import opened Decimal
  import opened Json

  datatype CallSpec = CallSpec(tool: string, params: Json)

  datatype Request = Request(id: string, spec: CallSpec)

  /** The `error` field of a reply: falsy, an object, or anything else truthy. */
  datatype ErrorField = NoError | ErrorObject(payload: Json) | ErrorText(text: string)

  datatype Response = Response(id: Option<string>, error: ErrorField, value: Json)

  datatype Failure =
    | ToolCallError(payload: Json)
    | PlainError(text: string)
    | ReaderError(text: string)
    | TimedOut(tool: string)

  datatype Future = Pending | Resolved(value: Json) | Failed(failure: Failure) | Cancelled

  function CallIdText(k: nat): string {
    "call_" + Digits(k)
  }

  lemma CallIdTextInjective(a: nat, b: nat)
    requires CallIdText(a) == CallIdText(b)
    ensures a == b
  {
    assert CallIdText(a)[5..] == Digits(a) && CallIdText(b)[5..] == Digits(b);
    DigitsInjective(a, b);
  }

  function FutureOf(r: Response): (f: Future)
    ensures f.Resolved? || f.Failed?
    ensures f.Resolved? <==> r.error.NoError?
    ensures f.Resolved? ==> f.value == r.value
    ensures r.error.ErrorObject? ==> f == Failed(ToolCallError(r.error.payload))
    ensures r.error.ErrorText? ==> f == Failed(PlainError(r.error.text))
  {
    match r.error
    case ErrorObject(payload) => Failed(ToolCallError(payload))
    case ErrorText(text) => Failed(PlainError(text))
    case NoError => Resolved(r.value)
  }

  // ---- the client as a value ----

  datatype Client = Client(callId: nat, pending: map<string, nat>, futures: seq<Future>, wire: seq<Request>)
  {
    /** The future of call `k`. */
    function FutureAt(k: nat): Future
      requires 1 <= k <= |futures|
    {
      futures[k - 1]
    }
  }

  datatype Action =
    | StartCall(spec: CallSpec)
    | Respond(response: Response)
    | FailAll(text: string)  // the reader gave up
    | Expire(call: nat)      // the 300-second timer of a call fires
    | Forget(call: nat)      // the caller of an expired call drops its entry

  const INIT := Client(0, map[], [], [])

  /** The futures once those of the calls `ks` have failed, unless they were settled before. */
  function FailedIn(futures: seq<Future>, ks: set<nat>, text: string): (failed: seq<Future>)
    ensures |failed| == |futures|
    ensures forall i :: 0 <= i < |futures| ==>
      failed[i] == if futures[i].Pending? && i + 1 in ks then Failed(ReaderError(text)) else futures[i]
  {
    seq(|futures|, i requires 0 <= i < |futures| =>
      if futures[i].Pending? && i + 1 in ks then Failed(ReaderError(text)) else futures[i])
  }

  function Next(c: Client, a: Action): Client {
    match a
    case StartCall(spec) =>
      var id := CallIdText(c.callId + 1);
      Client(c.callId + 1, c.pending[id := c.callId + 1], c.futures + [Pending], c.wire + [Request(id, spec)])
    case Respond(r) =>
      if r.id.Some? && r.id.value in c.pending then
        var k := c.pending[r.id.value];
        c.(pending := c.pending - {r.id.value},
           futures := if 1 <= k <= |c.futures| && c.futures[k - 1].Pending? then c.futures[k - 1 := FutureOf(r)]
             else c.futures)
      else c
    case FailAll(text) =>
      c.(pending := map[],
         futures := FailedIn(c.futures, c.pending.Values, text))
    case Expire(k) =>
      if 1 <= k <= |c.futures| && c.futures[k - 1].Pending? then c.(futures := c.futures[k - 1 := Cancelled]) else c
    case Forget(k) =>
      if 1 <= k <= |c.futures| && !c.futures[k - 1].Pending? then c.(pending := c.pending - {CallIdText(k)}) else c
  }

  function Run(acts: seq<Action>): Client {
    if acts == [] then INIT else Next(Run(acts[..|acts| - 1]), acts[|acts| - 1])
  }

  /** Every key of `pending_calls` is the id of a call that was made and has had no reply; the wire
      carries each id once, in order; and no future waits without an entry that can settle it. */
  ghost predicate Inv(c: Client) {
    && |c.futures| == |c.wire| == c.callId
    && (forall id :: id in c.pending ==> 1 <= c.pending[id] <= c.callId && id == CallIdText(c.pending[id]))
    && (forall id :: id in c.pending ==> c.FutureAt(c.pending[id]).Pending? || c.FutureAt(c.pending[id]).Cancelled?)
    && (forall i :: 0 <= i < |c.wire| ==> c.wire[i].id == CallIdText(i + 1))
    && (forall k :: 1 <= k <= c.callId && c.futures[k - 1].Pending? ==> CallIdText(k) in c.pending)
  }

  lemma RespondKeepsInv(c: Client, r: Response)
    requires Inv(c)
    ensures Inv(Next(c, Respond(r)))
  {
    hide CallIdText;
    if r.id.Some? && r.id.value in c.pending {
      var n := Next(c, Respond(r));
      var k := c.pending[r.id.value];
      forall j | 1 <= j <= n.callId && n.futures[j - 1].Pending?
        ensures CallIdText(j) in n.pending
      {
        assert c.futures[j - 1].Pending? && CallIdText(j) in c.pending;
        if CallIdText(j) == r.id.value {
          CallIdTextInjective(j, k);
        }
      }
      forall id | id in n.pending
        ensures n.FutureAt(n.pending[id]).Pending? || n.FutureAt(n.pending[id]).Cancelled?
      {
        assert id in c.pending && id != r.id.value;
      }
    }
  }

  lemma FailAllKeepsInv(c: Client, text: string)
    requires Inv(c)
    ensures Inv(Next(c, FailAll(text)))
  {
    hide CallIdText;
    forall k | 1 <= k <= c.callId && c.futures[k - 1].Pending?
      ensures k in c.pending.Values
    {
      var id := CallIdText(k);
      assert id in c.pending;
      CallIdTextInjective(k, c.pending[id]);
    }
  }

  lemma FailOneMore(futures: seq<Future>, ks: set<nat>, k: nat, text: string)
    requires 1 <= k <= |futures|
    ensures var failed := FailedIn(futures, ks, text);
      FailedIn(futures, ks + {k}, text) == if failed[k - 1].Pending? then failed[k - 1 := Failed(ReaderError(text))]
        else failed
  {
  }

  lemma ForgetKeepsInv(c: Client, k: nat)
    requires Inv(c)
    ensures Inv(Next(c, Forget(k)))
  {
    hide CallIdText;
    forall j | 1 <= j <= c.callId && c.futures[j - 1].Pending?
      ensures CallIdText(j) in Next(c, Forget(k)).pending
    {
      if 1 <= k <= |c.futures| && !c.futures[k - 1].Pending? && CallIdText(j) == CallIdText(k) {
        CallIdTextInjective(j, k);
      }
    }
  }

  lemma NextKeepsInv(c: Client, a: Action)
    requires Inv(c)
    ensures Inv(Next(c, a))
  {
    hide CallIdText;
    match a
    case StartCall(_) =>
    case Respond(r) => RespondKeepsInv(c, r);
    case FailAll(text) => FailAllKeepsInv(c, text);
    case Expire(_) =>
    case Forget(k) => ForgetKeepsInv(c, k);
  }

  lemma {:induction false} RunKeepsInv(acts: seq<Action>)
    ensures Inv(Run(acts))
  {
    if acts != [] {
      RunKeepsInv(acts[..|acts| - 1]);
      NextKeepsInv(Run(acts[..|acts| - 1]), acts[|acts| - 1]);
    }
  }

  // ---- what every run keeps ----

  /** No id is ever written to the wire twice. */
  lemma IdsAreNeverReused(acts: seq<Action>, i: nat, j: nat)
    requires i < j < |Run(acts).wire|
    ensures Run(acts).wire[i].id != Run(acts).wire[j].id
  {
    RunKeepsInv(acts);
    if Run(acts).wire[i].id == Run(acts).wire[j].id {
      CallIdTextInjective(i + 1, j + 1);
    }
  }

  /** A future changes only while it is pending, and only by its own id's reply, its own timer or the
      reader's failure. */
  lemma SettledOnlyByItsOwn(c: Client, a: Action, k: nat)
    requires Inv(c) && 1 <= k <= c.callId
    ensures 1 <= k <= Next(c, a).callId
    ensures Next(c, a).FutureAt(k) != c.FutureAt(k) ==>
      && c.FutureAt(k).Pending?
      && match a
         case Respond(r) => r.id == Some(CallIdText(k)) && Next(c, a).FutureAt(k) == FutureOf(r)
         case Expire(j) => j == k && Next(c, a).FutureAt(k).Cancelled?
         case FailAll(text) => Next(c, a).FutureAt(k) == Failed(ReaderError(text))
         case _ => false
  {
    NextKeepsInv(c, a);
  }

  /** Once settled, a future keeps its outcome for the rest of any run. */
  lemma {:induction false} SettledForGood(acts: seq<Action>, more: seq<Action>, k: nat)
    requires 1 <= k <= Run(acts).callId && |Run(acts).futures| == Run(acts).callId
    requires !Run(acts).FutureAt(k).Pending?
    ensures 1 <= k <= |Run(acts + more).futures|
    ensures Run(acts + more).FutureAt(k) == Run(acts).FutureAt(k)
  {
    if more == [] {
      assert acts + more == acts;
    } else {
      var front := acts + more[..|more| - 1];
      SettledForGood(acts, more[..|more| - 1], k);
      assert (acts + more)[..|acts + more| - 1] == front;
      RunKeepsInv(front);
      SettledOnlyByItsOwn(Run(front), more[|more| - 1], k);
      RunKeepsInv(acts + more);
    }
  }

  /** Every way out works: a reply settles its pending future with its contents and drops the entry, a
      failing reader leaves nothing pending, and a timer ends a pending call. */
  lemma PendingIsSettled(c: Client, k: nat, r: Response, text: string)
    requires Inv(c) && 1 <= k <= c.callId && c.FutureAt(k).Pending? && r.id == Some(CallIdText(k))
    ensures var n := Next(c, Respond(r));
      k <= |n.futures| && n.FutureAt(k) == FutureOf(r) && n.pending == c.pending - {CallIdText(k)}
    ensures var n := Next(c, FailAll(text));
      k <= |n.futures| && n.FutureAt(k) == Failed(ReaderError(text)) && n.pending == map[]
    ensures var n := Next(c, Expire(k)); k <= |n.futures| && n.FutureAt(k).Cancelled?
    ensures CallIdText(k) !in Next(Next(c, Expire(k)), Forget(k)).pending
  {
    assert CallIdText(k) in c.pending;
    CallIdTextInjective(k, c.pending[CallIdText(k)]);
    assert c.pending[CallIdText(k)] in c.pending.Values;
  }

  /** A reply whose id is missing, unknown or already answered changes nothing at all, and a second
      reply to the same id changes nothing after the first. */
  lemma StrayRepliesAreIgnored(c: Client, r: Response, again: Response)
    ensures (r.id.None? || r.id.value !in c.pending) ==> Next(c, Respond(r)) == c
    ensures again.id == r.id ==> Next(Next(c, Respond(r)), Respond(again)) == Next(c, Respond(r))
  {
  }

  /** A reply leaves every other entry and every other future alone. */
  lemma RepliesAreIndependent(c: Client, r: Response, k: nat)
    requires Inv(c) && 1 <= k <= c.callId && r.id != Some(CallIdText(k))
    ensures Next(c, Respond(r)).futures[k - 1] == c.futures[k - 1]
    ensures CallIdText(k) in Next(c, Respond(r)).pending <==> CallIdText(k) in c.pending
    ensures CallIdText(k) in c.pending ==> Next(c, Respond(r)).pending[CallIdText(k)] == k
  {
    if CallIdText(k) in c.pending {
      CallIdTextInjective(k, c.pending[CallIdText(k)]);
    }
  }

  // ---- the client as an object ----

  class RpcClient {
    var callId: nat
    var pendingCalls: map<string, nat>
    var futures: seq<Future>
    var written: seq<Request>

    ghost function View(): Client
      reads this
    {
      Client(callId, pendingCalls, futures, written)
    }

    constructor ()
      ensures View() == INIT
    {
      callId, pendingCalls, futures, written := 0, map[], [], [];
    }

    /** `call` up to its first `await`: the request is written, then the future is registered. */
    method Call(spec: CallSpec) returns (k: nat)
      modifies this
      ensures View() == Next(old(View()), StartCall(spec)) && k == callId
    {
      callId := callId + 1;
      var id := CallIdText(callId);
      written := written + [Request(id, spec)];
      futures := futures + [Pending];
      pendingCalls := pendingCalls[id := callId];
      k := callId;
    }

    method HandleResponse(response: Response)
      requires Inv(View())
      modifies this
      ensures View() == Next(old(View()), Respond(response)) && Inv(View())
    {
      NextKeepsInv(View(), Respond(response));
      // An empty id is falsy, and no call has one.
      if response.id.Some? && response.id.value != "" && response.id.value in pendingCalls {
        var k := pendingCalls[response.id.value];
        if futures[k - 1].Pending? {
          match response.error {
            case ErrorObject(payload) => futures := futures[k - 1 := Failed(ToolCallError(payload))];
            case ErrorText(text) => futures := futures[k - 1 := Failed(PlainError(text))];
            case NoError => futures := futures[k - 1 := Resolved(response.value)];
          }
        }
        pendingCalls := pendingCalls - {response.id.value};
      }
    }

    method FailPendingCalls(text: string)
      requires Inv(View())
      modifies `futures, `pendingCalls
      ensures View() == Next(old(View()), FailAll(text)) && Inv(View())
    {
      FailAllKeepsInv(View(), text);
      assert forall k :: k in pendingCalls.Values ==> 1 <= k <= |futures|;
      hide Inv;
      ghost var before := futures;
      var values := pendingCalls.Values;
      var todo := values;
      assert FailedIn(before, {}, text) == before;
      while todo != {}
        invariant todo <= values && futures == FailedIn(before, values - todo, text)
        decreases todo
      {
        var k :| k in todo;
        assert values - (todo - {k}) == values - todo + {k};
        FailOneMore(before, values - todo, k, text);
        if futures[k - 1].Pending? {
          futures := futures[k - 1 := Failed(ReaderError(text))];
        }
        todo := todo - {k};
      }
      assert values - {} == values;
      pendingCalls := map[];
    }

    /** The timer of `asyncio.wait_for` cancels a future that is still pending. */
    method TimerFires(k: nat)
      requires Inv(View()) && 1 <= k <= callId
      modifies this
      ensures View() == Next(old(View()), Expire(k)) && Inv(View())
    {
      NextKeepsInv(View(), Expire(k));
      if futures[k - 1].Pending? {
        futures := futures[k - 1 := Cancelled];
      }
    }

    /** The `except asyncio.TimeoutError` clause of the call. */
    method CallTimedOut(k: nat)
      requires Inv(View()) && 1 <= k <= callId && !futures[k - 1].Pending?
      modifies this
      ensures View() == Next(old(View()), Forget(k)) && Inv(View())
    {
      NextKeepsInv(View(), Forget(k));
      if CallIdText(k) in pendingCalls {
        pendingCalls := pendingCalls - {CallIdText(k)};
      } else {
        assert pendingCalls - {CallIdText(k)} == pendingCalls;
      }
    }
  }
}
