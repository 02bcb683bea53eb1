/** Automatic routing: for a fitting prompt the tools Python can call are taken off the active list in
    favour of `code_execution`, and put back when the agent ends. */
module Routing {
  import opened Wrappers
  import opened ToolRegistry

  /** What stays fixed during the events: the registry, Pi's tool list and the settings.
      `namesAreValid` is `validatePythonHelperNames`, which throws on clashing helper names. */
  datatype Host = Host(
    builtins: ToolMap, registry: Registry, piTools: seq<PiTool>, settings: Settings, autoRoute: bool,
    namesAreValid: ToolMap -> bool)

  datatype Tools = Tools(active: seq<string>, beforeRouting: Option<seq<string>>)

  function ToolMapFor(h: Host, active: seq<string>): ToolMap
    requires WellKeyed(h.registry.executors)
  {
    BuildMap(h.builtins, h.registry, active, h.piTools)
  }

  /** `getAutoRoutableToolNames`, or an error. The answer depends on which tools are active. */
  function RoutableNames(h: Host, active: seq<string>): Option<set<string>>
    requires WellKeyed(h.registry.executors)
  {
    var tools := ToolMapFor(h, active);
    if h.namesAreValid(CallableTools(tools, h.settings)) then Some(AutoRoutable(tools, h.settings)) else None
  }

  function Without(names: seq<string>, dropped: set<string>): (kept: seq<string>)
    ensures forall n :: n in kept <==> n in names && n !in dropped
  {
    if names == [] then []
    else Without(names[..|names| - 1], dropped) + (if names[|names| - 1] in dropped then [] else [names[|names| - 1]])
  }

  function RoutedList(active: seq<string>, routable: set<string>): seq<string> {
    var next := Without(active, routable);
    if "code_execution" in next then next else next + ["code_execution"]
  }

  predicate PiHasCodeExecution(h: Host) {
    exists i :: 0 <= i < |h.piTools| && h.piTools[i].name == "code_execution"
  }

  /** `applyAutoRouting`; `wanted` tells whether the prompt asks for routing. */
  function ApplyRouting(h: Host, t: Tools, wanted: bool): Tools
    requires WellKeyed(h.registry.executors)
  {
    if !h.autoRoute || !wanted || !PiHasCodeExecution(h) then t else
    var routable := RoutableNames(h, t.active);
    if routable.None? then t else
    var next := RoutedList(t.active, routable.value);
    if next == t.active then t else Tools(next, Some(t.active))
  }

  function Restore(t: Tools): Tools {
    if t.beforeRouting.None? then t else Tools(t.beforeRouting.value, None)
  }

  datatype Event = BeforeAgentStart(wanted: bool) | AgentEnd

  function Next(h: Host, t: Tools, e: Event): Tools
    requires WellKeyed(h.registry.executors)
  {
    match e
    case BeforeAgentStart(wanted) => ApplyRouting(h, t, wanted)
    case AgentEnd => Restore(t)
  }

  function Run(h: Host, active: seq<string>, events: seq<Event>): Tools
    requires WellKeyed(h.registry.executors)
  {
    if events == [] then Tools(active, None)
    else Next(h, Run(h, active, events[..|events| - 1]), events[|events| - 1])
  }

  lemma {:induction false} WithoutNothing(names: seq<string>, dropped: set<string>)
    requires forall n :: n in names ==> n !in dropped
    ensures Without(names, dropped) == names
  {
    if names != [] {
      WithoutNothing(names[..|names| - 1], dropped);
      assert names[|names| - 1] in names;
    }
  }

  /** A routed list has nothing left to route: a second event finds the list as it should be, although
      the routable set is computed afresh from the shorter list. */
  lemma RoutingIsIdempotent(h: Host, active: seq<string>)
    requires WellKeyed(h.registry.executors) && WellKeyed(h.registry.custom) && WellKeyed(h.builtins)
    requires RoutableNames(h, active).Some?
    ensures var next := RoutedList(active, RoutableNames(h, active).value);
      RoutableNames(h, next).Some? ==> RoutedList(next, RoutableNames(h, next).value) == next
  {
    var routable := RoutableNames(h, active).value;
    var next := RoutedList(active, routable);
    if RoutableNames(h, next).Some? {
      var again := RoutableNames(h, next).value;
      forall n | n in next
        ensures n !in again
      {
        if n != "code_execution" {
          OwnActivityOnly(BaseMap(h.builtins, h.registry), h.registry, h.piTools, active, next, n);
        }
      }
      WithoutNothing(next, again);
    }
  }

  /** At any time the saved list, if there is one, is the original, and the active list is either the
      original or its routed form. */
  ghost predicate Inv(h: Host, original: seq<string>, t: Tools)
    requires WellKeyed(h.registry.executors)
  {
    match t.beforeRouting
    case None => t.active == original
    case Some(saved) =>
      saved == original && RoutableNames(h, original).Some?
        && t.active == RoutedList(original, RoutableNames(h, original).value)
  }

  lemma {:induction false} RunKeepsInv(h: Host, active: seq<string>, events: seq<Event>)
    requires WellKeyed(h.registry.executors) && WellKeyed(h.registry.custom) && WellKeyed(h.builtins)
    ensures Inv(h, active, Run(h, active, events))
  {
    if events != [] {
      RunKeepsInv(h, active, events[..|events| - 1]);
      if RoutableNames(h, active).Some? {
        RoutingIsIdempotent(h, active);
      }
    }
  }

  /** Routing is undone exactly: whatever starts and ends came before, an agent end leaves the original
      list, element for element. */
  lemma RoutingIsUndone(h: Host, active: seq<string>, events: seq<Event>)
    requires WellKeyed(h.registry.executors) && WellKeyed(h.registry.custom) && WellKeyed(h.builtins)
    ensures Run(h, active, events + [AgentEnd]) == Tools(active, None)
  {
    assert (events + [AgentEnd])[..|events|] == events;
    RunKeepsInv(h, active, events);
  }

  /** While routed, `code_execution` is active, and of the original list exactly the tools that are not
      routable are kept. */
  lemma RoutedListContents(active: seq<string>, routable: set<string>)
    requires "code_execution" !in routable
    ensures forall n :: n in RoutedList(active, routable) <==> n == "code_execution" || (n in active && n !in routable)
  {
  }

  lemma {:induction false} WithoutConcat(a: seq<string>, b: seq<string>, dropped: set<string>)
    ensures Without(a + b, dropped) == Without(a, dropped) + Without(b, dropped)
  {
    if b == [] {
      assert a + b == a;
    } else {
      var front, last := b[..|b| - 1], b[|b| - 1];
      var kept := if last in dropped then [] else [last];
      WithoutConcat(a, front, dropped);
      assert (a + b)[..|a + b| - 1] == a + front && (a + b)[|a + b| - 1] == last;
      assert Without(a + b, dropped) == Without(a + front, dropped) + kept;
      assert Without(b, dropped) == Without(front, dropped) + kept;
      hide Without;
      var x, y := Without(a, dropped), Without(front, dropped);
      assert x + y + kept == x + (y + kept);
    }
  }

  /** Routing happens if and only if it is switched on, the prompt asks for it, Pi has `code_execution`, the
      helper names are valid and the list is not as wanted already. Then the original list is saved. */
  lemma RoutesIff(h: Host, t: Tools, wanted: bool)
    requires WellKeyed(h.registry.executors)
    ensures var n := ApplyRouting(h, t, wanted);
      && (n != t ==> n.beforeRouting == Some(t.active) && n.active != t.active)
      && (n.active != t.active <==>
            && h.autoRoute && wanted && (exists i :: 0 <= i < |h.piTools| && h.piTools[i].name == "code_execution")
            && h.namesAreValid(CallableTools(ToolMapFor(h, t.active), h.settings))
            && RoutableNames(h, t.active).Some?
            && t.active != RoutedList(t.active, RoutableNames(h, t.active).value))
      && (n.active != t.active ==> n.active == RoutedList(t.active, RoutableNames(h, t.active).value))
  {
  }

  // ---- what routing leaves Python with ----

  /** Apart from the executor, an entry that is not a builtin's does not depend on the active list. */
  lemma {:induction false} ActivityMovesExecutorsOnly(tools: ToolMap, r: Registry, piTools: seq<PiTool>,
                                                      a: seq<string>, b: seq<string>, n: string)
    requires n in tools ==> !tools[n].IsBuiltin()
    ensures var x, y := AddPiTools(tools, r, a, piTools), AddPiTools(tools, r, b, piTools);
      && (n in x <==> n in y)
      && (n in x ==> !x[n].IsBuiltin() && x[n].(execute := Unavailable) == y[n].(execute := Unavailable))
  {
    if piTools != [] {
      ActivityMovesExecutorsOnly(tools, r, piTools[..|piTools| - 1], a, b, n);
    }
  }

  /** A tool off the active list runs the registry's own executor, or none. */
  lemma InactiveToolRuns(h: Host, active: seq<string>, n: string)
    requires WellKeyed(h.registry.executors) && DistinctPiNames(h.piTools)
    requires n !in active && n in ToolMapFor(h, active)
    ensures var base := BaseMap(h.builtins, h.registry);
      ToolMapFor(h, active)[n].execute == if n in base then base[n].execute else Unavailable
  {
    var base := BaseMap(h.builtins, h.registry);
    if i :| 0 <= i < |h.piTools| && h.piTools[i].name == n {
      if Retired(h.registry, n) {
        PiCannotRevive(base, h.registry, active, h.piTools, n);
      } else {
        ListedToolRuns(base, h.registry, active, h.piTools, i);
      }
    } else {
      UnlistedStays(base, h.registry, active, h.piTools, n);
    }
  }

  /** Routing takes a tool away from the model because Python can call it. Python is then still offered
      the tool, unless it was a builtin that Pi overrides, but the call can run exactly when the registry
      itself holds an executor: Pi's own executor goes with the place on the active list. */
  lemma RoutedToolRunsIff(h: Host, active: seq<string>, n: string)
    requires WellKeyed(h.registry.executors) && WellKeyed(h.registry.custom) && WellKeyed(h.builtins)
    requires DistinctPiNames(h.piTools)
    requires RoutableNames(h, active).Some? && n in active && n in RoutableNames(h, active).value
    requires n in BaseMap(h.builtins, h.registry) ==> !BaseMap(h.builtins, h.registry)[n].IsBuiltin()
    ensures var next := RoutedList(active, RoutableNames(h, active).value);
      var base, after := BaseMap(h.builtins, h.registry), ToolMapFor(h, next);
      && n !in next
      && CallableName(n, after, h.settings)
      && (after[n].execute.Executor? <==> n in base && base[n].execute.Executor?)
  {
    var next := RoutedList(active, RoutableNames(h, active).value);
    var base := BaseMap(h.builtins, h.registry);
    ActivityMovesExecutorsOnly(base, h.registry, h.piTools, active, next, n);
    CallableIgnoresExecutor(ToolMapFor(h, active)[n], ToolMapFor(h, next)[n], h.settings);
    InactiveToolRuns(h, next, n);
  }

  lemma CallableIgnoresExecutor(a: ToolInfo, b: ToolInfo, s: Settings)
    requires a.(execute := Unavailable) == b.(execute := Unavailable)
    ensures IsCallable(a, s) <==> IsCallable(b, s)
  {
    assert a.name == b.name && a.source == b.source && a.ptc == b.ptc && a.isReadOnly == b.isReadOnly;
    assert a.IsBuiltin() == b.IsBuiltin() && a.ConfiguredCallers() == b.ConfiguredCallers();
  }

  // ---- a host where a routed tool cannot run ----

  const PTC_ENABLED := PtcOptions(Some(true), Some(true), None, None, None, None, None)

  const PI_ONLY_HOST := Host(
    map[], EMPTY,
    [PiTool("search", "", Some(PTC_ENABLED), Some(0)), PiTool("code_execution", "", None, None)],
    Settings(None, [], [], true, false), true, _ => true)

  lemma PiToolIsListed(active: seq<string>)
    requires "search" in active
    ensures var tools := ToolMapFor(PI_ONLY_HOST, active);
      && "search" in tools && tools["search"].execute == Executor(0)
      && IsCallable(tools["search"], PI_ONLY_HOST.settings) && DirectCaller in tools["search"].ConfiguredCallers()
  {
    var h := PI_ONLY_HOST;
    var front := h.piTools[..1];
    assert front[..0] == [] && h.piTools[..|h.piTools| - 1] == front;
    assert BaseMap(h.builtins, h.registry) == map[];
    assert AddPiTools(map[], h.registry, active, front) == AddPiTool(map[], h.registry, active, h.piTools[0]);
  }

  /** A tool that only Pi provides is active, callable and routed, and afterwards Python is offered it with
      nothing to run. */
  lemma RoutedToolCannotRun()
    ensures var h, active := PI_ONLY_HOST, ["search"];
      var next := ApplyRouting(h, Tools(active, None), true).active;
      && "search" in ToolMapFor(h, active) && ToolMapFor(h, active)["search"].execute == Executor(0)
      && "search" !in next && CallableName("search", ToolMapFor(h, next), h.settings)
      && ToolMapFor(h, next)["search"].execute == Unavailable
  {
    var h, active := PI_ONLY_HOST, ["search"];
    PiToolIsListed(active);
    assert "search" in RoutableNames(h, active).value;
    assert PiHasCodeExecution(h) by {
      assert h.piTools[1].name == "code_execution";
    }
    assert "search" !in BaseMap(h.builtins, h.registry);
    hide AddPiTools, BaseMap, IsCallable, AutoRoutable;
    RoutedToolRunsIff(h, active, "search");
  }

  class Session {
    var activeTools: seq<string>                       // Pi's list
    var activeToolsBeforeRouting: Option<seq<string>>

    ghost function View(): Tools
      reads this
    {
      Tools(activeTools, activeToolsBeforeRouting)
    }

    constructor (active: seq<string>)
      ensures View() == Tools(active, None)
    {
      activeTools, activeToolsBeforeRouting := active, None;
    }

    method ApplyAutoRouting(h: Host, wanted: bool)
      requires WellKeyed(h.registry.executors)
      modifies this
      ensures View() == ApplyRouting(h, old(View()), wanted)
    {
      if !h.autoRoute || !wanted {
        return;
      }
      if !PiHasCodeExecution(h) {
        return;
      }
      var routableToolNames := RoutableNames(h, activeTools);
      if routableToolNames.None? {
        return; // the exception leaves the lists alone
      }
      var nextActiveTools := Without(activeTools, routableToolNames.value);
      if "code_execution" !in nextActiveTools {
        nextActiveTools := nextActiveTools + ["code_execution"];
      }
      if nextActiveTools != activeTools {
        activeToolsBeforeRouting := Some(activeTools);
        activeTools := nextActiveTools;
      }
    }

    method RestoreActiveTools()
      modifies this
      ensures View() == Restore(old(View()))
    {
      if activeToolsBeforeRouting.None? {
        return;
      }
      activeTools := activeToolsBeforeRouting.value;
      activeToolsBeforeRouting := None;
    }
  }
}
