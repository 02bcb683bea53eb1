/** The tool registry: which tools exist, which of them Python code may call, and why an allowlisted
    one may not be called. */
module ToolRegistry {
  import opened Wrappers

  // ---- PTC metadata ----

  datatype Source = Builtin | Alias | Extension
  datatype Caller = DirectCaller | CodeExecutionCaller
  datatype Policy = ReadOnly | Mutating
  datatype Exposure = SafeByDefault | OptIn | NotSafeByDefault

  datatype PtcOptions = PtcOptions(
    enabled: Option<bool>, callable: Option<bool>, readOnly: Option<bool>, policy: Option<Policy>,
    pythonName: Option<string>, defaultExposure: Option<Exposure>, callers: Option<seq<Caller>>)

  datatype NormalizedPtc = NormalizedPtc(
    callable: bool, policy: Policy, pythonName: Option<string>, defaultExposure: Option<Exposure>)
  {
    predicate IsReadOnly() {
      policy.ReadOnly?
    }
  }

  /** `a ?? b`. */
  function OrElse<T>(a: Option<T>, b: T): T {
    if a.Some? then a.value else b
  }

  function Normalize(ptc: Option<PtcOptions>): Option<NormalizedPtc> {
    if ptc.None? then None else
    var p := ptc.value;
    Some(NormalizedPtc(OrElse(p.callable, OrElse(p.enabled, false)),
                       OrElse(p.policy, if p.readOnly == Some(true) then ReadOnly else Mutating),
                       p.pythonName, p.defaultExposure))
  }

  function NormalizeStored(ptc: Option<PtcOptions>): Option<PtcOptions> {
    var n := Normalize(ptc);
    if n.None? then ptc else
    Some(ptc.value.(enabled := Some(OrElse(ptc.value.enabled, n.value.callable)),
                    callable := Some(n.value.callable),
                    readOnly := Some(OrElse(ptc.value.readOnly, n.value.IsReadOnly())),
                    policy := Some(n.value.policy)))
  }

  /** Storing metadata twice, as re-merging a tool does, is storing it once, and what the filter reads
      off the stored form is what it reads off the original. */
  lemma NormalizeStoredIsStable(ptc: Option<PtcOptions>)
    ensures NormalizeStored(NormalizeStored(ptc)) == NormalizeStored(ptc)
    ensures Normalize(NormalizeStored(ptc)) == Normalize(ptc)
  {
  }

  const READ_ONLY_BUILTINS := {"read", "sg", "find", "glob", "grep", "ls"}

  function ClassifyTool(name: string, ptc: Option<PtcOptions>): (bool, Option<PtcOptions>) {
    var stored := NormalizeStored(ptc);
    if stored.Some? then (stored.value.readOnly == Some(true), stored) else (name in READ_ONLY_BUILTINS, None)
  }

  /** Callable is what `callable` says, or else what `enabled` says; read-only what `policy` says, or else
      what `readOnly` says. */
  lemma NormalizeMeans(p: PtcOptions)
    ensures var n := Normalize(Some(p)).value;
      && (n.callable <==> p.callable == Some(true) || (p.callable.None? && p.enabled == Some(true)))
      && (n.IsReadOnly() <==> p.policy == Some(ReadOnly) || (p.policy.None? && p.readOnly == Some(true)))
      && n.defaultExposure == p.defaultExposure && n.pythonName == p.pythonName
    ensures Normalize(None) == None
  {
  }

  /** A stored tool counts as read-only if `readOnly` says so, or else its policy; one without metadata if it
      is one of six builtins. Storing keeps what was declared and fills in the rest. */
  lemma ClassifyMeans(name: string, p: PtcOptions)
    ensures ClassifyTool(name, Some(p)).0 <==>
      p.readOnly == Some(true) || (p.readOnly.None? && p.policy == Some(ReadOnly))
    ensures var stored := ClassifyTool(name, Some(p)).1;
      && stored.Some? && stored.value.callers == p.callers && stored.value.defaultExposure == p.defaultExposure
      && (p.enabled.Some? ==> stored.value.enabled == p.enabled)
      && (p.enabled.None? ==> stored.value.enabled == Some(p.callable == Some(true)))
      && stored.value.policy == Some(OrElse(p.policy, if p.readOnly == Some(true) then ReadOnly else Mutating))
      && stored.value.readOnly.Some? && (stored.value.readOnly.value <==> ClassifyTool(name, Some(p)).0)
      && stored.value.pythonName == p.pythonName
      && stored.value.callable == Some(p.callable == Some(true) || (p.callable.None? && p.enabled == Some(true)))
    ensures ClassifyTool(name, None) == (name in {"read", "sg", "find", "glob", "grep", "ls"}, None)
  {
  }

  // ---- tools ----

  datatype Executor = Executor(id: nat) | Unavailable

  datatype ToolInfo = ToolInfo(
    name: string, description: string, source: Source, isReadOnly: bool, ptc: Option<PtcOptions>, execute: Executor)
  {
    predicate IsBuiltin() {
      source.Builtin? || source.Alias?
    }

    function ConfiguredCallers(): set<Caller> {
      if ptc.Some? && ptc.value.callers.Some? && ptc.value.callers.value != []
      then (set c | c in ptc.value.callers.value)
      else if name == "code_execution" then {DirectCaller}
      else if IsBuiltin() || (ptc.Some? && ptc.value.enabled == Some(true)) then {DirectCaller, CodeExecutionCaller}
      else {DirectCaller}
    }
  }

  datatype Definition = Definition(name: string, description: string, ptc: Option<PtcOptions>, execute: nat)

  /** A tool as Pi lists it; only some expose an executor. */
  datatype PiTool = PiTool(name: string, description: string, ptc: Option<PtcOptions>, execute: Option<nat>)

  type ToolMap = map<string, ToolInfo>

  /** Every entry is stored under its own name. */
  predicate WellKeyed(tools: ToolMap) {
    forall n :: n in tools ==> tools[n].name == n
  }

  /** Who may call a tool: whom its metadata lists; without a list the model always, and Python if the tool is
      a builtin or enabled, but never `code_execution` itself. */
  lemma CallersMean(tool: ToolInfo)
    ensures var listed := tool.ptc.Some? && tool.ptc.value.callers.Some? && tool.ptc.value.callers.value != [];
      && (DirectCaller in tool.ConfiguredCallers() <==> (listed ==> DirectCaller in tool.ptc.value.callers.value))
      && (CodeExecutionCaller in tool.ConfiguredCallers() <==>
            if listed then CodeExecutionCaller in tool.ptc.value.callers.value
            else tool.name != "code_execution"
                 && (!tool.source.Extension? || (tool.ptc.Some? && tool.ptc.value.enabled == Some(true))))
  {
  }

  // ---- the registry as a value ----

  datatype Registry = Registry(custom: ToolMap, owned: set<string>, executors: ToolMap)

  const EMPTY := Registry(map[], {}, map[])

  function InfoOf(d: Definition): ToolInfo {
    var (isReadOnly, ptc) := ClassifyTool(d.name, d.ptc);
    ToolInfo(d.name, d.description, Extension, isReadOnly, ptc, Executor(d.execute))
  }

  function Upsert(r: Registry, d: Definition): Registry {
    r.(custom := r.custom[d.name := InfoOf(d)], owned := r.owned + {d.name})
  }

  function Remove(r: Registry, name: string): Registry {
    r.(custom := r.custom - {name}, owned := r.owned + {name})
  }

  function Ingest(r: Registry, d: Definition): Registry {
    r.(executors := r.executors[d.name := InfoOf(d.(description := ""))])
  }

  function OverlayExecutor(tools: ToolMap, ext: ToolInfo): ToolInfo {
    if ext.name in tools
    then tools[ext.name].(execute := ext.execute, isReadOnly := ext.isReadOnly,
                          ptc := if ext.ptc.Some? then ext.ptc else tools[ext.name].ptc)
    else ext
  }

  lemma OverlayLooksAtItsName(a: ToolMap, b: ToolMap, ext: ToolInfo)
    requires ext.name in a <==> ext.name in b
    requires ext.name in a ==> a[ext.name] == b[ext.name]
    ensures OverlayExecutor(a, ext) == OverlayExecutor(b, ext)
  {
  }

  /** Builtins, then the hashline executors over them, then the custom tools. */
  function BaseMap(builtins: ToolMap, r: Registry): ToolMap
    requires WellKeyed(r.executors)
  {
    builtins
    + (map n | n in r.executors :: OverlayExecutor(builtins, r.executors[n]))
    + r.custom
  }

  /** One entry of Pi's tool list. */
  function AddPiTool(tools: ToolMap, r: Registry, active: seq<string>, pi: PiTool): ToolMap {
    if pi.name in r.owned && pi.name !in r.custom then tools else
    var override := pi.name in active;
    var own := if override && pi.execute.Some? then Executor(pi.execute.value) else Unavailable;
    if pi.name in tools then
      var existing := tools[pi.name];
      if existing.IsBuiltin() && !override then tools else
      var (isReadOnly, ptc) := ClassifyTool(pi.name, NormalizeStored(if pi.ptc.Some? then pi.ptc else existing.ptc));
      tools[pi.name := existing.(description := pi.description, ptc := ptc, isReadOnly := isReadOnly,
                                 execute := if own.Executor? then own else existing.execute)]
    else
      var (isReadOnly, ptc) := ClassifyTool(pi.name, pi.ptc);
      tools[pi.name := ToolInfo(pi.name, pi.description, Extension, isReadOnly, ptc, own)]
  }

  function AddPiTools(tools: ToolMap, r: Registry, active: seq<string>, piTools: seq<PiTool>): ToolMap {
    if piTools == [] then tools
    else AddPiTool(AddPiTools(tools, r, active, piTools[..|piTools| - 1]), r, active, piTools[|piTools| - 1])
  }

  function BuildMap(builtins: ToolMap, r: Registry, active: seq<string>, piTools: seq<PiTool>): ToolMap
    requires WellKeyed(r.executors)
  {
    AddPiTools(BaseMap(builtins, r), r, active, piTools)
  }

  /** Whose executor, description and metadata a name has before Pi's tools are added: a custom tool is all its
      own; a hashline executor takes over a builtin's execution, not its description or source. */
  lemma BaseEntry(builtins: ToolMap, r: Registry, n: string)
    requires WellKeyed(r.executors)
    ensures n in BaseMap(builtins, r) <==> n in builtins || n in r.executors || n in r.custom
    ensures n in r.custom ==> BaseMap(builtins, r)[n] == r.custom[n]
    ensures n !in r.custom && n in r.executors ==>
      var entry := BaseMap(builtins, r)[n];
      && entry.execute == r.executors[n].execute && entry.isReadOnly == r.executors[n].isReadOnly
      && (n in builtins ==> entry.source == builtins[n].source && entry.description == builtins[n].description
                            && entry.ptc == if r.executors[n].ptc.Some? then r.executors[n].ptc else builtins[n].ptc)
      && (n !in builtins ==> entry == r.executors[n])
    ensures n !in r.custom && n !in r.executors && n in builtins ==> BaseMap(builtins, r)[n] == builtins[n]
  {
  }

  /** A registered tool that Pi does not list runs its own code under its own description, with its own
      metadata; so does a hashline executor for a name that is no builtin. */
  lemma RegisteredToolRuns(builtins: ToolMap, r: Registry, active: seq<string>, piTools: seq<PiTool>, d: Definition)
    requires WellKeyed(r.executors) && forall i :: 0 <= i < |piTools| ==> piTools[i].name != d.name
    ensures var tools := BuildMap(builtins, Upsert(r, d), active, piTools);
      && d.name in tools && tools[d.name].execute == Executor(d.execute)
      && tools[d.name].description == d.description && tools[d.name].source == Extension
      && tools[d.name].ptc == ClassifyTool(d.name, d.ptc).1 && tools[d.name].isReadOnly == ClassifyTool(d.name, d.ptc).0
    ensures d.name !in r.custom && d.name !in builtins ==>
      var after := Ingest(r, d);
      && WellKeyed(after.executors)
      && d.name in BuildMap(builtins, after, active, piTools)
      && BuildMap(builtins, after, active, piTools)[d.name].execute == Executor(d.execute)
      && BuildMap(builtins, after, active, piTools)[d.name].description == ""
  {
    hide ClassifyTool;
    UnlistedStays(BaseMap(builtins, Upsert(r, d)), Upsert(r, d), active, piTools, d.name);
    if d.name !in r.custom && d.name !in builtins {
      var after := Ingest(r, d);
      assert after.executors[d.name].name == d.name;
      BaseEntry(builtins, after, d.name);
      UnlistedStays(BaseMap(builtins, after), after, active, piTools, d.name);
    }
  }

  lemma {:induction false} PiToolsKeepKeys(tools: ToolMap, r: Registry, active: seq<string>, piTools: seq<PiTool>)
    requires WellKeyed(tools)
    ensures WellKeyed(AddPiTools(tools, r, active, piTools))
  {
    if piTools != [] {
      PiToolsKeepKeys(tools, r, active, piTools[..|piTools| - 1]);
    }
  }

  /** The map that is built from any registry that operations can produce has every tool under its name. */
  lemma BuiltMapIsWellKeyed(ops: seq<RegistryOp>, builtins: ToolMap, active: seq<string>, piTools: seq<PiTool>)
    requires WellKeyed(builtins)
    ensures WellKeyed(ApplyAll(EMPTY, ops).executors)
    ensures WellKeyed(BuildMap(builtins, ApplyAll(EMPTY, ops), active, piTools))
  {
    OpsKeepKeys(EMPTY, ops);
    var r := ApplyAll(EMPTY, ops);
    assert WellKeyed(BaseMap(builtins, r));
    PiToolsKeepKeys(BaseMap(builtins, r), r, active, piTools);
  }

  /** Each tool's entry depends on the active list only through its own name. */
  lemma {:induction false} OwnActivityOnly(tools: ToolMap, r: Registry, piTools: seq<PiTool>,
                                           a: seq<string>, b: seq<string>, n: string)
    requires n in a <==> n in b
    ensures n in AddPiTools(tools, r, a, piTools) <==> n in AddPiTools(tools, r, b, piTools)
    ensures n in AddPiTools(tools, r, a, piTools) ==>
      AddPiTools(tools, r, a, piTools)[n] == AddPiTools(tools, r, b, piTools)[n]
  {
    if piTools != [] {
      OwnActivityOnly(tools, r, piTools[..|piTools| - 1], a, b, n);
    }
  }

  // ---- who provides a tool ----

  /** Removed and not upserted since. */
  predicate Retired(r: Registry, n: string) {
    n in r.owned && n !in r.custom
  }

  predicate DistinctPiNames(piTools: seq<PiTool>) {
    forall i, j :: 0 <= i < j < |piTools| ==> piTools[i].name != piTools[j].name
  }

  lemma {:induction false} UnlistedStays(tools: ToolMap, r: Registry, active: seq<string>, piTools: seq<PiTool>,
                                         n: string)
    requires forall i :: 0 <= i < |piTools| ==> piTools[i].name != n
    ensures n in AddPiTools(tools, r, active, piTools) <==> n in tools
    ensures n in tools ==> AddPiTools(tools, r, active, piTools)[n] == tools[n]
  {
    if piTools != [] {
      UnlistedStays(tools, r, active, piTools[..|piTools| - 1], n);
    }
  }

  /** A builtin that is not active is the registry's own, whatever Pi lists under its name. */
  lemma {:induction false} InactiveBuiltinStays(tools: ToolMap, r: Registry, active: seq<string>,
                                                piTools: seq<PiTool>, n: string)
    requires n in tools && tools[n].IsBuiltin() && n !in active
    ensures n in AddPiTools(tools, r, active, piTools) && AddPiTools(tools, r, active, piTools)[n] == tools[n]
  {
    if piTools != [] {
      InactiveBuiltinStays(tools, r, active, piTools[..|piTools| - 1], n);
    }
  }

  /** A tool Pi lists as active with an executor runs that executor, under Pi's description, unless it
      was removed. One that is not active keeps the registry's executor, or has none to run. */
  lemma {:induction false} ListedToolRuns(tools: ToolMap, r: Registry, active: seq<string>, piTools: seq<PiTool>,
                                          i: nat)
    requires DistinctPiNames(piTools) && i < |piTools| && !Retired(r, piTools[i].name)
    ensures var n, all := piTools[i].name, AddPiTools(tools, r, active, piTools);
      && n in all
      && (n in active ==> all[n].description == piTools[i].description)
      && (n in active && piTools[i].execute.Some? ==> all[n].execute == Executor(piTools[i].execute.value))
      && (n !in active || piTools[i].execute.None? ==>
            all[n].execute == if n in tools then tools[n].execute else Unavailable)
  {
    var front := piTools[..|piTools| - 1];
    if i < |piTools| - 1 {
      ListedToolRuns(tools, r, active, front, i);
    } else {
      UnlistedStays(tools, r, active, front, piTools[i].name);
    }
  }

  /** The metadata of a listed tool are Pi's, or else those the registry has, stored; its source stays. */
  lemma {:induction false} ListedToolMetadata(tools: ToolMap, r: Registry, active: seq<string>, piTools: seq<PiTool>,
                                              i: nat)
    requires DistinctPiNames(piTools) && i < |piTools| && !Retired(r, piTools[i].name)
    requires var n := piTools[i].name; n in tools && tools[n].IsBuiltin() ==> n in active
    ensures var n, all := piTools[i].name, AddPiTools(tools, r, active, piTools);
      && n in all
      && var own := if piTools[i].ptc.None? && n in tools then tools[n].ptc else piTools[i].ptc;
         && all[n].ptc == NormalizeStored(own)
         && all[n].isReadOnly == ClassifyTool(n, own).0
         && all[n].source == if n in tools then tools[n].source else Extension
  {
    hide Normalize;
    var front := piTools[..|piTools| - 1];
    if i < |piTools| - 1 {
      ListedToolMetadata(tools, r, active, front, i);
    } else {
      UnlistedStays(tools, r, active, front, piTools[i].name);
      StoredTwice(piTools[i].name, if piTools[i].ptc.Some? then piTools[i].ptc else
        if piTools[i].name in tools then tools[piTools[i].name].ptc else None);
    }
  }

  lemma StoredTwice(name: string, ptc: Option<PtcOptions>)
    ensures ClassifyTool(name, NormalizeStored(ptc)) == ClassifyTool(name, ptc)
    ensures ClassifyTool(name, ptc).1 == NormalizeStored(ptc)
  {
  }

  // ---- removed tools stay gone ----

  lemma {:induction false} PiCannotRevive(tools: ToolMap, r: Registry, active: seq<string>, piTools: seq<PiTool>,
                                          n: string)
    requires Retired(r, n)
    ensures n in AddPiTools(tools, r, active, piTools) <==> n in tools
    ensures n in tools ==> AddPiTools(tools, r, active, piTools)[n] == tools[n]
  {
    if piTools != [] {
      PiCannotRevive(tools, r, active, piTools[..|piTools| - 1], n);
    }
  }

  datatype RegistryOp = UpsertOp(d: Definition) | RemoveOp(name: string) | IngestOp(d: Definition)

  function Apply(r: Registry, op: RegistryOp): Registry {
    match op
    case UpsertOp(d) => Upsert(r, d)
    case RemoveOp(name) => Remove(r, name)
    case IngestOp(d) => Ingest(r, d)
  }

  function ApplyAll(r: Registry, ops: seq<RegistryOp>): Registry {
    if ops == [] then r else Apply(ApplyAll(r, ops[..|ops| - 1]), ops[|ops| - 1])
  }

  lemma {:induction false} OpsKeepKeys(r: Registry, ops: seq<RegistryOp>)
    requires WellKeyed(r.executors) && WellKeyed(r.custom)
    ensures WellKeyed(ApplyAll(r, ops).executors) && WellKeyed(ApplyAll(r, ops).custom)
  {
    if ops != [] {
      OpsKeepKeys(r, ops[..|ops| - 1]);
    }
  }

  lemma {:induction false} RetiredUntilUpserted(r: Registry, name: string, ops: seq<RegistryOp>)
    requires Retired(r, name)
    requires forall i :: 0 <= i < |ops| ==> !(ops[i].UpsertOp? && ops[i].d.name == name)
    ensures Retired(ApplyAll(r, ops), name)
  {
    if ops != [] {
      RetiredUntilUpserted(r, name, ops[..|ops| - 1]);
    }
  }

  /** A name once upserted or removed stays the registry's own: whatever happens to it, Pi's copy of it is only
      used while a custom tool of that name is registered. */
  lemma {:induction false} OwnedForGood(r: Registry, name: string, ops: seq<RegistryOp>)
    requires name in r.owned
      || exists i :: 0 <= i < |ops| && (ops[i] == RemoveOp(name) || (ops[i].UpsertOp? && ops[i].d.name == name))
    ensures name in ApplyAll(r, ops).owned
  {
    if ops != [] {
      var front, last := ops[..|ops| - 1], ops[|ops| - 1];
      if last != RemoveOp(name) && !(last.UpsertOp? && last.d.name == name) {
        assert forall i :: 0 <= i < |front| ==> front[i] == ops[i];
        OwnedForGood(r, name, front);
      }
    }
  }

  /** A removed name does not come back through Pi's still-registered copy, whatever Pi lists and
      whatever is active, until it is upserted again: only a builtin or a hashline executor of that
      name remains. */
  lemma RemovedDoesNotComeBack(r: Registry, name: string, ops: seq<RegistryOp>,
                               builtins: ToolMap, active: seq<string>, piTools: seq<PiTool>)
    requires WellKeyed(r.executors) && WellKeyed(r.custom)
    requires forall i :: 0 <= i < |ops| ==> !(ops[i].UpsertOp? && ops[i].d.name == name)
    ensures var after := ApplyAll(Remove(r, name), ops);
      && WellKeyed(after.executors)
      && (name in BuildMap(builtins, after, active, piTools) <==> name in builtins || name in after.executors)
      && (name in BuildMap(builtins, after, active, piTools) ==>
            BuildMap(builtins, after, active, piTools)[name] == BaseMap(builtins, after)[name])
  {
    var after := ApplyAll(Remove(r, name), ops);
    RetiredUntilUpserted(Remove(r, name), name, ops);
    OpsKeepKeys(Remove(r, name), ops);
    PiCannotRevive(BaseMap(builtins, after), after, active, piTools, name);
  }

  // ---- which tools Python may call ----

  datatype Settings = Settings(
    callableTools: Option<seq<string>>, blockedTools: seq<string>, trustedReadOnlyTools: seq<string>,
    allowMutations: bool, allowBash: bool)

  predicate Allowlisted(name: string, s: Settings) {
    s.callableTools.Some? && name in s.callableTools.value
  }

  predicate DeclaredCallable(tool: ToolInfo) {
    var n := Normalize(tool.ptc);
    n.Some? && n.value.callable
  }

  predicate IsOptIn(tool: ToolInfo) {
    var n := Normalize(tool.ptc);
    n.Some? && n.value.defaultExposure == Some(OptIn)
  }

  predicate TrustedReadOnlyCustom(tool: ToolInfo, s: Settings) {
    var n := Normalize(tool.ptc);
    !tool.IsBuiltin() && n.Some? && n.value.callable && n.value.IsReadOnly() && tool.name in s.trustedReadOnlyTools
  }

  /** The filter of `getCallableTools`, condition by condition. */
  predicate IsCallable(tool: ToolInfo, s: Settings) {
    if tool.name == "code_execution" then false
    else if tool.name in s.blockedTools then false
    else if s.callableTools.Some? && !Allowlisted(tool.name, s) then false
    else if tool.name == "bash" && !s.allowBash then false
    else if IsOptIn(tool) && !Allowlisted(tool.name, s) then false
    else if !s.allowMutations && !tool.IsBuiltin() && !TrustedReadOnlyCustom(tool, s) then false
    else if !s.allowMutations && !tool.isReadOnly && !TrustedReadOnlyCustom(tool, s) then false
    else CodeExecutionCaller in tool.ConfiguredCallers() && (tool.IsBuiltin() || DeclaredCallable(tool))
  }

  predicate CallableName(name: string, tools: ToolMap, s: Settings) {
    name in tools && IsCallable(tools[name], s)
  }

  function CallableTools(tools: ToolMap, s: Settings): ToolMap {
    map n | n in tools && IsCallable(tools[n], s) :: tools[n]
  }

  /** `getAutoRoutableToolNames`. */
  function AutoRoutable(tools: ToolMap, s: Settings): set<string> {
    set n | n in tools && n != "code_execution" && DirectCaller in tools[n].ConfiguredCallers()
      && IsCallable(tools[n], s)
  }

  /** Declared callable or read-only by the metadata themselves. */
  predicate SaysCallable(tool: ToolInfo) {
    && tool.ptc.Some?
    && (tool.ptc.value.callable == Some(true)
        || (tool.ptc.value.callable.None? && tool.ptc.value.enabled == Some(true)))
  }

  predicate SaysReadOnly(tool: ToolInfo) {
    && tool.ptc.Some?
    && (tool.ptc.value.policy == Some(ReadOnly)
        || (tool.ptc.value.policy.None? && tool.ptc.value.readOnly == Some(true)))
  }

  /** The filter in terms of settings and metadata alone. Without permission to change things, Python gets
      read-only builtins and, of the others, those that declare themselves callable and read-only and that the
      user trusts by name. */
  lemma CallableMeans(tool: ToolInfo, s: Settings)
    ensures IsCallable(tool, s) <==>
      && tool.name != "code_execution" && tool.name !in s.blockedTools
      && (s.callableTools.Some? ==> tool.name in s.callableTools.value)
      && (tool.name == "bash" ==> s.allowBash)
      && (tool.ptc.Some? && tool.ptc.value.defaultExposure == Some(OptIn) ==>
            s.callableTools.Some? && tool.name in s.callableTools.value)
      && (!s.allowMutations ==>
            if !tool.source.Extension? then tool.isReadOnly
            else SaysCallable(tool) && SaysReadOnly(tool) && tool.name in s.trustedReadOnlyTools)
      && CodeExecutionCaller in tool.ConfiguredCallers()
      && (tool.source.Extension? ==> SaysCallable(tool))
  {
  }

  /** Routing may take exactly the tools that Python can call and that the model could call directly. */
  lemma AutoRoutableMeans(tools: ToolMap, s: Settings, n: string)
    requires WellKeyed(tools)
    ensures n in AutoRoutable(tools, s) <==> CallableName(n, tools, s) && DirectCaller in tools[n].ConfiguredCallers()
    ensures n in CallableTools(tools, s) <==> CallableName(n, tools, s)
    ensures n in CallableTools(tools, s) ==> CallableTools(tools, s)[n] == tools[n]
  {
    hide Normalize, ToolInfo.ConfiguredCallers;
  }

  // ---- why an allowlisted tool is not callable ----

  datatype Reason =
    | Blocked | NotPresent | BashDisabled | MissingCallable | CallersExclude
    | MutatingBlocked | NeedsTrust | OtherPolicy

  /** The chain of explanations of `reportAllowlistGaps`, for a name that is not callable. */
  function ReasonFor(name: string, tools: ToolMap, s: Settings): Reason {
    if name in s.blockedTools then Blocked
    else if name !in tools then NotPresent else
    var tool := tools[name];
    if tool.name == "bash" && !s.allowBash then BashDisabled
    else if !tool.IsBuiltin() && !DeclaredCallable(tool) then MissingCallable
    else if CodeExecutionCaller !in tool.ConfiguredCallers() then CallersExclude
    else if !s.allowMutations && !tool.isReadOnly then MutatingBlocked
    else if !s.allowMutations && !tool.IsBuiltin() && !TrustedReadOnlyCustom(tool, s) then NeedsTrust
    else OtherPolicy
  }

  /** The condition a reason names, as the filter tests it. */
  predicate FilterRejects(reason: Reason, name: string, tools: ToolMap, s: Settings) {
    match reason
    case Blocked => name in s.blockedTools
    case NotPresent => name !in tools
    case OtherPolicy => false
    case _ =>
      name in tools
      && var tool := tools[name];
         match reason
         case BashDisabled => name == "bash" && !s.allowBash
         case MissingCallable => !tool.IsBuiltin() && !DeclaredCallable(tool)
         case CallersExclude => CodeExecutionCaller !in tool.ConfiguredCallers()
         case MutatingBlocked => !s.allowMutations && !tool.isReadOnly && !TrustedReadOnlyCustom(tool, s)
         case _ => !s.allowMutations && !tool.IsBuiltin() && !TrustedReadOnlyCustom(tool, s)
  }

  /** Each of these conditions alone keeps a name from being callable. */
  lemma RejectionIsReal(reason: Reason, name: string, tools: ToolMap, s: Settings)
    requires WellKeyed(tools) && FilterRejects(reason, name, tools, s)
    ensures !CallableName(name, tools, s)
  {
  }

  /** For an allowlisted name that is not callable the explanation is one of the filter's own reasons,
      and the catch-all is reached exactly for a `code_execution` that nothing else keeps out. */
  lemma ExplanationIsTrue(name: string, tools: ToolMap, s: Settings)
    requires WellKeyed(tools) && Allowlisted(name, s) && !CallableName(name, tools, s)
    ensures name != "code_execution" ==> FilterRejects(ReasonFor(name, tools, s), name, tools, s)
    ensures ReasonFor(name, tools, s) == OtherPolicy <==>
      && name == "code_execution" && name in tools
      && (forall reason :: !FilterRejects(reason, name, tools, s))
      && (s.allowMutations || tools[name].isReadOnly)
  {
    if ReasonFor(name, tools, s) != OtherPolicy && name == "code_execution" && name in tools
       && (s.allowMutations || tools[name].isReadOnly) {
      assert FilterRejects(ReasonFor(name, tools, s), name, tools, s);
    }
  }

  /** The filter in one sentence: allowlisted if there is an allowlist, not `code_execution`, not an
      opt-in tool that was not asked for, and rejected for no reason. */
  lemma CallableIff(name: string, tools: ToolMap, s: Settings)
    requires WellKeyed(tools)
    ensures CallableName(name, tools, s) <==>
      && name != "code_execution"
      && (s.callableTools.Some? ==> Allowlisted(name, s))
      && (name in tools && IsOptIn(tools[name]) ==> Allowlisted(name, s))
      && (forall reason :: !FilterRejects(reason, name, tools, s))
  {
    if !CallableName(name, tools, s) && name != "code_execution" && Allowlisted(name, s) {
      ExplanationIsTrue(name, tools, s);
    } else if name in tools {
      var tool := tools[name];
      assert name in s.blockedTools ==> FilterRejects(Blocked, name, tools, s);
      assert name == "bash" && !s.allowBash ==> FilterRejects(BashDisabled, name, tools, s);
      assert !tool.IsBuiltin() && !DeclaredCallable(tool) ==> FilterRejects(MissingCallable, name, tools, s);
      assert CodeExecutionCaller !in tool.ConfiguredCallers() ==> FilterRejects(CallersExclude, name, tools, s);
      assert !s.allowMutations && !tool.isReadOnly && !TrustedReadOnlyCustom(tool, s) ==>
        FilterRejects(MutatingBlocked, name, tools, s);
      assert !s.allowMutations && !tool.IsBuiltin() && !TrustedReadOnlyCustom(tool, s) ==>
        FilterRejects(NeedsTrust, name, tools, s);
    } else {
      assert FilterRejects(NotPresent, name, tools, s);
    }
  }

  /** Both on the maps the registry builds, with nothing assumed but that builtins are stored under their
      names. */
  lemma BuiltMapIsExplained(ops: seq<RegistryOp>, builtins: ToolMap, active: seq<string>, piTools: seq<PiTool>,
                            name: string, s: Settings)
    requires WellKeyed(builtins)
    ensures WellKeyed(ApplyAll(EMPTY, ops).executors)
    ensures var tools := BuildMap(builtins, ApplyAll(EMPTY, ops), active, piTools);
      Allowlisted(name, s) && !CallableName(name, tools, s) ==>
        if name == "code_execution" && name in tools && (forall reason :: !FilterRejects(reason, name, tools, s))
           && (s.allowMutations || tools[name].isReadOnly)
        then ReasonFor(name, tools, s) == OtherPolicy
        else ReasonFor(name, tools, s) != OtherPolicy
             && (name != "code_execution" ==> FilterRejects(ReasonFor(name, tools, s), name, tools, s))
  {
    BuiltMapIsWellKeyed(ops, builtins, active, piTools);
    var tools := BuildMap(builtins, ApplyAll(EMPTY, ops), active, piTools);
    hide BuildMap, ApplyAll, ReasonFor, FilterRejects, CallableName;
    if Allowlisted(name, s) && !CallableName(name, tools, s) {
      ExplanationIsTrue(name, tools, s);
    }
  }

  datatype Gap = Gap(name: string, reason: Reason)

  /** `[...new Set(list)]`. */
  function Distinct(names: seq<string>): (d: seq<string>)
    ensures forall n :: n in d <==> n in names
    ensures forall i, j :: 0 <= i < j < |d| ==> d[i] != d[j]
  {
    if names == [] then [] else
    var front := Distinct(names[..|names| - 1]);
    if names[|names| - 1] in front then front else front + [names[|names| - 1]]
  }

  function GapsOf(names: seq<string>, tools: ToolMap, s: Settings): seq<Gap> {
    if names == [] then [] else
    var front, name := GapsOf(names[..|names| - 1], tools, s), names[|names| - 1];
    if CallableName(name, tools, s) then front else front + [Gap(name, ReasonFor(name, tools, s))]
  }

  lemma {:induction false} GapsNameTheUncallable(names: seq<string>, tools: ToolMap, s: Settings)
    requires forall i, j :: 0 <= i < j < |names| ==> names[i] != names[j]
    ensures var gaps := GapsOf(names, tools, s);
      && (forall i :: 0 <= i < |gaps| ==> gaps[i].name in names && !CallableName(gaps[i].name, tools, s)
                                          && gaps[i].reason == ReasonFor(gaps[i].name, tools, s))
      && (forall i, j :: 0 <= i < j < |gaps| ==> gaps[i].name != gaps[j].name)
      && (forall n :: n in names && !CallableName(n, tools, s) ==> Gap(n, ReasonFor(n, tools, s)) in gaps)
  {
    if names != [] {
      GapsNameTheUncallable(names[..|names| - 1], tools, s);
      assert names == names[..|names| - 1] + [names[|names| - 1]];
    }
  }

  predicate Named(gaps: seq<Gap>, name: string) {
    exists i :: 0 <= i < |gaps| && gaps[i].name == name
  }

  /** Each allowlisted name that is not callable gets exactly one reason; no other name gets any. */
  lemma OneReasonEach(tools: ToolMap, s: Settings, name: string)
    requires s.callableTools.Some?
    ensures var gaps := GapsOf(Distinct(s.callableTools.value), tools, s);
      && (Named(gaps, name) <==> Allowlisted(name, s) && !CallableName(name, tools, s))
      && (forall i, j :: 0 <= i < |gaps| && 0 <= j < |gaps| && gaps[i].name == name == gaps[j].name ==> i == j)
  {
    hide CallableName, ReasonFor;
    var names := Distinct(s.callableTools.value);
    var gaps := GapsOf(names, tools, s);
    GapsNameTheUncallable(names, tools, s);
    if Named(gaps, name) {
      var i :| 0 <= i < |gaps| && gaps[i].name == name;
      assert name in names;
    }
    if name in names && !CallableName(name, tools, s) {
      var i :| 0 <= i < |gaps| && gaps[i] == Gap(name, ReasonFor(name, tools, s));
      assert gaps[i].name == name;
    }
  }

  // ---- the registry as an object ----

  class ToolRegistry {
    var customTools: ToolMap
    var extensionOwnedToolNames: set<string>
    var extensionExecutors: ToolMap

    ghost function View(): Registry
      reads this
    {
      Registry(customTools, extensionOwnedToolNames, extensionExecutors)
    }

    constructor ()
      ensures View() == EMPTY
    {
      customTools, extensionOwnedToolNames, extensionExecutors := map[], {}, map[];
    }

    method UpsertTool(d: Definition)
      modifies this
      ensures View() == Upsert(old(View()), d)
    {
      extensionOwnedToolNames := extensionOwnedToolNames + {d.name};
      customTools := customTools[d.name := InfoOf(d)];
    }

    method RemoveTool(name: string) returns (existed: bool)
      modifies this
      ensures View() == Remove(old(View()), name) && existed == (name in old(customTools))
    {
      extensionOwnedToolNames := extensionOwnedToolNames + {name};
      existed := name in customTools;
      customTools := customTools - {name};
    }

    method IngestExtensionExecutors(definitions: seq<Definition>)
      modifies this
      ensures View() == ApplyAll(old(View()), seq(|definitions|,
        i requires 0 <= i < |definitions| => IngestOp(definitions[i])))
    {
      ghost var ops := seq(|definitions|, i requires 0 <= i < |definitions| => IngestOp(definitions[i]));
      for i := 0 to |definitions|
        invariant View() == ApplyAll(old(View()), ops[..i])
      {
        assert ops[..i + 1][..i] == ops[..i];
        var d := definitions[i].(description := "");
        extensionExecutors := extensionExecutors[d.name := InfoOf(d)];
      }
      assert ops[..|definitions|] == ops;
    }

    method BuildToolMap(builtins: ToolMap, active: seq<string>, piTools: seq<PiTool>) returns (tools: ToolMap)
      requires WellKeyed(extensionExecutors)
      ensures tools == BuildMap(builtins, View(), active, piTools)
    {
      tools := OverlayExecutors(builtins);
      tools := tools + customTools;
      assert tools == BaseMap(builtins, View());
      hide BaseMap, AddPiTool;
      for i := 0 to |piTools|
        invariant tools == AddPiTools(BaseMap(builtins, View()), View(), active, piTools[..i])
      {
        assert piTools[..i + 1][..i] == piTools[..i];
        tools := PlacePiTool(tools, active, piTools[i]);
      }
      assert piTools[..|piTools|] == piTools;
    }

    /** The loop over the hashline executors. */
    method OverlayExecutors(builtins: ToolMap) returns (tools: ToolMap)
      requires WellKeyed(extensionExecutors)
      ensures tools == builtins + (map n | n in extensionExecutors :: OverlayExecutor(builtins, extensionExecutors[n]))
    {
      tools := builtins;
      var todo := extensionExecutors.Keys;
      while todo != {}
        invariant todo <= extensionExecutors.Keys
        invariant tools.Keys == builtins.Keys + (extensionExecutors.Keys - todo)
        invariant forall n :: n in tools ==>
          tools[n] == (if n in extensionExecutors.Keys - todo then OverlayExecutor(builtins, extensionExecutors[n])
            else builtins[n])
        decreases todo
      {
        hide OverlayExecutor;
        var name :| name in todo;
        assert OverlayExecutor(tools, extensionExecutors[name])
          == OverlayExecutor(builtins, extensionExecutors[name]) by {
          OverlayLooksAtItsName(tools, builtins, extensionExecutors[name]);
        }
        tools := tools[name := OverlayExecutor(tools, extensionExecutors[name])];
        todo := todo - {name};
      }
    }

    /** The body of the loop over Pi's tools. */
    method PlacePiTool(tools: ToolMap, active: seq<string>, pi: PiTool) returns (placed: ToolMap)
      ensures placed == AddPiTool(tools, View(), active, pi)
    {
      if pi.name in extensionOwnedToolNames && pi.name !in customTools {
        return tools;
      }
      var shouldUsePiOverride := pi.name in active;
      var hasInternalExecute := pi.execute.Some?;
      if pi.name in tools {
        var existing := tools[pi.name];
        if existing.IsBuiltin() && !shouldUsePiOverride {
          return tools;
        }
        var mergedPtc := NormalizeStored(if pi.ptc.Some? then pi.ptc else existing.ptc);
        var (isReadOnly, ptc) := ClassifyTool(pi.name, mergedPtc);
        return tools[pi.name := existing.(
          description := pi.description, ptc := ptc, isReadOnly := isReadOnly,
          execute := if shouldUsePiOverride && hasInternalExecute then Executor(pi.execute.value)
            else existing.execute)];
      }
      var (isReadOnly, ptc) := ClassifyTool(pi.name, pi.ptc);
      return tools[pi.name := ToolInfo(
        pi.name, pi.description, Extension, isReadOnly, ptc,
        if shouldUsePiOverride && hasInternalExecute then Executor(pi.execute.value) else Unavailable)];
    }

    /** `reportAllowlistGaps`: one line per allowlisted name that the filter left out. */
    method ReportAllowlistGaps(tools: ToolMap, callable: ToolMap, s: Settings) returns (gaps: seq<Gap>)
      requires callable == CallableTools(tools, s)
      ensures gaps == if s.callableTools.Some? then GapsOf(Distinct(s.callableTools.value), tools, s) else []
    {
      gaps := [];
      if s.callableTools.None? {
        return;
      }
      var allowSet := Distinct(s.callableTools.value);
      for i := 0 to |allowSet|
        invariant gaps == GapsOf(allowSet[..i], tools, s)
      {
        assert allowSet[..i + 1][..i] == allowSet[..i];
        if allowSet[i] !in callable {
          gaps := gaps + [Gap(allowSet[i], ReasonFor(allowSet[i], tools, s))];
        }
      }
      assert allowSet[..|allowSet|] == allowSet;
    }
  }
}
