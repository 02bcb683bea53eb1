/** Custom tool files: loading a directory at start, and keeping the registry in step with it while
    files are created, edited, renamed inside, broken and deleted. Reconciling a file is one step. */
module HotReload {
  import opened Wrappers
  import opened ToolRegistry

  // ---- the directory ----

  /** What importing a file gives: a tool definition, or an error. */
  datatype Content = Invalid | Tool(definition: Definition)

  /** A file with its signature, the modification time and size that polling compares. */
  datatype File = File(content: Content, signature: nat)

  type Directory = map<string, File>

  function ValidFiles(dir: Directory): map<string, Definition> {
    map f | f in dir && dir[f].content.Tool? :: dir[f].content.definition
  }

  function SignatureOf(dir: Directory, f: string): Option<nat> {
    if f in dir then Some(dir[f].signature) else None
  }

  // ---- the manager as a value ----

  datatype Manager = Manager(
    fileToTool: map<string, string>, registry: Registry, active: seq<string>, signatures: map<string, nat>)

  /** `onToolSetChanged` rebuilds the `code_execution` tool, and throws on clashing helper names. */
  type Callback = (Registry, seq<string>) -> bool

  const EMPTY_MANAGER := Manager(map[], EMPTY, [], map[])

  function DropName(names: seq<string>, name: string): (kept: seq<string>)
    ensures forall n :: n in kept <==> n in names && n != name
  {
    if names == [] then []
    else DropName(names[..|names| - 1], name) + (if names[|names| - 1] == name then [] else [names[|names| - 1]])
  }

  function Deactivate(m: Manager, name: string): Manager {
    m.(registry := Remove(m.registry, name), active := DropName(m.active, name))
  }

  function Activate(active: seq<string>, d: Definition): seq<string> {
    if d.ptc.Some? && d.ptc.value.callers.Some? && DirectCaller !in d.ptc.value.callers.value then active
    else if d.name in active then active
    else active + [d.name]
  }

  /** `registerLoadedTool` up to its callback. A previous name that is empty is falsy and stays. */
  function Register(m: Manager, f: string, d: Definition): Manager {
    var previous := if f in m.fileToTool then m.fileToTool[f] else "";
    var cleared := if previous != "" && previous != d.name then Deactivate(m, previous) else m;
    cleared.(registry := Upsert(cleared.registry, d), active := Activate(cleared.active, d),
             fileToTool := cleared.fileToTool[f := d.name])
  }

  /** `removeFileTool`; a file whose tool has the empty name is left alone. */
  function RemoveFile(m: Manager, f: string): Manager {
    if f !in m.fileToTool || m.fileToTool[f] == "" then m
    else Deactivate(m, m.fileToTool[f]).(fileToTool := m.fileToTool - {f})
  }

  function Refresh(m: Manager, dir: Directory, f: string): Manager {
    m.(signatures := if f in dir then m.signatures[f := dir[f].signature] else m.signatures - {f})
  }

  predicate CallbackThrows(m: Manager, throws: Callback) {
    throws(m.registry, m.active)
  }

  /** `reconcileFile`: an error while loading or registering removes the file's tool. */
  function Reconcile(m: Manager, dir: Directory, f: string, throws: Callback): Manager {
    var loaded :=
      if f !in dir || dir[f].content.Invalid? then RemoveFile(m, f) else
      var registered := Register(m, f, dir[f].content.definition);
      if CallbackThrows(registered, throws) then RemoveFile(registered, f) else registered;
    Refresh(loaded, dir, f)
  }

  /** `start`: every file of the listing in turn; an error is logged and what was registered stays. */
  function Start(dir: Directory, listing: seq<string>): Manager {
    if listing == [] then EMPTY_MANAGER else
    StartFile(Start(dir, listing[..|listing| - 1]), dir, listing[|listing| - 1])
  }

  function StartFile(m: Manager, dir: Directory, f: string): Manager {
    Refresh(if f in dir && dir[f].content.Tool? then Register(m, f, dir[f].content.definition) else m, dir, f)
  }

  // ---- agreement with a set of loaded definitions ----

  predicate DistinctNames(loaded: map<string, Definition>) {
    forall f, g :: f in loaded && g in loaded && loaded[f].name == loaded[g].name ==> f == g
  }

  /** The manager holds exactly these definitions: each under its file, each registered, none twice. */
  ghost predicate Agrees(m: Manager, loaded: map<string, Definition>) {
    && m.fileToTool.Keys == loaded.Keys
    && (forall f :: f in loaded ==> m.fileToTool[f] == loaded[f].name)
    && DistinctNames(loaded)
    && (forall f :: f in loaded ==>
          loaded[f].name in m.registry.custom && m.registry.custom[loaded[f].name] == InfoOf(loaded[f]))
    && (forall n :: n in m.registry.custom ==> HasFile(loaded, n))
  }

  ghost predicate HasFile(loaded: map<string, Definition>, n: string) {
    exists f :: f in loaded && loaded[f].name == n
  }

  /** The definitions determine the registry's custom tools. */
  lemma AgreementDetermines(a: Manager, b: Manager, loaded: map<string, Definition>)
    requires Agrees(a, loaded) && Agrees(b, loaded)
    ensures a.fileToTool == b.fileToTool && a.registry.custom == b.registry.custom
  {
    forall n | n in a.registry.custom
      ensures n in b.registry.custom && a.registry.custom[n] == b.registry.custom[n]
    {
      var f :| f in loaded && loaded[f].name == n;
    }
    forall n | n in b.registry.custom
      ensures n in a.registry.custom
    {
      var f :| f in loaded && loaded[f].name == n;
    }
  }

  function LoadedAfter(loaded: map<string, Definition>, dir: Directory, f: string): map<string, Definition> {
    if f in dir && dir[f].content.Tool? then loaded[f := dir[f].content.definition] else loaded - {f}
  }

  predicate OwnedByOther(m: Manager, f: string, name: string) {
    exists g :: g in m.fileToTool && g != f && m.fileToTool[g] == name
  }

  predicate DropsEmptyName(m: Manager, f: string, name: Option<string>) {
    f in m.fileToTool && m.fileToTool[f] == "" && name != Some("")
  }

  /** Conditions a caller can check before a reconcile: it loads no name another file owns, it does not
      have to drop a tool with the empty name, and the callback accepts the new tool set. */
  predicate Safe(m: Manager, dir: Directory, f: string, throws: Callback) {
    if f !in dir || dir[f].content.Invalid? then !DropsEmptyName(m, f, None)
    else
      var d := dir[f].content.definition;
      && !OwnedByOther(m, f, d.name)
      && !DropsEmptyName(m, f, Some(d.name))
      && (d.name == "" || !CallbackThrows(Register(m, f, d), throws))
  }

  lemma RemoveEffect(m: Manager, f: string)
    requires f in m.fileToTool && m.fileToTool[f] != ""
    ensures RemoveFile(m, f).fileToTool == m.fileToTool - {f}
    ensures RemoveFile(m, f).registry.custom == m.registry.custom - {m.fileToTool[f]}
  {
  }

  lemma RemoveOwners(m: Manager, loaded: map<string, Definition>, f: string, name: string)
    requires Agrees(m, loaded) && f in loaded && name in m.registry.custom && name != m.fileToTool[f]
    ensures HasFile(loaded - {f}, name)
  {
    hide InfoOf, DistinctNames;
    assert HasFile(loaded, name);
    var g :| g in loaded && loaded[g].name == name;
    assert g in loaded - {f} && (loaded - {f})[g].name == name;
  }

  lemma DropKeepsDistinct(loaded: map<string, Definition>, f: string)
    requires DistinctNames(loaded)
    ensures DistinctNames(loaded - {f})
  {
  }

  lemma RemoveHas(m: Manager, loaded: map<string, Definition>, f: string, g: string)
    requires Agrees(m, loaded) && f in loaded && m.fileToTool[f] != "" && g in loaded && g != f
    ensures var n := RemoveFile(m, f);
      && g in n.fileToTool && n.fileToTool[g] == loaded[g].name
      && loaded[g].name in n.registry.custom && n.registry.custom[loaded[g].name] == InfoOf(loaded[g])
  {
    RemoveEffect(m, f);
    hide InfoOf, RemoveFile, HasFile;
    assert loaded[g].name != loaded[f].name;
  }

  lemma RemoveLoadedAgrees(m: Manager, loaded: map<string, Definition>, f: string)
    requires Agrees(m, loaded) && f in loaded && m.fileToTool[f] != ""
    ensures Agrees(RemoveFile(m, f), loaded - {f})
  {
    var n, after := RemoveFile(m, f), loaded - {f};
    RemoveEffect(m, f);
    DropKeepsDistinct(loaded, f);
    assert n.fileToTool.Keys == after.Keys;
    forall g | g in loaded && g != f
      ensures g in n.fileToTool && n.fileToTool[g] == loaded[g].name
      ensures loaded[g].name in n.registry.custom && n.registry.custom[loaded[g].name] == InfoOf(loaded[g])
    {
      RemoveHas(m, loaded, f, g);
    }
    forall name | name in n.registry.custom
      ensures HasFile(after, name)
    {
      RemoveOwners(m, loaded, f, name);
    }
    hide InfoOf, RemoveFile, HasFile, DistinctNames;
  }

  lemma RemoveAgrees(m: Manager, loaded: map<string, Definition>, f: string)
    requires Agrees(m, loaded)
    ensures Agrees(RemoveFile(m, f), loaded - {f}) <==> !DropsEmptyName(m, f, None)
  {
    if f !in loaded {
      assert loaded - {f} == loaded;
    } else if m.fileToTool[f] != "" {
      RemoveLoadedAgrees(m, loaded, f);
    } else {
      assert f in RemoveFile(m, f).fileToTool && f !in loaded - {f};
    }
  }

  lemma RegisterEffect(m: Manager, f: string, d: Definition)
    ensures var n := Register(m, f, d);
      && n.fileToTool == m.fileToTool[f := d.name]
      && n.registry.custom
         == (if f in m.fileToTool && m.fileToTool[f] != "" && m.fileToTool[f] != d.name
             then m.registry.custom - {m.fileToTool[f]} else m.registry.custom)[d.name := InfoOf(d)]
  {
  }

  /** No other loaded file has the name. */
  lemma NameIsFree(m: Manager, loaded: map<string, Definition>, f: string, name: string)
    requires Agrees(m, loaded) && !OwnedByOther(m, f, name)
    ensures forall g :: g in loaded && g != f ==> loaded[g].name != name
  {
    forall g | g in loaded && g != f
      ensures loaded[g].name != name
    {
      assert m.fileToTool[g] == loaded[g].name;
    }
  }

  lemma RegisterOwners(m: Manager, loaded: map<string, Definition>, f: string, d: Definition)
    requires Agrees(m, loaded) && !OwnedByOther(m, f, d.name) && !DropsEmptyName(m, f, Some(d.name))
    ensures forall n :: n in Register(m, f, d).registry.custom ==> HasFile(loaded[f := d], n)
  {
    RegisterEffect(m, f, d);
    hide Register, InfoOf;
    var after := loaded[f := d];
    forall n | n in Register(m, f, d).registry.custom
      ensures HasFile(after, n)
    {
      if n == d.name {
        assert after[f].name == n;
      } else {
        assert HasFile(loaded, n);
        var g :| g in loaded && loaded[g].name == n;
        assert g in after && after[g].name == n;
      }
    }
  }

  lemma RegisterDistinct(m: Manager, loaded: map<string, Definition>, f: string, d: Definition)
    requires Agrees(m, loaded) && !OwnedByOther(m, f, d.name)
    ensures DistinctNames(loaded[f := d])
  {
    NameIsFree(m, loaded, f, d.name);
    hide InfoOf, HasFile, OwnedByOther;
  }

  lemma RegisterHas(m: Manager, loaded: map<string, Definition>, f: string, d: Definition, g: string)
    requires Agrees(m, loaded) && !OwnedByOther(m, f, d.name) && g in loaded[f := d]
    ensures var n, e := Register(m, f, d), loaded[f := d][g];
      e.name in n.registry.custom && n.registry.custom[e.name] == InfoOf(e)
  {
    RegisterEffect(m, f, d);
    NameIsFree(m, loaded, f, d.name);
    hide Register, InfoOf, HasFile, OwnedByOther;
    if g != f {
      assert loaded[g].name in m.registry.custom;
      if f in loaded {
        assert loaded[g].name != loaded[f].name;
      }
    }
  }

  lemma RegisterAgrees(m: Manager, loaded: map<string, Definition>, f: string, d: Definition)
    requires Agrees(m, loaded) && !OwnedByOther(m, f, d.name) && !DropsEmptyName(m, f, Some(d.name))
    ensures Agrees(Register(m, f, d), loaded[f := d])
  {
    RegisterOwners(m, loaded, f, d);
    RegisterEffect(m, f, d);
    RegisterDistinct(m, loaded, f, d);
    var after := loaded[f := d];
    forall g | g in after
      ensures after[g].name in Register(m, f, d).registry.custom
           && Register(m, f, d).registry.custom[after[g].name] == InfoOf(after[g])
    {
      RegisterHas(m, loaded, f, d, g);
    }
    hide Register, InfoOf, HasFile, DistinctNames, OwnedByOther;
  }

  lemma CollisionDisagrees(m: Manager, loaded: map<string, Definition>, f: string, d: Definition, any: Manager)
    requires Agrees(m, loaded) && OwnedByOther(m, f, d.name)
    ensures !Agrees(any, loaded[f := d])
  {
    var g :| g in m.fileToTool && g != f && m.fileToTool[g] == d.name;
    assert g in loaded[f := d] && loaded[f := d][g].name == loaded[f := d][f].name;
  }

  lemma EmptyNameStays(m: Manager, loaded: map<string, Definition>, f: string, d: Definition)
    requires Agrees(m, loaded) && DropsEmptyName(m, f, Some(d.name))
    ensures !Agrees(Register(m, f, d), loaded[f := d])
  {
    RegisterEffect(m, f, d);
    hide Register, InfoOf;
    assert "" in Register(m, f, d).registry.custom;
    assert !HasFile(loaded[f := d], "");
  }

  lemma RolledBackDisagrees(m: Manager, loaded: map<string, Definition>, f: string, d: Definition)
    requires d.name != ""
    ensures !Agrees(RemoveFile(Register(m, f, d), f), loaded[f := d])
  {
    RegisterEffect(m, f, d);
    hide Register, InfoOf;
    assert f !in RemoveFile(Register(m, f, d), f).fileToTool && f in loaded[f := d];
  }

  lemma EmptyNameIsNotRolledBack(m: Manager, f: string, d: Definition)
    requires d.name == ""
    ensures RemoveFile(Register(m, f, d), f) == Register(m, f, d)
  {
    RegisterEffect(m, f, d);
    hide Register, InfoOf;
  }

  lemma RefreshKeepsAgreement(m: Manager, dir: Directory, f: string, loaded: map<string, Definition>)
    ensures Agrees(Refresh(m, dir, f), loaded) <==> Agrees(m, loaded)
  {
    hide InfoOf;
  }

  /** Reconciling a file keeps the manager in agreement with what the files hold exactly when the step
      is safe. */
  lemma ReconcileAgreesIff(m: Manager, loaded: map<string, Definition>, dir: Directory, f: string, throws: Callback)
    requires Agrees(m, loaded)
    ensures Agrees(Reconcile(m, dir, f, throws), LoadedAfter(loaded, dir, f)) <==> Safe(m, dir, f, throws)
  {
    hide Agrees, Register, RemoveFile, Refresh, OwnedByOther, DropsEmptyName, CallbackThrows;
    if f !in dir || dir[f].content.Invalid? {
      RemoveAgrees(m, loaded, f);
      RefreshKeepsAgreement(RemoveFile(m, f), dir, f, loaded - {f});
    } else {
      var d := dir[f].content.definition;
      var registered := Register(m, f, d);
      var kept := if CallbackThrows(registered, throws) then RemoveFile(registered, f) else registered;
      RefreshKeepsAgreement(kept, dir, f, loaded[f := d]);
      if d.name == "" {
        EmptyNameIsNotRolledBack(m, f, d);
      } else {
        RolledBackDisagrees(m, loaded, f, d);
      }
      if OwnedByOther(m, f, d.name) {
        CollisionDisagrees(m, loaded, f, d, kept);
      } else if DropsEmptyName(m, f, Some(d.name)) {
        EmptyNameStays(m, loaded, f, d);
      } else {
        RegisterAgrees(m, loaded, f, d);
      }
    }
  }

  // ---- fresh start ----

  ghost predicate Lists(listing: seq<string>, dir: Directory) {
    && (forall f :: f in listing <==> f in dir)
    && (forall i, j :: 0 <= i < j < |listing| ==> listing[i] != listing[j])
  }

  function Restrict(loaded: map<string, Definition>, names: seq<string>): map<string, Definition> {
    map f | f in loaded && f in names :: loaded[f]
  }

  lemma {:induction false} StartAgreesOn(dir: Directory, listing: seq<string>)
    requires DistinctNames(ValidFiles(dir))
    requires forall i, j :: 0 <= i < j < |listing| ==> listing[i] != listing[j]
    ensures Agrees(Start(dir, listing), Restrict(ValidFiles(dir), listing))
  {
    hide ValidFiles, StartFile;
    var all := ValidFiles(dir);
    if listing == [] {
      assert Restrict(all, listing) == map[];
    } else {
      var front, f := listing[..|listing| - 1], listing[|listing| - 1];
      StartAgreesOn(dir, front);
      RestrictSnoc(all, front, f);
      assert listing == front + [f];
      assert Start(dir, listing) == StartFile(Start(dir, front), dir, f);
      hide Agrees, Restrict, Start, DistinctNames;
      StartFileAgrees(dir, Start(dir, front), Restrict(all, front), f);
    }
  }

  lemma RestrictSnoc(all: map<string, Definition>, front: seq<string>, f: string)
    ensures Restrict(all, front + [f]) == if f in all then Restrict(all, front)[f := all[f]] else Restrict(all, front)
    ensures forall g :: g in Restrict(all, front) ==> g in front && g in all && Restrict(all, front)[g] == all[g]
  {
  }

  lemma StartFileAgrees(dir: Directory, m: Manager, before: map<string, Definition>, f: string)
    requires DistinctNames(ValidFiles(dir)) && f !in before
    requires forall g :: g in before ==> g in ValidFiles(dir) && before[g] == ValidFiles(dir)[g]
    requires Agrees(m, before)
    ensures Agrees(StartFile(m, dir, f), if f in ValidFiles(dir) then before[f := ValidFiles(dir)[f]] else before)
  {
    hide Agrees, Register, OwnedByOther, DropsEmptyName, Refresh, DistinctNames;
    if f in dir && dir[f].content.Tool? {
      var d := dir[f].content.definition;
      NewFileIsFree(dir, m, before, f);
      RegisterAgrees(m, before, f, d);
      RefreshKeepsAgreement(Register(m, f, d), dir, f, before[f := d]);
    } else {
      RefreshKeepsAgreement(m, dir, f, before);
    }
  }

  /** With distinct names in the directory, a file not yet registered takes a free name. */
  lemma NewFileIsFree(dir: Directory, m: Manager, before: map<string, Definition>, f: string)
    requires DistinctNames(ValidFiles(dir)) && f in ValidFiles(dir) && f !in before
    requires forall g :: g in before ==> g in ValidFiles(dir) && before[g] == ValidFiles(dir)[g]
    requires Agrees(m, before)
    ensures !OwnedByOther(m, f, ValidFiles(dir)[f].name) && !DropsEmptyName(m, f, Some(ValidFiles(dir)[f].name))
  {
    hide InfoOf, HasFile;
    forall g | g in m.fileToTool
      ensures m.fileToTool[g] != ValidFiles(dir)[f].name
    {
      assert g in before && m.fileToTool[g] == before[g].name;
    }
  }

  lemma StartAgrees(dir: Directory, listing: seq<string>)
    requires DistinctNames(ValidFiles(dir)) && Lists(listing, dir)
    ensures Agrees(Start(dir, listing), ValidFiles(dir))
  {
    StartAgreesOn(dir, listing);
    assert Restrict(ValidFiles(dir), listing) == ValidFiles(dir);
  }

  // ---- runs ----

  /** The directory, the manager, what it last loaded from each file, and the files changed since. */
  datatype World = World(dir: Directory, manager: Manager, loaded: map<string, Definition>, dirty: set<string>)

  datatype Event =
    | Write(name: string, file: File)   // create, edit, rename the tool inside, or invalidate
    | Delete(name: string)
    | ReconcileFile(name: string)

  function Next(w: World, e: Event, throws: Callback): World {
    match e
    case Write(f, file) => w.(dir := w.dir[f := file], dirty := w.dirty + {f})
    case Delete(f) => w.(dir := w.dir - {f}, dirty := w.dirty + {f})
    case ReconcileFile(f) =>
      w.(manager := Reconcile(w.manager, w.dir, f, throws), loaded := LoadedAfter(w.loaded, w.dir, f),
        dirty := w.dirty - {f})
  }

  function Run(w: World, events: seq<Event>, throws: Callback): World {
    if events == [] then w else Next(Run(w, events[..|events| - 1], throws), events[|events| - 1], throws)
  }

  /** Every reconcile of the run is safe when it happens. */
  predicate AllSafe(w: World, events: seq<Event>, throws: Callback) {
    events == []
    || (AllSafe(w, events[..|events| - 1], throws)
        && var before := Run(w, events[..|events| - 1], throws);
           events[|events| - 1].ReconcileFile? ==> Safe(before.manager, before.dir, events[|events| - 1].name, throws))
  }

  /** Files that have not changed since their last reconcile are loaded as they are. */
  ghost predicate CleanFilesLoaded(w: World) {
    forall f :: f !in w.dirty ==>
      (f in w.loaded <==> f in ValidFiles(w.dir)) && (f in w.loaded ==> w.loaded[f] == ValidFiles(w.dir)[f])
  }

  ghost predicate Inv(w: World) {
    Agrees(w.manager, w.loaded) && CleanFilesLoaded(w)
  }

  lemma {:induction false} RunKeepsInv(w: World, events: seq<Event>, throws: Callback)
    requires Inv(w) && AllSafe(w, events, throws)
    ensures Inv(Run(w, events, throws))
  {
    hide Agrees, Safe, Reconcile;
    if events != [] {
      var before := Run(w, events[..|events| - 1], throws);
      RunKeepsInv(w, events[..|events| - 1], throws);
      if events[|events| - 1].ReconcileFile? {
        ReconcileAgreesIff(before.manager, before.loaded, before.dir, events[|events| - 1].name, throws);
      }
    }
  }

  predicate Injective(m: map<string, string>) {
    forall f, g :: f in m && g in m && m[f] == m[g] ==> f == g
  }

  function Started(dir: Directory, listing: seq<string>): World {
    World(dir, Start(dir, listing), ValidFiles(dir), {})
  }

  lemma AgreedIsInjective(m: Manager, loaded: map<string, Definition>)
    requires Agrees(m, loaded)
    ensures Injective(m.fileToTool)
  {
    hide InfoOf, HasFile;
  }

  lemma CleanIsLoaded(w: World)
    requires CleanFilesLoaded(w) && w.dirty == {}
    ensures w.loaded == ValidFiles(w.dir)
  {
  }

  /** Hot reload refines a fresh load: after any run of writes, deletes and safe reconciles in which
      every changed file has been reconciled, each tool name belongs to one file, and files and custom
      tools are those of a fresh start on the directory as it is now. */
  lemma HotReloadIsFreshLoad(dir: Directory, listing: seq<string>, events: seq<Event>, throws: Callback,
                             listingNow: seq<string>)
    requires DistinctNames(ValidFiles(dir)) && Lists(listing, dir)
    requires AllSafe(Started(dir, listing), events, throws)
    requires var now := Run(Started(dir, listing), events, throws); now.dirty == {} && Lists(listingNow, now.dir)
    ensures var now := Run(Started(dir, listing), events, throws);
      var anew := Start(now.dir, listingNow);
      && Injective(now.manager.fileToTool)
      && now.manager.fileToTool == anew.fileToTool
      && now.manager.registry.custom == anew.registry.custom
  {
    StartAgrees(dir, listing);
    hide Agrees, Start, Next, Run, AllSafe;
    assert CleanFilesLoaded(Started(dir, listing));
    hide ValidFiles, CleanFilesLoaded, Injective, DistinctNames;
    RunKeepsInv(Started(dir, listing), events, throws);
    var now := Run(Started(dir, listing), events, throws);
    CleanIsLoaded(now);
    AgreedIsInjective(now.manager, now.loaded);
    StartAgrees(now.dir, listingNow);
    AgreementDetermines(now.manager, Start(now.dir, listingNow), now.loaded);
  }

  // ---- the active list ----

  predicate DirectCallsAllowed(tool: ToolInfo) {
    tool.ptc.Some? && tool.ptc.value.callers.Some? ==> DirectCaller in tool.ptc.value.callers.value
  }

  /** Every registered custom tool that allows direct calls is active, and no removed one is. */
  ghost predicate ActiveInv(m: Manager) {
    && (forall n :: n in m.registry.custom && DirectCallsAllowed(m.registry.custom[n]) ==> n in m.active)
    && (forall n :: Retired(m.registry, n) ==> n !in m.active)
  }

  lemma RegisterKeepsActive(m: Manager, f: string, d: Definition)
    requires ActiveInv(m)
    ensures ActiveInv(Register(m, f, d))
  {
    assert DirectCallsAllowed(InfoOf(d)) ==> d.name in Register(m, f, d).active;
    hide InfoOf, DropName, DirectCallsAllowed;
  }

  lemma ReconcileKeepsActive(m: Manager, dir: Directory, f: string, throws: Callback)
    requires ActiveInv(m)
    ensures ActiveInv(Reconcile(m, dir, f, throws))
  {
    if f in dir && dir[f].content.Tool? {
      RegisterKeepsActive(m, f, dir[f].content.definition);
    }
    hide Register, DropName, DirectCallsAllowed, CallbackThrows;
  }

  /** This needs no proviso: name collisions, empty names and rejected tool sets keep it too. */
  lemma {:induction false} ActiveFollowsRegistry(w: World, events: seq<Event>, throws: Callback)
    requires ActiveInv(w.manager)
    ensures ActiveInv(Run(w, events, throws).manager)
  {
    hide ActiveInv, Reconcile;
    if events != [] {
      var before := Run(w, events[..|events| - 1], throws);
      ActiveFollowsRegistry(w, events[..|events| - 1], throws);
      if events[|events| - 1].ReconcileFile? {
        ReconcileKeepsActive(before.manager, before.dir, events[|events| - 1].name, throws);
      }
    }
  }

  lemma {:induction false} StartIsActive(dir: Directory, listing: seq<string>)
    ensures ActiveInv(Start(dir, listing))
  {
    hide Register;
    if listing != [] {
      StartIsActive(dir, listing[..|listing| - 1]);
      var f := listing[|listing| - 1];
      if f in dir && dir[f].content.Tool? {
        RegisterKeepsActive(Start(dir, listing[..|listing| - 1]), f, dir[f].content.definition);
      }
    }
  }

  /** So from any start on, over every run. */
  lemma ActiveFromStart(dir: Directory, listing: seq<string>, events: seq<Event>, throws: Callback)
    ensures ActiveInv(Run(Started(dir, listing), events, throws).manager)
  {
    StartIsActive(dir, listing);
    ActiveFollowsRegistry(Started(dir, listing), events, throws);
  }

  /** Activation adds a tool at the end, once, unless its metadata list callers without the model. */
  lemma ActivateMeans(active: seq<string>, d: Definition)
    ensures var after := Activate(active, d);
      var direct := d.ptc.Some? && d.ptc.value.callers.Some? ==> DirectCaller in d.ptc.value.callers.value;
      && (forall n :: n in after <==> n in active || (n == d.name && direct))
      && after == if direct && d.name !in active then active + [d.name] else active
  {
  }

  lemma {:induction false} DropConcat(a: seq<string>, b: seq<string>, name: string)
    ensures DropName(a + b, name) == DropName(a, name) + DropName(b, name)
  {
    if b == [] {
      assert a + b == a;
    } else {
      DropConcat(a, b[..|b| - 1], name);
      assert (a + b)[..|a + b| - 1] == a + b[..|b| - 1];
    }
  }

  /** No file that is or comes into the directory offers the name to the model. */
  predicate NeverDirect(w: World, events: seq<Event>, n: string) {
    && (forall f :: f in w.dir ==> NotDirect(w.dir[f].content, n))
    && (forall i :: 0 <= i < |events| && events[i].Write? ==> NotDirect(events[i].file.content, n))
  }

  predicate NotDirect(c: Content, n: string) {
    c.Tool? && c.definition.name == n ==>
      && c.definition.ptc.Some? && c.definition.ptc.value.callers.Some?
      && DirectCaller !in c.definition.ptc.value.callers.value
  }

  /** A tool that only Python may call is never put on the active list, over every run. */
  lemma {:induction false} PythonOnlyStaysInactive(w: World, events: seq<Event>, throws: Callback, n: string)
    requires n !in w.manager.active && NeverDirect(w, events, n)
    ensures n !in Run(w, events, throws).manager.active
    ensures forall f :: f in Run(w, events, throws).dir ==> NotDirect(Run(w, events, throws).dir[f].content, n)
  {
    hide NotDirect, Reconcile, LoadedAfter;
    if events != [] {
      var front, e := events[..|events| - 1], events[|events| - 1];
      PythonOnlyStaysInactive(w, front, throws, n);
      var before := Run(w, front, throws);
      if e.ReconcileFile? {
        ReconcileKeepsInactive(before.manager, before.dir, e.name, throws, n);
      }
    }
  }

  lemma ReconcileKeepsInactive(m: Manager, dir: Directory, f: string, throws: Callback, n: string)
    requires n !in m.active && (f in dir ==> NotDirect(dir[f].content, n))
    ensures n !in Reconcile(m, dir, f, throws).active
  {
    if f in dir && dir[f].content.Tool? {
      var d := dir[f].content.definition;
      var cleared := if f in m.fileToTool && m.fileToTool[f] != "" && m.fileToTool[f] != d.name
                     then Deactivate(m, m.fileToTool[f]) else m;
      assert n !in Activate(cleared.active, d);
    }
    hide DropName, Activate, InfoOf;
  }

  // ---- polling ----

  function SeenSignature(m: Manager, f: string): Option<nat> {
    if f in m.signatures then Some(m.signatures[f]) else None
  }

  /** One name of `scanForMissedChanges`: reconcile if the signature is not the one seen last. */
  function Visit(w: World, f: string, throws: Callback): World {
    if SeenSignature(w.manager, f) == SignatureOf(w.dir, f) then w else Next(w, ReconcileFile(f), throws)
  }

  /** The remembered names of files that are gone. */
  function Vanished(remembered: seq<string>, dir: Directory): (names: seq<string>)
    ensures forall f :: f in names <==> f in remembered && f !in dir
  {
    if remembered == [] then [] else
    var front, f := Vanished(remembered[..|remembered| - 1], dir), remembered[|remembered| - 1];
    if f in dir then front else front + [f]
  }

  /** The manager's part of a scan. */
  function Scan(m: Manager, dir: Directory, names: seq<string>, throws: Callback): Manager {
    if names == [] then m else
    var before, f := Scan(m, dir, names[..|names| - 1], throws), names[|names| - 1];
    if SeenSignature(before, f) == SignatureOf(dir, f) then before else Reconcile(before, dir, f, throws)
  }

  lemma {:induction false} ScanIsVisitAll(w: World, names: seq<string>, throws: Callback)
    ensures VisitAll(w, names, throws).manager == Scan(w.manager, w.dir, names, throws)
    ensures VisitAll(w, names, throws).dir == w.dir
  {
    if names != [] {
      ScanIsVisitAll(w, names[..|names| - 1], throws);
    }
  }

  function VisitAll(w: World, names: seq<string>, throws: Callback): World {
    if names == [] then w else Visit(VisitAll(w, names[..|names| - 1], throws), names[|names| - 1], throws)
  }

  predicate VisitsSafe(w: World, names: seq<string>, throws: Callback) {
    names == []
    || (VisitsSafe(w, names[..|names| - 1], throws)
        && var before := VisitAll(w, names[..|names| - 1], throws);
           SeenSignature(before.manager, names[|names| - 1]) == SignatureOf(before.dir, names[|names| - 1])
           || Safe(before.manager, before.dir, names[|names| - 1], throws))
  }

  /** Signatures tell: a file whose signature was seen is loaded as it is. */
  ghost predicate Honest(w: World) {
    forall f :: SeenSignature(w.manager, f) == SignatureOf(w.dir, f) ==>
      (f in w.loaded <==> f in ValidFiles(w.dir)) && (f in w.loaded ==> w.loaded[f] == ValidFiles(w.dir)[f])
  }

  lemma ReconcileSignatures(m: Manager, dir: Directory, f: string, throws: Callback)
    ensures SeenSignature(Reconcile(m, dir, f, throws), f) == SignatureOf(dir, f)
    ensures forall g :: g != f ==> SeenSignature(Reconcile(m, dir, f, throws), g) == SeenSignature(m, g)
  {
  }

  lemma VisitSettles(w: World, f: string, throws: Callback)
    requires Honest(w) && Agrees(w.manager, w.loaded)
    requires SeenSignature(w.manager, f) == SignatureOf(w.dir, f) || Safe(w.manager, w.dir, f, throws)
    ensures var n := Visit(w, f, throws);
      && Honest(n) && Agrees(n.manager, n.loaded) && n.dir == w.dir
      && SeenSignature(n.manager, f) == SignatureOf(n.dir, f)
      && (forall g :: g != f ==> SeenSignature(n.manager, g) == SeenSignature(w.manager, g))
  {
    hide Agrees, Safe, Reconcile, SeenSignature, SignatureOf;
    if SeenSignature(w.manager, f) != SignatureOf(w.dir, f) {
      ReconcileSignatures(w.manager, w.dir, f, throws);
      ReconcileAgreesIff(w.manager, w.loaded, w.dir, f, throws);
    }
  }

  lemma {:induction false} VisitsSettle(w: World, names: seq<string>, throws: Callback)
    requires Honest(w) && Agrees(w.manager, w.loaded) && VisitsSafe(w, names, throws)
    ensures var n := VisitAll(w, names, throws);
      && Honest(n) && Agrees(n.manager, n.loaded) && n.dir == w.dir
      && (forall f :: f in names ==> SeenSignature(n.manager, f) == SignatureOf(n.dir, f))
      && (forall f :: f !in names ==> SeenSignature(n.manager, f) == SeenSignature(w.manager, f))
  {
    hide Agrees, Safe, Honest, Visit, SeenSignature, SignatureOf;
    if names != [] {
      var front, f := names[..|names| - 1], names[|names| - 1];
      VisitsSettle(w, front, throws);
      VisitSettles(VisitAll(w, front, throws), f, throws);
      assert names == front + [f];
    }
  }

  lemma VisitsCatchUp(w: World, names: seq<string>, throws: Callback, listing: seq<string>)
    requires Honest(w) && Agrees(w.manager, w.loaded) && VisitsSafe(w, names, throws)
    requires forall f :: f in w.dir || f in w.manager.signatures ==> f in names
    requires Lists(listing, w.dir)
    ensures var n := Scan(w.manager, w.dir, names, throws);
      && n.fileToTool == Start(w.dir, listing).fileToTool
      && n.registry.custom == Start(w.dir, listing).registry.custom
  {
    VisitsSettle(w, names, throws);
    ScanIsVisitAll(w, names, throws);
    hide Agrees, Start, Scan, VisitAll, VisitsSafe;
    var n := VisitAll(w, names, throws);
    assert forall f :: SeenSignature(n.manager, f) == SignatureOf(n.dir, f);
    assert n.loaded == ValidFiles(w.dir);
    StartAgrees(w.dir, listing);
    AgreementDetermines(n.manager, Start(w.dir, listing), n.loaded);
  }

  /** A scan leaves the manager as a fresh start would, provided signatures tell changes apart and its
      reconciles are safe. Vanished files are dealt with first: their removal needs no loading. */
  lemma ScanCatchesUp(w: World, remembered: seq<string>, loads: seq<string>, throws: Callback, listing: seq<string>)
    requires Honest(w) && Agrees(w.manager, w.loaded) && VisitsSafe(w, Vanished(remembered, w.dir) + loads, throws)
    requires forall f :: f in w.manager.signatures ==> f in remembered
    requires Lists(loads, w.dir) && Lists(listing, w.dir)
    ensures var n := Scan(w.manager, w.dir, Vanished(remembered, w.dir) + loads, throws);
      && n.fileToTool == Start(w.dir, listing).fileToTool
      && n.registry.custom == Start(w.dir, listing).registry.custom
  {
    hide Honest, Agrees, VisitsSafe, Scan, Start, Vanished;
    VisitsCatchUp(w, Vanished(remembered, w.dir) + loads, throws, listing);
  }

  /** A tool file that is renamed between two scans keeps its tool, which the other order would remove. */
  lemma RenamedFileKeepsTool(d: Definition, throws: Callback)
    requires d.name != ""
    requires forall r: Registry, active: seq<string> :: !throws(r, active)
    ensures var m, dir := Start(map["a.js" := File(Tool(d), 0)], ["a.js"]), map["b.js" := File(Tool(d), 0)];
      && Vanished(["a.js"], dir) + ["b.js"] == ["a.js", "b.js"]
      && d.name in Scan(m, dir, ["a.js", "b.js"], throws).registry.custom
      && d.name !in Scan(m, dir, ["b.js", "a.js"], throws).registry.custom
  {
    var was, dir := map["a.js" := File(Tool(d), 0)], map["b.js" := File(Tool(d), 0)];
    var m := Start(was, ["a.js"]);
    assert ["a.js"][..0] == [] && Start(was, ["a.js"]) == StartFile(EMPTY_MANAGER, was, "a.js");
    assert Vanished(["a.js"], dir) == ["a.js"];
    ScanTwo(m, dir, "a.js", "b.js", throws);
    ScanTwo(m, dir, "b.js", "a.js", throws);
  }

  lemma ScanTwo(m: Manager, dir: Directory, f: string, g: string, throws: Callback)
    requires SeenSignature(m, f) != SignatureOf(dir, f) && SeenSignature(m, g) != SignatureOf(dir, g) && f != g
    ensures Scan(m, dir, [f, g], throws) == Reconcile(Reconcile(m, dir, f, throws), dir, g, throws)
  {
    ReconcileSignatures(m, dir, f, throws);
    hide Reconcile, SeenSignature, SignatureOf;
    assert [f, g][..1] == [f] && [f][..0] == [];
    assert Scan(m, dir, [f], throws) == Reconcile(m, dir, f, throws);
  }

  // ---- the manager as an object ----

  class CustomToolManager {
    const toolRegistry: ToolRegistry
    var fileToTool: map<string, string>
    var fileSignatures: map<string, nat>
    var activeTools: seq<string>   // Pi's list

    ghost function View(): Manager
      reads this, toolRegistry
    {
      Manager(fileToTool, toolRegistry.View(), activeTools, fileSignatures)
    }

    constructor (registry: ToolRegistry)
      requires registry.View() == EMPTY
      ensures View() == EMPTY_MANAGER && toolRegistry == registry
    {
      toolRegistry := registry;
      fileToTool, fileSignatures, activeTools := map[], map[], [];
    }

    method DeactivateTool(name: string)
      modifies `activeTools, toolRegistry
      ensures View() == Deactivate(old(View()), name)
    {
      var _ := toolRegistry.RemoveTool(name);
      activeTools := DropName(activeTools, name);
    }

    /** `registerLoadedTool`; the result tells whether its callback threw. */
    method RegisterLoadedTool(f: string, d: Definition, throws: Callback) returns (threw: bool)
      modifies `fileToTool, `activeTools, toolRegistry
      ensures View() == Register(old(View()), f, d) && threw == CallbackThrows(View(), throws)
    {
      if f in fileToTool && fileToTool[f] != "" && fileToTool[f] != d.name {
        DeactivateTool(fileToTool[f]);
      }
      toolRegistry.UpsertTool(d);
      activeTools := Activate(activeTools, d);
      fileToTool := fileToTool[f := d.name];
      threw := throws(Registry(toolRegistry.customTools, toolRegistry.extensionOwnedToolNames,
        toolRegistry.extensionExecutors),
                      activeTools);
    }

    method RemoveFileTool(f: string)
      modifies `fileToTool, `activeTools, toolRegistry
      ensures View() == RemoveFile(old(View()), f)
    {
      if f !in fileToTool || fileToTool[f] == "" {
        return;
      }
      DeactivateTool(fileToTool[f]);
      fileToTool := fileToTool - {f};
    }

    method RefreshFileSignature(dir: Directory, f: string)
      modifies `fileSignatures
      ensures View() == Refresh(old(View()), dir, f)
    {
      if f !in dir {
        fileSignatures := fileSignatures - {f};
      } else {
        fileSignatures := fileSignatures[f := dir[f].signature];
      }
    }

    method ReconcileFile(dir: Directory, f: string, throws: Callback)
      modifies this, toolRegistry
      ensures View() == Reconcile(old(View()), dir, f, throws)
    {
      hide Register, RemoveFile, Refresh;
      if f !in dir || dir[f].content.Invalid? {
        RemoveFileTool(f);
      } else {
        var threw := RegisterLoadedTool(f, dir[f].content.definition, throws);
        if threw {
          RemoveFileTool(f);
        }
      }
      RefreshFileSignature(dir, f);
    }

    method StartFrom(dir: Directory, listing: seq<string>, throws: Callback)
      requires View() == EMPTY_MANAGER
      modifies this, toolRegistry
      ensures View() == Start(dir, listing)
    {
      for i := 0 to |listing|
        invariant View() == Start(dir, listing[..i])
      {
        hide Register, Refresh;
        assert listing[..i + 1][..i] == listing[..i];
        if listing[i] in dir && dir[listing[i]].content.Tool? {
          var _ := RegisterLoadedTool(listing[i], dir[listing[i]].content.definition, throws);
        }
        RefreshFileSignature(dir, listing[i]);
      }
      assert listing[..|listing|] == listing;
    }

    /** `scanForMissedChanges`. `remembered` are the names with a signature and `loads` the directory's files
        in the order in which their loading ends; by then the vanished files have been removed. */
    method ScanForMissedChanges(dir: Directory, remembered: seq<string>, loads: seq<string>, throws: Callback)
      requires forall f :: f in remembered <==> f in fileSignatures
      requires forall i, j :: 0 <= i < j < |remembered| ==> remembered[i] != remembered[j]
      modifies this, toolRegistry
      ensures View() == Scan(old(View()), dir, Vanished(remembered, dir) + loads, throws)
    {
      hide Scan, Vanished, Reconcile;
      ghost var gone := Vanished(remembered, dir);
      RemoveVanished(dir, remembered, throws);
      for i := 0 to |loads|
        invariant View() == Scan(old(View()), dir, gone + loads[..i], throws)
      {
        assert gone + loads[..i + 1] == gone + loads[..i] + [loads[i]];
        ScanOne(old(View()), dir, gone + loads[..i], loads[i], throws);
        var f := loads[i];
        var previous := if f in fileSignatures then Some(fileSignatures[f]) else None;
        if previous != SignatureOf(dir, f) {
          ReconcileFile(dir, f, throws);
        }
      }
      assert loads[..|loads|] == loads;
    }

    /** The loop over the remembered names. */
    method RemoveVanished(dir: Directory, remembered: seq<string>, throws: Callback)
      requires forall f :: f in remembered <==> f in fileSignatures
      requires forall i, j :: 0 <= i < j < |remembered| ==> remembered[i] != remembered[j]
      modifies this, toolRegistry
      ensures View() == Scan(old(View()), dir, Vanished(remembered, dir) + [], throws)
    {
      for i := 0 to |remembered|
        invariant View() == Scan(old(View()), dir, Vanished(remembered[..i], dir), throws)
        invariant forall j :: i <= j < |remembered| ==> remembered[j] in fileSignatures
      {
        hide Reconcile, Scan;
        assert remembered[..i + 1][..i] == remembered[..i];
        var f := remembered[i];
        if f !in dir {
          ScanOne(old(View()), dir, Vanished(remembered[..i], dir), f, throws);
          ReconcileSignatures(View(), dir, f, throws);
          ghost var before := View();
          ReconcileFile(dir, f, throws);
          forall j | i < j < |remembered|
            ensures remembered[j] in fileSignatures
          {
            assert remembered[j] != f && SeenSignature(View(), remembered[j]) == SeenSignature(before, remembered[j]);
          }
        }
      }
      assert remembered[..|remembered|] == remembered;
      assert Vanished(remembered, dir) + [] == Vanished(remembered, dir);
    }
  }

  lemma ScanOne(m: Manager, dir: Directory, names: seq<string>, f: string, throws: Callback)
    ensures var before := Scan(m, dir, names, throws);
      Scan(m, dir, names + [f], throws)
      == if SeenSignature(before, f) == SignatureOf(dir, f) then before else Reconcile(before, dir, f, throws)
  {
    assert (names + [f])[..|names|] == names;
  }
}
