/** Three ways in which hot reload and a fresh start part: files that share a tool name, a tool with the
    empty name, and a tool set that the callback rejects. */
module LostAgreement {
  import opened Wrappers
  import opened ToolRegistry
  import opened HotReload

  // ---- shared names ----

  lemma ReconcileOfTool(m: Manager, dir: Directory, f: string, throws: Callback)
    requires f in dir && dir[f].content.Tool?
    ensures var n := Register(m, f, dir[f].content.definition);
      Reconcile(m, dir, f, throws) == Refresh(if CallbackThrows(n, throws) then RemoveFile(n, f) else n, dir, f)
  {
  }

  lemma ReconcileOfMissing(m: Manager, gone: Directory, f: string, throws: Callback)
    requires f !in gone
    ensures Reconcile(m, gone, f, throws).registry == RemoveFile(m, f).registry
    ensures Reconcile(m, gone, f, throws).fileToTool == RemoveFile(m, f).fileToTool
  {
  }

  /** Removing the file that was registered last takes its tool along, whoever else had that name. */
  lemma RemoveRegistered(m: Manager, f: string, d: Definition)
    requires d.name != ""
    ensures var n := RemoveFile(Register(m, f, d), f);
      n.fileToTool == m.fileToTool - {f} && d.name !in n.registry.custom
  {
    RegisterEffect(m, f, d);
    RemoveEffect(Register(m, f, d), f);
    hide Register, RemoveFile, InfoOf;
    UpdateThenDrop(m.fileToTool, f, d.name);
  }

  lemma UpdateThenDrop(m: map<string, string>, k: string, v: string)
    ensures m[k := v] - {k} == m - {k}
  {
  }

  lemma RemoveOfUnknown(m: Manager, f: string)
    requires f !in m.fileToTool
    ensures RemoveFile(m, f) == m
  {
  }

  lemma RemoveIgnoresSignatures(m: Manager, dir: Directory, f: string)
    ensures RemoveFile(Refresh(m, dir, f), f).registry == RemoveFile(m, f).registry
    ensures RemoveFile(Refresh(m, dir, f), f).fileToTool == RemoveFile(m, f).fileToTool
  {
  }

  /** Loading `f` and then reconciling it as deleted: the other files keep their entries, but no file has
      a tool of that name any more. */
  lemma LoadingLosesTool(m: Manager, dir: Directory, gone: Directory, f: string, throws: Callback)
    requires f in dir && dir[f].content.Tool? && dir[f].content.definition.name != "" && f !in gone
    ensures var m2 := Reconcile(Reconcile(m, dir, f, throws), gone, f, throws);
      dir[f].content.definition.name !in m2.registry.custom && m2.fileToTool == m.fileToTool - {f}
  {
    hide Register, Reconcile, InfoOf, CallbackThrows, RemoveFile, Refresh;
    var d := dir[f].content.definition;
    var n := Register(m, f, d);
    var kept := if CallbackThrows(n, throws) then RemoveFile(n, f) else n;
    ReconcileOfTool(m, dir, f, throws);
    ReconcileOfMissing(Refresh(kept, dir, f), gone, f, throws);
    RemoveIgnoresSignatures(kept, dir, f);
    RemoveRegistered(m, f, d);
    if CallbackThrows(n, throws) {
      RemoveOfUnknown(kept, f);
    }
  }

  lemma CollisionIsNotUndone(m: Manager, loaded: map<string, Definition>, dir: Directory, gone: Directory, f: string,
                             throws: Callback)
    requires Agrees(m, loaded) && f in dir && dir[f].content.Tool? && dir[f].content.definition.name != ""
    requires f !in gone && OwnedByOther(m, f, dir[f].content.definition.name)
    ensures !Agrees(Reconcile(Reconcile(m, dir, f, throws), gone, f, throws), loaded - {f})
  {
    var name := dir[f].content.definition.name;
    LoadingLosesTool(m, dir, gone, f, throws);
    hide Reconcile, InfoOf, DistinctNames;
    var g :| g in m.fileToTool && g != f && m.fileToTool[g] == name;
    assert g in loaded - {f} && (loaded - {f})[g].name == name;
  }

  lemma LoadingIsUndone(registered: Manager, loaded: map<string, Definition>, dir: Directory, gone: Directory,
                        f: string, throws: Callback)
    requires Agrees(registered, loaded) && f in loaded && loaded[f].name != "" && f !in gone
    ensures var kept := if CallbackThrows(registered, throws) then RemoveFile(registered, f) else registered;
      Agrees(Reconcile(Refresh(kept, dir, f), gone, f, throws), loaded - {f})
  {
    var kept := if CallbackThrows(registered, throws) then RemoveFile(registered, f) else registered;
    var held := if CallbackThrows(registered, throws) then loaded - {f} else loaded;
    RemoveAgrees(registered, loaded, f);
    assert Agrees(kept, held) && !DropsEmptyName(kept, f, None);
    RefreshKeepsAgreement(kept, dir, f, held);
    hide Agrees, RemoveFile, CallbackThrows;
    ReconcileAgreesIff(Refresh(kept, dir, f), held, gone, f, throws);
    assert held - {f} == loaded - {f};
  }

  lemma FreeNameIsUndone(m: Manager, loaded: map<string, Definition>, dir: Directory, gone: Directory, f: string,
                         throws: Callback)
    requires Agrees(m, loaded) && f in dir && dir[f].content.Tool? && f !in gone
    requires var name := dir[f].content.definition.name;
      name != "" && !DropsEmptyName(m, f, Some(name)) && !OwnedByOther(m, f, name)
    ensures Agrees(Reconcile(Reconcile(m, dir, f, throws), gone, f, throws), loaded - {f})
  {
    hide Agrees, Register, RemoveFile, Refresh, Reconcile, OwnedByOther, DropsEmptyName, CallbackThrows;
    var d := dir[f].content.definition;
    RegisterAgrees(m, loaded, f, d);
    ReconcileOfTool(m, dir, f, throws);
    LoadingIsUndone(Register(m, f, d), loaded[f := d], dir, gone, f, throws);
    assert loaded[f := d] - {f} == loaded - {f};
  }

  /** Loading `f` and, once it is deleted again, reconciling it brings back agreement with the other files
      if and only if none of them owns the name: otherwise the other file's tool is gone, although the
      names of the files that are left are distinct. */
  lemma LoadingIsUndoneIff(m: Manager, loaded: map<string, Definition>, dir: Directory, gone: Directory, f: string,
                           throws: Callback)
    requires Agrees(m, loaded) && f in dir && dir[f].content.Tool? && f !in gone
    requires var name := dir[f].content.definition.name; name != "" && !DropsEmptyName(m, f, Some(name))
    ensures Agrees(Reconcile(Reconcile(m, dir, f, throws), gone, f, throws), loaded - {f})
       <==> !OwnedByOther(m, f, dir[f].content.definition.name)
    ensures DistinctNames(loaded - {f})
  {
    DropKeepsDistinct(loaded, f);
    hide Agrees, Reconcile, OwnedByOther, DropsEmptyName, DistinctNames;
    if OwnedByOther(m, f, dir[f].content.definition.name) {
      CollisionIsNotUndone(m, loaded, dir, gone, f, throws);
    } else {
      FreeNameIsUndone(m, loaded, dir, gone, f, throws);
    }
  }

  /** A file comes, is reconciled, goes, and is reconciled again. */
  function ComesAndGoes(f: string, file: File): seq<Event> {
    [Write(f, file), ReconcileFile(f), Delete(f), ReconcileFile(f)]
  }

  lemma AfterComingAndGoing(w: World, f: string, file: File, throws: Callback)
    requires f !in w.dir && w.dirty == {}
    ensures var n := Run(w, ComesAndGoes(f, file), throws);
      && n.dirty == {} && n.dir == w.dir
      && n.manager == Reconcile(Reconcile(w.manager, w.dir[f := file], f, throws), w.dir, f, throws)
  {
    hide Reconcile, LoadedAfter;
    var e := ComesAndGoes(f, file);
    assert w.dir[f := file] - {f} == w.dir;
    assert e[..1] == [e[0]] && e[..2] == [e[0], e[1]] && e[..3] == [e[0], e[1], e[2]];
    assert [e[0]][..0] == [] && [e[0], e[1]][..1] == [e[0]] && [e[0], e[1], e[2]][..2] == [e[0], e[1]];
    assert Run(w, [e[0]], throws) == Next(w, e[0], throws);
    assert Run(w, [e[0], e[1]], throws) == Next(Next(w, e[0], throws), e[1], throws);
  }

  /** Two files with one tool name, one of them deleted again: a fresh start on the file that is left has
      the tool, the running manager does not. */
  lemma SharedNameLosesTool(d: Definition, file: File, throws: Callback)
    requires file.content.Tool? && file.content.definition.name == d.name != ""
    ensures var dir := map["a.js" := File(Tool(d), 0)];
      var w := Run(Started(dir, ["a.js"]), ComesAndGoes("b.js", file), throws);
      && w.dirty == {} && w.dir == dir && DistinctNames(ValidFiles(dir))
      && d.name in Start(dir, ["a.js"]).registry.custom
      && d.name !in w.manager.registry.custom
  {
    var dir := map["a.js" := File(Tool(d), 0)];
    var w := Started(dir, ["a.js"]);
    hide Reconcile, Start, Run, ComesAndGoes;
    StartOne(dir, "a.js");
    AfterComingAndGoing(w, "b.js", file, throws);
    LoadingLosesTool(w.manager, dir["b.js" := file], dir, "b.js", throws);
  }

  lemma StartOne(dir: Directory, f: string)
    requires f in dir && dir[f].content.Tool?
    ensures dir[f].content.definition.name in Start(dir, [f]).registry.custom
  {
    assert [f][..0] == [];
    assert Start(dir, [f]) == StartFile(EMPTY_MANAGER, dir, f);
  }

  // ---- empty names and rejected tool sets ----

  /** A tool with the empty name survives its file: it was loaded, its file is deleted and reconciled,
      and it is still registered, while a fresh start has no tools at all. */
  lemma EmptyNamedToolStays(d: Definition, throws: Callback)
    requires d.name == ""
    ensures var start := Started(map["t.js" := File(Tool(d), 0)], ["t.js"]);
      var w := Run(start, [Delete("t.js"), ReconcileFile("t.js")], throws);
      w.dirty == {} && "" in w.manager.registry.custom && Start(w.dir, []).registry.custom == map[]
  {
    var w0 := Started(map["t.js" := File(Tool(d), 0)], ["t.js"]);
    assert ["t.js"][..0] == [];
    var events := [Delete("t.js"), ReconcileFile("t.js")];
    assert events[..1] == [Delete("t.js")] && events[..1][..0] == [];
    assert Run(w0, events[..1], throws) == Next(w0, events[0], throws);
    assert Start(w0.dir, ["t.js"]) == StartFile(Start(w0.dir, []), w0.dir, "t.js");
    assert "" in w0.manager.registry.custom && w0.manager.fileToTool["t.js"] == "";
  }

  /** A tool set the callback rejects is kept by a start and rolled back by a reconcile. */
  lemma RejectedToolDiffers(dir: Directory, f: string, d: Definition, throws: Callback)
    requires dir == map[f := File(Tool(d), 0)] && d.name != ""
    requires throws(Register(EMPTY_MANAGER, f, d).registry, Register(EMPTY_MANAGER, f, d).active)
    ensures d.name in Start(dir, [f]).registry.custom
    ensures Reconcile(EMPTY_MANAGER, dir, f, throws).registry.custom == map[]
  {
    assert [f][..0] == [];
    assert Start(dir, [f]) == StartFile(EMPTY_MANAGER, dir, f);
  }
}
