/** `Definition.Compile`: flattening a definition into a table from routes to signatures. */
module RouteCompilation {
  import opened Wrappers
  import opened GoText
  import opened PluginContract
  import opened DefinitionValidation
  import DefinitionValidator

  type Catalog = map<RouteID, seq<Signature>>

  // ----- The signatures of each part of a definition, in the order the compiler adds them -----

  function CheckSignatures(check: Check): seq<Signature> {
    if check.kind.Custom? then [CheckSignature(check.route)] else []
  }

  function ChecksSignatures(checks: seq<Check>): seq<Signature> {
    Concat(checks, CheckSignatures)
  }

  function AutocompleteSignatures(options: seq<OptionDefinition>, path: seq<string>, i: nat): seq<Signature>
    requires i <= |options|
    decreases |options| - i
  {
    if i == |options| then []
    else
      (if options[i].autocomplete != "" then
         [AutocompleteSignature(options[i].autocomplete, path, options, options[i].name, options[i].kind)]
       else [])
      + AutocompleteSignatures(options, path, i + 1)
  }

  function LeafSignatures(command: Command, path: seq<string>, rootKind: CommandKind): seq<Signature> {
    [CommandSignature(command.route, command.deferMode, rootKind, path, command.options)]
    + AutocompleteSignatures(command.options, path, 0)
  }

  function CommandSignatures(command: Command, parent: seq<string>, rootKind: CommandKind): seq<Signature>
    decreases command
  {
    var path := parent + [command.name];
    ChecksSignatures(command.checks)
    + if command.children != [] then ChildrenSignatures(command.children, path, rootKind)
      else LeafSignatures(command, path, rootKind)
  }

  function ChildrenSignatures(children: seq<Command>, path: seq<string>, rootKind: CommandKind): seq<Signature>
    decreases children
  {
    if children == [] then []
    else CommandSignatures(children[0], path, rootKind) + ChildrenSignatures(children[1..], path, rootKind)
  }

  function TopLevelSignatures(command: Command): seq<Signature> {
    CommandSignatures(command, [], command.kind)
  }

  function ListenerSignatures(listener: Listener): seq<Signature> {
    [ListenerSignature(listener.route, listener.event)] + ChecksSignatures(listener.checks)
  }

  function TaskSignatures(task: Task): seq<Signature> {
    [TaskSignature(task.route, task.id)] + ChecksSignatures(task.checks)
  }

  function ComponentSignatures(component: Component): seq<Signature> {
    [ComponentSignature(component.route, component.deferMode, component.id, component.kinds)]
    + ChecksSignatures(component.checks)
  }

  function ModalSignatures(modal: Modal): seq<Signature> {
    [ModalSignature(modal.route, modal.deferMode, modal.id, modal.fields)] + ChecksSignatures(modal.checks)
  }

  function CogSignatures(cog: Cog): seq<Signature> {
    ChecksSignatures(cog.checks)
    + Concat(cog.commands, TopLevelSignatures)
    + Concat(cog.listeners, ListenerSignatures)
    + Concat(cog.tasks, TaskSignatures)
    + Concat(cog.components, ComponentSignatures)
    + Concat(cog.modals, ModalSignatures)
  }

  function DefinitionSignatures(d: Definition): seq<Signature> {
    Concat(d.cogs, CogSignatures)
  }

  // ----- Adding signatures to a catalog -----

  function Entry(catalog: Catalog, route: RouteID): seq<Signature> {
    if route in catalog then catalog[route] else []
  }

  /** A check route is entered once, however many items name it. */
  function Add(catalog: Catalog, signature: Signature): Catalog {
    var entry := Entry(catalog, signature.route);
    if signature.CheckSignature? && exists i :: 0 <= i < |entry| && entry[i].CheckSignature? then catalog
    else catalog[signature.route := entry + [signature]]
  }

  function AddAll(catalog: Catalog, signatures: seq<Signature>): Catalog
    decreases |signatures|
  {
    if signatures == [] then catalog else AddAll(Add(catalog, signatures[0]), signatures[1..])
  }

  function Compiled(d: Definition): Catalog {
    AddAll(map[], DefinitionSignatures(d))
  }

  lemma {:induction false} AddAllAppend(catalog: Catalog, a: seq<Signature>, b: seq<Signature>)
    ensures AddAll(catalog, a + b) == AddAll(AddAll(catalog, a), b)
    decreases |a|
  {
    if a == [] {
      assert a + b == b;
    } else {
      assert (a + b)[0] == a[0] && (a + b)[1..] == a[1..] + b;
      AddAllAppend(Add(catalog, a[0]), a[1..], b);
    }
  }

  lemma AddAllOne(catalog: Catalog, signature: Signature, rest: seq<Signature>)
    ensures AddAll(catalog, [signature]) == Add(catalog, signature)
    ensures AddAll(catalog, [signature] + rest) == AddAll(Add(catalog, signature), rest)
  {
    assert [signature][1..] == [];
    AddAllAppend(catalog, [signature], rest);
  }

  // ----- The compiler as the source runs it -----

  class RouteCatalog {
    var signatures: Catalog

    constructor ()
      ensures signatures == map[]
    {
      signatures := map[];
    }

    method AddSignature(signature: Signature)
      modifies this
      ensures signatures == Add(old(signatures), signature)
    {
      var entry := Entry(signatures, signature.route);
      if signature.CheckSignature? {
        for i := 0 to |entry|
          invariant forall j :: 0 <= j < i ==> !entry[j].CheckSignature?
        {
          if entry[i].CheckSignature? { return; }
        }
      }
      signatures := signatures[signature.route := entry + [signature]];
    }

    method AddChecks(checks: seq<Check>)
      modifies this
      ensures signatures == AddAll(old(signatures), ChecksSignatures(checks))
    {
      ghost var spec := AddAll(signatures, ChecksSignatures(checks));
      for i := 0 to |checks|
        invariant spec == AddAll(signatures, ChecksSignatures(checks[i..]))
      {
        assert checks[i..][0] == checks[i] && checks[i..][1..] == checks[i + 1..];
        AddAllAppend(signatures, CheckSignatures(checks[i]), ChecksSignatures(checks[i + 1..]));
        if checks[i].kind.Custom? {
          AddAllOne(signatures, CheckSignature(checks[i].route), []);
          AddSignature(CheckSignature(checks[i].route));
        }
      }
    }

    method AddCommand(command: Command, parent: seq<string>, rootKind: CommandKind)
      modifies this
      ensures signatures == AddAll(old(signatures), CommandSignatures(command, parent, rootKind))
      decreases command
    {
      var path := parent + [command.name];
      ghost var rest := if command.children != [] then ChildrenSignatures(command.children, path, rootKind)
                        else LeafSignatures(command, path, rootKind);
      AddAllAppend(signatures, ChecksSignatures(command.checks), rest);
      AddChecks(command.checks);
      if |command.children| != 0 {
        AddChildren(command.children, path, rootKind);
      } else {
        AddLeaf(command, path, rootKind);
      }
    }

    method AddChildren(children: seq<Command>, path: seq<string>, rootKind: CommandKind)
      modifies this
      ensures signatures == AddAll(old(signatures), ChildrenSignatures(children, path, rootKind))
      decreases children
    {
      ghost var spec := AddAll(signatures, ChildrenSignatures(children, path, rootKind));
      for i := 0 to |children|
        invariant spec == AddAll(signatures, ChildrenSignatures(children[i..], path, rootKind))
      {
        assert children[i..][0] == children[i] && children[i..][1..] == children[i + 1..];
        AddAllAppend(signatures, CommandSignatures(children[i], path, rootKind),
                     ChildrenSignatures(children[i + 1..], path, rootKind));
        AddCommand(children[i], path, rootKind);
      }
    }

    method AddLeaf(command: Command, path: seq<string>, rootKind: CommandKind)
      modifies this
      ensures signatures == AddAll(old(signatures), LeafSignatures(command, path, rootKind))
    {
      var own := CommandSignature(command.route, command.deferMode, rootKind, path, command.options);
      AddAllOne(signatures, own, AutocompleteSignatures(command.options, path, 0));
      ghost var spec := AddAll(signatures, LeafSignatures(command, path, rootKind));
      AddSignature(own);
      var options := command.options;
      for i := 0 to |options|
        invariant spec == AddAll(signatures, AutocompleteSignatures(options, path, i))
      {
        if options[i].autocomplete != "" {
          var signature := AutocompleteSignature(options[i].autocomplete, path, options, options[i].name, options[i].kind);
          AddAllOne(signatures, signature, AutocompleteSignatures(options, path, i + 1));
          AddSignature(signature);
        } else {
          assert AutocompleteSignatures(options, path, i) == AutocompleteSignatures(options, path, i + 1);
        }
      }
    }

    /** An item with one signature of its own, then its checks. */
    method AddItem(signature: Signature, checks: seq<Check>)
      modifies this
      ensures signatures == AddAll(old(signatures), [signature] + ChecksSignatures(checks))
    {
      AddAllOne(signatures, signature, ChecksSignatures(checks));
      AddSignature(signature);
      AddChecks(checks);
    }

    method AddCommands(commands: seq<Command>)
      modifies this
      ensures signatures == AddAll(old(signatures), Concat(commands, TopLevelSignatures))
    {
      ghost var spec := AddAll(signatures, Concat(commands, TopLevelSignatures));
      for i := 0 to |commands|
        invariant spec == AddAll(signatures, Concat(commands[i..], TopLevelSignatures))
      {
        assert commands[i..][0] == commands[i] && commands[i..][1..] == commands[i + 1..];
        AddAllAppend(signatures, TopLevelSignatures(commands[i]), Concat(commands[i + 1..], TopLevelSignatures));
        AddCommand(commands[i], [], commands[i].kind);
      }
    }

    method AddListeners(listeners: seq<Listener>)
      modifies this
      ensures signatures == AddAll(old(signatures), Concat(listeners, ListenerSignatures))
    {
      ghost var spec := AddAll(signatures, Concat(listeners, ListenerSignatures));
      for i := 0 to |listeners|
        invariant spec == AddAll(signatures, Concat(listeners[i..], ListenerSignatures))
      {
        assert listeners[i..][0] == listeners[i] && listeners[i..][1..] == listeners[i + 1..];
        AddAllAppend(signatures, ListenerSignatures(listeners[i]), Concat(listeners[i + 1..], ListenerSignatures));
        AddItem(ListenerSignature(listeners[i].route, listeners[i].event), listeners[i].checks);
      }
    }

    method AddTasks(tasks: seq<Task>)
      modifies this
      ensures signatures == AddAll(old(signatures), Concat(tasks, TaskSignatures))
    {
      ghost var spec := AddAll(signatures, Concat(tasks, TaskSignatures));
      for i := 0 to |tasks|
        invariant spec == AddAll(signatures, Concat(tasks[i..], TaskSignatures))
      {
        assert tasks[i..][0] == tasks[i] && tasks[i..][1..] == tasks[i + 1..];
        AddAllAppend(signatures, TaskSignatures(tasks[i]), Concat(tasks[i + 1..], TaskSignatures));
        AddItem(TaskSignature(tasks[i].route, tasks[i].id), tasks[i].checks);
      }
    }

    method AddComponents(components: seq<Component>)
      modifies this
      ensures signatures == AddAll(old(signatures), Concat(components, ComponentSignatures))
    {
      ghost var spec := AddAll(signatures, Concat(components, ComponentSignatures));
      for i := 0 to |components|
        invariant spec == AddAll(signatures, Concat(components[i..], ComponentSignatures))
      {
        var c := components[i];
        assert components[i..][0] == c && components[i..][1..] == components[i + 1..];
        AddAllAppend(signatures, ComponentSignatures(c), Concat(components[i + 1..], ComponentSignatures));
        AddItem(ComponentSignature(c.route, c.deferMode, c.id, c.kinds), c.checks);
      }
    }

    method AddModals(modals: seq<Modal>)
      modifies this
      ensures signatures == AddAll(old(signatures), Concat(modals, ModalSignatures))
    {
      ghost var spec := AddAll(signatures, Concat(modals, ModalSignatures));
      for i := 0 to |modals|
        invariant spec == AddAll(signatures, Concat(modals[i..], ModalSignatures))
      {
        var m := modals[i];
        assert modals[i..][0] == m && modals[i..][1..] == modals[i + 1..];
        AddAllAppend(signatures, ModalSignatures(m), Concat(modals[i + 1..], ModalSignatures));
        AddItem(ModalSignature(m.route, m.deferMode, m.id, m.fields), m.checks);
      }
    }

    method AddCog(cog: Cog)
      modifies this
      ensures signatures == AddAll(old(signatures), CogSignatures(cog))
    {
      ghost var s0, s1 := ChecksSignatures(cog.checks), Concat(cog.commands, TopLevelSignatures);
      ghost var s2, s3 := Concat(cog.listeners, ListenerSignatures), Concat(cog.tasks, TaskSignatures);
      ghost var s4, s5 := Concat(cog.components, ComponentSignatures), Concat(cog.modals, ModalSignatures);
      AddAllAppend(signatures, s0, s1);
      AddAllAppend(signatures, s0 + s1, s2);
      AddAllAppend(signatures, s0 + s1 + s2, s3);
      AddAllAppend(signatures, s0 + s1 + s2 + s3, s4);
      AddAllAppend(signatures, s0 + s1 + s2 + s3 + s4, s5);
      AddChecks(cog.checks);
      AddCommands(cog.commands);
      AddListeners(cog.listeners);
      AddTasks(cog.tasks);
      AddComponents(cog.components);
      AddModals(cog.modals);
    }
  }

  /** `Definition.Compile`: the catalog of an accepted definition, or the fault of a rejected one. */
  method Compile(d: Definition) returns (fault: Option<Fault>, catalog: RouteCatalog?)
    ensures fault == ValidationFault(d)
    ensures fault == None ==> catalog != null && fresh(catalog) && catalog.signatures == Compiled(d)
    ensures fault != None ==> catalog == null
  {
    fault := DefinitionValidator.Validate(d);
    if fault != None { return fault, null; }
    var building := new RouteCatalog();
    for i := 0 to |d.cogs|
      invariant Compiled(d) == AddAll(building.signatures, Concat(d.cogs[i..], CogSignatures))
    {
      assert d.cogs[i..][0] == d.cogs[i] && d.cogs[i..][1..] == d.cogs[i + 1..];
      AddAllAppend(building.signatures, CogSignatures(d.cogs[i]), Concat(d.cogs[i + 1..], CogSignatures));
      building.AddCog(d.cogs[i]);
    }
    catalog := building;
  }
}
