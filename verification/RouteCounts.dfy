/** How many signatures a compiled catalog holds: one per declared item, check routes once. */
module RouteCounts {
  import opened Wrappers
  import opened PluginContract
  import opened DefinitionValidation
  import opened RouteCompilation
  import opened RouteOwnership
  import opened RouteTheorems

  /** The number of signatures over all routes. */
  ghost function Total(catalog: Catalog): nat
    decreases |catalog|
  {
    if catalog == map[] then 0
    else
      var route :| route in catalog;
      |catalog[route]| + Total(catalog - {route})
  }

  lemma {:induction false} TotalWithout(catalog: Catalog, route: RouteID)
    requires route in catalog
    ensures Total(catalog) == |catalog[route]| + Total(catalog - {route})
    decreases |catalog|
  {
    var picked :| picked in catalog && Total(catalog) == |catalog[picked]| + Total(catalog - {picked});
    if picked != route {
      TotalWithout(catalog - {picked}, route);
      TotalWithout(catalog - {route}, picked);
      assert catalog - {picked} - {route} == catalog - {route} - {picked};
    }
  }

  lemma TotalUpdate(catalog: Catalog, route: RouteID, entry: seq<Signature>)
    ensures Total(catalog[route := entry]) == Total(catalog) - |Entry(catalog, route)| + |entry|
  {
    var next := catalog[route := entry];
    TotalWithout(next, route);
    assert next - {route} == catalog - {route};
    if route in catalog {
      TotalWithout(catalog, route);
    } else {
      assert catalog - {route} == catalog;
    }
  }

  function ItemCount(signatures: seq<Signature>): nat {
    if signatures == [] then 0
    else (if signatures[0].CheckSignature? then 0 else 1) + ItemCount(signatures[1..])
  }

  function CheckRoutes(signatures: seq<Signature>): set<RouteID> {
    set s | s in signatures && s.CheckSignature? :: s.route
  }

  /** The check routes a catalog holds. */
  ghost predicate HoldsChecks(catalog: Catalog, routes: set<RouteID>) {
    forall route :: route in routes <==> HasCheck(Entry(catalog, route))
  }

  ghost predicate HasCheck(entry: seq<Signature>) {
    exists s :: s in entry && s.CheckSignature?
  }

  lemma ChecksAfter(catalog: Catalog, first: Signature, routes: set<RouteID>)
    requires HoldsChecks(catalog, routes)
    ensures HoldsChecks(Add(catalog, first), if first.CheckSignature? then routes + {first.route} else routes)
    ensures first.CheckSignature? ==> (Add(catalog, first) == catalog <==> first.route in routes)
  {
    var next := Add(catalog, first);
    var entry := Entry(catalog, first.route);
    var routes' := if first.CheckSignature? then routes + {first.route} else routes;
    assert first.CheckSignature? && first.route in routes ==> next == catalog;
    if next != catalog {
      assert Entry(next, first.route) == entry + [first];
    }
    forall route ensures route in routes' <==> HasCheck(Entry(next, route)) {
      if route != first.route {
        assert Entry(next, route) == Entry(catalog, route);
      } else if next != catalog {
        assert forall s :: s in Entry(next, route) <==> s in entry || s == first;
      }
    }
  }

  lemma AddTotal(catalog: Catalog, first: Signature, routes: set<RouteID>)
    requires HoldsChecks(catalog, routes)
    ensures Total(Add(catalog, first)) ==
            Total(catalog) + if first.CheckSignature? && first.route in routes then 0 else 1
  {
    ChecksAfter(catalog, first, routes);
    TotalUpdate(catalog, first.route, Entry(catalog, first.route) + [first]);
  }

  lemma RoutesLeft(signatures: seq<Signature>, routes: set<RouteID>)
    requires signatures != []
    ensures var first, rest := signatures[0], CheckRoutes(signatures[1..]);
            |CheckRoutes(signatures) - routes| ==
            if first.CheckSignature? && first.route !in routes then 1 + |rest - (routes + {first.route})|
            else |rest - routes|
  {
    var first, rest := signatures[0], CheckRoutes(signatures[1..]);
    CheckRoutesNext(signatures);
    if first.CheckSignature? { OneMore(rest, first.route, routes); }
  }

  lemma CheckRoutesNext(signatures: seq<Signature>)
    requires signatures != []
    ensures CheckRoutes(signatures) ==
            CheckRoutes(signatures[1..]) + if signatures[0].CheckSignature? then {signatures[0].route} else {}
  {
    assert signatures == [signatures[0]] + signatures[1..];
  }

  lemma OneMore(rest: set<RouteID>, route: RouteID, routes: set<RouteID>)
    ensures |rest + {route} - routes| == if route in routes then |rest - routes| else 1 + |rest - (routes + {route})|
  {
    if route in routes {
      assert rest + {route} - routes == rest - routes;
    } else {
      assert rest + {route} - routes == (rest - (routes + {route})) + {route};
    }
  }

  /** How many check routes are new, counted one signature at a time. */
  function NewChecks(signatures: seq<Signature>, routes: set<RouteID>): nat
    decreases |signatures|
  {
    if signatures == [] then 0
    else
      var first := signatures[0];
      if first.CheckSignature? && first.route !in routes then 1 + NewChecks(signatures[1..], routes + {first.route})
      else NewChecks(signatures[1..], routes)
  }

  lemma {:induction false} NewChecksAreRoutes(signatures: seq<Signature>, routes: set<RouteID>)
    ensures NewChecks(signatures, routes) == |CheckRoutes(signatures) - routes|
    decreases |signatures|
  {
    if signatures == [] {
      assert CheckRoutes(signatures) - routes == {};
    } else {
      var first := signatures[0];
      RoutesLeft(signatures, routes);
      if first.CheckSignature? && first.route !in routes {
        NewChecksAreRoutes(signatures[1..], routes + {first.route});
      } else {
        NewChecksAreRoutes(signatures[1..], routes);
      }
    }
  }

  lemma {:induction false} AddAllTotal(catalog: Catalog, signatures: seq<Signature>, routes: set<RouteID>)
    requires HoldsChecks(catalog, routes)
    ensures Total(AddAll(catalog, signatures)) == Total(catalog) + ItemCount(signatures) + NewChecks(signatures, routes)
    decreases |signatures|
  {
    if signatures != [] {
      var first, rest := signatures[0], signatures[1..];
      AddTotal(catalog, first, routes);
      ChecksAfter(catalog, first, routes);
      if first.CheckSignature? && first.route !in routes {
        AddAllTotal(Add(catalog, first), rest, routes + {first.route});
      } else {
        assert first.CheckSignature? ==> routes + {first.route} == routes;
        AddAllTotal(Add(catalog, first), rest, routes);
      }
    }
  }

  // ----- Counting what a definition declares -----

  function AutocompleteCount(options: seq<OptionDefinition>): nat {
    if options == [] then 0
    else (if options[0].autocomplete != "" then 1 else 0) + AutocompleteCount(options[1..])
  }

  /** Leaf commands, and their autocomplete options. */
  function CommandCount(command: Command): nat {
    if command.children == [] then 1 + AutocompleteCount(command.options) else ChildrenCount(command.children)
  }

  function ChildrenCount(children: seq<Command>): nat {
    if children == [] then 0 else CommandCount(children[0]) + ChildrenCount(children[1..])
  }

  function CogCount(cog: Cog): nat {
    ChildrenCount(cog.commands) + |cog.listeners| + |cog.tasks| + |cog.components| + |cog.modals|
  }

  function DeclaredCount(cogs: seq<Cog>): nat {
    if cogs == [] then 0 else CogCount(cogs[0]) + DeclaredCount(cogs[1..])
  }

  lemma {:induction false} ItemCountAppend(a: seq<Signature>, b: seq<Signature>)
    ensures ItemCount(a + b) == ItemCount(a) + ItemCount(b)
  {
    if a == [] {
      assert a + b == b;
    } else {
      assert (a + b)[0] == a[0] && (a + b)[1..] == a[1..] + b;
      ItemCountAppend(a[1..], b);
    }
  }

  lemma {:induction false} ItemCountConcat<T>(xs: seq<T>, f: T -> seq<Signature>, each: nat)
    requires each <= 1 && forall x :: x in xs ==> ItemCount(f(x)) == each
    ensures ItemCount(Concat(xs, f)) == if each == 0 then 0 else |xs|
  {
    if xs != [] {
      ItemCountAppend(f(xs[0]), Concat(xs[1..], f));
      ItemCountConcat(xs[1..], f, each);
    }
  }

  lemma ChecksCountNothing(checks: seq<Check>)
    ensures ItemCount(ChecksSignatures(checks)) == 0
  {
    ItemCountConcat(checks, CheckSignatures, 0);
  }

  lemma {:induction false} AutocompletesCounted(options: seq<OptionDefinition>, path: seq<string>, i: nat)
    requires i <= |options|
    ensures ItemCount(AutocompleteSignatures(options, path, i)) == AutocompleteCount(options[i..])
    decreases |options| - i
  {
    if i < |options| {
      AutocompletesCounted(options, path, i + 1);
      assert options[i..][0] == options[i] && options[i..][1..] == options[i + 1..];
      var rest := AutocompleteSignatures(options, path, i + 1);
      if options[i].autocomplete != "" {
        var s := AutocompleteSignature(options[i].autocomplete, path, options, options[i].name, options[i].kind);
        ItemCountAppend([s], rest);
      } else {
        ItemCountAppend([], rest);
      }
    }
  }

  lemma {:induction false} CommandCounted(command: Command, parent: seq<string>, rootKind: CommandKind)
    ensures ItemCount(CommandSignatures(command, parent, rootKind)) == CommandCount(command)
    decreases command
  {
    var path := parent + [command.name];
    ChecksCountNothing(command.checks);
    if command.children != [] {
      ChildrenCounted(command.children, path, rootKind);
      ItemCountAppend(ChecksSignatures(command.checks), ChildrenSignatures(command.children, path, rootKind));
    } else {
      var leaf := [CommandSignature(command.route, command.deferMode, rootKind, path, command.options)];
      AutocompletesCounted(command.options, path, 0);
      assert command.options[0..] == command.options;
      ItemCountAppend(leaf, AutocompleteSignatures(command.options, path, 0));
      ItemCountAppend(ChecksSignatures(command.checks), LeafSignatures(command, path, rootKind));
    }
  }

  lemma {:induction false} ChildrenCounted(children: seq<Command>, path: seq<string>, rootKind: CommandKind)
    ensures ItemCount(ChildrenSignatures(children, path, rootKind)) == ChildrenCount(children)
    decreases children
  {
    if children != [] {
      CommandCounted(children[0], path, rootKind);
      ChildrenCounted(children[1..], path, rootKind);
      ItemCountAppend(CommandSignatures(children[0], path, rootKind), ChildrenSignatures(children[1..], path, rootKind));
    }
  }

  lemma {:induction false} TopLevelCounted(commands: seq<Command>)
    ensures ItemCount(Concat(commands, TopLevelSignatures)) == ChildrenCount(commands)
  {
    if commands != [] {
      CommandCounted(commands[0], [], commands[0].kind);
      TopLevelCounted(commands[1..]);
      ItemCountAppend(TopLevelSignatures(commands[0]), Concat(commands[1..], TopLevelSignatures));
    }
  }

  lemma ItemCounted(own: Signature, checks: seq<Check>)
    requires !own.CheckSignature?
    ensures ItemCount([own] + ChecksSignatures(checks)) == 1
  {
    ChecksCountNothing(checks);
    ItemCountAppend([own], ChecksSignatures(checks));
  }

  lemma CogCounted(cog: Cog)
    ensures ItemCount(CogSignatures(cog)) == CogCount(cog)
  {
    var s1, s2 := ChecksSignatures(cog.checks), Concat(cog.commands, TopLevelSignatures);
    var s3, s4 := Concat(cog.listeners, ListenerSignatures), Concat(cog.tasks, TaskSignatures);
    var s5, s6 := Concat(cog.components, ComponentSignatures), Concat(cog.modals, ModalSignatures);
    ChecksCountNothing(cog.checks);
    TopLevelCounted(cog.commands);
    forall x | x in cog.listeners ensures ItemCount(ListenerSignatures(x)) == 1 {
      ItemCounted(ListenerSignature(x.route, x.event), x.checks);
    }
    ItemCountConcat(cog.listeners, ListenerSignatures, 1);
    forall x | x in cog.tasks ensures ItemCount(TaskSignatures(x)) == 1 {
      ItemCounted(TaskSignature(x.route, x.id), x.checks);
    }
    ItemCountConcat(cog.tasks, TaskSignatures, 1);
    forall x | x in cog.components ensures ItemCount(ComponentSignatures(x)) == 1 {
      ItemCounted(ComponentSignature(x.route, x.deferMode, x.id, x.kinds), x.checks);
    }
    ItemCountConcat(cog.components, ComponentSignatures, 1);
    forall x | x in cog.modals ensures ItemCount(ModalSignatures(x)) == 1 {
      ItemCounted(ModalSignature(x.route, x.deferMode, x.id, x.fields), x.checks);
    }
    ItemCountConcat(cog.modals, ModalSignatures, 1);
    ItemCountAppend(s1, s2);
    ItemCountAppend(s1 + s2, s3);
    ItemCountAppend(s1 + s2 + s3, s4);
    ItemCountAppend(s1 + s2 + s3 + s4, s5);
    ItemCountAppend(s1 + s2 + s3 + s4 + s5, s6);
  }

  lemma {:induction false} CogsCounted(cogs: seq<Cog>)
    ensures ItemCount(Concat(cogs, CogSignatures)) == DeclaredCount(cogs)
  {
    if cogs != [] {
      CogCounted(cogs[0]);
      CogsCounted(cogs[1..]);
      ItemCountAppend(CogSignatures(cogs[0]), Concat(cogs[1..], CogSignatures));
    }
  }

  /** The catalog holds one signature for each leaf command, autocomplete option, listener, task,
      component and modal, and one for each distinct route of a custom check, wherever it is declared. */
  lemma CompiledTotal(d: Definition)
    ensures forall route :: route in CheckRoutes(DefinitionSignatures(d)) <==> CheckRouteDeclared(d, route)
    ensures Total(Compiled(d)) == DeclaredCount(d.cogs) + |CheckRoutes(DefinitionSignatures(d))|
  {
    AddAllTotal(map[], DefinitionSignatures(d), {});
    NewChecksAreRoutes(DefinitionSignatures(d), {});
    CogsCounted(d.cogs);
    forall route ensures route in CheckRoutes(DefinitionSignatures(d)) <==> CheckRouteDeclared(d, route) {
      CheckSignaturesDeclared(d, route);
    }
    assert CheckRoutes(DefinitionSignatures(d)) - {} == CheckRoutes(DefinitionSignatures(d));
  }
}
