/** Which definitions `Definition.Validate` accepts, said of the definition itself: each part is well
    formed, and no two parts use a name, path, id or route that they may not share. */
module DefinitionAcceptance {
  import opened Wrappers
  import opened GoText
  import opened PluginContract
  import opened DefinitionValidation
  import opened RouteOwnership
  import opened RouteTheorems
  import opened DefinitionPlaces
  import opened DefinitionParts

  // ----- What clashes -----

  ghost predicate SoleApart(claims: seq<Claim>) {
    forall i, j :: 0 <= i < j < |claims| && Sole(claims[i]) && Sole(claims[j]) ==> claims[i] != claims[j]
  }

  ghost predicate CogNamesApart(claims: seq<Claim>) {
    forall i, j :: 0 <= i < j < |claims| && claims[i].CogNamed? && claims[j].CogNamed? ==> CogKey(claims[i].name) != CogKey(claims[j].name)
  }

  /** A route is used in one way. */
  ghost predicate OneUse(claims: seq<Claim>) {
    forall r, u, v :: RouteUsed(r, u) in claims && RouteUsed(r, v) in claims ==> u == v
  }

  lemma CompatibleIff(claims: seq<Claim>)
    ensures AllCompatible(claims) <==> CogNamesApart(claims) && SoleApart(claims) && OneUse(claims)
  {
    if AllCompatible(claims) {
      forall i, j | 0 <= i < j < |claims| && Sole(claims[i]) && Sole(claims[j]) ensures claims[i] != claims[j] {
        assert Compatible(claims[i], claims[j]);
      }
      forall r, u, v | RouteUsed(r, u) in claims && RouteUsed(r, v) in claims ensures u == v {
        var i, j :| 0 <= i < |claims| && 0 <= j < |claims| && claims[i] == RouteUsed(r, u) && claims[j] == RouteUsed(r, v);
        if i < j { assert Compatible(claims[i], claims[j]); } else if j < i { assert Compatible(claims[j], claims[i]); }
      }
      forall i, j | 0 <= i < j < |claims| && claims[i].CogNamed? && claims[j].CogNamed?
        ensures CogKey(claims[i].name) != CogKey(claims[j].name)
      {
        assert Compatible(claims[i], claims[j]);
      }
    }
    if CogNamesApart(claims) && SoleApart(claims) && OneUse(claims) {
      forall i, j | 0 <= i < j < |claims| ensures Compatible(claims[i], claims[j]) {
        if claims[i].RouteUsed? && claims[j].RouteUsed? && claims[i].route == claims[j].route {
          assert claims[i] == RouteUsed(claims[i].route, claims[i].use) && claims[j] == RouteUsed(claims[i].route, claims[j].use);
          assert claims[i] in claims && claims[j] in claims;
        }
      }
    }
  }

  lemma {:induction false} TimesIn(claims: seq<Claim>, c: Claim)
    ensures Times(claims, c) > 0 <==> c in claims
  {
    if claims != [] { TimesIn(claims[1..], c); }
  }

  lemma {:induction false} SoleApartIff(claims: seq<Claim>)
    ensures SoleApart(claims) <==> forall c :: Sole(c) ==> Times(claims, c) <= 1
  {
    if claims != [] {
      var first, rest := claims[0], claims[1..];
      SoleApartIff(rest);
      SoleApartNext(claims);
      forall c ensures Times(claims, c) == (if first == c then 1 else 0) + Times(rest, c) {}
      TimesIn(rest, first);
      if exists c :: Sole(c) && Times(rest, c) > 1 {
        var c :| Sole(c) && Times(rest, c) > 1;
        assert Times(claims, c) > 1;
      }
      if Sole(first) && first in rest { assert Times(claims, first) > 1; }
    }
  }

  lemma SoleApartNext(claims: seq<Claim>)
    requires claims != []
    ensures SoleApart(claims) <==> SoleApart(claims[1..]) && (Sole(claims[0]) ==> claims[0] !in claims[1..])
  {
    var rest := claims[1..];
    assert forall j :: 0 <= j < |rest| ==> rest[j] == claims[j + 1];
    if SoleApart(claims) {
      forall i, j | 0 <= i < j < |rest| && Sole(rest[i]) && Sole(rest[j]) ensures rest[i] != rest[j] {
        assert claims[i + 1] != claims[j + 1];
      }
    }
    if SoleApart(rest) && (Sole(claims[0]) ==> claims[0] !in rest) {
      forall i, j | 0 <= i < j < |claims| && Sole(claims[i]) && Sole(claims[j]) ensures claims[i] != claims[j] {
        assert claims[j] == rest[j - 1] && rest[j - 1] in rest;
        if i > 0 { assert claims[i] == rest[i - 1]; }
      }
    }
  }

  // ----- What is declared where -----

  /** The command at a place. */
  ghost function CommandAt(d: Definition, q: Place): Option<Command> {
    if q.part.Commands? && q.cog < |d.cogs| && q.index < |d.cogs[q.cog].commands| then
      CommandBelow(d.cogs[q.cog].commands[q.index], q.position)
    else None
  }

  /** The kind of its root and the lower-cased names on the way. */
  ghost function PathOf(d: Definition, q: Place): (CommandKind, seq<string>)
    requires CommandAt(d, q).Some?
  {
    var root := d.cogs[q.cog].commands[q.index];
    (root.kind, Lowered(NamesBelow(root, q.position)))
  }

  function Lowered(names: seq<string>): seq<string> { seq(|names|, i requires 0 <= i < |names| => ToLower(names[i])) }

  /** The id of the item at a place, with its class. */
  ghost function IdAt(d: Definition, q: Place): Option<(IdClass, string)> {
    if q.cog >= |d.cogs| || q.position != [] then None
    else
      var cog := d.cogs[q.cog];
      match q.part
      case Commands => None
      case Listeners => if q.index < |cog.listeners| then Some((ListenerId, cog.listeners[q.index].id)) else None
      case Tasks => if q.index < |cog.tasks| then Some((TaskId, cog.tasks[q.index].id)) else None
      case Components => if q.index < |cog.components| then Some((ComponentId, cog.components[q.index].id)) else None
      case Modals => if q.index < |cog.modals| then Some((ModalId, cog.modals[q.index].id)) else None
  }

  /** The route that the item at a place has for itself: leaf commands, listeners, tasks, components, modals. */
  ghost function RouteAt(d: Definition, q: Place): Option<RouteID> {
    if q.part.Commands? then
      if CommandAt(d, q).Some? && !Container(CommandAt(d, q).value) then Some(CommandAt(d, q).value.route) else None
    else if q.cog >= |d.cogs| || q.position != [] then None
    else
      var cog := d.cogs[q.cog];
      match q.part
      case Commands => None
      case Listeners => if q.index < |cog.listeners| then Some(cog.listeners[q.index].route) else None
      case Tasks => if q.index < |cog.tasks| then Some(cog.tasks[q.index].route) else None
      case Components => if q.index < |cog.components| then Some(cog.components[q.index].route) else None
      case Modals => if q.index < |cog.modals| then Some(cog.modals[q.index].route) else None
  }

  /** No two commands share root kind and path, no two items of a class an id, no two items a route. */
  ghost predicate PlacesApart(d: Definition) {
    && (forall q, r :: q != r && CommandAt(d, q).Some? && CommandAt(d, r).Some? ==> PathOf(d, q) != PathOf(d, r))
    && (forall q, r :: q != r && IdAt(d, q).Some? && IdAt(d, r).Some? ==> IdAt(d, q) != IdAt(d, r))
    && (forall q, r :: q != r && RouteAt(d, q).Some? && RouteAt(d, r).Some? ==> RouteAt(d, q) != RouteAt(d, r))
  }

  lemma PlaceEnters(d: Definition, q: Place, c: Claim)
    requires Sole(c)
    ensures EntersIn(d, q, c) <==>
              match c
              case PathUsed(key) =>
                CommandAt(d, q).Some? && key == PathKey(d.cogs[q.cog].commands[q.index].kind, PathBelow(d.cogs[q.cog].commands[q.index], q.position))
              case IdUsed(space, id) => IdAt(d, q) == Some((space, id))
              case RouteUsed(route, _) => RouteAt(d, q) == Some(route)
              case _ => false
  {
    if q.part.Commands? && q.cog < |d.cogs| && q.index < |d.cogs[q.cog].commands| {
      var root := d.cogs[q.cog].commands[q.index];
      assert [] + PathBelow(root, q.position) == PathBelow(root, q.position);
    }
  }

  lemma {:induction false} LoweredBelow(command: Command, top: bool, position: seq<nat>)
    requires BelowWellFormed(command, top) && CommandBelow(command, position).Some?
    ensures PathBelow(command, position) == Lowered(NamesBelow(command, position))
    decreases |position|
  {
    RootWellFormed(command, top);
    if position != [] {
      ChildWellFormed(command, top, position[0]);
      LoweredBelow(command.children[position[0]], false, position[1..]);
      LoweredJoin(command.name, NamesBelow(command.children[position[0]], position[1..]));
    } else {
      LoweredJoin(command.name, []);
    }
  }

  ghost predicate AllSlash(path: seq<string>) { forall i :: 0 <= i < |path| ==> SlashName(path[i]) }

  lemma {:induction false} ShapeBelow(command: Command, top: bool, position: seq<nat>)
    requires BelowWellFormed(command, top) && CommandBelow(command, position).Some?
    ensures if ContextKind(command.kind) then |PathBelow(command, position)| == 1 else AllSlash(PathBelow(command, position))
    decreases |position|
  {
    RootWellFormed(command, top);
    if !ContextKind(command.kind) { SlashNameIsLower(command.name); }
    if position != [] {
      ChildWellFormed(command, top, position[0]);
      assert ChildFits(command.kind, command.children[position[0]].kind);
      ShapeBelow(command.children[position[0]], false, position[1..]);
      SlashJoin(PathName(command), PathBelow(command.children[position[0]], position[1..]));
    } else if !ContextKind(command.kind) {
      SlashJoin(PathName(command), []);
    }
  }

  lemma SlashJoin(name: string, path: seq<string>)
    requires SlashName(name) && AllSlash(path)
    ensures AllSlash([name] + path)
  {
  }

  lemma LoweredJoin(name: string, names: seq<string>)
    ensures Lowered([name] + names) == [ToLower(name)] + Lowered(names)
  {
  }

  lemma RootWellFormed(command: Command, top: bool)
    requires BelowWellFormed(command, top)
    ensures CommandWellFormed(command, top)
  {
    var none: seq<nat> := [];
    assert CommandBelow(command, none) == Some(command);
    assert CommandWellFormed(CommandBelow(command, none).value, top && none == []);
  }

  lemma PathsOf(d: Definition, q: Place)
    requires WellFormed(d) && CommandAt(d, q).Some?
    ensures var root := d.cogs[q.cog].commands[q.index];
            PathShape(root.kind, PathBelow(root, q.position)) && PathOf(d, q) == (root.kind, PathBelow(root, q.position))
  {
    var root := d.cogs[q.cog].commands[q.index];
    assert CogWellFormed(d.cogs[q.cog]) && TreeWellFormed(root);
    LoweredBelow(root, true, q.position);
    ShapeBelow(root, true, q.position);
  }

  /** The path part of the validator's answer, in terms of the commands: keys clash exactly where two
      commands, at whatever positions, have one root kind and one lower-cased path. */
  lemma PathsClashIff(d: Definition, q: Place, r: Place)
    requires WellFormed(d) && CommandAt(d, q).Some? && CommandAt(d, r).Some?
    ensures var one, two := d.cogs[q.cog].commands[q.index], d.cogs[r.cog].commands[r.index];
            PathKey(one.kind, PathBelow(one, q.position)) == PathKey(two.kind, PathBelow(two, r.position)) <==> PathOf(d, q) == PathOf(d, r)
  {
    PathsOf(d, q);
    PathsOf(d, r);
    var one, two := d.cogs[q.cog].commands[q.index], d.cogs[r.cog].commands[r.index];
    PathKeyTells(one.kind, PathBelow(one, q.position), two.kind, PathBelow(two, r.position));
  }

  /** Some two places enter the same claim. */
  ghost predicate Shared(d: Definition, c: Claim) { exists q, r :: q != r && EntersIn(d, q, c) && EntersIn(d, r, c) }

  lemma SoleSharedIff(d: Definition)
    requires WellFormed(d)
    ensures (forall c :: Sole(c) ==> !Shared(d, c)) <==> PlacesApart(d)
  {
    if PlacesApart(d) {
      forall c | Sole(c) ensures !Shared(d, c) { if Shared(d, c) { SharedClashes(d, c); } }
    }
    if forall c :: Sole(c) ==> !Shared(d, c) {
      forall q, r | q != r && CommandAt(d, q).Some? && CommandAt(d, r).Some? ensures PathOf(d, q) != PathOf(d, r) { PathsDiffer(d, q, r); }
      forall q, r | q != r && IdAt(d, q).Some? && IdAt(d, r).Some? ensures IdAt(d, q) != IdAt(d, r) {
        var c := IdUsed(IdAt(d, q).value.0, IdAt(d, q).value.1);
        PlaceEnters(d, q, c);
        PlaceEnters(d, r, c);
        assert !Shared(d, c);
      }
      forall q, r | q != r && RouteAt(d, q).Some? && RouteAt(d, r).Some? ensures RouteAt(d, q) != RouteAt(d, r) {
        var c := RouteUsed(RouteAt(d, q).value, Owned);
        PlaceEnters(d, q, c);
        PlaceEnters(d, r, c);
        assert !Shared(d, c);
      }
    }
  }

  lemma PathsDiffer(d: Definition, q: Place, r: Place)
    requires WellFormed(d) && q != r && CommandAt(d, q).Some? && CommandAt(d, r).Some?
    requires forall c :: Sole(c) ==> !Shared(d, c)
    ensures PathOf(d, q) != PathOf(d, r)
  {
    var one := d.cogs[q.cog].commands[q.index];
    var c := PathUsed(PathKey(one.kind, PathBelow(one, q.position)));
    PlaceEnters(d, q, c);
    PlaceEnters(d, r, c);
    PathsClashIff(d, q, r);
    assert !Shared(d, c);
  }

  lemma SharedClashes(d: Definition, c: Claim)
    requires WellFormed(d) && Sole(c) && Shared(d, c)
    ensures !PlacesApart(d)
  {
    var q, r :| q != r && EntersIn(d, q, c) && EntersIn(d, r, c);
    PlaceEnters(d, q, c);
    PlaceEnters(d, r, c);
    if c.PathUsed? { PathsClashIff(d, q, r); }
  }

  // ----- References -----

  ghost predicate RefersTo(command: Command, route: RouteID, use: RouteUse) {
    match use
    case AutocompleteReference => route != "" && exists o :: o in command.options && o.autocomplete == route
    case CheckReference => ChecksRefer(command.checks, route)
    case Owned => false
  }

  ghost predicate ChecksRefer(checks: seq<Check>, route: RouteID) {
    exists check :: check in checks && check.kind.Custom? && check.route == route
  }

  lemma {:induction false} ChecksHold(checks: seq<Check>, route: RouteID, use: RouteUse)
    requires !use.Owned?
    ensures RouteUsed(route, use) in ChecksClaims(checks) <==> use.CheckReference? && ChecksRefer(checks, route)
  {
    if checks != [] {
      ChecksHold(checks[1..], route, use);
      assert checks == [checks[0]] + checks[1..];
    }
  }

  lemma {:induction false} OptionsHold(options: seq<OptionDefinition>, i: nat, route: RouteID, use: RouteUse)
    requires i <= |options| && !use.Owned?
    ensures RouteUsed(route, use) in OptionsClaimsFrom(options, i) <==>
              use.AutocompleteReference? && route != "" && exists j :: i <= j < |options| && options[j].autocomplete == route
    decreases |options| - i
  {
    if i < |options| { OptionsHold(options, i + 1, route, use); }
  }

  lemma OptionsAllHold(options: seq<OptionDefinition>, route: RouteID, use: RouteUse)
    requires !use.Owned?
    ensures RouteUsed(route, use) in OptionsClaims(options) <==>
              use.AutocompleteReference? && route != "" && exists o :: o in options && o.autocomplete == route
  {
    OptionsHold(options, 0, route, use);
    OptionOf(options, route);
  }

  lemma OwnHead(command: Command, kind: CommandKind, parent: seq<string>) returns (head: seq<Claim>)
    ensures OwnClaims(command, kind, parent) == head + OptionsClaims(command.options) + ChecksClaims(command.checks)
    ensures |head| == 4 && forall i :: 0 <= i < 4 ==> head[i].RouteUsed? ==> head[i].use.Owned?
  {
    head := OwnClaims(command, kind, parent)[..4];
  }

  lemma OwnHold(command: Command, kind: CommandKind, parent: seq<string>, route: RouteID, use: RouteUse)
    requires !use.Owned?
    ensures RouteUsed(route, use) in OwnClaims(command, kind, parent) <==> RefersTo(command, route, use)
  {
    ChecksHold(command.checks, route, use);
    OptionsAllHold(command.options, route, use);
    var head := OwnHead(command, kind, parent);
    NotInHead(head, RouteUsed(route, use));
    InThree(head, OptionsClaims(command.options), ChecksClaims(command.checks), RouteUsed(route, use));
  }

  lemma NotInHead(head: seq<Claim>, x: Claim)
    requires |head| == 4 && x.RouteUsed? && !x.use.Owned?
    requires forall i :: 0 <= i < 4 ==> head[i].RouteUsed? ==> head[i].use.Owned?
    ensures x !in head
  {
  }

  lemma InThree(a: seq<Claim>, b: seq<Claim>, c: seq<Claim>, x: Claim)
    ensures x in a + b + c <==> x in a || x in b || x in c
  {
  }

  lemma OptionOf(options: seq<OptionDefinition>, route: RouteID)
    ensures (exists o :: o in options && o.autocomplete == route) <==> exists j :: 0 <= j < |options| && options[j].autocomplete == route
  {
    if o :| o in options && o.autocomplete == route {
      var j :| 0 <= j < |options| && options[j] == o;
    }
    if j :| 0 <= j < |options| && options[j].autocomplete == route { assert options[j] in options; }
  }

  ghost predicate RefersBelow(command: Command, position: seq<nat>, route: RouteID, use: RouteUse) {
    var owner := CommandBelow(command, position);
    owner.Some? && RefersTo(owner.value, route, use)
  }

  lemma {:induction false} TreeHolds(command: Command, kind: CommandKind, parent: seq<string>, route: RouteID, use: RouteUse)
    requires !use.Owned?
    ensures RouteUsed(route, use) in CommandClaims(command, kind, parent) <==> exists position :: RefersBelow(command, position, route, use)
    decreases command
  {
    var path := parent + [PathName(command)];
    OwnHold(command, kind, parent, route, use);
    ChildrenHold(command.kind, command.children, kind, path, route, use);
    if RefersTo(command, route, use) { assert RefersBelow(command, [], route, use); }
    if i, position :| 0 <= i < |command.children| && RefersBelow(command.children[i], position, route, use) {
      var below := [i] + position;
      assert below[1..] == position;
      assert RefersBelow(command, below, route, use);
    }
    if position :| RefersBelow(command, position, route, use) {
      if position != [] { assert RefersBelow(command.children[position[0]], position[1..], route, use); }
    }
  }

  lemma {:induction false} ChildrenHold(parentKind: CommandKind, children: seq<Command>, kind: CommandKind, path: seq<string>, route: RouteID, use: RouteUse)
    requires !use.Owned?
    ensures RouteUsed(route, use) in ChildrenClaims(parentKind, children, kind, path) <==>
              exists i, position :: 0 <= i < |children| && RefersBelow(children[i], position, route, use)
    decreases children
  {
    if children != [] {
      TreeHolds(children[0], kind, path, route, use);
      ChildrenHold(parentKind, children[1..], kind, path, route, use);
      if i, position :| 0 <= i < |children[1..]| && RefersBelow(children[1..][i], position, route, use) {
        assert RefersBelow(children[i + 1], position, route, use);
      }
      if i, position :| 0 <= i < |children| && RefersBelow(children[i], position, route, use) {
        if i > 0 { assert RefersBelow(children[1..][i - 1], position, route, use); }
      }
    }
  }

  ghost predicate CogRefers(cog: Cog, route: RouteID, use: RouteUse) {
    match use
    case AutocompleteReference => exists command, position :: command in cog.commands && RefersBelow(command, position, route, use)
    case CheckReference => exists check :: CheckInCog(cog, check) && check.kind.Custom? && check.route == route
    case Owned => false
  }

  lemma CommandsHold(cog: Cog, route: RouteID, use: RouteUse)
    requires !use.Owned?
    ensures RouteUsed(route, use) in Concat(cog.commands, TopLevelClaims) <==>
              exists command, position :: command in cog.commands && RefersBelow(command, position, route, use)
  {
    var c := RouteUsed(route, use);
    if c in Concat(cog.commands, TopLevelClaims) {
      var command := FromConcat(cog.commands, TopLevelClaims, c);
      TreeHolds(command, command.kind, [], route, use);
    }
    if command, position :| command in cog.commands && RefersBelow(command, position, route, use) {
      TreeHolds(command, command.kind, [], route, use);
      InConcat(cog.commands, TopLevelClaims, command, c);
    }
  }

  lemma ListHolds<T(!new)>(xs: seq<T>, claims: T -> seq<Claim>, checks: T -> seq<Check>, route: RouteID, use: RouteUse)
    requires !use.Owned?
    requires forall x :: x in xs ==> |claims(x)| >= 3 && claims(x) == claims(x)[..3] + ChecksClaims(checks(x)) && RouteUsed(route, use) !in claims(x)[..3]
    ensures RouteUsed(route, use) in Concat(xs, claims) <==> use.CheckReference? && exists x :: x in xs && ChecksRefer(checks(x), route)
  {
    var c := RouteUsed(route, use);
    if c in Concat(xs, claims) {
      var x := FromConcat(xs, claims, c);
      ChecksHold(checks(x), route, use);
    }
    if x :| use.CheckReference? && x in xs && ChecksRefer(checks(x), route) {
      ChecksHold(checks(x), route, use);
      InConcat(xs, claims, x, c);
    }
  }

  lemma ListenersHold(cog: Cog, route: RouteID, use: RouteUse)
    requires !use.Owned?
    ensures RouteUsed(route, use) in Concat(cog.listeners, ListenerClaims) <==>
              use.CheckReference? && exists x :: x in cog.listeners && ChecksRefer(x.checks, route)
  {
    ListHolds(cog.listeners, ListenerClaims, (x: Listener) => x.checks, route, use);
  }

  lemma TasksHold(cog: Cog, route: RouteID, use: RouteUse)
    requires !use.Owned?
    ensures RouteUsed(route, use) in Concat(cog.tasks, TaskClaims) <==>
              use.CheckReference? && exists x :: x in cog.tasks && ChecksRefer(x.checks, route)
  {
    ListHolds(cog.tasks, TaskClaims, (x: Task) => x.checks, route, use);
  }

  lemma ComponentsHold(cog: Cog, route: RouteID, use: RouteUse)
    requires !use.Owned?
    ensures RouteUsed(route, use) in Concat(cog.components, ComponentClaims) <==>
              use.CheckReference? && exists x :: x in cog.components && ChecksRefer(x.checks, route)
  {
    ListHolds(cog.components, ComponentClaims, (x: Component) => x.checks, route, use);
  }

  lemma ModalsHold(cog: Cog, route: RouteID, use: RouteUse)
    requires !use.Owned?
    ensures RouteUsed(route, use) in Concat(cog.modals, ModalClaims) <==>
              use.CheckReference? && exists x :: x in cog.modals && ChecksRefer(x.checks, route)
  {
    ListHolds(cog.modals, ModalClaims, (x: Modal) => x.checks, route, use);
  }

  lemma CogHolds(cog: Cog, route: RouteID, use: RouteUse)
    requires !use.Owned?
    ensures RouteUsed(route, use) in CogClaims(cog) <==> CogRefers(cog, route, use)
  {
    ChecksHold(cog.checks, route, use);
    CommandsHold(cog, route, use);
    ListenersHold(cog, route, use);
    TasksHold(cog, route, use);
    ComponentsHold(cog, route, use);
    ModalsHold(cog, route, use);
    if use.CheckReference? { CogChecks(cog, route); }
  }

  lemma CogChecks(cog: Cog, route: RouteID)
    ensures CogRefers(cog, route, CheckReference) <==>
              || ChecksRefer(cog.checks, route)
              || (exists command, position :: command in cog.commands && RefersBelow(command, position, route, CheckReference))
              || (exists x :: x in cog.listeners && ChecksRefer(x.checks, route))
              || (exists x :: x in cog.tasks && ChecksRefer(x.checks, route))
              || (exists x :: x in cog.components && ChecksRefer(x.checks, route))
              || (exists x :: x in cog.modals && ChecksRefer(x.checks, route))
  {
    if command, position :| command in cog.commands && RefersBelow(command, position, route, CheckReference) {
      var check :| check in CommandBelow(command, position).value.checks && check.kind.Custom? && check.route == route;
      assert CheckOnCommand(command, position, check);
    }
    if check :| CheckInCog(cog, check) && check.kind.Custom? && check.route == route {
      if command, position :| command in cog.commands && CheckOnCommand(command, position, check) {
        assert RefersBelow(command, position, route, CheckReference);
      }
    }
  }

  ghost predicate Refers(d: Definition, route: RouteID, use: RouteUse) { exists cog :: cog in d.cogs && CogRefers(cog, route, use) }

  /** An item has this route for itself. */
  ghost predicate RouteOwned(d: Definition, route: RouteID) { exists q :: RouteAt(d, q) == Some(route) }

  lemma DefinitionHolds(d: Definition, route: RouteID, use: RouteUse)
    ensures RouteUsed(route, use) in DefinitionClaims(d) <==> if use.Owned? then RouteOwned(d, route) else Refers(d, route, use)
  {
    var c := RouteUsed(route, use);
    if use.Owned? {
      DefinitionCounts(d, c);
      TimesIn(DefinitionClaims(d), c);
      forall q ensures EntersIn(d, q, c) <==> RouteAt(d, q) == Some(route) { PlaceEnters(d, q, c); }
    } else {
      if c in DefinitionClaims(d) {
        var cog := FromConcat(d.cogs, CogClaims, c);
        CogHolds(cog, route, use);
      }
      if cog :| cog in d.cogs && CogRefers(cog, route, use) {
        CogHolds(cog, route, use);
        InConcat(d.cogs, CogClaims, cog, c);
      }
    }
  }

  /** A route belongs to one item, or is shared by autocomplete options alone, or by checks alone. */
  ghost predicate RoutesOfOneUse(d: Definition) {
    forall route, u: RouteUse, v: RouteUse :: UsedAs(d, route, u) && UsedAs(d, route, v) ==> u == v
  }

  ghost predicate UsedAs(d: Definition, route: RouteID, use: RouteUse) {
    if use.Owned? then RouteOwned(d, route) else Refers(d, route, use)
  }

  lemma OneUseIff(d: Definition)
    ensures OneUse(DefinitionClaims(d)) <==> RoutesOfOneUse(d)
  {
    forall route, use ensures RouteUsed(route, use) in DefinitionClaims(d) <==> UsedAs(d, route, use) { DefinitionHolds(d, route, use); }
  }

  // ----- Names of cogs and numbers of commands -----

  ghost predicate CogNamesDiffer(d: Definition) {
    forall i, j :: 0 <= i < j < |d.cogs| ==> ToLower(TrimSpace(d.cogs[i].name)) != ToLower(TrimSpace(d.cogs[j].name))
  }

  function Kinds(commands: seq<Command>): seq<CommandKind> { seq(|commands|, i requires 0 <= i < |commands| => commands[i].kind) }

  /** The kinds of all top-level commands. */
  function TopLevelKinds(d: Definition): seq<CommandKind> { Concat(d.cogs, (cog: Cog) => Kinds(cog.commands)) }

  ghost predicate CommandsWithinLimits(d: Definition) {
    forall kind: CommandKind :: multiset(TopLevelKinds(d))[kind] <= if kind.UserContext? || kind.MessageContext? then 5 else 100
  }

  /** Neither a cog's name nor a top-level command. */
  ghost predicate Plain(claims: seq<Claim>) { forall c :: c in claims ==> !c.CogNamed? && !c.TopLevel? }

  lemma {:induction false} PlainConcat<T(!new)>(xs: seq<T>, claims: T -> seq<Claim>)
    requires forall x :: x in xs ==> Plain(claims(x))
    ensures Plain(Concat(xs, claims))
  {
    if xs != [] { PlainConcat(xs[1..], claims); }
  }

  lemma {:induction false} PlainOptions(options: seq<OptionDefinition>, i: nat)
    requires i <= |options|
    ensures Plain(OptionsClaimsFrom(options, i))
    decreases |options| - i
  {
    if i < |options| { PlainOptions(options, i + 1); }
  }

  lemma PlainChecks(checks: seq<Check>)
    ensures Plain(ChecksClaims(checks))
  {
    PlainConcat(checks, CheckClaims);
  }

  lemma PlainOwn(command: Command, kind: CommandKind, parent: seq<string>)
    ensures Plain(OwnClaims(command, kind, parent))
  {
    PlainOptions(command.options, 0);
    PlainChecks(command.checks);
  }

  lemma {:induction false} PlainTree(command: Command, kind: CommandKind, parent: seq<string>)
    ensures Plain(CommandClaims(command, kind, parent))
    decreases command
  {
    PlainOwn(command, kind, parent);
    PlainChildren(command.kind, command.children, kind, parent + [PathName(command)]);
  }

  lemma {:induction false} PlainChildren(parentKind: CommandKind, children: seq<Command>, kind: CommandKind, path: seq<string>)
    ensures Plain(ChildrenClaims(parentKind, children, kind, path))
    decreases children
  {
    if children != [] {
      PlainTree(children[0], kind, path);
      PlainChildren(parentKind, children[1..], kind, path);
    }
  }

  lemma PlainLists(cog: Cog)
    ensures Plain(Concat(cog.listeners, ListenerClaims)) && Plain(Concat(cog.tasks, TaskClaims))
    ensures Plain(Concat(cog.components, ComponentClaims)) && Plain(Concat(cog.modals, ModalClaims))
  {
    forall x: Listener ensures Plain(ListenerClaims(x)) { PlainChecks(x.checks); }
    PlainConcat(cog.listeners, ListenerClaims);
    forall x: Task ensures Plain(TaskClaims(x)) { PlainChecks(x.checks); }
    PlainConcat(cog.tasks, TaskClaims);
    forall x: Component ensures Plain(ComponentClaims(x)) { PlainChecks(x.checks); }
    PlainConcat(cog.components, ComponentClaims);
    forall x: Modal ensures Plain(ModalClaims(x)) { PlainChecks(x.checks); }
    PlainConcat(cog.modals, ModalClaims);
  }

  lemma TimesPlain(claims: seq<Claim>, c: Claim)
    requires Plain(claims) && (c.CogNamed? || c.TopLevel?)
    ensures Times(claims, c) == 0
  {
    TimesNone(claims, c);
  }

  lemma {:induction false} TopLevelTimesOf(commands: seq<Command>, kind: CommandKind)
    ensures Times(Concat(commands, TopLevelClaims), TopLevel(kind)) == multiset(Kinds(commands))[kind]
  {
    if commands != [] {
      var c, first := TopLevel(kind), commands[0];
      TopLevelTimesOf(commands[1..], kind);
      TimesAppend(TopLevelClaims(first), Concat(commands[1..], TopLevelClaims), c);
      TopLevelOnce(first, c);
      KindsNext(commands, kind);
    }
  }

  lemma KindsNext(commands: seq<Command>, kind: CommandKind)
    requires commands != []
    ensures multiset(Kinds(commands))[kind] == (if commands[0].kind == kind then 1 else 0) + multiset(Kinds(commands[1..]))[kind]
  {
    assert Kinds(commands) == [commands[0].kind] + Kinds(commands[1..]);
  }

  lemma TopLevelOnce(command: Command, c: Claim)
    requires c.TopLevel?
    ensures Times(TopLevelClaims(command), c) == if c.kind == command.kind then 1 else 0
  {
    var head := TopLevelClaims(command)[..2];
    assert TopLevelClaims(command) == head + CommandClaims(command, command.kind, []) && head == [head[0], head[1]];
    TimesAppend(head, CommandClaims(command, command.kind, []), c);
    TimesTwo(head[0], head[1], c);
    PlainTree(command, command.kind, []);
    TimesPlain(CommandClaims(command, command.kind, []), c);
  }

  lemma CogTopLevel(cog: Cog, kind: CommandKind)
    ensures Times(CogClaims(cog), TopLevel(kind)) == multiset(Kinds(cog.commands))[kind]
  {
    var c := TopLevel(kind);
    var c0, c1, c2 := [CogNamed(cog.name)], ChecksClaims(cog.checks), Concat(cog.commands, TopLevelClaims);
    var c3, c4 := Concat(cog.listeners, ListenerClaims), Concat(cog.tasks, TaskClaims);
    var c5, c6 := Concat(cog.components, ComponentClaims), Concat(cog.modals, ModalClaims);
    TimesAppend(c0, c1, c);
    TimesAppend(c0 + c1, c2, c);
    TimesAppend(c0 + c1 + c2, c3, c);
    TimesAppend(c0 + c1 + c2 + c3, c4, c);
    TimesAppend(c0 + c1 + c2 + c3 + c4, c5, c);
    TimesAppend(c0 + c1 + c2 + c3 + c4 + c5, c6, c);
    PlainLists(cog);
    PlainChecks(cog.checks);
    TimesNone(c0, c);
    TimesPlain(c1, c);
    TimesPlain(c3, c);
    TimesPlain(c4, c);
    TimesPlain(c5, c);
    TimesPlain(c6, c);
    TopLevelTimesOf(cog.commands, kind);
  }

  lemma {:induction false} CogsTopLevel(cogs: seq<Cog>, kind: CommandKind)
    ensures Times(Concat(cogs, CogClaims), TopLevel(kind)) == multiset(Concat(cogs, (cog: Cog) => Kinds(cog.commands)))[kind]
  {
    if cogs != [] {
      CogTopLevel(cogs[0], kind);
      CogsTopLevel(cogs[1..], kind);
      TimesAppend(CogClaims(cogs[0]), Concat(cogs[1..], CogClaims), TopLevel(kind));
    }
  }

  lemma {:induction false} CountIsTimes(claims: seq<Claim>, kind: CommandKind)
    ensures TopLevelCount(claims, kind) == Times(claims, TopLevel(kind))
  {
    if claims != [] { CountIsTimes(claims[1..], kind); }
  }

  lemma LimitsIff(d: Definition)
    ensures WithinLimits(EmptyTables, DefinitionClaims(d)) <==> CommandsWithinLimits(d)
  {
    forall kind: CommandKind ensures TopLevelCount(DefinitionClaims(d), kind) == multiset(TopLevelKinds(d))[kind] {
      var head := DefinitionClaims(d)[..1];
      assert DefinitionClaims(d) == head + Concat(d.cogs, CogClaims);
      CountIsTimes(DefinitionClaims(d), kind);
      TimesAppend(head, Concat(d.cogs, CogClaims), TopLevel(kind));
      TimesNone(head, TopLevel(kind));
      CogsTopLevel(d.cogs, kind);
    }
    assert forall kind: CommandKind :: EmptyTables.Count(kind) == 0;
  }

  /** The names that cogs enter. */
  function CogNames(claims: seq<Claim>): seq<string> {
    if claims == [] then []
    else (if claims[0].CogNamed? then [claims[0].name] else []) + CogNames(claims[1..])
  }

  lemma {:induction false} CogNamesAppend(a: seq<Claim>, b: seq<Claim>)
    ensures CogNames(a + b) == CogNames(a) + CogNames(b)
  {
    if a == [] {
      assert a + b == b;
    } else {
      assert (a + b)[1..] == a[1..] + b;
      CogNamesAppend(a[1..], b);
    }
  }

  lemma {:induction false} CogNamesPlain(claims: seq<Claim>)
    requires forall c :: c in claims ==> !c.CogNamed?
    ensures CogNames(claims) == []
  {
    if claims != [] { CogNamesPlain(claims[1..]); }
  }

  ghost predicate KeysDiffer(names: seq<string>) { forall i, j :: 0 <= i < j < |names| ==> CogKey(names[i]) != CogKey(names[j]) }

  lemma {:induction false} CogNamesIn(claims: seq<Claim>, name: string)
    ensures name in CogNames(claims) <==> CogNamed(name) in claims
  {
    if claims != [] {
      var first, rest := claims[0], claims[1..];
      CogNamesIn(rest, name);
      assert claims == [first] + rest;
      if first.CogNamed? {
        assert CogNames(claims) == [first.name] + CogNames(rest);
        assert first == CogNamed(first.name);
      } else {
        assert CogNames(claims) == CogNames(rest);
      }
    }
  }

  lemma {:induction false} CogNamesApartIff(claims: seq<Claim>)
    ensures CogNamesApart(claims) <==> KeysDiffer(CogNames(claims))
  {
    if claims != [] {
      var first, rest := claims[0], claims[1..];
      CogNamesApartIff(rest);
      ApartNext(claims);
      forall name ensures name in CogNames(rest) <==> CogNamed(name) in rest { CogNamesIn(rest, name); }
      if first.CogNamed? {
        assert CogNames(claims) == [first.name] + CogNames(rest);
        KeysNext(first.name, CogNames(rest));
      } else {
        assert CogNames(claims) == CogNames(rest);
      }
    }
  }

  lemma ApartNext(claims: seq<Claim>)
    requires claims != []
    ensures CogNamesApart(claims) <==>
              CogNamesApart(claims[1..])
              && (claims[0].CogNamed? ==> forall name :: CogNamed(name) in claims[1..] ==> CogKey(name) != CogKey(claims[0].name))
  {
    var rest := claims[1..];
    assert forall j :: 0 <= j < |rest| ==> rest[j] == claims[j + 1];
    if CogNamesApart(claims) {
      forall i, j | 0 <= i < j < |rest| && rest[i].CogNamed? && rest[j].CogNamed? ensures CogKey(rest[i].name) != CogKey(rest[j].name) {
        assert claims[i + 1] == rest[i] && claims[j + 1] == rest[j];
      }
      forall name | claims[0].CogNamed? && CogNamed(name) in rest ensures CogKey(name) != CogKey(claims[0].name) {
        var j :| 0 <= j < |rest| && rest[j] == CogNamed(name);
        assert claims[j + 1] == rest[j];
      }
    }
    if CogNamesApart(rest) && (claims[0].CogNamed? ==> forall name :: CogNamed(name) in rest ==> CogKey(name) != CogKey(claims[0].name)) {
      forall i, j | 0 <= i < j < |claims| && claims[i].CogNamed? && claims[j].CogNamed?
        ensures CogKey(claims[i].name) != CogKey(claims[j].name)
      {
        assert claims[j] == rest[j - 1] && claims[j] == CogNamed(claims[j].name);
        if i > 0 { assert claims[i] == rest[i - 1]; } else { assert rest[j - 1] in rest; }
      }
    }
  }

  lemma KeysNext(name: string, names: seq<string>)
    ensures KeysDiffer([name] + names) <==> KeysDiffer(names) && forall other :: other in names ==> CogKey(other) != CogKey(name)
  {
    var all := [name] + names;
    assert forall j :: 0 <= j < |names| ==> names[j] == all[j + 1];
    if KeysDiffer(all) {
      forall i, j | 0 <= i < j < |names| ensures CogKey(names[i]) != CogKey(names[j]) { assert all[i + 1] == names[i] && all[j + 1] == names[j]; }
      forall other | other in names ensures CogKey(other) != CogKey(name) {
        var j :| 0 <= j < |names| && names[j] == other;
        assert all[0] == name && all[j + 1] == other;
      }
    }
    if KeysDiffer(names) && forall other :: other in names ==> CogKey(other) != CogKey(name) {
      forall i, j | 0 <= i < j < |all| ensures CogKey(all[i]) != CogKey(all[j]) {
        assert all[j] == names[j - 1] && all[j] in names;
        if i > 0 { assert all[i] == names[i - 1]; }
      }
    }
  }

  lemma NoCogInCommands(commands: seq<Command>)
    ensures forall c :: c in Concat(commands, TopLevelClaims) ==> !c.CogNamed?
  {
    forall c | c in Concat(commands, TopLevelClaims) ensures !c.CogNamed? {
      var command := FromConcat(commands, TopLevelClaims, c);
      PlainTree(command, command.kind, []);
    }
  }

  lemma CogNamesOfCog(cog: Cog)
    ensures CogNames(CogClaims(cog)) == [cog.name]
  {
    var c0, c1, c2 := [CogNamed(cog.name)], ChecksClaims(cog.checks), Concat(cog.commands, TopLevelClaims);
    var c3, c4 := Concat(cog.listeners, ListenerClaims), Concat(cog.tasks, TaskClaims);
    var c5, c6 := Concat(cog.components, ComponentClaims), Concat(cog.modals, ModalClaims);
    CogNamesAppend(c0, c1);
    CogNamesAppend(c0 + c1, c2);
    CogNamesAppend(c0 + c1 + c2, c3);
    CogNamesAppend(c0 + c1 + c2 + c3, c4);
    CogNamesAppend(c0 + c1 + c2 + c3 + c4, c5);
    CogNamesAppend(c0 + c1 + c2 + c3 + c4 + c5, c6);
    assert c0[1..] == [];
    OtherNames(cog);
  }

  lemma OtherNames(cog: Cog)
    ensures CogNames(ChecksClaims(cog.checks)) == [] && CogNames(Concat(cog.commands, TopLevelClaims)) == []
    ensures CogNames(Concat(cog.listeners, ListenerClaims)) == [] && CogNames(Concat(cog.tasks, TaskClaims)) == []
    ensures CogNames(Concat(cog.components, ComponentClaims)) == [] && CogNames(Concat(cog.modals, ModalClaims)) == []
  {
    PlainLists(cog);
    PlainChecks(cog.checks);
    NoCogInCommands(cog.commands);
    CogNamesPlain(ChecksClaims(cog.checks));
    CogNamesPlain(Concat(cog.commands, TopLevelClaims));
    CogNamesPlain(Concat(cog.listeners, ListenerClaims));
    CogNamesPlain(Concat(cog.tasks, TaskClaims));
    CogNamesPlain(Concat(cog.components, ComponentClaims));
    CogNamesPlain(Concat(cog.modals, ModalClaims));
  }

  lemma {:induction false} CogNamesOfCogs(cogs: seq<Cog>)
    ensures |CogNames(Concat(cogs, CogClaims))| == |cogs|
    ensures forall i :: 0 <= i < |cogs| ==> CogNames(Concat(cogs, CogClaims))[i] == cogs[i].name
  {
    if cogs != [] {
      CogNamesOfCog(cogs[0]);
      CogNamesOfCogs(cogs[1..]);
      CogNamesAppend(CogClaims(cogs[0]), Concat(cogs[1..], CogClaims));
      var rest := CogNames(Concat(cogs[1..], CogClaims));
      assert CogNames(Concat(cogs, CogClaims)) == [cogs[0].name] + rest;
      forall i | 0 <= i < |cogs| ensures ([cogs[0].name] + rest)[i] == cogs[i].name {
        if i > 0 { assert cogs[i] == cogs[1..][i - 1]; }
      }
    }
  }

  lemma CogNamesIff(d: Definition)
    ensures CogNamesApart(DefinitionClaims(d)) <==> CogNamesDiffer(d)
  {
    var head := DefinitionClaims(d)[..1];
    assert DefinitionClaims(d) == head + Concat(d.cogs, CogClaims);
    CogNamesAppend(head, Concat(d.cogs, CogClaims));
    CogNamesPlain(head);
    CogNamesOfCogs(d.cogs);
    CogNamesApartIff(DefinitionClaims(d));
    NamesAgree(CogNames(DefinitionClaims(d)), d);
  }

  lemma NamesAgree(names: seq<string>, d: Definition)
    requires |names| == |d.cogs| && forall i :: 0 <= i < |names| ==> names[i] == d.cogs[i].name
    ensures KeysDiffer(names) <==> CogNamesDiffer(d)
  {
  }

  // ----- The main result -----

  /** A definition is accepted exactly when it is well formed, its cogs have different names and not too many
      commands, no two of its places share a path, an id or a route, and each route has one kind of use. */
  lemma AcceptedIff(d: Definition)
    ensures ValidationFault(d) == None <==>
              WellFormed(d) && CogNamesDiffer(d) && CommandsWithinLimits(d) && PlacesApart(d) && RoutesOfOneUse(d)
  {
    var claims := DefinitionClaims(d);
    ValidationAccepts(d);
    DefinitionSound(d);
    CompatibleIff(claims);
    CogNamesIff(d);
    LimitsIff(d);
    OneUseIff(d);
    if WellFormed(d) {
      SoleApartIff(claims);
      forall c | Sole(c) ensures Times(claims, c) <= 1 <==> !Shared(d, c) { DefinitionCounts(d, c); }
      SoleSharedIff(d);
    }
  }
}
