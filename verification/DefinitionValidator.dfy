/** The validator as the source runs it: recursive methods that write to shared tables. Each method
    is proved to do what processing its claims does. */
module DefinitionValidator {
  import opened Wrappers
  import opened GoText
  import opened PluginContract
  import opened DefinitionValidation

  /** A run stopped with `fault` (or none) in tables `after`, as the specification says. */
  predicate Follows(fault: Option<Fault>, after: Tables, spec: Result<Tables, Fault>) {
    if spec.Err? then fault == Some(spec.error) else fault == None && after == spec.value
  }

  lemma ProcessStep(claim: Claim, rest: seq<Claim>, t: Tables)
    ensures Process([claim], t) == Apply(claim, t)
    ensures Process([claim] + rest, t) ==
            var next := Apply(claim, t);
            if next.Err? then next else Process(rest, next.value)
  {
    assert Process([claim], t) == Apply(claim, t) by {
      assert [claim][1..] == [];
    }
    ProcessAppend([claim], rest, t);
  }

  /** The scan with a `seen` map that finds invalid and repeated entries of a list. */
  method ScanList<T(==)>(entries: seq<T>, valid: T -> bool, invalid: Fault, repeated: Fault) returns (fault: Option<Fault>)
    ensures fault == ListFault(entries, 0, valid, invalid, repeated)
  {
    var seen: set<T> := {};
    for i := 0 to |entries|
      invariant seen == set e | e in entries[..i]
      invariant ListFault(entries, 0, valid, invalid, repeated) == ListFault(entries, i, valid, invalid, repeated)
    {
      if !valid(entries[i]) { return Some(invalid); }
      if entries[i] in seen { return Some(repeated); }
      seen := seen + {entries[i]};
    }
    return None;
  }

  method ScanDefaultPermissions(permissions: seq<string>) returns (fault: Option<Fault>)
    ensures fault == DefaultPermissionsFault(permissions, 0)
  {
    var seen: set<string> := {};
    for i := 0 to |permissions|
      invariant seen == set p | p in TrimAll(permissions[..i])
      invariant DefaultPermissionsFault(permissions, 0) == DefaultPermissionsFault(permissions, i)
    {
      var permission := TrimSpace(permissions[i]);
      if permission == "" { return Some(EmptyPermission); }
      if !ValidPermission(permission) { return Some(UnsupportedPermission); }
      if permission in seen { return Some(RepeatedPermission); }
      seen := seen + {permission};
      assert TrimAll(permissions[..i + 1]) == TrimAll(permissions[..i]) + [permission];
    }
    return None;
  }

  method ScanChoices(option: OptionDefinition) returns (fault: Option<Fault>)
    ensures fault == ChoicesFault(option, 0)
  {
    if |option.choices| > 25 { return Some(TooManyChoices); }
    var names: set<string> := {};
    for i := 0 to |option.choices|
      invariant names == set j | 0 <= j < i :: TrimSpace(option.choices[j].name)
      invariant ChoicesFault(option, 0) == ChoicesFault(option, i)
    {
      var name, value := TrimSpace(option.choices[i].name), option.choices[i].value;
      if name == "" || |name| > 100 { return Some(InvalidChoiceName); }
      if name in names { return Some(DuplicateChoice); }
      names := names + {name};
      if ChoiceValueFault(value) != None { return ChoiceValueFault(value); }
      if ChoiceKindDiffers(option.kind, value.kind) { return Some(ChoiceKindMismatch); }
    }
    return None;
  }

  class Validator {
    var cogNames: set<string>
    var counts: map<CommandKind, nat>
    var paths: set<string>
    var ids: set<(IdClass, string)>
    var routes: map<RouteID, RouteUse>

    function Entered(): Tables
      reads this
    {
      Tables(cogNames, counts, paths, ids, routes)
    }

    constructor ()
      ensures Entered() == EmptyTables
    {
      cogNames, counts, paths, ids, routes := {}, map[], {}, {}, map[];
    }

    method AddRoute(route: RouteID) returns (fault: Option<Fault>)
      modifies this`routes
      ensures Follows(fault, Entered(), Apply(RouteUsed(route, Owned), old(Entered())))
    {
      if TrimSpace(route) == "" { return Some(RouteRequired); }
      if !CanonicalRoute(route) { return Some(RouteNotCanonical); }
      if route in routes { return Some(DuplicateRoute); }
      routes := routes[route := Owned];
      return None;
    }

    method AddRouteReference(route: RouteID, use: RouteUse) returns (fault: Option<Fault>)
      requires !use.Owned?
      modifies this`routes
      ensures Follows(fault, Entered(), Apply(RouteUsed(route, use), old(Entered())))
    {
      if !CanonicalRoute(route) { return Some(RouteNotCanonical); }
      if route in routes {
        if routes[route] == use { return None; }
        return Some(DuplicateRoute);
      }
      routes := routes[route := use];
      return None;
    }

    method ValidateNamedRoute(space: IdClass, id: string, route: RouteID) returns (fault: Option<Fault>)
      modifies this`ids, this`routes
      ensures Follows(fault, Entered(), Process([IdUsed(space, id), RouteUsed(route, Owned)], old(Entered())))
    {
      ProcessStep(IdUsed(space, id), [RouteUsed(route, Owned)], Entered());
      assert [IdUsed(space, id)] + [RouteUsed(route, Owned)] == [IdUsed(space, id), RouteUsed(route, Owned)];
      if !HandlerId(id) { return Some(InvalidId); }
      if (space, id) in ids { return Some(DuplicateId); }
      ids := ids + {(space, id)};
      ProcessStep(RouteUsed(route, Owned), [], Entered());
      fault := AddRoute(route);
    }

    method ValidateChecks(checks: seq<Check>) returns (fault: Option<Fault>)
      modifies this`routes
      ensures Follows(fault, Entered(), Process(ChecksClaims(checks), old(Entered())))
    {
      for i := 0 to |checks|
        invariant Process(ChecksClaims(checks), old(Entered())) == Process(ChecksClaims(checks[i..]), Entered())
      {
        assert checks[i..][0] == checks[i] && checks[i..][1..] == checks[i + 1..];
        ProcessAppend(CheckClaims(checks[i]), ChecksClaims(checks[i + 1..]), Entered());
        ProcessStep(CheckClaims(checks[i])[0], [], Entered());
        match checks[i].kind {
          case GuildOnly | OwnerOnly =>
            if checks[i].permissions != [] || checks[i].route != "" { return Some(CheckArguments); }
          case HasPermissions =>
            if checks[i].permissions == [] { return Some(PermissionsRequired); }
            if checks[i].route != "" { return Some(CheckArguments); }
            var bad := ScanList(checks[i].permissions, ValidPermission, UnsupportedPermission, RepeatedPermission);
            if bad != None { return bad; }
          case Custom =>
            fault := AddRouteReference(checks[i].route, CheckReference);
            if fault != None { return; }
          case UnknownCheck(_) =>
            return Some(UnsupportedCheck);
        }
      }
      return None;
    }

    method ValidateOptions(options: seq<OptionDefinition>) returns (fault: Option<Fault>)
      modifies this`routes
      ensures Follows(fault, Entered(), Process(OptionsClaims(options), old(Entered())))
    {
      ProcessStep(Verdict(FaultIf(|options| > 25, TooManyOptions)), OptionsClaimsFrom(options, 0), Entered());
      if |options| > 25 { return Some(TooManyOptions); }
      fault := ValidateEachOption(options);
    }

    method ValidateEachOption(options: seq<OptionDefinition>) returns (fault: Option<Fault>)
      modifies this`routes
      ensures Follows(fault, Entered(), Process(OptionsClaimsFrom(options, 0), old(Entered())))
    {
      var seen: set<string> := {};
      var optionalSeen := false;
      ghost var spec := Process(OptionsClaimsFrom(options, 0), Entered());
      for i := 0 to |options|
        invariant seen == KeysBefore(options, i)
        invariant optionalSeen <==> OptionalBefore(options, i)
        invariant spec == Process(OptionsClaimsFrom(options, i), Entered())
      {
        var option := options[i];
        OptionSteps(options, i, OptionsClaimsFrom(options, i + 1), Entered());
        if OptionHeadFault(option) != None { return OptionHeadFault(option); }
        if OptionKey(option) in seen { return Some(DuplicateOption); }
        seen := seen + {OptionKey(option)};
        if !option.required {
          optionalSeen := true;
        } else if optionalSeen {
          return Some(RequiredAfterOptional);
        }
        if LimitsFault(option) != None { return LimitsFault(option); }
        fault := ValidateSelection(option);
        if fault != None { return; }
      }
      return None;
    }

    /** The autocomplete route and the choices of one option. */
    method ValidateSelection(option: OptionDefinition) returns (fault: Option<Fault>)
      modifies this`routes
      ensures Follows(fault, Entered(), SelectionStep(option, old(Entered())))
    {
      if option.autocomplete != "" {
        fault := AddRouteReference(option.autocomplete, AutocompleteReference);
        if fault != None { return; }
      }
      fault := ScanChoices(option);
    }

    method ValidateCommand(command: Command, namespace: CommandKind, parent: seq<string>) returns (fault: Option<Fault>)
      modifies this`routes, this`paths
      ensures Follows(fault, Entered(), Process(CommandClaims(command, namespace, parent), old(Entered())))
      decreases command
    {
      var path := parent + [PathName(command)];
      ProcessAppend(OwnClaims(command, namespace, parent),
                    ChildrenClaims(command.kind, command.children, namespace, path), Entered());
      fault := ValidateOwn(command, namespace, parent);
      if fault != None { return; }
      fault := ValidateChildren(command.kind, command.children, namespace, path);
    }

    /** The loop over the children in `validateCommand`. */
    method ValidateChildren(parentKind: CommandKind, children: seq<Command>, namespace: CommandKind, path: seq<string>)
      returns (fault: Option<Fault>)
      modifies this`routes, this`paths
      ensures Follows(fault, Entered(), Process(ChildrenClaims(parentKind, children, namespace, path), old(Entered())))
      decreases children
    {
      ghost var spec := Process(ChildrenClaims(parentKind, children, namespace, path), Entered());
      for i := 0 to |children|
        invariant spec == Process(ChildrenClaims(parentKind, children[i..], namespace, path), Entered())
      {
        var child := children[i];
        assert children[i..][0] == child && children[i..][1..] == children[i + 1..];
        ChildSteps(parentKind, children[i..], namespace, path, Entered());
        if ChildKindFault(parentKind, child.kind) != None { return ChildKindFault(parentKind, child.kind); }
        fault := ValidateCommand(child, namespace, path);
        if fault != None { return; }
      }
      return None;
    }

    /** The part of `validateCommand` before the loop over the children. */
    method ValidateOwn(command: Command, namespace: CommandKind, parent: seq<string>) returns (fault: Option<Fault>)
      modifies this`routes, this`paths
      ensures Follows(fault, Entered(), Process(OwnClaims(command, namespace, parent), old(Entered())))
    {
      OwnSteps(command, namespace, parent, Entered());
      if CommandNameFault(command, parent) != None { return CommandNameFault(command, parent); }
      var key := PathKey(namespace, parent + [PathName(command)]);
      if key in paths { return Some(DuplicatePath); }
      paths := paths + {key};
      if Container(command) {
        if ContainerFault(command) != None { return ContainerFault(command); }
      } else {
        fault := AddRoute(command.route);
        if fault != None { return; }
      }
      if CommandShapeFault(command) != None { return CommandShapeFault(command); }
      ProcessAppend(OptionsClaims(command.options), ChecksClaims(command.checks), Entered());
      fault := ValidateOptions(command.options);
      if fault != None { return; }
      fault := ValidateChecks(command.checks);
    }

    method CountTopLevel(kind: CommandKind) returns (fault: Option<Fault>)
      modifies this`counts
      ensures Follows(fault, Entered(), Apply(TopLevel(kind), old(Entered())))
    {
      counts := counts[kind := Entered().Count(kind) + 1];
      if counts[kind] > CommandLimit(kind) { return Some(TooManyCommands); }
      return None;
    }

    method ValidateTopLevel(commands: seq<Command>) returns (fault: Option<Fault>)
      modifies this
      ensures Follows(fault, Entered(), Process(Concat(commands, TopLevelClaims), old(Entered())))
    {
      ghost var spec := Process(Concat(commands, TopLevelClaims), Entered());
      for i := 0 to |commands|
        invariant spec == Process(Concat(commands[i..], TopLevelClaims), Entered())
      {
        var command := commands[i];
        assert commands[i..][0] == command && commands[i..][1..] == commands[i + 1..];
        ProcessAppend(TopLevelClaims(command), Concat(commands[i + 1..], TopLevelClaims), Entered());
        TopLevelSteps(command, Entered());
        fault := CountTopLevel(command.kind);
        if fault != None { return; }
        if !TopLevelKind(command.kind) { return Some(IllegalTopLevelKind); }
        fault := ValidateCommand(command, command.kind, []);
        if fault != None { return; }
      }
      return None;
    }

    method ValidateListeners(listeners: seq<Listener>) returns (fault: Option<Fault>)
      modifies this
      ensures Follows(fault, Entered(), Process(Concat(listeners, ListenerClaims), old(Entered())))
    {
      ghost var spec := Process(Concat(listeners, ListenerClaims), Entered());
      for i := 0 to |listeners|
        invariant spec == Process(Concat(listeners[i..], ListenerClaims), Entered())
      {
        var listener := listeners[i];
        assert listeners[i..][0] == listener && listeners[i..][1..] == listeners[i + 1..];
        ProcessAppend(ListenerClaims(listener), Concat(listeners[i + 1..], ListenerClaims), Entered());
        NamedSteps(ListenerId, listener.id, listener.route, FaultIf(TrimSpace(listener.event) == "", BlankEvent),
                   ChecksClaims(listener.checks), Entered());
        fault := ValidateNamedRoute(ListenerId, listener.id, listener.route);
        if fault != None { return; }
        if TrimSpace(listener.event) == "" { return Some(BlankEvent); }
        fault := ValidateChecks(listener.checks);
        if fault != None { return; }
      }
      return None;
    }

    method ValidateTasks(tasks: seq<Task>) returns (fault: Option<Fault>)
      modifies this
      ensures Follows(fault, Entered(), Process(Concat(tasks, TaskClaims), old(Entered())))
    {
      ghost var spec := Process(Concat(tasks, TaskClaims), Entered());
      for i := 0 to |tasks|
        invariant spec == Process(Concat(tasks[i..], TaskClaims), Entered())
      {
        var task := tasks[i];
        assert tasks[i..][0] == task && tasks[i..][1..] == tasks[i + 1..];
        ProcessAppend(TaskClaims(task), Concat(tasks[i + 1..], TaskClaims), Entered());
        NamedSteps(TaskId, task.id, task.route, FaultIf(TrimSpace(task.schedule) == "", BlankSchedule),
                   ChecksClaims(task.checks), Entered());
        fault := ValidateNamedRoute(TaskId, task.id, task.route);
        if fault != None { return; }
        if TrimSpace(task.schedule) == "" { return Some(BlankSchedule); }
        fault := ValidateChecks(task.checks);
        if fault != None { return; }
      }
      return None;
    }

    method ValidateComponents(components: seq<Component>) returns (fault: Option<Fault>)
      modifies this
      ensures Follows(fault, Entered(), Process(Concat(components, ComponentClaims), old(Entered())))
    {
      ghost var spec := Process(Concat(components, ComponentClaims), Entered());
      for i := 0 to |components|
        invariant spec == Process(Concat(components[i..], ComponentClaims), Entered())
      {
        var component := components[i];
        assert components[i..][0] == component && components[i..][1..] == components[i + 1..];
        ProcessAppend(ComponentClaims(component), Concat(components[i + 1..], ComponentClaims), Entered());
        VerdictNamedSteps(ComponentFault(component), ComponentId, component.id, component.route,
                          ChecksClaims(component.checks), Entered());
        if component.kinds == [] { return Some(KindsRequired); }
        var bad := ScanList(component.kinds, (k: ComponentKind) => !k.UnknownComponent?,
                            InvalidComponentKind, RepeatedComponentKind);
        if bad != None { return bad; }
        if !ValidDefer(component.deferMode) { return Some(InvalidDefer); }
        fault := ValidateNamedRoute(ComponentId, component.id, component.route);
        if fault != None { return; }
        fault := ValidateChecks(component.checks);
        if fault != None { return; }
      }
      return None;
    }

    method ValidateModals(modals: seq<Modal>) returns (fault: Option<Fault>)
      modifies this
      ensures Follows(fault, Entered(), Process(Concat(modals, ModalClaims), old(Entered())))
    {
      ghost var spec := Process(Concat(modals, ModalClaims), Entered());
      for i := 0 to |modals|
        invariant spec == Process(Concat(modals[i..], ModalClaims), Entered())
      {
        var modal := modals[i];
        assert modals[i..][0] == modal && modals[i..][1..] == modals[i + 1..];
        ProcessAppend(ModalClaims(modal), Concat(modals[i + 1..], ModalClaims), Entered());
        VerdictNamedSteps(ModalFault(modal), ModalId, modal.id, modal.route, ChecksClaims(modal.checks), Entered());
        if !(1 <= |modal.fields| <= 5) { return Some(FieldCount); }
        var bad := ScanList(FieldIds(modal.fields), HandlerId, InvalidField, RepeatedField);
        if bad != None { return bad; }
        if !ValidDefer(modal.deferMode) { return Some(InvalidDefer); }
        fault := ValidateNamedRoute(ModalId, modal.id, modal.route);
        if fault != None { return; }
        fault := ValidateChecks(modal.checks);
        if fault != None { return; }
      }
      return None;
    }

    method ValidateCog(cog: Cog) returns (fault: Option<Fault>)
      modifies this
      ensures Follows(fault, Entered(), Process(CogClaims(cog), old(Entered())))
    {
      CogSteps(cog, Entered());
      var name := TrimSpace(cog.name);
      if name == "" { return Some(CogNameRequired); }
      if |name| > 100 { return Some(CogNameTooLong); }
      if ToLower(name) in cogNames { return Some(DuplicateCogName); }
      cogNames := cogNames + {ToLower(name)};
      fault := ValidateChecks(cog.checks);
      if fault != None { return; }
      fault := ValidateTopLevel(cog.commands);
      if fault != None { return; }
      fault := ValidateListeners(cog.listeners);
      if fault != None { return; }
      fault := ValidateTasks(cog.tasks);
      if fault != None { return; }
      fault := ValidateComponents(cog.components);
      if fault != None { return; }
      fault := ValidateModals(cog.modals);
    }
  }

  /** `Definition.Validate`: the verdict, from fresh tables. */
  method Validate(d: Definition) returns (fault: Option<Fault>)
    ensures fault == ValidationFault(d)
    ensures fault == None <==> Acceptable(DefinitionClaims(d))
  {
    ValidationAccepts(d);
    ProcessStep(DefinitionClaims(d)[0], Concat(d.cogs, CogClaims), EmptyTables);
    if d.cogs == [] { return Some(NoCogs); }
    var validator := new Validator();
    for i := 0 to |d.cogs|
      invariant Process(DefinitionClaims(d), EmptyTables) == Process(Concat(d.cogs[i..], CogClaims), validator.Entered())
    {
      assert d.cogs[i..][0] == d.cogs[i] && d.cogs[i..][1..] == d.cogs[i + 1..];
      ProcessAppend(CogClaims(d.cogs[i]), Concat(d.cogs[i + 1..], CogClaims), validator.Entered());
      fault := validator.ValidateCog(d.cogs[i]);
      if fault != None { return; }
    }
    return None;
  }

  // ----- Unfolding claim sequences one step at a time -----

  /** Processing `[a] + [b] + ...` reads as the calls in sequence. */
  function Then(first: Result<Tables, Fault>, rest: seq<Claim>): Result<Tables, Fault> {
    if first.Err? then first else Process(rest, first.value)
  }

  ghost function KeysBefore(options: seq<OptionDefinition>, i: nat): set<string>
    requires i <= |options|
  {
    set j | 0 <= j < i :: OptionKey(options[j])
  }

  ghost predicate OptionalBefore(options: seq<OptionDefinition>, i: nat)
    requires i <= |options|
  {
    exists j :: 0 <= j < i && !options[j].required
  }

  function SelectionStep(option: OptionDefinition, t: Tables): Result<Tables, Fault> {
    var referenced := if option.autocomplete != "" then Apply(RouteUsed(option.autocomplete, AutocompleteReference), t) else Ok(t);
    if referenced.Err? then referenced
    else if ChoicesFault(option, 0).Some? then Err(ChoicesFault(option, 0).value)
    else referenced
  }

  lemma OptionSteps(options: seq<OptionDefinition>, i: nat, later: seq<Claim>, t: Tables)
    requires i < |options| && later == OptionsClaimsFrom(options, i + 1)
    ensures Process(OptionsClaimsFrom(options, i), t) ==
            if OptionHeadFault(options[i]).Some? then Err(OptionHeadFault(options[i]).value)
            else if OptionKey(options[i]) in KeysBefore(options, i) then Err(DuplicateOption)
            else if options[i].required && OptionalBefore(options, i) then Err(RequiredAfterOptional)
            else if LimitsFault(options[i]).Some? then Err(LimitsFault(options[i]).value)
            else Then(SelectionStep(options[i], t), later)
  {
    var option := options[i];
    assert OptionFault(option, options[..i]) ==
           if OptionHeadFault(option).Some? then OptionHeadFault(option)
           else if OptionKey(option) in KeysBefore(options, i) then Some(DuplicateOption)
           else if option.required && OptionalBefore(options, i) then Some(RequiredAfterOptional)
           else LimitsFault(option) by {
      assert forall j :: 0 <= j < i ==> options[..i][j] == options[j];
    }
    var route := if option.autocomplete != "" then [RouteUsed(option.autocomplete, AutocompleteReference)] else [];
    var last := [Verdict(ChoicesFault(option, 0))] + later;
    assert OptionsClaimsFrom(options, i) == [Verdict(OptionFault(option, options[..i]))] + (route + last);
    ProcessStep(Verdict(OptionFault(option, options[..i])), route + last, t);
    if option.autocomplete != "" {
      ProcessStep(route[0], last, t);
      var referenced := Apply(route[0], t);
      if referenced.Ok? { ProcessStep(Verdict(ChoicesFault(option, 0)), later, referenced.value); }
    } else {
      assert route + last == last;
      ProcessStep(Verdict(ChoicesFault(option, 0)), later, t);
    }
  }

  lemma ChildSteps(parentKind: CommandKind, children: seq<Command>, namespace: CommandKind, path: seq<string>, t: Tables)
    requires children != []
    ensures Process(ChildrenClaims(parentKind, children, namespace, path), t) ==
            var verdict := ChildKindFault(parentKind, children[0].kind);
            if verdict.Some? then Err(verdict.value)
            else Then(Process(CommandClaims(children[0], namespace, path), t),
                      ChildrenClaims(parentKind, children[1..], namespace, path))
  {
    var claims, later := CommandClaims(children[0], namespace, path), ChildrenClaims(parentKind, children[1..], namespace, path);
    var verdict := Verdict(ChildKindFault(parentKind, children[0].kind));
    assert ChildrenClaims(parentKind, children, namespace, path) == [verdict] + (claims + later);
    ProcessStep(verdict, claims + later, t);
    ProcessAppend(claims, later, t);
  }

  lemma OwnSteps(command: Command, namespace: CommandKind, parent: seq<string>, t: Tables)
    ensures
      var verdict := CommandNameFault(command, parent);
      var path := Apply(PathUsed(PathKey(namespace, parent + [PathName(command)])), t);
      var entry := if Container(command) then Verdict(ContainerFault(command)) else RouteUsed(command.route, Owned);
      Process(OwnClaims(command, namespace, parent), t) ==
      if verdict.Some? then Err(verdict.value)
      else if path.Err? then path
      else
        var entered := Apply(entry, path.value);
        if entered.Err? then entered
        else if CommandShapeFault(command).Some? then Err(CommandShapeFault(command).value)
        else Process(OptionsClaims(command.options) + ChecksClaims(command.checks), entered.value)
  {
    var rest := OptionsClaims(command.options) + ChecksClaims(command.checks);
    var name, key := Verdict(CommandNameFault(command, parent)), PathUsed(PathKey(namespace, parent + [PathName(command)]));
    var entry := if Container(command) then Verdict(ContainerFault(command)) else RouteUsed(command.route, Owned);
    var shape := Verdict(CommandShapeFault(command));
    assert OwnClaims(command, namespace, parent) == [name] + ([key] + ([entry] + ([shape] + rest)));
    ProcessStep(name, [key] + ([entry] + ([shape] + rest)), t);
    ProcessStep(key, [entry] + ([shape] + rest), t);
    var path := Apply(key, t);
    if path.Ok? {
      ProcessStep(entry, [shape] + rest, path.value);
      var entered := Apply(entry, path.value);
      if entered.Ok? { ProcessStep(shape, rest, entered.value); }
    }
  }

  lemma TopLevelSteps(command: Command, t: Tables)
    ensures Process(TopLevelClaims(command), t) ==
            var counted := Apply(TopLevel(command.kind), t);
            if counted.Err? then counted
            else if !TopLevelKind(command.kind) then Err(IllegalTopLevelKind)
            else Process(CommandClaims(command, command.kind, []), counted.value)
  {
    var claims := CommandClaims(command, command.kind, []);
    var verdict := Verdict(FaultIf(!TopLevelKind(command.kind), IllegalTopLevelKind));
    assert TopLevelClaims(command) == [TopLevel(command.kind)] + ([verdict] + claims);
    ProcessStep(TopLevel(command.kind), [verdict] + claims, t);
    var counted := Apply(TopLevel(command.kind), t);
    if counted.Ok? { ProcessStep(verdict, claims, counted.value); }
  }

  lemma NamedSteps(space: IdClass, id: string, route: RouteID, fault: Option<Fault>, rest: seq<Claim>, t: Tables)
    ensures Process([IdUsed(space, id), RouteUsed(route, Owned), Verdict(fault)] + rest, t) ==
            var named := Process([IdUsed(space, id), RouteUsed(route, Owned)], t);
            if named.Err? then named
            else if fault.Some? then Err(fault.value)
            else Process(rest, named.value)
  {
    var names := [IdUsed(space, id), RouteUsed(route, Owned)];
    assert [IdUsed(space, id), RouteUsed(route, Owned), Verdict(fault)] + rest == names + ([Verdict(fault)] + rest);
    ProcessAppend(names, [Verdict(fault)] + rest, t);
    var named := Process(names, t);
    if named.Ok? { ProcessStep(Verdict(fault), rest, named.value); }
  }

  lemma VerdictNamedSteps(fault: Option<Fault>, space: IdClass, id: string, route: RouteID, rest: seq<Claim>, t: Tables)
    ensures Process([Verdict(fault), IdUsed(space, id), RouteUsed(route, Owned)] + rest, t) ==
            if fault.Some? then Err(fault.value)
            else Then(Process([IdUsed(space, id), RouteUsed(route, Owned)], t), rest)
  {
    var names := [IdUsed(space, id), RouteUsed(route, Owned)];
    assert [Verdict(fault), IdUsed(space, id), RouteUsed(route, Owned)] + rest == [Verdict(fault)] + (names + rest);
    ProcessStep(Verdict(fault), names + rest, t);
    ProcessAppend(names, rest, t);
  }

  lemma CogSteps(cog: Cog, t: Tables)
    ensures
      var r0 := Apply(CogNamed(cog.name), t);
      var r1 := Then(r0, ChecksClaims(cog.checks));
      var r2 := Then(r1, Concat(cog.commands, TopLevelClaims));
      var r3 := Then(r2, Concat(cog.listeners, ListenerClaims));
      var r4 := Then(r3, Concat(cog.tasks, TaskClaims));
      var r5 := Then(r4, Concat(cog.components, ComponentClaims));
      Process(CogClaims(cog), t) == Then(r5, Concat(cog.modals, ModalClaims))
  {
    var c0, c1, c2 := [CogNamed(cog.name)], ChecksClaims(cog.checks), Concat(cog.commands, TopLevelClaims);
    var c3, c4 := Concat(cog.listeners, ListenerClaims), Concat(cog.tasks, TaskClaims);
    var c5, c6 := Concat(cog.components, ComponentClaims), Concat(cog.modals, ModalClaims);
    ProcessStep(CogNamed(cog.name), [], t);
    ProcessAppend(c0, c1, t);
    ProcessAppend(c0 + c1, c2, t);
    ProcessAppend(c0 + c1 + c2, c3, t);
    ProcessAppend(c0 + c1 + c2 + c3, c4, t);
    ProcessAppend(c0 + c1 + c2 + c3 + c4, c5, t);
    ProcessAppend(c0 + c1 + c2 + c3 + c4 + c5, c6, t);
  }
}
