/** The main results about routes: for an accepted definition the compiled catalog is unambiguous,
    and every declared handler is reached by the invocations built for it. */
module RouteTheorems {
  import opened Wrappers
  import opened PluginContract
  import opened DefinitionValidation
  import opened RouteCompilation
  import opened RouteOwnership
  import opened RuntimeOptions
  import opened RouteResolution

  /** No invocation matches two signatures of an accepted definition, so `Resolve` never reports
      an ambiguous route. */
  lemma NeverAmbiguous(d: Definition, inv: Invocation)
    requires ValidationFault(d) == None
    ensures |Matching(Entry(Compiled(d), inv.route), inv)| <= 1
    ensures Resolve(Compiled(d), inv) != Err(Ambiguous)
  {
    CompiledShape(d);
    var candidates := Entry(Compiled(d), inv.route);
    MatchingMembers(candidates, inv);
    forall i, j | 0 <= i < j < |candidates| ensures !(Matches(candidates[i], inv) && Matches(candidates[j], inv)) {
      assert Shaped(candidates, inv.route);
    }
  }

  /** `Resolve` yields exactly the declared signature of the invocation's route that matches it. */
  lemma ResolvesExactly(d: Definition, inv: Invocation, s: Signature)
    requires ValidationFault(d) == None
    ensures Resolve(Compiled(d), inv) == Ok(s) <==>
            inv.wellFormed && s in DefinitionSignatures(d) && s.route == inv.route && Matches(s, inv)
  {
    CompiledShape(d);
    NeverAmbiguous(d, inv);
    var candidates := Entry(Compiled(d), inv.route);
    assert Shaped(candidates, inv.route);
    assert s.route == inv.route ==> (s in DefinitionSignatures(d) <==> s in candidates);
    MatchingAre(candidates, inv);
    OnlyMatch(Matching(candidates, inv), s);
  }

  lemma OnlyMatch(matching: seq<Signature>, s: Signature)
    requires |matching| <= 1
    ensures s in matching <==> matching != [] && matching[0] == s
  {
  }

  // ----- Where declared items are found -----

  lemma {:induction false} InConcat<T, U>(xs: seq<T>, f: T -> seq<U>, x: T, u: U)
    requires x in xs && u in f(x)
    ensures u in Concat(xs, f)
  {
    if x != xs[0] {
      InConcat(xs[1..], f, x, u);
    }
  }

  /** The command reached from `command` by the given child indices. */
  ghost function CommandBelow(command: Command, position: seq<nat>): Option<Command>
    decreases |position|
  {
    if position == [] then Some(command)
    else if position[0] < |command.children| then CommandBelow(command.children[position[0]], position[1..])
    else None
  }

  /** The names on the way there, the command's own first. */
  ghost function NamesBelow(command: Command, position: seq<nat>): seq<string>
    decreases |position|
  {
    [command.name]
    + if position == [] || position[0] >= |command.children| then []
      else NamesBelow(command.children[position[0]], position[1..])
  }

  lemma {:induction false} ChildListed(children: seq<Command>, i: nat, path: seq<string>, rootKind: CommandKind, s: Signature)
    requires i < |children| && s in CommandSignatures(children[i], path, rootKind)
    ensures s in ChildrenSignatures(children, path, rootKind)
    decreases i
  {
    if i > 0 {
      ChildListed(children[1..], i - 1, path, rootKind, s);
    }
  }

  lemma Regroup(parent: seq<string>, name: string, below: seq<string>)
    ensures parent + ([name] + below) == parent + [name] + below
  {
  }

  lemma {:induction false} LeafListed(command: Command, position: seq<nat>, parent: seq<string>, rootKind: CommandKind, s: Signature)
    requires var leaf := CommandBelow(command, position);
             && leaf.Some? && leaf.value.children == []
             && s in LeafSignatures(leaf.value, parent + NamesBelow(command, position), rootKind)
    ensures s in CommandSignatures(command, parent, rootKind)
    decreases |position|
  {
    var path := parent + [command.name];
    if position != [] {
      var child := command.children[position[0]];
      Regroup(parent, command.name, NamesBelow(child, position[1..]));
      LeafListed(child, position[1..], path, rootKind, s);
      ChildListed(command.children, position[0], path, rootKind, s);
    } else {
      assert parent + NamesBelow(command, position) == path;
    }
  }

  lemma {:induction false} CheckListed(command: Command, position: seq<nat>, parent: seq<string>, rootKind: CommandKind, check: Check)
    requires var owner := CommandBelow(command, position); owner.Some? && check in owner.value.checks
    requires check.kind.Custom?
    ensures CheckSignature(check.route) in CommandSignatures(command, parent, rootKind)
    decreases |position|
  {
    if position != [] {
      CheckListed(command.children[position[0]], position[1..], parent + [command.name], rootKind, check);
      ChildListed(command.children, position[0], parent + [command.name], rootKind, CheckSignature(check.route));
    } else {
      InConcat(command.checks, CheckSignatures, check, CheckSignature(check.route));
    }
  }

  lemma TopLevelListed(d: Definition, cog: Cog, command: Command, s: Signature)
    requires cog in d.cogs && command in cog.commands && s in TopLevelSignatures(command)
    ensures s in DefinitionSignatures(d)
  {
    InConcat(cog.commands, TopLevelSignatures, command, s);
    assert s in CogSignatures(cog);
    InConcat(d.cogs, CogSignatures, cog, s);
  }

  // ----- Accepted options have distinct names, at any depth -----

  lemma {:induction false} ConcatSound<T>(xs: seq<T>, claims: T -> seq<Claim>, x: T)
    requires x in xs && AllSound(Concat(xs, claims))
    ensures AllSound(claims(x))
  {
    SoundParts(claims(xs[0]), Concat(xs[1..], claims));
    if x != xs[0] {
      ConcatSound(xs[1..], claims, x);
    }
  }

  lemma {:induction false} ChildSound(parentKind: CommandKind, children: seq<Command>, i: nat, namespace: CommandKind, path: seq<string>)
    requires i < |children| && AllSound(ChildrenClaims(parentKind, children, namespace, path))
    ensures AllSound(CommandClaims(children[i], namespace, path))
    decreases i
  {
    var verdict := [Verdict(ChildKindFault(parentKind, children[0].kind))];
    var first, rest := CommandClaims(children[0], namespace, path), ChildrenClaims(parentKind, children[1..], namespace, path);
    SoundParts(verdict + first, rest);
    SoundParts(verdict, first);
    if i > 0 {
      ChildSound(parentKind, children[1..], i - 1, namespace, path);
    }
  }

  lemma {:induction false} OptionsDistinctBelow(command: Command, position: seq<nat>, namespace: CommandKind, parent: seq<string>)
    requires AllSound(CommandClaims(command, namespace, parent)) && CommandBelow(command, position).Some?
    ensures DistinctDefinitions(CommandBelow(command, position).value.options)
    decreases |position|
  {
    var path := parent + [PathName(command)];
    SoundParts(OwnClaims(command, namespace, parent), ChildrenClaims(command.kind, command.children, namespace, path));
    if position != [] {
      ChildSound(command.kind, command.children, position[0], namespace, path);
      OptionsDistinctBelow(command.children[position[0]], position[1..], namespace, path);
    } else {
      OwnFacts(command, namespace, parent);
    }
  }

  lemma AcceptedCog(d: Definition, cog: Cog)
    requires ValidationFault(d) == None && cog in d.cogs
    ensures AllSound(CogClaims(cog))
  {
    ValidationAccepts(d);
    SoundParts([DefinitionClaims(d)[0]], Concat(d.cogs, CogClaims));
    ConcatSound(d.cogs, CogClaims, cog);
  }

  lemma AcceptedOptions(d: Definition, cog: Cog, command: Command, position: seq<nat>)
    requires ValidationFault(d) == None && cog in d.cogs && command in cog.commands
    requires CommandBelow(command, position).Some?
    ensures DistinctDefinitions(CommandBelow(command, position).value.options)
  {
    AcceptedCog(d, cog);
    var before := [CogNamed(cog.name)] + ChecksClaims(cog.checks);
    var commands := Concat(cog.commands, TopLevelClaims);
    var c3, c4 := Concat(cog.listeners, ListenerClaims), Concat(cog.tasks, TaskClaims);
    var c5, c6 := Concat(cog.components, ComponentClaims), Concat(cog.modals, ModalClaims);
    SoundParts(before + commands + c3 + c4 + c5, c6);
    SoundParts(before + commands + c3 + c4, c5);
    SoundParts(before + commands + c3, c4);
    SoundParts(before + commands, c3);
    SoundParts(before, commands);
    ConcatSound(cog.commands, TopLevelClaims, command);
    var head := TopLevelClaims(command)[..2];
    assert TopLevelClaims(command) == head + CommandClaims(command, command.kind, []);
    SoundParts(head, CommandClaims(command, command.kind, []));
    OptionsDistinctBelow(command, position, command.kind, []);
  }

  // ----- So have accepted modal fields -----

  lemma {:induction false} ListFaultDistinct<T>(entries: seq<T>, i: nat, valid: T -> bool, invalid: Fault, repeated: Fault)
    requires ListFault(entries, i, valid, invalid, repeated) == None
    ensures forall j, k :: 0 <= j < k < |entries| && i <= k ==> entries[j] != entries[k]
    decreases |entries| - i
  {
    if i < |entries| {
      ListFaultDistinct(entries, i + 1, valid, invalid, repeated);
      forall j, k | 0 <= j < k < |entries| && i <= k ensures entries[j] != entries[k] {
        if k == i { assert entries[..i][j] == entries[j]; }
      }
    }
  }

  lemma AcceptedModalFields(d: Definition, cog: Cog, modal: Modal)
    requires ValidationFault(d) == None && cog in d.cogs && modal in cog.modals
    ensures DistinctFields(modal.fields)
  {
    AcceptedCog(d, cog);
    var modals := Concat(cog.modals, ModalClaims);
    SoundParts([CogNamed(cog.name)] + ChecksClaims(cog.checks) + Concat(cog.commands, TopLevelClaims)
               + Concat(cog.listeners, ListenerClaims) + Concat(cog.tasks, TaskClaims)
               + Concat(cog.components, ComponentClaims), modals);
    ConcatSound(cog.modals, ModalClaims, modal);
    assert Sound(ModalClaims(modal)[0]) && ModalClaims(modal)[0] == Verdict(ModalFault(modal));
    ListFaultDistinct(FieldIds(modal.fields), 0, HandlerId, InvalidField, RepeatedField);
    forall i, j | 0 <= i < j < |modal.fields| ensures modal.fields[i].id != modal.fields[j].id {
      assert FieldIds(modal.fields)[i] != FieldIds(modal.fields)[j];
    }
  }

  // ----- Nothing is lost -----

  /** The response state that each defer mode asks for. */
  predicate Answered(mode: DeferMode, response: ResponseState) {
    match response
    case DeferredCreate => mode.DeferCreate?
    case DeferredUpdate => mode.DeferUpdate?
    case Unacknowledged => !mode.DeferCreate? && !mode.DeferUpdate?
    case _ => false
  }

  lemma LeafIsListed(d: Definition, cog: Cog, command: Command, position: seq<nat>, s: Signature)
    requires cog in d.cogs && command in cog.commands
    requires var leaf := CommandBelow(command, position);
             && leaf.Some? && leaf.value.children == []
             && s in LeafSignatures(leaf.value, NamesBelow(command, position), command.kind)
    ensures s in DefinitionSignatures(d)
  {
    assert [] + NamesBelow(command, position) == NamesBelow(command, position);
    LeafListed(command, position, [], command.kind, s);
    TopLevelListed(d, cog, command, s);
  }

  /** A leaf command at any depth is reached exactly by its route, root kind and full path, with admissible
      options, in the response state of its defer mode. */
  lemma LeafCommandResolves(d: Definition, cog: Cog, command: Command, position: seq<nat>, leaf: Command, inv: Invocation)
    requires ValidationFault(d) == None && cog in d.cogs && command in cog.commands
    requires CommandBelow(command, position) == Some(leaf) && leaf.children == []
    ensures Resolve(Compiled(d), inv) ==
            Ok(CommandSignature(leaf.route, leaf.deferMode, command.kind, NamesBelow(command, position), leaf.options)) <==>
              && inv.wellFormed && inv.route == leaf.route && Answered(leaf.deferMode, inv.response)
              && inv.input.CommandInput? && inv.input.kind == command.kind && inv.input.path == NamesBelow(command, position)
              && Admissible(inv.input.options, leaf.options, true, inv.guildID)
  {
    var s := CommandSignature(leaf.route, leaf.deferMode, command.kind, NamesBelow(command, position), leaf.options);
    LeafIsListed(d, cog, command, position, s);
    AcceptedOptions(d, cog, command, position);
    CommandMatches(s, inv);
    ResolvesExactly(d, inv, s);
  }

  lemma CommandMatches(s: Signature, inv: Invocation)
    requires s.CommandSignature? && DistinctDefinitions(s.options)
    ensures Matches(s, inv) <==>
              && Answered(s.deferMode, inv.response)
              && inv.input.CommandInput? && inv.input.kind == s.kind && inv.input.path == s.path
              && Admissible(inv.input.options, s.options, true, inv.guildID)
  {
    if inv.input.CommandInput? { AcceptedIffAdmissible(inv.input.options, s.options, true, inv.guildID); }
  }

  lemma {:induction false} FindsDistinct(options: seq<OptionDefinition>, j: nat)
    requires j < |options| && DistinctDefinitions(options)
    ensures FindOption(options, options[j].name) == Some(options[j])
    decreases j
  {
    if j > 0 {
      DistinctTail(options);
      FindsDistinct(options[1..], j - 1);
    }
  }

  lemma AutocompleteListed(command: Command, position: seq<nat>, leaf: Command, j: nat)
    requires CommandBelow(command, position) == Some(leaf) && leaf.children == []
    requires DistinctDefinitions(leaf.options) && j < |leaf.options| && leaf.options[j].autocomplete != ""
    ensures AutocompleteSignature(leaf.options[j].autocomplete, NamesBelow(command, position), leaf.options,
                                  leaf.options[j].name, leaf.options[j].kind) in TopLevelSignatures(command)
  {
    var path := NamesBelow(command, position);
    assert [] + path == path;
    AutocompletesListed(leaf.options, path, 0);
    LeafListed(command, position, [], command.kind,
               AutocompleteSignature(leaf.options[j].autocomplete, path, leaf.options, leaf.options[j].name, leaf.options[j].kind));
  }

  /** An autocomplete option of a leaf command, likewise. */
  lemma AutocompleteResolves(d: Definition, cog: Cog, command: Command, position: seq<nat>, leaf: Command, j: nat, inv: Invocation)
    requires ValidationFault(d) == None && cog in d.cogs && command in cog.commands
    requires CommandBelow(command, position) == Some(leaf) && leaf.children == []
    requires j < |leaf.options| && leaf.options[j].autocomplete != ""
    ensures Resolve(Compiled(d), inv) ==
            Ok(AutocompleteSignature(leaf.options[j].autocomplete, NamesBelow(command, position), leaf.options,
                                     leaf.options[j].name, leaf.options[j].kind)) <==>
              && inv.wellFormed && inv.route == leaf.options[j].autocomplete
              && inv.input.AutocompleteInput? && inv.input.path == NamesBelow(command, position)
              && inv.input.option == leaf.options[j].name && inv.input.focused.payload.Kind() == leaf.options[j].kind
              && (inv.input.focused.payload.NumberPayload? ==> inv.input.focused.payload.number.Finite?)
              && Admissible(inv.input.options, leaf.options, false, inv.guildID)
  {
    var s := AutocompleteSignature(leaf.options[j].autocomplete, NamesBelow(command, position), leaf.options,
                                   leaf.options[j].name, leaf.options[j].kind);
    AcceptedOptions(d, cog, command, position);
    AutocompleteListed(command, position, leaf, j);
    TopLevelListed(d, cog, command, s);
    FindsDistinct(leaf.options, j);
    if inv.input.AutocompleteInput? { AcceptedIffAdmissible(inv.input.options, leaf.options, false, inv.guildID); }
    ResolvesExactly(d, inv, s);
  }

  ghost predicate ReachesComponent(c: Component, inv: Invocation) {
    && inv.wellFormed && inv.route == c.route && Answered(c.deferMode, inv.response)
    && inv.input.ComponentInput? && inv.input.id == c.id && inv.input.componentKind in c.kinds
  }

  ghost predicate ReachesModal(m: Modal, inv: Invocation) {
    && inv.wellFormed && inv.route == m.route && Answered(m.deferMode, inv.response)
    && inv.input.ModalInput? && inv.input.id == m.id && FilledIn(inv.input.fields, m.fields)
  }

  /** Components, modals, listeners and tasks are reached exactly by their own ids and events; a modal, when
      every field supplied is declared and every required one is filled in. */
  lemma ItemsResolve(d: Definition, cog: Cog, inv: Invocation)
    requires ValidationFault(d) == None && cog in d.cogs
    ensures forall c :: c in cog.components ==>
              (Resolve(Compiled(d), inv) == Ok(ComponentSignature(c.route, c.deferMode, c.id, c.kinds)) <==> ReachesComponent(c, inv))
    ensures forall m :: m in cog.modals ==>
              (Resolve(Compiled(d), inv) == Ok(ModalSignature(m.route, m.deferMode, m.id, m.fields)) <==> ReachesModal(m, inv))
    ensures forall l :: l in cog.listeners ==>
              (Resolve(Compiled(d), inv) == Ok(ListenerSignature(l.route, l.event)) <==>
                 inv.wellFormed && inv.route == l.route && inv.input == EventInput(l.event))
    ensures forall t :: t in cog.tasks ==>
              (Resolve(Compiled(d), inv) == Ok(TaskSignature(t.route, t.id)) <==>
                 inv.wellFormed && inv.route == t.route && inv.input == TaskInput(t.id))
  {
    forall c | c in cog.components
      ensures Resolve(Compiled(d), inv) == Ok(ComponentSignature(c.route, c.deferMode, c.id, c.kinds)) <==> ReachesComponent(c, inv)
    {
      ComponentResolves(d, cog, c, inv);
    }
    forall m | m in cog.modals
      ensures Resolve(Compiled(d), inv) == Ok(ModalSignature(m.route, m.deferMode, m.id, m.fields)) <==> ReachesModal(m, inv)
    {
      ModalResolves(d, cog, m, inv);
    }
    ItemsListed(cog);
    forall l | l in cog.listeners
      ensures Resolve(Compiled(d), inv) == Ok(ListenerSignature(l.route, l.event)) <==>
                inv.wellFormed && inv.route == l.route && inv.input == EventInput(l.event)
    {
      CogSignatureResolves(d, cog, inv, ListenerSignature(l.route, l.event));
    }
    forall t | t in cog.tasks
      ensures Resolve(Compiled(d), inv) == Ok(TaskSignature(t.route, t.id)) <==>
                inv.wellFormed && inv.route == t.route && inv.input == TaskInput(t.id)
    {
      CogSignatureResolves(d, cog, inv, TaskSignature(t.route, t.id));
    }
  }

  lemma ComponentResolves(d: Definition, cog: Cog, c: Component, inv: Invocation)
    requires ValidationFault(d) == None && cog in d.cogs && c in cog.components
    ensures Resolve(Compiled(d), inv) == Ok(ComponentSignature(c.route, c.deferMode, c.id, c.kinds)) <==> ReachesComponent(c, inv)
  {
    ItemsListed(cog);
    CogSignatureResolves(d, cog, inv, ComponentSignature(c.route, c.deferMode, c.id, c.kinds));
  }

  lemma ModalResolves(d: Definition, cog: Cog, m: Modal, inv: Invocation)
    requires ValidationFault(d) == None && cog in d.cogs && m in cog.modals
    ensures Resolve(Compiled(d), inv) == Ok(ModalSignature(m.route, m.deferMode, m.id, m.fields)) <==> ReachesModal(m, inv)
  {
    ItemsListed(cog);
    AcceptedModalFields(d, cog, m);
    if inv.input.ModalInput? { FieldsAcceptedIff(inv.input.fields, m.fields); }
    CogSignatureResolves(d, cog, inv, ModalSignature(m.route, m.deferMode, m.id, m.fields));
  }

  lemma CogSignatureResolves(d: Definition, cog: Cog, inv: Invocation, s: Signature)
    requires ValidationFault(d) == None && cog in d.cogs && s in CogSignatures(cog)
    ensures Resolve(Compiled(d), inv) == Ok(s) <==> inv.wellFormed && s.route == inv.route && Matches(s, inv)
  {
    InConcat(d.cogs, CogSignatures, cog, s);
    ResolvesExactly(d, inv, s);
  }

  lemma ItemsListed(cog: Cog)
    ensures forall c :: c in cog.components ==> ComponentSignature(c.route, c.deferMode, c.id, c.kinds) in CogSignatures(cog)
    ensures forall m :: m in cog.modals ==> ModalSignature(m.route, m.deferMode, m.id, m.fields) in CogSignatures(cog)
    ensures forall l :: l in cog.listeners ==> ListenerSignature(l.route, l.event) in CogSignatures(cog)
    ensures forall t :: t in cog.tasks ==> TaskSignature(t.route, t.id) in CogSignatures(cog)
  {
    forall c | c in cog.components ensures ComponentSignature(c.route, c.deferMode, c.id, c.kinds) in CogSignatures(cog) {
      InConcat(cog.components, ComponentSignatures, c, ComponentSignature(c.route, c.deferMode, c.id, c.kinds));
    }
    forall m | m in cog.modals ensures ModalSignature(m.route, m.deferMode, m.id, m.fields) in CogSignatures(cog) {
      InConcat(cog.modals, ModalSignatures, m, ModalSignature(m.route, m.deferMode, m.id, m.fields));
    }
    forall l | l in cog.listeners ensures ListenerSignature(l.route, l.event) in CogSignatures(cog) {
      InConcat(cog.listeners, ListenerSignatures, l, ListenerSignature(l.route, l.event));
    }
    forall t | t in cog.tasks ensures TaskSignature(t.route, t.id) in CogSignatures(cog) {
      InConcat(cog.tasks, TaskSignatures, t, TaskSignature(t.route, t.id));
    }
  }

  /** Where a definition may name a custom check. */
  ghost predicate CheckDeclared(d: Definition, check: Check) { exists cog :: cog in d.cogs && CheckInCog(cog, check) }

  ghost predicate CheckInCog(cog: Cog, check: Check) {
    || check in cog.checks
    || (exists command, position :: command in cog.commands && CheckOnCommand(command, position, check))
    || (exists x :: x in cog.listeners && check in x.checks)
    || (exists x :: x in cog.tasks && check in x.checks)
    || (exists x :: x in cog.components && check in x.checks)
    || (exists x :: x in cog.modals && check in x.checks)
  }

  ghost predicate CheckOnCommand(command: Command, position: seq<nat>, check: Check) {
    var owner := CommandBelow(command, position);
    owner.Some? && check in owner.value.checks
  }

  lemma CheckIsListed(d: Definition, check: Check)
    requires CheckDeclared(d, check) && check.kind.Custom?
    ensures CheckSignature(check.route) in DefinitionSignatures(d)
  {
    var s := CheckSignature(check.route);
    var cog :| cog in d.cogs && CheckInCog(cog, check);
    if check in cog.checks {
      InConcat(cog.checks, CheckSignatures, check, s);
    } else if command, position :| command in cog.commands && CheckOnCommand(command, position, check) {
      CheckListed(command, position, [], command.kind, check);
      InConcat(cog.commands, TopLevelSignatures, command, s);
    } else if x :| x in cog.listeners && check in x.checks {
      InConcat(x.checks, CheckSignatures, check, s);
      InConcat(cog.listeners, ListenerSignatures, x, s);
    } else if x :| x in cog.tasks && check in x.checks {
      InConcat(x.checks, CheckSignatures, check, s);
      InConcat(cog.tasks, TaskSignatures, x, s);
    } else if x :| x in cog.components && check in x.checks {
      InConcat(x.checks, CheckSignatures, check, s);
      InConcat(cog.components, ComponentSignatures, x, s);
    } else {
      var x :| x in cog.modals && check in x.checks;
      InConcat(x.checks, CheckSignatures, check, s);
      InConcat(cog.modals, ModalSignatures, x, s);
    }
    InConcat(d.cogs, CogSignatures, cog, s);
  }

  /** A custom check, wherever it is declared, is reached exactly by the check invocations of its route. */
  lemma CheckResolves(d: Definition, check: Check, inv: Invocation)
    requires ValidationFault(d) == None && CheckDeclared(d, check) && check.kind.Custom?
    ensures Resolve(Compiled(d), inv) == Ok(CheckSignature(check.route)) <==>
              inv.wellFormed && inv.route == check.route && inv.input.CheckInput?
  {
    CheckIsListed(d, check);
    ResolvesExactly(d, inv, CheckSignature(check.route));
  }

  // ----- Where a signature was declared -----

  lemma {:induction false} FromConcat<T, U>(xs: seq<T>, f: T -> seq<U>, u: U) returns (x: T)
    requires u in Concat(xs, f)
    ensures x in xs && u in f(x)
  {
    if u in f(xs[0]) { x := xs[0]; } else { x := FromConcat(xs[1..], f, u); }
  }

  lemma CustomCheck(checks: seq<Check>, s: Signature) returns (check: Check)
    requires s in ChecksSignatures(checks)
    ensures check in checks && check.kind.Custom? && s == CheckSignature(check.route)
  {
    check := FromConcat(checks, CheckSignatures, s);
  }

  lemma {:induction false} FromAutocompletes(options: seq<OptionDefinition>, path: seq<string>, i: nat, s: Signature) returns (j: nat)
    requires i <= |options| && s in AutocompleteSignatures(options, path, i)
    ensures AutocompleteOf(options, j, path, s)
    decreases |options| - i
  {
    if s in AutocompleteSignatures(options, path, i + 1) { j := FromAutocompletes(options, path, i + 1, s); } else { j := i; }
  }

  ghost predicate AutocompleteOf(options: seq<OptionDefinition>, j: nat, path: seq<string>, s: Signature) {
    && j < |options| && options[j].autocomplete != ""
    && s == AutocompleteSignature(options[j].autocomplete, path, options, options[j].name, options[j].kind)
  }

  ghost predicate CheckOf(checks: seq<Check>, s: Signature) {
    exists check :: check in checks && check.kind.Custom? && s == CheckSignature(check.route)
  }

  /** What the command at this position declares: a leaf itself and its autocompletes, any command its checks. */
  ghost predicate DeclaredBelow(command: Command, position: seq<nat>, path: seq<string>, rootKind: CommandKind, s: Signature) {
    var owner := CommandBelow(command, position);
    && owner.Some?
    && match s
       case CommandSignature(_, _, _, _, _) =>
         owner.value.children == []
         && s == CommandSignature(owner.value.route, owner.value.deferMode, rootKind, path, owner.value.options)
       case AutocompleteSignature(_, _, _, _, _) => owner.value.children == [] && exists j :: AutocompleteOf(owner.value.options, j, path, s)
       case CheckSignature(_) => CheckOf(owner.value.checks, s)
       case _ => false
  }

  lemma DeclaredLower(command: Command, i: nat, position: seq<nat>, parent: seq<string>, rootKind: CommandKind, s: Signature)
    requires i < |command.children|
    requires var child := command.children[i];
             DeclaredBelow(child, position, parent + [command.name] + NamesBelow(child, position), rootKind, s)
    ensures DeclaredBelow(command, [i] + position, parent + NamesBelow(command, [i] + position), rootKind, s)
  {
    var child, below := command.children[i], [i] + position;
    assert below[1..] == position && CommandBelow(command, below) == CommandBelow(child, position);
    assert NamesBelow(command, below) == [command.name] + NamesBelow(child, position);
    assert parent + NamesBelow(command, below) == parent + [command.name] + NamesBelow(child, position);
  }

  /** Every signature of a command was declared by it or by a command below. */
  lemma {:induction false} OfCommand(command: Command, parent: seq<string>, rootKind: CommandKind, s: Signature) returns (position: seq<nat>)
    requires s in CommandSignatures(command, parent, rootKind)
    ensures DeclaredBelow(command, position, parent + NamesBelow(command, position), rootKind, s)
    decreases command
  {
    var path := parent + [command.name];
    position := [];
    assert parent + NamesBelow(command, []) == path;
    if s in ChecksSignatures(command.checks) {
      var check := CustomCheck(command.checks, s);
    } else if command.children != [] {
      var i;
      i, position := OfChildren(command.children, path, rootKind, s);
      DeclaredLower(command, i, position, parent, rootKind, s);
      position := [i] + position;
    } else if s in AutocompleteSignatures(command.options, path, 0) {
      var j := FromAutocompletes(command.options, path, 0, s);
    }
  }

  lemma {:induction false} OfChildren(children: seq<Command>, path: seq<string>, rootKind: CommandKind, s: Signature)
      returns (i: nat, position: seq<nat>)
    requires s in ChildrenSignatures(children, path, rootKind)
    ensures i < |children| && DeclaredBelow(children[i], position, path + NamesBelow(children[i], position), rootKind, s)
    decreases children
  {
    if s in CommandSignatures(children[0], path, rootKind) {
      i := 0;
      position := OfCommand(children[0], path, rootKind, s);
    } else {
      i, position := OfChildren(children[1..], path, rootKind, s);
      i := i + 1;
    }
  }

  /** Where a definition may declare a route for checks. */
  ghost predicate CheckRouteDeclared(d: Definition, route: RouteID) {
    exists check :: CheckDeclared(d, check) && check.kind.Custom? && check.route == route
  }

  lemma CheckSignaturesDeclared(d: Definition, route: RouteID)
    ensures CheckSignature(route) in DefinitionSignatures(d) <==> CheckRouteDeclared(d, route)
  {
    var s := CheckSignature(route);
    if CheckRouteDeclared(d, route) {
      var check :| CheckDeclared(d, check) && check.kind.Custom? && check.route == route;
      CheckIsListed(d, check);
    }
    if s in DefinitionSignatures(d) {
      var cog := FromConcat(d.cogs, CogSignatures, s);
      var check := CheckOfCog(cog, s);
      assert CheckDeclared(d, check);
    }
  }

  lemma CheckOfCog(cog: Cog, s: Signature) returns (check: Check)
    requires s.CheckSignature? && s in CogSignatures(cog)
    ensures CheckInCog(cog, check) && check.kind.Custom? && check.route == s.route
  {
    if s in ChecksSignatures(cog.checks) {
      check := CustomCheck(cog.checks, s);
    } else if s in Concat(cog.commands, TopLevelSignatures) {
      var command := FromConcat(cog.commands, TopLevelSignatures, s);
      var position := OfCommand(command, [], command.kind, s);
      check :| check in CommandBelow(command, position).value.checks && check.kind.Custom? && s == CheckSignature(check.route);
      assert CheckOnCommand(command, position, check);
    } else if s in Concat(cog.listeners, ListenerSignatures) {
      var x := FromConcat(cog.listeners, ListenerSignatures, s);
      check := CustomCheck(x.checks, s);
    } else if s in Concat(cog.tasks, TaskSignatures) {
      var x := FromConcat(cog.tasks, TaskSignatures, s);
      check := CustomCheck(x.checks, s);
    } else if s in Concat(cog.components, ComponentSignatures) {
      var x := FromConcat(cog.components, ComponentSignatures, s);
      check := CustomCheck(x.checks, s);
    } else {
      var x := FromConcat(cog.modals, ModalSignatures, s);
      check := CustomCheck(x.checks, s);
    }
  }

  /** A modal signature comes from a modal of a cog. */
  lemma ModalOfCog(cog: Cog, s: Signature) returns (modal: Modal)
    requires s.ModalSignature? && s in CogSignatures(cog)
    ensures modal in cog.modals && s == ModalSignature(modal.route, modal.deferMode, modal.id, modal.fields)
  {
    if s in ChecksSignatures(cog.checks) {
      var _ := CustomCheck(cog.checks, s);
    } else if s in Concat(cog.commands, TopLevelSignatures) {
      var command := FromConcat(cog.commands, TopLevelSignatures, s);
      var _ := OfCommand(command, [], command.kind, s);
    } else if s in Concat(cog.listeners, ListenerSignatures) {
      var x := FromConcat(cog.listeners, ListenerSignatures, s);
      var _ := CustomCheck(x.checks, s);
    } else if s in Concat(cog.tasks, TaskSignatures) {
      var x := FromConcat(cog.tasks, TaskSignatures, s);
      var _ := CustomCheck(x.checks, s);
    } else if s in Concat(cog.components, ComponentSignatures) {
      var x := FromConcat(cog.components, ComponentSignatures, s);
      var _ := CustomCheck(x.checks, s);
    } else {
      modal := FromConcat(cog.modals, ModalSignatures, s);
      if s in ChecksSignatures(modal.checks) { var _ := CustomCheck(modal.checks, s); }
    }
  }

  // ----- The catalog in the definition's own terms -----

  /** What a cog declares. */
  ghost predicate DeclaredInCog(cog: Cog, s: Signature) {
    match s
    case CommandSignature(_, _, _, _, _) => DeclaredByCommands(cog.commands, s)
    case AutocompleteSignature(_, _, _, _, _) => DeclaredByCommands(cog.commands, s)
    case ComponentSignature(_, _, _, _) =>
      exists c :: c in cog.components && s == ComponentSignature(c.route, c.deferMode, c.id, c.kinds)
    case ModalSignature(_, _, _, _) => exists m :: m in cog.modals && s == ModalSignature(m.route, m.deferMode, m.id, m.fields)
    case ListenerSignature(_, _) => exists l :: l in cog.listeners && s == ListenerSignature(l.route, l.event)
    case TaskSignature(_, _) => exists t :: t in cog.tasks && s == TaskSignature(t.route, t.id)
    case CheckSignature(route) => exists check :: CheckInCog(cog, check) && check.kind.Custom? && check.route == route
  }

  ghost predicate DeclaredByCommands(commands: seq<Command>, s: Signature) {
    exists command, position :: command in commands
      && DeclaredBelow(command, position, NamesBelow(command, position), command.kind, s)
  }

  ghost predicate Declared(d: Definition, s: Signature) { exists cog :: cog in d.cogs && DeclaredInCog(cog, s) }

  lemma {:induction false} AutocompleteIn(options: seq<OptionDefinition>, path: seq<string>, i: nat, j: nat, s: Signature)
    requires i <= j < |options| && AutocompleteOf(options, j, path, s)
    ensures s in AutocompleteSignatures(options, path, i)
    decreases j - i
  {
    if i < j { AutocompleteIn(options, path, i + 1, j, s); }
  }

  lemma CommandDeclares(cog: Cog, s: Signature)
    requires (s.CommandSignature? || s.AutocompleteSignature?) && DeclaredByCommands(cog.commands, s)
    ensures s in CogSignatures(cog)
  {
    var command, position :| command in cog.commands && DeclaredBelow(command, position, NamesBelow(command, position), command.kind, s);
    var leaf, path := CommandBelow(command, position).value, NamesBelow(command, position);
    assert [] + path == path;
    if s.AutocompleteSignature? {
      var j :| AutocompleteOf(leaf.options, j, path, s);
      AutocompleteIn(leaf.options, path, 0, j, s);
    }
    LeafListed(command, position, [], command.kind, s);
    InConcat(cog.commands, TopLevelSignatures, command, s);
  }

  lemma CogDeclares(cog: Cog, s: Signature)
    requires s in CogSignatures(cog)
    ensures DeclaredInCog(cog, s)
  {
    if s.CheckSignature? {
      var check := CheckOfCog(cog, s);
    } else if s.ModalSignature? {
      var modal := ModalOfCog(cog, s);
    } else if s in ChecksSignatures(cog.checks) {
      var check := CustomCheck(cog.checks, s);
    } else if s in Concat(cog.commands, TopLevelSignatures) {
      var command := FromConcat(cog.commands, TopLevelSignatures, s);
      var position := OfCommand(command, [], command.kind, s);
      assert [] + NamesBelow(command, position) == NamesBelow(command, position);
    } else if s in Concat(cog.listeners, ListenerSignatures) {
      var x := FromConcat(cog.listeners, ListenerSignatures, s);
      if s in ChecksSignatures(x.checks) { var check := CustomCheck(x.checks, s); }
    } else if s in Concat(cog.tasks, TaskSignatures) {
      var x := FromConcat(cog.tasks, TaskSignatures, s);
      if s in ChecksSignatures(x.checks) { var check := CustomCheck(x.checks, s); }
    } else if s in Concat(cog.components, ComponentSignatures) {
      var x := FromConcat(cog.components, ComponentSignatures, s);
      if s in ChecksSignatures(x.checks) { var check := CustomCheck(x.checks, s); }
    } else {
      var x := FromConcat(cog.modals, ModalSignatures, s);
      if s in ChecksSignatures(x.checks) { var check := CustomCheck(x.checks, s); }
    }
  }

  /** The signatures of a definition are exactly the leaf commands, autocompletes, components, modals,
      listeners, tasks and custom checks that some cog declares. */
  lemma SignaturesDeclared(d: Definition, s: Signature)
    ensures s in DefinitionSignatures(d) <==> Declared(d, s)
  {
    if s in DefinitionSignatures(d) {
      var cog := FromConcat(d.cogs, CogSignatures, s);
      CogDeclares(cog, s);
    }
    if Declared(d, s) {
      var cog :| cog in d.cogs && DeclaredInCog(cog, s);
      if s.CheckSignature? {
        CheckSignaturesDeclared(d, s.route);
        var check :| CheckInCog(cog, check) && check.kind.Custom? && check.route == s.route;
        assert CheckDeclared(d, check);
      } else {
        if s.CommandSignature? || s.AutocompleteSignature? { CommandDeclares(cog, s); } else { ItemsListed(cog); }
        InConcat(d.cogs, CogSignatures, cog, s);
      }
    }
  }

  /** Resolving yields something exactly when a declared handler of the route matches, and then only that. */
  lemma ResolvesDeclared(d: Definition, inv: Invocation)
    requires ValidationFault(d) == None
    ensures var r := Resolve(Compiled(d), inv);
            && (r.Ok? <==> inv.wellFormed && exists s :: Declared(d, s) && s.route == inv.route && Matches(s, inv))
            && (r.Ok? ==> Declared(d, r.value))
            && (inv.wellFormed && r == Err(NotRegistered) <==> inv.wellFormed && forall s :: Declared(d, s) ==> s.route != inv.route)
            && (r == Err(InvalidInvocation) <==> !inv.wellFormed)
  {
    var r := Resolve(Compiled(d), inv);
    CompiledShape(d);
    NeverAmbiguous(d, inv);
    var candidates := Entry(Compiled(d), inv.route);
    MatchingAre(candidates, inv);
    if r.Ok? {
      ResolvesExactly(d, inv, r.value);
      SignaturesDeclared(d, r.value);
    }
    if s :| Declared(d, s) && s.route == inv.route {
      SignaturesDeclared(d, s);
      assert candidates != [];
    }
    if candidates != [] {
      assert candidates[0] in Entry(Compiled(d), inv.route);
      SignaturesDeclared(d, candidates[0]);
      assert candidates[0].route == inv.route;
    }
    if s :| inv.wellFormed && Declared(d, s) && s.route == inv.route && Matches(s, inv) {
      SignaturesDeclared(d, s);
      ResolvesExactly(d, inv, s);
    }
  }
}
