/** What the checks that read no table ask of the parts of a definition, as conditions on the parts
    themselves; the validator's verdicts are shown to say just that. */
module DefinitionParts {
  import opened Wrappers
  import opened GoText
  import opened PluginContract
  import opened DefinitionValidation
  import opened RouteOwnership
  import opened RouteTheorems
  import opened DefinitionPlaces

  // ----- Well-formed parts -----

  ghost predicate Distinct<T(!new)>(xs: seq<T>) { forall i, j :: 0 <= i < j < |xs| ==> xs[i] != xs[j] }

  ghost predicate TrimmedDistinct(xs: seq<string>) { forall i, j :: 0 <= i < j < |xs| ==> TrimSpace(xs[i]) != TrimSpace(xs[j]) }

  predicate Described(description: string) { TrimSpace(description) != "" && |description| <= 100 }

  ghost predicate CheckWellFormed(check: Check) {
    match check.kind
    case GuildOnly => check.permissions == [] && check.route == ""
    case OwnerOnly => check.permissions == [] && check.route == ""
    case HasPermissions =>
      && check.permissions != [] && check.route == "" && Distinct(check.permissions)
      && (forall p :: p in check.permissions ==> ValidPermission(p))
    case Custom => CanonicalRoute(check.route)
    case UnknownCheck(_) => false
  }

  ghost predicate ChecksWellFormed(checks: seq<Check>) { forall check :: check in checks ==> CheckWellFormed(check) }

  predicate SafeInteger(limit: Option<int>) { limit.Some? ==> -9007199254740991 <= limit.value <= 9007199254740991 }

  predicate FiniteNumber(limit: Option<Float>) { limit.Some? ==> limit.value.Finite? }

  /** Limits only of the option's own kind, in order. */
  ghost predicate LimitsWellFormed(o: OptionDefinition) {
    && (o.minInteger.Some? || o.maxInteger.Some? ==> o.kind.OptInteger?)
    && SafeInteger(o.minInteger) && SafeInteger(o.maxInteger)
    && (o.minInteger.Some? && o.maxInteger.Some? ==> o.minInteger.value <= o.maxInteger.value)
    && (o.minNumber.Some? || o.maxNumber.Some? ==> o.kind.OptNumber?)
    && FiniteNumber(o.minNumber) && FiniteNumber(o.maxNumber)
    && (o.minNumber.Some? && o.maxNumber.Some? ==> o.minNumber.value.value <= o.maxNumber.value.value)
    && (o.minLength.Some? || o.maxLength.Some? ==> o.kind.OptString?)
    && (o.minLength.Some? ==> 0 <= o.minLength.value) && (o.maxLength.Some? ==> 0 <= o.maxLength.value)
    && (o.minLength.Some? && o.maxLength.Some? ==> o.minLength.value <= o.maxLength.value)
    && (o.channelKinds != [] ==> o.kind.OptChannel?)
    && Distinct(o.channelKinds) && (forall k :: k in o.channelKinds ==> !k.UnknownChannel?)
  }

  predicate Zero(x: Float) { x == Finite(0.0) }

  /** A choice carries the value of its kind and no other. */
  ghost predicate ChoiceWellFormed(kind: OptionKind, choice: Choice) {
    && 1 <= |TrimSpace(choice.name)| <= 100
    && (kind.OptString? ==> choice.value.kind.ChoiceString?)
    && (kind.OptInteger? ==> choice.value.kind.ChoiceInteger?)
    && (kind.OptNumber? ==> choice.value.kind.ChoiceNumber?)
    && match choice.value.kind
       case ChoiceString => |choice.value.text| <= 100 && choice.value.integer == 0 && Zero(choice.value.number)
       case ChoiceInteger => choice.value.text == "" && Zero(choice.value.number)
       case ChoiceNumber => choice.value.number.Finite? && choice.value.text == "" && choice.value.integer == 0
       case UnknownChoice(_) => false
  }

  ghost predicate ChoicesWellFormed(o: OptionDefinition) {
    && |o.choices| <= 25
    && (forall i, j :: 0 <= i < j < |o.choices| ==> TrimSpace(o.choices[i].name) != TrimSpace(o.choices[j].name))
    && (forall i :: 0 <= i < |o.choices| ==> ChoiceWellFormed(o.kind, o.choices[i]))
  }

  ghost predicate AutocompleteWellFormed(o: OptionDefinition) {
    o.autocomplete != "" ==> o.kind in {OptString, OptInteger, OptNumber} && o.choices == [] && CanonicalRoute(o.autocomplete)
  }

  ghost predicate OptionWellFormed(o: OptionDefinition) {
    && TrimSpace(o.name) == o.name && SlashName(o.name) && !o.kind.UnknownOption? && Described(o.description)
    && LimitsWellFormed(o) && AutocompleteWellFormed(o) && ChoicesWellFormed(o)
  }

  /** At most 25, with names that differ, the required ones first. */
  ghost predicate OptionsWellFormed(options: seq<OptionDefinition>) {
    && |options| <= 25
    && (forall i :: 0 <= i < |options| ==> OptionWellFormed(options[i]))
    && (forall i, j :: 0 <= i < j < |options| ==> options[i].name != options[j].name)
    && (forall i, j :: 0 <= i < j < |options| && options[j].required ==> options[i].required)
  }

  ghost predicate NameWellFormed(c: Command) {
    && TrimSpace(c.name) == c.name
    && if ContextKind(c.kind) then 1 <= |c.name| <= 32 && c.description == "" && c.descriptionID == ""
       else SlashName(c.name) && Described(c.description)
  }

  ghost predicate PermissionsWellFormed(permissions: seq<string>) {
    TrimmedDistinct(permissions) && forall p :: p in permissions ==> ValidPermission(TrimSpace(p))
  }

  /** A group or a command with children has nothing of a leaf; a leaf has a route and may defer. */
  ghost predicate ShapeWellFormed(c: Command) {
    && (if c.children != [] || c.kind.Group?
        then c.route == "" && c.options == [] && !c.ephemeral && c.deferMode.DeferNone?
        else CanonicalRoute(c.route) && (c.deferMode.DeferNone? || c.deferMode.DeferCreate?))
    && |c.children| <= 25
    && (c.children == [] <== ContextKind(c.kind) || c.kind.Subcommand?)
    && (c.children != [] <== c.kind.Group?)
    && (c.options == [] <== ContextKind(c.kind))
  }

  ghost predicate ChildrenWellFormed(c: Command) {
    forall i :: 0 <= i < |c.children| ==> ChildFits(c.kind, c.children[i].kind)
  }

  predicate ChildFits(parent: CommandKind, kind: CommandKind) {
    (parent.Slash? && (kind.Group? || kind.Subcommand?)) || (parent.Group? && kind.Subcommand?)
  }

  ghost predicate CommandWellFormed(c: Command, top: bool) {
    && NameWellFormed(c) && (top || c.permissions == []) && PermissionsWellFormed(c.permissions)
    && ShapeWellFormed(c) && ChildrenWellFormed(c) && OptionsWellFormed(c.options) && ChecksWellFormed(c.checks)
  }

  ghost predicate TreeWellFormed(command: Command) {
    && TopLevelKind(command.kind)
    && forall position :: CommandBelow(command, position).Some? ==> CommandWellFormed(CommandBelow(command, position).value, position == [])
  }

  ghost predicate ListenerWellFormed(x: Listener) {
    HandlerId(x.id) && CanonicalRoute(x.route) && TrimSpace(x.event) != "" && ChecksWellFormed(x.checks)
  }

  ghost predicate TaskWellFormed(x: Task) {
    HandlerId(x.id) && CanonicalRoute(x.route) && TrimSpace(x.schedule) != "" && ChecksWellFormed(x.checks)
  }

  ghost predicate ComponentWellFormed(x: Component) {
    && HandlerId(x.id) && CanonicalRoute(x.route) && !x.deferMode.UnknownDefer? && ChecksWellFormed(x.checks)
    && x.kinds != [] && Distinct(x.kinds) && forall k :: k in x.kinds ==> !k.UnknownComponent?
  }

  ghost predicate ModalWellFormed(x: Modal) {
    && HandlerId(x.id) && CanonicalRoute(x.route) && !x.deferMode.UnknownDefer? && ChecksWellFormed(x.checks)
    && 1 <= |x.fields| <= 5
    && (forall i, j :: 0 <= i < j < |x.fields| ==> x.fields[i].id != x.fields[j].id)
    && (forall i :: 0 <= i < |x.fields| ==> HandlerId(x.fields[i].id))
  }

  ghost predicate CogWellFormed(cog: Cog) {
    && 1 <= |TrimSpace(cog.name)| <= 100 && ChecksWellFormed(cog.checks)
    && (forall x :: x in cog.commands ==> TreeWellFormed(x))
    && (forall x :: x in cog.listeners ==> ListenerWellFormed(x))
    && (forall x :: x in cog.tasks ==> TaskWellFormed(x))
    && (forall x :: x in cog.components ==> ComponentWellFormed(x))
    && (forall x :: x in cog.modals ==> ModalWellFormed(x))
  }

  ghost predicate WellFormed(d: Definition) { d.cogs != [] && forall cog :: cog in d.cogs ==> CogWellFormed(cog) }

  // ----- The verdicts say so -----

  /** From `i` on, the entries are valid and differ from all before them. */
  ghost predicate NewFrom<T(!new)>(entries: seq<T>, i: nat, valid: T -> bool) {
    && (forall k :: i <= k < |entries| ==> valid(entries[k]))
    && (forall j, k :: 0 <= j < k < |entries| && i <= k ==> entries[j] != entries[k])
  }

  lemma NewFromNext<T(!new)>(entries: seq<T>, i: nat, valid: T -> bool)
    requires i < |entries|
    ensures NewFrom(entries, i, valid) <==> valid(entries[i]) && entries[i] !in entries[..i] && NewFrom(entries, i + 1, valid)
  {
    if entries[i] in entries[..i] {
      var j :| 0 <= j < i && entries[..i][j] == entries[i];
      assert entries[j] == entries[i];
    } else {
      forall j | 0 <= j < i ensures entries[j] != entries[i] { assert entries[..i][j] == entries[j]; }
    }
  }

  lemma {:induction false} ListFaultIff<T(!new)>(entries: seq<T>, i: nat, valid: T -> bool, invalid: Fault, repeated: Fault)
    ensures ListFault(entries, i, valid, invalid, repeated) == None <==> NewFrom(entries, i, valid)
    decreases |entries| - i
  {
    if i < |entries| {
      ListFaultIff(entries, i + 1, valid, invalid, repeated);
      NewFromNext(entries, i, valid);
    }
  }

  lemma ListFaultNone<T(!new)>(entries: seq<T>, valid: T -> bool, invalid: Fault, repeated: Fault)
    ensures ListFault(entries, 0, valid, invalid, repeated) == None <==> Distinct(entries) && forall x :: x in entries ==> valid(x)
  {
    ListFaultIff(entries, 0, valid, invalid, repeated);
    assert (forall x :: x in entries ==> valid(x)) <==> forall k :: 0 <= k < |entries| ==> valid(entries[k]);
  }

  lemma BlankIsNotCanonical(route: RouteID)
    requires CanonicalRoute(route)
    ensures TrimSpace(route) != ""
  {
    assert Split("", ':') == [[]];
  }

  lemma CheckSound(check: Check)
    ensures AllSound(CheckClaims(check)) <==> CheckWellFormed(check)
  {
    ListFaultNone(check.permissions, ValidPermission, UnsupportedPermission, RepeatedPermission);
    assert AllSound(CheckClaims(check)) <==> Sound(CheckClaims(check)[0]);
  }

  lemma {:induction false} ConcatSoundIff<T(!new)>(xs: seq<T>, claims: T -> seq<Claim>)
    ensures AllSound(Concat(xs, claims)) <==> forall x :: x in xs ==> AllSound(claims(x))
  {
    if xs != [] {
      SoundTogether(claims(xs[0]), Concat(xs[1..], claims));
      ConcatSoundIff(xs[1..], claims);
      assert forall x :: x in xs <==> x == xs[0] || x in xs[1..];
    }
  }

  lemma SoundTogether(a: seq<Claim>, b: seq<Claim>)
    ensures AllSound(a + b) <==> AllSound(a) && AllSound(b)
  {
    if AllSound(a + b) { SoundParts(a, b); }
  }

  lemma ChecksSound(checks: seq<Check>)
    ensures AllSound(ChecksClaims(checks)) <==> ChecksWellFormed(checks)
  {
    ConcatSoundIff(checks, CheckClaims);
    forall check | check in checks ensures AllSound(CheckClaims(check)) <==> CheckWellFormed(check) { CheckSound(check); }
  }

  // Options.

  lemma LimitsSound(o: OptionDefinition)
    ensures LimitsFault(o) == None <==>
              LimitsWellFormed(o) && (o.autocomplete != "" ==> o.kind in {OptString, OptInteger, OptNumber} && o.choices == [])
  {
    ListFaultNone(o.channelKinds, (k: ChannelKind) => !k.UnknownChannel?, UnsupportedChannelKind, RepeatedChannelKind);
  }

  lemma {:induction false} ChoicesSoundFrom(o: OptionDefinition, i: nat)
    requires |o.choices| <= 25
    ensures ChoicesFault(o, i) == None <==>
              && (forall j, k :: 0 <= j < k < |o.choices| && i <= k ==> TrimSpace(o.choices[j].name) != TrimSpace(o.choices[k].name))
              && (forall k :: i <= k < |o.choices| ==> ChoiceWellFormed(o.kind, o.choices[k]))
    decreases |o.choices| - i
  {
    if i < |o.choices| {
      ChoicesSoundFrom(o, i + 1);
      ChoiceSound(o, i);
    }
  }

  lemma ChoiceSound(o: OptionDefinition, i: nat)
    requires |o.choices| <= 25 && i < |o.choices|
    ensures ChoicesFault(o, i) == None <==>
              && ChoiceWellFormed(o.kind, o.choices[i])
              && (forall j :: 0 <= j < i ==> TrimSpace(o.choices[j].name) != TrimSpace(o.choices[i].name))
              && ChoicesFault(o, i + 1) == None
  {
  }

  lemma ChoicesSound(o: OptionDefinition)
    ensures ChoicesFault(o, 0) == None <==> ChoicesWellFormed(o)
  {
    if |o.choices| <= 25 { ChoicesSoundFrom(o, 0); }
  }

  /** An option against those before it. */
  ghost predicate FollowsWell(options: seq<OptionDefinition>, i: nat)
    requires i < |options|
  {
    && (forall j :: 0 <= j < i ==> OptionKey(options[j]) != OptionKey(options[i]))
    && (options[i].required ==> forall j :: 0 <= j < i ==> options[j].required)
  }

  ghost predicate FitsIn(options: seq<OptionDefinition>, i: nat)
    requires i < |options|
  {
    OptionWellFormed(options[i]) && FollowsWell(options, i)
  }

  lemma OptionSound(options: seq<OptionDefinition>, i: nat)
    requires i < |options|
    ensures AllSound(OptionClaims(options, i)) <==> FitsIn(options, i)
  {
    var o, claims := options[i], OptionClaims(options, i);
    LimitsSound(o);
    ChoicesSound(o);
    var first, last := [Verdict(OptionFault(o, options[..i]))], [Verdict(ChoicesFault(o, 0))];
    var route := if o.autocomplete != "" then [RouteUsed(o.autocomplete, AutocompleteReference)] else [];
    assert claims == first + route + last;
    SoundTogether(first + route, last);
    SoundTogether(first, route);
    OneSound(first[0]);
    OneSound(last[0]);
    if o.autocomplete != "" { OneSound(route[0]); }
    EarlierOptions(options, i);
  }

  lemma OneSound(c: Claim)
    ensures AllSound([c]) <==> Sound(c)
  {
    assert AllSound([c]) ==> Sound([c][0]);
  }

  lemma EarlierOptions(options: seq<OptionDefinition>, i: nat)
    requires i < |options|
    ensures OptionFault(options[i], options[..i]) == None <==>
              OptionHeadFault(options[i]) == None && LimitsFault(options[i]) == None && FollowsWell(options, i)
  {
    var earlier := options[..i];
    assert forall j :: 0 <= j < i ==> earlier[j] == options[j];
  }

  lemma {:induction false} OptionsSoundFrom(options: seq<OptionDefinition>, i: nat)
    requires i <= |options|
    ensures AllSound(OptionsClaimsFrom(options, i)) <==>
              forall k :: i <= k < |options| ==> FitsIn(options, k)
    decreases |options| - i
  {
    if i < |options| {
      OptionsSoundFrom(options, i + 1);
      OptionSound(options, i);
      SoundTogether(OptionClaims(options, i), OptionsClaimsFrom(options, i + 1));
      FitFrom(options, i);
    }
  }

  lemma FitFrom(options: seq<OptionDefinition>, i: nat)
    requires i < |options|
    ensures (forall k :: i <= k < |options| ==> FitsIn(options, k)) <==>
              FitsIn(options, i) && forall k :: i + 1 <= k < |options| ==> FitsIn(options, k)
  {
  }

  lemma OptionsSound(options: seq<OptionDefinition>)
    ensures AllSound(OptionsClaims(options)) <==> OptionsWellFormed(options)
  {
    var head := [Verdict(FaultIf(|options| > 25, TooManyOptions))];
    SoundTogether(head, OptionsClaimsFrom(options, 0));
    OneSound(head[0]);
    OptionsSoundFrom(options, 0);
    if |options| <= 25 { AllFit(options); }
  }

  lemma AllFit(options: seq<OptionDefinition>)
    requires |options| <= 25
    ensures (forall k :: 0 <= k < |options| ==> FitsIn(options, k)) <==> OptionsWellFormed(options)
  {
    if forall k :: 0 <= k < |options| ==> OptionWellFormed(options[k]) {
      OptionKeysAreNames(options);
    } else {
      var k :| 0 <= k < |options| && !OptionWellFormed(options[k]);
      assert !FitsIn(options, k);
    }
    if forall k :: 0 <= k < |options| ==> FitsIn(options, k) {
      forall k | 0 <= k < |options| ensures OptionWellFormed(options[k]) && FollowsWell(options, k) { assert FitsIn(options, k); }
    }
  }

  lemma OptionKeysAreNames(options: seq<OptionDefinition>)
    requires forall k :: 0 <= k < |options| ==> OptionWellFormed(options[k])
    ensures forall k :: 0 <= k < |options| ==> OptionKey(options[k]) == options[k].name
  {
    forall k | 0 <= k < |options| ensures OptionKey(options[k]) == options[k].name {
      assert OptionWellFormed(options[k]);
      SlashNameIsLower(options[k].name);
    }
  }

  // Commands.

  lemma {:induction false} PermissionsSoundFrom(permissions: seq<string>, i: nat)
    ensures DefaultPermissionsFault(permissions, i) == None <==>
              && (forall k :: i <= k < |permissions| ==> ValidPermission(TrimSpace(permissions[k])))
              && (forall j, k :: 0 <= j < k < |permissions| && i <= k ==> TrimSpace(permissions[j]) != TrimSpace(permissions[k]))
    decreases |permissions| - i
  {
    if i < |permissions| {
      PermissionsSoundFrom(permissions, i + 1);
      SeenBefore(permissions, i);
    }
  }

  lemma SeenBefore(permissions: seq<string>, i: nat)
    requires i < |permissions|
    ensures TrimSpace(permissions[i]) in TrimAll(permissions[..i]) <==>
              exists j :: 0 <= j < i && TrimSpace(permissions[j]) == TrimSpace(permissions[i])
  {
    var trimmed := TrimAll(permissions[..i]);
    assert forall j :: 0 <= j < i ==> trimmed[j] == TrimSpace(permissions[j]);
  }

  lemma PermissionsSound(permissions: seq<string>)
    ensures DefaultPermissionsFault(permissions, 0) == None <==> PermissionsWellFormed(permissions)
  {
    PermissionsSoundFrom(permissions, 0);
    assert (forall p :: p in permissions ==> ValidPermission(TrimSpace(p))) <==>
           forall k :: 0 <= k < |permissions| ==> ValidPermission(TrimSpace(permissions[k]));
  }

  lemma NameSound(c: Command, parent: seq<string>)
    ensures CommandNameFault(c, parent) == None <==>
              NameWellFormed(c) && (parent == [] || c.permissions == []) && PermissionsWellFormed(c.permissions)
  {
    PermissionsSound(c.permissions);
  }

  lemma ShapeSound(c: Command)
    ensures (CommandShapeFault(c) == None
             && (if Container(c) then ContainerFault(c) == None else CanonicalRoute(c.route) && TrimSpace(c.route) != "")) <==>
            ShapeWellFormed(c)
  {
    if CanonicalRoute(c.route) { BlankIsNotCanonical(c.route); }
  }

  lemma OwnSound(c: Command, kind: CommandKind, parent: seq<string>)
    ensures AllSound(OwnClaims(c, kind, parent)) && ChildrenWellFormed(c) <==> CommandWellFormed(c, parent == [])
  {
    var head := OwnClaims(c, kind, parent)[..4];
    assert OwnClaims(c, kind, parent) == head + OptionsClaims(c.options) + ChecksClaims(c.checks);
    SoundTogether(head + OptionsClaims(c.options), ChecksClaims(c.checks));
    SoundTogether(head, OptionsClaims(c.options));
    OptionsSound(c.options);
    ChecksSound(c.checks);
    OwnHeadSound(c, parent, head);
  }

  lemma OwnHeadSound(c: Command, parent: seq<string>, head: seq<Claim>)
    requires |head| == 4 && head[0] == Verdict(CommandNameFault(c, parent)) && head[1].PathUsed?
    requires head[2] == if Container(c) then Verdict(ContainerFault(c)) else RouteUsed(c.route, Owned)
    requires head[3] == Verdict(CommandShapeFault(c))
    ensures AllSound(head) <==>
              NameWellFormed(c) && (parent == [] || c.permissions == []) && PermissionsWellFormed(c.permissions) && ShapeWellFormed(c)
  {
    NameSound(c, parent);
    ShapeSound(c);
    FourSound(head);
  }

  lemma FourSound(head: seq<Claim>)
    requires |head| == 4
    ensures AllSound(head) <==> Sound(head[0]) && Sound(head[1]) && Sound(head[2]) && Sound(head[3])
  {
  }

  /** All commands of a tree are well formed, those below its root without default permissions. */
  ghost predicate BelowWellFormed(command: Command, top: bool) {
    forall position :: CommandBelow(command, position).Some? ==>
      CommandWellFormed(CommandBelow(command, position).value, top && position == [])
  }

  lemma {:induction false} TreeSound(command: Command, kind: CommandKind, parent: seq<string>)
    ensures AllSound(CommandClaims(command, kind, parent)) <==> BelowWellFormed(command, parent == [])
    decreases command
  {
    var path := parent + [PathName(command)];
    SoundTogether(OwnClaims(command, kind, parent), ChildrenClaims(command.kind, command.children, kind, path));
    OwnSound(command, kind, parent);
    ChildrenSound(command.kind, command.children, kind, path);
    BelowSplits(command, parent == []);
    ChildKinds(command);
  }

  lemma ChildKinds(command: Command)
    ensures ChildKindsFit(command.kind, command.children) <==> ChildrenWellFormed(command)
  {
    forall i | 0 <= i < |command.children|
      ensures ChildKindFault(command.kind, command.children[i].kind) == None <==> ChildFits(command.kind, command.children[i].kind)
    {
    }
  }

  ghost predicate ChildKindsFit(parentKind: CommandKind, children: seq<Command>) {
    forall i :: 0 <= i < |children| ==> ChildKindFault(parentKind, children[i].kind) == None
  }

  lemma {:induction false} ChildrenSound(parentKind: CommandKind, children: seq<Command>, kind: CommandKind, path: seq<string>)
    requires path != []
    ensures AllSound(ChildrenClaims(parentKind, children, kind, path)) <==>
              ChildKindsFit(parentKind, children) && EachBelowWellFormed(children)
    decreases children
  {
    if children != [] {
      var verdict := [Verdict(ChildKindFault(parentKind, children[0].kind))];
      var first, rest := CommandClaims(children[0], kind, path), ChildrenClaims(parentKind, children[1..], kind, path);
      SoundTogether(verdict + first, rest);
      SoundTogether(verdict, first);
      OneSound(verdict[0]);
      TreeSound(children[0], kind, path);
      ChildrenSound(parentKind, children[1..], kind, path);
      ChildrenNext(parentKind, children);
    }
  }

  ghost predicate EachBelowWellFormed(children: seq<Command>) { forall i :: 0 <= i < |children| ==> BelowWellFormed(children[i], false) }

  lemma ChildrenNext(parentKind: CommandKind, children: seq<Command>)
    requires children != []
    ensures ChildKindsFit(parentKind, children) <==>
              ChildKindFault(parentKind, children[0].kind) == None && ChildKindsFit(parentKind, children[1..])
    ensures EachBelowWellFormed(children) <==> BelowWellFormed(children[0], false) && EachBelowWellFormed(children[1..])
  {
    assert forall i :: 1 <= i < |children| ==> children[i] == children[1..][i - 1];
    assert forall i :: 0 <= i < |children[1..]| ==> children[1..][i] == children[i + 1];
  }

  lemma BelowSplits(command: Command, top: bool)
    ensures BelowWellFormed(command, top) <==>
              CommandWellFormed(command, top) && forall i :: 0 <= i < |command.children| ==> BelowWellFormed(command.children[i], false)
  {
    assert CommandBelow(command, []) == Some(command);
    if BelowWellFormed(command, top) {
      var position: seq<nat> := [];
      assert CommandWellFormed(CommandBelow(command, position).value, top && position == []);
      forall i | 0 <= i < |command.children| ensures BelowWellFormed(command.children[i], false) { ChildWellFormed(command, top, i); }
    }
    if CommandWellFormed(command, top) && forall i :: 0 <= i < |command.children| ==> BelowWellFormed(command.children[i], false) {
      forall position | CommandBelow(command, position).Some?
        ensures CommandWellFormed(CommandBelow(command, position).value, top && position == [])
      {
        if position != [] { assert BelowWellFormed(command.children[position[0]], false); }
      }
    }
  }

  lemma ChildWellFormed(command: Command, top: bool, i: nat)
    requires BelowWellFormed(command, top) && i < |command.children|
    ensures BelowWellFormed(command.children[i], false)
  {
    forall position | CommandBelow(command.children[i], position).Some?
      ensures CommandWellFormed(CommandBelow(command.children[i], position).value, false && position == [])
    {
      var below := [i] + position;
      assert below[1..] == position && CommandBelow(command, below) == CommandBelow(command.children[i], position);
    }
  }

  // Cogs and the definition.

  lemma TopLevelSound(command: Command)
    ensures AllSound(TopLevelClaims(command)) <==> TreeWellFormed(command)
  {
    var head := TopLevelClaims(command)[..2];
    assert TopLevelClaims(command) == head + CommandClaims(command, command.kind, []);
    SoundTogether(head, CommandClaims(command, command.kind, []));
    TreeSound(command, command.kind, []);
    assert AllSound(head) <==> Sound(head[0]) && Sound(head[1]);
  }

  lemma NamedSound(head: seq<Claim>, route: RouteID, checks: seq<Check>)
    requires |head| == 3 && RouteUsed(route, Owned) in head
    ensures AllSound(head + ChecksClaims(checks)) <==> Sound(head[0]) && Sound(head[1]) && Sound(head[2]) && ChecksWellFormed(checks)
    ensures Sound(RouteUsed(route, Owned)) <==> CanonicalRoute(route)
  {
    SoundTogether(head, ChecksClaims(checks));
    ChecksSound(checks);
    assert AllSound(head) <==> Sound(head[0]) && Sound(head[1]) && Sound(head[2]);
    if CanonicalRoute(route) { BlankIsNotCanonical(route); }
  }

  lemma ListenerSound(x: Listener)
    ensures AllSound(ListenerClaims(x)) <==> ListenerWellFormed(x)
  {
    NamedSound(ListenerClaims(x)[..3], x.route, x.checks);
    assert ListenerClaims(x) == ListenerClaims(x)[..3] + ChecksClaims(x.checks);
  }

  lemma TaskSound(x: Task)
    ensures AllSound(TaskClaims(x)) <==> TaskWellFormed(x)
  {
    NamedSound(TaskClaims(x)[..3], x.route, x.checks);
    assert TaskClaims(x) == TaskClaims(x)[..3] + ChecksClaims(x.checks);
  }

  lemma ComponentSound(x: Component)
    ensures AllSound(ComponentClaims(x)) <==> ComponentWellFormed(x)
  {
    NamedSound(ComponentClaims(x)[..3], x.route, x.checks);
    assert ComponentClaims(x) == ComponentClaims(x)[..3] + ChecksClaims(x.checks);
    ListFaultNone(x.kinds, (k: ComponentKind) => !k.UnknownComponent?, InvalidComponentKind, RepeatedComponentKind);
  }

  lemma ModalSound(x: Modal)
    ensures AllSound(ModalClaims(x)) <==> ModalWellFormed(x)
  {
    NamedSound(ModalClaims(x)[..3], x.route, x.checks);
    assert ModalClaims(x) == ModalClaims(x)[..3] + ChecksClaims(x.checks);
    ListFaultIff(FieldIds(x.fields), 0, HandlerId, InvalidField, RepeatedField);
    assert forall i :: 0 <= i < |x.fields| ==> FieldIds(x.fields)[i] == x.fields[i].id;
  }

  lemma CogSound(cog: Cog)
    ensures AllSound(CogClaims(cog)) <==> CogWellFormed(cog)
  {
    var c0, c1, c2 := [CogNamed(cog.name)], ChecksClaims(cog.checks), Concat(cog.commands, TopLevelClaims);
    var c3, c4 := Concat(cog.listeners, ListenerClaims), Concat(cog.tasks, TaskClaims);
    var c5, c6 := Concat(cog.components, ComponentClaims), Concat(cog.modals, ModalClaims);
    SoundTogether(c0, c1);
    SoundTogether(c0 + c1, c2);
    SoundTogether(c0 + c1 + c2, c3);
    SoundTogether(c0 + c1 + c2 + c3, c4);
    SoundTogether(c0 + c1 + c2 + c3 + c4, c5);
    SoundTogether(c0 + c1 + c2 + c3 + c4 + c5, c6);
    OneSound(c0[0]);
    ChecksSound(cog.checks);
    ListsSound(cog);
  }

  lemma ListsSound(cog: Cog)
    ensures AllSound(Concat(cog.commands, TopLevelClaims)) <==> forall x :: x in cog.commands ==> TreeWellFormed(x)
    ensures AllSound(Concat(cog.listeners, ListenerClaims)) <==> forall x :: x in cog.listeners ==> ListenerWellFormed(x)
    ensures AllSound(Concat(cog.tasks, TaskClaims)) <==> forall x :: x in cog.tasks ==> TaskWellFormed(x)
    ensures AllSound(Concat(cog.components, ComponentClaims)) <==> forall x :: x in cog.components ==> ComponentWellFormed(x)
    ensures AllSound(Concat(cog.modals, ModalClaims)) <==> forall x :: x in cog.modals ==> ModalWellFormed(x)
  {
    ConcatSoundIff(cog.commands, TopLevelClaims);
    forall x | x in cog.commands ensures AllSound(TopLevelClaims(x)) <==> TreeWellFormed(x) { TopLevelSound(x); }
    ConcatSoundIff(cog.listeners, ListenerClaims);
    forall x | x in cog.listeners ensures AllSound(ListenerClaims(x)) <==> ListenerWellFormed(x) { ListenerSound(x); }
    ConcatSoundIff(cog.tasks, TaskClaims);
    forall x | x in cog.tasks ensures AllSound(TaskClaims(x)) <==> TaskWellFormed(x) { TaskSound(x); }
    ConcatSoundIff(cog.components, ComponentClaims);
    forall x | x in cog.components ensures AllSound(ComponentClaims(x)) <==> ComponentWellFormed(x) { ComponentSound(x); }
    ConcatSoundIff(cog.modals, ModalClaims);
    forall x | x in cog.modals ensures AllSound(ModalClaims(x)) <==> ModalWellFormed(x) { ModalSound(x); }
  }

  lemma DefinitionSound(d: Definition)
    ensures AllSound(DefinitionClaims(d)) <==> WellFormed(d)
  {
    var head := DefinitionClaims(d)[..1];
    assert DefinitionClaims(d) == head + Concat(d.cogs, CogClaims) && head == [head[0]];
    SoundTogether(head, Concat(d.cogs, CogClaims));
    OneSound(head[0]);
    ConcatSoundIff(d.cogs, CogClaims);
    forall x | x in d.cogs ensures AllSound(CogClaims(x)) <==> CogWellFormed(x) { CogSound(x); }
  }
}
