/** `Definition.Validate`. The validator walks a tree and writes to shared tables as it goes. Its
    specification flattens the tree into the sequence of claims the walk makes and processes that
    sequence in order; whether a definition is accepted then turns out not to depend on the order. */
module DefinitionValidation {
  import opened Wrappers
  import opened GoText
  import opened PluginContract

  datatype Fault =
    | NoCogs | CogNameRequired | CogNameTooLong | DuplicateCogName
    | TooManyCommands | IllegalTopLevelKind
    | NameWhitespace | InvalidName | DescriptionRequired | DescriptionTooLong | ContextDescription
    | ChildPermissions | EmptyPermission | UnsupportedPermission | RepeatedPermission | DuplicatePath
    | ContainerRoute | ContainerOptions | ContainerResponse | InvalidDefer | TooManyChildren
    | ContextShape | EmptyGroup | SubcommandChildren | IllegalChildKind
    | TooManyOptions | UnsupportedOptionKind | DuplicateOption | RequiredAfterOptional
    | LimitsForKind | IntegerRange | LimitNotFinite | LimitsReversed | NegativeLength | ChannelKindsForKind
    | UnsupportedChannelKind | RepeatedChannelKind | CannotAutocomplete | ChoicesAndAutocomplete
    | TooManyChoices | InvalidChoiceName | DuplicateChoice | InvalidChoice | ChoiceKindMismatch
    | CheckArguments | PermissionsRequired | UnsupportedCheck
    | InvalidId | DuplicateId | BlankEvent | BlankSchedule
    | KindsRequired | InvalidComponentKind | RepeatedComponentKind | FieldCount | InvalidField | RepeatedField
    | RouteRequired | RouteNotCanonical | DuplicateRoute

  datatype RouteUse = Owned | AutocompleteReference | CheckReference
  datatype IdClass = ListenerId | TaskId | ComponentId | ModalId

  /** One step of the walk: a verdict that reads no table, or an entry into one of the tables. */
  datatype Claim =
    | Verdict(fault: Option<Fault>)
    | CogNamed(name: string)
    | TopLevel(kind: CommandKind)
    | PathUsed(key: string)
    | IdUsed(space: IdClass, id: string)
    | RouteUsed(route: RouteID, use: RouteUse)

  datatype Tables = Tables(
    cogNames: set<string>, counts: map<CommandKind, nat>, paths: set<string>,
    ids: set<(IdClass, string)>, routes: map<RouteID, RouteUse>)
  {
    function Count(kind: CommandKind): nat {
      if kind in counts then counts[kind] else 0
    }
  }

  const EmptyTables := Tables({}, map[], {}, {}, map[])

  // ----- Patterns and closed vocabularies -----

  /** `^[a-z0-9_-]{1,32}$` */
  predicate SlashName(s: string) {
    1 <= |s| <= 32 && forall i :: 0 <= i < |s| ==> LowerAlpha(s[i]) || Digit(s[i]) || s[i] == '_' || s[i] == '-'
  }

  /** `^[a-z][a-z0-9_.-]{0,63}$` */
  predicate HandlerId(s: string) {
    1 <= |s| <= 64 && LowerAlpha(s[0]) && forall i :: 0 <= i < |s| ==> IdChar(s[i])
  }

  /** `^[a-z][a-z0-9]*(?::[a-z0-9][a-z0-9_.-]*)+$` */
  predicate RouteShape(s: string) {
    var parts := Split(s, ':');
    && |parts| >= 2
    && parts[0] != [] && LowerAlpha(parts[0][0])
    && (forall i :: 0 <= i < |parts[0]| ==> LowerAlpha(parts[0][i]) || Digit(parts[0][i]))
    && forall j :: 1 <= j < |parts| ==> RouteSegment(parts[j])
  }

  predicate RouteSegment(s: string) {
    s != [] && (LowerAlpha(s[0]) || Digit(s[0])) && forall i :: 0 <= i < |s| ==> IdChar(s[i])
  }

  predicate CanonicalRoute(route: RouteID) {
    TrimSpace(route) == route && RouteShape(route)
  }

  predicate ContextKind(kind: CommandKind) { kind.UserContext? || kind.MessageContext? }
  predicate ValidDefer(mode: DeferMode) { !mode.UnknownDefer? }
  predicate ValidPermission(permission: string) {
    permission in {
      "administrator", "manage_guild", "manage_roles", "manage_expressions", "create_expressions",
      "manage_messages", "manage_nicknames", "manage_channels", "kick_members", "ban_members", "moderate_members"}
  }

  function KindText(kind: CommandKind): string {
    match kind
    case Slash => "slash"
    case UserContext => "user"
    case MessageContext => "message"
    case Group => "group"
    case Subcommand => "subcommand"
    case UnknownCommand(text) => text
  }

  function PathKey(namespace: CommandKind, path: seq<string>): string {
    KindText(namespace) + ":" + Join(path, " ")
  }

  function CommandLimit(kind: CommandKind): nat {
    if ContextKind(kind) then 5 else 100
  }

  // ----- Verdicts: the checks that read no table -----

  /** First fault of a list whose entries must be valid and distinct. */
  function ListFault<T(==)>(entries: seq<T>, i: nat, valid: T -> bool, invalid: Fault, repeated: Fault): Option<Fault>
    decreases |entries| - i
  {
    if i >= |entries| then None
    else if !valid(entries[i]) then Some(invalid)
    else if entries[i] in entries[..i] then Some(repeated)
    else ListFault(entries, i + 1, valid, invalid, repeated)
  }

  function TrimAll(texts: seq<string>): seq<string> {
    seq(|texts|, i requires 0 <= i < |texts| => TrimSpace(texts[i]))
  }

  function DefaultPermissionsFault(permissions: seq<string>, i: nat): Option<Fault>
    decreases |permissions| - i
  {
    if i >= |permissions| then None
    else
      var permission := TrimSpace(permissions[i]);
      if permission == "" then Some(EmptyPermission)
      else if !ValidPermission(permission) then Some(UnsupportedPermission)
      else if permission in TrimAll(permissions[..i]) then Some(RepeatedPermission)
      else DefaultPermissionsFault(permissions, i + 1)
  }

  function DescriptionFault(description: string): Option<Fault> {
    if TrimSpace(description) == "" then Some(DescriptionRequired)
    else if |description| > 100 then Some(DescriptionTooLong)
    else None
  }

  function CommandNameFault(command: Command, parent: seq<string>): Option<Fault> {
    var name := TrimSpace(command.name);
    if command.name != name then Some(NameWhitespace)
    else if !SlashName(name) && !ContextKind(command.kind) then Some(InvalidName)
    else if ContextKind(command.kind) && (name == "" || |name| > 32) then Some(InvalidName)
    else if !ContextKind(command.kind) && DescriptionFault(command.description) != None then
      DescriptionFault(command.description)
    else if ContextKind(command.kind) && (command.description != "" || command.descriptionID != "") then
      Some(ContextDescription)
    else if parent != [] && command.permissions != [] then Some(ChildPermissions)
    else DefaultPermissionsFault(command.permissions, 0)
  }

  predicate Container(command: Command) { command.children != [] || command.kind.Group? }

  function ContainerFault(command: Command): Option<Fault> {
    if command.route != "" then Some(ContainerRoute)
    else if command.options != [] then Some(ContainerOptions)
    else if command.ephemeral || command.deferMode != DeferNone then Some(ContainerResponse)
    else None
  }

  function CommandShapeFault(command: Command): Option<Fault> {
    if !Container(command) && (!ValidDefer(command.deferMode) || command.deferMode.DeferUpdate?) then Some(InvalidDefer)
    else if |command.children| > 25 then Some(TooManyChildren)
    else if ContextKind(command.kind) && (command.children != [] || command.options != []) then Some(ContextShape)
    else if command.kind.Group? && command.children == [] then Some(EmptyGroup)
    else if command.kind.Subcommand? && command.children != [] then Some(SubcommandChildren)
    else None
  }

  function ChildKindFault(parentKind: CommandKind, kind: CommandKind): Option<Fault> {
    match parentKind
    case Slash => if kind.Subcommand? || kind.Group? then None else Some(IllegalChildKind)
    case Group => if kind.Subcommand? then None else Some(IllegalChildKind)
    case _ => Some(IllegalChildKind)
  }

  const MAX_SAFE_INTEGER := 9007199254740991

  predicate OutOfSafeRange(limit: Option<int>) {
    limit.Some? && !(-MAX_SAFE_INTEGER <= limit.value <= MAX_SAFE_INTEGER)
  }

  predicate NotFinite(limit: Option<Float>) { limit.Some? && !limit.value.Finite? }

  function OptionHeadFault(option: OptionDefinition): Option<Fault> {
    var name := TrimSpace(option.name);
    if option.name != name then Some(NameWhitespace)
    else if !SlashName(name) then Some(InvalidName)
    else if option.kind.UnknownOption? then Some(UnsupportedOptionKind)
    else DescriptionFault(option.description)
  }

  function OptionKey(option: OptionDefinition): string { ToLower(TrimSpace(option.name)) }

  function OptionFault(option: OptionDefinition, earlier: seq<OptionDefinition>): Option<Fault> {
    if OptionHeadFault(option) != None then OptionHeadFault(option)
    else if exists i :: 0 <= i < |earlier| && OptionKey(earlier[i]) == OptionKey(option) then Some(DuplicateOption)
    else if option.required && exists i :: 0 <= i < |earlier| && !earlier[i].required then
      Some(RequiredAfterOptional)
    else LimitsFault(option)
  }

  function LimitsFault(option: OptionDefinition): Option<Fault> {
    if (option.minInteger.Some? || option.maxInteger.Some?) && !option.kind.OptInteger? then Some(LimitsForKind)
    else if OutOfSafeRange(option.minInteger) || OutOfSafeRange(option.maxInteger) then Some(IntegerRange)
    else if option.minInteger.Some? && option.maxInteger.Some? && option.minInteger.value > option.maxInteger.value then
      Some(LimitsReversed)
    else if (option.minNumber.Some? || option.maxNumber.Some?) && !option.kind.OptNumber? then Some(LimitsForKind)
    else if NotFinite(option.minNumber) || NotFinite(option.maxNumber) then Some(LimitNotFinite)
    else if option.minNumber.Some? && option.maxNumber.Some? && option.maxNumber.value.LessThan(option.minNumber.value) then
      Some(LimitsReversed)
    else if (option.minLength.Some? || option.maxLength.Some?) && !option.kind.OptString? then Some(LimitsForKind)
    else if (option.minLength.Some? && option.minLength.value < 0) || (option.maxLength.Some? && option.maxLength.value < 0) then
      Some(NegativeLength)
    else if option.minLength.Some? && option.maxLength.Some? && option.minLength.value > option.maxLength.value then
      Some(LimitsReversed)
    else if option.channelKinds != [] && !option.kind.OptChannel? then Some(ChannelKindsForKind)
    else
      var channels := ListFault(option.channelKinds, 0, (k: ChannelKind) => !k.UnknownChannel?,
                                UnsupportedChannelKind, RepeatedChannelKind);
      if channels != None then channels
      else if option.autocomplete != "" && !option.kind.OptString? && !option.kind.OptInteger? && !option.kind.OptNumber? then
        Some(CannotAutocomplete)
      else if option.autocomplete != "" && option.choices != [] then Some(ChoicesAndAutocomplete)
      else None
  }

  function ChoiceValueFault(value: ChoiceValue): Option<Fault> {
    match value.kind
    case ChoiceString =>
      if |value.text| > 100 || value.integer != 0 || !value.number.Equals(Finite(0.0)) then Some(InvalidChoice) else None
    case ChoiceInteger =>
      if value.text != "" || !value.number.Equals(Finite(0.0)) then Some(InvalidChoice) else None
    case ChoiceNumber =>
      if !value.number.Finite? || value.text != "" || value.integer != 0 then Some(InvalidChoice) else None
    case UnknownChoice(_) => Some(InvalidChoice)
  }

  predicate ChoiceKindDiffers(option: OptionKind, choice: ChoiceKind) {
    || (option.OptString? && !choice.ChoiceString?)
    || (option.OptInteger? && !choice.ChoiceInteger?)
    || (option.OptNumber? && !choice.ChoiceNumber?)
  }

  function ChoicesFault(option: OptionDefinition, i: nat): Option<Fault>
    decreases |option.choices| - i
  {
    if |option.choices| > 25 then Some(TooManyChoices)
    else if i >= |option.choices| then None
    else
      var name := TrimSpace(option.choices[i].name);
      var value := option.choices[i].value;
      if name == "" || |name| > 100 then Some(InvalidChoiceName)
      else if exists j :: 0 <= j < i && TrimSpace(option.choices[j].name) == name then Some(DuplicateChoice)
      else if ChoiceValueFault(value) != None then ChoiceValueFault(value)
      else if ChoiceKindDiffers(option.kind, value.kind) then Some(ChoiceKindMismatch)
      else ChoicesFault(option, i + 1)
  }

  function PermissionCheckFault(check: Check): Option<Fault> {
    if check.permissions == [] then Some(PermissionsRequired)
    else if check.route != "" then Some(CheckArguments)
    else ListFault(check.permissions, 0, ValidPermission, UnsupportedPermission, RepeatedPermission)
  }

  function ComponentFault(component: Component): Option<Fault> {
    if component.kinds == [] then Some(KindsRequired)
    else
      var kinds := ListFault(component.kinds, 0, (k: ComponentKind) => !k.UnknownComponent?,
                             InvalidComponentKind, RepeatedComponentKind);
      if kinds != None then kinds
      else if !ValidDefer(component.deferMode) then Some(InvalidDefer)
      else None
  }

  function FieldIds(fields: seq<ModalField>): seq<string> {
    seq(|fields|, i requires 0 <= i < |fields| => fields[i].id)
  }

  function ModalFault(modal: Modal): Option<Fault> {
    if !(1 <= |modal.fields| <= 5) then Some(FieldCount)
    else
      var fields := ListFault(FieldIds(modal.fields), 0, HandlerId, InvalidField, RepeatedField);
      if fields != None then fields
      else if !ValidDefer(modal.deferMode) then Some(InvalidDefer)
      else None
  }

  function FaultIf(condition: bool, fault: Fault): Option<Fault> {
    if condition then Some(fault) else None
  }

  // ----- The claims of each part of a definition, in the order the walk makes them -----

  function Concat<T, U>(xs: seq<T>, f: T -> seq<U>): seq<U> {
    if xs == [] then [] else f(xs[0]) + Concat(xs[1..], f)
  }

  function CheckClaims(check: Check): seq<Claim> {
    match check.kind
    case GuildOnly => [Verdict(FaultIf(check.permissions != [] || check.route != "", CheckArguments))]
    case OwnerOnly => [Verdict(FaultIf(check.permissions != [] || check.route != "", CheckArguments))]
    case HasPermissions => [Verdict(PermissionCheckFault(check))]
    case Custom => [RouteUsed(check.route, CheckReference)]
    case UnknownCheck(_) => [Verdict(Some(UnsupportedCheck))]
  }

  function ChecksClaims(checks: seq<Check>): seq<Claim> {
    Concat(checks, CheckClaims)
  }

  function OptionClaims(options: seq<OptionDefinition>, i: nat): seq<Claim>
    requires i < |options|
  {
    [Verdict(OptionFault(options[i], options[..i]))]
    + (if options[i].autocomplete != "" then [RouteUsed(options[i].autocomplete, AutocompleteReference)] else [])
    + [Verdict(ChoicesFault(options[i], 0))]
  }

  function OptionsClaimsFrom(options: seq<OptionDefinition>, i: nat): seq<Claim>
    requires i <= |options|
    decreases |options| - i
  {
    if i == |options| then [] else OptionClaims(options, i) + OptionsClaimsFrom(options, i + 1)
  }

  function OptionsClaims(options: seq<OptionDefinition>): seq<Claim> {
    [Verdict(FaultIf(|options| > 25, TooManyOptions))] + OptionsClaimsFrom(options, 0)
  }

  /** The name a command contributes to the path key. */
  function PathName(command: Command): string { ToLower(TrimSpace(command.name)) }

  /** Everything a command claims before its children. */
  function OwnClaims(command: Command, namespace: CommandKind, parent: seq<string>): seq<Claim> {
    [Verdict(CommandNameFault(command, parent)),
     PathUsed(PathKey(namespace, parent + [PathName(command)])),
     if Container(command) then Verdict(ContainerFault(command)) else RouteUsed(command.route, Owned),
     Verdict(CommandShapeFault(command))]
    + OptionsClaims(command.options)
    + ChecksClaims(command.checks)
  }

  function CommandClaims(command: Command, namespace: CommandKind, parent: seq<string>): seq<Claim>
    decreases command
  {
    OwnClaims(command, namespace, parent)
    + ChildrenClaims(command.kind, command.children, namespace, parent + [PathName(command)])
  }

  function ChildrenClaims(parentKind: CommandKind, children: seq<Command>, namespace: CommandKind, path: seq<string>): seq<Claim>
    decreases children
  {
    if children == [] then []
    else
      [Verdict(ChildKindFault(parentKind, children[0].kind))]
      + CommandClaims(children[0], namespace, path)
      + ChildrenClaims(parentKind, children[1..], namespace, path)
  }

  predicate TopLevelKind(kind: CommandKind) { kind.Slash? || ContextKind(kind) }

  function TopLevelClaims(command: Command): seq<Claim> {
    [TopLevel(command.kind), Verdict(FaultIf(!TopLevelKind(command.kind), IllegalTopLevelKind))]
    + CommandClaims(command, command.kind, [])
  }

  function ListenerClaims(listener: Listener): seq<Claim> {
    [IdUsed(ListenerId, listener.id), RouteUsed(listener.route, Owned),
     Verdict(FaultIf(TrimSpace(listener.event) == "", BlankEvent))]
    + ChecksClaims(listener.checks)
  }

  function TaskClaims(task: Task): seq<Claim> {
    [IdUsed(TaskId, task.id), RouteUsed(task.route, Owned),
     Verdict(FaultIf(TrimSpace(task.schedule) == "", BlankSchedule))]
    + ChecksClaims(task.checks)
  }

  function ComponentClaims(component: Component): seq<Claim> {
    [Verdict(ComponentFault(component)), IdUsed(ComponentId, component.id), RouteUsed(component.route, Owned)]
    + ChecksClaims(component.checks)
  }

  function ModalClaims(modal: Modal): seq<Claim> {
    [Verdict(ModalFault(modal)), IdUsed(ModalId, modal.id), RouteUsed(modal.route, Owned)]
    + ChecksClaims(modal.checks)
  }

  function CogClaims(cog: Cog): seq<Claim> {
    [CogNamed(cog.name)]
    + ChecksClaims(cog.checks)
    + Concat(cog.commands, TopLevelClaims)
    + Concat(cog.listeners, ListenerClaims)
    + Concat(cog.tasks, TaskClaims)
    + Concat(cog.components, ComponentClaims)
    + Concat(cog.modals, ModalClaims)
  }

  function DefinitionClaims(d: Definition): seq<Claim> {
    [Verdict(FaultIf(d.cogs == [], NoCogs))] + Concat(d.cogs, CogClaims)
  }

  // ----- Processing claims against the tables -----

  function CogKey(name: string): string { ToLower(TrimSpace(name)) }

  function Apply(claim: Claim, t: Tables): Result<Tables, Fault> {
    match claim
    case Verdict(fault) => if fault.Some? then Err(fault.value) else Ok(t)
    case CogNamed(name) =>
      if TrimSpace(name) == "" then Err(CogNameRequired)
      else if |TrimSpace(name)| > 100 then Err(CogNameTooLong)
      else if CogKey(name) in t.cogNames then Err(DuplicateCogName)
      else Ok(t.(cogNames := t.cogNames + {CogKey(name)}))
    case TopLevel(kind) =>
      if t.Count(kind) + 1 > CommandLimit(kind) then Err(TooManyCommands)
      else Ok(t.(counts := t.counts[kind := t.Count(kind) + 1]))
    case PathUsed(key) =>
      if key in t.paths then Err(DuplicatePath) else Ok(t.(paths := t.paths + {key}))
    case IdUsed(space, id) =>
      if !HandlerId(id) then Err(InvalidId)
      else if (space, id) in t.ids then Err(DuplicateId)
      else Ok(t.(ids := t.ids + {(space, id)}))
    case RouteUsed(route, use) =>
      if use.Owned? && TrimSpace(route) == "" then Err(RouteRequired)
      else if !CanonicalRoute(route) then Err(RouteNotCanonical)
      else if route !in t.routes then Ok(t.(routes := t.routes[route := use]))
      else if !use.Owned? && t.routes[route] == use then Ok(t)
      else Err(DuplicateRoute)
  }

  function Process(claims: seq<Claim>, t: Tables): Result<Tables, Fault> {
    if claims == [] then Ok(t)
    else
      var next := Apply(claims[0], t);
      if next.Err? then next else Process(claims[1..], next.value)
  }

  /** The verdict of `Definition.Validate`. */
  function ValidationFault(d: Definition): Option<Fault> {
    var r := Process(DefinitionClaims(d), EmptyTables);
    if r.Err? then Some(r.error) else None
  }

  lemma {:induction false} ProcessAppend(a: seq<Claim>, b: seq<Claim>, t: Tables)
    ensures Process(a + b, t) ==
            var mid := Process(a, t);
            if mid.Err? then mid else Process(b, mid.value)
  {
    if a == [] {
      assert a + b == b;
    } else {
      assert (a + b)[0] == a[0] && (a + b)[1..] == a[1..] + b;
      var next := Apply(a[0], t);
      if next.Ok? {
        ProcessAppend(a[1..], b, next.value);
      }
    }
  }

  // ----- Acceptance does not depend on the order of the walk -----

  /** The conditions on a claim that no other claim can influence. */
  predicate Sound(claim: Claim) {
    match claim
    case Verdict(fault) => fault.None?
    case CogNamed(name) => 1 <= |TrimSpace(name)| <= 100
    case IdUsed(_, id) => HandlerId(id)
    case RouteUsed(route, use) => CanonicalRoute(route) && (use.Owned? ==> TrimSpace(route) != "")
    case _ => true
  }

  /** The conditions between two claims: names, paths and ids are used once; a route is owned by one
      item, or shared by autocomplete references alone, or by check references alone. */
  predicate Compatible(a: Claim, b: Claim) {
    match (a, b)
    case (CogNamed(x), CogNamed(y)) => CogKey(x) != CogKey(y)
    case (PathUsed(x), PathUsed(y)) => x != y
    case (IdUsed(c, x), IdUsed(d, y)) => c != d || x != y
    case (RouteUsed(r, u), RouteUsed(s, v)) => r == s ==> u == v && !u.Owned?
    case _ => true
  }

  function TopLevelCount(claims: seq<Claim>, kind: CommandKind): nat {
    if claims == [] then 0
    else (if claims[0] == TopLevel(kind) then 1 else 0) + TopLevelCount(claims[1..], kind)
  }

  ghost predicate AllSound(claims: seq<Claim>) {
    forall i :: 0 <= i < |claims| ==> Sound(claims[i])
  }

  ghost predicate AllCompatible(claims: seq<Claim>) {
    forall i, j :: 0 <= i < j < |claims| ==> Compatible(claims[i], claims[j])
  }

  ghost predicate WithinLimits(t: Tables, claims: seq<Claim>) {
    forall kind: CommandKind :: t.Count(kind) + TopLevelCount(claims, kind) <= CommandLimit(kind)
  }

  ghost predicate Acceptable(claims: seq<Claim>) {
    AllSound(claims) && AllCompatible(claims) && WithinLimits(EmptyTables, claims)
  }

  /** `claim` would enter `t` if the command counts allowed it. */
  predicate Admits(t: Tables, claim: Claim) {
    Sound(claim)
    && match claim
       case CogNamed(name) => CogKey(name) !in t.cogNames
       case PathUsed(key) => key !in t.paths
       case IdUsed(space, id) => (space, id) !in t.ids
       case RouteUsed(route, use) => route !in t.routes || (t.routes[route] == use && !use.Owned?)
       case _ => true
  }

  ghost predicate AllAdmitted(t: Tables, claims: seq<Claim>) {
    forall i :: 0 <= i < |claims| ==> Admits(t, claims[i])
  }

  lemma ApplyAdmits(claim: Claim, t: Tables)
    ensures Apply(claim, t).Ok? <==>
            Admits(t, claim) && (claim.TopLevel? ==> t.Count(claim.kind) + 1 <= CommandLimit(claim.kind))
  {
  }

  /** After `claim` has entered, what is still admitted is what was admitted and is compatible with it. */
  lemma AdmittedAfter(claim: Claim, t: Tables, other: Claim)
    requires Apply(claim, t).Ok?
    ensures Admits(Apply(claim, t).value, other) <==> Admits(t, other) && Compatible(claim, other)
  {
  }

  lemma {:induction false} ProcessAccepts(claims: seq<Claim>, t: Tables)
    requires forall kind: CommandKind :: t.Count(kind) <= CommandLimit(kind)
    ensures Process(claims, t).Ok? <==> AllAdmitted(t, claims) && AllCompatible(claims) && WithinLimits(t, claims)
  {
    if claims == [] {
    } else {
      var claim, rest := claims[0], claims[1..];
      ApplyAdmits(claim, t);
      assert forall i :: 0 <= i < |rest| ==> rest[i] == claims[i + 1];
      if claim.TopLevel? {
        assert TopLevelCount(claims, claim.kind) == 1 + TopLevelCount(rest, claim.kind);
      }
      if Apply(claim, t).Ok? {
        var t' := Apply(claim, t).value;
        forall i | 0 <= i < |rest|
          ensures Admits(t', rest[i]) <==> Admits(t, rest[i]) && Compatible(claim, rest[i])
        {
          AdmittedAfter(claim, t, rest[i]);
        }
        forall kind: CommandKind
          ensures t'.Count(kind) + TopLevelCount(rest, kind) == t.Count(kind) + TopLevelCount(claims, kind)
          ensures t'.Count(kind) <= CommandLimit(kind)
        {
        }
        ProcessAccepts(rest, t');
        AcceptsStep(claims, t, t');
      }
    }
  }

  lemma AcceptsStep(claims: seq<Claim>, t: Tables, t': Tables)
    requires claims != []
    requires Admits(t, claims[0])
    requires forall i :: 0 <= i < |claims[1..]| ==>
               (Admits(t', claims[1..][i]) <==> Admits(t, claims[1..][i]) && Compatible(claims[0], claims[1..][i]))
    requires forall kind: CommandKind ::
               t'.Count(kind) + TopLevelCount(claims[1..], kind) == t.Count(kind) + TopLevelCount(claims, kind)
    ensures AllAdmitted(t', claims[1..]) && AllCompatible(claims[1..]) && WithinLimits(t', claims[1..])
            <==> AllAdmitted(t, claims) && AllCompatible(claims) && WithinLimits(t, claims)
  {
    var rest := claims[1..];
    if AllAdmitted(t', rest) && AllCompatible(rest) {
      forall i, j | 0 <= i < j < |claims| ensures Compatible(claims[i], claims[j]) {
        assert claims[j] == rest[j - 1];
        if i > 0 { assert claims[i] == rest[i - 1]; } else { assert Admits(t', rest[j - 1]); }
      }
      forall i | 0 <= i < |claims| ensures Admits(t, claims[i]) {
        if i > 0 { assert claims[i] == rest[i - 1]; assert Admits(t', rest[i - 1]); }
      }
    }
    if AllAdmitted(t, claims) && AllCompatible(claims) {
      forall i | 0 <= i < |rest| ensures Admits(t', rest[i]) {
        assert rest[i] == claims[i + 1];
        assert Admits(t, claims[i + 1]) && Compatible(claims[0], claims[i + 1]);
      }
      forall i, j | 0 <= i < j < |rest| ensures Compatible(rest[i], rest[j]) {
        assert rest[i] == claims[i + 1] && rest[j] == claims[j + 1];
      }
    }
  }

  /** A definition is accepted exactly when each of its claims is sound, every two are compatible,
      and the top-level commands of each kind stay within the limit. */
  lemma ValidationAccepts(d: Definition)
    ensures ValidationFault(d) == None <==> Acceptable(DefinitionClaims(d))
  {
    var claims := DefinitionClaims(d);
    ProcessAccepts(claims, EmptyTables);
    assert AllAdmitted(EmptyTables, claims) <==> AllSound(claims) by {
      assert forall c :: Admits(EmptyTables, c) <==> Sound(c);
    }
  }
}
