/** `RouteCatalog.ValidateOutcome`: the handlers a plugin's reply refers to must be declared. */
module OutcomeValidation {
  import opened Wrappers
  import opened PluginContract
  import opened DefinitionValidation
  import opened RouteCompilation
  import opened RouteOwnership
  import opened RouteResolution
  import opened RouteTheorems

  datatype SelectKind = StringMenu | UserMenu | RoleMenu | MentionableMenu | ChannelMenu | UnknownMenu(text: string)

  datatype MessageComponent =
    | Button(handler: string, link: bool)
    | Select(handler: string, kind: SelectKind)
    | OtherComponent

  type Rows = seq<seq<MessageComponent>>

  /** Replies, by the parts that can refer to a handler. A patch may leave the components unset. */
  datatype Operation =
    | Message(rows: Rows)
    | Update(patch: Option<Rows>)
    | EditResponse(patch: Option<Rows>)
    | SendChannel(rows: Rows)
    | SendDM(rows: Rows)
    | OpenModal(handler: string, fields: seq<ModalField>)
    | BestEffort(operation: Operation)
    | Guarded(operation: Operation, failure: Operation)
    | OtherOperation

  /** `wellFormed` stands for `Outcome.Validate`. */
  datatype Outcome = Outcome(operations: seq<Operation>, wellFormed: bool)

  function MenuComponent(kind: SelectKind): ComponentKind {
    match kind
    case StringMenu => StringSelect
    case UserMenu => UserSelect
    case RoleMenu => RoleSelect
    case MentionableMenu => MentionableSelect
    case ChannelMenu => ChannelSelect
    case UnknownMenu(_) => UnknownComponent("")
  }

  // ----- Components -----

  predicate Serves(s: Signature, id: string, kind: ComponentKind) {
    s.ComponentSignature? && s.id == id && kind in s.kinds
  }

  predicate Supports(catalog: Catalog, id: string, kind: ComponentKind) {
    exists route :: route in catalog && exists i :: 0 <= i < |catalog[route]| && Serves(catalog[route][i], id, kind)
  }

  predicate Handled(catalog: Catalog, component: MessageComponent) {
    match component
    case Button(handler, link) => link || Supports(catalog, handler, ButtonComponent)
    case Select(handler, kind) => Supports(catalog, handler, MenuComponent(kind))
    case OtherComponent => true
  }

  predicate RowsHandled(catalog: Catalog, rows: Rows) {
    forall i, j :: 0 <= i < |rows| && 0 <= j < |rows[i]| ==> Handled(catalog, rows[i][j])
  }

  /** Iteration over the catalog in whatever order the map gives. */
  method ComponentSupports(catalog: Catalog, id: string, kind: ComponentKind) returns (found: bool)
    ensures found == Supports(catalog, id, kind)
  {
    var remaining := catalog.Keys;
    while remaining != {}
      invariant remaining <= catalog.Keys
      invariant forall route :: route in catalog && route !in remaining ==>
                  forall i :: 0 <= i < |catalog[route]| ==> !Serves(catalog[route][i], id, kind)
      decreases |remaining|
    {
      var route :| route in remaining;
      for i := 0 to |catalog[route]|
        invariant forall j :: 0 <= j < i ==> !Serves(catalog[route][j], id, kind)
      {
        if Serves(catalog[route][i], id, kind) { return true; }
      }
      remaining := remaining - {route};
    }
    return false;
  }

  method ValidateRows(catalog: Catalog, rows: Rows) returns (accepted: bool)
    ensures accepted == RowsHandled(catalog, rows)
  {
    for i := 0 to |rows|
      invariant RowsHandled(catalog, rows[..i])
    {
      assert rows[..i + 1] == rows[..i] + [rows[i]];
      for j := 0 to |rows[i]|
        invariant forall k :: 0 <= k < j ==> Handled(catalog, rows[i][k])
      {
        match rows[i][j] {
          case Button(handler, link) =>
            if !link {
              var supported := ComponentSupports(catalog, handler, ButtonComponent);
              if !supported { return false; }
            }
          case Select(handler, kind) =>
            var supported := ComponentSupports(catalog, handler, MenuComponent(kind));
            if !supported { return false; }
          case OtherComponent =>
        }
      }
    }
    assert rows[..|rows|] == rows;
    return true;
  }

  // ----- Modals -----

  function IndexDeclared(fields: seq<ModalField>, index: map<string, ModalField>): map<string, ModalField>
    decreases |fields|
  {
    if fields == [] then index else IndexDeclared(fields[1..], index[fields[0].id := fields[0]])
  }

  /** Each shown field takes its declaration out of the index. */
  function TakeDeclared(index: map<string, ModalField>, shown: seq<ModalField>): Option<map<string, ModalField>>
    decreases |shown|
  {
    if shown == [] then Some(index)
    else if shown[0].id !in index || index[shown[0].id].required != shown[0].required then None
    else TakeDeclared(index - {shown[0].id}, shown[1..])
  }

  predicate FieldsAgree(declared: seq<ModalField>, shown: seq<ModalField>) {
    |declared| == |shown| && TakeDeclared(IndexDeclared(declared, map[]), shown) == Some(map[])
  }

  lemma {:induction false} IndexDeclaredValues(fields: seq<ModalField>, index: map<string, ModalField>)
    requires DistinctFields(fields) && forall i :: 0 <= i < |fields| ==> fields[i].id !in index
    requires IndexedById(index)
    ensures var all := IndexDeclared(fields, index);
            && IndexedById(all)
            && multiset(all.Values) == multiset(index.Values) + multiset(fields)
    decreases |fields|
  {
    if fields != [] {
      var first, rest := fields[0], fields[1..];
      var next := index[first.id := first];
      assert fields == [first] + rest;
      assert next.Values == index.Values + {first} by {
        forall v | v in index.Values + {first} ensures v in next.Values {
          if v == first { assert next[first.id] == first; }
          else { var id :| id in index && index[id] == v; assert next[id] == v; }
        }
      }
      assert first !in index.Values;
      forall i, j | 0 <= i < j < |rest| ensures rest[i].id != rest[j].id {
        assert rest[i] == fields[i + 1] && rest[j] == fields[j + 1];
      }
      forall i | 0 <= i < |rest| ensures rest[i].id !in next { assert rest[i] == fields[i + 1]; }
      IndexDeclaredValues(rest, next);
    }
  }

  ghost predicate IndexedById(index: map<string, ModalField>) {
    forall id :: id in index ==> index[id].id == id
  }

  lemma ValuesWithout(index: map<string, ModalField>, field: ModalField)
    requires IndexedById(index) && field.id in index && index[field.id] == field
    ensures multiset(index.Values) == multiset{field} + multiset((index - {field.id}).Values)
  {
    var next := index - {field.id};
    assert field in index.Values by { assert index[field.id] == field; }
    assert index.Values == {field} + next.Values by {
      forall v | v in index.Values ensures v in {field} + next.Values {
        var id :| id in index && index[id] == v;
        if id != field.id { assert next[id] == v; }
      }
    }
    assert field !in next.Values;
  }

  lemma HeadOf(shown: seq<ModalField>)
    requires shown != []
    ensures multiset(shown) == multiset{shown[0]} + multiset(shown[1..])
  {
    assert shown == [shown[0]] + shown[1..];
  }

  lemma {:induction false} TakesAll(index: map<string, ModalField>, shown: seq<ModalField>)
    requires IndexedById(index)
    ensures TakeDeclared(index, shown) == Some(map[]) <==> multiset(shown) == multiset(index.Values)
    decreases |shown|
  {
    if shown == [] {
      assert forall id :: id in index ==> index[id] in index.Values && index[id] in multiset(index.Values);
      assert index.Values == {} ==> index == map[];
      assert index == map[] ==> index.Values == {};
    } else {
      HeadOf(shown);
      if shown[0].id in index && index[shown[0].id] == shown[0] {
        ValuesWithout(index, shown[0]);
        TakesAll(index - {shown[0].id}, shown[1..]);
        CancelOne(shown[0], multiset(shown[1..]), multiset((index - {shown[0].id}).Values));
      } else {
        NotTaken(index, shown[0]);
        assert shown[0] in multiset(shown);
      }
    }
  }

  lemma NotTaken(index: map<string, ModalField>, field: ModalField)
    requires IndexedById(index) && !(field.id in index && index[field.id] == field)
    ensures field !in multiset(index.Values)
    ensures field.id in index ==> index[field.id].required != field.required
  {
    assert forall id :: id in index && index[id] == field ==> id == field.id;
    assert field !in index.Values;
  }

  lemma CancelOne<T>(x: T, a: multiset<T>, b: multiset<T>)
    ensures multiset{x} + a == multiset{x} + b <==> a == b
  {
    if multiset{x} + a == multiset{x} + b {
      assert a == (multiset{x} + a) - multiset{x};
      assert b == (multiset{x} + b) - multiset{x};
    }
  }

  /** With distinct declared ids, the shown fields agree exactly when they are a rearrangement of the
      declared ones, required flags included. */
  lemma AgreeIffRearranged(declared: seq<ModalField>, shown: seq<ModalField>)
    requires DistinctFields(declared)
    ensures FieldsAgree(declared, shown) <==> multiset(declared) == multiset(shown)
  {
    var index := IndexDeclared(declared, map[]);
    IndexDeclaredValues(declared, map[]);
    TakesAll(index, shown);
    var none: map<string, ModalField> := map[];
    assert none.Values == {};
    assert |multiset(declared)| == |declared| && |multiset(shown)| == |shown|;
  }

  predicate IsModal(s: Signature, id: string) { s.ModalSignature? && s.id == id }

  /** The fields of every modal declared under `handler`; there is at least one. */
  predicate ModalDeclared(catalog: Catalog, handler: string, fields: seq<ModalField>) {
    exists route :: route in catalog && DeclaredIn(catalog[route], handler, fields)
  }

  predicate DeclaredIn(entry: seq<Signature>, handler: string, fields: seq<ModalField>) {
    exists i :: 0 <= i < |entry| && IsModal(entry[i], handler) && FieldsAgree(entry[i].fields, fields)
  }

  predicate SameModal(s: Signature, t: Signature) { s.ModalSignature? && t.ModalSignature? && s.id == t.id }

  /** No two modals of the catalog share an id with different fields. */
  ghost predicate UniqueModals(catalog: Catalog) {
    forall r1, r2, s, t ::
      (r1 in catalog && r2 in catalog && s in catalog[r1] && t in catalog[r2] && SameModal(s, t)) ==> s == t
  }

  /** The source decides at the first modal signature of that id it meets. With unique modal ids the
      order of the map does not matter. */
  method ValidateModalView(catalog: Catalog, handler: string, fields: seq<ModalField>) returns (accepted: bool)
    requires UniqueModals(catalog)
    ensures accepted == ModalDeclared(catalog, handler, fields)
  {
    var remaining := catalog.Keys;
    while remaining != {}
      invariant remaining <= catalog.Keys
      invariant forall route :: route in catalog && route !in remaining ==>
                  forall i :: 0 <= i < |catalog[route]| ==> !IsModal(catalog[route][i], handler)
      decreases |remaining|
    {
      var route :| route in remaining;
      for i := 0 to |catalog[route]|
        invariant forall j :: 0 <= j < i ==> !IsModal(catalog[route][j], handler)
      {
        var s := catalog[route][i];
        if IsModal(s, handler) {
          assert s in catalog[route];
          forall r, j | r in catalog && 0 <= j < |catalog[r]| && IsModal(catalog[r][j], handler)
            ensures catalog[r][j] == s
          {
            assert catalog[r][j] in catalog[r] && SameModal(catalog[r][j], s);
          }
          accepted := CompareFields(s.fields, fields);
          return;
        }
      }
      remaining := remaining - {route};
    }
    return false;
  }

  method CompareFields(declared: seq<ModalField>, shown: seq<ModalField>) returns (accepted: bool)
    ensures accepted == FieldsAgree(declared, shown)
  {
    if |declared| != |shown| { return false; }
    var index: map<string, ModalField> := map[];
    for i := 0 to |declared|
      invariant IndexDeclared(declared, map[]) == IndexDeclared(declared[i..], index)
    {
      assert declared[i..][0] == declared[i] && declared[i..][1..] == declared[i + 1..];
      index := index[declared[i].id := declared[i]];
    }
    ghost var all := index;
    for i := 0 to |shown|
      invariant TakeDeclared(all, shown) == TakeDeclared(index, shown[i..])
    {
      assert shown[i..][0] == shown[i] && shown[i..][1..] == shown[i + 1..];
      if shown[i].id !in index || index[shown[i].id].required != shown[i].required { return false; }
      index := index - {shown[i].id};
    }
    return |index| == 0;
  }

  // ----- Outcomes -----

  /** The component rows an operation shows by itself. */
  function DirectRows(operation: Operation): Rows {
    match operation
    case Message(rows) => rows
    case SendChannel(rows) => rows
    case SendDM(rows) => rows
    case Update(patch) => if patch.Some? then patch.value else []
    case EditResponse(patch) => if patch.Some? then patch.value else []
    case _ => []
  }

  predicate OperationHandled(catalog: Catalog, operation: Operation) {
    match operation
    case BestEffort(inner) => RowsHandled(catalog, DirectRows(inner))
    case Guarded(inner, failure) => RowsHandled(catalog, DirectRows(inner)) && RowsHandled(catalog, DirectRows(failure))
    case OpenModal(handler, fields) => ModalDeclared(catalog, handler, fields)
    case _ => RowsHandled(catalog, DirectRows(operation))
  }

  predicate OutcomeAccepted(catalog: Catalog, inv: Invocation, outcome: Outcome) {
    && Resolve(catalog, inv).Ok?
    && outcome.wellFormed
    && forall i :: 0 <= i < |outcome.operations| ==> OperationHandled(catalog, outcome.operations[i])
  }

  method ValidateOperation(catalog: Catalog, operation: Operation) returns (accepted: bool)
    requires UniqueModals(catalog)
    ensures accepted == OperationHandled(catalog, operation)
  {
    match operation {
      case BestEffort(inner) =>
        accepted := ValidateRows(catalog, DirectRows(inner));
      case Guarded(inner, failure) =>
        accepted := ValidateRows(catalog, DirectRows(inner));
        if accepted { accepted := ValidateRows(catalog, DirectRows(failure)); }
      case OpenModal(handler, fields) =>
        accepted := ValidateModalView(catalog, handler, fields);
      case _ =>
        accepted := ValidateRows(catalog, DirectRows(operation));
    }
  }

  method ValidateOutcome(catalog: RouteCatalog, inv: Invocation, outcome: Outcome) returns (accepted: bool)
    requires UniqueModals(catalog.signatures)
    ensures accepted == OutcomeAccepted(catalog.signatures, inv, outcome)
  {
    var resolved := ResolveInvocation(catalog, inv);
    if resolved.Err? || !outcome.wellFormed { return false; }
    for i := 0 to |outcome.operations|
      invariant forall j :: 0 <= j < i ==> OperationHandled(catalog.signatures, outcome.operations[j])
    {
      accepted := ValidateOperation(catalog.signatures, outcome.operations[i]);
      if !accepted { return; }
    }
    return true;
  }

  // ----- No dangling handlers -----

  /** An outcome shows a component of this kind with this handler, itself or directly inside a
      best-effort or guarded operation. Link buttons have no handler. */
  ghost predicate Shows(operation: Operation, handler: string, kind: ComponentKind) {
    match operation
    case BestEffort(inner) => ShowsItself(inner, handler, kind)
    case Guarded(inner, failure) => ShowsItself(inner, handler, kind) || ShowsItself(failure, handler, kind)
    case _ => ShowsItself(operation, handler, kind)
  }

  ghost predicate ShowsItself(operation: Operation, handler: string, kind: ComponentKind) {
    match operation
    case Message(rows) => RowsShow(rows, handler, kind)
    case SendChannel(rows) => RowsShow(rows, handler, kind)
    case SendDM(rows) => RowsShow(rows, handler, kind)
    case Update(patch) => patch.Some? && RowsShow(patch.value, handler, kind)
    case EditResponse(patch) => patch.Some? && RowsShow(patch.value, handler, kind)
    case _ => false
  }

  /** The component kind each kind of menu is. */
  predicate IsMenu(menu: SelectKind, kind: ComponentKind) {
    match kind
    case StringSelect => menu.StringMenu?
    case UserSelect => menu.UserMenu?
    case RoleSelect => menu.RoleMenu?
    case MentionableSelect => menu.MentionableMenu?
    case ChannelSelect => menu.ChannelMenu?
    case UnknownComponent(text) => menu.UnknownMenu? && text == ""
    case ButtonComponent => false
  }

  ghost predicate RowsShow(rows: Rows, handler: string, kind: ComponentKind) {
    exists i, j :: 0 <= i < |rows| && 0 <= j < |rows[i]|
      && (|| (rows[i][j].Button? && !rows[i][j].link && rows[i][j].handler == handler && kind == ButtonComponent)
          || (rows[i][j].Select? && rows[i][j].handler == handler && IsMenu(rows[i][j].kind, kind)))
  }

  lemma CompiledModalsUnique(d: Definition)
    requires ValidationFault(d) == None
    ensures UniqueModals(Compiled(d))
  {
    CompiledShape(d);
    var catalog := Compiled(d);
    forall r1, r2, s: Signature, t: Signature
      | r1 in catalog && r2 in catalog && s in catalog[r1] && t in catalog[r2] && SameModal(s, t)
      ensures s == t
    {
      assert s in Entry(catalog, r1) && t in Entry(catalog, r2);
      ModalIdsUnique(d, s, t);
    }
  }

  /** Every handler an accepted outcome shows is declared for that kind of component, and pressing it
      resolves: the component invocation it leads to finds exactly the declared signature. */
  lemma NoDanglingHandler(d: Definition, inv: Invocation, outcome: Outcome, i: nat, handler: string, kind: ComponentKind)
    requires ValidationFault(d) == None && OutcomeAccepted(Compiled(d), inv, outcome)
    requires i < |outcome.operations| && Shows(outcome.operations[i], handler, kind)
    ensures exists s :: s in DefinitionSignatures(d) && Serves(s, handler, kind)
              && forall press: Invocation :: press.wellFormed && press.route == s.route
                   && press.input == ComponentInput(handler, kind) && press.response == ExpectedResponse(s.deferMode)
                   ==> Resolve(Compiled(d), press) == Ok(s)
  {
    assert OperationHandled(Compiled(d), outcome.operations[i]);
    ShownIsSupported(Compiled(d), outcome.operations[i], handler, kind);
    var s := SupportedIsDeclared(d, handler, kind);
    forall press: Invocation | press.wellFormed && press.route == s.route
      && press.input == ComponentInput(handler, kind) && press.response == ExpectedResponse(s.deferMode)
      ensures Resolve(Compiled(d), press) == Ok(s)
    {
      ResolvesExactly(d, press, s);
    }
  }

  /** Whatever is shown is supported, if the operation passes; and if all that is shown is, it passes. */
  lemma RowsHandledIff(catalog: Catalog, rows: Rows)
    ensures RowsHandled(catalog, rows) <==> forall handler, kind :: RowsShow(rows, handler, kind) ==> Supports(catalog, handler, kind)
  {
    if forall handler, kind :: RowsShow(rows, handler, kind) ==> Supports(catalog, handler, kind) {
      forall i, j | 0 <= i < |rows| && 0 <= j < |rows[i]| ensures Handled(catalog, rows[i][j]) {
        match rows[i][j] {
          case Button(handler, link) => if !link { assert RowsShow(rows, handler, ButtonComponent); }
          case Select(handler, kind) => assert IsMenu(kind, MenuComponent(kind)) && RowsShow(rows, handler, MenuComponent(kind));
          case OtherComponent =>
        }
      }
    }
    if RowsHandled(catalog, rows) {
      forall handler, kind | RowsShow(rows, handler, kind) ensures Supports(catalog, handler, kind) {
        var i, j :| 0 <= i < |rows| && 0 <= j < |rows[i]|
          && (|| (rows[i][j].Button? && !rows[i][j].link && rows[i][j].handler == handler && kind == ButtonComponent)
              || (rows[i][j].Select? && rows[i][j].handler == handler && IsMenu(rows[i][j].kind, kind)));
        assert Handled(catalog, rows[i][j]);
      }
    }
  }

  lemma DirectHandledIff(catalog: Catalog, operation: Operation)
    ensures RowsHandled(catalog, DirectRows(operation)) <==>
              forall handler, kind :: ShowsItself(operation, handler, kind) ==> Supports(catalog, handler, kind)
  {
    RowsHandledIff(catalog, DirectRows(operation));
    forall handler, kind ensures ShowsItself(operation, handler, kind) <==> RowsShow(DirectRows(operation), handler, kind) {}
  }

  lemma ShownIffSupported(catalog: Catalog, operation: Operation)
    requires !operation.OpenModal?
    ensures OperationHandled(catalog, operation) <==>
              forall handler, kind :: Shows(operation, handler, kind) ==> Supports(catalog, handler, kind)
  {
    match operation {
      case BestEffort(inner) => DirectHandledIff(catalog, inner);
      case Guarded(inner, failure) => DirectHandledIff(catalog, inner); DirectHandledIff(catalog, failure);
      case _ => DirectHandledIff(catalog, operation);
    }
  }

  lemma ShownIsSupported(catalog: Catalog, operation: Operation, handler: string, kind: ComponentKind)
    requires OperationHandled(catalog, operation) && Shows(operation, handler, kind)
    ensures Supports(catalog, handler, kind)
  {
    ShownIffSupported(catalog, operation);
  }

  lemma SupportedIsDeclared(d: Definition, handler: string, kind: ComponentKind) returns (s: Signature)
    requires ValidationFault(d) == None && Supports(Compiled(d), handler, kind)
    ensures s in DefinitionSignatures(d) && Serves(s, handler, kind)
  {
    CompiledShape(d);
    var catalog := Compiled(d);
    var route :| route in catalog && exists k :: 0 <= k < |catalog[route]| && Serves(catalog[route][k], handler, kind);
    var k :| 0 <= k < |catalog[route]| && Serves(catalog[route][k], handler, kind);
    s := catalog[route][k];
    assert s in Entry(catalog, route);
  }

  /** A modal view of an accepted definition passes exactly when it rearranges the fields of the one
      modal declared under its handler. */
  lemma ModalViewMatches(d: Definition, cog: Cog, modal: Modal, shown: seq<ModalField>)
    requires ValidationFault(d) == None && cog in d.cogs && modal in cog.modals
    ensures OperationHandled(Compiled(d), OpenModal(modal.id, shown)) <==> multiset(modal.fields) == multiset(shown)
  {
    var s := ModalSignature(modal.route, modal.deferMode, modal.id, modal.fields);
    ItemsListed(cog);
    InConcat(d.cogs, CogSignatures, cog, s);
    CompiledShape(d);
    CompiledModalsUnique(d);
    AcceptedModalFields(d, cog, modal);
    AgreeIffRearranged(modal.fields, shown);
    ModalDecides(Compiled(d), s, shown);
  }

  /** So what an accepted outcome opens is declared: opening passes exactly when some cog declares a modal
      under that handler with those fields, in any order. */
  lemma OpensDeclaredModal(d: Definition, handler: string, shown: seq<ModalField>)
    requires ValidationFault(d) == None
    ensures OperationHandled(Compiled(d), OpenModal(handler, shown)) <==>
            exists cog, modal :: cog in d.cogs && modal in cog.modals && modal.id == handler
                                 && multiset(modal.fields) == multiset(shown)
  {
    if OperationHandled(Compiled(d), OpenModal(handler, shown)) {
      var catalog := Compiled(d);
      var r :| r in catalog && DeclaredIn(catalog[r], handler, shown);
      var k :| 0 <= k < |catalog[r]| && IsModal(catalog[r][k], handler) && FieldsAgree(catalog[r][k].fields, shown);
      var s := catalog[r][k];
      CompiledShape(d);
      assert s in Entry(catalog, r);
      var cog := FromConcat(d.cogs, CogSignatures, s);
      var modal := ModalOfCog(cog, s);
      ModalViewMatches(d, cog, modal, shown);
    }
    if cog, modal :| cog in d.cogs && modal in cog.modals && modal.id == handler && multiset(modal.fields) == multiset(shown) {
      ModalViewMatches(d, cog, modal, shown);
    }
  }

  /** With unique modal ids, the one modal of that id decides. */
  lemma ModalDecides(catalog: Catalog, s: Signature, shown: seq<ModalField>)
    requires UniqueModals(catalog) && s.ModalSignature? && s in Entry(catalog, s.route)
    ensures ModalDeclared(catalog, s.id, shown) <==> FieldsAgree(s.fields, shown)
  {
    var k :| 0 <= k < |catalog[s.route]| && catalog[s.route][k] == s;
    if FieldsAgree(s.fields, shown) {
      assert DeclaredIn(catalog[s.route], s.id, shown);
    }
    if ModalDeclared(catalog, s.id, shown) {
      var r :| r in catalog && DeclaredIn(catalog[r], s.id, shown);
      var j :| 0 <= j < |catalog[r]| && IsModal(catalog[r][j], s.id) && FieldsAgree(catalog[r][j].fields, shown);
      assert catalog[r][j] in catalog[r] && SameModal(catalog[r][j], s);
    }
  }

  // ----- What outcomes are accepted -----

  /** Some cog declares a component with this id for this kind. */
  ghost predicate ComponentDeclared(d: Definition, handler: string, kind: ComponentKind) {
    exists cog, c :: cog in d.cogs && c in cog.components && c.id == handler && kind in c.kinds
  }

  lemma SupportsDeclared(d: Definition, handler: string, kind: ComponentKind)
    requires ValidationFault(d) == None
    ensures Supports(Compiled(d), handler, kind) <==> ComponentDeclared(d, handler, kind)
  {
    if Supports(Compiled(d), handler, kind) {
      var s := SupportedIsDeclared(d, handler, kind);
      SignaturesDeclared(d, s);
      var cog :| cog in d.cogs && DeclaredInCog(cog, s);
      var c :| c in cog.components && s == ComponentSignature(c.route, c.deferMode, c.id, c.kinds);
      assert c.id == handler && kind in c.kinds;
    }
    if cog, c :| cog in d.cogs && c in cog.components && c.id == handler && kind in c.kinds { DeclaredIsSupported(d, cog, c, kind); }
  }

  lemma DeclaredIsSupported(d: Definition, cog: Cog, c: Component, kind: ComponentKind)
    requires ValidationFault(d) == None && cog in d.cogs && c in cog.components && kind in c.kinds
    ensures Supports(Compiled(d), c.id, kind)
  {
    var s := ComponentSignature(c.route, c.deferMode, c.id, c.kinds);
    ItemsListed(cog);
    InConcat(d.cogs, CogSignatures, cog, s);
    CompiledShape(d);
    var entry := Entry(Compiled(d), s.route);
    var i :| 0 <= i < |entry| && entry[i] == s;
    assert Serves(entry[i], c.id, kind);
  }

  ghost predicate OperationDeclared(d: Definition, operation: Operation) {
    if operation.OpenModal? then
      exists cog, modal :: cog in d.cogs && modal in cog.modals && modal.id == operation.handler
                           && multiset(modal.fields) == multiset(operation.fields)
    else forall handler, kind :: Shows(operation, handler, kind) ==> ComponentDeclared(d, handler, kind)
  }

  /** An outcome is accepted exactly when its invocation resolves, it is well formed, every button and select
      its operations show is declared for its kind, and every modal they open is declared with those fields. */
  lemma OutcomeAcceptedIff(d: Definition, inv: Invocation, outcome: Outcome)
    requires ValidationFault(d) == None
    ensures OutcomeAccepted(Compiled(d), inv, outcome) <==>
              Resolve(Compiled(d), inv).Ok? && outcome.wellFormed
              && forall i :: 0 <= i < |outcome.operations| ==> OperationDeclared(d, outcome.operations[i])
  {
    forall operation ensures OperationHandled(Compiled(d), operation) <==> OperationDeclared(d, operation) {
      OperationHandledIff(d, operation);
    }
  }

  lemma OperationHandledIff(d: Definition, operation: Operation)
    requires ValidationFault(d) == None
    ensures OperationHandled(Compiled(d), operation) <==> OperationDeclared(d, operation)
  {
    if operation.OpenModal? {
      OpensDeclaredModal(d, operation.handler, operation.fields);
    } else {
      ShownIffSupported(Compiled(d), operation);
      forall handler, kind ensures Supports(Compiled(d), handler, kind) <==> ComponentDeclared(d, handler, kind) {
        SupportsDeclared(d, handler, kind);
      }
    }
  }
}
