/** `RouteCatalog.Resolve` and `RouteSignature.match`. */
module RouteResolution {
  import opened Wrappers
  import opened PluginContract
  import opened RuntimeOptions
  import opened RouteCompilation

  datatype ResolveError = InvalidInvocation | NotRegistered | Mismatch | Ambiguous

  /** The response state an invocation must be in for a defer mode. */
  function ExpectedResponse(mode: DeferMode): ResponseState {
    match mode
    case DeferCreate => DeferredCreate
    case DeferUpdate => DeferredUpdate
    case _ => Unacknowledged
  }

  function FindOption(options: seq<OptionDefinition>, name: string): Option<OptionDefinition> {
    if options == [] then None
    else if options[0].name == name then Some(options[0])
    else FindOption(options[1..], name)
  }

  predicate FocusedAccepted(focused: OptionValue, definition: Option<OptionDefinition>) {
    && definition.Some?
    && focused.payload.Kind() == definition.value.kind
    && (focused.payload.NumberPayload? ==> focused.payload.number.Finite?)
  }

  function IndexFields(values: seq<NamedString>, provided: map<string, string>): map<string, string>
    decreases |values|
  {
    if values == [] then provided else IndexFields(values[1..], provided[values[0].name := values[0].value])
  }

  function ConsumeFields(provided: map<string, string>, fields: seq<ModalField>): Option<map<string, string>>
    decreases |fields|
  {
    if fields == [] then Some(provided)
    else
      var id := fields[0].id;
      if fields[0].required && (id !in provided || provided[id] == "") then None
      else ConsumeFields(provided - {id}, fields[1..])
  }

  predicate FieldsAccepted(values: seq<NamedString>, fields: seq<ModalField>) {
    var rest := ConsumeFields(IndexFields(values, map[]), fields);
    rest.Some? && rest.value == map[]
  }

  // ----- What acceptance of modal fields means -----

  ghost predicate DistinctFields(fields: seq<ModalField>) {
    forall i, j :: 0 <= i < j < |fields| ==> fields[i].id != fields[j].id
  }

  /** The last value supplied under this name is not empty. */
  ghost predicate HasText(values: seq<NamedString>, name: string) {
    exists i :: 0 <= i < |values| && values[i].name == name && values[i].value != "" && LastNamed(values, i)
  }

  ghost predicate LastNamed(values: seq<NamedString>, i: nat)
    requires i < |values|
  {
    forall j :: i < j < |values| ==> values[j].name != values[i].name
  }

  ghost predicate Declares(fields: seq<ModalField>, name: string) { exists f :: f in fields && f.id == name }

  /** Every value supplied is for a declared field, and every required field has a text. */
  ghost predicate FilledIn(values: seq<NamedString>, fields: seq<ModalField>) {
    && (forall v :: v in values ==> Declares(fields, v.name))
    && (forall f :: f in fields && f.required ==> HasText(values, f.id))
  }

  lemma HasTextNext(values: seq<NamedString>, name: string)
    requires values != []
    ensures HasText(values, name) <==>
            if exists v :: v in values[1..] && v.name == name then HasText(values[1..], name)
            else values[0].name == name && values[0].value != ""
  {
    var rest := values[1..];
    if HasText(rest, name) {
      var i :| 0 <= i < |rest| && rest[i].name == name && rest[i].value != "" && LastNamed(rest, i);
      forall j | i + 1 < j < |values| ensures values[j].name != name { assert values[j] == rest[j - 1]; }
      assert values[i + 1] == rest[i] && LastNamed(values, i + 1);
    }
    if HasText(values, name) {
      var i :| 0 <= i < |values| && values[i].name == name && values[i].value != "" && LastNamed(values, i);
      if i == 0 {
        forall v | v in rest ensures v.name != name {
          var j :| 0 <= j < |rest| && rest[j] == v;
          assert values[j + 1] == v;
        }
      } else {
        forall j | i - 1 < j < |rest| ensures rest[j].name != name { assert rest[j] == values[j + 1]; }
        assert rest[i - 1] == values[i] && LastNamed(rest, i - 1);
      }
    }
    if (forall v :: v in rest ==> v.name != name) && values[0].name == name && values[0].value != "" {
      assert LastNamed(values, 0);
    }
  }

  /** The index holds the last value of each name. */
  lemma {:induction false} IndexedFields(values: seq<NamedString>, provided: map<string, string>, name: string)
    ensures var all := IndexFields(values, provided);
            if exists v :: v in values && v.name == name then name in all && (all[name] != "" <==> HasText(values, name))
            else (name in all <==> name in provided) && (name in all ==> all[name] == provided[name])
    decreases |values|
  {
    if values != [] {
      IndexedFields(values[1..], provided[values[0].name := values[0].value], name);
      HasTextNext(values, name);
      assert values == [values[0]] + values[1..];
    }
  }

  lemma FieldsTail(fields: seq<ModalField>)
    requires DistinctFields(fields) && fields != []
    ensures DistinctFields(fields[1..]) && forall f :: f in fields[1..] ==> f.id != fields[0].id
  {
    var tail := fields[1..];
    forall i, j | 0 <= i < j < |tail| ensures tail[i].id != tail[j].id {
      assert tail[i] == fields[i + 1] && tail[j] == fields[j + 1];
    }
    forall f | f in tail ensures f.id != fields[0].id {
      var j :| 0 <= j < |tail| && tail[j] == f;
      assert fields[j + 1] == f;
    }
  }

  lemma {:induction false} ConsumedFields(provided: map<string, string>, fields: seq<ModalField>)
    requires DistinctFields(fields)
    ensures var rest := ConsumeFields(provided, fields);
            && (rest.Some? <==> forall f :: f in fields && f.required ==> f.id in provided && provided[f.id] != "")
            && (rest.Some? ==> forall n :: n in rest.value <==> n in provided && !Declares(fields, n))
    decreases |fields|
  {
    if fields != [] {
      var first, tail := fields[0], fields[1..];
      FieldsTail(fields);
      ConsumedFields(provided - {first.id}, tail);
      assert fields == [first] + tail;
      forall n ensures Declares(fields, n) <==> n == first.id || Declares(tail, n) {
        if n == first.id { assert first in fields; }
      }
    }
  }

  /** With distinct field ids, the scan accepts exactly the values that fill the fields in. */
  lemma FieldsAcceptedIff(values: seq<NamedString>, fields: seq<ModalField>)
    requires DistinctFields(fields)
    ensures FieldsAccepted(values, fields) <==> FilledIn(values, fields)
  {
    var all := IndexFields(values, map[]);
    ConsumedFields(all, fields);
    forall n ensures n in all <==> exists v :: v in values && v.name == n { IndexedFields(values, map[], n); }
    forall f | f in fields && f.required ensures (f.id in all && all[f.id] != "") <==> HasText(values, f.id) {
      IndexedFields(values, map[], f.id);
      if HasText(values, f.id) {
        var i :| 0 <= i < |values| && values[i].name == f.id && values[i].value != "" && LastNamed(values, i);
        assert values[i] in values;
      }
    }
    var rest := ConsumeFields(all, fields);
    if rest.Some? {
      assert rest.value == map[] <==> forall n :: n !in rest.value;
      if FieldsAccepted(values, fields) {
        forall v | v in values ensures Declares(fields, v.name) { assert v.name in all && v.name !in rest.value; }
      }
      if FilledIn(values, fields) {
        forall n ensures n !in rest.value {
          if n in all {
            var v :| v in values && v.name == n;
            assert Declares(fields, v.name);
          }
        }
      }
    }
  }

  predicate Matches(signature: Signature, inv: Invocation) {
    match signature
    case CommandSignature(_, mode, kind, path, options) =>
      && inv.input.CommandInput?
      && inv.input.kind == kind
      && inv.response == ExpectedResponse(mode)
      && inv.input.path == path
      && OptionsAccepted(inv.input.options, options, true, inv.guildID)
    case AutocompleteSignature(_, path, options, name, kind) =>
      && inv.input.AutocompleteInput?
      && inv.input.path == path && inv.input.option == name && inv.input.focused.payload.Kind() == kind
      && FocusedAccepted(inv.input.focused, FindOption(options, name))
      && OptionsAccepted(inv.input.options, options, false, inv.guildID)
    case ComponentSignature(_, mode, id, kinds) =>
      && inv.input.ComponentInput?
      && inv.input.id == id && inv.input.componentKind in kinds
      && inv.response == ExpectedResponse(mode)
    case ModalSignature(_, mode, id, fields) =>
      && inv.input.ModalInput?
      && inv.input.id == id
      && inv.response == ExpectedResponse(mode)
      && FieldsAccepted(inv.input.fields, fields)
    case ListenerSignature(_, event) => inv.input.EventInput? && inv.input.name == event
    case TaskSignature(_, id) => inv.input.TaskInput? && inv.input.id == id
    case CheckSignature(_) => inv.input.CheckInput?
  }

  function Matching(candidates: seq<Signature>, inv: Invocation): seq<Signature> {
    if candidates == [] then []
    else (if Matches(candidates[0], inv) then [candidates[0]] else []) + Matching(candidates[1..], inv)
  }

  function Resolve(catalog: Catalog, inv: Invocation): Result<Signature, ResolveError> {
    var candidates := Entry(catalog, inv.route);
    var matching := Matching(candidates, inv);
    if !inv.wellFormed then Err(InvalidInvocation)
    else if candidates == [] then Err(NotRegistered)
    else if matching == [] then Err(Mismatch)
    else if |matching| > 1 then Err(Ambiguous)
    else Ok(matching[0])
  }

  /** The source's loop, which stops at the second match. */
  method ResolveInvocation(catalog: RouteCatalog, inv: Invocation) returns (result: Result<Signature, ResolveError>)
    ensures result == Resolve(catalog.signatures, inv)
  {
    if !inv.wellFormed { return Err(InvalidInvocation); }
    var candidates := Entry(catalog.signatures, inv.route);
    if |candidates| == 0 { return Err(NotRegistered); }
    var matched: Option<Signature> := None;
    for i := 0 to |candidates|
      invariant Matching(candidates, inv) ==
                (if matched.Some? then [matched.value] else []) + Matching(candidates[i..], inv)
    {
      assert candidates[i..][0] == candidates[i] && candidates[i..][1..] == candidates[i + 1..];
      if !Matches(candidates[i], inv) { continue; }
      if matched.Some? { return Err(Ambiguous); }
      matched := Some(candidates[i]);
    }
    if matched.None? { return Err(Mismatch); }
    return Ok(matched.value);
  }

  lemma {:induction false} MatchingAre(candidates: seq<Signature>, inv: Invocation)
    ensures forall s :: s in Matching(candidates, inv) <==> s in candidates && Matches(s, inv)
  {
    if candidates != [] {
      MatchingAre(candidates[1..], inv);
      assert candidates == [candidates[0]] + candidates[1..];
    }
  }

  ghost predicate NoTwoMatch(candidates: seq<Signature>, inv: Invocation) {
    forall i, j :: 0 <= i < j < |candidates| ==> !(Matches(candidates[i], inv) && Matches(candidates[j], inv))
  }

  lemma NoTwoMatchNext(candidates: seq<Signature>, inv: Invocation)
    requires candidates != []
    ensures var rest := candidates[1..];
            NoTwoMatch(candidates, inv) <==>
              NoTwoMatch(rest, inv) && (Matches(candidates[0], inv) ==> forall j :: 0 <= j < |rest| ==> !Matches(rest[j], inv))
  {
    var rest := candidates[1..];
    assert forall j :: 0 <= j < |rest| ==> rest[j] == candidates[j + 1];
    if NoTwoMatch(candidates, inv) {
      forall i, j | 0 <= i < j < |rest| ensures !(Matches(rest[i], inv) && Matches(rest[j], inv)) {
        assert rest[i] == candidates[i + 1] && rest[j] == candidates[j + 1];
      }
    } else {
      var i, j :| 0 <= i < j < |candidates| && Matches(candidates[i], inv) && Matches(candidates[j], inv);
      assert candidates[j] == rest[j - 1] && (i > 0 ==> candidates[i] == rest[i - 1]);
    }
  }

  /** At most one candidate is found exactly when no two of them match. */
  lemma {:induction false} MatchingMembers(candidates: seq<Signature>, inv: Invocation)
    ensures NoTwoMatch(candidates, inv) <==> |Matching(candidates, inv)| <= 1
  {
    if candidates != [] {
      var rest := candidates[1..];
      MatchingMembers(rest, inv);
      MatchingAre(rest, inv);
      NoTwoMatchNext(candidates, inv);
      if Matching(rest, inv) != [] {
        var s := Matching(rest, inv)[0];
        assert s in Matching(rest, inv);
        var j :| 0 <= j < |rest| && rest[j] == s;
        assert Matches(rest[j], inv);
      } else {
        forall j | 0 <= j < |rest| ensures !Matches(rest[j], inv) { assert rest[j] !in Matching(rest, inv); }
      }
    }
  }
}
