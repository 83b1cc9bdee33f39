/** `validateRuntimeOptions`: supplied option values against declared options. */
module RuntimeOptions {
  import opened Wrappers
  import opened PluginContract

  predicate InAnotherGuild(guildID: string, guild: Option<string>) {
    guild.Some? && guildID != "" && guildID != guild.value
  }

  predicate WithinBounds(payload: Payload, definition: OptionDefinition, guild: Option<string>) {
    match payload
    case StringPayload(text) =>
      && !(definition.minLength.Some? && |text| < definition.minLength.value)
      && !(definition.maxLength.Some? && |text| > definition.maxLength.value)
    case IntegerPayload(n) =>
      && !(definition.minInteger.Some? && n < definition.minInteger.value)
      && !(definition.maxInteger.Some? && n > definition.maxInteger.value)
    case NumberPayload(x) =>
      && !(definition.minNumber.Some? && x.LessThan(definition.minNumber.value))
      && !(definition.maxNumber.Some? && definition.maxNumber.value.LessThan(x))
    case ChannelPayload(kind, guildID) =>
      && (definition.channelKinds == [] || kind in definition.channelKinds)
      && !InAnotherGuild(guildID, guild)
    case RolePayload(guildID) => !InAnotherGuild(guildID, guild)
    case MentionablePayload(role) => !(role.Some? && InAnotherGuild(role.value, guild))
    case _ => true
  }

  predicate ChoiceMatches(choice: ChoiceValue, payload: Payload) {
    match choice.kind
    case ChoiceString => payload.StringPayload? && payload.text == choice.text
    case ChoiceInteger => payload.IntegerPayload? && payload.integer == choice.integer
    case ChoiceNumber => payload.NumberPayload? && payload.number.Equals(choice.number)
    case UnknownChoice(_) => false
  }

  predicate DeclaredChoice(payload: Payload, choices: seq<Choice>) {
    choices == [] || exists i :: 0 <= i < |choices| && ChoiceMatches(choices[i].value, payload)
  }

  /** The value has the definition's kind, is within its bounds, and is one of its choices if it has any. */
  predicate Allowed(value: OptionValue, definition: OptionDefinition, guild: Option<string>) {
    && value.payload.Kind() == definition.kind
    && WithinBounds(value.payload, definition, guild)
    && DeclaredChoice(value.payload, definition.choices)
  }

  // ----- The two scans of the source, as functions -----

  function Provide(values: seq<OptionValue>, provided: map<string, OptionValue>): Option<map<string, OptionValue>>
    decreases |values|
  {
    if values == [] then Some(provided)
    else if values[0].name in provided then None
    else Provide(values[1..], provided[values[0].name := values[0]])
  }

  function Consume(provided: map<string, OptionValue>, definitions: seq<OptionDefinition>, demand: bool, guild: Option<string>)
    : Option<map<string, OptionValue>>
    decreases |definitions|
  {
    if definitions == [] then Some(provided)
    else
      var definition := definitions[0];
      if definition.name !in provided then
        if demand && definition.required then None else Consume(provided, definitions[1..], demand, guild)
      else if !Allowed(provided[definition.name], definition, guild) then None
      else Consume(provided - {definition.name}, definitions[1..], demand, guild)
  }

  predicate OptionsAccepted(values: seq<OptionValue>, definitions: seq<OptionDefinition>, demand: bool, guild: Option<string>) {
    var provided := Provide(values, map[]);
    && provided.Some?
    && var rest := Consume(provided.value, definitions, demand, guild);
       rest.Some? && rest.value == map[]
  }

  /** The source's loops: fill `provided`, delete what the definitions consume, and require it empty. */
  method ValidateRuntimeOptions(values: seq<OptionValue>, definitions: seq<OptionDefinition>, demand: bool, guild: Option<string>)
    returns (accepted: bool)
    ensures accepted == OptionsAccepted(values, definitions, demand, guild)
  {
    var provided: map<string, OptionValue> := map[];
    for i := 0 to |values|
      invariant Provide(values, map[]) == Provide(values[i..], provided)
    {
      assert values[i..][0] == values[i] && values[i..][1..] == values[i + 1..];
      if values[i].name in provided { return false; }
      provided := provided[values[i].name := values[i]];
    }
    ghost var all := provided;
    for i := 0 to |definitions|
      invariant Consume(all, definitions, demand, guild) == Consume(provided, definitions[i..], demand, guild)
    {
      var definition := definitions[i];
      assert definitions[i..][0] == definition && definitions[i..][1..] == definitions[i + 1..];
      if definition.name !in provided {
        if demand && definition.required { return false; }
        continue;
      }
      var value := provided[definition.name];
      if value.payload.Kind() != definition.kind { return false; }
      if !WithinBounds(value.payload, definition, guild) || !DeclaredChoice(value.payload, definition.choices) { return false; }
      provided := provided - {definition.name};
    }
    return |provided| == 0;
  }

  // ----- What acceptance means -----

  ghost predicate DistinctValues(values: seq<OptionValue>) {
    forall i, j :: 0 <= i < j < |values| ==> values[i].name != values[j].name
  }

  ghost predicate DistinctDefinitions(definitions: seq<OptionDefinition>) {
    forall i, j :: 0 <= i < j < |definitions| ==> definitions[i].name != definitions[j].name
  }

  /** Supplied names are distinct, each is declared with a definition that allows the value, and
      every required option is present when that is demanded. */
  ghost predicate Admissible(values: seq<OptionValue>, definitions: seq<OptionDefinition>, demand: bool, guild: Option<string>) {
    && DistinctValues(values)
    && (forall v :: v in values ==> exists d :: d in definitions && d.name == v.name && Allowed(v, d, guild))
    && (demand ==> forall d :: d in definitions && d.required ==> exists v :: v in values && v.name == d.name)
  }

  lemma DistinctValuesNext(values: seq<OptionValue>)
    requires values != []
    ensures DistinctValues(values) <==> DistinctValues(values[1..]) && forall v :: v in values[1..] ==> v.name != values[0].name
  {
    var rest := values[1..];
    if DistinctValues(values) {
      forall v | v in rest ensures v.name != values[0].name {
        var i :| 0 <= i < |rest| && rest[i] == v;
        assert values[i + 1] == v && values[0].name != values[i + 1].name;
      }
      forall i, j | 0 <= i < j < |rest| ensures rest[i].name != rest[j].name {
        assert rest[i] == values[i + 1] && rest[j] == values[j + 1];
      }
    }
    if DistinctValues(rest) && forall v :: v in rest ==> v.name != values[0].name {
      forall i, j | 0 <= i < j < |values| ensures values[i].name != values[j].name {
        assert values[j] == rest[j - 1] && rest[j - 1] in rest;
        if i > 0 { assert values[i] == rest[i - 1]; }
      }
    }
  }

  lemma {:induction false} ProvideIndexes(values: seq<OptionValue>, provided: map<string, OptionValue>)
    requires forall n :: n in provided ==> provided[n].name == n
    ensures Provide(values, provided).Some? <==>
            DistinctValues(values) && forall v :: v in values ==> v.name !in provided
    ensures Provide(values, provided).Some? ==>
              var all := Provide(values, provided).value;
              && (forall n :: n in all ==> all[n].name == n)
              && (forall v :: v in values ==> v.name in all && all[v.name] == v)
              && (forall n :: n in all ==> n in provided || all[n] in values)
              && (forall n :: n in provided ==> n in all && all[n] == provided[n])
    decreases |values|
  {
    if values != [] {
      var first, rest := values[0], values[1..];
      var next := provided[first.name := first];
      assert values == [first] + rest;
      if first.name !in provided {
        ProvideIndexes(rest, next);
        DistinctValuesNext(values);
      }
    }
  }

  /** What one definition asks of the supplied values. */
  predicate Fits(provided: map<string, OptionValue>, d: OptionDefinition, demand: bool, guild: Option<string>) {
    if d.name in provided then Allowed(provided[d.name], d, guild) else !(demand && d.required)
  }

  lemma DistinctTail(definitions: seq<OptionDefinition>)
    requires DistinctDefinitions(definitions) && definitions != []
    ensures DistinctDefinitions(definitions[1..])
    ensures forall d :: d in definitions[1..] ==> d.name != definitions[0].name
  {
    var tail := definitions[1..];
    forall i, j | 0 <= i < j < |tail| ensures tail[i].name != tail[j].name {
      assert tail[i] == definitions[i + 1] && tail[j] == definitions[j + 1];
    }
    forall d | d in tail ensures d.name != definitions[0].name {
      var j :| 0 <= j < |tail| && tail[j] == d;
      assert definitions[0].name != definitions[j + 1].name;
    }
  }

  lemma {:induction false} ConsumeMeans(provided: map<string, OptionValue>, definitions: seq<OptionDefinition>, demand: bool, guild: Option<string>)
    requires DistinctDefinitions(definitions)
    ensures Consume(provided, definitions, demand, guild).Some? <==>
            forall d :: d in definitions ==> Fits(provided, d, demand, guild)
    ensures var rest := Consume(provided, definitions, demand, guild);
            rest.Some? ==> forall n :: n in rest.value <==> n in provided && forall d :: d in definitions ==> d.name != n
    decreases |definitions|
  {
    if definitions != [] {
      var first, tail := definitions[0], definitions[1..];
      DistinctTail(definitions);
      var next := if first.name in provided then provided - {first.name} else provided;
      forall d | d in tail ensures Fits(next, d, demand, guild) <==> Fits(provided, d, demand, guild) {
      }
      ConsumeMeans(next, tail, demand, guild);
      assert forall d :: d in definitions <==> d == first || d in tail;
    }
  }

  /** With distinct declared names, the scans accept exactly the admissible values. */
  lemma AcceptedIffAdmissible(values: seq<OptionValue>, definitions: seq<OptionDefinition>, demand: bool, guild: Option<string>)
    requires DistinctDefinitions(definitions)
    ensures OptionsAccepted(values, definitions, demand, guild) <==> Admissible(values, definitions, demand, guild)
  {
    ProvideIndexes(values, map[]);
    var indexed := Provide(values, map[]);
    if indexed.Some? {
      var all := indexed.value;
      ConsumeMeans(all, definitions, demand, guild);
      var rest := Consume(all, definitions, demand, guild);
      if OptionsAccepted(values, definitions, demand, guild) {
        forall v | v in values ensures exists d :: d in definitions && d.name == v.name && Allowed(v, d, guild) {
          assert v.name in all && v.name !in rest.value;
          var d :| d in definitions && d.name == v.name;
          assert Fits(all, d, demand, guild);
        }
        forall d | d in definitions && d.required && demand ensures exists v :: v in values && v.name == d.name {
          assert d.name in all && all[d.name] in values;
        }
      }
      if Admissible(values, definitions, demand, guild) {
        forall d | d in definitions
          ensures Fits(all, d, demand, guild)
        {
          if d.name in all {
            var v := all[d.name];
            var e :| e in definitions && e.name == v.name && Allowed(v, e, guild);
            SameDefinition(definitions, d, e);
          }
        }
        assert rest.Some?;
        forall n ensures n !in rest.value {
          if n in all {
            var e :| e in definitions && e.name == all[n].name && Allowed(all[n], e, guild);
          }
        }
      }
    }
  }

  lemma SameDefinition(definitions: seq<OptionDefinition>, d: OptionDefinition, e: OptionDefinition)
    requires DistinctDefinitions(definitions) && d in definitions && e in definitions && d.name == e.name
    ensures d == e
  {
    var i, j :| 0 <= i < |definitions| && 0 <= j < |definitions| && definitions[i] == d && definitions[j] == e;
    assert i == j;
  }

  // ----- What a value must be -----

  predicate Between(min: Option<int>, n: int, max: Option<int>) {
    (min.Some? ==> min.value <= n) && (max.Some? ==> n <= max.value)
  }

  predicate FiniteLimit(limit: Option<Float>) { limit.Some? ==> limit.value.Finite? }

  /** Between finite limits; a NaN passes any, as no comparison with it holds. */
  predicate NumberBetween(min: Option<Float>, x: Float, max: Option<Float>)
    requires FiniteLimit(min) && FiniteLimit(max)
  {
    match x
    case Finite(v) => (min.Some? ==> min.value.value <= v) && (max.Some? ==> v <= max.value.value)
    case Infinite(positive) => if positive then max.None? else min.None?
    case NaN => true
  }

  /** Not known to be of another guild. */
  predicate MayBeHere(guildID: string, guild: Option<string>) { guildID == "" || guild == None || guild == Some(guildID) }

  ghost predicate IsChoice(payload: Payload, value: ChoiceValue) {
    || (value.kind.ChoiceString? && payload == StringPayload(value.text))
    || (value.kind.ChoiceInteger? && payload == IntegerPayload(value.integer))
    || (value.kind.ChoiceNumber? && !value.number.NaN? && payload == NumberPayload(value.number))
  }

  /** What each kind of option allows. */
  ghost predicate Suits(payload: Payload, d: OptionDefinition, guild: Option<string>)
    requires FiniteLimit(d.minNumber) && FiniteLimit(d.maxNumber)
  {
    match d.kind
    case OptString => payload.StringPayload? && Between(d.minLength, |payload.text|, d.maxLength)
    case OptBoolean => payload.BooleanPayload?
    case OptInteger => payload.IntegerPayload? && Between(d.minInteger, payload.integer, d.maxInteger)
    case OptNumber => payload.NumberPayload? && NumberBetween(d.minNumber, payload.number, d.maxNumber)
    case OptUser => payload.UserPayload?
    case OptChannel =>
      payload.ChannelPayload? && (d.channelKinds != [] ==> payload.channelKind in d.channelKinds) && MayBeHere(payload.guildID, guild)
    case OptRole => payload.RolePayload? && MayBeHere(payload.guildID, guild)
    case OptMentionable => payload.MentionablePayload? && (payload.roleGuildID.Some? ==> MayBeHere(payload.roleGuildID.value, guild))
    case OptAttachment => payload.AttachmentPayload?
    case UnknownOption(_) => false
  }

  /** A value is allowed exactly when it suits the kind and limits of its option and is one of the choices,
      if there are any. */
  lemma AllowedIff(value: OptionValue, d: OptionDefinition, guild: Option<string>)
    requires FiniteLimit(d.minNumber) && FiniteLimit(d.maxNumber)
    ensures Allowed(value, d, guild) <==>
              Suits(value.payload, d, guild)
              && (d.choices != [] ==> exists c :: c in d.choices && IsChoice(value.payload, c.value))
  {
    if d.choices != [] {
      if i :| 0 <= i < |d.choices| && ChoiceMatches(d.choices[i].value, value.payload) {
        assert d.choices[i] in d.choices && IsChoice(value.payload, d.choices[i].value);
      }
      if c :| c in d.choices && IsChoice(value.payload, c.value) {
        var i :| 0 <= i < |d.choices| && d.choices[i] == c;
        assert ChoiceMatches(d.choices[i].value, value.payload);
      }
    }
  }
}
