/** What an accepted definition guarantees about its signatures: which ones may share a route, and
    that compiling keeps every one of them. */
module RouteOwnership {
  import opened Wrappers
  import opened GoText
  import opened PluginContract
  import opened DefinitionValidation
  import opened RouteCompilation
  import opened RuntimeOptions

  function UseOf(signature: Signature): RouteUse {
    match signature
    case AutocompleteSignature(_, _, _, _, _) => AutocompleteReference
    case CheckSignature(_) => CheckReference
    case _ => Owned
  }

  /** Two declared signatures may meet on a route only as autocomplete references to different
      options, or as the same check; and modal ids are distinct. */
  predicate Apart(a: Signature, b: Signature) {
    && (a.route == b.route ==> UseOf(a) == UseOf(b) && !UseOf(a).Owned?)
    && (a.AutocompleteSignature? && b.AutocompleteSignature? ==> a.path != b.path || a.optionName != b.optionName)
    && (a.ModalSignature? && b.ModalSignature? ==> a.id != b.id)
  }

  ghost predicate AllApart(signatures: seq<Signature>) {
    forall i, j :: 0 <= i < j < |signatures| ==> Apart(signatures[i], signatures[j])
  }

  // ----- Anchoring signatures in the claims of the validator -----

  /** Every signature has its claims: its route, for an autocomplete reference its path, for a modal its id. */
  ghost predicate Anchored(signatures: seq<Signature>, claims: seq<Claim>) {
    && AllApart(signatures)
    && (forall s :: s in signatures ==> RouteUsed(s.route, UseOf(s)) in claims)
    && (forall s :: s in signatures && s.AutocompleteSignature? ==> PathUsed(PathKey(Slash, s.path)) in claims)
    && (forall s :: s in signatures && s.ModalSignature? ==> IdUsed(ModalId, s.id) in claims)
  }

  /** Two groups of claims that do not clash. */
  ghost predicate CrossCompatible(a: seq<Claim>, b: seq<Claim>) {
    forall c, d :: c in a && d in b ==> Compatible(c, d)
  }

  lemma AnchoredJoin(a: seq<Signature>, ca: seq<Claim>, b: seq<Signature>, cb: seq<Claim>, claims: seq<Claim>)
    requires Anchored(a, ca) && Anchored(b, cb)
    requires CrossCompatible(ca, cb) || CrossCompatible(cb, ca)
    requires forall c :: c in ca || c in cb ==> c in claims
    ensures Anchored(a + b, claims)
  {
    forall s, t | s in a && t in b ensures Apart(s, t) {
      assert RouteUsed(s.route, UseOf(s)) in ca && RouteUsed(t.route, UseOf(t)) in cb;
      if s.AutocompleteSignature? && t.AutocompleteSignature? {
        assert PathUsed(PathKey(Slash, s.path)) in ca && PathUsed(PathKey(Slash, t.path)) in cb;
      }
      if s.ModalSignature? && t.ModalSignature? {
        assert IdUsed(ModalId, s.id) in ca && IdUsed(ModalId, t.id) in cb;
      }
    }
    forall i, j | 0 <= i < j < |a + b| ensures Apart((a + b)[i], (a + b)[j]) {
      if j < |a| {
      } else if i >= |a| {
        assert Apart(b[i - |a|], b[j - |a|]);
      } else {
        assert a[i] in a && b[j - |a|] in b;
      }
    }
  }

  lemma SoundParts(a: seq<Claim>, b: seq<Claim>)
    requires AllSound(a + b)
    ensures AllSound(a) && AllSound(b)
  {
    forall i | 0 <= i < |a| ensures Sound(a[i]) { assert (a + b)[i] == a[i]; }
    forall i | 0 <= i < |b| ensures Sound(b[i]) { assert (a + b)[|a| + i] == b[i]; }
  }

  lemma Parts(a: seq<Claim>, b: seq<Claim>)
    requires AllSound(a + b) && AllCompatible(a + b)
    ensures AllSound(a) && AllSound(b) && AllCompatible(a) && AllCompatible(b) && CrossCompatible(a, b)
  {
    var ab := a + b;
    SoundParts(a, b);
    forall i, j | 0 <= i < j < |a| ensures Compatible(a[i], a[j]) { assert ab[i] == a[i] && ab[j] == a[j]; }
    forall i, j | 0 <= i < j < |b| ensures Compatible(b[i], b[j]) {
      assert ab[|a| + i] == b[i] && ab[|a| + j] == b[j];
    }
    forall c, d | c in a && d in b ensures Compatible(c, d) {
      var i, j :| 0 <= i < |a| && 0 <= j < |b| && a[i] == c && b[j] == d;
      assert ab[i] == c && ab[|a| + j] == d;
    }
  }

  /** Anchoring part by part, for lists of items. */
  lemma {:induction false} AnchoredConcat<T>(xs: seq<T>, signatures: T -> seq<Signature>, claims: T -> seq<Claim>)
    requires AllSound(Concat(xs, claims)) && AllCompatible(Concat(xs, claims))
    requires forall x :: x in xs && AllSound(claims(x)) && AllCompatible(claims(x)) ==> Anchored(signatures(x), claims(x))
    ensures Anchored(Concat(xs, signatures), Concat(xs, claims))
  {
    if xs != [] {
      Parts(claims(xs[0]), Concat(xs[1..], claims));
      AnchoredConcat(xs[1..], signatures, claims);
      AnchoredJoin(signatures(xs[0]), claims(xs[0]), Concat(xs[1..], signatures), Concat(xs[1..], claims),
                   Concat(xs, claims));
    }
  }

  lemma ChecksAnchored(checks: seq<Check>)
    requires AllSound(ChecksClaims(checks)) && AllCompatible(ChecksClaims(checks))
    ensures Anchored(ChecksSignatures(checks), ChecksClaims(checks))
  {
    AnchoredConcat(checks, CheckSignatures, CheckClaims);
  }

  /** A signature of its own, then checks. */
  lemma ItemAnchored(own: Signature, head: seq<Claim>, checks: seq<Check>)
    requires RouteUsed(own.route, Owned) in head && UseOf(own).Owned?
    requires own.ModalSignature? ==> IdUsed(ModalId, own.id) in head
    requires AllSound(head + ChecksClaims(checks)) && AllCompatible(head + ChecksClaims(checks))
    ensures Anchored([own] + ChecksSignatures(checks), head + ChecksClaims(checks))
  {
    Parts(head, ChecksClaims(checks));
    ChecksAnchored(checks);
    AnchoredJoin([own], head, ChecksSignatures(checks), ChecksClaims(checks), head + ChecksClaims(checks));
  }

  // ----- Commands -----

  lemma {:induction false} SlashNameIsLower(name: string)
    requires SlashName(name)
    ensures ToLower(name) == name
  {
    forall i | 0 <= i < |name| ensures ToLower(name)[i] == name[i] {
      assert LowerAlpha(name[i]) || Digit(name[i]) || name[i] == '_' || name[i] == '-';
    }
  }

  lemma {:induction false} OptionClaimsListed(options: seq<OptionDefinition>, i: nat, j: nat, claim: Claim)
    requires i <= j < |options| && claim in OptionClaims(options, j)
    ensures claim in OptionsClaimsFrom(options, i)
    decreases j - i
  {
    if i < j {
      OptionClaimsListed(options, i + 1, j, claim);
    }
  }

  lemma OptionVerdict(options: seq<OptionDefinition>, j: nat)
    requires j < |options| && AllSound(OptionsClaims(options))
    ensures OptionFault(options[j], options[..j]) == None
  {
    var verdict := OptionClaims(options, j)[0];
    assert verdict in OptionClaims(options, j);
    OptionClaimsListed(options, 0, j, verdict);
    assert verdict in OptionsClaims(options);
  }

  lemma OptionRouteClaimed(options: seq<OptionDefinition>, j: nat)
    requires j < |options| && options[j].autocomplete != ""
    ensures RouteUsed(options[j].autocomplete, AutocompleteReference) in OptionsClaims(options)
  {
    var reference := OptionClaims(options, j)[1];
    assert reference in OptionClaims(options, j);
    OptionClaimsListed(options, 0, j, reference);
  }

  /** An accepted list of options has distinct names. */
  lemma OptionNamesDistinct(options: seq<OptionDefinition>)
    requires AllSound(OptionsClaims(options))
    ensures DistinctDefinitions(options)
  {
    forall i, j | 0 <= i < j < |options| ensures options[i].name != options[j].name {
      OptionVerdict(options, j);
      assert options[..j][i] == options[i];
      assert OptionKey(options[..j][i]) != OptionKey(options[j]);
    }
  }

  lemma {:induction false} AutocompletesListed(options: seq<OptionDefinition>, path: seq<string>, i: nat)
    requires i <= |options| && DistinctDefinitions(options)
    ensures forall s :: s in AutocompleteSignatures(options, path, i) ==>
              exists j :: i <= j < |options| && options[j].autocomplete != ""
                          && s == AutocompleteSignature(options[j].autocomplete, path, options, options[j].name, options[j].kind)
    ensures forall j :: i <= j < |options| && options[j].autocomplete != "" ==>
              AutocompleteSignature(options[j].autocomplete, path, options, options[j].name, options[j].kind)
              in AutocompleteSignatures(options, path, i)
    ensures AllApart(AutocompleteSignatures(options, path, i))
    decreases |options| - i
  {
    if i < |options| {
      AutocompletesListed(options, path, i + 1);
      var rest := AutocompleteSignatures(options, path, i + 1);
      var all := AutocompleteSignatures(options, path, i);
      if options[i].autocomplete != "" {
        forall k, l | 0 <= k < l < |all| ensures Apart(all[k], all[l]) {
          assert all[l] == rest[l - 1] && rest[l - 1] in rest;
          if k > 0 { assert all[k] == rest[k - 1]; }
        }
      } else {
        assert all == rest;
      }
    }
  }

  /** The facts the validator establishes about one command before its children. */
  lemma OwnFacts(command: Command, namespace: CommandKind, parent: seq<string>)
    requires AllSound(OwnClaims(command, namespace, parent))
    ensures CommandNameFault(command, parent) == None && CommandShapeFault(command) == None
    ensures Container(command) ==> ContainerFault(command) == None
    ensures !ContextKind(command.kind) ==> PathName(command) == command.name
    ensures DistinctDefinitions(command.options)
  {
    var own := OwnClaims(command, namespace, parent);
    var head := own[..4];
    assert own == head + (OptionsClaims(command.options) + ChecksClaims(command.checks));
    assert Sound(own[0]) && Sound(own[1]) && Sound(own[2]) && Sound(own[3]);
    if !ContextKind(command.kind) {
      SlashNameIsLower(command.name);
    }
    SoundParts(head, OptionsClaims(command.options) + ChecksClaims(command.checks));
    SoundParts(OptionsClaims(command.options), ChecksClaims(command.checks));
    OptionNamesDistinct(command.options);
  }

  /** The autocomplete references of an accepted leaf have their claims. */
  lemma AutocompletesClaimed(command: Command, namespace: CommandKind, parent: seq<string>, s: Signature)
    requires AllSound(OwnClaims(command, namespace, parent))
    requires command.children == [] && (namespace.Slash? || (ContextKind(namespace) && command.kind == namespace))
    requires s in AutocompleteSignatures(command.options, parent + [command.name], 0)
    ensures s.AutocompleteSignature?
    ensures RouteUsed(s.route, AutocompleteReference) in OptionsClaims(command.options)
    ensures PathUsed(PathKey(Slash, s.path)) == OwnClaims(command, namespace, parent)[1]
  {
    OwnFacts(command, namespace, parent);
    var own := OwnClaims(command, namespace, parent);
    assert own[1] == PathUsed(PathKey(namespace, parent + [PathName(command)]));
    AutocompletesListed(command.options, parent + [command.name], 0);
    var j :| 0 <= j < |command.options| && command.options[j].autocomplete != ""
             && s == AutocompleteSignature(command.options[j].autocomplete, parent + [command.name], command.options,
                                           command.options[j].name, command.options[j].kind);
    assert !ContextKind(command.kind);
    OptionRouteClaimed(command.options, j);
  }

  /** A leaf claims its own route. */
  lemma LeafClaimsRoute(command: Command, namespace: CommandKind, parent: seq<string>)
    requires AllSound(OwnClaims(command, namespace, parent)) && command.children == []
    ensures OwnClaims(command, namespace, parent)[..4][2] == RouteUsed(command.route, Owned)
    ensures DistinctDefinitions(command.options)
  {
    OwnFacts(command, namespace, parent);
  }

  lemma LeafAnchored(command: Command, namespace: CommandKind, parent: seq<string>)
    requires AllSound(OwnClaims(command, namespace, parent)) && AllCompatible(OwnClaims(command, namespace, parent))
    requires command.children == [] && (namespace.Slash? || (ContextKind(namespace) && command.kind == namespace))
    ensures Anchored(ChecksSignatures(command.checks) + LeafSignatures(command, parent + [command.name], namespace),
                     OwnClaims(command, namespace, parent))
  {
    LeafClaimsRoute(command, namespace, parent);
    var own, checks := OwnClaims(command, namespace, parent), ChecksClaims(command.checks);
    var options := OptionsClaims(command.options);
    var first := own[..4];
    assert own == (first + options) + checks;
    Parts(first + options, checks);
    Parts(first, options);
    var path := parent + [command.name];
    var autocompletes := AutocompleteSignatures(command.options, path, 0);
    AutocompletesListed(command.options, path, 0);
    forall s | s in autocompletes
      ensures s.AutocompleteSignature? && RouteUsed(s.route, AutocompleteReference) in options
      ensures PathUsed(PathKey(Slash, s.path)) == first[1]
    {
      AutocompletesClaimed(command, namespace, parent, s);
    }
    var leaf := CommandSignature(command.route, command.deferMode, namespace, path, command.options);
    LeafApart(leaf, autocompletes, first, options);
    ChecksAnchored(command.checks);
    AnchoredJoin(ChecksSignatures(command.checks), checks, [leaf] + autocompletes, first + options, own);
  }

  lemma LeafApart(leaf: Signature, autocompletes: seq<Signature>, first: seq<Claim>, options: seq<Claim>)
    requires leaf.CommandSignature? && AllApart(autocompletes) && CrossCompatible(first, options)
    requires |first| == 4 && first[2] == RouteUsed(leaf.route, Owned)
    requires forall s :: s in autocompletes ==>
               s.AutocompleteSignature? && RouteUsed(s.route, AutocompleteReference) in options
               && PathUsed(PathKey(Slash, s.path)) == first[1]
    ensures Anchored([leaf] + autocompletes, first + options)
  {
    var all := [leaf] + autocompletes;
    assert first[1] in first && first[2] in first;
    forall i, j | 0 <= i < j < |all| ensures Apart(all[i], all[j]) {
      assert all[j] == autocompletes[j - 1] && all[j] in autocompletes;
      if i > 0 {
        assert all[i] == autocompletes[i - 1];
      } else {
        assert Compatible(first[2], RouteUsed(all[j].route, AutocompleteReference));
      }
    }
  }

  lemma {:induction false} CommandAnchored(command: Command, namespace: CommandKind, parent: seq<string>)
    requires AllSound(CommandClaims(command, namespace, parent)) && AllCompatible(CommandClaims(command, namespace, parent))
    requires namespace.Slash? || (ContextKind(namespace) && command.kind == namespace)
    ensures Anchored(CommandSignatures(command, parent, namespace), CommandClaims(command, namespace, parent))
    decreases command
  {
    var own := OwnClaims(command, namespace, parent);
    var children := ChildrenClaims(command.kind, command.children, namespace, parent + [PathName(command)]);
    Parts(own, children);
    OwnFacts(command, namespace, parent);
    if command.children == [] {
      LeafAnchored(command, namespace, parent);
      assert own + children == own;
    } else {
      assert !ContextKind(command.kind);
      var path := parent + [command.name];
      ChildrenAnchored(command.kind, command.children, namespace, path);
      var head := own[..4] + OptionsClaims(command.options);
      assert own == head + ChecksClaims(command.checks);
      Parts(head, ChecksClaims(command.checks));
      ChecksAnchored(command.checks);
      AnchoredJoin([], [], ChecksSignatures(command.checks), ChecksClaims(command.checks), own);
      assert [] + ChecksSignatures(command.checks) == ChecksSignatures(command.checks);
      AnchoredJoin(ChecksSignatures(command.checks), own, ChildrenSignatures(command.children, path, namespace), children,
                   CommandClaims(command, namespace, parent));
    }
  }

  lemma {:induction false} ChildrenAnchored(parentKind: CommandKind, children: seq<Command>, namespace: CommandKind, path: seq<string>)
    requires namespace.Slash?
    requires AllSound(ChildrenClaims(parentKind, children, namespace, path))
    requires AllCompatible(ChildrenClaims(parentKind, children, namespace, path))
    ensures Anchored(ChildrenSignatures(children, path, namespace), ChildrenClaims(parentKind, children, namespace, path))
    decreases children
  {
    if children != [] {
      var verdict := [Verdict(ChildKindFault(parentKind, children[0].kind))];
      var first, rest := CommandClaims(children[0], namespace, path), ChildrenClaims(parentKind, children[1..], namespace, path);
      Parts(verdict + first, rest);
      Parts(verdict, first);
      CommandAnchored(children[0], namespace, path);
      ChildrenAnchored(parentKind, children[1..], namespace, path);
      AnchoredJoin(CommandSignatures(children[0], path, namespace), first,
                   ChildrenSignatures(children[1..], path, namespace), rest,
                   ChildrenClaims(parentKind, children, namespace, path));
    }
  }

  lemma TopLevelAnchored(command: Command)
    requires AllSound(TopLevelClaims(command)) && AllCompatible(TopLevelClaims(command))
    ensures Anchored(TopLevelSignatures(command), TopLevelClaims(command))
  {
    var head := TopLevelClaims(command)[..2];
    var claims := CommandClaims(command, command.kind, []);
    assert TopLevelClaims(command) == head + claims;
    Parts(head, claims);
    assert Sound(head[1]);
    CommandAnchored(command, command.kind, []);
    AnchoredJoin([], [], TopLevelSignatures(command), claims, TopLevelClaims(command));
    assert [] + TopLevelSignatures(command) == TopLevelSignatures(command);
  }

  // ----- Cogs and definitions -----

  lemma CogAnchored(cog: Cog)
    requires AllSound(CogClaims(cog)) && AllCompatible(CogClaims(cog))
    ensures Anchored(CogSignatures(cog), CogClaims(cog))
  {
    var c0, c1, c2 := [CogNamed(cog.name)], ChecksClaims(cog.checks), Concat(cog.commands, TopLevelClaims);
    var c3, c4 := Concat(cog.listeners, ListenerClaims), Concat(cog.tasks, TaskClaims);
    var c5, c6 := Concat(cog.components, ComponentClaims), Concat(cog.modals, ModalClaims);
    Parts(c0 + c1 + c2 + c3 + c4 + c5, c6);
    Parts(c0 + c1 + c2 + c3 + c4, c5);
    Parts(c0 + c1 + c2 + c3, c4);
    Parts(c0 + c1 + c2, c3);
    Parts(c0 + c1, c2);
    Parts(c0, c1);
    ChecksAnchored(cog.checks);
    forall x | x in cog.commands && AllSound(TopLevelClaims(x)) && AllCompatible(TopLevelClaims(x))
      ensures Anchored(TopLevelSignatures(x), TopLevelClaims(x)) { TopLevelAnchored(x); }
    AnchoredConcat(cog.commands, TopLevelSignatures, TopLevelClaims);
    ListsAnchored(cog);
    var s1, s2 := ChecksSignatures(cog.checks), Concat(cog.commands, TopLevelSignatures);
    var s3, s4 := Concat(cog.listeners, ListenerSignatures), Concat(cog.tasks, TaskSignatures);
    var s5, s6 := Concat(cog.components, ComponentSignatures), Concat(cog.modals, ModalSignatures);
    AnchoredJoin([], c0, s1, c1, c0 + c1);
    assert [] + s1 == s1;
    AnchoredJoin(s1, c0 + c1, s2, c2, c0 + c1 + c2);
    AnchoredJoin(s1 + s2, c0 + c1 + c2, s3, c3, c0 + c1 + c2 + c3);
    AnchoredJoin(s1 + s2 + s3, c0 + c1 + c2 + c3, s4, c4, c0 + c1 + c2 + c3 + c4);
    AnchoredJoin(s1 + s2 + s3 + s4, c0 + c1 + c2 + c3 + c4, s5, c5, c0 + c1 + c2 + c3 + c4 + c5);
    AnchoredJoin(s1 + s2 + s3 + s4 + s5, c0 + c1 + c2 + c3 + c4 + c5, s6, c6, CogClaims(cog));
  }

  lemma ListsAnchored(cog: Cog)
    requires AllSound(Concat(cog.listeners, ListenerClaims)) && AllCompatible(Concat(cog.listeners, ListenerClaims))
    requires AllSound(Concat(cog.tasks, TaskClaims)) && AllCompatible(Concat(cog.tasks, TaskClaims))
    requires AllSound(Concat(cog.components, ComponentClaims)) && AllCompatible(Concat(cog.components, ComponentClaims))
    requires AllSound(Concat(cog.modals, ModalClaims)) && AllCompatible(Concat(cog.modals, ModalClaims))
    ensures Anchored(Concat(cog.listeners, ListenerSignatures), Concat(cog.listeners, ListenerClaims))
    ensures Anchored(Concat(cog.tasks, TaskSignatures), Concat(cog.tasks, TaskClaims))
    ensures Anchored(Concat(cog.components, ComponentSignatures), Concat(cog.components, ComponentClaims))
    ensures Anchored(Concat(cog.modals, ModalSignatures), Concat(cog.modals, ModalClaims))
  {
    forall x | x in cog.listeners && AllSound(ListenerClaims(x)) && AllCompatible(ListenerClaims(x))
      ensures Anchored(ListenerSignatures(x), ListenerClaims(x)) {
      assert ListenerClaims(x)[..3][1] == RouteUsed(x.route, Owned);
      assert ListenerClaims(x) == ListenerClaims(x)[..3] + ChecksClaims(x.checks);
      ItemAnchored(ListenerSignature(x.route, x.event), ListenerClaims(x)[..3], x.checks);
    }
    AnchoredConcat(cog.listeners, ListenerSignatures, ListenerClaims);
    forall x | x in cog.tasks && AllSound(TaskClaims(x)) && AllCompatible(TaskClaims(x))
      ensures Anchored(TaskSignatures(x), TaskClaims(x)) {
      assert TaskClaims(x)[..3][1] == RouteUsed(x.route, Owned);
      assert TaskClaims(x) == TaskClaims(x)[..3] + ChecksClaims(x.checks);
      ItemAnchored(TaskSignature(x.route, x.id), TaskClaims(x)[..3], x.checks);
    }
    AnchoredConcat(cog.tasks, TaskSignatures, TaskClaims);
    forall x | x in cog.components && AllSound(ComponentClaims(x)) && AllCompatible(ComponentClaims(x))
      ensures Anchored(ComponentSignatures(x), ComponentClaims(x)) {
      assert ComponentClaims(x)[..3][2] == RouteUsed(x.route, Owned);
      assert ComponentClaims(x) == ComponentClaims(x)[..3] + ChecksClaims(x.checks);
      ItemAnchored(ComponentSignature(x.route, x.deferMode, x.id, x.kinds), ComponentClaims(x)[..3], x.checks);
    }
    AnchoredConcat(cog.components, ComponentSignatures, ComponentClaims);
    forall x | x in cog.modals && AllSound(ModalClaims(x)) && AllCompatible(ModalClaims(x))
      ensures Anchored(ModalSignatures(x), ModalClaims(x)) {
      assert ModalClaims(x)[..3][2] == RouteUsed(x.route, Owned) && ModalClaims(x)[..3][1] == IdUsed(ModalId, x.id);
      assert ModalClaims(x) == ModalClaims(x)[..3] + ChecksClaims(x.checks);
      ItemAnchored(ModalSignature(x.route, x.deferMode, x.id, x.fields), ModalClaims(x)[..3], x.checks);
    }
    AnchoredConcat(cog.modals, ModalSignatures, ModalClaims);
  }

  /** The signatures of an accepted definition are pairwise apart. */
  lemma DeclaredApart(d: Definition)
    requires ValidationFault(d) == None
    ensures Anchored(DefinitionSignatures(d), DefinitionClaims(d))
  {
    ValidationAccepts(d);
    var head, claims := DefinitionClaims(d)[..1], Concat(d.cogs, CogClaims);
    assert DefinitionClaims(d) == head + claims;
    Parts(head, claims);
    forall x | x in d.cogs && AllSound(CogClaims(x)) && AllCompatible(CogClaims(x))
      ensures Anchored(CogSignatures(x), CogClaims(x)) { CogAnchored(x); }
    AnchoredConcat(d.cogs, CogSignatures, CogClaims);
    AnchoredJoin([], [], DefinitionSignatures(d), claims, DefinitionClaims(d));
    assert [] + DefinitionSignatures(d) == DefinitionSignatures(d);
  }

  // ----- The shape of a compiled catalog -----

  /** A route carries one owned signature, or one check, or autocomplete references to different options. */
  ghost predicate Shaped(entry: seq<Signature>, route: RouteID) {
    && (forall i :: 0 <= i < |entry| ==> entry[i].route == route)
    && (forall i, j :: 0 <= i < j < |entry| ==>
          entry[i].AutocompleteSignature? && entry[j].AutocompleteSignature? && Apart(entry[i], entry[j]))
  }

  ghost predicate AllShaped(catalog: Catalog) {
    forall route :: route in catalog ==> Shaped(catalog[route], route)
  }

  ghost predicate Ready(catalog: Catalog, signatures: seq<Signature>) {
    forall route, s, t :: route in catalog && s in catalog[route] && t in signatures ==> Apart(s, t)
  }

  lemma LongerShaped(entry: seq<Signature>, first: Signature)
    requires Shaped(entry, first.route) && forall i :: 0 <= i < |entry| ==> Apart(entry[i], first)
    requires !(first.CheckSignature? && exists i :: 0 <= i < |entry| && entry[i].CheckSignature?)
    ensures Shaped(entry + [first], first.route)
  {
    var longer := entry + [first];
    forall i | 0 <= i < |entry| ensures entry[i].AutocompleteSignature? && first.AutocompleteSignature? {
      assert entry[i].route == first.route && Apart(entry[i], first);
    }
    forall i, j | 0 <= i < j < |longer|
      ensures longer[i].AutocompleteSignature? && longer[j].AutocompleteSignature? && Apart(longer[i], longer[j])
    {
      assert longer[i] == entry[i] && (j < |entry| ==> longer[j] == entry[j]);
    }
  }

  lemma PutShaped(catalog: Catalog, route: RouteID, entry: seq<Signature>)
    requires AllShaped(catalog) && Shaped(entry, route)
    ensures AllShaped(catalog[route := entry])
  {
    var next := catalog[route := entry];
    forall r | r in next ensures Shaped(next[r], r) {
      if r != route { assert next[r] == catalog[r]; }
    }
  }

  lemma AddShaped(catalog: Catalog, first: Signature)
    requires AllShaped(catalog)
    requires var entry := Entry(catalog, first.route); forall i :: 0 <= i < |entry| ==> Apart(entry[i], first)
    ensures var next := Add(catalog, first);
            AllShaped(next) && first in Entry(next, first.route) && Shaped(Entry(next, first.route), first.route)
  {
    var next := Add(catalog, first);
    var entry := Entry(catalog, first.route);
    assert Shaped(entry, first.route);
    if first.CheckSignature? && exists i :: 0 <= i < |entry| && entry[i].CheckSignature? {
      var i :| 0 <= i < |entry| && entry[i].CheckSignature?;
      assert entry[i].route == first.route && Apart(entry[i], first);
      assert entry[i] == first;
    } else {
      var longer := entry + [first];
      LongerShaped(entry, first);
      PutShaped(catalog, first.route, longer);
      assert Entry(next, first.route) == longer && longer[|entry|] == first;
    }
  }

  lemma {:induction false} AddAllShaped(catalog: Catalog, signatures: seq<Signature>)
    requires AllShaped(catalog) && AllApart(signatures) && Ready(catalog, signatures)
    ensures AllShaped(AddAll(catalog, signatures))
    ensures forall s :: s in signatures ==> s in Entry(AddAll(catalog, signatures), s.route)
    ensures forall route, s :: s in Entry(catalog, route) ==> s in Entry(AddAll(catalog, signatures), route)
    ensures forall route, s :: s in Entry(AddAll(catalog, signatures), route) ==> s in Entry(catalog, route) || s in signatures
    decreases |signatures|
  {
    if signatures != [] {
      var first, rest := signatures[0], signatures[1..];
      var next := Add(catalog, first);
      var entry := Entry(catalog, first.route);
      forall i | 0 <= i < |entry| ensures Apart(entry[i], first) {
        assert entry[i] in catalog[first.route] && first in signatures;
      }
      AddShaped(catalog, first);
      forall route, s, t | route in next && s in next[route] && t in rest ensures Apart(s, t) {
        var j :| 0 <= j < |rest| && rest[j] == t;
        assert signatures[j + 1] == t;
        if s == first { assert Apart(signatures[0], signatures[j + 1]); }
        else { assert route in catalog && s in catalog[route]; }
      }
      forall i, j | 0 <= i < j < |rest| ensures Apart(rest[i], rest[j]) {
        assert rest[i] == signatures[i + 1] && rest[j] == signatures[j + 1];
      }
      AddAllShaped(next, rest);
      forall route, s | s in Entry(AddAll(catalog, signatures), route)
        ensures s in Entry(catalog, route) || s in signatures
      {
        assert s in Entry(next, route) || s in rest;
      }
    }
  }

  /** Compiling an accepted definition loses no signature, invents none, and lets signatures share a
      route only as autocomplete references to different options. */
  lemma CompiledShape(d: Definition)
    requires ValidationFault(d) == None
    ensures AllShaped(Compiled(d))
    ensures forall s :: s in DefinitionSignatures(d) <==> s in Entry(Compiled(d), s.route)
    ensures forall route, s :: s in Entry(Compiled(d), route) ==> s.route == route
  {
    DeclaredApart(d);
    AddAllShaped(map[], DefinitionSignatures(d));
    forall route, s | s in Entry(Compiled(d), route) ensures s.route == route {
      assert Shaped(Compiled(d)[route], route);
    }
  }

  /** Modal ids are unique in an accepted definition. */
  lemma ModalIdsUnique(d: Definition, s: Signature, t: Signature)
    requires ValidationFault(d) == None
    requires s in DefinitionSignatures(d) && t in DefinitionSignatures(d)
    requires s.ModalSignature? && t.ModalSignature? && s.id == t.id
    ensures s == t
  {
    DeclaredApart(d);
    var all := DefinitionSignatures(d);
    var i, j :| 0 <= i < |all| && 0 <= j < |all| && all[i] == s && all[j] == t;
    assert i == j;
  }
}
