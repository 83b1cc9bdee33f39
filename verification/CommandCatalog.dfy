/** The command catalog: which module is on, which command name belongs to whom, and how many there are. */
module CommandCatalog {
  import opened Wrappers
  import opened GoText

  /** A builtin command; `payload` stands for everything but its name. */
  datatype Command = Command(name: string, payload: string)

  datatype Descriptor = Descriptor(id: string, name: string, toggleable: bool, defaultEnabled: bool, commands: seq<Command>)

  datatype PluginCommand = PluginCommand(kind: string, name: string)

  datatype PluginInfo = PluginInfo(id: string, name: string, signed: bool, commands: seq<PluginCommand>)

  /** The modules file: per-module settings and the three defaults for plugins. */
  datatype Seed = Seed(modules: map<string, Option<bool>>, plugin: Option<bool>, user: Option<bool>, official: Option<bool>)

  datatype Info = Info(id: string, name: string, starlark: bool, enabled: bool, defaultEnabled: bool, toggleable: bool, signed: bool)

  datatype Kind = Slash | User | Message

  type States = map<string, bool>

  datatype Snapshot = Snapshot(
    modules: map<string, Info>, commands: map<string, Command>, order: seq<Command>,
    pluginCommands: map<string, string>, userCommands: map<string, string>, messageCommands: map<string, string>,
    routes: set<string>)

  const EmptySnapshot := Snapshot(map[], map[], [], map[], map[], map[], {})

  datatype Stats = Stats(
    modules: nat, enabledModules: nat, plugins: nat, enabledPlugins: nat, builtin: nat, slash: nat, user: nat, message: nat)

  // ----- What Refresh computes -----

  function SeedOf(seed: Seed, id: string): Option<bool> { if id in seed.modules then seed.modules[id] else None }

  function BuiltinDefault(d: Descriptor, seed: Seed): bool {
    if !d.toggleable then true else if SeedOf(seed, d.id).Some? then SeedOf(seed, d.id).value else d.defaultEnabled
  }

  function BuiltinEnabled(d: Descriptor, seed: Seed, states: States): bool {
    if !d.toggleable then true else if d.id in states then states[d.id] else BuiltinDefault(d, seed)
  }

  function PluginDefault(id: string, seed: Seed): bool {
    if SeedOf(seed, id).Some? then SeedOf(seed, id).value
    else if seed.plugin.Some? then seed.plugin.value
    else if seed.user.Some? then seed.user.value
    else if seed.official.Some? then seed.official.value
    else true
  }

  function PluginEnabled(id: string, seed: Seed, states: States): bool {
    if id in states then states[id] else PluginDefault(id, seed)
  }

  function BuiltinInfo(d: Descriptor, seed: Seed, states: States): Info {
    Info(d.id, d.name, false, BuiltinEnabled(d, seed, states), BuiltinDefault(d, seed), d.toggleable, false)
  }

  function RoutesOf(ps: seq<PluginInfo>): set<string> { set p | p in ps :: p.id }

  function PluginModule(p: PluginInfo, seed: Seed, states: States): Info {
    Info(p.id, if TrimSpace(p.name) == "" then p.id else TrimSpace(p.name), true,
         PluginEnabled(p.id, seed, states), PluginDefault(p.id, seed), true, p.signed)
  }

  /** A later module replaces an earlier one of the same id; plugins come after builtins. */
  function Modules(ds: seq<Descriptor>, ps: seq<PluginInfo>, seed: Seed, states: States): map<string, Info> {
    if ps != [] then
      var p := ps[|ps| - 1];
      Modules(ds, ps[..|ps| - 1], seed, states)[p.id := PluginModule(p, seed, states)]
    else if ds != [] then
      var d := ds[|ds| - 1];
      Modules(ds[..|ds| - 1], ps, seed, states)[d.id := BuiltinInfo(d, seed, states)]
    else map[]
  }

  function KindOf(raw: string): Kind {
    var kind := ToLower(TrimSpace(raw));
    if kind == "user" then User else if kind == "message" then Message else Slash
  }

  /** A claim by `owner` to a command name. */
  datatype Claim<T> = Claim(kind: Kind, name: string, owner: T)

  function CommandClaims(commands: seq<Command>): seq<Claim<Command>> {
    if commands == [] then []
    else
      var c := commands[|commands| - 1];
      var before := CommandClaims(commands[..|commands| - 1]);
      if TrimSpace(c.name) == "" then before else before + [Claim(Slash, TrimSpace(c.name), c)]
  }

  /** The claims of the enabled builtin modules, in order. */
  function BuiltinClaims(ds: seq<Descriptor>, seed: Seed, states: States): seq<Claim<Command>> {
    if ds == [] then []
    else
      var d := ds[|ds| - 1];
      BuiltinClaims(ds[..|ds| - 1], seed, states) + if BuiltinEnabled(d, seed, states) then CommandClaims(d.commands) else []
  }

  function PluginCommandClaims(plugin: string, commands: seq<PluginCommand>): seq<Claim<string>> {
    if commands == [] then []
    else
      var c := commands[|commands| - 1];
      var before := PluginCommandClaims(plugin, commands[..|commands| - 1]);
      if TrimSpace(c.name) == "" then before else before + [Claim(KindOf(c.kind), TrimSpace(c.name), plugin)]
  }

  /** The claims of the enabled plugins, in listing order. */
  function PluginClaims(ps: seq<PluginInfo>, seed: Seed, states: States): seq<Claim<string>> {
    if ps == [] then []
    else
      var p := ps[|ps| - 1];
      PluginClaims(ps[..|ps| - 1], seed, states) + if PluginEnabled(p.id, seed, states) then PluginCommandClaims(p.id, p.commands) else []
  }

  predicate Eligible<T>(c: Claim<T>, kind: Kind, reserved: set<string>) { c.kind == kind && c.name !in reserved }

  /** Claims taken one by one: a name once taken, or reserved, is not given again. */
  function Granted<T>(claims: seq<Claim<T>>, kind: Kind, reserved: set<string>): map<string, T> {
    if claims == [] then map[]
    else
      var c := claims[|claims| - 1];
      Grant(Granted(claims[..|claims| - 1], kind, reserved), c, kind, reserved)
  }

  function Grant<T>(taken: map<string, T>, c: Claim<T>, kind: Kind, reserved: set<string>): map<string, T> {
    if Eligible(c, kind, reserved) && c.name !in taken then taken[c.name := c.owner] else taken
  }

  /** The owners of the granted names, in order. */
  function GrantOrder<T>(claims: seq<Claim<T>>, kind: Kind, reserved: set<string>): seq<T> {
    if claims == [] then []
    else
      var before, c := claims[..|claims| - 1], claims[|claims| - 1];
      GrantOrder(before, kind, reserved) +
      if Eligible(c, kind, reserved) && c.name !in Granted(before, kind, reserved) then [c.owner] else []
  }

  function Refreshed(ds: seq<Descriptor>, ps: seq<PluginInfo>, seed: Seed, states: States): Snapshot {
    var builtins := BuiltinClaims(ds, seed, states);
    var commands := Granted(builtins, Slash, {});
    var claims := PluginClaims(ps, seed, states);
    Snapshot(Modules(ds, ps, seed, states), commands, GrantOrder(builtins, Slash, {}),
             Granted(claims, Slash, commands.Keys), Granted(claims, User, {}), Granted(claims, Message, {}),
             RoutesOf(ps))
  }

  // ----- First claimants -----

  /** A name is granted exactly when some claim to it is eligible, and to the first of those. */
  lemma {:induction false} FirstClaimantWins<T>(claims: seq<Claim<T>>, kind: Kind, reserved: set<string>)
    ensures forall name :: name in Granted(claims, kind, reserved) <==> exists k :: Claims(claims, k, kind, reserved, name)
    ensures forall k :: 0 <= k < |claims| && Claims(claims, k, kind, reserved, claims[k].name)
                        && (forall j :: 0 <= j < k ==> !Claims(claims, j, kind, reserved, claims[k].name)) ==>
              Granted(claims, kind, reserved)[claims[k].name] == claims[k].owner
  {
    if claims != [] {
      var n := |claims| - 1;
      var before := claims[..n];
      FirstClaimantWins(before, kind, reserved);
      assert forall k, name :: 0 <= k < n ==> (Claims(claims, k, kind, reserved, name) <==> Claims(before, k, kind, reserved, name));
      forall name ensures name in Granted(claims, kind, reserved) <==> exists k :: Claims(claims, k, kind, reserved, name) {
        if name in Granted(claims, kind, reserved) {
          if name in Granted(before, kind, reserved) {
            var k :| Claims(before, k, kind, reserved, name);
            assert Claims(claims, k, kind, reserved, name);
          } else {
            assert Claims(claims, n, kind, reserved, name);
          }
        } else if exists k :: Claims(claims, k, kind, reserved, name) {
          var k :| Claims(claims, k, kind, reserved, name);
          assert k < n ==> Claims(before, k, kind, reserved, name);
        }
      }
    }
  }

  predicate Claims<T>(claims: seq<Claim<T>>, k: int, kind: Kind, reserved: set<string>, name: string) {
    0 <= k < |claims| && Eligible(claims[k], kind, reserved) && claims[k].name == name
  }

  // ----- The source's methods -----

  /** `module_states`: every write trims its id and refuses an empty one. */
  class ModuleStore {
    var states: States
    var works: bool

    ghost predicate Valid()
      reads this
    {
      forall id :: id in states ==> id != "" && TrimSpace(id) == id
    }

    constructor ()
      ensures Valid() && states == map[] && works
    {
      states, works := map[], true;
    }

    method List() returns (rows: seq<(string, bool)>)
      ensures forall r :: r in rows ==> r.0 in states && states[r.0] == r.1
      ensures forall id :: id in states ==> (id, states[id]) in rows
    {
      rows := [];
      var left := states.Keys;
      while left != {}
        invariant left <= states.Keys
        invariant forall r :: r in rows ==> r.0 in states && states[r.0] == r.1
        invariant forall id :: id in states && id !in left ==> (id, states[id]) in rows
        decreases |left|
      {
        var id :| id in left;
        left := left - {id};
        rows := rows + [(id, states[id])];
      }
    }

    method Put(moduleID: string, enabled: bool) returns (ok: bool)
      requires Valid()
      modifies this`states
      ensures Valid() && ok == (works && TrimSpace(moduleID) != "")
      ensures states == if ok then old(states)[TrimSpace(moduleID) := enabled] else old(states)
    {
      var id := TrimSpace(moduleID);
      TrimTwice(moduleID);
      if id == "" || !works { return false; }
      states := states[id := enabled];
      return true;
    }

    method Delete(moduleID: string) returns (ok: bool)
      requires Valid()
      modifies this`states
      ensures Valid() && ok == (works && TrimSpace(moduleID) != "")
      ensures states == if ok then old(states) - {TrimSpace(moduleID)} else old(states)
    {
      var id := TrimSpace(moduleID);
      if id == "" || !works { return false; }
      states := states - {id};
      return true;
    }
  }

  lemma CommandClaimsNext(list: seq<Command>, i: nat, before: seq<Claim<Command>>)
    requires i < |list|
    ensures before + CommandClaims(list[..i + 1]) ==
            if TrimSpace(list[i].name) == "" then before + CommandClaims(list[..i])
            else before + CommandClaims(list[..i]) + [Claim(Slash, TrimSpace(list[i].name), list[i])]
  {
    assert list[..i + 1][..i] == list[..i];
  }

  datatype Fault = StoreNotConfigured | StoreFailed | IdRequired | UnknownModule | NotToggleable

  /** The inner loop over the commands of one enabled builtin module. */
  method AddBuiltin(list: seq<Command>, ghost before: seq<Claim<Command>>, commands: map<string, Command>, order: seq<Command>)
    returns (commands': map<string, Command>, order': seq<Command>)
    requires commands == Granted(before, Slash, {}) && order == GrantOrder(before, Slash, {})
    ensures commands' == Granted(before + CommandClaims(list), Slash, {})
    ensures order' == GrantOrder(before + CommandClaims(list), Slash, {})
  {
    commands', order' := commands, order;
    ghost var claims := before;
    for i := 0 to |list|
      invariant claims == before + CommandClaims(list[..i])
      invariant commands' == Granted(claims, Slash, {}) && order' == GrantOrder(claims, Slash, {})
    {
      CommandClaimsNext(list, i, before);
      var name := TrimSpace(list[i].name);
      if name == "" { continue; }
      ghost var c := Claim(Slash, name, list[i]);
      GrantNext(claims, c, Slash, {});
      claims := claims + [c];
      if name in commands' { continue; }
      order' := order' + [list[i]];
      commands' := commands'[name := list[i]];
    }
    assert list[..|list|] == list;
  }

  /** The inner loop over the commands of one enabled plugin. */
  method AddPlugin(plugin: string, list: seq<PluginCommand>, ghost before: seq<Claim<string>>, commands: map<string, Command>,
                   slash: map<string, string>, user: map<string, string>, message: map<string, string>)
    returns (slash': map<string, string>, user': map<string, string>, message': map<string, string>)
    requires GrantedAll(before, commands.Keys, slash, user, message)
    ensures GrantedAll(before + PluginCommandClaims(plugin, list), commands.Keys, slash', user', message')
  {
    slash', user', message' := slash, user, message;
    ghost var claims := before;
    for i := 0 to |list|
      invariant claims == before + PluginCommandClaims(plugin, list[..i])
      invariant GrantedAll(claims, commands.Keys, slash', user', message')
    {
      PluginCommandClaimsNext(plugin, list, i, before);
      var name := TrimSpace(list[i].name);
      if name == "" { continue; }
      ghost var c := Claim(KindOf(list[i].kind), name, plugin);
      GrantedAllNext(claims, c, commands.Keys, slash', user', message');
      claims := claims + [c];
      slash', user', message' := TakeName(KindOf(list[i].kind), name, plugin, commands, slash', user', message');
    }
    assert list[..|list|] == list;
  }

  lemma PluginCommandClaimsNext(plugin: string, list: seq<PluginCommand>, i: nat, before: seq<Claim<string>>)
    requires i < |list|
    ensures before + PluginCommandClaims(plugin, list[..i + 1]) ==
            if TrimSpace(list[i].name) == "" then before + PluginCommandClaims(plugin, list[..i])
            else before + PluginCommandClaims(plugin, list[..i]) + [Claim(KindOf(list[i].kind), TrimSpace(list[i].name), plugin)]
  {
    assert list[..i + 1][..i] == list[..i];
  }

  /** One command of a plugin: its name goes to the plugin unless it is taken or builtin. */
  method TakeName(kind: Kind, name: string, plugin: string, commands: map<string, Command>,
                  slash: map<string, string>, user: map<string, string>, message: map<string, string>)
    returns (slash': map<string, string>, user': map<string, string>, message': map<string, string>)
    ensures var c := Claim(kind, name, plugin);
            slash' == Grant(slash, c, Slash, commands.Keys) && user' == Grant(user, c, User, {}) && message' == Grant(message, c, Message, {})
  {
    slash', user', message' := slash, user, message;
    match kind {
      case User =>
        if name in user { return; }
        user' := user[name := plugin];
      case Message =>
        if name in message { return; }
        message' := message[name := plugin];
      case Slash =>
        if name in commands { return; }
        if name in slash { return; }
        slash' := slash[name := plugin];
    }
  }

  ghost predicate GrantedAll(claims: seq<Claim<string>>, reserved: set<string>, slash: map<string, string>,
                             user: map<string, string>, message: map<string, string>)
  {
    slash == Granted(claims, Slash, reserved) && user == Granted(claims, User, {}) && message == Granted(claims, Message, {})
  }

  lemma GrantedAllNext(claims: seq<Claim<string>>, c: Claim<string>, reserved: set<string>, slash: map<string, string>,
                       user: map<string, string>, message: map<string, string>)
    requires GrantedAll(claims, reserved, slash, user, message)
    ensures GrantedAll(claims + [c], reserved, Grant(slash, c, Slash, reserved), Grant(user, c, User, {}), Grant(message, c, Message, {}))
  {
    GrantNext(claims, c, Slash, reserved);
    GrantNext(claims, c, User, {});
    GrantNext(claims, c, Message, {});
  }

  lemma PluginNext(ds: seq<Descriptor>, ps: seq<PluginInfo>, seed: Seed, states: States, i: nat)
    requires i < |ps|
    ensures Modules(ds, ps[..i + 1], seed, states) == Modules(ds, ps[..i], seed, states)[ps[i].id := PluginModule(ps[i], seed, states)]
    ensures PluginClaims(ps[..i + 1], seed, states) ==
            if PluginEnabled(ps[i].id, seed, states) then PluginClaims(ps[..i], seed, states) + PluginCommandClaims(ps[i].id, ps[i].commands)
            else PluginClaims(ps[..i], seed, states)
    ensures RoutesOf(ps[..i + 1]) == RoutesOf(ps[..i]) + {ps[i].id}
  {
    assert ps[..i + 1][..i] == ps[..i] && ps[..i + 1] == ps[..i] + [ps[i]];
    assert PluginClaims(ps[..i], seed, states) + [] == PluginClaims(ps[..i], seed, states);
  }

  class Runtime {
    const catalog: seq<Descriptor>
    const seed: Seed
    const store: ModuleStore
    var snapshot: Snapshot

    constructor (catalog: seq<Descriptor>, seed: Seed, store: ModuleStore)
      ensures this.catalog == catalog && this.seed == seed && this.store == store && snapshot == EmptySnapshot
    {
      this.catalog, this.seed, this.store, snapshot := catalog, seed, store, EmptySnapshot;
    }

    method LoadModuleStates() returns (r: Option<States>)
      requires store.Valid()
      ensures r == if store.works then Some(store.states) else None
    {
      if !store.works { return None; }
      var rows := store.List();
      var out: States := map[];
      for i := 0 to |rows|
        invariant forall id :: id in out ==> id in store.states && out[id] == store.states[id]
        invariant forall k :: 0 <= k < i ==> rows[k].0 in out
      {
        assert rows[i] in rows;
        var id := TrimSpace(rows[i].0);
        if id != "" { out := out[id := rows[i].1]; }
      }
      forall id | id in store.states ensures id in out {
        var k :| 0 <= k < |rows| && rows[k] == (id, store.states[id]);
      }
      assert out == store.states;
      return Some(out);
    }

    /** `infos` is what the plugin host lists. */
    method Refresh(infos: seq<PluginInfo>) returns (r: Result<Stats, Fault>)
      requires store.Valid()
      modifies this`snapshot
      ensures !store.works ==> r == Err(StoreFailed) && snapshot == old(snapshot)
      ensures store.works ==>
                && snapshot == Refreshed(catalog, infos, seed, store.states)
                && r.Ok? && Counts(snapshot, r.value)
    {
      var loaded := LoadModuleStates();
      if loaded.None? { return Err(StoreFailed); }
      var states := loaded.value;
      var modules: map<string, Info> := map[];
      var commands: map<string, Command> := map[];
      var order: seq<Command> := [];
      for i := 0 to |catalog|
        invariant modules == Modules(catalog[..i], [], seed, states)
        invariant commands == Granted(BuiltinClaims(catalog[..i], seed, states), Slash, {})
        invariant order == GrantOrder(BuiltinClaims(catalog[..i], seed, states), Slash, {})
      {
        var d := catalog[i];
        assert catalog[..i + 1][..i] == catalog[..i];
        modules := modules[d.id := BuiltinInfo(d, seed, states)];
        ghost var before := BuiltinClaims(catalog[..i], seed, states);
        if BuiltinEnabled(d, seed, states) {
          commands, order := AddBuiltin(d.commands, before, commands, order);
        } else {
          assert before + [] == before;
        }
      }
      assert catalog[..|catalog|] == catalog;
      modules, snapshot := AppendPluginModules(infos, states, modules, commands, order);
      var stats := RuntimeStats(snapshot.modules, order, |snapshot.pluginCommands|, |snapshot.userCommands|, |snapshot.messageCommands|);
      OrderMatchesCommands(BuiltinClaims(catalog, seed, states), {});
      return Ok(stats);
    }

    method AppendPluginModules(infos: seq<PluginInfo>, states: States, modules: map<string, Info>, commands: map<string, Command>, order: seq<Command>)
      returns (modules': map<string, Info>, built: Snapshot)
      requires modules == Modules(catalog, [], seed, states)
      ensures modules' == Modules(catalog, infos, seed, states)
      ensures var claims := PluginClaims(infos, seed, states);
              built == Snapshot(modules', commands, order, Granted(claims, Slash, commands.Keys), Granted(claims, User, {}),
                                Granted(claims, Message, {}), RoutesOf(infos))
    {
      modules' := modules;
      var slash: map<string, string>, user: map<string, string>, message: map<string, string> := map[], map[], map[];
      var routes: set<string> := {};
      ghost var claims: seq<Claim<string>> := [];
      for i := 0 to |infos|
        invariant modules' == Modules(catalog, infos[..i], seed, states)
        invariant claims == PluginClaims(infos[..i], seed, states)
        invariant slash == Granted(claims, Slash, commands.Keys)
        invariant user == Granted(claims, User, {}) && message == Granted(claims, Message, {})
        invariant routes == RoutesOf(infos[..i])
      {
        var p := infos[i];
        PluginNext(catalog, infos, seed, states, i);
        routes := routes + {p.id};
        modules' := modules'[p.id := PluginModule(p, seed, states)];
        if PluginEnabled(p.id, seed, states) {
          slash, user, message := AddPlugin(p.id, p.commands, claims, commands, slash, user, message);
          claims := claims + PluginCommandClaims(p.id, p.commands);
        }
      }
      assert infos[..|infos|] == infos;
      built := Snapshot(modules', commands, order, slash, user, message, routes);
    }

    method ModuleEnabled(moduleID: string) returns (enabled: bool)
      ensures enabled == Enabled(snapshot, moduleID)
    {
      var id := TrimSpace(moduleID);
      return id in snapshot.modules && snapshot.modules[id].enabled;
    }

    method SetModuleEnabled(moduleID: string, enabled: bool) returns (fault: Option<Fault>)
      requires store.Valid()
      modifies store
      ensures store.Valid() && store.works == old(store.works)
      ensures fault == ToggleFault(snapshot, moduleID, store.works)
      ensures store.states == if fault.None? then old(store.states)[TrimSpace(moduleID) := enabled] else old(store.states)
    {
      var id := TrimSpace(moduleID);
      TrimTwice(moduleID);
      if id == "" { return Some(IdRequired); }
      if id !in snapshot.modules { return Some(UnknownModule); }
      if !snapshot.modules[id].toggleable { return Some(NotToggleable); }
      var ok := store.Put(id, enabled);
      return if ok then None else Some(StoreFailed);
    }

    method ResetModule(moduleID: string) returns (fault: Option<Fault>)
      requires store.Valid()
      modifies store
      ensures store.Valid() && store.works == old(store.works)
      ensures fault == ToggleFault(snapshot, moduleID, store.works)
      ensures store.states == if fault.None? then old(store.states) - {TrimSpace(moduleID)} else old(store.states)
    {
      var id := TrimSpace(moduleID);
      TrimTwice(moduleID);
      if id == "" { return Some(IdRequired); }
      if id !in snapshot.modules { return Some(UnknownModule); }
      if !snapshot.modules[id].toggleable { return Some(NotToggleable); }
      var ok := store.Delete(id);
      return if ok then None else Some(StoreFailed);
    }
  }

  function Enabled(s: Snapshot, moduleID: string): bool {
    var id := TrimSpace(moduleID);
    id in s.modules && s.modules[id].enabled
  }

  function ToggleFault(s: Snapshot, moduleID: string, works: bool): Option<Fault> {
    var id := TrimSpace(moduleID);
    if id == "" then Some(IdRequired)
    else if id !in s.modules then Some(UnknownModule)
    else if !s.modules[id].toggleable then Some(NotToggleable)
    else if !works then Some(StoreFailed)
    else None
  }

  lemma GrantNext<T>(claims: seq<Claim<T>>, c: Claim<T>, kind: Kind, reserved: set<string>)
    ensures Granted(claims + [c], kind, reserved) == Grant(Granted(claims, kind, reserved), c, kind, reserved)
    ensures GrantOrder(claims + [c], kind, reserved) ==
            if Eligible(c, kind, reserved) && c.name !in Granted(claims, kind, reserved) then GrantOrder(claims, kind, reserved) + [c.owner]
            else GrantOrder(claims, kind, reserved)
  {
    assert (claims + [c])[..|claims|] == claims;
    assert GrantOrder(claims, kind, reserved) + [] == GrantOrder(claims, kind, reserved);
  }

  // ----- Counting -----

  method RuntimeStats(modules: map<string, Info>, order: seq<Command>, slash: nat, user: nat, message: nat) returns (stats: Stats)
    ensures stats == Stats(|modules|, |EnabledIds(modules)|, |PluginIds(modules)|, |EnabledIds(modules) * PluginIds(modules)|,
                           |order|, |order| + slash, user, message)
  {
    ghost var on, starlark := EnabledIds(modules), PluginIds(modules);
    var count, enabled, plugins, enabledPlugins := CountModules(modules, on, starlark, on * starlark);
    return Stats(count, enabled, plugins, enabledPlugins, |order|, |order| + slash, user, message);
  }

  /** The loop over the modules, in any order. */
  method CountModules(modules: map<string, Info>, ghost on: set<string>, ghost starlark: set<string>, ghost both: set<string>)
    returns (count: nat, enabled: nat, plugins: nat, enabledPlugins: nat)
    requires on <= modules.Keys && starlark <= modules.Keys && both <= modules.Keys
    requires forall id :: id in modules ==> (id in on <==> modules[id].enabled) && (id in starlark <==> modules[id].starlark)
    requires forall id :: id in modules ==> (id in both <==> id in on && id in starlark)
    ensures count == |modules| && enabled == |on| && plugins == |starlark| && enabledPlugins == |both|
  {
    count, enabled, plugins, enabledPlugins := 0, 0, 0, 0;
    var left := modules.Keys;
    NoneCounted(on, left);
    NoneCounted(starlark, left);
    NoneCounted(both, left);
    NoneCounted(modules.Keys, left);
    while left != {}
      invariant left <= modules.Keys
      invariant Counted(modules.Keys, left, count) && Counted(on, left, enabled)
      invariant Counted(starlark, left, plugins) && Counted(both, left, enabledPlugins)
      decreases |left|
    {
      var id :| id in left;
      CountNext(modules.Keys, left, id, count);
      CountNext(on, left, id, enabled);
      CountNext(starlark, left, id, plugins);
      CountNext(both, left, id, enabledPlugins);
      left := left - {id};
      count := count + 1;
      if modules[id].enabled { enabled := enabled + 1; }
      if !modules[id].starlark { continue; }
      plugins := plugins + 1;
      if modules[id].enabled { enabledPlugins := enabledPlugins + 1; }
    }
    AllCounted(on, enabled);
    AllCounted(starlark, plugins);
    AllCounted(both, enabledPlugins);
    AllCounted(modules.Keys, count);
  }

  /** `n` members of `all` have been dealt with. */
  ghost predicate Counted(all: set<string>, left: set<string>, n: nat) { n == |all - left| }

  lemma NoneCounted(all: set<string>, left: set<string>)
    requires all <= left
    ensures Counted(all, left, 0)
  {
    assert all - left == {};
  }

  lemma AllCounted(all: set<string>, n: nat)
    requires Counted(all, {}, n)
    ensures n == |all|
  {
    assert all - {} == all;
  }

  lemma CountNext(all: set<string>, left: set<string>, id: string, n: nat)
    requires id in left && Counted(all, left, n)
    ensures Counted(all, left - {id}, if id in all then n + 1 else n)
  {
    if id in all {
      assert all - (left - {id}) == (all - left) + {id};
    } else {
      assert all - (left - {id}) == all - left;
    }
  }

  ghost function EnabledIds(modules: map<string, Info>): set<string> { set id | id in modules && modules[id].enabled }

  ghost function PluginIds(modules: map<string, Info>): set<string> { set id | id in modules && modules[id].starlark }

  /** What the statistics of a snapshot say: in particular, slash commands are as many as there are
      names that are builtin or plugin slash commands. */
  ghost predicate Counts(s: Snapshot, stats: Stats) {
    && stats.modules == |s.modules| && stats.enabledModules == |EnabledIds(s.modules)|
    && stats.plugins == |PluginIds(s.modules)| && stats.enabledPlugins == |EnabledIds(s.modules) * PluginIds(s.modules)|
    && stats.builtin == |s.commands| && stats.slash == |s.commands| + |s.pluginCommands|
    && stats.user == |s.userCommands| && stats.message == |s.messageCommands|
  }

  // ----- The main results -----

  ghost predicate SameNames(order: seq<Command>, commands: map<string, Command>) {
    && (forall i :: 0 <= i < |order| ==> TrimSpace(order[i].name) in commands && commands[TrimSpace(order[i].name)] == order[i])
    && (forall i, j :: 0 <= i < j < |order| ==> TrimSpace(order[i].name) != TrimSpace(order[j].name))
    && (forall name :: name in commands ==> exists i :: 0 <= i < |order| && order[i] == commands[name])
  }

  ghost predicate NamedAsClaimed(claims: seq<Claim<Command>>) {
    forall k :: 0 <= k < |claims| ==> claims[k].name == TrimSpace(claims[k].owner.name)
  }

  lemma {:induction false} OrderMatchesCommands(claims: seq<Claim<Command>>, reserved: set<string>)
    ensures |GrantOrder(claims, Slash, reserved)| == |Granted(claims, Slash, reserved)|
    ensures NamedAsClaimed(claims) ==> SameNames(GrantOrder(claims, Slash, reserved), Granted(claims, Slash, reserved))
  {
    if claims != [] {
      var before, c := claims[..|claims| - 1], claims[|claims| - 1];
      OrderMatchesCommands(before, reserved);
      assert before + [c] == claims;
      GrantNext(before, c, Slash, reserved);
      var order, taken := GrantOrder(before, Slash, reserved), Granted(before, Slash, reserved);
      if Eligible(c, Slash, reserved) && c.name !in taken {
        assert taken[c.name := c.owner].Keys == taken.Keys + {c.name};
        if NamedAsClaimed(claims) {
          assert NamedAsClaimed(before);
          ExtendsSameNames(order, taken, c.owner);
        }
      }
    }
  }

  lemma ExtendsSameNames(order: seq<Command>, commands: map<string, Command>, c: Command)
    requires SameNames(order, commands) && TrimSpace(c.name) !in commands
    ensures SameNames(order + [c], commands[TrimSpace(c.name) := c])
  {
    var order', commands' := order + [c], commands[TrimSpace(c.name) := c];
    forall name | name in commands' ensures exists i :: 0 <= i < |order'| && order'[i] == commands'[name] {
      if name == TrimSpace(c.name) {
        assert order'[|order|] == c;
      } else {
        var i :| 0 <= i < |order| && order[i] == commands[name];
        assert order'[i] == commands'[name];
      }
    }
  }

  lemma {:induction false} CommandClaimsNamed(commands: seq<Command>)
    ensures NamedAsClaimed(CommandClaims(commands))
  {
    if commands != [] { CommandClaimsNamed(commands[..|commands| - 1]); }
  }

  lemma {:induction false} BuiltinClaimsNamed(ds: seq<Descriptor>, seed: Seed, states: States)
    ensures NamedAsClaimed(BuiltinClaims(ds, seed, states))
  {
    if ds != [] {
      BuiltinClaimsNamed(ds[..|ds| - 1], seed, states);
      CommandClaimsNamed(ds[|ds| - 1].commands);
    }
  }

  /** The order and the table of builtin commands hold the same commands, once each; no plugin slash
      name is one of theirs; so the slash count of the statistics is the number of names in all. */
  lemma NamesDisjoint(ds: seq<Descriptor>, ps: seq<PluginInfo>, seed: Seed, states: States, stats: Stats)
    requires Counts(Refreshed(ds, ps, seed, states), stats)
    ensures var s := Refreshed(ds, ps, seed, states);
            && SameNames(s.order, s.commands) && |s.order| == stats.builtin
            && s.commands.Keys !! s.pluginCommands.Keys
            && stats.slash == |s.commands.Keys + s.pluginCommands.Keys|
  {
    var s := Refreshed(ds, ps, seed, states);
    var builtins, claims := BuiltinClaims(ds, seed, states), PluginClaims(ps, seed, states);
    BuiltinClaimsNamed(ds, seed, states);
    OrderMatchesCommands(builtins, {});
    GrantedNotReserved(claims, s.commands.Keys);
    assert s.pluginCommands == Granted(claims, Slash, s.commands.Keys);
  }

  lemma GrantedNotReserved(claims: seq<Claim<string>>, reserved: set<string>)
    ensures Granted(claims, Slash, reserved).Keys !! reserved
  {
    forall name | name in Granted(claims, Slash, reserved) ensures name !in reserved {
      FirstClaimantWins(claims, Slash, reserved);
      var k :| Claims(claims, k, Slash, reserved, name);
    }
  }

  /** A plugin's name of each kind is granted to the first enabled plugin that claims it, in listing
      order; a slash name only if no builtin command has it. */
  lemma PluginNamesToFirst(ds: seq<Descriptor>, ps: seq<PluginInfo>, seed: Seed, states: States, kind: Kind, name: string)
    ensures var s := Refreshed(ds, ps, seed, states);
            var claims, granted := PluginClaims(ps, seed, states), GrantedOf(s, kind);
            && (name in granted <==> Claimed(claims, kind, name) && !(kind.Slash? && name in s.commands))
            && (name in granted ==> GrantedToFirst(claims, kind, name, granted[name]))
  {
    var s := Refreshed(ds, ps, seed, states);
    var claims, reserved := PluginClaims(ps, seed, states), if kind.Slash? then s.commands.Keys else {};
    var granted := Granted(claims, kind, reserved);
    FirstClaimantWins(claims, kind, reserved);
    assert GrantedOf(s, kind) == granted;
    forall k ensures Claims(claims, k, kind, reserved, name) <==> name !in reserved && ClaimedAt(claims, k, kind, name) {}
    if name in granted {
      var k :| Claims(claims, k, kind, reserved, name);
      var first := FirstClaim(claims, k, kind, name);
      assert Claims(claims, first, kind, reserved, claims[first].name);
      assert FirstClaimedAt(claims, first, kind, name) && granted[name] == claims[first].owner;
    } else {
      assert forall k :: !Claims(claims, k, kind, reserved, name);
    }
  }

  ghost predicate Claimed(claims: seq<Claim<string>>, kind: Kind, name: string) {
    exists k :: ClaimedAt(claims, k, kind, name)
  }

  ghost predicate GrantedToFirst(claims: seq<Claim<string>>, kind: Kind, name: string, owner: string) {
    exists k :: FirstClaimedAt(claims, k, kind, name) && owner == claims[k].owner
  }

  function GrantedOf(s: Snapshot, kind: Kind): map<string, string> {
    match kind case Slash => s.pluginCommands case User => s.userCommands case Message => s.messageCommands
  }

  predicate ClaimedAt(claims: seq<Claim<string>>, k: int, kind: Kind, name: string) {
    0 <= k < |claims| && claims[k].kind == kind && claims[k].name == name
  }

  predicate FirstClaimedAt(claims: seq<Claim<string>>, k: int, kind: Kind, name: string) {
    ClaimedAt(claims, k, kind, name) && forall j :: 0 <= j < k ==> !ClaimedAt(claims, j, kind, name)
  }

  lemma {:induction false} FirstClaim(claims: seq<Claim<string>>, k: nat, kind: Kind, name: string) returns (first: nat)
    requires ClaimedAt(claims, k, kind, name)
    ensures FirstClaimedAt(claims, first, kind, name)
  {
    if j :| 0 <= j < k && ClaimedAt(claims, j, kind, name) {
      first := FirstClaim(claims, j, kind, name);
    } else {
      first := k;
    }
  }

  /** The module of an id depends on the stored states only through its own: stored, the state decides
      a toggleable module; not stored, the default does. */
  lemma {:induction false} ModuleFollowsState(ds: seq<Descriptor>, ps: seq<PluginInfo>, seed: Seed, states: States, states': States, id: string)
    ensures id in Modules(ds, ps, seed, states) <==> id in Modules(ds, ps, seed, states')
    ensures id in Modules(ds, ps, seed, states) ==>
              var m, m' := Modules(ds, ps, seed, states)[id], Modules(ds, ps, seed, states')[id];
              && m.id == id && m'.toggleable == m.toggleable && m'.defaultEnabled == m.defaultEnabled
              && m.enabled == (if m.toggleable && id in states then states[id] else m.defaultEnabled)
              && (SameState(states, states', id) ==> m' == m)
    decreases |ps|, |ds|
  {
    if ps != [] {
      ModuleFollowsState(ds, ps[..|ps| - 1], seed, states, states', id);
    } else if ds != [] {
      ModuleFollowsState(ds[..|ds| - 1], ps, seed, states, states', id);
    }
  }

  predicate SameState(states: States, states': States, id: string) {
    (id in states <==> id in states') && (id in states ==> states[id] == states'[id])
  }

  /** Setting a toggleable module in working storage and refreshing makes it what was set, and
      resetting makes it its default; no other module changes. The snapshot that says it can be
      toggled may be older than the stored states. */
  lemma ToggleThenRefresh(ds: seq<Descriptor>, ps: seq<PluginInfo>, seed: Seed, earlier: States, states: States, moduleID: string, enabled: bool)
    requires ToggleFault(Refreshed(ds, ps, seed, earlier), moduleID, true) == None
    ensures var id := TrimSpace(moduleID);
            var before := Refreshed(ds, ps, seed, states);
            var set_, reset := Refreshed(ds, ps, seed, states[id := enabled]), Refreshed(ds, ps, seed, states - {id});
            && id in before.modules && Enabled(set_, moduleID) == enabled
            && Enabled(reset, moduleID) == before.modules[id].defaultEnabled
            && set_.modules.Keys == reset.modules.Keys == before.modules.Keys
            && forall other :: other in before.modules && other != id ==>
                 set_.modules[other] == before.modules[other] && reset.modules[other] == before.modules[other]
  {
    var id := TrimSpace(moduleID);
    ModuleFollowsState(ds, ps, seed, earlier, states, id);
    ModuleFollowsState(ds, ps, seed, states[id := enabled], states, id);
    ModuleFollowsState(ds, ps, seed, states - {id}, states, id);
    forall other ensures other in Modules(ds, ps, seed, states) <==> other in Modules(ds, ps, seed, states[id := enabled])
      ensures other in Modules(ds, ps, seed, states) <==> other in Modules(ds, ps, seed, states - {id})
      ensures other != id && other in Modules(ds, ps, seed, states) ==>
                && Modules(ds, ps, seed, states[id := enabled])[other] == Modules(ds, ps, seed, states)[other]
                && Modules(ds, ps, seed, states - {id})[other] == Modules(ds, ps, seed, states)[other]
    {
      ModuleFollowsState(ds, ps, seed, states, states[id := enabled], other);
      ModuleFollowsState(ds, ps, seed, states, states - {id}, other);
    }
  }

  // ----- The snapshot in terms of the listing -----

  /** What the modules file says of a plugin: its own entry first, then the defaults for plugins, for user
      plugins and for official ones, and on if it says nothing. */
  predicate DefaultRule(seed: Seed, id: string, on: bool) {
    if id in seed.modules && seed.modules[id].Some? then on == seed.modules[id].value
    else
      && (seed.plugin.Some? ==> on == seed.plugin.value)
      && (seed.plugin.None? && seed.user.Some? ==> on == seed.user.value)
      && (seed.plugin.None? && seed.user.None? && seed.official.Some? ==> on == seed.official.value)
      && (seed.plugin.None? && seed.user.None? && seed.official.None? ==> on)
  }

  /** The entry of a plugin: it can always be toggled, and a stored state overrides its default. */
  predicate PluginEntry(p: PluginInfo, seed: Seed, states: States, m: Info) {
    && m.id == p.id && m.starlark && m.toggleable && m.signed == p.signed
    && (if TrimSpace(p.name) != "" then m.name == TrimSpace(p.name) else m.name == p.id)
    && DefaultRule(seed, p.id, m.defaultEnabled)
    && (if p.id in states then m.enabled == states[p.id] else m.enabled == m.defaultEnabled)
  }

  /** The entry of a builtin module: on unless it can be toggled; then its own entry in the modules file
      precedes its own default, and a stored state both. */
  predicate BuiltinEntry(d: Descriptor, seed: Seed, states: States, m: Info) {
    && m.id == d.id && m.name == d.name && !m.starlark && !m.signed && m.toggleable == d.toggleable
    && (!d.toggleable ==> m.enabled && m.defaultEnabled)
    && (d.toggleable ==> m.defaultEnabled == if d.id in seed.modules && seed.modules[d.id].Some? then seed.modules[d.id].value else d.defaultEnabled)
    && (d.toggleable ==> m.enabled == if d.id in states then states[d.id] else m.defaultEnabled)
  }

  predicate LastPlugin(ps: seq<PluginInfo>, i: int, id: string) {
    0 <= i < |ps| && ps[i].id == id && forall j :: i < j < |ps| ==> ps[j].id != id
  }

  predicate LastBuiltin(ds: seq<Descriptor>, i: int, id: string) {
    0 <= i < |ds| && ds[i].id == id && forall j :: i < j < |ds| ==> ds[j].id != id
  }

  /** What the entry of an id is. */
  ghost predicate RightEntry(ds: seq<Descriptor>, ps: seq<PluginInfo>, seed: Seed, states: States, modules: map<string, Info>, id: string) {
    && (id in modules <==> (exists p :: p in ps && p.id == id) || (exists d :: d in ds && d.id == id))
    && (forall i :: LastPlugin(ps, i, id) ==> id in modules && PluginEntry(ps[i], seed, states, modules[id]))
    && (forall i :: LastBuiltin(ds, i, id) && (forall p :: p in ps ==> p.id != id) ==>
          id in modules && BuiltinEntry(ds[i], seed, states, modules[id]))
  }

  /** The entry of an id is that of the last plugin listed with it, or else of the last builtin module. */
  lemma {:induction false} ModuleOf(ds: seq<Descriptor>, ps: seq<PluginInfo>, seed: Seed, states: States, id: string)
    ensures RightEntry(ds, ps, seed, states, Modules(ds, ps, seed, states), id)
    decreases |ps|, |ds|
  {
    if ps != [] {
      ModuleOf(ds, ps[..|ps| - 1], seed, states, id);
      PluginAdded(ds, ps, seed, states, Modules(ds, ps[..|ps| - 1], seed, states), id);
    } else if ds != [] {
      ModuleOf(ds[..|ds| - 1], ps, seed, states, id);
      BuiltinAdded(ds, seed, states, Modules(ds[..|ds| - 1], [], seed, states), id);
    }
  }

  lemma PluginAdded(ds: seq<Descriptor>, ps: seq<PluginInfo>, seed: Seed, states: States, modules: map<string, Info>, id: string)
    requires ps != [] && RightEntry(ds, ps[..|ps| - 1], seed, states, modules, id)
    ensures var p := ps[|ps| - 1]; RightEntry(ds, ps, seed, states, modules[p.id := PluginModule(p, seed, states)], id)
  {
    NextPlugin(ds, ps, seed, states, id);
    assert ps == ps[..|ps| - 1] + [ps[|ps| - 1]];
  }

  lemma BuiltinAdded(ds: seq<Descriptor>, seed: Seed, states: States, modules: map<string, Info>, id: string)
    requires ds != [] && RightEntry(ds[..|ds| - 1], [], seed, states, modules, id)
    ensures var d := ds[|ds| - 1]; RightEntry(ds, [], seed, states, modules[d.id := BuiltinInfo(d, seed, states)], id)
  {
    NextBuiltin(ds, seed, states, id);
  }

  lemma NextPlugin(ds: seq<Descriptor>, ps: seq<PluginInfo>, seed: Seed, states: States, id: string)
    requires ps != []
    ensures var before, p := ps[..|ps| - 1], ps[|ps| - 1];
            && Modules(ds, ps, seed, states) == Modules(ds, before, seed, states)[p.id := PluginModule(p, seed, states)]
            && PluginEntry(p, seed, states, PluginModule(p, seed, states))
            && ((exists q :: q in ps && q.id == id) <==> p.id == id || exists q :: q in before && q.id == id)
            && (forall i :: LastPlugin(ps, i, id) <==> if p.id == id then i == |before| else LastPlugin(before, i, id))
  {
    var before, p := ps[..|ps| - 1], ps[|ps| - 1];
    assert ps == before + [p];
    forall i ensures LastPlugin(ps, i, id) <==> if p.id == id then i == |before| else LastPlugin(before, i, id) {
      assert ps[|before|] == p;
      assert forall j :: 0 <= j < |before| ==> ps[j] == before[j];
    }
  }

  lemma NextBuiltin(ds: seq<Descriptor>, seed: Seed, states: States, id: string)
    requires ds != []
    ensures var before, d := ds[..|ds| - 1], ds[|ds| - 1];
            && Modules(ds, [], seed, states) == Modules(before, [], seed, states)[d.id := BuiltinInfo(d, seed, states)]
            && BuiltinEntry(d, seed, states, BuiltinInfo(d, seed, states))
            && ((exists q :: q in ds && q.id == id) <==> d.id == id || exists q :: q in before && q.id == id)
            && (forall i :: LastBuiltin(ds, i, id) <==> if d.id == id then i == |before| else LastBuiltin(before, i, id))
  {
    var before, d := ds[..|ds| - 1], ds[|ds| - 1];
    assert ds == before + [d];
    forall i ensures LastBuiltin(ds, i, id) <==> if d.id == id then i == |before| else LastBuiltin(before, i, id) {
      assert ds[|before|] == d;
      assert forall j :: 0 <= j < |before| ==> ds[j] == before[j];
    }
  }

  // Command names.

  /** The kind a plugin's text names: "user" or "message" in any case, and slash for everything else. */
  predicate NamesKind(text: string, kind: Kind) {
    var word := ToLower(TrimSpace(text));
    (kind.User? <==> word == "user") && (kind.Message? <==> word == "message")
  }

  predicate Offers(commands: seq<PluginCommand>, kind: Kind, name: string) {
    name != "" && exists j :: 0 <= j < |commands| && TrimSpace(commands[j].name) == name && NamesKind(commands[j].kind, kind)
  }

  predicate On(id: string, seed: Seed, states: States) { PluginEnabled(id, seed, states) }

  lemma Regrouped<T>(a: seq<Claim<T>>, b: seq<Claim<T>>, c: Claim<T>)
    ensures a + (b + [c]) == (a + b) + [c]
  {
  }

  lemma {:induction false} OneMorePlugin(before: seq<Claim<string>>, plugin: string, commands: seq<PluginCommand>, kind: Kind, reserved: set<string>, name: string)
    ensures var after := Granted(before + PluginCommandClaims(plugin, commands), kind, reserved);
            && (name in after <==> name in Granted(before, kind, reserved) || (name !in reserved && Offers(commands, kind, name)))
            && (name in after ==> after[name] == if name in Granted(before, kind, reserved) then Granted(before, kind, reserved)[name] else plugin)
    decreases |commands|
  {
    if commands == [] {
      assert before + PluginCommandClaims(plugin, commands) == before;
    } else {
      var front, c := commands[..|commands| - 1], commands[|commands| - 1];
      OneMorePlugin(before, plugin, front, kind, reserved, name);
      var claims := PluginCommandClaims(plugin, front);
      OffersNext(commands, kind, name);
      if TrimSpace(c.name) != "" {
        var claim := Claim(KindOf(c.kind), TrimSpace(c.name), plugin);
        Regrouped(before, claims, claim);
        GrantNext(before + claims, claim, kind, reserved);
      }
    }
  }

  lemma OffersNext(commands: seq<PluginCommand>, kind: Kind, name: string)
    requires commands != []
    ensures var front, c := commands[..|commands| - 1], commands[|commands| - 1];
            Offers(commands, kind, name) <==> Offers(front, kind, name) || (name != "" && TrimSpace(c.name) == name && KindOf(c.kind) == kind)
  {
    var front, c := commands[..|commands| - 1], commands[|commands| - 1];
    assert NamesKind(c.kind, kind) <==> KindOf(c.kind) == kind;
    assert commands[|commands| - 1] == c;
    assert forall j :: 0 <= j < |front| ==> front[j] == commands[j];
  }

  predicate FirstToOffer(ps: seq<PluginInfo>, i: int, seed: Seed, states: States, kind: Kind, name: string) {
    && 0 <= i < |ps| && On(ps[i].id, seed, states) && Offers(ps[i].commands, kind, name)
    && forall j :: 0 <= j < i ==> !(On(ps[j].id, seed, states) && Offers(ps[j].commands, kind, name))
  }

  /** A plugin command name of a kind goes to the first enabled plugin of the listing that offers it. */
  lemma {:induction false} GrantedToFirstOffer(ps: seq<PluginInfo>, seed: Seed, states: States, kind: Kind, reserved: set<string>, name: string)
    ensures var granted := Granted(PluginClaims(ps, seed, states), kind, reserved);
            && (name in granted <==> name !in reserved && exists i :: FirstToOffer(ps, i, seed, states, kind, name))
            && (forall i :: name in granted && FirstToOffer(ps, i, seed, states, kind, name) ==> granted[name] == ps[i].id)
    decreases |ps|
  {
    if ps != [] {
      var before := ps[..|ps| - 1];
      GrantedToFirstOffer(before, seed, states, kind, reserved, name);
      OneMoreListed(ps, seed, states, kind, reserved, name);
      FirstOrLater(ps, seed, states, kind, name);
      SomeFirst(ps, seed, states, kind, name);
      forall i | FirstToOffer(ps, i, seed, states, kind, name) && i < |before| ensures FirstToOffer(before, i, seed, states, kind, name) {
        SameFirst(ps, i, seed, states, kind, name);
      }
    }
  }

  lemma SomeFirst(ps: seq<PluginInfo>, seed: Seed, states: States, kind: Kind, name: string)
    requires ps != []
    ensures var before, p := ps[..|ps| - 1], ps[|ps| - 1];
            (exists i :: FirstToOffer(ps, i, seed, states, kind, name)) <==>
              (exists i :: FirstToOffer(before, i, seed, states, kind, name)) || (On(p.id, seed, states) && Offers(p.commands, kind, name))
  {
    var before := ps[..|ps| - 1];
    FirstOrLater(ps, seed, states, kind, name);
    if i :| FirstToOffer(before, i, seed, states, kind, name) { SameFirst(ps, i, seed, states, kind, name); }
    if i :| FirstToOffer(ps, i, seed, states, kind, name) {
      if i < |before| { SameFirst(ps, i, seed, states, kind, name); }
    }
  }

  lemma SameFirst(ps: seq<PluginInfo>, i: nat, seed: Seed, states: States, kind: Kind, name: string)
    requires i < |ps| - 1
    ensures FirstToOffer(ps, i, seed, states, kind, name) <==> FirstToOffer(ps[..|ps| - 1], i, seed, states, kind, name)
  {
    assert forall j :: 0 <= j < |ps| - 1 ==> ps[..|ps| - 1][j] == ps[j];
  }

  lemma OneMoreListed(ps: seq<PluginInfo>, seed: Seed, states: States, kind: Kind, reserved: set<string>, name: string)
    requires ps != []
    ensures var p := ps[|ps| - 1];
            var was, granted := Granted(PluginClaims(ps[..|ps| - 1], seed, states), kind, reserved), Granted(PluginClaims(ps, seed, states), kind, reserved);
            && (name in granted <==> name in was || (name !in reserved && On(p.id, seed, states) && Offers(p.commands, kind, name)))
            && (name in granted ==> granted[name] == if name in was then was[name] else p.id)
  {
    var before, p := ps[..|ps| - 1], ps[|ps| - 1];
    if On(p.id, seed, states) {
      OneMorePlugin(PluginClaims(before, seed, states), p.id, p.commands, kind, reserved, name);
    } else {
      assert PluginClaims(before, seed, states) + [] == PluginClaims(before, seed, states);
    }
  }

  lemma FirstOrLater(ps: seq<PluginInfo>, seed: Seed, states: States, kind: Kind, name: string)
    requires ps != []
    ensures var before, p := ps[..|ps| - 1], ps[|ps| - 1];
            FirstToOffer(ps, |ps| - 1, seed, states, kind, name) <==>
              On(p.id, seed, states) && Offers(p.commands, kind, name)
              && !(exists i :: FirstToOffer(before, i, seed, states, kind, name))
  {
    var before := ps[..|ps| - 1];
    assert forall i :: 0 <= i < |before| ==> before[i] == ps[i];
    if i :| FirstToOffer(before, i, seed, states, kind, name) {
      assert On(ps[i].id, seed, states) && Offers(ps[i].commands, kind, name);
    } else {
      forall j | 0 <= j < |before| ensures !(On(before[j].id, seed, states) && Offers(before[j].commands, kind, name)) {
        if On(before[j].id, seed, states) && Offers(before[j].commands, kind, name) { var i := LeastOffer(before, j, seed, states, kind, name); }
      }
    }
  }

  lemma {:induction false} LeastOffer(ps: seq<PluginInfo>, j: nat, seed: Seed, states: States, kind: Kind, name: string) returns (i: nat)
    requires j < |ps| && On(ps[j].id, seed, states) && Offers(ps[j].commands, kind, name)
    ensures FirstToOffer(ps, i, seed, states, kind, name)
  {
    if k :| 0 <= k < j && On(ps[k].id, seed, states) && Offers(ps[k].commands, kind, name) {
      i := LeastOffer(ps, k, seed, states, kind, name);
    } else {
      i := j;
    }
  }

  // Builtin commands.

  predicate Names(commands: seq<Command>, name: string) { name != "" && exists j :: 0 <= j < |commands| && TrimSpace(commands[j].name) == name }

  predicate FirstNamed(commands: seq<Command>, name: string, c: Command) {
    exists j :: 0 <= j < |commands| && commands[j] == c && TrimSpace(c.name) == name
                && forall k :: 0 <= k < j ==> TrimSpace(commands[k].name) != name
  }

  /** What adding one module's commands makes of the builtin names. */
  ghost predicate Added(was: map<string, Command>, after: map<string, Command>, commands: seq<Command>, name: string) {
    && (name in after <==> name in was || Names(commands, name))
    && (name in was ==> name in after && after[name] == was[name])
    && (name !in was && name in after ==> FirstNamed(commands, name, after[name]))
  }

  lemma {:induction false} OneMoreBuiltin(before: seq<Claim<Command>>, commands: seq<Command>, name: string)
    ensures Added(Granted(before, Slash, {}), Granted(before + CommandClaims(commands), Slash, {}), commands, name)
    decreases |commands|
  {
    if commands == [] {
      assert before + CommandClaims(commands) == before;
    } else {
      var front, c := commands[..|commands| - 1], commands[|commands| - 1];
      var was, half := Granted(before, Slash, {}), Granted(before + CommandClaims(front), Slash, {});
      OneMoreBuiltin(before, front, name);
      AddedNext(was, half, commands, name);
      if TrimSpace(c.name) != "" {
        var claim := Claim(Slash, TrimSpace(c.name), c);
        Regrouped(before, CommandClaims(front), claim);
        GrantNext(before + CommandClaims(front), claim, Slash, {});
      }
    }
  }

  lemma AddedNext(was: map<string, Command>, half: map<string, Command>, commands: seq<Command>, name: string)
    requires commands != [] && Added(was, half, commands[..|commands| - 1], name)
    ensures var c := commands[|commands| - 1];
            Added(was, if TrimSpace(c.name) == "" then half else Grant(half, Claim(Slash, TrimSpace(c.name), c), Slash, {}), commands, name)
  {
    NamesNext(commands, name);
  }

  lemma NamesNext(commands: seq<Command>, name: string)
    requires commands != []
    ensures var front, c := commands[..|commands| - 1], commands[|commands| - 1];
            && (Names(commands, name) <==> Names(front, name) || (name != "" && TrimSpace(c.name) == name))
            && (forall x :: FirstNamed(front, name, x) ==> FirstNamed(commands, name, x))
            && (!Names(front, name) && name != "" && TrimSpace(c.name) == name ==> FirstNamed(commands, name, c))
  {
    var front, c := commands[..|commands| - 1], commands[|commands| - 1];
    assert commands[|front|] == c && forall j :: 0 <= j < |front| ==> front[j] == commands[j];
  }

  predicate FirstBuiltin(ds: seq<Descriptor>, i: int, seed: Seed, states: States, name: string) {
    && 0 <= i < |ds| && BuiltinEnabled(ds[i], seed, states) && Names(ds[i].commands, name)
    && forall j :: 0 <= j < i ==> !(BuiltinEnabled(ds[j], seed, states) && Names(ds[j].commands, name))
  }

  /** A builtin command name belongs to the first enabled module that has it, and there to its first command. */
  lemma {:induction false} BuiltinToFirst(ds: seq<Descriptor>, seed: Seed, states: States, name: string)
    ensures var commands := Granted(BuiltinClaims(ds, seed, states), Slash, {});
            && (name in commands <==> exists i :: FirstBuiltin(ds, i, seed, states, name))
            && (forall i :: FirstBuiltin(ds, i, seed, states, name) ==> name in commands && FirstNamed(ds[i].commands, name, commands[name]))
    decreases |ds|
  {
    if ds != [] {
      var before, d := ds[..|ds| - 1], ds[|ds| - 1];
      BuiltinToFirst(before, seed, states, name);
      assert ds[|before|] == d && forall j :: 0 <= j < |before| ==> before[j] == ds[j];
      forall i | 0 <= i < |before| ensures FirstBuiltin(ds, i, seed, states, name) <==> FirstBuiltin(before, i, seed, states, name) {}
      if BuiltinEnabled(d, seed, states) {
        OneMoreBuiltin(BuiltinClaims(before, seed, states), d.commands, name);
        assert Added(Granted(BuiltinClaims(before, seed, states), Slash, {}), Granted(BuiltinClaims(ds, seed, states), Slash, {}), d.commands, name);
        FirstBuiltinOrLater(ds, seed, states, name);
      } else {
        assert BuiltinClaims(before, seed, states) + [] == BuiltinClaims(before, seed, states);
        assert !FirstBuiltin(ds, |before|, seed, states, name);
      }
    }
  }

  lemma FirstBuiltinOrLater(ds: seq<Descriptor>, seed: Seed, states: States, name: string)
    requires ds != []
    ensures var before, d := ds[..|ds| - 1], ds[|ds| - 1];
            FirstBuiltin(ds, |ds| - 1, seed, states, name) <==>
              BuiltinEnabled(d, seed, states) && Names(d.commands, name) && !(exists i :: FirstBuiltin(before, i, seed, states, name))
  {
    var before := ds[..|ds| - 1];
    assert forall i :: 0 <= i < |before| ==> before[i] == ds[i];
    if i :| FirstBuiltin(before, i, seed, states, name) {
      assert BuiltinEnabled(ds[i], seed, states) && Names(ds[i].commands, name);
    } else {
      forall j | 0 <= j < |before| ensures !(BuiltinEnabled(before[j], seed, states) && Names(before[j].commands, name)) {
        if BuiltinEnabled(before[j], seed, states) && Names(before[j].commands, name) { var i := LeastBuiltin(before, j, seed, states, name); }
      }
    }
  }

  lemma {:induction false} LeastBuiltin(ds: seq<Descriptor>, j: nat, seed: Seed, states: States, name: string) returns (i: nat)
    requires j < |ds| && BuiltinEnabled(ds[j], seed, states) && Names(ds[j].commands, name)
    ensures FirstBuiltin(ds, i, seed, states, name)
  {
    if k :| 0 <= k < j && BuiltinEnabled(ds[k], seed, states) && Names(ds[k].commands, name) {
      i := LeastBuiltin(ds, k, seed, states, name);
    } else {
      i := j;
    }
  }

  /** The snapshot after a refresh, in terms of the listing: a plugin's name of a kind belongs to the first
      enabled plugin that offers it, if no builtin command has that slash name, and a builtin name to the first
      enabled module that has it; the routes are those of all plugins listed. */
  lemma RefreshedNames(ds: seq<Descriptor>, ps: seq<PluginInfo>, seed: Seed, states: States, kind: Kind, name: string)
    ensures var s := Refreshed(ds, ps, seed, states);
            && (name in GrantedOf(s, kind) <==>
                  !(kind.Slash? && name in s.commands) && exists i :: FirstToOffer(ps, i, seed, states, kind, name))
            && (forall i :: name in GrantedOf(s, kind) && FirstToOffer(ps, i, seed, states, kind, name) ==> GrantedOf(s, kind)[name] == ps[i].id)
            && (name in s.commands <==> exists i :: FirstBuiltin(ds, i, seed, states, name))
            && (forall i :: FirstBuiltin(ds, i, seed, states, name) ==> FirstNamed(ds[i].commands, name, s.commands[name]))
            && (name in s.routes <==> exists p :: p in ps && p.id == name)
  {
    var s := Refreshed(ds, ps, seed, states);
    BuiltinToFirst(ds, seed, states, name);
    GrantedToFirstOffer(ps, seed, states, kind, if kind.Slash? then s.commands.Keys else {}, name);
  }
}
