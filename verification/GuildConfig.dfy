/** `guildconfig`: the settings of a plugin in a guild, saved as JSON and loaded back over defaults. */
module GuildConfig {
  import opened Wrappers

  type Int64 = n: int | -0x8000_0000_0000_0000 <= n < 0x8000_0000_0000_0000
  type Uint64 = n: int | 0 <= n < 0x1_0000_0000_0000_0000

  datatype Config = Config(
    enabled: bool, commands: map<string, bool>, warningLimit: Int64, timeoutThreshold: Int64, timeoutMinutes: Int64,
    allowReminders: bool, reminderChannel: Uint64)

  /** A JSON value, as far as decoding tells them apart; `Other` is any string, array or fraction. */
  datatype Json = JNull | JBool(value: bool) | JNumber(number: int) | JObject(fields: map<string, Json>) | Other

  /** The text under the key of a guild and plugin: none of it, not an object, or its members. */
  datatype Raw = Blank | Malformed | Members(payload: map<string, Json>)

  function PluginCommands(plugin: string): seq<string> {
    if plugin == "fun" then ["8ball", "flip", "hug", "pat", "poke", "roll", "shrug"]
    else if plugin == "info" then ["about", "lookup"]
    else if plugin == "manager" then ["slowmode", "nick", "roles", "purge", "emojis", "stickers"]
    else if plugin == "moderation" then ["warn", "unwarn"]
    else if plugin == "wellness" then ["timezone", "checkin", "remind"]
    else []
  }

  function Clamp(value: Int64, min: Int64, max: Int64, fallback: Int64): (r: Int64)
    requires min <= fallback <= max
    ensures min <= r <= max && (value != 0 && min <= value <= max ==> r == value) && (value == 0 ==> r == fallback)
  {
    if value == 0 then fallback else if value < min then min else if value > max then max else value
  }

  // ----- What the operations compute -----

  /** The plugin's own commands: as given, and on where nothing is given. */
  function CommandsOver(plugin: string, given: map<string, bool>): map<string, bool> {
    map c | c in PluginCommands(plugin) :: if c in given then given[c] else true
  }

  function DefaultOf(plugin: string): Config {
    var cfg := Config(true, CommandsOver(plugin, map[]), 0, 0, 0, false, 0);
    if plugin == "moderation" then cfg.(warningLimit := 3, timeoutThreshold := 3, timeoutMinutes := 10)
    else if plugin == "wellness" then cfg.(allowReminders := true)
    else cfg
  }

  function Normalized(plugin: string, cfg: Config): Config {
    var base := DefaultOf(plugin).(enabled := cfg.enabled, commands := CommandsOver(plugin, cfg.commands));
    if plugin == "moderation" then
      base.(warningLimit := Clamp(cfg.warningLimit, 1, 20, 3),
            timeoutThreshold := Clamp(cfg.timeoutThreshold, 1, 20, 3),
            timeoutMinutes := Clamp(cfg.timeoutMinutes, 1, 10080, 10))
    else if plugin == "wellness" then
      base.(allowReminders := cfg.allowReminders, reminderChannel := cfg.reminderChannel)
    else base
  }

  /** Decoding into a bool, an int or a uint64: null leaves the zero value. */
  function AsBool(j: Json): Option<bool> {
    match j case JNull => Some(false) case JBool(b) => Some(b) case _ => None
  }

  function AsInt(j: Json): Option<Int64> {
    match j
    case JNull => Some(0)
    case JNumber(n) => if -0x8000_0000_0000_0000 <= n < 0x8000_0000_0000_0000 then Some(n) else None
    case _ => None
  }

  function AsUint(j: Json): Option<Uint64> {
    match j
    case JNull => Some(0)
    case JNumber(n) => if 0 <= n < 0x1_0000_0000_0000_0000 then Some(n) else None
    case _ => None
  }

  /** Decoding into a map of bools fails as a whole when one member is not a bool. */
  function AsBools(j: Json): Option<map<string, bool>> {
    match j
    case JNull => Some(map[])
    case JObject(fields) =>
      if forall k :: k in fields ==> AsBool(fields[k]).Some? then
        Some(map k | k in fields :: if AsBool(fields[k]).Some? then AsBool(fields[k]).value else false)
      else None
    case _ => None
  }

  function Or<T>(o: Option<T>, fallback: T): T { if o.Some? then o.value else fallback }

  function Member<T>(payload: map<string, Json>, key: string, read: Json -> Option<T>, fallback: T): T {
    if key in payload then Or(read(payload[key]), fallback) else fallback
  }

  function Decoded(plugin: string, raw: Raw): Config {
    var cfg := DefaultOf(plugin);
    if !raw.Members? then cfg
    else
      var p := raw.payload;
      var common := cfg.(enabled := Member(p, "enabled", AsBool, cfg.enabled),
                         commands := CommandsOver(plugin, Member(p, "commands", AsBools, map[])));
      Normalized(plugin,
        if plugin == "moderation" then
          common.(warningLimit := Member(p, "warning_limit", AsInt, cfg.warningLimit),
                  timeoutThreshold := Member(p, "timeout_threshold", AsInt, cfg.timeoutThreshold),
                  timeoutMinutes := Member(p, "timeout_minutes", AsInt, cfg.timeoutMinutes))
        else if plugin == "wellness" then
          common.(allowReminders := Member(p, "allow_channel_reminders", AsBool, cfg.allowReminders),
                  reminderChannel := Member(p, "default_reminder_channel_id", AsUint, cfg.reminderChannel))
        else common)
  }

  /** `omitempty` leaves out a zero number and a false. */
  function Optional(payload: map<string, Json>, key: string, j: Json): map<string, Json> {
    if j == JNumber(0) || j == JBool(false) then payload else payload[key := j]
  }

  function Encoded(cfg: Config): Raw {
    var p0 := map["enabled" := JBool(cfg.enabled), "commands" := JObject(map c | c in cfg.commands :: JBool(cfg.commands[c]))];
    var p1 := Optional(p0, "warning_limit", JNumber(cfg.warningLimit));
    var p2 := Optional(p1, "timeout_threshold", JNumber(cfg.timeoutThreshold));
    var p3 := Optional(p2, "timeout_minutes", JNumber(cfg.timeoutMinutes));
    var p4 := Optional(p3, "allow_channel_reminders", JBool(cfg.allowReminders));
    Members(Optional(p4, "default_reminder_channel_id", JNumber(cfg.reminderChannel)))
  }

  // ----- The source's methods -----

  datatype Fault = InvalidTarget | StoreFailed

  /** The plugin key-value store, under the one key this package uses; a store may be out of order. */
  class Store {
    var data: map<(Uint64, string), Raw>
    var works: bool

    constructor ()
      ensures data == map[] && works
    {
      data, works := map[], true;
    }
  }

  function Fetch(data: map<(Uint64, string), Raw>, guild: Uint64, plugin: string): Raw {
    if (guild, plugin) in data then data[(guild, plugin)] else Blank
  }

  method Default(plugin: string) returns (cfg: Config)
    ensures cfg == DefaultOf(plugin)
  {
    var commands: map<string, bool> := map[];
    var names := PluginCommands(plugin);
    for i := 0 to |names|
      invariant commands == map c | c in names[..i] :: true
    {
      commands := commands[names[i] := true];
    }
    cfg := Config(true, commands, 0, 0, 0, false, 0);
    if plugin == "moderation" {
      cfg := cfg.(warningLimit := 3, timeoutThreshold := 3, timeoutMinutes := 10);
    } else if plugin == "wellness" {
      cfg := cfg.(allowReminders := true);
    }
  }

  /** The loop that Load and Normalize share: known commands take what is given. */
  method Overlay(plugin: string, commands: map<string, bool>, given: map<string, bool>) returns (merged: map<string, bool>)
    requires commands == CommandsOver(plugin, map[])
    ensures merged == CommandsOver(plugin, given)
  {
    merged := OverlayNames(PluginCommands(plugin), commands, given);
  }

  method OverlayNames(names: seq<string>, commands: map<string, bool>, given: map<string, bool>) returns (merged: map<string, bool>)
    requires commands == map c | c in names :: true
    ensures merged == map c | c in names :: if c in given then given[c] else true
  {
    merged := commands;
    for i := 0 to |names|
      invariant merged.Keys == commands.Keys
      invariant forall c :: c in merged ==> merged[c] == if c in names[..i] && c in given then given[c] else true
    {
      assert names[..i + 1] == names[..i] + [names[i]];
      if names[i] in given { merged := merged[names[i] := given[names[i]]]; }
    }
    assert names[..|names|] == names;
  }

  method Normalize(plugin: string, cfg: Config) returns (normalized: Config)
    ensures normalized == Normalized(plugin, cfg)
  {
    normalized := Default(plugin);
    var commands := Overlay(plugin, normalized.commands, cfg.commands);
    normalized := normalized.(enabled := cfg.enabled, commands := commands);
    if plugin == "moderation" {
      normalized := normalized.(warningLimit := Clamp(cfg.warningLimit, 1, 20, normalized.warningLimit));
      normalized := normalized.(timeoutThreshold := Clamp(cfg.timeoutThreshold, 1, 20, normalized.timeoutThreshold));
      normalized := normalized.(timeoutMinutes := Clamp(cfg.timeoutMinutes, 1, 10080, normalized.timeoutMinutes));
    } else if plugin == "wellness" {
      normalized := normalized.(allowReminders := cfg.allowReminders, reminderChannel := cfg.reminderChannel);
    }
  }

  method Load(store: Store?, guild: Uint64, plugin: string) returns (r: Result<Config, Fault>)
    ensures guild == 0 || plugin == "" ==> r == Ok(DefaultOf(plugin))
    ensures guild != 0 && plugin != "" ==>
              r == if store == null || !store.works then Err(StoreFailed) else Ok(Decoded(plugin, Fetch(store.data, guild, plugin)))
  {
    var cfg := Default(plugin);
    if guild == 0 || plugin == "" { return Ok(cfg); }
    if store == null || !store.works { return Err(StoreFailed); }
    var raw := Fetch(store.data, guild, plugin);
    if !raw.Members? { return Ok(cfg); }
    var p := raw.payload;
    if "enabled" in p {
      var enabled := AsBool(p["enabled"]);
      if enabled.Some? { cfg := cfg.(enabled := enabled.value); }
    }
    if "commands" in p {
      var commands := AsBools(p["commands"]);
      if commands.Some? {
        var merged := Overlay(plugin, cfg.commands, commands.value);
        cfg := cfg.(commands := merged);
      }
    }
    if plugin == "moderation" {
      cfg := cfg.(warningLimit := Member(p, "warning_limit", AsInt, cfg.warningLimit));
      cfg := cfg.(timeoutThreshold := Member(p, "timeout_threshold", AsInt, cfg.timeoutThreshold));
      cfg := cfg.(timeoutMinutes := Member(p, "timeout_minutes", AsInt, cfg.timeoutMinutes));
    } else if plugin == "wellness" {
      cfg := cfg.(allowReminders := Member(p, "allow_channel_reminders", AsBool, cfg.allowReminders));
      cfg := cfg.(reminderChannel := Member(p, "default_reminder_channel_id", AsUint, cfg.reminderChannel));
    }
    cfg := Normalize(plugin, cfg);
    return Ok(cfg);
  }

  method Save(store: Store?, guild: Uint64, plugin: string, cfg: Config) returns (r: Result<Config, Fault>)
    modifies store
    ensures store != null ==> store.works == old(store.works)
    ensures guild == 0 || plugin == "" ==> r == Err(InvalidTarget)
    ensures guild != 0 && plugin != "" ==>
              r == if store == null || !store.works then Err(StoreFailed) else Ok(Normalized(plugin, cfg))
    ensures store != null ==>
              store.data == if r.Ok? then old(store.data)[(guild, plugin) := Encoded(r.value)] else old(store.data)
  {
    if guild == 0 || plugin == "" { return Err(InvalidTarget); }
    if store == null || !store.works { return Err(StoreFailed); }
    var normalized := Normalize(plugin, cfg);
    store.data := store.data[(guild, plugin) := Encoded(normalized)];
    return Ok(normalized);
  }

  method CommandEnabled(store: Store?, guild: Uint64, plugin: string, command: string) returns (r: Result<bool, Fault>)
    ensures guild == 0 || plugin == "" ==> r == Ok(true)
    ensures guild != 0 && plugin != "" && (store == null || !store.works) ==> r == Err(StoreFailed)
    ensures guild != 0 && plugin != "" && store != null && store.works ==>
              r == Ok(Allows(Decoded(plugin, Fetch(store.data, guild, plugin)), command))
  {
    var cfg := Load(store, guild, plugin);
    if cfg.Err? { return Err(cfg.error); }
    if !cfg.value.enabled { return Ok(false); }
    if command !in cfg.value.commands { return Ok(true); }
    return Ok(cfg.value.commands[command]);
  }

  function Allows(cfg: Config, command: string): bool {
    cfg.enabled && (command in cfg.commands ==> cfg.commands[command])
  }

  // ----- The main results -----

  /** Normalizing again changes nothing. */
  lemma NormalizedIsFixed(plugin: string, cfg: Config)
    ensures Normalized(plugin, Normalized(plugin, cfg)) == Normalized(plugin, cfg)
  {
    var once := Normalized(plugin, cfg);
    assert CommandsOver(plugin, once.commands) == once.commands;
  }

  ghost predicate InRange(plugin: string, cfg: Config) {
    && cfg.commands.Keys == (set c | c in PluginCommands(plugin))
    && (if plugin == "moderation" then 1 <= cfg.warningLimit <= 20 && 1 <= cfg.timeoutThreshold <= 20 && 1 <= cfg.timeoutMinutes <= 10080
        else cfg.warningLimit == 0 && cfg.timeoutThreshold == 0 && cfg.timeoutMinutes == 0)
    && (plugin != "wellness" ==> !cfg.allowReminders && cfg.reminderChannel == 0)
  }

  /** Whatever the store holds, what is loaded has exactly the plugin's commands, values in their
      ranges, and no setting of another plugin. */
  lemma LoadedInRange(plugin: string, raw: Raw)
    ensures InRange(plugin, Decoded(plugin, raw))
  {
    assert CommandsOver(plugin, map[]).Keys == (set c | c in PluginCommands(plugin));
  }

  lemma CommandsRead(commands: map<string, bool>)
    ensures AsBools(JObject(map c | c in commands :: JBool(commands[c]))) == Some(commands)
  {
    var fields := map c | c in commands :: JBool(commands[c]);
    assert AsBools(JObject(fields)).value == commands;
  }

  /** A number or a flag of the saved text is there when it is not zero, and reads back as itself. */
  lemma EncodedNumbers(cfg: Config)
    ensures var p := Encoded(cfg).payload;
            && ("warning_limit" in p <==> cfg.warningLimit != 0)
            && (cfg.warningLimit != 0 ==> p["warning_limit"] == JNumber(cfg.warningLimit))
            && ("timeout_threshold" in p <==> cfg.timeoutThreshold != 0)
            && (cfg.timeoutThreshold != 0 ==> p["timeout_threshold"] == JNumber(cfg.timeoutThreshold))
            && ("timeout_minutes" in p <==> cfg.timeoutMinutes != 0)
            && (cfg.timeoutMinutes != 0 ==> p["timeout_minutes"] == JNumber(cfg.timeoutMinutes))
  {
  }

  lemma EncodedRest(cfg: Config)
    ensures var p := Encoded(cfg).payload;
            && "enabled" in p && p["enabled"] == JBool(cfg.enabled)
            && "commands" in p && p["commands"] == JObject(map c | c in cfg.commands :: JBool(cfg.commands[c]))
            && ("allow_channel_reminders" in p <==> cfg.allowReminders)
            && (cfg.allowReminders ==> p["allow_channel_reminders"] == JBool(true))
            && ("default_reminder_channel_id" in p <==> cfg.reminderChannel != 0)
            && (cfg.reminderChannel != 0 ==> p["default_reminder_channel_id"] == JNumber(cfg.reminderChannel))
  {
  }

  /** Loading what was saved gives the normalized configuration, except that for wellness a refusal of
      channel reminders is left out of the text and comes back as the default, true. */
  lemma SaveThenLoad(plugin: string, cfg: Config)
    ensures Decoded(plugin, Encoded(Normalized(plugin, cfg))) ==
            if plugin == "wellness" then Normalized(plugin, cfg).(allowReminders := true) else Normalized(plugin, cfg)
    ensures Decoded(plugin, Encoded(Normalized(plugin, cfg))) == Normalized(plugin, cfg) <==>
              !(plugin == "wellness" && !cfg.allowReminders)
  {
    var saved := Normalized(plugin, cfg);
    EncodedNumbers(saved);
    EncodedRest(saved);
    CommandsRead(saved.commands);
    NormalizedIsFixed(plugin, cfg);
    assert CommandsOver(plugin, saved.commands) == saved.commands;
  }

  /** A command is enabled after saving just when the plugin and, if it is one of its own, the command
      were: neither range nor encoding touches that. */
  lemma SavedCommands(plugin: string, cfg: Config, command: string)
    ensures Allows(Decoded(plugin, Encoded(Normalized(plugin, cfg))), command) <==>
              cfg.enabled && (command in PluginCommands(plugin) && command in cfg.commands ==> cfg.commands[command])
  {
    SaveThenLoad(plugin, cfg);
  }

  // ----- Field by field -----

  /** A number as normalized: itself within its bounds, the nearer bound outside, the default for 0. */
  predicate SettledTo(given: int, result: int, min: int, max: int, default: int) {
    && (given == 0 ==> result == default)
    && (given != 0 && min <= given <= max ==> result == given)
    && (given != 0 && given < min ==> result == min)
    && (given > max ==> result == max)
  }

  /** Each setting comes from the setting of the same name. */
  ghost predicate NormalizedFrom(plugin: string, cfg: Config, n: Config) {
    && n.enabled == cfg.enabled
    && n.commands.Keys == (set c | c in PluginCommands(plugin))
    && (forall c :: c in n.commands ==> n.commands[c] == (c in cfg.commands ==> cfg.commands[c]))
    && (if plugin == "moderation"
        then SettledTo(cfg.warningLimit, n.warningLimit, 1, 20, 3) && SettledTo(cfg.timeoutThreshold, n.timeoutThreshold, 1, 20, 3)
             && SettledTo(cfg.timeoutMinutes, n.timeoutMinutes, 1, 10080, 10)
        else n.warningLimit == 0 && n.timeoutThreshold == 0 && n.timeoutMinutes == 0)
    && (if plugin == "wellness"
        then n.allowReminders == cfg.allowReminders && n.reminderChannel == cfg.reminderChannel
        else !n.allowReminders && n.reminderChannel == 0)
  }

  lemma NormalizedFields(plugin: string, cfg: Config)
    ensures NormalizedFrom(plugin, cfg, Normalized(plugin, cfg)) && InRange(plugin, Normalized(plugin, cfg))
  {
    var n := CommandsOver(plugin, cfg.commands);
    assert n.Keys == (set c | c in PluginCommands(plugin));
  }

  /** A configuration is left alone exactly when it is in range. */
  lemma InRangeIsKept(plugin: string, cfg: Config)
    ensures Normalized(plugin, cfg) == cfg <==> InRange(plugin, cfg)
  {
    NormalizedFields(plugin, cfg);
    var n := Normalized(plugin, cfg);
    if InRange(plugin, cfg) {
      assert n.commands.Keys == cfg.commands.Keys;
      assert n.commands == cfg.commands;
    }
  }

  /** So a configuration in range is loaded as it was saved, wellness refusals of reminders apart. */
  lemma SavedInRange(plugin: string, cfg: Config)
    requires InRange(plugin, cfg)
    ensures Decoded(plugin, Encoded(Normalized(plugin, cfg))) == if plugin == "wellness" then cfg.(allowReminders := true) else cfg
  {
    InRangeIsKept(plugin, cfg);
    SaveThenLoad(plugin, cfg);
  }

  /** The defaults are what an empty configuration is normalized to. */
  lemma DefaultsAreNormal(plugin: string)
    ensures DefaultOf(plugin) == Normalized(plugin, Config(true, map[], 0, 0, 0, plugin == "wellness", 0))
    ensures Decoded(plugin, Blank) == Decoded(plugin, Malformed) == DefaultOf(plugin)
  {
  }

  // ----- What is read from a text -----

  /** A flag: its value, false for null, and as before when it is absent or something else. */
  predicate FlagRead(p: map<string, Json>, key: string, before: bool, r: bool) {
    if key in p && p[key].JBool? then r == p[key].value else if key in p && p[key].JNull? then !r else r == before
  }

  /** A number that fits: its value, 0 for null; anything else counts as absent. */
  function NumberIn(p: map<string, Json>, key: string, min: int, max: int, before: int): int {
    if key in p && p[key].JNumber? && min <= p[key].number <= max then p[key].number
    else if key in p && p[key].JNull? then 0
    else before
  }

  /** The commands of a text count only when each of its members is a flag or null. */
  ghost predicate CommandsReadable(p: map<string, Json>) {
    "commands" in p && p["commands"].JObject?
    && forall c :: c in p["commands"].fields ==> p["commands"].fields[c].JBool? || p["commands"].fields[c].JNull?
  }

  ghost predicate CommandRead(p: map<string, Json>, c: string, r: bool) {
    if CommandsReadable(p) && c in p["commands"].fields then FlagRead(p["commands"].fields, c, true, r) else r
  }

  const MIN_INT := -0x8000_0000_0000_0000
  const MAX_INT := 0x7fff_ffff_ffff_ffff
  const MAX_UINT := 0xffff_ffff_ffff_ffff

  /** What is loaded from the members of a text, each from the member of its name. */
  ghost predicate ReadFrom(plugin: string, p: map<string, Json>, r: Config) {
    && FlagRead(p, "enabled", true, r.enabled)
    && r.commands.Keys == (set c | c in PluginCommands(plugin)) && (forall c :: c in r.commands ==> CommandRead(p, c, r.commands[c]))
    && SettingsReadFrom(plugin, p, r)
  }

  ghost predicate SettingsReadFrom(plugin: string, p: map<string, Json>, r: Config) {
    && (if plugin == "moderation"
        then SettledTo(NumberIn(p, "warning_limit", MIN_INT, MAX_INT, 3), r.warningLimit, 1, 20, 3)
             && SettledTo(NumberIn(p, "timeout_threshold", MIN_INT, MAX_INT, 3), r.timeoutThreshold, 1, 20, 3)
             && SettledTo(NumberIn(p, "timeout_minutes", MIN_INT, MAX_INT, 10), r.timeoutMinutes, 1, 10080, 10)
        else r.warningLimit == 0 && r.timeoutThreshold == 0 && r.timeoutMinutes == 0)
    && (if plugin == "wellness"
        then FlagRead(p, "allow_channel_reminders", true, r.allowReminders)
             && r.reminderChannel == NumberIn(p, "default_reminder_channel_id", 0, MAX_UINT, 0)
        else !r.allowReminders && r.reminderChannel == 0)
  }

  /** Whatever the text, each setting is read from its own member, and a member of a wrong type counts as absent. */
  lemma LoadedFields(plugin: string, p: map<string, Json>)
    ensures ReadFrom(plugin, p, Decoded(plugin, Members(p)))
  {
    var r := Decoded(plugin, Members(p));
    assert r.commands == CommandsOver(plugin, Member(p, "commands", AsBools, map[])) by { CommandsTwice(plugin, Member(p, "commands", AsBools, map[])); }
    assert CommandsOver(plugin, Member(p, "commands", AsBools, map[])).Keys == (set c | c in PluginCommands(plugin));
    forall c | c in r.commands ensures CommandRead(p, c, r.commands[c]) { CommandIsRead(plugin, p, c); }
    SettingsRead(plugin, p);
  }

  lemma SettingsRead(plugin: string, p: map<string, Json>)
    ensures SettingsReadFrom(plugin, p, Decoded(plugin, Members(p)))
  {
  }

  lemma CommandsTwice(plugin: string, given: map<string, bool>)
    ensures CommandsOver(plugin, CommandsOver(plugin, given)) == CommandsOver(plugin, given)
  {
  }

  lemma CommandIsRead(plugin: string, p: map<string, Json>, c: string)
    requires c in PluginCommands(plugin)
    ensures CommandRead(p, c, CommandsOver(plugin, Member(p, "commands", AsBools, map[]))[c])
  {
    if "commands" in p && p["commands"].JObject? {
      var fields := p["commands"].fields;
      assert (forall k :: k in fields ==> AsBool(fields[k]).Some?) <==> CommandsReadable(p);
    }
  }
}
