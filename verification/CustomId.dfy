/** `customid`: the ids of Discord components that belong to plugins, printed and parsed. */
module CustomId {
  import opened Wrappers
  import opened GoText

  const PREFIX := "mamacord:pl:"
  const MAX_BYTES: nat := 100

  /** `^[a-z][a-z0-9-]{0,63}$` */
  predicate ValidPluginId(id: string) {
    1 <= |id| <= 64 && LowerAlpha(id[0]) && forall i :: 1 <= i < |id| ==> LowerAlpha(id[i]) || Digit(id[i]) || id[i] == '-'
  }

  /** `^[a-z][a-z0-9_.-]{0,63}$` */
  predicate ValidLocalId(id: string) {
    1 <= |id| <= 64 && LowerAlpha(id[0]) && forall i :: 1 <= i < |id| ==> IdChar(id[i])
  }

  function Build(plugin: string, local: string): Option<string> {
    if plugin != TrimSpace(plugin) || local != TrimSpace(local) || !ValidPluginId(plugin) || !ValidLocalId(local) then None
    else if plugin == "" || local == "" then None
    else if ':' in plugin || ':' in local then None
    else
      var out := PREFIX + plugin + ":" + local;
      if ByteLen(out) > MAX_BYTES then None else Some(out)
  }

  function Parse(id: string): Option<(string, string)> {
    if id != TrimSpace(id) || ByteLen(id) > MAX_BYTES then None
    else if !(PREFIX <= id) then None
    else ParseSegments(id[|PREFIX|..])
  }

  function ParseSegments(rest: string): Option<(string, string)> {
    var parts := Split(rest, ':');
    if |parts| != 2 then None
    else
      var plugin, local := TrimSpace(parts[0]), TrimSpace(parts[1]);
      if !ValidPluginId(plugin) || !ValidLocalId(local) then None
      else if ':' in plugin || ':' in local then None
      else Some((plugin, local))
  }

  // ----- Valid ids -----

  lemma IdHasNoSpaceOrColon(id: string)
    requires ValidPluginId(id) || ValidLocalId(id)
    ensures ':' !in id && Trimmed(id, IsSpace) && TrimSpace(id) == id
  {
    assert forall i :: 0 <= i < |id| ==> IdChar(id[i]);
    TrimmedIsFixed(id, IsSpace);
  }

  predicate Ascii(s: string) { forall i :: 0 <= i < |s| ==> s[i] as int < 0x80 }

  lemma {:induction false} AsciiBytes(s: string)
    requires Ascii(s)
    ensures ByteLen(s) == |s|
  {
    if s != [] { AsciiBytes(s[1..]); }
  }

  // ----- Splitting at colons -----

  lemma {:induction false} SplitHead(s: string, c: char)
    requires |Split(s, c)| > 1
    ensures c !in Split(s, c)[0] && exists b :: s == Split(s, c)[0] + [c] + b
  {
    if s[0] == c {
      assert s == [] + [c] + s[1..];
    } else {
      SplitHead(s[1..], c);
      var b :| s[1..] == Split(s[1..], c)[0] + [c] + b;
      assert s == [s[0]] + s[1..];
      assert s == ([s[0]] + Split(s[1..], c)[0]) + [c] + b;
    }
  }

  /** Two parts mean one colon, between them. */
  lemma SplitTwo(s: string, c: char)
    requires |Split(s, c)| == 2
    ensures var parts := Split(s, c); s == parts[0] + [c] + parts[1] && c !in parts[0] && c !in parts[1]
  {
    SplitHead(s, c);
    var b :| s == Split(s, c)[0] + [c] + b;
    SplitOnce(Split(s, c)[0], c, b);
    SplitFree(b, c);
  }

  // ----- The main results -----

  /** `Build` succeeds exactly on valid ids that are short enough together. */
  lemma BuildsExactly(plugin: string, local: string)
    ensures Build(plugin, local).Some? <==> ValidPluginId(plugin) && ValidLocalId(local) && |plugin| + |local| <= 87
    ensures Build(plugin, local).Some? ==> Build(plugin, local).value == PREFIX + plugin + ":" + local
  {
    if ValidPluginId(plugin) && ValidLocalId(local) {
      IdHasNoSpaceOrColon(plugin);
      IdHasNoSpaceOrColon(local);
      BuiltBytes(plugin, local);
    }
  }

  lemma PrefixAscii()
    ensures Ascii(PREFIX) && |PREFIX| == 12 && Ascii(":")
  {
  }

  lemma IdAscii(id: string)
    requires ValidPluginId(id) || ValidLocalId(id)
    ensures Ascii(id)
  {
  }

  lemma BuiltBytes(plugin: string, local: string)
    requires ValidPluginId(plugin) && ValidLocalId(local)
    ensures ByteLen(PREFIX + plugin + ":" + local) == 13 + |plugin| + |local|
  {
    PrefixAscii();
    IdAscii(plugin);
    IdAscii(local);
    AsciiTogether(PREFIX, plugin, ":", local);
  }

  lemma AsciiTogether(prefix: string, plugin: string, mid: string, local: string)
    requires Ascii(prefix) && Ascii(plugin) && Ascii(mid) && Ascii(local)
    ensures ByteLen(prefix + plugin + mid + local) == |prefix| + |plugin| + |mid| + |local|
  {
    AsciiBytes(prefix + plugin + mid + local);
  }

  /** Parsing what was built gives the ids back. */
  lemma ParseBuilt(plugin: string, local: string)
    requires Build(plugin, local).Some?
    ensures Parse(Build(plugin, local).value) == Some((plugin, local))
  {
    var id := Build(plugin, local).value;
    assert id[|PREFIX|..] == plugin + ":" + local;
    SplitOnce(plugin, ':', local);
    SplitFree(local, ':');
    IdHasNoSpaceOrColon(local);
    assert id[0] == 'm' && id[|id| - 1] == local[|local| - 1];
    TrimmedIsFixed(id, IsSpace);
  }

  /** So no two pairs of ids build the same custom id. */
  lemma BuildInjective(plugin: string, local: string, plugin': string, local': string)
    requires Build(plugin, local).Some? && Build(plugin, local) == Build(plugin', local')
    ensures plugin == plugin' && local == local'
  {
    ParseBuilt(plugin, local);
    ParseBuilt(plugin', local');
  }

  /** `id` is the ids in canonical form but for whitespace around the plugin id and before the local one. */
  ghost predicate Spaced(id: string, plugin: string, local: string) {
    exists a, b, c :: AllSpace(a, IsSpace) && AllSpace(b, IsSpace) && AllSpace(c, IsSpace)
                      && id == PREFIX + (a + plugin + b) + ":" + (c + local)
  }

  /** What parses to (plugin, local): exactly the ids of at most 100 bytes that are the canonical id,
      which `Build` then yields, with whitespace around the two segments. */
  lemma ParsesExactly(id: string, plugin: string, local: string)
    ensures Parse(id) == Some((plugin, local)) <==>
              Spaced(id, plugin, local) && ByteLen(id) <= MAX_BYTES && Build(plugin, local) == Some(PREFIX + plugin + ":" + local)
  {
    if Parse(id) == Some((plugin, local)) { ParsedIsSpaced(id, plugin, local); }
    if Spaced(id, plugin, local) && ByteLen(id) <= MAX_BYTES && Build(plugin, local).Some? {
      SpacedParses(id, plugin, local);
    }
  }

  lemma SpaceAtEnd(front: string, d: string)
    requires AllSpace(d, IsSpace)
    ensures d != [] ==> !Trimmed(front + d, IsSpace)
  {
    if d != [] {
      assert (front + d)[|front + d| - 1] == d[|d| - 1];
    }
  }

  lemma ParsedIsSpaced(id: string, plugin: string, local: string)
    requires Parse(id) == Some((plugin, local))
    ensures Spaced(id, plugin, local) && Build(plugin, local) == Some(PREFIX + plugin + ":" + local)
  {
    var rest := id[|PREFIX|..];
    var parts := Split(rest, ':');
    SplitTwo(rest, ':');
    assert id == PREFIX + rest;
    var a, b := TrimSplits(parts[0], IsSpace);
    var c, d := TrimSplits(parts[1], IsSpace);
    TrimmedIsFixed(id, IsSpace);
    SpaceAtEnd(PREFIX + parts[0] + ":" + (c + local), d);
    assert id == PREFIX + parts[0] + ":" + (c + local) + d;
    assert parts[0] == a + plugin + b;
    assert parts[1] == c + local;
    assert id == PREFIX + (a + plugin + b) + ":" + (c + local);
    ShorterBuilds(a, plugin, b, c, local);
  }

  /** Taking whitespace out only makes an id shorter. */
  lemma Shorter(prefix: string, a: string, plugin: string, b: string, mid: string, c: string, local: string)
    ensures ByteLen(prefix + plugin + mid + local) <= ByteLen(prefix + (a + plugin + b) + mid + (c + local))
  {
    ByteLenAppend(prefix + (a + plugin + b) + mid, c + local);
    ByteLenAppend(prefix + (a + plugin + b), mid);
    ByteLenAppend(prefix, a + plugin + b);
    ByteLenAppend(a + plugin, b);
    ByteLenAppend(a, plugin);
    ByteLenAppend(c, local);
    ByteLenAppend(prefix + plugin + mid, local);
    ByteLenAppend(prefix + plugin, mid);
    ByteLenAppend(prefix, plugin);
  }

  lemma ShorterBuilds(a: string, plugin: string, b: string, c: string, local: string)
    requires ValidPluginId(plugin) && ValidLocalId(local)
    requires ByteLen(PREFIX + (a + plugin + b) + ":" + (c + local)) <= MAX_BYTES
    ensures Build(plugin, local) == Some(PREFIX + plugin + ":" + local)
  {
    Shorter(PREFIX, a, plugin, b, ":", c, local);
    IdHasNoSpaceOrColon(plugin);
    IdHasNoSpaceOrColon(local);
  }

  lemma SpacedParses(id: string, plugin: string, local: string)
    requires Spaced(id, plugin, local) && ByteLen(id) <= MAX_BYTES && ValidPluginId(plugin) && ValidLocalId(local)
    ensures Parse(id) == Some((plugin, local))
  {
    var a, b, c :| AllSpace(a, IsSpace) && AllSpace(b, IsSpace) && AllSpace(c, IsSpace)
                   && id == PREFIX + (a + plugin + b) + ":" + (c + local);
    IdHasNoSpaceOrColon(plugin);
    IdHasNoSpaceOrColon(local);
    SegmentsSplit(a, plugin, b, c, local);
    assert ParseSegments(a + plugin + b + ":" + (c + local)) == Some((plugin, local));
    SegmentsParse(id, PREFIX, a + plugin + b, ":", c, local);
  }

  lemma SegmentsParse(id: string, prefix: string, left: string, mid: string, c: string, local: string)
    requires prefix == PREFIX && id == prefix + left + mid + (c + local) && ByteLen(id) <= MAX_BYTES
    requires local != [] && Trimmed(local, IsSpace)
    ensures Parse(id) == ParseSegments(left + mid + (c + local))
  {
    AfterPrefix(prefix, left, mid, c + local);
    assert id[|id| - 1] == local[|local| - 1];
    TrimmedIsFixed(id, IsSpace);
  }

  lemma AfterPrefix(prefix: string, left: string, mid: string, right: string)
    requires prefix != []
    ensures var id := prefix + left + mid + right; prefix <= id && id[|prefix|..] == left + mid + right && id[0] == prefix[0]
  {
  }

  lemma SegmentsSplit(a: string, plugin: string, b: string, c: string, local: string)
    requires AllSpace(a, IsSpace) && AllSpace(b, IsSpace) && AllSpace(c, IsSpace)
    requires ':' !in plugin && ':' !in local && Trimmed(plugin, IsSpace) && Trimmed(local, IsSpace)
    ensures Split(a + plugin + b + ":" + (c + local), ':') == [a + plugin + b, c + local]
    ensures TrimSpace(a + plugin + b) == plugin && TrimSpace(c + local) == local
  {
    SplitOnce(a + plugin + b, ':', c + local);
    SplitFree(c + local, ':');
    TrimOf(a, plugin, b, IsSpace);
    TrimOf(c, local, [], IsSpace);
    assert c + local + [] == c + local;
  }
}
