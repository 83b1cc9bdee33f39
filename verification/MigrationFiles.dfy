/** `loadDefinitions`: the migrations of a directory. A checksum stands for its file's bytes: SHA-256
    is taken to be injective. */
module MigrationFiles {
  import opened Wrappers
  import opened GoText

  datatype Kind = Normal | Destructive

  /** A directory entry; `bytes` is None when the file cannot be read. */
  datatype Entry = Entry(isDir: bool, name: string, bytes: Option<string>)

  datatype Migration = Migration(version: nat, name: string, kind: Kind, filename: string, sql: string, checksum: string)

  datatype Fault =
    | UnsupportedFilename(name: string)
    | DuplicateVersion(version: nat)
    | NotContiguous(expected: nat, found: nat)
    | Unreadable(name: string)
    | EmptyFile(name: string)
    | BadKind(name: string)

  function HasSuffix(s: string, suffix: string): bool {
    |suffix| <= |s| && s[|s| - |suffix|..] == suffix
  }

  function HasPrefix(s: string, prefix: string): bool {
    |prefix| <= |s| && s[..|prefix|] == prefix
  }

  function DigitValue(c: char): nat
    requires Digit(c)
  {
    c as nat - '0' as nat
  }

  /** `^(\d{3})_(.+)\.up\.sql$`: the version and the name. */
  function ParseName(name: string): (parsed: Option<(nat, string)>)
    ensures parsed.Some? ==> name != ""
  {
    if |name| >= 12 && Digit(name[0]) && Digit(name[1]) && Digit(name[2]) && name[3] == '_'
       && HasSuffix(name, ".up.sql") && '\n' !in name[4..|name| - 7]
    then Some((100 * DigitValue(name[0]) + 10 * DigitValue(name[1]) + DigitValue(name[2]), name[4..|name| - 7]))
    else None
  }

  /** The kind in the header comment: the first line that is not blank. */
  function KindOfLines(lines: seq<string>): Option<Kind> {
    if lines == [] then None
    else
      var line := TrimSpace(lines[0]);
      if line == "" then KindOfLines(lines[1..])
      else if !HasPrefix(line, "--") then None
      else
        var header := TrimSpace(line[2..]);
        if !HasPrefix(header, "migrate:kind=") then None
        else
          var kind := TrimSpace(header[13..]);
          if kind == "normal" then Some(Normal) else if kind == "destructive" then Some(Destructive) else None
  }

  /** Reads one file into a definition. */
  function ReadMigration(version: nat, e: Entry): Result<Migration, Fault> {
    if e.bytes.None? then Err(Unreadable(e.name))
    else
      var sql := TrimSpace(e.bytes.value);
      if sql == "" then Err(EmptyFile(e.name))
      else
        var kind := KindOfLines(Split(sql, '\n'));
        if kind.None? then Err(BadKind(e.name))
        else
          var name := if ParseName(e.name).Some? then ParseName(e.name).value.1 else "";
          Ok(Migration(version, name, kind.value, e.name, sql, e.bytes.value))
  }

  /** A name parses to a version and a name exactly when it is written so. */
  lemma ParsesExactly(file: string, version: nat, name: string)
    ensures ParseName(file) == Some((version, name)) <==>
              name != "" && '\n' !in name && version < 1000
              && exists a, b, c :: Digit(a) && Digit(b) && Digit(c) && version == 100 * DigitValue(a) + 10 * DigitValue(b) + DigitValue(c)
                                   && file == [a, b, c] + "_" + name + ".up.sql"
  {
    if ParseName(file) == Some((version, name)) {
      var front := [file[0], file[1], file[2]];
      assert file == front + "_" + name + ".up.sql";
    }
    if a, b, c :| name != "" && '\n' !in name && Digit(a) && Digit(b) && Digit(c)
                  && version == 100 * DigitValue(a) + 10 * DigitValue(b) + DigitValue(c) && file == [a, b, c] + "_" + name + ".up.sql" {
      assert file[|file| - 7..] == ".up.sql" && file[4..|file| - 7] == name;
    }
  }

  /** The line `i` is the first that is not blank, and a comment that declares this kind. */
  ghost predicate Declares(lines: seq<string>, i: int, kind: Kind) {
    && 0 <= i < |lines| && TrimSpace(lines[i]) != "" && (forall j :: 0 <= j < i ==> TrimSpace(lines[j]) == "")
    && exists header, word :: TrimSpace(lines[i]) == "--" + header && TrimSpace(header) == "migrate:kind=" + word
                              && TrimSpace(word) == if kind.Normal? then "normal" else "destructive"
  }

  lemma {:induction false} KindIsDeclared(lines: seq<string>, kind: Kind)
    ensures KindOfLines(lines) == Some(kind) <==> exists i :: Declares(lines, i, kind)
    decreases |lines|
  {
    if lines != [] {
      if TrimSpace(lines[0]) == "" {
        KindIsDeclared(lines[1..], kind);
        if i :| Declares(lines, i, kind) { assert lines[1..][i - 1] == lines[i]; assert Declares(lines[1..], i - 1, kind); }
        if i :| Declares(lines[1..], i, kind) { assert lines[1..][i] == lines[i + 1]; assert Declares(lines, i + 1, kind); }
      } else {
        HeaderDeclares(lines, kind);
      }
    }
  }

  lemma HeaderDeclares(lines: seq<string>, kind: Kind)
    requires lines != [] && TrimSpace(lines[0]) != ""
    ensures KindOfLines(lines) == Some(kind) <==> Declares(lines, 0, kind)
    ensures forall i :: Declares(lines, i, kind) ==> i == 0
  {
    var line := TrimSpace(lines[0]);
    if KindOfLines(lines) == Some(kind) {
      var header := line[2..];
      var word := TrimSpace(header)[13..];
      assert line == "--" + header && TrimSpace(header) == "migrate:kind=" + word;
    }
    if Declares(lines, 0, kind) {
      var header, word :| line == "--" + header && TrimSpace(header) == "migrate:kind=" + word
                          && TrimSpace(word) == if kind.Normal? then "normal" else "destructive";
      assert line[2..] == header && TrimSpace(header)[13..] == word;
    }
  }

  /** What one entry is to the loader: nothing, a misnamed file, or a version with the definition in
      its file, if that can be read. */
  datatype Reading = Ignored | Misnamed(name: string) | File(version: nat, def: Result<Migration, Fault>)

  function ReadEntry(e: Entry): Reading {
    if e.isDir || !HasSuffix(ToLower(e.name), ".sql") then Ignored
    else
      var parsed := ParseName(e.name);
      if parsed.None? then Misnamed(e.name) else File(parsed.value.0, ReadMigration(parsed.value.0, e))
  }

  /** Why a file is not read: its bytes, its text or its header is missing, in this order. */
  lemma ReadFaults(e: Entry, version: nat, fault: Fault)
    ensures ReadEntry(e) == File(version, Err(fault)) <==>
              && SqlFile(e, version)
              && match fault
                 case Unreadable(file) => file == e.name && e.bytes.None?
                 case EmptyFile(file) => file == e.name && e.bytes.Some? && AllSpace(e.bytes.value, IsSpace)
                 case BadKind(file) =>
                   && file == e.name && e.bytes.Some? && !AllSpace(e.bytes.value, IsSpace)
                   && forall kind, i :: !Declares(Split(TrimSpace(e.bytes.value), '\n'), i, kind)
                 case _ => false
  {
    if e.bytes.Some? {
      BlankIff(e.bytes.value);
      Undeclared(Split(TrimSpace(e.bytes.value), '\n'));
    }
    assert ReadEntry(e) == File(version, Err(fault)) <==> SqlFile(e, version) && ReadMigration(version, e) == Err(fault);
    match fault {
      case BadKind(file) => assert ReadMigration(version, e) == Err(fault) <==> file == e.name && e.bytes.Some? && TrimSpace(e.bytes.value) != "" && KindOfLines(Split(TrimSpace(e.bytes.value), '\n')).None?;
      case _ =>
    }
  }

  predicate SqlFile(e: Entry, version: nat) {
    !e.isDir && HasSuffix(ToLower(e.name), ".sql") && ParseName(e.name).Some? && ParseName(e.name).value.0 == version
  }

  lemma Undeclared(lines: seq<string>)
    ensures KindOfLines(lines).None? <==> forall kind, i :: !Declares(lines, i, kind)
  {
    if KindOfLines(lines).Some? {
      KindIsDeclared(lines, KindOfLines(lines).value);
      var i :| Declares(lines, i, KindOfLines(lines).value);
    } else {
      forall kind, i | Declares(lines, i, kind) ensures false { KindIsDeclared(lines, kind); }
    }
  }

  lemma BlankIff(s: string)
    ensures TrimSpace(s) == "" <==> AllSpace(s, IsSpace)
  {
    var lead, trail := TrimSplits(s, IsSpace);
    if AllSpace(s, IsSpace) { AllSpaceTrimsAway(s, IsSpace); }
  }

  /** A file is read to a definition exactly when it is named so, is not blank and declares a kind. */
  lemma ReadExactly(e: Entry, version: nat, def: Migration)
    ensures ReadEntry(e) == File(version, Ok(def)) <==>
              && !e.isDir && HasSuffix(ToLower(e.name), ".sql") && e.bytes.Some? && TrimSpace(e.bytes.value) != ""
              && def.version == version && def.filename == e.name && def.sql == TrimSpace(e.bytes.value) && def.checksum == e.bytes.value
              && ParseName(e.name) == Some((version, def.name)) && KindOfLines(Split(TrimSpace(e.bytes.value), '\n')) == Some(def.kind)
  {
  }

  function ReadAll(entries: seq<Entry>): seq<Reading> {
    seq(|entries|, i requires 0 <= i < |entries| => ReadEntry(entries[i]))
  }

  // ----- What loading computes -----

  type Table = map<nat, Result<Migration, Fault>>

  function Scan(readings: seq<Reading>, table: Table): Result<Table, Fault> {
    if readings == [] then Ok(table)
    else match readings[0]
      case Ignored => Scan(readings[1..], table)
      case Misnamed(name) => Err(UnsupportedFilename(name))
      case File(version, def) =>
        if version in table then Err(DuplicateVersion(version)) else Scan(readings[1..], table[version := def])
  }

  function Collect(table: Table, versions: seq<nat>, expected: nat): Result<seq<Migration>, Fault>
    requires forall v :: v in versions ==> v in table
  {
    if versions == [] then Ok([])
    else if versions[0] != expected then Err(NotContiguous(expected, versions[0]))
    else if table[expected].Err? then Err(table[expected].error)
    else Before([table[expected].value], Collect(table, versions[1..], expected + 1))
  }

  function Before(defs: seq<Migration>, rest: Result<seq<Migration>, Fault>): Result<seq<Migration>, Fault> {
    if rest.Ok? then Ok(defs + rest.value) else rest
  }

  lemma BeforeBefore(a: seq<Migration>, b: seq<Migration>, rest: Result<seq<Migration>, Fault>)
    ensures Before(a, Before(b, rest)) == Before(a + b, rest) && Before([], rest) == rest && Before(a, Ok([])) == Ok(a)
  {
    if rest.Ok? { assert a + (b + rest.value) == a + b + rest.value; assert [] + rest.value == rest.value; }
    assert a + [] == a;
  }

  /** `sort.Ints` of the keys. */
  ghost predicate Sorted(versions: seq<nat>, table: Table) {
    && (forall i, j :: 0 <= i < j < |versions| ==> versions[i] < versions[j])
    && (forall v :: v in versions <==> v in table)
  }

  ghost predicate Least(v: nat, versions: set<nat>) { v in versions && forall u :: u in versions ==> v <= u }

  lemma {:induction false} HasLeast(versions: set<nat>)
    requires versions != {}
    ensures exists v :: Least(v, versions)
    decreases |versions|
  {
    var v :| v in versions;
    var rest := versions - {v};
    assert forall u :: u in versions ==> u == v || u in rest;
    if rest == {} {
      assert Least(v, versions);
    } else {
      HasLeast(rest);
      var r :| Least(r, rest);
      assert Least(if v < r then v else r, versions);
    }
  }

  ghost predicate Below(v: nat, versions: set<nat>) { forall u :: u in versions ==> v < u }

  method TakeLeast(versions: set<nat>) returns (v: nat)
    requires versions != {}
    ensures Least(v, versions)
  {
    HasLeast(versions);
    ghost var least :| Least(least, versions);
    v :| v in versions && forall u :: u in versions ==> v <= u;
  }

  method SortVersions(table: Table) returns (versions: seq<nat>)
    ensures Sorted(versions, table)
  {
    versions := [];
    var left := table.Keys;
    while left != {}
      invariant forall v :: v in table <==> v in left || v in versions
      invariant forall i :: 0 <= i < |versions| ==> Below(versions[i], left)
      invariant forall i, j :: 0 <= i < j < |versions| ==> versions[i] < versions[j]
      decreases |left|
    {
      var v := TakeLeast(left);
      versions := versions + [v];
      left := left - {v};
    }
  }

  /** What loading may yield; it does not depend on the sort used. */
  ghost predicate Loads(readings: seq<Reading>, result: Result<seq<Migration>, Fault>) {
    var scanned := Scan(readings, map[]);
    if scanned.Err? then result == Err(scanned.error)
    else exists versions :: Sorted(versions, scanned.value) && result == Collect(scanned.value, versions, 1)
  }

  method ScanEntries(entries: seq<Entry>) returns (result: Result<Table, Fault>)
    ensures result == Scan(ReadAll(entries), map[])
  {
    var table: Table := map[];
    ghost var readings := ReadAll(entries);
    var i := 0;
    assert readings[0..] == readings;
    while i < |entries|
      invariant 0 <= i <= |entries|
      invariant Scan(readings[i..], table) == Scan(readings, map[])
    {
      assert readings[i..][1..] == readings[i + 1..];
      match ReadEntry(entries[i]) {
        case Ignored =>
        case Misnamed(name) => return Err(UnsupportedFilename(name));
        case File(version, def) =>
          if version in table { return Err(DuplicateVersion(version)); }
          table := table[version := def];
      }
      i := i + 1;
    }
    assert readings[i..] == [];
    return Ok(table);
  }

  method LoadDefinitions(entries: seq<Entry>) returns (result: Result<seq<Migration>, Fault>)
    ensures Loads(ReadAll(entries), result)
  {
    var scanned := ScanEntries(entries);
    if scanned.Err? { return Err(scanned.error); }
    var table := scanned.value;
    var versions := SortVersions(table);
    var defs := [];
    var expected := 1;
    ghost var spec := Collect(table, versions, 1);
    assert versions[0..] == versions;
    BeforeBefore([], [], spec);
    while expected - 1 < |versions|
      invariant 1 <= expected <= |versions| + 1
      invariant spec == Before(defs, Collect(table, versions[expected - 1..], expected))
    {
      var version := versions[expected - 1];
      assert versions[expected - 1..][1..] == versions[expected..];
      if version != expected { return Err(NotContiguous(expected, version)); }
      if table[version].Err? { return Err(table[version].error); }
      BeforeBefore(defs, [table[version].value], Collect(table, versions[expected..], expected + 1));
      defs := defs + [table[version].value];
      expected := expected + 1;
    }
    BeforeBefore(defs, [], spec);
    return Ok(defs);
  }

  // ----- What a loaded directory is -----

  ghost predicate OnePerVersion(readings: seq<Reading>) {
    forall i, j :: 0 <= i < j < |readings| && readings[i].File? && readings[j].File? ==> readings[i].version != readings[j].version
  }

  /** The definitions are versions 1, 2, ... of the directory, each as read from its one file; every
      migration file is named as one and is among them. */
  ghost predicate DefinitionsOf(readings: seq<Reading>, defs: seq<Migration>) {
    && (forall r :: r in readings ==> !r.Misnamed?) && OnePerVersion(readings)
    && (forall i :: 0 <= i < |defs| ==> File(i + 1, Ok(defs[i])) in readings)
    && (forall r :: r in readings && r.File? ==> 1 <= r.version <= |defs|)
  }

  /** What scanning finds in `readings` beside what is in `table`. */
  ghost predicate Scanned(readings: seq<Reading>, table: Table, result: Table) {
    && (forall v :: v in table ==> v in result && result[v] == table[v])
    && (forall r :: r in readings && r.File? ==> r.version in result && result[r.version] == r.def)
    && (forall v :: v in result ==> v in table || File(v, result[v]) in readings)
  }

  ghost predicate NoneIn(readings: seq<Reading>, table: Table) {
    forall r :: r in readings && r.File? ==> r.version !in table
  }

  lemma {:induction false} ScanSucceeds(readings: seq<Reading>, table: Table)
    requires (forall r :: r in readings ==> !r.Misnamed?) && OnePerVersion(readings) && NoneIn(readings, table)
    ensures Scan(readings, table).Ok? && Scanned(readings, table, Scan(readings, table).value)
  {
    if readings != [] {
      var head, tail := readings[0], readings[1..];
      assert head in readings;
      assert forall r :: r in readings <==> r == head || r in tail;
      assert OnePerVersion(tail);
      if head.File? {
        assert NoneIn(tail, table[head.version := head.def]);
        ScanSucceeds(tail, table[head.version := head.def]);
      } else {
        ScanSucceeds(tail, table);
      }
    }
  }

  lemma {:induction false} ScanChecks(readings: seq<Reading>, table: Table)
    requires Scan(readings, table).Ok?
    ensures (forall r :: r in readings ==> !r.Misnamed?) && OnePerVersion(readings) && NoneIn(readings, table)
  {
    if readings != [] {
      var head, tail := readings[0], readings[1..];
      ScanChecks(tail, if head.File? then table[head.version := head.def] else table);
      forall i, j | 0 <= i < j < |readings| && readings[i].File? && readings[j].File?
        ensures readings[i].version != readings[j].version
      {
        assert readings[j] in tail && readings[j] == tail[j - 1];
        if i > 0 { assert readings[i] == tail[i - 1]; }
      }
    }
  }

  /** Sorted versions that are 1 to n in some order are 1, 2, ..., n. */
  lemma {:induction false} SortedRange(versions: seq<nat>, table: Table, n: nat, i: nat)
    requires Sorted(versions, table) && (forall v :: v in table <==> 1 <= v <= n) && i <= |versions|
    ensures forall k :: 0 <= k < i ==> versions[k] == k + 1
  {
    if i > 0 {
      SortedRange(versions, table, n, i - 1);
      assert versions[i - 1] in versions;
      assert i > 1 ==> versions[i - 2] < versions[i - 1];
      assert i in versions;
    }
  }

  lemma RangeLength(versions: seq<nat>, table: Table, n: nat)
    requires Sorted(versions, table) && forall v :: v in table <==> 1 <= v <= n
    ensures |versions| == n && forall k :: 0 <= k < n ==> versions[k] == k + 1
  {
    SortedRange(versions, table, n, |versions|);
    assert |versions| > 0 ==> versions[|versions| - 1] in versions;
    assert n > 0 ==> n in versions;
  }

  /** Collecting succeeds exactly on versions that count up and files that read. */
  lemma {:induction false} Collects(table: Table, versions: seq<nat>, expected: nat)
    requires forall v :: v in versions ==> v in table
    ensures Collect(table, versions, expected).Ok? <==>
              forall i :: 0 <= i < |versions| ==> versions[i] == expected + i && table[versions[i]].Ok?
    ensures Collect(table, versions, expected).Ok? ==>
              var defs := Collect(table, versions, expected).value;
              && |defs| == |versions|
              && forall i :: 0 <= i < |defs| ==> Ok(defs[i]) == table[versions[i]]
  {
    if versions != [] {
      var tail := versions[1..];
      Collects(table, tail, expected + 1);
      assert versions[0] in versions;
      assert forall i :: 0 < i < |versions| ==> versions[i] == tail[i - 1];
      assert forall i :: 0 <= i < |tail| ==> tail[i] == versions[i + 1];
    }
  }

  lemma LoadedAreDefinitions(readings: seq<Reading>, defs: seq<Migration>)
    requires Loads(readings, Ok(defs))
    ensures DefinitionsOf(readings, defs)
  {
    ScanChecks(readings, map[]);
    ScanSucceeds(readings, map[]);
    var table := Scan(readings, map[]).value;
    var versions :| Sorted(versions, table) && Ok(defs) == Collect(table, versions, 1);
    Collects(table, versions, 1);
    forall i | 0 <= i < |defs| ensures File(i + 1, Ok(defs[i])) in readings {
      assert versions[i] in versions;
    }
    forall r | r in readings && r.File? ensures 1 <= r.version <= |defs| {
      assert r.version in versions;
    }
  }

  lemma CollectsInOrder(table: Table, versions: seq<nat>, defs: seq<Migration>)
    requires |versions| == |defs| && forall i :: 0 <= i < |defs| ==> versions[i] == i + 1
    requires forall i :: 0 <= i < |versions| ==> versions[i] in table && table[versions[i]] == Ok(defs[i])
    ensures (forall v :: v in versions ==> v in table) && Collect(table, versions, 1) == Ok(defs)
  {
    Collects(table, versions, 1);
    assert Collect(table, versions, 1).value == defs;
  }

  lemma DefinitionsLoad(readings: seq<Reading>, defs: seq<Migration>, result: Result<seq<Migration>, Fault>)
    requires DefinitionsOf(readings, defs) && Loads(readings, result)
    ensures result == Ok(defs)
  {
    ScanSucceeds(readings, map[]);
    var table := Scan(readings, map[]).value;
    var versions :| Sorted(versions, table) && result == Collect(table, versions, 1);
    forall v ensures v in table <==> 1 <= v <= |defs| {
      if 1 <= v <= |defs| { assert File(v, Ok(defs[v - 1])) in readings; }
    }
    RangeLength(versions, table, |defs|);
    forall i | 0 <= i < |versions| ensures versions[i] in table && table[versions[i]] == Ok(defs[i]) {
      assert File(i + 1, Ok(defs[i])) in readings;
    }
    CollectsInOrder(table, versions, defs);
  }

  /** Loading yields `defs` exactly when `defs` are the directory's versions 1 to n, one readable file
      each, with no other migration file there. */
  lemma LoadsExactly(readings: seq<Reading>, result: Result<seq<Migration>, Fault>, defs: seq<Migration>)
    requires Loads(readings, result)
    ensures result == Ok(defs) <==> DefinitionsOf(readings, defs)
  {
    if result == Ok(defs) { LoadedAreDefinitions(readings, defs); }
    if DefinitionsOf(readings, defs) { DefinitionsLoad(readings, defs, result); }
  }

  /** A directory that only gains files keeps the definitions it had: those of the larger directory
      extend them. */
  lemma DefinitionsGrow(readings: seq<Reading>, more: seq<Reading>, defs: seq<Migration>, defs': seq<Migration>)
    requires DefinitionsOf(readings, defs) && DefinitionsOf(readings + more, defs')
    ensures defs <= defs'
  {
    var all := readings + more;
    if |defs| > 0 { assert File(|defs|, Ok(defs[|defs| - 1])) in all; }
    forall i | 0 <= i < |defs| ensures defs'[i] == defs[i] {
      var r := File(i + 1, Ok(defs[i]));
      assert r in readings && r in all;
      var r' := File(i + 1, Ok(defs'[i]));
      assert r' in all;
      var j, j' :| 0 <= j < |all| && all[j] == r && 0 <= j' < |all| && all[j'] == r';
    }
  }
}
