/** `Up` and `Status`: applying the definitions of a directory to a database, one transaction each.
    Several runners may interleave between transactions, and any of them may fail at any point. */
module MigrationRunner {
  import opened Wrappers
  import opened MigrationFiles

  /** A row of `schema_migration_state` or `schema_migration_history`, without its time. */
  datatype Row = Row(version: nat, name: string, kind: Kind, filename: string, checksum: string)

  function RowOf(def: Migration): Row { Row(def.version, def.name, def.kind, def.filename, def.checksum) }

  /** The committed tables; the version is the primary key of the state table. */
  datatype Db = Db(state: map<nat, Row>, history: seq<Row>)

  const EmptyDb := Db(map[], [])

  datatype Item = Item(version: nat, name: string, kind: Kind, applied: bool, filename: string)

  datatype Status = Status(current: nat, applied: seq<Item>, pending: seq<Item>)

  datatype Failure = LoadFailed(fault: Fault) | DatabaseFailed | AppliedRejected | RefusedDestructive(filename: string)

  /** How a transaction may end: rolled back, committed, or committed with the reply lost. */
  datatype Outcome = RolledBack | Committed | ReplyLost

  /** Every applied version is in the directory with the checksum it was applied with. */
  predicate AppliedValid(applied: map<nat, Row>, defs: seq<Migration>) {
    forall v :: v in applied ==> ValidRow(v, applied[v], defs)
  }

  predicate ValidRow(v: nat, row: Row, defs: seq<Migration>) {
    exists i :: 0 <= i < |defs| && defs[i].version == v && LastOfVersion(defs, i) && row.checksum == defs[i].checksum
  }

  /** `defByVersion` keeps the last definition of a version. */
  predicate LastOfVersion(defs: seq<Migration>, i: nat)
    requires i < |defs|
  {
    forall j :: i < j < |defs| ==> defs[j].version != defs[i].version
  }

  function Commit(db: Db, def: Migration): Db {
    Db(db.state[def.version := RowOf(def)], db.history + [RowOf(def)])
  }

  /** `applyUp`: both inserts commit or neither; a version already there breaks the primary key. */
  function Transact(db: Db, def: Migration, outcome: Outcome): (Db, bool) {
    if outcome.RolledBack? || def.version in db.state then (db, false)
    else (Commit(db, def), outcome.Committed?)
  }

  function ItemOf(def: Migration, applied: bool): Item {
    Item(def.version, def.name, def.kind, applied, def.filename)
  }

  function ItemsWhere(defs: seq<Migration>, applied: map<nat, Row>, there: bool): seq<Item> {
    if defs == [] then []
    else
      var last := defs[|defs| - 1];
      ItemsWhere(defs[..|defs| - 1], applied, there) + if (last.version in applied) == there then [ItemOf(last, there)] else []
  }

  ghost predicate Highest(applied: map<nat, Row>, version: nat) {
    (forall v :: v in applied ==> v <= version) && (version == 0 || version in applied)
  }

  ghost predicate StatusOf(defs: seq<Migration>, applied: map<nat, Row>, status: Status) {
    && Highest(applied, status.current)
    && status.applied == ItemsWhere(defs, applied, true)
    && status.pending == ItemsWhere(defs, applied, false)
  }

  // ----- One runner, step by step -----

  datatype Runner =
    | Loaded(defs: seq<Migration>)
    | Applying(defs: seq<Migration>, applied: map<nat, Row>, next: nat)
    | Stopped(failure: Failure)
    | Succeeded(defs: seq<Migration>, applied: map<nat, Row>)

  predicate Running(r: Runner) { r.Loaded? || (r.Applying? && r.next <= |r.defs|) }

  /** Reads and checks the applied state, or deals with the next definition. */
  function Advance(db: Db, r: Runner, outcome: Outcome): (Db, Runner)
    requires Running(r)
  {
    match r
    case Loaded(defs) =>
      (db, if AppliedValid(db.state, defs) then Applying(defs, db.state, 0) else Stopped(AppliedRejected))
    case Applying(defs, applied, next) =>
      if next == |defs| then (db, Succeeded(defs, applied))
      else
        var def := defs[next];
        if def.version in applied then (db, Applying(defs, applied, next + 1))
        else if def.kind.Destructive? then (db, Stopped(RefusedDestructive(def.filename)))
        else
          var (db', ok) := Transact(db, def, outcome);
          (db', if ok then Applying(defs, applied[def.version := RowOf(def)], next + 1) else Stopped(DatabaseFailed))
  }

  /** One runner alone, to its end; `outcomes` says how the transaction of each version ends. */
  function Complete(db: Db, r: Runner, outcomes: nat -> Outcome): (Db, Runner)
    decreases if r.Loaded? then 1 else 0, if r.Applying? then |r.defs| - r.next else -1
  {
    if !Running(r) then (db, r)
    else
      var outcome := if r.Applying? && r.next < |r.defs| then outcomes(r.defs[r.next].version) else RolledBack;
      var (db', r') := Advance(db, r, outcome);
      Complete(db', r', outcomes)
  }

  // ----- The source's methods -----

  class Database {
    var state: map<nat, Row>
    var history: seq<Row>

    ghost function Value(): Db
      reads this
    {
      Db(state, history)
    }

    constructor ()
      ensures Value() == EmptyDb
    {
      state, history := map[], [];
    }

    method ApplyUp(def: Migration, outcome: Outcome) returns (ok: bool)
      modifies this
      ensures (Value(), ok) == Transact(old(Value()), def, outcome)
    {
      if outcome == RolledBack || def.version in state { return false; }
      state := state[def.version := RowOf(def)];
      history := history + [RowOf(def)];
      return outcome == Committed;
    }
  }

  ghost predicate LastAt(defs: seq<Migration>, v: nat, def: Migration) {
    exists i :: 0 <= i < |defs| && defs[i].version == v && LastOfVersion(defs, i) && defs[i] == def
  }

  lemma LastAtNext(defs: seq<Migration>, i: nat, v: nat, def: Migration)
    requires i < |defs| && (if v == defs[i].version then def == defs[i] else LastAt(defs[..i], v, def))
    ensures LastAt(defs[..i + 1], v, def)
  {
    var now, before := defs[..i + 1], defs[..i];
    if v == defs[i].version {
      assert now[i].version == v && LastOfVersion(now, i);
    } else {
      var j :| 0 <= j < |before| && before[j].version == v && LastOfVersion(before, j) && before[j] == def;
      assert now[j].version == v && LastOfVersion(now, j);
    }
  }

  /** The map from version to definition: a later definition replaces an earlier one. */
  method ByVersion(defs: seq<Migration>) returns (table: map<nat, Migration>)
    ensures forall v :: v in table ==> LastAt(defs, v, table[v])
    ensures forall i :: 0 <= i < |defs| ==> defs[i].version in table
  {
    table := map[];
    for i := 0 to |defs|
      invariant forall v :: v in table ==> LastAt(defs[..i], v, table[v])
      invariant forall j :: 0 <= j < i ==> defs[j].version in table
    {
      ghost var before := table;
      table := table[defs[i].version := defs[i]];
      forall v | v in table ensures LastAt(defs[..i + 1], v, table[v]) {
        if v != defs[i].version { assert LastAt(defs[..i], v, before[v]); }
        LastAtNext(defs, i, v, table[v]);
      }
    }
    assert defs[..|defs|] == defs;
  }

  lemma ValidRowIff(v: nat, row: Row, defs: seq<Migration>, table: map<nat, Migration>)
    requires forall u :: u in table ==> LastAt(defs, u, table[u])
    requires forall i :: 0 <= i < |defs| ==> defs[i].version in table
    ensures ValidRow(v, row, defs) <==> v in table && row.checksum == table[v].checksum
  {
    if v in table {
      assert LastAt(defs, v, table[v]);
      var i :| 0 <= i < |defs| && defs[i].version == v && LastOfVersion(defs, i) && defs[i] == table[v];
      if ValidRow(v, row, defs) {
        var j :| 0 <= j < |defs| && defs[j].version == v && LastOfVersion(defs, j) && row.checksum == defs[j].checksum;
        assert i == j;
      }
    }
  }

  /** Iterates over the applied rows in any order. */
  method ValidateAppliedChecksums(applied: map<nat, Row>, defs: seq<Migration>) returns (ok: bool)
    ensures ok == AppliedValid(applied, defs)
  {
    var defByVersion := ByVersion(defs);
    var left := applied.Keys;
    while left != {}
      invariant left <= applied.Keys
      invariant forall v :: v in applied && v !in left ==> ValidRow(v, applied[v], defs)
      decreases |left|
    {
      var v :| v in left;
      left := left - {v};
      ValidRowIff(v, applied[v], defs, defByVersion);
      if v !in defByVersion || applied[v].checksum != defByVersion[v].checksum { return false; }
    }
    return true;
  }

  method HighestAppliedVersion(applied: map<nat, Row>) returns (version: nat)
    ensures Highest(applied, version)
  {
    version := 0;
    var left := applied.Keys;
    while left != {}
      invariant left <= applied.Keys
      invariant version == 0 || version in applied
      invariant forall v :: v in applied && v !in left ==> v <= version
      decreases |left|
    {
      var v :| v in left;
      left := left - {v};
      if v > version { version := v; }
    }
  }

  method BuildStatus(defs: seq<Migration>, applied: map<nat, Row>) returns (status: Status)
    ensures StatusOf(defs, applied, status)
  {
    var current := HighestAppliedVersion(applied);
    var there, pending := [], [];
    var i := 0;
    while i < |defs|
      invariant 0 <= i <= |defs|
      invariant there == ItemsWhere(defs[..i], applied, true)
      invariant pending == ItemsWhere(defs[..i], applied, false)
    {
      assert defs[..i + 1][..i] == defs[..i];
      if defs[i].version in applied {
        there := there + [ItemOf(defs[i], true)];
      } else {
        pending := pending + [ItemOf(defs[i], false)];
      }
      i := i + 1;
    }
    assert defs[..i] == defs;
    return Status(current, there, pending);
  }

  /** What becomes of a runner that comes to definition `i`. */
  lemma CompleteNext(db: Db, defs: seq<Migration>, applied: map<nat, Row>, i: nat, outcomes: nat -> Outcome)
    requires i < |defs|
    ensures var def := defs[i];
            Complete(db, Applying(defs, applied, i), outcomes) ==
            if def.version in applied then Complete(db, Applying(defs, applied, i + 1), outcomes)
            else if def.kind.Destructive? then (db, Stopped(RefusedDestructive(def.filename)))
            else
              var (db', ok) := Transact(db, def, outcomes(def.version));
              if ok then Complete(db', Applying(defs, applied[def.version := RowOf(def)], i + 1), outcomes)
              else (db', Stopped(DatabaseFailed))
  {
  }

  /** `reachable` says whether the metadata tables answer. */
  method Up(db: Database, entries: seq<Entry>, reachable: bool, outcomes: nat -> Outcome) returns (r: Result<Status, Failure>)
    modifies db
    ensures exists loaded :: Loads(ReadAll(entries), loaded) && UpResult(old(db.Value()), loaded, reachable, outcomes, db.Value(), r)
  {
    var loaded := LoadDefinitions(entries);
    if loaded.Err? { return Err(LoadFailed(loaded.error)); }
    if !reachable { return Err(DatabaseFailed); }
    var defs := loaded.value;
    var applied: map<nat, Row> := db.state;
    ghost var end := Complete(db.Value(), Loaded(defs), outcomes);
    var valid := ValidateAppliedChecksums(applied, defs);
    if !valid {
      assert Advance(db.Value(), Loaded(defs), RolledBack) == (db.Value(), Stopped(AppliedRejected));
      assert end == Complete(db.Value(), Stopped(AppliedRejected), outcomes);
      return Err(AppliedRejected);
    }
    var i := 0;
    while i < |defs|
      invariant 0 <= i <= |defs|
      invariant end == Complete(db.Value(), Applying(defs, applied, i), outcomes)
    {
      var def := defs[i];
      CompleteNext(db.Value(), defs, applied, i, outcomes);
      i := i + 1;
      if def.version in applied { continue; }
      if def.kind == Destructive { return Err(RefusedDestructive(def.filename)); }
      var ok := db.ApplyUp(def, outcomes(def.version));
      if !ok { return Err(DatabaseFailed); }
      applied := applied[def.version := RowOf(def)];
    }
    assert end == (db.Value(), Succeeded(defs, applied));
    var status := BuildStatus(defs, applied);
    return Ok(status);
  }

  /** What `Up` leaves behind and returns. */
  ghost predicate UpResult(db: Db, loaded: Result<seq<Migration>, Fault>, reachable: bool, outcomes: nat -> Outcome,
                           db': Db, r: Result<Status, Failure>)
  {
    if loaded.Err? then db' == db && r == Err(LoadFailed(loaded.error))
    else if !reachable then db' == db && r == Err(DatabaseFailed)
    else
      var end := Complete(db, Loaded(loaded.value), outcomes);
      && db' == end.0
      && match end.1
         case Succeeded(defs, applied) => r.Ok? && StatusOf(defs, applied, r.value)
         case Stopped(failure) => r == Err(failure)
         case _ => false
  }
}
