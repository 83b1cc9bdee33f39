/** Any number of runners over one database and one directory that only gains files: their steps
    interleave, transactions fail or lose their reply, runners die between transactions. */
module MigrationRuns {
  import opened Wrappers
  import opened MigrationFiles
  import opened MigrationRunner

  /** `known` is history: the longest definitions loaded so far, from the first `seen` entries. */
  datatype World = World(readings: seq<Reading>, db: Db, runners: map<nat, Runner>, known: seq<Migration>, seen: nat)

  const Initial := World([], EmptyDb, map[], [], 0)

  datatype Event =
    | AddEntry(entry: Entry)
    | Begin(p: nat, loaded: Result<seq<Migration>, Fault>)
    | Step(p: nat, outcome: Outcome)
    | Die(p: nat)

  ghost predicate Enabled(w: World, e: Event) {
    match e
    case AddEntry(_) => true
    case Begin(p, loaded) => p !in w.runners && Loads(w.readings, loaded)
    case Step(p, _) => p in w.runners && Running(w.runners[p])
    case Die(p) => p in w.runners && Running(w.runners[p])
  }

  ghost function After(w: World, e: Event): World
    requires Enabled(w, e)
  {
    match e
    case AddEntry(entry) => w.(readings := w.readings + [ReadEntry(entry)])
    case Begin(p, Err(fault)) => w.(runners := w.runners[p := Stopped(LoadFailed(fault))])
    case Begin(p, Ok(defs)) => w.(runners := w.runners[p := Loaded(defs)], known := defs, seen := |w.readings|)
    case Step(p, outcome) =>
      var (db, r) := Advance(w.db, w.runners[p], outcome);
      w.(db := db, runners := w.runners[p := r])
    case Die(p) => w.(runners := w.runners[p := Stopped(DatabaseFailed)])
  }

  /** The world after a sequence of events; an event that cannot happen is skipped. */
  ghost function Run(w: World, events: seq<Event>): World
    decreases |events|
  {
    if events == [] then w
    else Run(if Enabled(w, events[0]) then After(w, events[0]) else w, events[1..])
  }

  // ----- What every reachable world satisfies -----

  ghost predicate Numbered(defs: seq<Migration>) {
    forall i :: 0 <= i < |defs| ==> defs[i].version == i + 1
  }

  ghost predicate ReadingsNumbered(readings: seq<Reading>) {
    forall r :: r in readings && r.File? && r.def.Ok? ==> r.def.value.version == r.version
  }

  ghost predicate KnownLoaded(w: World) {
    && w.seen <= |w.readings| && DefinitionsOf(w.readings[..w.seen], w.known)
    && ReadingsNumbered(w.readings) && Numbered(w.known)
  }

  ghost predicate UpTo(applied: map<nat, Row>, k: nat) {
    forall v :: v in applied <==> 1 <= v <= k
  }

  /** The database holds the first k definitions, each recorded once and in order, none destructive. */
  ghost predicate DbSound(db: Db, known: seq<Migration>) {
    && |db.history| <= |known| && UpTo(db.state, |db.history|)
    && forall i :: 0 <= i < |db.history| ==>
         && db.history[i] == RowOf(known[i]) && known[i].kind.Normal?
         && known[i].version in db.state && db.state[known[i].version] == db.history[i]
  }

  ghost predicate AgreesWith(applied: map<nat, Row>, db: Db) {
    forall v :: v in applied ==> v in db.state && applied[v] == db.state[v]
  }

  ghost predicate AppliedSound(applied: map<nat, Row>, defs: seq<Migration>, next: nat, db: Db) {
    && next <= |defs| && AgreesWith(applied, db)
    && exists k: nat :: next <= k <= |defs| && k <= |db.history| && UpTo(applied, k)
  }

  ghost predicate RunnerSound(r: Runner, known: seq<Migration>, db: Db) {
    match r
    case Loaded(defs) => defs <= known
    case Applying(defs, applied, next) => defs <= known && AppliedSound(applied, defs, next, db)
    case Succeeded(defs, applied) => defs <= known && AppliedSound(applied, defs, |defs|, db)
    case Stopped(_) => true
  }

  ghost predicate Inv(w: World) {
    && KnownLoaded(w) && DbSound(w.db, w.known)
    && forall p :: p in w.runners ==> RunnerSound(w.runners[p], w.known, w.db)
  }

  lemma ReadEntryNumbered(e: Entry)
    ensures var r := ReadEntry(e); r.File? && r.def.Ok? ==> r.def.value.version == r.version
  {
  }

  lemma DefinitionsNumbered(readings: seq<Reading>, defs: seq<Migration>)
    requires ReadingsNumbered(readings) && DefinitionsOf(readings, defs)
    ensures Numbered(defs)
  {
    forall i | 0 <= i < |defs| ensures defs[i].version == i + 1 {
      assert File(i + 1, Ok(defs[i])) in readings;
    }
  }

  /** A longer directory and a longer history leave a runner as sound as it was. */
  lemma RunnerStaysSound(r: Runner, known: seq<Migration>, known': seq<Migration>, db: Db, db': Db)
    requires RunnerSound(r, known, db) && known <= known'
    requires AgreesWith(db.state, db') && |db.history| <= |db'.history|
    ensures RunnerSound(r, known', db')
  {
  }

  lemma BeginKeeps(w: World, p: nat, defs: seq<Migration>)
    requires Inv(w) && Enabled(w, Begin(p, Ok(defs)))
    ensures Inv(After(w, Begin(p, Ok(defs))))
  {
    LoadsExactly(w.readings, Ok(defs), defs);
    DefinitionsNumbered(w.readings, defs);
    assert w.readings == w.readings[..w.seen] + w.readings[w.seen..];
    DefinitionsGrow(w.readings[..w.seen], w.readings[w.seen..], w.known, defs);
    assert w.readings[..|w.readings|] == w.readings;
    forall q | q in w.runners ensures RunnerSound(w.runners[q], defs, w.db) {
      RunnerStaysSound(w.runners[q], w.known, defs, w.db, w.db);
    }
  }

  /** A step of one runner: the database and the runner stay sound, and nothing committed is lost. */
  lemma AdvanceKeeps(known: seq<Migration>, db: Db, r: Runner, outcome: Outcome)
    requires Numbered(known) && DbSound(db, known) && RunnerSound(r, known, db) && Running(r)
    ensures var (db', r') := Advance(db, r, outcome);
            DbSound(db', known) && RunnerSound(r', known, db') && AgreesWith(db.state, db') && db.history <= db'.history
  {
    match r {
      case Loaded(defs) => if AppliedValid(db.state, defs) { ValidCoversApplied(known, db, defs); }
      case Applying(defs, applied, next) =>
        if next < |defs| { ApplyKeeps(known, db, defs, applied, next, outcome); }
    }
  }

  /** Checking the applied rows makes sure that the directory has them all. */
  lemma ValidCoversApplied(known: seq<Migration>, db: Db, defs: seq<Migration>)
    requires Numbered(known) && DbSound(db, known) && defs <= known && AppliedValid(db.state, defs)
    ensures AppliedSound(db.state, defs, 0, db)
  {
    var k := |db.history|;
    if k > 0 {
      assert k in db.state;
      assert ValidRow(k, db.state[k], defs);
      var i :| 0 <= i < |defs| && defs[i].version == k && LastOfVersion(defs, i) && db.state[k].checksum == defs[i].checksum;
      assert defs[i] == known[i];
    }
    assert 0 <= k <= |defs| && UpTo(db.state, k);
  }

  lemma ApplyKeeps(known: seq<Migration>, db: Db, defs: seq<Migration>, applied: map<nat, Row>, next: nat, outcome: Outcome)
    requires Numbered(known) && DbSound(db, known) && defs <= known && next < |defs| && AppliedSound(applied, defs, next, db)
    ensures var (db', r') := Advance(db, Applying(defs, applied, next), outcome);
            DbSound(db', known) && RunnerSound(r', known, db') && AgreesWith(db.state, db') && db.history <= db'.history
  {
    var def := defs[next];
    assert def == known[next] && def.version == next + 1;
    var k: nat :| next <= k <= |defs| && k <= |db.history| && UpTo(applied, k);
    if def.version in applied {
      assert next + 1 <= k;
    } else if !def.kind.Destructive? && !outcome.RolledBack? && def.version !in db.state {
      assert k == next == |db.history|;
      CommitKeeps(known, db, next);
      assert UpTo(applied[def.version := RowOf(def)], next + 1);
    }
  }

  lemma CommitKeeps(known: seq<Migration>, db: Db, next: nat)
    requires Numbered(known) && DbSound(db, known) && next == |db.history| < |known| && known[next].kind.Normal?
    ensures var db' := Commit(db, known[next]);
            DbSound(db', known) && AgreesWith(db.state, db') && db.history <= db'.history && |db'.history| == next + 1
  {
  }

  lemma StepKeeps(w: World, e: Event)
    requires Inv(w) && Enabled(w, e)
    ensures Inv(After(w, e)) && w.db.history <= After(w, e).db.history && w.known <= After(w, e).known
  {
    match e {
      case AddEntry(entry) =>
        ReadEntryNumbered(entry);
        assert (w.readings + [ReadEntry(entry)])[..w.seen] == w.readings[..w.seen];
      case Begin(p, Ok(defs)) =>
        BeginKeeps(w, p, defs);
        LoadsExactly(w.readings, Ok(defs), defs);
        assert w.readings == w.readings[..w.seen] + w.readings[w.seen..];
        DefinitionsGrow(w.readings[..w.seen], w.readings[w.seen..], w.known, defs);
      case Begin(_, Err(_)) =>
      case Die(_) =>
      case Step(p, outcome) =>
        AdvanceKeeps(w.known, w.db, w.runners[p], outcome);
        var w' := After(w, e);
        forall q | q in w'.runners ensures RunnerSound(w'.runners[q], w'.known, w'.db) {
          if q != p { RunnerStaysSound(w.runners[q], w.known, w.known, w.db, w'.db); }
        }
    }
  }

  lemma {:induction false} RunKeeps(w: World, events: seq<Event>)
    requires Inv(w)
    ensures Inv(Run(w, events)) && w.db.history <= Run(w, events).db.history
    decreases |events|
  {
    if events != [] {
      if Enabled(w, events[0]) { StepKeeps(w, events[0]); }
      RunKeeps(if Enabled(w, events[0]) then After(w, events[0]) else w, events[1..]);
    }
  }

  lemma Reachable(events: seq<Event>)
    ensures Inv(Run(Initial, events))
  {
    RunKeeps(Initial, events);
  }

  // ----- The main results -----

  /** Whatever ran, failed or died: the applied versions are 1 to k, each is in the history once and
      in order, is the same in both tables, comes from its file, and is not destructive. */
  lemma AppliedInOrder(events: seq<Event>)
    ensures var w := Run(Initial, events);
            && UpTo(w.db.state, |w.db.history|)
            && forall i :: 0 <= i < |w.db.history| ==> InPlace(w, i)
  {
    Reachable(events);
    var w := Run(Initial, events);
    forall i | 0 <= i < |w.db.history| ensures InPlace(w, i) {
      assert w.db.history[i] == RowOf(w.known[i]) && w.known[i].version == i + 1;
      assert File(i + 1, Ok(w.known[i])) in w.readings[..w.seen];
      assert File(i + 1, Ok(w.known[i])) in w.readings;
    }
  }

  /** What a row records of a migration. */
  predicate Records(row: Row, def: Migration) {
    && row.version == def.version && row.name == def.name && row.kind == def.kind
    && row.filename == def.filename && row.checksum == def.checksum
  }

  /** The row at `i` is of version i + 1, the same in both tables, and that of a file that may be run. */
  ghost predicate InPlace(w: World, i: nat)
    requires i < |w.db.history|
  {
    && w.db.history[i].version == i + 1 && i + 1 in w.db.state && w.db.state[i + 1] == w.db.history[i]
    && exists def :: File(i + 1, Ok(def)) in w.readings && Records(w.db.history[i], def) && def.kind.Normal?
  }

  /** Nothing recorded is ever changed or removed. */
  lemma HistoryOnlyGrows(before: seq<Event>, after: seq<Event>)
    ensures Run(Initial, before).db.history <= Run(Run(Initial, before), after).db.history
  {
    Reachable(before);
    RunKeeps(Run(Initial, before), after);
  }

  function Items(defs: seq<Migration>, applied: bool): seq<Item> {
    seq(|defs|, i requires 0 <= i < |defs| => ItemOf(defs[i], applied))
  }

  lemma ItemsPush(defs: seq<Migration>, last: Migration, applied: bool)
    ensures Items(defs + [last], applied) == Items(defs, applied) + [ItemOf(last, applied)]
  {
  }

  lemma {:induction false} ItemsApplied(defs: seq<Migration>, applied: map<nat, Row>, k: nat)
    requires Numbered(defs) && UpTo(applied, k) && |defs| <= k
    ensures ItemsWhere(defs, applied, true) == Items(defs, true) && ItemsWhere(defs, applied, false) == []
  {
    if defs != [] {
      var rest, last := defs[..|defs| - 1], defs[|defs| - 1];
      ItemsApplied(rest, applied, k);
      ItemsPush(rest, last, true);
      assert rest + [last] == defs;
    }
  }

  lemma {:induction false} ItemsSplit(defs: seq<Migration>, applied: map<nat, Row>, k: nat)
    requires Numbered(defs) && UpTo(applied, k) && k <= |defs|
    ensures ItemsWhere(defs, applied, true) == Items(defs[..k], true)
    ensures ItemsWhere(defs, applied, false) == Items(defs[k..], false)
  {
    if k == |defs| {
      ItemsApplied(defs, applied, k);
      assert defs[..k] == defs;
    } else {
      var rest, last := defs[..|defs| - 1], defs[|defs| - 1];
      ItemsSplit(rest, applied, k);
      ItemsPush(rest[k..], last, false);
      assert rest[..k] == defs[..k];
      assert rest[k..] + [last] == defs[k..];
    }
  }

  /** What an item tells of a migration. */
  predicate Tells(item: Item, def: Migration, applied: bool) {
    && item.applied == applied && item.version == def.version && item.name == def.name && item.kind == def.kind
    && item.filename == def.filename
  }

  lemma ItemsTell(defs: seq<Migration>, applied: bool)
    ensures |Items(defs, applied)| == |defs| && forall i :: 0 <= i < |defs| ==> Tells(Items(defs, applied)[i], defs[i], applied)
  {
  }

  /** The status of a run that succeeded: everything in the directory is applied and committed, and
      the current version is the last. */
  lemma SuccessStatus(events: seq<Event>, p: nat, status: Status)
    requires p in Run(Initial, events).runners && Run(Initial, events).runners[p].Succeeded?
    requires var r := Run(Initial, events).runners[p]; StatusOf(r.defs, r.applied, status)
    ensures var w := Run(Initial, events);
            var defs := w.runners[p].defs;
            && status == Status(|defs|, Items(defs, true), [])
            && (forall i :: 0 <= i < |defs| ==> Tells(status.applied[i], defs[i], true))
            && forall i :: 0 <= i < |defs| ==> i < |w.db.history| && w.db.history[i] == RowOf(defs[i])
  {
    Reachable(events);
    var w := Run(Initial, events);
    var r := w.runners[p];
    assert RunnerSound(r, w.known, w.db);
    assert UpTo(r.applied, |r.defs|);
    ItemsSplit(r.defs, r.applied, |r.defs|);
    ItemsTell(r.defs, true);
    assert r.defs[..|r.defs|] == r.defs;
    HighestUpTo(r.applied, |r.defs|, status.current);
  }

  lemma HighestUpTo(applied: map<nat, Row>, k: nat, version: nat)
    requires UpTo(applied, k) && Highest(applied, version)
    ensures version == k
  {
    assert k > 0 ==> k in applied;
  }

  /** `Status`, at any time: the first k definitions are applied, the others pending, and the current
      version is k. */
  lemma StatusAnyTime(events: seq<Event>, defs: seq<Migration>, status: Status)
    requires var w := Run(Initial, events);
             Loads(w.readings, Ok(defs)) && StatusOf(defs, w.db.state, status)
    ensures var k := |Run(Initial, events).db.history|;
            && k <= |defs| && status == Status(k, Items(defs[..k], true), Items(defs[k..], false))
            && (forall i :: 0 <= i < k ==> Tells(status.applied[i], defs[i], true))
            && (forall i :: 0 <= i < |defs| - k ==> Tells(status.pending[i], defs[k + i], false))
  {
    LoadedSound(events, defs);
    SoundStatus(Run(Initial, events).db, defs, status);
  }

  lemma SoundStatus(db: Db, defs: seq<Migration>, status: Status)
    requires Numbered(defs) && DbSound(db, defs) && StatusOf(defs, db.state, status)
    ensures var k := |db.history|;
            && k <= |defs| && status == Status(k, Items(defs[..k], true), Items(defs[k..], false))
            && (forall i :: 0 <= i < k ==> Tells(status.applied[i], defs[i], true))
            && (forall i :: 0 <= i < |defs| - k ==> Tells(status.pending[i], defs[k + i], false))
  {
    var k := |db.history|;
    ItemsSplit(defs, db.state, k);
    ItemsTell(defs[..k], true);
    ItemsTell(defs[k..], false);
    HighestUpTo(db.state, k, status.current);
    forall i | 0 <= i < |defs| - k ensures Tells(status.pending[i], defs[k + i], false) {
      assert defs[k..][i] == defs[k + i];
    }
  }

  /** The directory as it is now covers everything ever applied, so checking the rows cannot fail. */
  lemma LoadedSound(events: seq<Event>, defs: seq<Migration>)
    requires Loads(Run(Initial, events).readings, Ok(defs))
    ensures var w := Run(Initial, events);
            Numbered(defs) && DbSound(w.db, defs) && AppliedValid(w.db.state, defs)
  {
    Reachable(events);
    var w := Run(Initial, events);
    LoadsExactly(w.readings, Ok(defs), defs);
    DefinitionsNumbered(w.readings, defs);
    assert w.readings == w.readings[..w.seen] + w.readings[w.seen..];
    DefinitionsGrow(w.readings[..w.seen], w.readings[w.seen..], w.known, defs);
    forall v | v in w.db.state ensures ValidRow(v, w.db.state[v], defs) {
      assert defs[v - 1] == w.known[v - 1] && w.db.history[v - 1] == RowOf(w.known[v - 1]);
      assert LastOfVersion(defs, v - 1);
    }
  }

  // ----- One runner alone -----

  /** `Up` by a lone runner whose applied rows are those of the database. */
  lemma {:induction false} CompleteApplies(db: Db, defs: seq<Migration>, next: nat, outcomes: nat -> Outcome)
    requires Numbered(defs) && DbSound(db, defs) && next <= |defs| && (next <= |db.history|)
    ensures var (db', r') := Complete(db, Applying(defs, db.state, next), outcomes);
            && (r'.Succeeded? <==> forall i :: |db.history| <= i < |defs| ==> Applies(defs[i], outcomes))
            && (r'.Succeeded? ==> r' == Succeeded(defs, db'.state) && |db'.history| == |defs| && DbSound(db', defs))
    decreases |defs| - next
  {
    if next < |defs| {
      var def := defs[next];
      assert def.version == next + 1;
      if def.version in db.state {
        CompleteApplies(db, defs, next + 1, outcomes);
      } else {
        assert next == |db.history|;
        if Applies(def, outcomes) {
          CommitKeeps(defs, db, next);
          CompleteApplies(Commit(db, def), defs, next + 1, outcomes);
        }
      }
    }
  }

  predicate Applies(def: Migration, outcomes: nat -> Outcome) { def.kind.Normal? && outcomes(def.version).Committed? }

  /** From any reachable world, `Up` alone succeeds exactly when no pending migration is destructive
      and each of their transactions commits; the database then holds all of the directory. */
  lemma UpSucceedsIff(events: seq<Event>, defs: seq<Migration>, outcomes: nat -> Outcome)
    requires Loads(Run(Initial, events).readings, Ok(defs))
    ensures var w := Run(Initial, events);
            var (db', r') := Complete(w.db, Loaded(defs), outcomes);
            && (r'.Succeeded? <==> forall i :: |w.db.history| <= i < |defs| ==> Applies(defs[i], outcomes))
            && (r'.Succeeded? ==> r' == Succeeded(defs, db'.state) && |db'.history| == |defs| && DbSound(db', defs))
  {
    LoadedSound(events, defs);
    CompleteApplies(Run(Initial, events).db, defs, 0, outcomes);
  }

  /** The first pending definition that is not applied, after `k` that were. */
  predicate StopsAt(defs: seq<Migration>, k: nat, outcomes: nat -> Outcome, m: nat) {
    && k <= m <= |defs| && (forall i :: k <= i < m ==> Applies(defs[i], outcomes))
    && (m < |defs| ==> !Applies(defs[m], outcomes))
  }

  /** How many definitions are recorded after stopping at `m`: a lost reply is of a migration that was applied. */
  function RecordedAfter(defs: seq<Migration>, outcomes: nat -> Outcome, m: nat): nat {
    if m < |defs| && defs[m].kind.Normal? && outcomes(defs[m].version).ReplyLost? then m + 1 else m
  }

  lemma {:induction false} CompleteStops(db: Db, defs: seq<Migration>, next: nat, outcomes: nat -> Outcome, m: nat)
    requires Numbered(defs) && DbSound(db, defs) && next <= |defs| && next <= |db.history| && StopsAt(defs, |db.history|, outcomes, m)
    ensures var (db', r') := Complete(db, Applying(defs, db.state, next), outcomes);
            && DbSound(db', defs) && |db'.history| == RecordedAfter(defs, outcomes, m)
            && (r'.Succeeded? <==> m == |defs|)
            && (m < |defs| ==>
                  r' == Stopped(if defs[m].kind.Destructive? then RefusedDestructive(defs[m].filename) else DatabaseFailed))
    decreases |defs| - next
  {
    if next < |defs| {
      var def := defs[next];
      assert def.version == next + 1;
      CompleteNext(db, defs, db.state, next, outcomes);
      if def.version in db.state {
        CompleteStops(db, defs, next + 1, outcomes, m);
      } else if def.kind.Normal? && !outcomes(def.version).RolledBack? {
        CommitKeeps(defs, db, next);
        if outcomes(def.version).Committed? { CompleteStops(Commit(db, def), defs, next + 1, outcomes, m); }
      }
    }
  }

  /** What `Up` alone leaves, failing or not: from any reachable world the database then holds the
      definitions before the first that is not applied, in both tables, and no others, except that one
      whose reply was lost is there too. The failure is of that definition. */
  lemma UpStopsAt(events: seq<Event>, defs: seq<Migration>, outcomes: nat -> Outcome, m: nat)
    requires Loads(Run(Initial, events).readings, Ok(defs)) && StopsAt(defs, |Run(Initial, events).db.history|, outcomes, m)
    ensures var (db', r') := Complete(Run(Initial, events).db, Loaded(defs), outcomes);
            && DbSound(db', defs) && |db'.history| == RecordedAfter(defs, outcomes, m)
            && (r'.Succeeded? <==> m == |defs|)
            && (m < |defs| ==>
                  r' == Stopped(if defs[m].kind.Destructive? then RefusedDestructive(defs[m].filename) else DatabaseFailed))
  {
    LoadedSound(events, defs);
    CompleteStops(Run(Initial, events).db, defs, 0, outcomes, m);
  }

  /** `Up` after a successful `Up` changes nothing and succeeds, whatever the database would do. */
  lemma UpAgainChangesNothing(events: seq<Event>, defs: seq<Migration>, outcomes: nat -> Outcome, again: nat -> Outcome)
    requires Loads(Run(Initial, events).readings, Ok(defs))
    requires Complete(Run(Initial, events).db, Loaded(defs), outcomes).1.Succeeded?
    ensures var end := Complete(Run(Initial, events).db, Loaded(defs), outcomes);
            Complete(end.0, Loaded(defs), again) == end
  {
    LoadedSound(events, defs);
    UpSucceedsIff(events, defs, outcomes);
    var (db', r') := Complete(Run(Initial, events).db, Loaded(defs), outcomes);
    forall v | v in db'.state ensures ValidRow(v, db'.state[v], defs) {
      assert db'.history[v - 1] == RowOf(defs[v - 1]);
      assert LastOfVersion(defs, v - 1);
    }
    NothingLeft(db', defs, 0, again);
  }

  lemma {:induction false} NothingLeft(db: Db, defs: seq<Migration>, next: nat, outcomes: nat -> Outcome)
    requires Numbered(defs) && DbSound(db, defs) && |db.history| == |defs| && next <= |defs|
    ensures Complete(db, Applying(defs, db.state, next), outcomes) == (db, Succeeded(defs, db.state))
    decreases |defs| - next
  {
    if next < |defs| {
      assert defs[next].version in db.state;
      NothingLeft(db, defs, next + 1, outcomes);
    }
  }
}
