/** `fetchGuildsCached`: a cache of guild lists shared by concurrent callers. Its three lock regions
    are pure decisions on the cache (`Lookup`, `Settle`, `AfterLimit`); the class runs them on the
    maps, and the state machine interleaves them between callers.
    Times are nanoseconds on the clock; 0 is Go's zero time. */
module GuildListCache {
  import opened Wrappers

  type Key = string
  type Guilds = seq<string>

  const SECOND: nat := 1_000_000_000
  const TTL: nat := 30 * SECOND
  const STALE: nat := 600 * SECOND

  datatype Entry = Entry(fetchedAt: nat, expiresAt: nat, blockedUntil: nat, retryAfter: nat, guilds: Guilds)

  const NoEntry := Entry(0, 0, 0, 0, [])

  /** What `FetchGuilds` returns. The client never reports a negative retry delay. */
  datatype Fetch = Fetched(guilds: Guilds) | RateLimited(retryAfter: nat) | Failed(reason: string)

  /** What a caller gets back: a list, a public "too many requests" error, or a fetch result as it came. */
  datatype Reply = Served(guilds: Guilds) | TooManyRequests(retryAfter: int) | Raw(fetch: Fetch) | Cancelled

  /** What the first lock region decides; `C` is the kind of in-flight record. */
  datatype Decision<C> = HitWhileLimited | Hit | Limited(retryAfter: int) | Join(call: C) | Lead

  function Max(a: int, b: int): int { if a < b then b else a }

  function EntryAt(entries: map<Key, Entry>, key: Key): Entry {
    if key in entries then entries[key] else NoEntry
  }

  predicate FreshEnough(entry: Entry, now: nat) {
    entry.guilds != [] && now - entry.fetchedAt <= STALE
  }

  /** First lock region. `clock` is the second reading that `time.Until` takes. */
  function Lookup<C>(entries: map<Key, Entry>, inflight: map<Key, C>, key: Key, now: nat, clock: nat): Decision<C> {
    if key in entries && now < entries[key].blockedUntil then
      if FreshEnough(entries[key], now) then HitWhileLimited
      else Limited(Max(entries[key].blockedUntil - clock, 0))
    else if key in entries && now < entries[key].expiresAt && entries[key].guilds != [] then Hit
    else if key in inflight then Join(inflight[key])
    else Lead
  }

  /** Second lock region: the entry after a fetch that its leader began at `now`. */
  function Settle(entry: Entry, now: nat, result: Fetch): Entry {
    match result
    case Fetched(guilds) => Entry(now, now + TTL, 0, 0, guilds)
    case RateLimited(retry) =>
      var limited := entry.(retryAfter := retry, blockedUntil := now + retry);
      if entry.guilds != [] && entry.expiresAt < now + retry then limited.(expiresAt := now + retry) else limited
    case Failed(_) => entry
  }

  /** Third lock region, after a rate-limited fetch. */
  function AfterLimit(cached: Entry, now: nat): Reply {
    if FreshEnough(cached, now) then Served(cached.guilds) else TooManyRequests(cached.blockedUntil - now)
  }

  // ----- The cache as the source keeps it -----

  class Inflight {
    var result: Option<Fetch>

    constructor ()
      ensures result == None
    {
      result := None;
    }
  }

  class GuildCache {
    var entries: map<Key, Entry>
    var inflight: map<Key, Inflight>

    constructor ()
      ensures entries == map[] && inflight == map[]
    {
      entries, inflight := map[], map[];
    }

    /** Decides, and when the caller leads registers a fresh record. */
    method Enter(key: Key, now: nat, clock: nat) returns (decision: Decision<Inflight>, served: Guilds, record: Inflight?)
      modifies this`inflight
      ensures decision == Lookup(old(entries), old(inflight), key, now, clock)
      ensures decision.Hit? || decision.HitWhileLimited? ==> served == EntryAt(entries, key).guilds
      ensures decision.Lead? ==>
                record != null && fresh(record) && record.result == None && inflight == old(inflight)[key := record]
      ensures !decision.Lead? ==> record == null && inflight == old(inflight)
    {
      served, record := [], null;
      if key in entries {
        var entry := entries[key];
        if now < entry.blockedUntil {
          if |entry.guilds| > 0 && now - entry.fetchedAt <= STALE {
            return HitWhileLimited, entry.guilds, null;
          }
          var retry := entry.blockedUntil - clock;
          if retry < 0 { retry := 0; }
          return Limited(retry), [], null;
        }
        if now < entry.expiresAt && |entry.guilds| > 0 {
          return Hit, entry.guilds, null;
        }
      }
      if key in inflight { return Join(inflight[key]), [], null; }
      record := new Inflight();
      inflight := inflight[key := record];
      decision := Lead;
    }

    /** Stores the result of the leader's fetch and releases its waiters. */
    method Finish(record: Inflight, key: Key, now: nat, result: Fetch)
      modifies this, record
      ensures inflight == old(inflight) - {key}
      ensures entries == old(entries)[key := Settle(EntryAt(old(entries), key), now, result)]
      ensures record.result == Some(result)
    {
      inflight := inflight - {key};
      var entry := EntryAt(entries, key);
      match result {
        case Fetched(guilds) =>
          entry := entry.(guilds := guilds, fetchedAt := now, expiresAt := now + TTL);
          entry := entry.(blockedUntil := 0, retryAfter := 0);
        case RateLimited(retry) =>
          entry := entry.(retryAfter := retry, blockedUntil := now + retry);
          if |entry.guilds| > 0 && entry.expiresAt < now + retry {
            entry := entry.(expiresAt := now + retry);
          }
        case Failed(_) =>
      }
      entries := entries[key := entry];
      record.result := Some(result);
    }

    method Recheck(key: Key, now: nat) returns (reply: Reply)
      ensures reply == AfterLimit(EntryAt(entries, key), now)
    {
      var cached := EntryAt(entries, key);
      if |cached.guilds| > 0 && now - cached.fetchedAt <= STALE { return Served(cached.guilds); }
      return TooManyRequests(cached.blockedUntil - now);
    }
  }

  // ----- Concurrent callers -----

  type Pid = nat
  type CallId = nat

  /** How a caller came by its reply; `from` is when the list it was served had been fetched. */
  datatype Branch = ByHit(from: nat) | WhileLimited(from: nat) | ByFetch | ByWaiting(call: CallId) | Refused

  datatype Caller =
    | Arrived(key: Key, now: nat)
    | Leading(key: Key, now: nat, call: CallId)
    | Settling(key: Key, now: nat, call: CallId, result: Fetch)
    | Rechecking(key: Key, now: nat)
    | Waiting(key: Key, now: nat, call: CallId)
    | Replied(key: Key, now: nat, branch: Branch, reply: Reply)

  datatype Call = Call(key: Key, owner: Pid, result: Option<Fetch>)

  /** A fetch as its leader settled it, with the clock reading the leader began at. */
  datatype Settled = Settled(key: Key, now: nat, result: Fetch)

  /** `results`, `fetched` and `log` are history: what each call's fetch returned, every list ever fetched,
      with its key and the clock reading of its leader, and the fetches in the order they were settled. */
  datatype State = State(
    entries: map<Key, Entry>, inflight: map<Key, CallId>, calls: map<CallId, Call>, callers: map<Pid, Caller>,
    results: map<CallId, Fetch>, fetched: set<(Key, Guilds, nat)>, log: seq<Settled>)

  const Initial := State(map[], map[], map[], map[], map[], {}, [])

  datatype Event =
    | Arrive(p: Pid, key: Key, now: nat)
    | EnterRegion(p: Pid, clock: nat, call: CallId)
    | FetchReturns(p: Pid, result: Fetch)
    | FinishRegion(p: Pid)
    | RecheckRegion(p: Pid)
    | Wake(p: Pid)
    | Cancel(p: Pid)

  predicate Leads(caller: Caller) { caller.Leading? || caller.Settling? }

  ghost predicate Enabled(s: State, e: Event) {
    match e
    case Arrive(p, _, _) => p !in s.callers
    case EnterRegion(p, _, call) => p in s.callers && s.callers[p].Arrived? && call !in s.calls
    case FetchReturns(p, _) => p in s.callers && s.callers[p].Leading?
    case FinishRegion(p) => p in s.callers && s.callers[p].Settling? && s.callers[p].call in s.calls
    case RecheckRegion(p) => p in s.callers && s.callers[p].Rechecking?
    case Wake(p) =>
      p in s.callers && s.callers[p].Waiting? && s.callers[p].call in s.calls && s.calls[s.callers[p].call].result.Some?
    case Cancel(p) => p in s.callers && s.callers[p].Waiting?
  }

  function Reply1(c: Caller, branch: Branch, reply: Reply): Caller { Replied(c.key, c.now, branch, reply) }

  ghost function AfterEnter(s: State, p: Pid, clock: nat, call: CallId): State
    requires p in s.callers && s.callers[p].Arrived?
  {
    var c := s.callers[p];
    var entry := EntryAt(s.entries, c.key);
    match Lookup(s.entries, s.inflight, c.key, c.now, clock)
    case HitWhileLimited => s.(callers := s.callers[p := Reply1(c, WhileLimited(entry.fetchedAt), Served(entry.guilds))])
    case Hit => s.(callers := s.callers[p := Reply1(c, ByHit(entry.fetchedAt), Served(entry.guilds))])
    case Limited(retry) => s.(callers := s.callers[p := Reply1(c, Refused, TooManyRequests(retry))])
    case Join(joined) => s.(callers := s.callers[p := Waiting(c.key, c.now, joined)])
    case Lead =>
      s.(callers := s.callers[p := Leading(c.key, c.now, call)],
         inflight := s.inflight[c.key := call],
         calls := s.calls[call := Call(c.key, p, None)])
  }

  ghost function AfterFinish(s: State, p: Pid): State
    requires p in s.callers && s.callers[p].Settling? && s.callers[p].call in s.calls
  {
    var c := s.callers[p];
    s.(inflight := s.inflight - {c.key},
       entries := s.entries[c.key := Settle(EntryAt(s.entries, c.key), c.now, c.result)],
       calls := s.calls[c.call := s.calls[c.call].(result := Some(c.result))],
       log := s.log + [Settled(c.key, c.now, c.result)],
       callers := s.callers[p :=
         match c.result
         case Fetched(guilds) => Reply1(c, ByFetch, Served(guilds))
         case RateLimited(_) => Rechecking(c.key, c.now)
         case Failed(_) => Reply1(c, Refused, Raw(c.result))])
  }

  ghost function After(s: State, e: Event): State
    requires Enabled(s, e)
  {
    match e
    case Arrive(p, key, now) => s.(callers := s.callers[p := Arrived(key, now)])
    case EnterRegion(p, clock, call) => AfterEnter(s, p, clock, call)
    case FetchReturns(p, result) =>
      var c := s.callers[p];
      s.(callers := s.callers[p := Settling(c.key, c.now, c.call, result)],
         results := s.results[c.call := result],
         fetched := if result.Fetched? then s.fetched + {(c.key, result.guilds, c.now)} else s.fetched)
    case FinishRegion(p) => AfterFinish(s, p)
    case RecheckRegion(p) =>
      var c := s.callers[p];
      var cached := EntryAt(s.entries, c.key);
      var reply := AfterLimit(cached, c.now);
      s.(callers := s.callers[p := Reply1(c, if reply.Served? then WhileLimited(cached.fetchedAt) else Refused, reply)])
    case Wake(p) =>
      var c := s.callers[p];
      s.(callers := s.callers[p := Reply1(c, ByWaiting(c.call), Raw(s.calls[c.call].result.value))])
    case Cancel(p) => s.(callers := s.callers[p := Reply1(s.callers[p], Refused, Cancelled)])
  }

  /** The state after a sequence of events; an event that cannot happen is skipped. */
  ghost function Run(s: State, events: seq<Event>): State
    decreases |events|
  {
    if events == [] then s
    else Run(if Enabled(s, events[0]) then After(s, events[0]) else s, events[1..])
  }

  // ----- What every reachable state satisfies -----

  /** A leader's call is the one registered for its key, is its own, and is open. */
  ghost predicate LeadersRegistered(s: State) {
    forall p :: p in s.callers && Leads(s.callers[p]) ==> Registered(s, p, s.callers[p])
  }

  ghost predicate Registered(s: State, p: Pid, c: Caller)
    requires Leads(c)
  {
    && c.key in s.inflight && s.inflight[c.key] == c.call
    && c.call in s.calls && s.calls[c.call] == Call(c.key, p, None)
  }

  /** A registered call, and any open call, has a live leader. */
  ghost predicate CallsLed(s: State) {
    && (forall key :: key in s.inflight ==> OpenFor(s, s.inflight[key], key))
    && (forall call :: call in s.calls && s.calls[call].result == None ==> HasLeader(s, call))
  }

  ghost predicate OpenFor(s: State, call: CallId, key: Key) {
    call in s.calls && s.calls[call].key == key && s.calls[call].result == None
  }

  ghost predicate HasLeader(s: State, call: CallId)
    requires call in s.calls
  {
    var owner := s.calls[call].owner;
    owner in s.callers && Leads(s.callers[owner]) && s.callers[owner].call == call && s.callers[owner].key == s.calls[call].key
  }

  ghost predicate WaitersJoined(s: State) {
    forall p :: p in s.callers && s.callers[p].Waiting? ==>
      s.callers[p].call in s.calls && s.calls[s.callers[p].call].key == s.callers[p].key
  }

  ghost predicate OnceFetched(s: State, key: Key, guilds: Guilds) {
    exists at :: (key, guilds, at) in s.fetched
  }

  /** Results belong to calls; a closed call holds its leader's result; lists were fetched for the call's key. */
  ghost predicate ResultsRecorded(s: State) {
    && (forall call :: call in s.results ==> ResultOfCall(s, call))
    && (forall call :: call in s.calls && s.calls[call].result.Some? ==> ClosedWith(s, call, s.calls[call].result.value))
    && (forall p :: p in s.callers && s.callers[p].Settling? ==> SettlesResult(s, s.callers[p]))
  }

  ghost predicate ResultOfCall(s: State, call: CallId)
    requires call in s.results
  {
    call in s.calls && (s.results[call].Fetched? ==> OnceFetched(s, s.calls[call].key, s.results[call].guilds))
  }

  ghost predicate ClosedWith(s: State, call: CallId, result: Fetch) {
    call in s.results && s.results[call] == result
  }

  ghost predicate SettlesResult(s: State, c: Caller)
    requires c.Settling?
  {
    && ClosedWith(s, c.call, c.result)
    && (c.result.Fetched? ==> (c.key, c.result.guilds, c.now) in s.fetched)
  }

  /** The rate-limit branch may push `expiresAt`, but never past the block it sets. */
  ghost predicate EntriesSound(s: State) {
    forall key :: key in s.entries ==> EntrySound(s, key, s.entries[key])
  }

  ghost predicate EntrySound(s: State, key: Key, entry: Entry) {
    && entry.expiresAt <= Max(entry.fetchedAt + TTL, entry.blockedUntil)
    && (entry.guilds != [] ==> (key, entry.guilds, entry.fetchedAt) in s.fetched)
  }

  /** While a leader is under way, the block of its key is already over at its clock reading. */
  ghost predicate LeadersUnblocked(s: State) {
    forall p :: p in s.callers && Leads(s.callers[p]) ==> EntryAt(s.entries, s.callers[p].key).blockedUntil <= s.callers[p].now
  }

  /** What a reply may be. */
  ghost predicate ReplySound(s: State, c: Caller)
    requires c.Replied?
  {
    match c.branch
    case ByHit(from) =>
      c.reply.Served? && (c.key, c.reply.guilds, from) in s.fetched && c.now < from + TTL
    case WhileLimited(from) =>
      c.reply.Served? && (c.key, c.reply.guilds, from) in s.fetched && c.now <= from + STALE
    case ByFetch =>
      c.reply.Served? && (c.key, c.reply.guilds, c.now) in s.fetched
    case ByWaiting(call) =>
      && call in s.calls && s.calls[call].key == c.key
      && s.calls[call].result.Some? && c.reply == Raw(s.calls[call].result.value)
    case Refused => !c.reply.Served? && !(c.reply.Raw? && c.reply.fetch.Fetched?)
  }

  ghost predicate RepliesSound(s: State) {
    forall p :: p in s.callers && s.callers[p].Replied? ==> ReplySound(s, s.callers[p])
  }

  // What the settled fetches of a key amount to.

  /** When the last list of a key was fetched, and the list. */
  ghost function LastList(log: seq<Settled>, key: Key): Option<(nat, Guilds)> {
    if log == [] then None
    else
      var last := log[|log| - 1];
      if last.key == key && last.result.Fetched? then Some((last.now, last.result.guilds)) else LastList(log[..|log| - 1], key)
  }

  /** The last rate limit of a key, if no list came after it: when its leader began, and its delay. */
  ghost function LastLimit(log: seq<Settled>, key: Key): Option<(nat, nat)> {
    if log == [] then None
    else
      var last := log[|log| - 1];
      if last.key == key && last.result.Fetched? then None
      else if last.key == key && last.result.RateLimited? then Some((last.now, last.result.retryAfter))
      else LastLimit(log[..|log| - 1], key)
  }

  /** The entry of a key holds its last list, is blocked as its last rate limit says, and keeps the list for
      at least the usual time. */
  ghost predicate Reflects(entry: Entry, list: Option<(nat, Guilds)>, limit: Option<(nat, nat)>) {
    && (list.None? ==> entry.guilds == [])
    && (list.Some? ==> entry.fetchedAt == list.value.0 && entry.guilds == list.value.1 && list.value.0 + TTL <= entry.expiresAt)
    && entry.blockedUntil == if limit.Some? then limit.value.0 + limit.value.1 else 0
  }

  ghost predicate EntriesReflectLog(s: State) {
    forall key :: Reflects(EntryAt(s.entries, key), LastList(s.log, key), LastLimit(s.log, key))
  }

  ghost predicate Inv(s: State) {
    && LeadersRegistered(s) && CallsLed(s) && WaitersJoined(s) && ResultsRecorded(s)
    && EntriesSound(s) && LeadersUnblocked(s) && RepliesSound(s) && EntriesReflectLog(s)
  }

  lemma KeepsEntriesReflectLog(s: State, e: Event)
    requires EntriesReflectLog(s) && Enabled(s, e)
    ensures EntriesReflectLog(After(s, e))
  {
    match e {
      case FinishRegion(p) => FinishReflects(s, p);
      case _ =>
        var s' := After(s, e);
        assert s'.entries == s.entries && s'.log == s.log;
    }
  }

  lemma FinishReflects(s: State, p: Pid)
    requires EntriesReflectLog(s) && Enabled(s, FinishRegion(p))
    ensures EntriesReflectLog(AfterFinish(s, p))
  {
    var s', c := AfterFinish(s, p), s.callers[p];
    forall key ensures Reflects(EntryAt(s'.entries, key), LastList(s'.log, key), LastLimit(s'.log, key)) {
      assert Reflects(EntryAt(s.entries, key), LastList(s.log, key), LastLimit(s.log, key));
      assert s'.log[..|s'.log| - 1] == s.log;
    }
  }

  lemma KeepsLeadersRegistered(s: State, e: Event)
    requires LeadersRegistered(s) && CallsLed(s) && Enabled(s, e)
    ensures LeadersRegistered(After(s, e))
  {
    match e {
      case EnterRegion(p, clock, call) => EnterKeepsLeaders(s, p, clock, call);
      case FinishRegion(p) => FinishKeepsLeaders(s, p);
      case _ =>
        var s' := After(s, e);
        forall q | q in s'.callers && Leads(s'.callers[q]) ensures Registered(s', q, s'.callers[q]) {
          assert Registered(s, q, s.callers[q]);
        }
    }
  }

  lemma EnterKeepsLeaders(s: State, p: Pid, clock: nat, call: CallId)
    requires LeadersRegistered(s) && Enabled(s, EnterRegion(p, clock, call))
    ensures LeadersRegistered(AfterEnter(s, p, clock, call))
  {
    var s' := AfterEnter(s, p, clock, call);
    forall q | q in s'.callers && Leads(s'.callers[q]) ensures Registered(s', q, s'.callers[q]) {
      if q != p { assert Registered(s, q, s.callers[q]); }
    }
  }

  lemma FinishKeepsLeaders(s: State, p: Pid)
    requires LeadersRegistered(s) && Enabled(s, FinishRegion(p))
    ensures LeadersRegistered(AfterFinish(s, p))
  {
    var s' := AfterFinish(s, p);
    forall q | q in s'.callers && Leads(s'.callers[q]) ensures Registered(s', q, s'.callers[q]) {
      assert q != p && Registered(s, q, s.callers[q]) && Registered(s, p, s.callers[p]);
    }
  }

  lemma KeepsCallsLed(s: State, e: Event)
    requires LeadersRegistered(s) && CallsLed(s) && Enabled(s, e)
    ensures CallsLed(After(s, e))
  {
    match e {
      case EnterRegion(p, clock, call) => EnterKeepsCalls(s, p, clock, call);
      case FinishRegion(p) => FinishKeepsCalls(s, p);
      case _ =>
        var s' := After(s, e);
        forall call | call in s'.calls && s'.calls[call].result == None ensures HasLeader(s', call) {
          assert HasLeader(s, call);
        }
    }
  }

  lemma EnterKeepsCalls(s: State, p: Pid, clock: nat, call: CallId)
    requires CallsLed(s) && Enabled(s, EnterRegion(p, clock, call))
    ensures CallsLed(AfterEnter(s, p, clock, call))
  {
    EnterKeepsOpen(s, p, clock, call);
    var s' := AfterEnter(s, p, clock, call);
    forall c | c in s'.calls && s'.calls[c].result == None ensures HasLeader(s', c) {
      if c in s.calls { assert HasLeader(s, c); }
    }
  }

  lemma EnterKeepsOpen(s: State, p: Pid, clock: nat, call: CallId)
    requires CallsLed(s) && Enabled(s, EnterRegion(p, clock, call))
    ensures var s' := AfterEnter(s, p, clock, call); forall key :: key in s'.inflight ==> OpenFor(s', s'.inflight[key], key)
  {
    var s' := AfterEnter(s, p, clock, call);
    forall key | key in s'.inflight ensures OpenFor(s', s'.inflight[key], key) {
      if key in s.inflight { assert OpenFor(s, s.inflight[key], key); }
    }
  }

  lemma FinishKeepsCalls(s: State, p: Pid)
    requires LeadersRegistered(s) && CallsLed(s) && Enabled(s, FinishRegion(p))
    ensures CallsLed(AfterFinish(s, p))
  {
    var s' := AfterFinish(s, p);
    assert Registered(s, p, s.callers[p]);
    forall c | c in s'.calls && s'.calls[c].result == None ensures HasLeader(s', c) {
      assert HasLeader(s, c) && s.callers[p].call != c;
    }
  }

  lemma KeepsWaitersJoined(s: State, e: Event)
    requires WaitersJoined(s) && CallsLed(s) && Enabled(s, e)
    ensures WaitersJoined(After(s, e))
  {
  }

  lemma KeepsResultsRecorded(s: State, e: Event)
    requires LeadersRegistered(s) && CallsLed(s) && ResultsRecorded(s) && Enabled(s, e)
    ensures ResultsRecorded(After(s, e))
  {
    if e.FetchReturns? {
      FetchRecords(s, e.p, e.result);
    } else {
      KeepsResultOfCalls(s, e);
      KeepsClosed(s, e);
      KeepsSettling(s, e);
    }
  }

  lemma KeepsResultOfCalls(s: State, e: Event)
    requires ResultsRecorded(s) && Enabled(s, e) && !e.FetchReturns?
    ensures forall call :: call in After(s, e).results ==> ResultOfCall(After(s, e), call)
  {
    var s' := After(s, e);
    forall call | call in s'.results ensures ResultOfCall(s', call) {
      assert ResultOfCall(s, call);
      assert s'.calls[call].key == s.calls[call].key;
      if s.results[call].Fetched? {
        assert OnceFetched(s, s.calls[call].key, s.results[call].guilds);
      }
    }
  }

  lemma KeepsClosed(s: State, e: Event)
    requires ResultsRecorded(s) && Enabled(s, e) && !e.FetchReturns?
    ensures forall call :: call in After(s, e).calls && After(s, e).calls[call].result.Some? ==>
              ClosedWith(After(s, e), call, After(s, e).calls[call].result.value)
  {
    var s' := After(s, e);
    forall call | call in s'.calls && s'.calls[call].result.Some? ensures ClosedWith(s', call, s'.calls[call].result.value) {
      if e.FinishRegion? && call == s.callers[e.p].call {
        assert SettlesResult(s, s.callers[e.p]);
      } else {
        assert ClosedWith(s, call, s.calls[call].result.value);
      }
    }
  }

  lemma KeepsSettling(s: State, e: Event)
    requires ResultsRecorded(s) && Enabled(s, e) && !e.FetchReturns?
    ensures forall q :: q in After(s, e).callers && After(s, e).callers[q].Settling? ==>
              SettlesResult(After(s, e), After(s, e).callers[q])
  {
    var s' := After(s, e);
    forall q | q in s'.callers && s'.callers[q].Settling? ensures SettlesResult(s', s'.callers[q]) {
      assert SettlesResult(s, s.callers[q]);
    }
  }

  lemma FetchRecords(s: State, p: Pid, result: Fetch)
    requires LeadersRegistered(s) && ResultsRecorded(s) && Enabled(s, FetchReturns(p, result))
    ensures ResultsRecorded(After(s, FetchReturns(p, result)))
  {
    var s' := After(s, FetchReturns(p, result));
    var c := s.callers[p];
    assert Registered(s, p, c);
    forall call | call in s'.results ensures ResultOfCall(s', call) {
      if call == c.call {
        assert result.Fetched? ==> (c.key, result.guilds, c.now) in s'.fetched;
      } else {
        assert ResultOfCall(s, call);
        if s.results[call].Fetched? {
          var at :| (s.calls[call].key, s.results[call].guilds, at) in s.fetched;
          assert (s'.calls[call].key, s'.results[call].guilds, at) in s'.fetched;
        }
      }
    }
    forall call | call in s'.calls && s'.calls[call].result.Some? ensures ClosedWith(s', call, s'.calls[call].result.value) {
      assert ClosedWith(s, call, s.calls[call].result.value);
    }
    forall q | q in s'.callers && s'.callers[q].Settling? ensures SettlesResult(s', s'.callers[q]) {
      if q != p {
        assert SettlesResult(s, s.callers[q]);
        assert Registered(s, q, s.callers[q]);
      }
    }
  }

  lemma SettleKeepsEntry(entry: Entry, now: nat, result: Fetch)
    requires entry.expiresAt <= Max(entry.fetchedAt + TTL, entry.blockedUntil) && entry.blockedUntil <= now
    ensures var next := Settle(entry, now, result);
            next.expiresAt <= Max(next.fetchedAt + TTL, next.blockedUntil)
  {
  }

  lemma KeepsEntriesSound(s: State, e: Event)
    requires LeadersUnblocked(s) && EntriesSound(s) && ResultsRecorded(s) && Enabled(s, e)
    ensures EntriesSound(After(s, e))
  {
    match e {
      case FinishRegion(p) => FinishKeepsEntries(s, p);
      case _ =>
        var s' := After(s, e);
        assert s'.entries == s.entries && s.fetched <= s'.fetched;
        forall key | key in s'.entries ensures EntrySound(s', key, s'.entries[key]) { assert EntrySound(s, key, s.entries[key]); }
    }
  }

  lemma FinishKeepsEntries(s: State, p: Pid)
    requires LeadersUnblocked(s) && EntriesSound(s) && ResultsRecorded(s) && Enabled(s, FinishRegion(p))
    ensures EntriesSound(AfterFinish(s, p))
  {
    var s', c := AfterFinish(s, p), s.callers[p];
    assert SettlesResult(s, c);
    forall key | key in s'.entries ensures EntrySound(s', key, s'.entries[key]) {
      if key in s.entries { assert EntrySound(s, key, s.entries[key]); }
      if key == c.key { SettleKeepsEntry(EntryAt(s.entries, key), c.now, c.result); }
    }
  }

  lemma KeepsLeadersUnblocked(s: State, e: Event)
    requires LeadersRegistered(s) && LeadersUnblocked(s) && Enabled(s, e)
    ensures LeadersUnblocked(After(s, e))
  {
    match e {
      case EnterRegion(p, clock, call) =>
      case FinishRegion(p) => FinishKeepsUnblocked(s, p);
      case _ => assert After(s, e).entries == s.entries;
    }
  }

  lemma FinishKeepsUnblocked(s: State, p: Pid)
    requires LeadersRegistered(s) && LeadersUnblocked(s) && Enabled(s, FinishRegion(p))
    ensures LeadersUnblocked(AfterFinish(s, p))
  {
    var s' := AfterFinish(s, p);
    forall q | q in s'.callers && Leads(s'.callers[q])
      ensures EntryAt(s'.entries, s'.callers[q].key).blockedUntil <= s'.callers[q].now
    {
      assert Registered(s, q, s.callers[q]) && Registered(s, p, s.callers[p]);
      assert s.callers[q].key != s.callers[p].key;
    }
  }

  /** A step moves one caller, and keeps closed calls closed and fetched lists fetched. */
  ghost predicate Extends(s: State, s': State, p: Pid) {
    && s'.callers.Keys == s.callers.Keys + {p} && (forall q :: q in s.callers && q != p ==> s'.callers[q] == s.callers[q])
    && s.fetched <= s'.fetched
    && (forall call :: call in s.calls && s.calls[call].result.Some? ==> call in s'.calls && s'.calls[call] == s.calls[call])
  }

  lemma StepExtends(s: State, e: Event)
    requires LeadersRegistered(s) && Enabled(s, e)
    ensures Extends(s, After(s, e), e.p)
  {
    if e.FinishRegion? { assert Registered(s, e.p, s.callers[e.p]); }
  }

  lemma ReplyStays(s: State, s': State, p: Pid, c: Caller)
    requires c.Replied? && ReplySound(s, c) && Extends(s, s', p)
    ensures ReplySound(s', c)
  {
  }

  lemma KeepsReplies(s: State, e: Event)
    requires Inv(s) && Enabled(s, e)
    ensures RepliesSound(After(s, e))
  {
    var s' := After(s, e);
    StepExtends(s, e);
    forall q | q in s'.callers && s'.callers[q].Replied? ensures ReplySound(s', s'.callers[q]) {
      if q != e.p {
        ReplyStays(s, s', e.p, s.callers[q]);
      } else {
        NewReply(s, e);
      }
    }
  }

  lemma NewReply(s: State, e: Event)
    requires WaitersJoined(s) && ResultsRecorded(s) && EntriesSound(s) && Enabled(s, e)
    ensures e.p in After(s, e).callers
    ensures After(s, e).callers[e.p].Replied? ==> ReplySound(After(s, e), After(s, e).callers[e.p])
  {
    match e {
      case EnterRegion(p, clock, call) => EnterReplies(s, p, clock, call);
      case RecheckRegion(p) =>
        var key := s.callers[p].key;
        if key in s.entries { assert EntrySound(s, key, s.entries[key]); }
      case FinishRegion(p) => assert SettlesResult(s, s.callers[p]);
      case _ =>
    }
  }

  lemma EnterReplies(s: State, p: Pid, clock: nat, call: CallId)
    requires EntriesSound(s) && Enabled(s, EnterRegion(p, clock, call))
    ensures var s' := AfterEnter(s, p, clock, call);
            p in s'.callers && (s'.callers[p].Replied? ==> ReplySound(s', s'.callers[p]))
  {
    var key := s.callers[p].key;
    if key in s.entries { assert EntrySound(s, key, s.entries[key]); }
  }

  lemma StepKeeps(s: State, e: Event)
    requires Inv(s) && Enabled(s, e)
    ensures Inv(After(s, e))
  {
    KeepsLeadersRegistered(s, e);
    KeepsCallsLed(s, e);
    KeepsWaitersJoined(s, e);
    KeepsResultsRecorded(s, e);
    KeepsEntriesSound(s, e);
    KeepsLeadersUnblocked(s, e);
    KeepsReplies(s, e);
    KeepsEntriesReflectLog(s, e);
  }

  lemma {:induction false} RunKeeps(s: State, events: seq<Event>)
    requires Inv(s)
    ensures Inv(Run(s, events))
    decreases |events|
  {
    if events != [] {
      if Enabled(s, events[0]) {
        StepKeeps(s, events[0]);
        RunKeeps(After(s, events[0]), events[1..]);
      } else {
        RunKeeps(s, events[1..]);
      }
    }
  }

  /** In every reachable state of every run, the invariant holds. */
  lemma Reachable(events: seq<Event>)
    ensures Inv(Run(Initial, events))
  {
    RunKeeps(Initial, events);
  }

  // ----- The main results -----

  ghost function Leaders(s: State, key: Key): set<Pid> {
    set p | p in s.callers && Leads(s.callers[p]) && s.callers[p].key == key
  }

  /** At most one fetch is under way for a key: one exactly when the key is registered. When the
      leader comes to delete the registration, it deletes its own. */
  lemma SingleFlight(events: seq<Event>, key: Key)
    ensures var s := Run(Initial, events);
            && |Leaders(s, key)| == (if key in s.inflight then 1 else 0)
            && forall p :: p in Leaders(s, key) ==> key in s.inflight && s.inflight[key] == s.callers[p].call
  {
    Reachable(events);
    var s := Run(Initial, events);
    if key in s.inflight {
      var owner := s.calls[s.inflight[key]].owner;
      assert HasLeader(s, s.inflight[key]);
      assert Leaders(s, key) == {owner} by {
        forall p | p in Leaders(s, key) ensures p == owner {
          assert s.calls[s.callers[p].call].owner == p;
        }
      }
    } else {
      assert Leaders(s, key) == {};
    }
  }

  /** A waiter waits on a call for its own key that is closed or has a live leader; what it is woken
      with is that leader's fetch result, unchanged, even where the leader itself served a stale list. */
  lemma WaitersServed(events: seq<Event>, p: Pid)
    requires p in Run(Initial, events).callers
    ensures var s := Run(Initial, events);
            var c := s.callers[p];
            && (c.Waiting? ==>
                  && c.call in s.calls && s.calls[c.call].key == c.key
                  && (s.calls[c.call].result.Some? || HasLeader(s, c.call)))
            && (c.Replied? && c.branch.ByWaiting? ==>
                  && c.branch.call in s.results && c.reply == Raw(s.results[c.branch.call])
                  && c.branch.call in s.calls && s.calls[c.branch.call].key == c.key)
  {
    Reachable(events);
    var s := Run(Initial, events);
    if s.callers[p].Replied? {
      assert ReplySound(s, s.callers[p]);
    }
  }

  /** An ordinary hit is under 30 s old on the caller's clock, whatever the rate limiter did to the
      entry; a list served while limited is at most 10 minutes old. */
  lemma CacheAge(events: seq<Event>, p: Pid)
    requires p in Run(Initial, events).callers && Run(Initial, events).callers[p].Replied?
    ensures var s := Run(Initial, events);
            var c := s.callers[p];
            && (c.branch.ByHit? ==> c.reply.Served? && c.now < c.branch.from + TTL && (c.key, c.reply.guilds, c.branch.from) in s.fetched)
            && (c.branch.WhileLimited? ==> c.reply.Served? && c.now <= c.branch.from + STALE && (c.key, c.reply.guilds, c.branch.from) in s.fetched)
  {
    Reachable(events);
    assert ReplySound(Run(Initial, events), Run(Initial, events).callers[p]);
  }

  /** What a caller is given that arrives at `now`, from the last list and the last rate limit of its key. */
  ghost function Expected(c: Caller, list: Option<(nat, Guilds)>, limit: Option<(nat, nat)>, clock: nat): Option<Caller>
    requires c.Arrived?
  {
    var kept := list.Some? && list.value.1 != [];
    if limit.Some? && c.now < limit.value.0 + limit.value.1 then
      if kept && c.now <= list.value.0 + STALE then Some(Replied(c.key, c.now, WhileLimited(list.value.0), Served(list.value.1)))
      else
        var wait := limit.value.0 + limit.value.1 - clock;
        Some(Replied(c.key, c.now, Refused, TooManyRequests(if wait < 0 then 0 else wait)))
    else if kept && c.now < list.value.0 + TTL then
      Some(Replied(c.key, c.now, ByHit(list.value.0), Served(list.value.1)))
    else None
  }

  /** In every reachable state, entering depends on the settled fetches of the key alone: while a rate limit
      lasts, no fetch starts, and the last list is served for 10 minutes; a list is served for 30 s from its
      fetch; otherwise the caller waits on the fetch under way, or starts one. */
  lemma EnterExactly(events: seq<Event>, p: Pid, clock: nat, call: CallId)
    requires Enabled(Run(Initial, events), EnterRegion(p, clock, call))
    ensures var s := Run(Initial, events);
            var c := s.callers[p];
            var s' := After(s, EnterRegion(p, clock, call));
            match Expected(c, LastList(s.log, c.key), LastLimit(s.log, c.key), clock)
            case Some(reply) => s' == s.(callers := s.callers[p := reply])
            case None =>
              if c.key in s.inflight then s' == s.(callers := s.callers[p := Waiting(c.key, c.now, s.inflight[c.key])])
              else s' == s.(callers := s.callers[p := Leading(c.key, c.now, call)], inflight := s.inflight[c.key := call],
                            calls := s.calls[call := Call(c.key, p, None)])
  {
    Reachable(events);
    var s := Run(Initial, events);
    var key := s.callers[p].key;
    assert Reflects(EntryAt(s.entries, key), LastList(s.log, key), LastLimit(s.log, key));
    if key in s.entries { assert EntrySound(s, key, s.entries[key]); }
    LookupExpected(s, s.callers[p], LastList(s.log, key), LastLimit(s.log, key), clock);
  }

  lemma LookupExpected(s: State, c: Caller, list: Option<(nat, Guilds)>, limit: Option<(nat, nat)>, clock: nat)
    requires c.Arrived? && Reflects(EntryAt(s.entries, c.key), list, limit)
    requires var entry := EntryAt(s.entries, c.key); entry.expiresAt <= Max(entry.fetchedAt + TTL, entry.blockedUntil)
    ensures var entry := EntryAt(s.entries, c.key);
            Expected(c, list, limit, clock) ==
            match Lookup(s.entries, s.inflight, c.key, c.now, clock)
            case HitWhileLimited => Some(Reply1(c, WhileLimited(entry.fetchedAt), Served(entry.guilds)))
            case Hit => Some(Reply1(c, ByHit(entry.fetchedAt), Served(entry.guilds)))
            case Limited(retry) => Some(Reply1(c, Refused, TooManyRequests(retry)))
            case _ => None
  {
  }

  /** So a fresh list is served: a caller that comes less than 30 s after the last fetch of its key began,
      with no rate limit settled since, is given that list, and nothing else changes. */
  lemma FreshListServed(events: seq<Event>, p: Pid, clock: nat, call: CallId, i: nat)
    requires Enabled(Run(Initial, events), EnterRegion(p, clock, call)) && i < |Run(Initial, events).log|
    requires var s := Run(Initial, events);
             && s.log[i].key == s.callers[p].key && s.log[i].result.Fetched? && s.log[i].result.guilds != []
             && s.callers[p].now < s.log[i].now + TTL
             && forall j :: i < j < |s.log| && s.log[j].key == s.log[i].key ==> s.log[j].result.Failed?
    ensures var s := Run(Initial, events);
            var c := s.callers[p];
            After(s, EnterRegion(p, clock, call)) ==
            s.(callers := s.callers[p := Replied(c.key, c.now, ByHit(s.log[i].now), Served(s.log[i].result.guilds))])
  {
    EnterExactly(events, p, clock, call);
    LastAt(Run(Initial, events).log, i);
  }

  lemma {:induction false} LastAt(log: seq<Settled>, i: nat)
    requires i < |log| && forall j :: i < j < |log| && log[j].key == log[i].key ==> log[j].result.Failed?
    ensures log[i].result.Fetched? ==> LastList(log, log[i].key) == Some((log[i].now, log[i].result.guilds)) && LastLimit(log, log[i].key) == None
    ensures log[i].result.RateLimited? ==> LastLimit(log, log[i].key) == Some((log[i].now, log[i].result.retryAfter))
  {
    if i < |log| - 1 { LastAt(log[..|log| - 1], i); }
  }

  /** After a rate limit nobody fetches until its delay is over: whoever comes before that has a reply. */
  lemma LimitRespected(events: seq<Event>, p: Pid, clock: nat, call: CallId, i: nat)
    requires Enabled(Run(Initial, events), EnterRegion(p, clock, call)) && i < |Run(Initial, events).log|
    requires var s := Run(Initial, events);
             && s.log[i].key == s.callers[p].key && s.log[i].result.RateLimited?
             && s.callers[p].now < s.log[i].now + s.log[i].result.retryAfter
             && forall j :: i < j < |s.log| && s.log[j].key == s.log[i].key ==> s.log[j].result.Failed?
    ensures var s := Run(Initial, events);
            var s' := After(s, EnterRegion(p, clock, call));
            && s'.inflight == s.inflight && s'.calls == s.calls && s'.callers[p].Replied?
            && (s'.callers[p].reply.Served? || s'.callers[p].reply.TooManyRequests?)
  {
    EnterExactly(events, p, clock, call);
    LastAt(Run(Initial, events).log, i);
  }

  /** After its own rate-limited fetch a leader is given the last list there is, for 10 minutes, and otherwise
      told how long the key is blocked from when it arrived. */
  lemma RecheckExactly(events: seq<Event>, p: Pid)
    requires Enabled(Run(Initial, events), RecheckRegion(p))
    ensures var s := Run(Initial, events);
            var c, list, limit := s.callers[p], LastList(s.log, s.callers[p].key), LastLimit(s.log, s.callers[p].key);
            After(s, RecheckRegion(p)) == s.(callers := s.callers[p :=
              if list.Some? && list.value.1 != [] && c.now <= list.value.0 + STALE then
                Replied(c.key, c.now, WhileLimited(list.value.0), Served(list.value.1))
              else
                Replied(c.key, c.now, Refused, TooManyRequests((if limit.Some? then limit.value.0 + limit.value.1 else 0) - c.now))])
  {
    Reachable(events);
    var s := Run(Initial, events);
    var key := s.callers[p].key;
    assert Reflects(EntryAt(s.entries, key), LastList(s.log, key), LastLimit(s.log, key));
  }

  /** A settled fetch goes into the log, frees the key, closes its call, and answers its leader unless it
      was rate limited. */
  lemma FinishExactly(s: State, p: Pid)
    requires Enabled(s, FinishRegion(p))
    ensures var c, s' := s.callers[p], After(s, FinishRegion(p));
            && s'.log == s.log + [Settled(c.key, c.now, c.result)] && c.key !in s'.inflight
            && s'.calls[c.call].result == Some(c.result)
            && (c.result.Fetched? ==> s'.callers[p] == Replied(c.key, c.now, ByFetch, Served(c.result.guilds)))
            && (c.result.Failed? ==> s'.callers[p] == Replied(c.key, c.now, Refused, Raw(c.result)))
            && (c.result.RateLimited? ==> s'.callers[p].Rechecking?)
            && forall q :: q in s.callers && q != p ==> q in s'.callers && s'.callers[q] == s.callers[q]
  {
  }

  /** The list in a reply, if there is one. */
  function ListIn(reply: Reply): Option<Guilds> {
    match reply
    case Served(guilds) => Some(guilds)
    case Raw(Fetched(guilds)) => Some(guilds)
    case _ => None
  }

  /** Every list a caller is given was fetched for that same key. */
  lemma ListsWereFetched(events: seq<Event>, p: Pid)
    requires p in Run(Initial, events).callers && Run(Initial, events).callers[p].Replied?
    ensures var s := Run(Initial, events);
            var c := s.callers[p];
            ListIn(c.reply).Some? ==> OnceFetched(s, c.key, ListIn(c.reply).value)
  {
    Reachable(events);
    var s := Run(Initial, events);
    var c := s.callers[p];
    assert ReplySound(s, c);
    if ListIn(c.reply).Some? {
      match c.branch {
        case ByHit(from) => assert (c.key, c.reply.guilds, from) in s.fetched;
        case WhileLimited(from) => assert (c.key, c.reply.guilds, from) in s.fetched;
        case ByFetch => assert (c.key, c.reply.guilds, c.now) in s.fetched;
        case ByWaiting(call) => assert OnceFetched(s, s.calls[call].key, s.results[call].guilds);
      }
    }
  }
}
