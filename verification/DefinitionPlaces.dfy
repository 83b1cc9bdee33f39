/** Where a definition declares its command paths, ids and routes: each entry that the validator makes
    into a table belongs to one place of the definition, and what clashes is said of the places. */
module DefinitionPlaces {
  import opened Wrappers
  import opened GoText
  import opened PluginContract
  import opened DefinitionValidation
  import opened RouteTheorems

  // ----- Path keys -----

  lemma {:induction false} SplitJoined(parts: seq<string>)
    requires parts != [] && forall i :: 0 <= i < |parts| ==> ' ' !in parts[i]
    ensures Split(Join(parts, " "), ' ') == parts
  {
    if |parts| == 1 {
      SplitFree(parts[0], ' ');
    } else {
      SplitJoined(parts[1..]);
      SplitOnce(parts[0], ' ', Join(parts[1..], " "));
    }
  }

  /** The lower-cased paths of accepted commands: any depth of slash names, or one name of a context command. */
  ghost predicate PathShape(kind: CommandKind, path: seq<string>) {
    if kind.Slash? then path != [] && forall i :: 0 <= i < |path| ==> SlashName(path[i])
    else ContextKind(kind) && |path| == 1
  }

  /** The key of a path tells the kind of the root command and the path. */
  lemma PathKeyTells(kind: CommandKind, path: seq<string>, kind': CommandKind, path': seq<string>)
    requires PathShape(kind, path) && PathShape(kind', path')
    ensures PathKey(kind, path) == PathKey(kind', path') <==> kind == kind' && path == path'
  {
    var key, key' := PathKey(kind, path), PathKey(kind', path');
    if key == key' {
      assert key[0] == KindText(kind)[0] && key'[0] == KindText(kind')[0];
      assert kind == kind';
      var n := |KindText(kind)| + 1;
      assert key[n..] == Join(path, " ") && key'[n..] == Join(path', " ");
      if kind.Slash? {
        SlashFree(path);
        SlashFree(path');
        SplitJoined(path);
        SplitJoined(path');
      }
    }
  }

  lemma SlashFree(path: seq<string>)
    requires forall i :: 0 <= i < |path| ==> SlashName(path[i])
    ensures forall i :: 0 <= i < |path| ==> ' ' !in path[i]
  {
    forall i | 0 <= i < |path| ensures ' ' !in path[i] {
      assert SlashName(path[i]);
      assert forall k :: 0 <= k < |path[i]| ==> path[i][k] != ' ';
    }
  }

  // ----- Counting entries by their places -----

  /** `m` things satisfy `p`, as far as none, one and more are told apart. */
  ghost predicate Counts<T(!new)>(m: nat, p: T -> bool) {
    && (m == 0 <==> forall x :: !p(x))
    && (m <= 1 <==> forall x, y :: p(x) && p(y) ==> x == y)
  }

  lemma CountsUnion<T(!new)>(m: nat, p: T -> bool, n: nat, q: T -> bool, both: T -> bool)
    requires Counts(m, p) && Counts(n, q)
    requires forall x :: both(x) <==> p(x) || q(x)
    requires forall x :: !(p(x) && q(x))
    ensures Counts(m + n, both)
  {
    if m == 0 {
      assert forall x :: both(x) <==> q(x);
    } else if n == 0 {
      assert forall x :: both(x) <==> p(x);
    } else {
      var x :| p(x);
      var y :| q(y);
      assert both(x) && both(y) && x != y;
    }
  }

  lemma CountsSame<T(!new)>(m: nat, p: T -> bool, q: T -> bool)
    requires Counts(m, p) && forall x :: p(x) <==> q(x)
    ensures Counts(m, q)
  {
  }

  /** One thing, or none. */
  lemma CountsOne<T(!new)>(m: nat, p: T -> bool, x: T)
    requires forall y :: p(y) ==> y == x
    requires m == if p(x) then 1 else 0
    ensures Counts(m, p)
  {
  }

  /** Positions below the child `k`. */
  lemma CountsUnder(m: nat, p: seq<nat> -> bool, q: seq<nat> -> bool, k: nat)
    requires Counts(m, p)
    requires forall x: seq<nat> :: q(x) <==> x != [] && x[0] == k && p(x[1..])
    ensures Counts(m, q)
  {
    forall x | p(x) ensures q([k] + x) { assert ([k] + x)[1..] == x; }
    if m == 0 {
      forall x ensures !q(x) { if x != [] { assert !p(x[1..]); } }
    } else {
      var x :| p(x);
      assert q([k] + x);
    }
    if m <= 1 {
      forall x, y | q(x) && q(y) ensures x == y { assert x == [k] + x[1..] && y == [k] + y[1..] && x[1..] == y[1..]; }
    } else {
      var x, y :| p(x) && p(y) && x != y;
      assert q([k] + x) && q([k] + y);
      assert ([k] + x)[1..] == x && ([k] + y)[1..] == y;
    }
  }

  // ----- The claims that are entered once -----

  /** Paths, ids and owned routes: two such claims clash exactly when they are equal. */
  predicate Sole(c: Claim) { c.PathUsed? || c.IdUsed? || (c.RouteUsed? && c.use.Owned?) }

  function Times(claims: seq<Claim>, c: Claim): nat {
    if claims == [] then 0 else (if claims[0] == c then 1 else 0) + Times(claims[1..], c)
  }

  lemma {:induction false} TimesAppend(a: seq<Claim>, b: seq<Claim>, c: Claim)
    ensures Times(a + b, c) == Times(a, c) + Times(b, c)
  {
    if a == [] {
      assert a + b == b;
    } else {
      assert (a + b)[1..] == a[1..] + b;
      TimesAppend(a[1..], b, c);
    }
  }

  lemma {:induction false} TimesNone(claims: seq<Claim>, c: Claim)
    requires c !in claims
    ensures Times(claims, c) == 0
  {
    if claims != [] { TimesNone(claims[1..], c); }
  }

  lemma {:induction false} NoneInChecks(checks: seq<Check>, c: Claim)
    requires Sole(c)
    ensures c !in ChecksClaims(checks) && Times(ChecksClaims(checks), c) == 0
  {
    if checks != [] { NoneInChecks(checks[1..], c); }
    TimesNone(ChecksClaims(checks), c);
  }

  lemma {:induction false} NoneInOptions(options: seq<OptionDefinition>, i: nat, c: Claim)
    requires i <= |options| && Sole(c)
    ensures c !in OptionsClaimsFrom(options, i)
    decreases |options| - i
  {
    if i < |options| { NoneInOptions(options, i + 1, c); }
  }

  lemma TimesOptions(options: seq<OptionDefinition>, c: Claim)
    requires Sole(c)
    ensures Times(OptionsClaims(options), c) == 0
  {
    NoneInOptions(options, 0, c);
    TimesNone(OptionsClaims(options), c);
  }

  lemma TimesTwo(a: Claim, b: Claim, c: Claim)
    ensures Times([a, b], c) == (if a == c then 1 else 0) + (if b == c then 1 else 0)
  {
    assert [a, b][1..] == [b] && [b][1..] == [];
    assert Times([b], c) == if b == c then 1 else 0;
  }

  lemma TimesFour(head: seq<Claim>, c: Claim)
    requires |head| == 4
    ensures Times(head, c) == (if head[0] == c then 1 else 0) + (if head[1] == c then 1 else 0)
                            + (if head[2] == c then 1 else 0) + (if head[3] == c then 1 else 0)
  {
    var x, y := [head[0], head[1]], [head[2], head[3]];
    assert head == x + y;
    TimesAppend(x, y, c);
    TimesTwo(head[0], head[1], c);
    TimesTwo(head[2], head[3], c);
  }

  // ----- Commands -----

  /** The lower-cased names on the way to a position, the command's own first. */
  ghost function PathBelow(command: Command, position: seq<nat>): seq<string>
    decreases |position|
  {
    [PathName(command)]
    + if position == [] || position[0] >= |command.children| then []
      else PathBelow(command.children[position[0]], position[1..])
  }

  /** What the command at a position enters: its path, and its route if it is a leaf. */
  ghost predicate Enters(command: Command, kind: CommandKind, parent: seq<string>, position: seq<nat>, c: Claim) {
    var owner := CommandBelow(command, position);
    && owner.Some?
    && (|| c == PathUsed(PathKey(kind, parent + PathBelow(command, position)))
        || (!Container(owner.value) && c == RouteUsed(owner.value.route, Owned)))
  }

  ghost function Entering(command: Command, kind: CommandKind, parent: seq<string>, c: Claim): seq<nat> -> bool {
    p => Enters(command, kind, parent, p, c)
  }

  lemma OwnCounts(command: Command, kind: CommandKind, parent: seq<string>, c: Claim)
    requires Sole(c)
    ensures Times(OwnClaims(command, kind, parent), c) == if Enters(command, kind, parent, [], c) then 1 else 0
  {
    var head := OwnClaims(command, kind, parent)[..4];
    var options, checks := OptionsClaims(command.options), ChecksClaims(command.checks);
    assert OwnClaims(command, kind, parent) == head + options + checks;
    TimesAppend(head + options, checks, c);
    TimesAppend(head, options, c);
    NoneInChecks(command.checks, c);
    TimesOptions(command.options, c);
    OwnHeadCounts(command, kind, parent, head, c);
  }

  lemma OwnHeadCounts(command: Command, kind: CommandKind, parent: seq<string>, head: seq<Claim>, c: Claim)
    requires Sole(c) && |head| == 4 && head[0].Verdict? && head[3].Verdict?
    requires head[1] == PathUsed(PathKey(kind, parent + [PathName(command)]))
    requires if Container(command) then head[2].Verdict? else head[2] == RouteUsed(command.route, Owned)
    ensures Times(head, c) == if Enters(command, kind, parent, [], c) then 1 else 0
  {
    TimesFour(head, c);
    assert PathBelow(command, []) == [PathName(command)];
  }

  /** At a position whose first step leads to one of these children, numbered from `k`. */
  ghost predicate EntersBelow(children: seq<Command>, k: nat, kind: CommandKind, path: seq<string>, p: seq<nat>, c: Claim) {
    p != [] && k <= p[0] < k + |children| && Enters(children[p[0] - k], kind, path, p[1..], c)
  }

  ghost function EnteringBelow(children: seq<Command>, k: nat, kind: CommandKind, path: seq<string>, c: Claim): seq<nat> -> bool {
    p => EntersBelow(children, k, kind, path, p, c)
  }

  lemma EntersLower(command: Command, kind: CommandKind, parent: seq<string>, p: seq<nat>, c: Claim)
    requires p != []
    ensures Enters(command, kind, parent, p, c) <==>
            EntersBelow(command.children, 0, kind, parent + [PathName(command)], p, c)
  {
    if p[0] < |command.children| {
      Regroup(parent, PathName(command), PathBelow(command.children[p[0]], p[1..]));
    }
  }

  ghost function EnteringHere(enters: bool): seq<nat> -> bool { p => p == [] && enters }

  ghost function EnteringUnder(k: nat, entering: seq<nat> -> bool): seq<nat> -> bool { p => p != [] && p[0] == k && entering(p[1..]) }

  lemma TreeSplit(command: Command, kind: CommandKind, parent: seq<string>, c: Claim, p: seq<nat>)
    ensures var here := EnteringHere(Enters(command, kind, parent, [], c));
            var below := EnteringBelow(command.children, 0, kind, parent + [PathName(command)], c);
            && (Entering(command, kind, parent, c)(p) <==> here(p) || below(p))
            && !(here(p) && below(p))
  {
    if p != [] { EntersLower(command, kind, parent, p, c); }
  }

  lemma ChildrenSplit(children: seq<Command>, k: nat, kind: CommandKind, path: seq<string>, c: Claim, p: seq<nat>)
    requires children != []
    ensures var here := EnteringUnder(k, Entering(children[0], kind, path, c));
            var later := EnteringBelow(children[1..], k + 1, kind, path, c);
            && (EnteringBelow(children, k, kind, path, c)(p) <==> here(p) || later(p))
            && !(here(p) && later(p))
  {
    if p != [] && k < p[0] < k + |children| { assert children[p[0] - k] == children[1..][p[0] - (k + 1)]; }
  }

  lemma {:induction false} TreeCounts(command: Command, kind: CommandKind, parent: seq<string>, c: Claim)
    requires Sole(c)
    ensures Counts(Times(CommandClaims(command, kind, parent), c), Entering(command, kind, parent, c))
    decreases command
  {
    var path := parent + [PathName(command)];
    var own, below := OwnClaims(command, kind, parent), ChildrenClaims(command.kind, command.children, kind, path);
    var here := EnteringHere(Enters(command, kind, parent, [], c));
    OwnCounts(command, kind, parent, c);
    CountsOne(Times(own, c), here, []);
    ChildrenCounts(command.kind, command.children, 0, kind, path, c);
    TimesAppend(own, below, c);
    forall p { TreeSplit(command, kind, parent, c, p); }
    CountsUnion(Times(own, c), here, Times(below, c), EnteringBelow(command.children, 0, kind, path, c), Entering(command, kind, parent, c));
  }

  lemma {:induction false} ChildrenCounts(parentKind: CommandKind, children: seq<Command>, k: nat, kind: CommandKind, path: seq<string>, c: Claim)
    requires Sole(c)
    ensures Counts(Times(ChildrenClaims(parentKind, children, kind, path), c), EnteringBelow(children, k, kind, path, c))
    decreases children
  {
    if children == [] {
      NoChildren(k, kind, path, c);
    } else {
      var first, rest := CommandClaims(children[0], kind, path), ChildrenClaims(parentKind, children[1..], kind, path);
      var entering := Entering(children[0], kind, path, c);
      TreeCounts(children[0], kind, path, c);
      CountsUnder(Times(first, c), entering, EnteringUnder(k, entering), k);
      ChildrenCounts(parentKind, children[1..], k + 1, kind, path, c);
      forall p { ChildrenSplit(children, k, kind, path, c, p); }
      CountsUnion(Times(first, c), EnteringUnder(k, entering), Times(rest, c), EnteringBelow(children[1..], k + 1, kind, path, c),
                  EnteringBelow(children, k, kind, path, c));
      ChildrenTimes(parentKind, children, kind, path, c);
    }
  }

  lemma NoChildren(k: nat, kind: CommandKind, path: seq<string>, c: Claim)
    ensures Counts(0, EnteringBelow([], k, kind, path, c))
  {
    forall p ensures !EnteringBelow([], k, kind, path, c)(p) {}
  }

  lemma ChildrenTimes(parentKind: CommandKind, children: seq<Command>, kind: CommandKind, path: seq<string>, c: Claim)
    requires children != [] && Sole(c)
    ensures Times(ChildrenClaims(parentKind, children, kind, path), c) ==
            Times(CommandClaims(children[0], kind, path), c) + Times(ChildrenClaims(parentKind, children[1..], kind, path), c)
  {
    var verdict := [Verdict(ChildKindFault(parentKind, children[0].kind))];
    var first, rest := CommandClaims(children[0], kind, path), ChildrenClaims(parentKind, children[1..], kind, path);
    TimesNone(verdict, c);
    TimesAppend(verdict, first, c);
    TimesAppend(verdict + first, rest, c);
  }

  // ----- Places of a definition -----

  datatype Part = Commands | Listeners | Tasks | Components | Modals

  /** An item of a cog, and for commands the position below a top-level command. */
  datatype Place = Place(cog: nat, part: Part, index: nat, position: seq<nat>)

  /** What an item with an id and a route enters. */
  predicate EntersNamed(space: IdClass, id: string, route: RouteID, position: seq<nat>, c: Claim) {
    position == [] && (c == IdUsed(space, id) || c == RouteUsed(route, Owned))
  }

  ghost predicate EntersCommand(command: Command, position: seq<nat>, c: Claim) { Enters(command, command.kind, [], position, c) }
  predicate EntersListener(x: Listener, position: seq<nat>, c: Claim) { EntersNamed(ListenerId, x.id, x.route, position, c) }
  predicate EntersTask(x: Task, position: seq<nat>, c: Claim) { EntersNamed(TaskId, x.id, x.route, position, c) }
  predicate EntersComponent(x: Component, position: seq<nat>, c: Claim) { EntersNamed(ComponentId, x.id, x.route, position, c) }
  predicate EntersModal(x: Modal, position: seq<nat>, c: Claim) { EntersNamed(ModalId, x.id, x.route, position, c) }

  ghost function CommandEntering(x: Command, c: Claim): seq<nat> -> bool { p => EntersCommand(x, p, c) }
  ghost function ListenerEntering(x: Listener, c: Claim): seq<nat> -> bool { p => EntersListener(x, p, c) }
  ghost function TaskEntering(x: Task, c: Claim): seq<nat> -> bool { p => EntersTask(x, p, c) }
  ghost function ComponentEntering(x: Component, c: Claim): seq<nat> -> bool { p => EntersComponent(x, p, c) }
  ghost function ModalEntering(x: Modal, c: Claim): seq<nat> -> bool { p => EntersModal(x, p, c) }

  /** What the item at a place of a cog enters. */
  ghost predicate EntersInCog(cog: Cog, q: Place, c: Claim) {
    match q.part
    case Commands => q.index < |cog.commands| && EntersCommand(cog.commands[q.index], q.position, c)
    case Listeners => q.index < |cog.listeners| && EntersListener(cog.listeners[q.index], q.position, c)
    case Tasks => q.index < |cog.tasks| && EntersTask(cog.tasks[q.index], q.position, c)
    case Components => q.index < |cog.components| && EntersComponent(cog.components[q.index], q.position, c)
    case Modals => q.index < |cog.modals| && EntersModal(cog.modals[q.index], q.position, c)
  }

  ghost predicate EntersAt(cogs: seq<Cog>, k: nat, q: Place, c: Claim) {
    k <= q.cog < k + |cogs| && EntersInCog(cogs[q.cog - k], q, c)
  }

  // One list of a cog. Only the position is left open below; the rest of the place is fixed from above.

  ghost function At<T>(xs: seq<T>, k: nat, cog: nat, part: Part, enters: T -> seq<nat> -> bool): Place -> bool {
    (q: Place) => q.cog == cog && q.part == part && k <= q.index < k + |xs| && enters(xs[q.index - k])(q.position)
  }

  ghost function AtIndex(cog: nat, part: Part, index: nat, p: seq<nat> -> bool): Place -> bool {
    (q: Place) => q.cog == cog && q.part == part && q.index == index && p(q.position)
  }

  lemma CountsAtIndex(m: nat, p: seq<nat> -> bool, cog: nat, part: Part, index: nat)
    requires Counts(m, p)
    ensures Counts(m, AtIndex(cog, part, index, p))
  {
    var q := AtIndex(cog, part, index, p);
    forall x | p(x) ensures q(Place(cog, part, index, x)) {}
    if m == 0 {
      forall x ensures !q(x) { assert !p(x.position); }
    } else {
      var x :| p(x);
      assert q(Place(cog, part, index, x));
    }
    if m <= 1 {
      forall x, y | q(x) && q(y) ensures x == y { assert p(x.position) && p(y.position); }
    } else {
      var x, y :| p(x) && p(y) && x != y;
      assert q(Place(cog, part, index, x)) && q(Place(cog, part, index, y));
    }
  }

  lemma ListSplit<T>(xs: seq<T>, k: nat, cog: nat, part: Part, enters: T -> seq<nat> -> bool, q: Place)
    requires xs != []
    ensures var here := AtIndex(cog, part, k, enters(xs[0]));
            var later := At(xs[1..], k + 1, cog, part, enters);
            && (At(xs, k, cog, part, enters)(q) <==> here(q) || later(q))
            && !(here(q) && later(q))
  {
    if k < q.index < k + |xs| { assert xs[q.index - k] == xs[1..][q.index - (k + 1)]; }
  }

  lemma {:induction false} ListCounts<T>(xs: seq<T>, claims: T -> seq<Claim>, enters: T -> seq<nat> -> bool, k: nat, cog: nat, part: Part, c: Claim)
    requires forall x :: x in xs ==> Counts(Times(claims(x), c), enters(x))
    ensures Counts(Times(Concat(xs, claims), c), At(xs, k, cog, part, enters))
  {
    if xs == [] {
      forall q ensures !At(xs, k, cog, part, enters)(q) {}
    } else {
      var here := AtIndex(cog, part, k, enters(xs[0]));
      CountsAtIndex(Times(claims(xs[0]), c), enters(xs[0]), cog, part, k);
      ListCounts(xs[1..], claims, enters, k + 1, cog, part, c);
      forall q { ListSplit(xs, k, cog, part, enters, q); }
      CountsUnion(Times(claims(xs[0]), c), here, Times(Concat(xs[1..], claims), c), At(xs[1..], k + 1, cog, part, enters),
                  At(xs, k, cog, part, enters));
      TimesAppend(claims(xs[0]), Concat(xs[1..], claims), c);
    }
  }

  // ----- The lists of a cog -----

  lemma NamedCounts(space: IdClass, id: string, route: RouteID, head: seq<Claim>, checks: seq<Check>, c: Claim)
    requires Sole(c) && |head| == 3
    requires || (head[0] == IdUsed(space, id) && head[1] == RouteUsed(route, Owned) && head[2].Verdict?)
             || (head[0].Verdict? && head[1] == IdUsed(space, id) && head[2] == RouteUsed(route, Owned))
    ensures Counts(Times(head + ChecksClaims(checks), c), (p: seq<nat>) => EntersNamed(space, id, route, p, c))
  {
    TimesAppend(head, ChecksClaims(checks), c);
    NoneInChecks(checks, c);
    var x, y := [head[0], head[1]], [head[2]];
    assert head == x + y && y[1..] == [];
    TimesAppend(x, y, c);
    TimesTwo(head[0], head[1], c);
    CountsOne(Times(head, c), (p: seq<nat>) => EntersNamed(space, id, route, p, c), []);
  }

  lemma TopLevelTimes(command: Command, c: Claim)
    requires Sole(c)
    ensures Times(TopLevelClaims(command), c) == Times(CommandClaims(command, command.kind, []), c)
  {
    var head := TopLevelClaims(command)[..2];
    assert TopLevelClaims(command) == head + CommandClaims(command, command.kind, []);
    TimesNone(head, c);
    TimesAppend(head, CommandClaims(command, command.kind, []), c);
  }

  function PartNo(part: Part): nat { match part case Commands => 0 case Listeners => 1 case Tasks => 2 case Components => 3 case Modals => 4 }

  /** What the items of the lists from `lo` to `hi` of a cog enter. */
  ghost function InParts(cog: Cog, k: nat, lo: nat, hi: nat, c: Claim): Place -> bool {
    (q: Place) => q.cog == k && lo <= PartNo(q.part) < hi && EntersInCog(cog, q, c)
  }

  lemma CommandCounts(x: Command, c: Claim)
    requires Sole(c)
    ensures Counts(Times(TopLevelClaims(x), c), CommandEntering(x, c))
  {
    TreeCounts(x, x.kind, [], c);
    TopLevelTimes(x, c);
    CountsSame(Times(TopLevelClaims(x), c), Entering(x, x.kind, [], c), CommandEntering(x, c));
  }

  lemma ListenerCounts(x: Listener, c: Claim)
    requires Sole(c)
    ensures Counts(Times(ListenerClaims(x), c), ListenerEntering(x, c))
  {
    NamedCounts(ListenerId, x.id, x.route, ListenerClaims(x)[..3], x.checks, c);
    assert ListenerClaims(x) == ListenerClaims(x)[..3] + ChecksClaims(x.checks);
    CountsSame(Times(ListenerClaims(x), c), (p: seq<nat>) => EntersNamed(ListenerId, x.id, x.route, p, c), ListenerEntering(x, c));
  }

  lemma TaskCounts(x: Task, c: Claim)
    requires Sole(c)
    ensures Counts(Times(TaskClaims(x), c), TaskEntering(x, c))
  {
    NamedCounts(TaskId, x.id, x.route, TaskClaims(x)[..3], x.checks, c);
    assert TaskClaims(x) == TaskClaims(x)[..3] + ChecksClaims(x.checks);
    CountsSame(Times(TaskClaims(x), c), (p: seq<nat>) => EntersNamed(TaskId, x.id, x.route, p, c), TaskEntering(x, c));
  }

  lemma ComponentCounts(x: Component, c: Claim)
    requires Sole(c)
    ensures Counts(Times(ComponentClaims(x), c), ComponentEntering(x, c))
  {
    NamedCounts(ComponentId, x.id, x.route, ComponentClaims(x)[..3], x.checks, c);
    assert ComponentClaims(x) == ComponentClaims(x)[..3] + ChecksClaims(x.checks);
    CountsSame(Times(ComponentClaims(x), c), (p: seq<nat>) => EntersNamed(ComponentId, x.id, x.route, p, c), ComponentEntering(x, c));
  }

  lemma ModalCounts(x: Modal, c: Claim)
    requires Sole(c)
    ensures Counts(Times(ModalClaims(x), c), ModalEntering(x, c))
  {
    NamedCounts(ModalId, x.id, x.route, ModalClaims(x)[..3], x.checks, c);
    assert ModalClaims(x) == ModalClaims(x)[..3] + ChecksClaims(x.checks);
    CountsSame(Times(ModalClaims(x), c), (p: seq<nat>) => EntersNamed(ModalId, x.id, x.route, p, c), ModalEntering(x, c));
  }

  lemma CommandListCounts(cog: Cog, k: nat, c: Claim)
    requires Sole(c)
    ensures Counts(Times(Concat(cog.commands, TopLevelClaims), c), InParts(cog, k, 0, 1, c))
  {
    var enters := (x: Command) => CommandEntering(x, c);
    forall x | x in cog.commands ensures Counts(Times(TopLevelClaims(x), c), enters(x)) { CommandCounts(x, c); }
    ListCounts(cog.commands, TopLevelClaims, enters, 0, k, Commands, c);
    CommandPlaces(cog, k, Times(Concat(cog.commands, TopLevelClaims), c), c);
  }

  lemma CommandPlaces(cog: Cog, k: nat, m: nat, c: Claim)
    requires Counts(m, At(cog.commands, 0, k, Commands, (x: Command) => CommandEntering(x, c)))
    ensures Counts(m, InParts(cog, k, 0, 1, c))
  {
    CountsSame(m, At(cog.commands, 0, k, Commands, (x: Command) => CommandEntering(x, c)), InParts(cog, k, 0, 1, c));
  }

  lemma ListenerListCounts(cog: Cog, k: nat, c: Claim)
    requires Sole(c)
    ensures Counts(Times(Concat(cog.listeners, ListenerClaims), c), InParts(cog, k, 1, 2, c))
  {
    var enters := (x: Listener) => ListenerEntering(x, c);
    forall x | x in cog.listeners ensures Counts(Times(ListenerClaims(x), c), enters(x)) { ListenerCounts(x, c); }
    ListCounts(cog.listeners, ListenerClaims, enters, 0, k, Listeners, c);
    ListenerPlaces(cog, k, Times(Concat(cog.listeners, ListenerClaims), c), c);
  }

  lemma ListenerPlaces(cog: Cog, k: nat, m: nat, c: Claim)
    requires Counts(m, At(cog.listeners, 0, k, Listeners, (x: Listener) => ListenerEntering(x, c)))
    ensures Counts(m, InParts(cog, k, 1, 2, c))
  {
    CountsSame(m, At(cog.listeners, 0, k, Listeners, (x: Listener) => ListenerEntering(x, c)), InParts(cog, k, 1, 2, c));
  }

  lemma TaskListCounts(cog: Cog, k: nat, c: Claim)
    requires Sole(c)
    ensures Counts(Times(Concat(cog.tasks, TaskClaims), c), InParts(cog, k, 2, 3, c))
  {
    var enters := (x: Task) => TaskEntering(x, c);
    forall x | x in cog.tasks ensures Counts(Times(TaskClaims(x), c), enters(x)) { TaskCounts(x, c); }
    ListCounts(cog.tasks, TaskClaims, enters, 0, k, Tasks, c);
    TaskPlaces(cog, k, Times(Concat(cog.tasks, TaskClaims), c), c);
  }

  lemma TaskPlaces(cog: Cog, k: nat, m: nat, c: Claim)
    requires Counts(m, At(cog.tasks, 0, k, Tasks, (x: Task) => TaskEntering(x, c)))
    ensures Counts(m, InParts(cog, k, 2, 3, c))
  {
    CountsSame(m, At(cog.tasks, 0, k, Tasks, (x: Task) => TaskEntering(x, c)), InParts(cog, k, 2, 3, c));
  }

  lemma ComponentListCounts(cog: Cog, k: nat, c: Claim)
    requires Sole(c)
    ensures Counts(Times(Concat(cog.components, ComponentClaims), c), InParts(cog, k, 3, 4, c))
  {
    var enters := (x: Component) => ComponentEntering(x, c);
    forall x | x in cog.components ensures Counts(Times(ComponentClaims(x), c), enters(x)) { ComponentCounts(x, c); }
    ListCounts(cog.components, ComponentClaims, enters, 0, k, Components, c);
    ComponentPlaces(cog, k, Times(Concat(cog.components, ComponentClaims), c), c);
  }

  lemma ComponentPlaces(cog: Cog, k: nat, m: nat, c: Claim)
    requires Counts(m, At(cog.components, 0, k, Components, (x: Component) => ComponentEntering(x, c)))
    ensures Counts(m, InParts(cog, k, 3, 4, c))
  {
    CountsSame(m, At(cog.components, 0, k, Components, (x: Component) => ComponentEntering(x, c)), InParts(cog, k, 3, 4, c));
  }

  lemma ModalListCounts(cog: Cog, k: nat, c: Claim)
    requires Sole(c)
    ensures Counts(Times(Concat(cog.modals, ModalClaims), c), InParts(cog, k, 4, 5, c))
  {
    var enters := (x: Modal) => ModalEntering(x, c);
    forall x | x in cog.modals ensures Counts(Times(ModalClaims(x), c), enters(x)) { ModalCounts(x, c); }
    ListCounts(cog.modals, ModalClaims, enters, 0, k, Modals, c);
    ModalPlaces(cog, k, Times(Concat(cog.modals, ModalClaims), c), c);
  }

  lemma ModalPlaces(cog: Cog, k: nat, m: nat, c: Claim)
    requires Counts(m, At(cog.modals, 0, k, Modals, (x: Modal) => ModalEntering(x, c)))
    ensures Counts(m, InParts(cog, k, 4, 5, c))
  {
    CountsSame(m, At(cog.modals, 0, k, Modals, (x: Modal) => ModalEntering(x, c)), InParts(cog, k, 4, 5, c));
  }

  // ----- Cogs and the definition -----

  ghost function InCog(cog: Cog, k: nat, c: Claim): Place -> bool { (q: Place) => q.cog == k && EntersInCog(cog, q, c) }

  lemma CogTimes(cog: Cog, c: Claim)
    requires Sole(c)
    ensures Times(CogClaims(cog), c) ==
            Times(Concat(cog.commands, TopLevelClaims), c) + Times(Concat(cog.listeners, ListenerClaims), c)
            + Times(Concat(cog.tasks, TaskClaims), c) + Times(Concat(cog.components, ComponentClaims), c)
            + Times(Concat(cog.modals, ModalClaims), c)
  {
    var c0, c1, c2 := [CogNamed(cog.name)], ChecksClaims(cog.checks), Concat(cog.commands, TopLevelClaims);
    var c3, c4 := Concat(cog.listeners, ListenerClaims), Concat(cog.tasks, TaskClaims);
    var c5, c6 := Concat(cog.components, ComponentClaims), Concat(cog.modals, ModalClaims);
    TimesNone(c0, c);
    NoneInChecks(cog.checks, c);
    TimesAppend(c0, c1, c);
    TimesAppend(c0 + c1, c2, c);
    TimesAppend(c0 + c1 + c2, c3, c);
    TimesAppend(c0 + c1 + c2 + c3, c4, c);
    TimesAppend(c0 + c1 + c2 + c3 + c4, c5, c);
    TimesAppend(c0 + c1 + c2 + c3 + c4 + c5, c6, c);
  }

  lemma AddPart(cog: Cog, k: nat, m: nat, n: nat, lo: nat, hi: nat, all: nat, c: Claim)
    requires hi == lo + 1 && all == m + n
    requires Counts(m, InParts(cog, k, 0, lo, c)) && Counts(n, InParts(cog, k, lo, hi, c))
    ensures Counts(all, InParts(cog, k, 0, hi, c))
  {
    CountsUnion(m, InParts(cog, k, 0, lo, c), n, InParts(cog, k, lo, hi, c), InParts(cog, k, 0, hi, c));
  }

  function PartClaims(cog: Cog, part: nat): seq<Claim> {
    if part == 0 then Concat(cog.commands, TopLevelClaims)
    else if part == 1 then Concat(cog.listeners, ListenerClaims)
    else if part == 2 then Concat(cog.tasks, TaskClaims)
    else if part == 3 then Concat(cog.components, ComponentClaims)
    else Concat(cog.modals, ModalClaims)
  }

  function PartTimes(cog: Cog, n: nat, c: Claim): nat {
    if n == 0 then 0 else PartTimes(cog, n - 1, c) + Times(PartClaims(cog, n - 1), c)
  }

  lemma AllPartTimes(cog: Cog, c: Claim)
    requires Sole(c)
    ensures PartTimes(cog, 5, c) == Times(CogClaims(cog), c)
  {
    CogTimes(cog, c);
    assert PartTimes(cog, 2, c) == PartTimes(cog, 1, c) + Times(PartClaims(cog, 1), c);
    assert PartTimes(cog, 4, c) == PartTimes(cog, 3, c) + Times(PartClaims(cog, 3), c);
  }

  lemma PartCounts(cog: Cog, k: nat, part: nat, next: nat, m: nat, c: Claim)
    requires Sole(c) && part < 5 && next == part + 1 && m == Times(PartClaims(cog, part), c)
    ensures Counts(m, InParts(cog, k, part, next, c))
  {
    if part == 0 { CommandListCounts(cog, k, c); }
    else if part == 1 { ListenerListCounts(cog, k, c); }
    else if part == 2 { TaskListCounts(cog, k, c); }
    else if part == 3 { ComponentListCounts(cog, k, c); }
    else { ModalListCounts(cog, k, c); }
  }

  lemma {:induction false} FirstPartsCount(cog: Cog, k: nat, n: nat, m: nat, c: Claim)
    requires Sole(c) && n <= 5 && m == PartTimes(cog, n, c)
    ensures Counts(m, InParts(cog, k, 0, n, c))
  {
    if n == 0 {
      assert forall q :: !InParts(cog, k, 0, 0, c)(q);
    } else {
      var lo := n - 1;
      var before, here := PartTimes(cog, lo, c), Times(PartClaims(cog, lo), c);
      FirstPartsCount(cog, k, lo, before, c);
      PartCounts(cog, k, lo, n, here, c);
      AddPart(cog, k, before, here, lo, n, m, c);
    }
  }

  lemma CogCounts(cog: Cog, k: nat, c: Claim)
    requires Sole(c)
    ensures Counts(Times(CogClaims(cog), c), InCog(cog, k, c))
  {
    var m := PartTimes(cog, 5, c);
    FirstPartsCount(cog, k, 5, m, c);
    AllPartTimes(cog, c);
    CountsSame(m, InParts(cog, k, 0, 5, c), InCog(cog, k, c));
  }

  ghost function InCogs(cogs: seq<Cog>, k: nat, c: Claim): Place -> bool { q => EntersAt(cogs, k, q, c) }

  lemma CogSplit(cogs: seq<Cog>, k: nat, c: Claim, q: Place)
    requires cogs != []
    ensures (InCogs(cogs, k, c)(q) <==> InCog(cogs[0], k, c)(q) || InCogs(cogs[1..], k + 1, c)(q))
    ensures !(InCog(cogs[0], k, c)(q) && InCogs(cogs[1..], k + 1, c)(q))
  {
    if k < q.cog < k + |cogs| { assert cogs[q.cog - k] == cogs[1..][q.cog - (k + 1)]; }
  }

  lemma {:induction false} CogsCount(cogs: seq<Cog>, k: nat, c: Claim)
    requires Sole(c)
    ensures Counts(Times(Concat(cogs, CogClaims), c), InCogs(cogs, k, c))
  {
    if cogs == [] {
      forall q ensures !InCogs(cogs, k, c)(q) {}
    } else {
      CogCounts(cogs[0], k, c);
      CogsCount(cogs[1..], k + 1, c);
      forall q { CogSplit(cogs, k, c, q); }
      CountsUnion(Times(CogClaims(cogs[0]), c), InCog(cogs[0], k, c), Times(Concat(cogs[1..], CogClaims), c), InCogs(cogs[1..], k + 1, c),
                  InCogs(cogs, k, c));
      TimesAppend(CogClaims(cogs[0]), Concat(cogs[1..], CogClaims), c);
    }
  }

  /** The item at `q` enters `c` into a table. */
  ghost predicate EntersIn(d: Definition, q: Place, c: Claim) { EntersAt(d.cogs, 0, q, c) }

  /** A claim of this kind is made as often as there are places that make it. */
  lemma DefinitionCounts(d: Definition, c: Claim)
    requires Sole(c)
    ensures Times(DefinitionClaims(d), c) == 0 <==> forall q :: !EntersIn(d, q, c)
    ensures Times(DefinitionClaims(d), c) <= 1 <==> forall q, r :: EntersIn(d, q, c) && EntersIn(d, r, c) ==> q == r
  {
    var head := DefinitionClaims(d)[..1];
    assert DefinitionClaims(d) == head + Concat(d.cogs, CogClaims);
    TimesNone(head, c);
    TimesAppend(head, Concat(d.cogs, CogClaims), c);
    CogsCount(d.cogs, 0, c);
    assert forall q :: InCogs(d.cogs, 0, c)(q) <==> EntersIn(d, q, c);
    SameCounts(Times(DefinitionClaims(d), c), InCogs(d.cogs, 0, c), d, c);
  }

  lemma SameCounts(m: nat, p: Place -> bool, d: Definition, c: Claim)
    requires Counts(m, p) && forall q :: p(q) <==> EntersIn(d, q, c)
    ensures m == 0 <==> forall q :: !EntersIn(d, q, c)
    ensures m <= 1 <==> forall q, r :: EntersIn(d, q, c) && EntersIn(d, r, c) ==> q == r
  {
    if m > 0 {
      var x :| p(x);
      assert EntersIn(d, x, c);
    }
    if m > 1 {
      var x, y :| p(x) && p(y) && x != y;
      assert EntersIn(d, x, c) && EntersIn(d, y, c);
    }
  }
}
