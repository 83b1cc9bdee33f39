/** When the copies of a bundle agree, over all runs on given plugin roots. */
module BundleCopies {
  import opened Wrappers
  import opened GoText
  import opened BundleHash
  import opened BundleStores
  import opened BundleCoherence

  lemma CoherentAgree(how: Agreement, b: Backend, w: World)
    requires AllCoherent(how, b, w)
    ensures CopiesAgree(how, b, w)
  {
    forall key ensures CopiesAgreeAt(how, b, w, key) { assert Coherent(how, b, w, key); }
  }

  /** After any run at all, the copies of a bundle agree in every file but the signature. */
  lemma CopiesMatch(b: Backend, n: Naming, local: Dirs, events: seq<Event>)
    requires !b.Local?
    ensures CopiesAgree(UpToSignature, b, Run(b, n, Start(local), events))
  {
    Reachable(b, n, local, events);
    CoherentAgree(UpToSignature, b, Run(b, n, Start(local), events));
  }

  /** They agree in full, signature included, after every run over these plugin roots exactly when no two
      of the roots clash. */
  lemma CopiesAgreeIff(b: Backend, n: Naming, roots: iset<string>)
    requires !b.Local?
    ensures NoClash(b, roots) <==>
            forall local, events :: Uses(events, roots) ==> CopiesAgree(InFull, b, Run(b, n, Start(local), events))
  {
    if NoClash(b, roots) {
      forall local, events | Uses(events, roots) ensures CopiesAgree(InFull, b, Run(b, n, Start(local), events)) {
        CopiesAgreeOver(b, n, roots, local, events);
      }
    } else {
      var local, events := ClashShows(b, n, roots);
    }
  }

  lemma CopiesAgreeOver(b: Backend, n: Naming, roots: iset<string>, local: Dirs, events: seq<Event>)
    requires !b.Local? && NoClash(b, roots) && Uses(events, roots)
    ensures CopiesAgree(InFull, b, Run(b, n, Start(local), events))
  {
    RunKeeps(InFull, b, n, Start(local), events, roots);
    CoherentAgree(InFull, b, Run(b, n, Start(local), events));
  }

  lemma ClashShows(b: Backend, n: Naming, roots: iset<string>) returns (local: Dirs, events: seq<Event>)
    requires !NoClash(b, roots)
    ensures Uses(events, roots) && !CopiesAgree(InFull, b, Run(b, n, Start(local), events))
  {
    var one, two :| one in roots && two in roots && Clash(b, TrimSpace(one), TrimSpace(two));
    local, events := map[], Unequal(one, two);
    EmptyCopyable();
    assert SIGNATURE in map[][SIGNATURE := ""];
    RootsDisagree(n, Source(map[], false), "", one, two);
  }

  /** A run over two roots that shows their copies apart, if the roots clash. */
  function Unequal(one: string, two: string): seq<Event> {
    var src := Source(map[], false);
    [Install(src, one, ""), Install(src, two, ""), WriteSignature(one, "")]
  }

  lemma EmptyCopyable()
    ensures Copyable(map[])
  {
    var none: Dir := map[];
    assert none.Keys == {};
  }

  /** Roots that clash share one stored bundle but not its copies, so that a signature written for one
      leaves the other's active copy behind. */
  lemma RootsDisagree(n: Naming, src: Source, signature: string, one: string, two: string)
    requires Clash(ObjectStore, TrimSpace(one), TrimSpace(two))
    requires !src.links && Copyable(src.files) && src.files[SIGNATURE := signature] != src.files
    ensures var events := [Install(src, one, ""), Install(src, two, ""), WriteSignature(one, signature)];
            var w := Run(ObjectStore, n, Start(map[]), events);
            && TrimSpace(two) in w.states
            && var key := KeyOf(TrimSpace(two), w.states[TrimSpace(two)].rel);
               var stored := StoreOf(ObjectStore, key);
               && stored in w.store && key in w.active && w.active[key] != w.store[stored]
               && !CopiesAgree(InFull, ObjectStore, w)
  {
    var events := [Install(src, one, ""), Install(src, two, ""), WriteSignature(one, signature)];
    var p, q := TrimSpace(one), TrimSpace(two);
    var s := State("bundles/" + BundleName(n, "", HashOf(src.files)), TrimSpace(""), HashOf(src.files));
    BothInstalled(n, src, p, q);
    RunOfThree(n, events);
    LeftBehind(p, q, s, src.files, signature);
    assert !CopiesAgreeAt(InFull, ObjectStore, Run(ObjectStore, n, Start(map[]), events), KeyOf(q, s.rel));
  }

  lemma LeftBehind(p: string, q: string, s: State, files: Dir, signature: string)
    requires Clash(ObjectStore, p, q) && files[SIGNATURE := signature] != files
    ensures var w, key := Sign(ObjectStore, BothHold(p, q, s, files), p, signature).0, KeyOf(q, s.rel);
            var stored := StoreOf(ObjectStore, key);
            && q in w.states && w.states[q] == s && stored in w.store && key in w.active && w.active[key] != w.store[stored]
            && !CopiesAgreeAt(InFull, ObjectStore, w, key)
  {
    var w2, key := BothHold(p, q, s, files), KeyOf(q, s.rel);
    var w := Sign(ObjectStore, w2, p, signature).0;
    assert w2.states[p] == s && Coherent(InFull, ObjectStore, w2, KeyOf(p, s.rel));
    SignHere(ObjectStore, w2, p, signature);
    SignElsewhere(ObjectStore, w2, p, signature, key);
    SignOnlySigns(ObjectStore, w2, p, signature);
    SameKeys(w2, w, key);
  }

  /** The first install of a bundle in an empty world, and the world once two roots have it. */
  ghost function OneHolds(p: string, s: State, files: Dir): World {
    var key, stored := KeyOf(p, s.rel), StoreKey(ObjectStore, p, s.rel);
    World(map[p := s], map[], map[stored := files], map[key := files], map[key := files])
  }

  ghost function BothHold(p: string, q: string, s: State, files: Dir): World {
    var one, two, stored := KeyOf(p, s.rel), KeyOf(q, s.rel), StoreKey(ObjectStore, p, s.rel);
    World(map[p := s, q := s], map[], map[stored := files], map[one := files, two := files], map[one := files, two := files])
  }

  lemma BothInstalled(n: Naming, src: Source, p: string, q: string)
    requires Clash(ObjectStore, p, q) && !src.links && Copyable(src.files)
    ensures var s := State("bundles/" + BundleName(n, "", HashOf(src.files)), TrimSpace(""), HashOf(src.files));
            && Materialize(ObjectStore, n, Start(map[]), src, p, "").0 == OneHolds(p, s, src.files)
            && Materialize(ObjectStore, n, OneHolds(p, s, src.files), src, q, "").0 == BothHold(p, q, s, src.files)
  {
    var s := State("bundles/" + BundleName(n, "", HashOf(src.files)), TrimSpace(""), HashOf(src.files));
    InstallWith(ObjectStore, n, Start(map[]), src, p, "", src.files);
    SecondInstalled(n, src, p, q, s);
  }

  lemma SecondInstalled(n: Naming, src: Source, p: string, q: string, s: State)
    requires Clash(ObjectStore, p, q) && !src.links && Copyable(src.files)
    requires s == State("bundles/" + BundleName(n, "", HashOf(src.files)), TrimSpace(""), HashOf(src.files))
    ensures Materialize(ObjectStore, n, OneHolds(p, s, src.files), src, q, "").0 == BothHold(p, q, s, src.files)
  {
    var w, files := OneHolds(p, s, src.files), src.files;
    var one, two, stored := KeyOf(p, s.rel), KeyOf(q, s.rel), StoreKey(ObjectStore, q, s.rel);
    assert stored == StoreKey(ObjectStore, p, s.rel) && one != two && two !in w.artifacts && two !in w.active;
    InstallWith(ObjectStore, n, w, src, q, "", files);
    assert w.store[stored := files] == map[stored := files] && w.states[q := s] == map[p := s, q := s];
    assert w.artifacts[two := files] == w.active[two := files] == map[one := files, two := files];
  }

  lemma RunOfThree(n: Naming, events: seq<Event>)
    requires |events| == 3
    ensures Run(ObjectStore, n, Start(map[]), events) ==
            After(ObjectStore, n, After(ObjectStore, n, After(ObjectStore, n, Start(map[]), events[0]), events[1]), events[2])
  {
    var w1 := After(ObjectStore, n, Start(map[]), events[0]);
    var w2 := After(ObjectStore, n, w1, events[1]);
    var w3 := After(ObjectStore, n, w2, events[2]);
    assert events[1..][1..] == events[2..] && events[2..][1..] == [];
    assert Run(ObjectStore, n, w3, []) == w3;
    assert Run(ObjectStore, n, w2, events[2..]) == w3;
    assert Run(ObjectStore, n, w1, events[1..]) == w3;
  }

  lemma {:induction false} LastSegmentOf(lead: string, name: string)
    requires '/' !in name && (lead == "" || lead[|lead| - 1] == '/')
    ensures LastSegment(lead + name) == name
  {
    if name == "" {
      assert lead + name == lead;
    } else {
      var front, c := name[..|name| - 1], name[|name| - 1];
      assert lead + name == (lead + front) + [c] && name == front + [c];
      LastSegmentOf(lead, front);
      LastSegmentGrows(lead + front, c);
    }
  }

  lemma LastSegmentGrows(path: string, c: char)
    requires c != '/'
    ensures LastSegment(path + [c]) == LastSegment(path) + [c]
  {
    var longer := path + [c];
    assert longer[..|longer| - 1] == path && longer[|longer| - 1] == c;
  }

  lemma BaseOf(lead: string, name: string)
    requires '/' !in name && name != "" && lead != "" && lead[|lead| - 1] == '/'
    ensures Base(lead + name) == name
  {
    assert (lead + name)[|lead + name| - 1] == name[|name| - 1] && name[|name| - 1] in name;
    LastSegmentOf(lead, name);
  }

  /** For instance, two plugin directories side by side whose names differ by a space before one. */
  lemma UntidyRootsDisagree(n: Naming, src: Source, signature: string, parent: string, name: string)
    requires !src.links && Copyable(src.files) && src.files[SIGNATURE := signature] != src.files
    requires parent != "" && !IsSpace(parent[0]) && parent[|parent| - 1] == '/'
    requires '/' !in name && name != "" && Trimmed(name, IsSpace)
    ensures var one, two := parent + name, parent + ([' '] + name);
            var events := [Install(src, one, ""), Install(src, two, ""), WriteSignature(one, signature)];
            var w := Run(ObjectStore, n, Start(map[]), events);
            && two in w.states
            && var rel := w.states[two].rel;
               var stored, key := StoreKey(ObjectStore, two, rel), KeyOf(two, rel);
               stored in w.store && key in w.active && w.active[key] != w.store[stored]
  {
    UntidyClash(parent, name);
    RootsDisagree(n, src, signature, parent + name, parent + ([' '] + name));
  }

  lemma UntidyClash(parent: string, name: string)
    requires parent != "" && !IsSpace(parent[0]) && parent[|parent| - 1] == '/'
    requires '/' !in name && name != "" && Trimmed(name, IsSpace)
    ensures var one, two := parent + name, parent + ([' '] + name);
            TrimSpace(one) == one && TrimSpace(two) == two && Clash(ObjectStore, one, two)
  {
    var spaced := [' '] + name;
    BaseOf(parent, name);
    BaseOf(parent, spaced);
    assert [' '] + name + [] == spaced;
    TrimOf([' '], name, [], IsSpace);
    TrimmedIsFixed(name, IsSpace);
    assert (parent + name)[|parent + name| - 1] == name[|name| - 1];
    assert (parent + spaced)[|parent + spaced| - 1] == name[|name| - 1];
    TrimmedIsFixed(parent + name, IsSpace);
    TrimmedIsFixed(parent + spaced, IsSpace);
  }
}
