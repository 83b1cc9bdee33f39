/** What installed bundles are: unmodified, unaltered by later installs, and as their source. */
module BundleInstalls {
  import opened Wrappers
  import opened GoText
  import opened BundleHash
  import opened BundleStores
  import opened BundleCoherence
  import opened BundleSigning

  /** What counts as modified: a root's own directory, else the stored bundle, that hashes otherwise.
      The artifact is never asked, but without one a bundle too large to copy has no answer. */
  lemma ModifiedExactly(b: Backend, w: World, root: string, installed: Hash)
    ensures Modified(b, w, root, installed).1 ==
            if root == "" || root !in w.states then None
            else
              var rel := w.states[root].rel;
              var own, stored, artifact := Key(root, rel), StoreKey(b, root, rel), KeyOf(root, rel);
              if own in w.local then Some(HashOf(w.local[own]) != installed)
              else if b.Local? || Refused(b, root) || stored !in w.store then None
              else if b.ObjectStore? && !(artifact in w.artifacts && HashOf(w.artifacts[artifact]) == HashOf(w.store[stored]))
                      && !Copyable(w.store[stored]) then None
              else Some(HashOf(w.store[stored]) != installed)
  {
  }

  /** A bundle never counts as modified against the hash recorded when it was installed, whatever was
      signed since. There is no answer exactly when it has no artifact and cannot be copied into one. */
  lemma NeverModified(b: Backend, n: Naming, local: Dirs, events: seq<Event>, root: string)
    requires var w := Run(b, n, Start(local), events);
             root != "" && root in w.states && (b.Local? || Key(root, w.states[root].rel) !in w.local)
    ensures var w := Run(b, n, Start(local), events);
            var rel, stored := w.states[root].rel, StoreKey(b, root, w.states[root].rel);
            && (!b.Local? ==> stored in w.store)
            && Modified(b, w, root, w.states[root].hash).1 ==
               if b.ObjectStore? && KeyOf(root, rel) !in w.artifacts && !Copyable(w.store[stored]) then None else Some(false)
  {
    Reachable(b, n, local, events);
    var w := Run(b, n, Start(local), events);
    var rel := w.states[root].rel;
    assert Recorded(b, w, root, w.states[root]);
    if !b.Local? {
      assert Coherent(UpToSignature, b, w, KeyOf(root, rel));
      RelHere(UpToSignature, b, w, root, rel);
      var (w1, bundle) := ResolveRel(b, w, root, rel);
      if bundle.Some? { AgreeingHash(UpToSignature, FilesAt(w1, bundle.value), w.store[StoreKey(b, root, rel)]); }
    }
  }

  /** The copies of this bundle in the caches are still there as they were; a directory of a root's own
      may have replaced the active one. */
  ghost predicate CopiesStay(b: Backend, w: World, w': World, k: Key) {
    && (b.ObjectStore? && k in w.artifacts ==> k in w'.artifacts && w'.artifacts[k] == w.artifacts[k])
    && (NotLocal(w, k) && k in w.active ==> k in w'.active && w'.active[k] == w.active[k])
  }

  lemma RelCopiesStay(b: Backend, w: World, root: string, rel: string, k: Key)
    requires !b.Local? && Coherent(UpToSignature, b, w, k)
    ensures CopiesStay(b, w, ResolveRel(b, w, root, rel).0, k)
  {
    RelElsewhere(b, w, root, rel);
    if k == KeyOf(root, rel) && Key(root, rel) !in w.local { RelHere(UpToSignature, b, w, root, rel); }
  }

  lemma ActiveCopiesStay(b: Backend, w: World, root: string, k: Key)
    requires !b.Local? && Coherent(UpToSignature, b, w, k)
    ensures CopiesStay(b, w, ResolveActive(b, w, root).0, k)
  {
    ActiveElsewhere(b, w, root);
    if root != "" && root in w.states && k == KeyOf(root, w.states[root].rel) {
      RelCopiesStay(b, w, root, w.states[root].rel, k);
      ActiveArtifacts(b, w, root);
      if NotLocal(w, k) { ActiveHere(UpToSignature, b, w, root); }
    } else {
      assert SameCopies(w, ResolveActive(b, w, root).0, k);
    }
  }

  /** After any run, installing changes no bundle that is there: not in the store, nor any copy in a cache. */
  lemma InstallAltersNothing(b: Backend, n: Naming, local: Dirs, events: seq<Event>, src: Source, root: string, revision: string)
    ensures var w := Run(b, n, Start(local), events);
            var w' := Materialize(b, n, w, src, root, revision).0;
            && KeepsDirs(w.local, w'.local) && KeepsDirs(w.store, w'.store)
            && (!b.Local? ==> forall k :: CopiesStay(b, w, w', k))
  {
    var w := Run(b, n, Start(local), events);
    var w' := Materialize(b, n, w, src, root, revision).0;
    var hash := HashOf(src.files);
    var rel := "bundles/" + BundleName(n, revision, hash);
    var w1 := Stored(b, w, root, rel, src.files);
    var w2 := ResolveRel(b, w1, root, rel).0;
    var w3 := w2.(states := w2.states[root := State(rel, TrimSpace(revision), hash)]);
    Reachable(b, n, local, events);
    StoredOnlyAdds(b, w, root, rel, src.files);
    MaterializeUnfolds(b, n, w, src, root, revision);
    RelElsewhere(b, w1, root, rel);
    ActiveElsewhere(b, w3, root);
    if !b.Local? {
      StoredKeeps(UpToSignature, b, w, root, rel, src.files);
      RelKeeps(UpToSignature, b, w1, root, rel);
      forall k ensures CopiesStay(b, w, w', k) {
        assert Coherent(UpToSignature, b, w1, k) && Coherent(UpToSignature, b, w2, k);
        RelCopiesStay(b, w1, root, rel, k);
        CoherentStays(UpToSignature, b, w2, w3, k);
        ActiveCopiesStay(b, w3, root, k);
      }
    }
  }

  /** In all three repositories what is read after installing hashes as the source does, unless exactly the
      root has another directory of that name of its own. */
  lemma InstallYields(b: Backend, n: Naming, w: World, src: Source, root: string, revision: string)
    requires Materialize(b, n, w, src, root, revision).1.Some?
    ensures var (w', m) := Materialize(b, n, w, src, root, revision);
            var own := Key(root, m.value.rel);
            && Exists(w', m.value.active) && m.value.hash == HashOf(src.files)
            && root in w'.states && w'.states[root] == State(m.value.rel, TrimSpace(revision), m.value.hash)
            && (HashOf(FilesAt(w', m.value.active)) == m.value.hash <==>
                  (!b.Local? && own in w.local ==> HashOf(w.local[own]) == m.value.hash))
  {
    var hash := HashOf(src.files);
    var rel := "bundles/" + BundleName(n, revision, hash);
    var w1 := Stored(b, w, root, rel, src.files);
    var (w2, there) := ResolveRel(b, w1, root, rel);
    var w3 := w2.(states := w2.states[root := State(rel, TrimSpace(revision), hash)]);
    MaterializeUnfolds(b, n, w, src, root, revision);
    StoredOnlyAdds(b, w, root, rel, src.files);
    RelElsewhere(b, w1, root, rel);
    ActiveElsewhere(b, w3, root);
    if !b.Local? { ActiveHash(b, w3, root); }
  }

  /** What is active hashes as what the bundle resolves to. */
  lemma ActiveHash(b: Backend, w: World, root: string)
    requires !b.Local? && root != "" && root in w.states && ResolveActive(b, w, root).1.Some?
    ensures var rel := w.states[root].rel;
            var (w', active) := ResolveActive(b, w, root);
            && Exists(w', active.value) && (Key(root, rel) !in w.local ==> StoreKey(b, root, rel) in w.store)
            && HashOf(FilesAt(w', active.value)) ==
               HashOf(if Key(root, rel) in w.local then w.local[Key(root, rel)] else w.store[StoreKey(b, root, rel)])
  {
    var rel := w.states[root].rel;
    var (w1, bundle) := ResolveRel(b, w, root, rel);
    assert bundle.Some? && HashOf(FilesAt(w1, bundle.value)) ==
           HashOf(if Key(root, rel) in w.local then w.local[Key(root, rel)] else w.store[StoreKey(b, root, rel)]);
  }

  /** Where the bundle is read from once it is stored: a directory of the root's own, the store, or an artifact
      that hashes alike. */
  ghost function SourceOfActive(b: Backend, w: World, root: string, rel: string, stored: Dir): Dir {
    if Key(root, rel) in w.local then w.local[Key(root, rel)]
    else if b.ObjectStore? && KeyOf(root, rel) in w.artifacts && HashOf(w.artifacts[KeyOf(root, rel)]) == HashOf(stored) then w.artifacts[KeyOf(root, rel)]
    else stored
  }

  /** An install succeeds exactly when its source may be copied, no other bundle is there under its name, and
      the copies that the repository keeps of the bundle can be had. */
  lemma InstallSucceedsIff(b: Backend, n: Naming, w: World, src: Source, root: string, revision: string)
    ensures var rel := "bundles/" + BundleName(n, revision, HashOf(src.files));
            var dirs, key := Bundles(b, w), BundleKey(b, root, rel);
            var stored := if key in dirs then dirs[key] else src.files;
            Materialize(b, n, w, src, root, revision).1.Some? <==>
              && root != "" && !src.links && Copyable(src.files) && !Refused(b, root) && HashOf(stored) == HashOf(src.files)
              && (b.ObjectStore? && Key(root, rel) !in w.local ==> Obtainable(w.artifacts, KeyOf(root, rel), stored))
              && (!b.Local? ==> Obtainable(w.active, KeyOf(root, rel), SourceOfActive(b, w, root, rel, stored)))
  {
    var rel := "bundles/" + BundleName(n, revision, HashOf(src.files));
    var dirs, key := Bundles(b, w), BundleKey(b, root, rel);
    if root != "" && !src.links && Copyable(src.files) && !Refused(b, root) && Installed(dirs, key, src.files).Some? {
      if b.Local? {
        InstallLocal(n, w, src, root, revision, if key in dirs then dirs[key] else src.files);
      } else {
        StoredSucceedsIff(b, n, w, src, root, revision);
      }
    }
  }

  lemma StoredSucceedsIff(b: Backend, n: Naming, w: World, src: Source, root: string, revision: string)
    requires !b.Local? && root != "" && !src.links && Copyable(src.files) && !Refused(b, root)
    requires Installed(w.store, StoreKey(b, root, "bundles/" + BundleName(n, revision, HashOf(src.files))), src.files).Some?
    ensures var rel := "bundles/" + BundleName(n, revision, HashOf(src.files));
            var stored := if StoreKey(b, root, rel) in w.store then w.store[StoreKey(b, root, rel)] else src.files;
            Materialize(b, n, w, src, root, revision).1.Some? <==>
              && (b.ObjectStore? && Key(root, rel) !in w.local ==> Obtainable(w.artifacts, KeyOf(root, rel), stored))
              && Obtainable(w.active, KeyOf(root, rel), SourceOfActive(b, w, root, rel, stored))
  {
    var hash := HashOf(src.files);
    var rel := "bundles/" + BundleName(n, revision, hash);
    var w1 := Stored(b, w, root, rel, src.files);
    var (w2, there) := ResolveRel(b, w1, root, rel);
    var w3 := w2.(states := w2.states[root := State(rel, TrimSpace(revision), hash)]);
    StoredResolves(b, w, root, rel, src.files);
    if there.Some? {
      MaterializeGoes(b, n, w, src, root, revision);
      ResolvesAgain(b, w1, w3, root, rel);
      ActiveOutcome(b, w3, root);
    } else {
      MaterializeUnfolds(b, n, w, src, root, revision);
    }
  }

  lemma StoredResolves(b: Backend, w: World, root: string, rel: string, files: Dir)
    requires !b.Local? && !Refused(b, root) && Installed(w.store, StoreKey(b, root, rel), files).Some?
    ensures var stored := if StoreKey(b, root, rel) in w.store then w.store[StoreKey(b, root, rel)] else files;
            var w1 := Stored(b, w, root, rel, files);
            var (w2, there) := ResolveRel(b, w1, root, rel);
            && w1.local == w.local && w2.active == w.active
            && (there.Some? <==> (b.ObjectStore? && Key(root, rel) !in w.local ==> Obtainable(w.artifacts, KeyOf(root, rel), stored)))
            && (there.Some? ==> Exists(w2, there.value) && FilesAt(w2, there.value) == SourceOfActive(b, w, root, rel, stored))
  {
    var key := StoreKey(b, root, rel);
    var stored := if key in w.store then w.store[key] else files;
    assert Stored(b, w, root, rel, files) == w.(store := w.store[key := stored]);
    ResolvesFrom(b, w.(store := w.store[key := stored]), root, rel);
  }

  lemma ResolvesFrom(b: Backend, w: World, root: string, rel: string)
    requires !b.Local? && !Refused(b, root) && StoreKey(b, root, rel) in w.store
    ensures var stored := w.store[StoreKey(b, root, rel)];
            var (w2, there) := ResolveRel(b, w, root, rel);
            && w2.active == w.active
            && (there.Some? <==> (b.ObjectStore? && Key(root, rel) !in w.local ==> Obtainable(w.artifacts, KeyOf(root, rel), stored)))
            && (there.Some? ==> Exists(w2, there.value) && FilesAt(w2, there.value) == SourceOfActive(b, w, root, rel, stored))
  {
    if b.ObjectStore? && Key(root, rel) !in w.local { EnsuredFiles(w.artifacts, KeyOf(root, rel), w.store[StoreKey(b, root, rel)]); }
  }

  lemma EnsuredFiles(cache: Dirs, key: Key, from: Dir)
    ensures var (cache', ok) := Ensured(cache, key, from);
            && (ok <==> Obtainable(cache, key, from))
            && (ok ==> key in cache' && cache'[key] == if key in cache && HashOf(cache[key]) == HashOf(from) then cache[key] else from)
  {
  }

  /** Recording the state changes nothing about where the bundle resolves to. */
  lemma ResolvesAgain(b: Backend, w: World, w3: World, root: string, rel: string)
    requires !b.Local? && ResolveRel(b, w, root, rel).1.Some?
    requires w3.local == w.local && w3.store == w.store && w3.artifacts == ResolveRel(b, w, root, rel).0.artifacts
    ensures ResolveRel(b, w3, root, rel) == (w3, ResolveRel(b, w, root, rel).1)
  {
  }

  /** No directory of a root's own stands in the way of the bundle. */
  ghost predicate Unshadowed(b: Backend, w: World, root: string, rel: string) { b.Local? || NotLocal(w, KeyOf(root, rel)) }

  /** After any run, for all three repositories: what is read after installing has the files of the source,
      signature apart, exactly when no bundle with other files was there under its name. A bundle that is
      new is the source itself. */
  lemma InstalledIsSource(b: Backend, n: Naming, local: Dirs, events: seq<Event>, src: Source, root: string, revision: string)
    requires var w := Run(b, n, Start(local), events);
             var m := Materialize(b, n, w, src, root, revision).1;
             m.Some? && Unshadowed(b, w, root, m.value.rel)
    ensures var w := Run(b, n, Start(local), events);
            var (w', m) := Materialize(b, n, w, src, root, revision);
            var dirs, key := Bundles(b, w), BundleKey(b, root, m.value.rel);
            && Exists(w', m.value.active)
            && (SameFiles(FilesAt(w', m.value.active), src.files) <==> (key in dirs ==> SameFiles(dirs[key], src.files)))
            && (key !in dirs ==> FilesAt(w', m.value.active) == src.files)
  {
    Reachable(b, n, local, events);
    InstallReads(b, n, Run(b, n, Start(local), events), src, root, revision);
  }

  /** What is read after installing is the bundle that was there, or else the source. */
  lemma InstallReads(b: Backend, n: Naming, w: World, src: Source, root: string, revision: string)
    requires Inv(UpToSignature, b, w)
    requires var m := Materialize(b, n, w, src, root, revision).1;
             m.Some? && Unshadowed(b, w, root, m.value.rel)
    ensures var (w', m) := Materialize(b, n, w, src, root, revision);
            var dirs, key := Bundles(b, w), BundleKey(b, root, m.value.rel);
            && Exists(w', m.value.active) && SameFiles(FilesAt(w', m.value.active), if key in dirs then dirs[key] else src.files)
            && (key !in dirs ==> FilesAt(w', m.value.active) == src.files)
  {
    var hash := HashOf(src.files);
    var rel := "bundles/" + BundleName(n, revision, hash);
    var w1 := Stored(b, w, root, rel, src.files);
    MaterializeUnfolds(b, n, w, src, root, revision);
    if !b.Local? {
      StoredOnlyAdds(b, w, root, rel, src.files);
      StoredKeeps(UpToSignature, b, w, root, rel, src.files);
      assert Coherent(UpToSignature, b, w, KeyOf(root, rel)) && Coherent(UpToSignature, b, w1, KeyOf(root, rel));
      assert NotLocal(w1, KeyOf(root, rel));
      ActiveReads(b, w1, root, rel, State(rel, TrimSpace(revision), hash));
    }
  }

  /** What becomes active has the stored files, and is the stored bundle itself where there were no copies. */
  lemma ActiveReads(b: Backend, w: World, root: string, rel: string, s: State)
    requires !b.Local? && root != "" && s.rel == rel
    requires NotLocal(w, KeyOf(root, rel)) && Coherent(UpToSignature, b, w, KeyOf(root, rel))
    ensures var key, stored := KeyOf(root, rel), StoreKey(b, root, rel);
            var w2 := ResolveRel(b, w, root, rel).0;
            var (w', active) := ResolveActive(b, w2.(states := w2.states[root := s]), root);
            active.Some? ==>
              && active.value == AtActive(key) && Exists(w', active.value) && stored in w.store
              && SameFiles(FilesAt(w', active.value), w.store[stored])
              && (key !in w.artifacts && key !in w.active ==> FilesAt(w', active.value) == w.store[stored])
  {
    var key := KeyOf(root, rel);
    var w2 := ResolveRel(b, w, root, rel).0;
    var w3 := w2.(states := w2.states[root := s]);
    assert Key(root, rel) in w.local ==> KeyOf(root, rel) != key;
    RelElsewhere(b, w, root, rel);
    RelCoherent(UpToSignature, b, w, root, rel);
    CoherentStays(UpToSignature, b, w2, w3, key);
    ActiveHere(UpToSignature, b, w3, root);
    RelHere(UpToSignature, b, w, root, rel);
    if key !in w.artifacts && key !in w.active && ResolveActive(b, w3, root).1.Some? { NewIsExact(b, w3, root); }
  }

  /** An active copy just made of an exact artifact is exact. */
  lemma NewIsExact(b: Backend, w: World, root: string)
    requires !b.Local? && root != "" && root in w.states && KeyOf(root, w.states[root].rel) !in w.active
    requires var rel := w.states[root].rel;
             var key, stored := KeyOf(root, rel), StoreKey(b, root, rel);
             && Key(root, rel) !in w.local && stored in w.store && !Refused(b, root)
             && (b.ObjectStore? ==> key in w.artifacts && w.artifacts[key] == w.store[stored])
    ensures var (w', active) := ResolveActive(b, w, root);
            active.Some? ==> Exists(w', active.value) && FilesAt(w', active.value) == w.store[StoreKey(b, root, w.states[root].rel)]
  {
    var rel := w.states[root].rel;
    RelSettled(b, w, root, rel);
    ActiveFrom(b, w, root, if b.Cached? then AtStore(StoreKey(b, root, rel)) else AtArtifact(KeyOf(root, rel)));
  }

  /** For text, that is always so: with no NUL byte in the source or in a bundle already there, what is
      read after installing is the source, file for file, apart from the signature. */
  lemma TextInstalledIsSource(b: Backend, n: Naming, local: Dirs, events: seq<Event>, src: Source, root: string, revision: string)
    requires var w := Run(b, n, Start(local), events);
             var m := Materialize(b, n, w, src, root, revision).1;
             && m.Some? && Unshadowed(b, w, root, m.value.rel) && TextOnly(src.files)
             && var dirs, key := Bundles(b, w), BundleKey(b, root, m.value.rel); (key in dirs ==> TextOnly(dirs[key]))
    ensures var (w', m) := Materialize(b, n, Run(b, n, Start(local), events), src, root, revision);
            Exists(w', m.value.active) && SameFiles(FilesAt(w', m.value.active), src.files)
  {
    var w := Run(b, n, Start(local), events);
    var rel := "bundles/" + BundleName(n, revision, HashOf(src.files));
    var dirs, key := Bundles(b, w), BundleKey(b, root, rel);
    InstalledIsSource(b, n, local, events, src, root, revision);
    MaterializeUnfolds(b, n, w, src, root, revision);
    if key in dirs {
      assert HashOf(dirs[key]) == HashOf(src.files);
      TextHashExact(dirs[key], src.files);
    }
  }

  // ----- Bundles of text -----

  ghost predicate TextDirs(dirs: Dirs) { forall k :: k in dirs ==> TextOnly(dirs[k]) }

  ghost predicate AllText(w: World) { TextDirs(w.local) && TextDirs(w.store) }

  ghost predicate TextSources(events: seq<Event>) {
    forall i :: 0 <= i < |events| && events[i].Install? ==> TextOnly(events[i].src.files)
  }

  lemma WriteKeepsText(w: World, p: Place, signature: string)
    requires AllText(w) && Exists(w, p)
    ensures AllText(WriteAt(w, p, signature))
  {
  }

  lemma SignKeepsText(b: Backend, w: World, root: string, signature: string)
    requires AllText(w)
    ensures AllText(Sign(b, w, root, signature).0)
  {
    SignUnfolds(b, w, root, signature);
    if root != "" && root in w.states {
      var rel := w.states[root].rel;
      var w1 := SignStored(b, w, root, signature);
      SignStoredKeepsText(b, w, root, signature);
      RelElsewhere(b, w1, root, rel);
      var (w2, bundle) := ResolveRel(b, w1, root, rel);
      if bundle.Some? && Exists(w2, bundle.value) {
        WriteKeepsText(w2, bundle.value, signature);
        SignActiveKeepsText(b, WriteAt(w2, bundle.value, signature), root, bundle.value, signature);
      }
    }
  }

  lemma SignActiveKeepsText(b: Backend, w: World, root: string, bundle: Place, signature: string)
    requires AllText(w)
    ensures AllText(SignActive(b, w, root, bundle, signature))
  {
    SignActiveFrom(b, w, root, bundle, signature);
    ActiveElsewhere(b, w, root);
    var (w1, active) := ResolveActive(b, w, root);
    if active.Some? && Exists(w1, active.value) { WriteKeepsText(w1, active.value, signature); }
  }

  lemma SignStoredKeepsText(b: Backend, w: World, root: string, signature: string)
    requires AllText(w) && root in w.states
    ensures AllText(SignStored(b, w, root, signature))
  {
  }

  lemma InstallKeepsText(b: Backend, n: Naming, w: World, src: Source, root: string, revision: string)
    requires AllText(w) && TextOnly(src.files)
    ensures AllText(Materialize(b, n, w, src, root, revision).0)
  {
    var hash := HashOf(src.files);
    var rel := "bundles/" + BundleName(n, revision, hash);
    var w1 := Stored(b, w, root, rel, src.files);
    var w2 := ResolveRel(b, w1, root, rel).0;
    MaterializeUnfolds(b, n, w, src, root, revision);
    RelElsewhere(b, w1, root, rel);
    ActiveElsewhere(b, w2.(states := w2.states[root := State(rel, TrimSpace(revision), hash)]), root);
    assert AllText(w1);
  }

  lemma {:induction false} RunKeepsText(b: Backend, n: Naming, w: World, events: seq<Event>)
    requires AllText(w) && TextSources(events)
    ensures AllText(Run(b, n, w, events))
    decreases |events|
  {
    if events != [] {
      match events[0] {
        case Install(src, root, revision) => InstallKeepsText(b, n, w, src, TrimSpace(root), revision);
        case WriteSignature(root, signature) => SignKeepsText(b, w, TrimSpace(root), signature);
        case Resolve(root) => ActiveElsewhere(b, w, TrimSpace(root));
      }
      RunKeepsText(b, n, After(b, n, w, events[0]), events[1..]);
    }
  }

  /** In runs that install text over text, every install reads back as its source. */
  lemma TextRunsReadBack(b: Backend, n: Naming, local: Dirs, events: seq<Event>, src: Source, root: string, revision: string)
    requires TextDirs(local) && TextSources(events) && TextOnly(src.files)
    requires var w := Run(b, n, Start(local), events);
             var m := Materialize(b, n, w, src, root, revision).1;
             m.Some? && Unshadowed(b, w, root, m.value.rel)
    ensures var (w', m) := Materialize(b, n, Run(b, n, Start(local), events), src, root, revision);
            Exists(w', m.value.active) && SameFiles(FilesAt(w', m.value.active), src.files)
  {
    RunKeepsText(b, n, Start(local), events);
    TextInstalledIsSource(b, n, local, events, src, root, revision);
  }

  /** With NUL bytes it need not be so: of two directories that hash alike, the second install is taken for
      the first, succeeds, and is read back as the first. Any two small files make such directories. */
  lemma SecondInstallLost(b: Backend, n: Naming, root: string, revision: string, p: string, x: string, q: string, y: string)
    requires TrimSpace(root) != "" && !Refused(b, TrimSpace(root))
    requires Less(p, q) && p != SIGNATURE && q != SIGNATURE && |x| + |q| + |y| + 2 <= MAX_FILE_BYTES
    ensures var one, two := map[p := x + [NUL] + q + [NUL] + y], map[p := x, q := y];
            var w := Run(b, n, Start(map[]), [Install(Source(one, false), root, revision)]);
            var (w', m) := Materialize(b, n, w, Source(two, false), TrimSpace(root), revision);
            && m.Some? && m.value.hash == HashOf(two)
            && Exists(w', m.value.active) && FilesAt(w', m.value.active) == one && !SameFiles(one, two)
  {
    var one: Dir, two: Dir := map[p := x + [NUL] + q + [NUL] + y], map[p := x, q := y];
    NulHidesFiles(p, x, q, y);
    OneCopyable(p, x + [NUL] + q + [NUL] + y);
    TwoCopyable(p, x, q, y);
    RunOfOne(b, n, Install(Source(one, false), root, revision));
    SecondTakenForFirst(b, n, TrimSpace(root), revision, Source(one, false), Source(two, false));
  }

  lemma SecondTakenForFirst(b: Backend, n: Naming, root: string, revision: string, one: Source, two: Source)
    requires root != "" && !Refused(b, root) && !one.links && !two.links
    requires Copyable(one.files) && Copyable(two.files) && HashOf(one.files) == HashOf(two.files)
    ensures var w := Materialize(b, n, Start(map[]), one, root, revision).0;
            var (w', m) := Materialize(b, n, w, two, root, revision);
            m.Some? && m.value.hash == HashOf(two.files) && Exists(w', m.value.active) && FilesAt(w', m.value.active) == one.files
  {
    if b.Local? { SecondLocal(n, root, revision, one, two); } else { SecondStored(b, n, root, revision, one, two); }
  }

  lemma SecondLocal(n: Naming, root: string, revision: string, one: Source, two: Source)
    requires root != "" && !one.links && !two.links
    requires Copyable(one.files) && Copyable(two.files) && HashOf(one.files) == HashOf(two.files)
    ensures var w := Materialize(Local, n, Start(map[]), one, root, revision).0;
            var (w', m) := Materialize(Local, n, w, two, root, revision);
            m.Some? && m.value.hash == HashOf(two.files) && Exists(w', m.value.active) && FilesAt(w', m.value.active) == one.files
  {
    var w := Materialize(Local, n, Start(map[]), one, root, revision).0;
    InstallLocal(n, Start(map[]), one, root, revision, one.files);
    assert w.local[Key(root, "bundles/" + BundleName(n, revision, HashOf(one.files)))] == one.files;
    InstallLocal(n, w, two, root, revision, one.files);
  }

  lemma SecondStored(b: Backend, n: Naming, root: string, revision: string, one: Source, two: Source)
    requires !b.Local? && root != "" && !Refused(b, root) && !one.links && !two.links
    requires Copyable(one.files) && Copyable(two.files) && HashOf(one.files) == HashOf(two.files)
    ensures var w := Materialize(b, n, Start(map[]), one, root, revision).0;
            var (w', m) := Materialize(b, n, w, two, root, revision);
            m.Some? && m.value.hash == HashOf(two.files) && Exists(w', m.value.active) && FilesAt(w', m.value.active) == one.files
  {
    InstallWith(b, n, Start(map[]), one, root, revision, one.files);
    StoredAlready(b, n, Materialize(b, n, Start(map[]), one, root, revision).0, root, revision, one.files, two);
  }

  /** Installing over a bundle that is in the store and the caches. */
  lemma StoredAlready(b: Backend, n: Naming, w: World, root: string, revision: string, files: Dir, src: Source)
    requires !b.Local? && root != "" && !Refused(b, root) && !src.links
    requires Copyable(files) && Copyable(src.files) && HashOf(files) == HashOf(src.files) && w.local == map[]
    requires var rel := "bundles/" + BundleName(n, revision, HashOf(files));
             var stored, key := StoreKey(b, root, rel), KeyOf(root, rel);
             && stored in w.store && w.store[stored] == files
             && (key in w.artifacts ==> w.artifacts[key] == files) && key in w.active && w.active[key] == files
    ensures var (w', m) := Materialize(b, n, w, src, root, revision);
            m.Some? && m.value.hash == HashOf(src.files) && Exists(w', m.value.active) && FilesAt(w', m.value.active) == files
  {
    InstallWith(b, n, w, src, root, revision, files);
  }

  lemma RunOfOne(b: Backend, n: Naming, e: Event)
    ensures Run(b, n, Start(map[]), [e]) == After(b, n, Start(map[]), e)
  {
    assert [e][1..] == [];
    assert Run(b, n, After(b, n, Start(map[]), e), []) == After(b, n, Start(map[]), e);
  }

  lemma OneCopyable(p: string, x: string)
    requires |x| <= MAX_FILE_BYTES
    ensures Copyable(map[p := x])
  {
    var one: Dir := map[p := x];
    assert one.Keys == {p};
    SortedOne(p);
    BytesAppend(one, [], p);
  }

  lemma TwoCopyable(p: string, x: string, q: string, y: string)
    requires Less(p, q) && |x| <= MAX_FILE_BYTES && |y| <= MAX_FILE_BYTES
    ensures Copyable(map[p := x, q := y])
  {
    var two: Dir := map[p := x, q := y];
    assert two.Keys == {p, q};
    SortedTwo(p, q);
    BytesAppend(two, [], p);
    BytesAppend(two, [p], q);
  }

  lemma BytesAppend(dir: Dir, paths: seq<string>, p: string)
    requires p in dir && forall q :: q in paths ==> q in dir
    ensures Bytes(dir, paths + [p]) == Bytes(dir, paths) + |dir[p]|
  {
    assert (paths + [p])[..|paths|] == paths;
  }
}
