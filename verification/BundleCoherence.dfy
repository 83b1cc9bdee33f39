/** What installing, signing and resolving keep of the agreement between the copies of a bundle, and so
    what holds over any run of them. */
module BundleCoherence {
  import opened Wrappers
  import opened GoText
  import opened BundleHash
  import opened BundleStores

  /** How far two directories agree: file for file, or in all files but the signature. */
  datatype Agreement = InFull | UpToSignature

  ghost predicate Agree(how: Agreement, a: Dir, b: Dir) { if how.InFull? then a == b else SameFiles(a, b) }

  lemma AgreeingHash(how: Agreement, a: Dir, b: Dir)
    requires Agree(how, a, b)
    ensures HashOf(a) == HashOf(b)
  {
    if how.UpToSignature? { SameFilesHash(a, b); }
  }

  /** Where the bundle that the caches know by this key is stored. */
  function StoreOf(b: Backend, key: Key): Key { if b.ObjectStore? then Key(TrimSpace(key.plugin), key.rel) else key }

  /** No root with this plugin id has a directory of that name of its own. */
  ghost predicate NotLocal(w: World, key: Key) {
    forall k :: k in w.local ==> KeyOf(k.plugin, k.rel) != key
  }

  /** All copies there are of a bundle agree with what is stored; only a directory of a root's own may
      stand in for the active copy. */
  ghost predicate CopiesAgreeAt(how: Agreement, b: Backend, w: World, key: Key) {
    && (b.ObjectStore? && key in w.artifacts ==> StoreOf(b, key) in w.store && Agree(how, w.artifacts[key], w.store[StoreOf(b, key)]))
    && (NotLocal(w, key) && key in w.active ==> StoreOf(b, key) in w.store && Agree(how, w.active[key], w.store[StoreOf(b, key)]))
  }

  ghost predicate CopiesAgree(how: Agreement, b: Backend, w: World) { forall key :: CopiesAgreeAt(how, b, w, key) }

  /** The invariant adds that active copies came through the artifact, where there are artifacts. */
  ghost predicate Coherent(how: Agreement, b: Backend, w: World, key: Key) {
    && CopiesAgreeAt(how, b, w, key)
    && (b.ObjectStore? && NotLocal(w, key) && key in w.active ==> key in w.artifacts)
  }

  ghost predicate AllCoherent(how: Agreement, b: Backend, w: World) { forall key :: Coherent(how, b, w, key) }

  /** The bundles themselves: under the plugin roots, or in the store. */
  ghost function Bundles(b: Backend, w: World): Dirs { if b.Local? then w.local else w.store }

  function BundleKey(b: Backend, root: string, rel: string): Key {
    if b.Local? then Key(root, rel) else StoreKey(b, root, rel)
  }

  /** A root's state names a bundle that is there, and records its hash. */
  ghost predicate Recorded(b: Backend, w: World, root: string, s: State) {
    !Refused(b, root) && HashIs(Bundles(b, w), BundleKey(b, root, s.rel), s.hash)
  }

  ghost predicate HashIs(dirs: Dirs, key: Key, hash: Hash) { key in dirs && HashOf(dirs[key]) == hash }

  ghost predicate AllRecorded(b: Backend, w: World) {
    forall root :: root in w.states ==> Recorded(b, w, root, w.states[root])
  }

  ghost predicate Inv(how: Agreement, b: Backend, w: World) {
    AllRecorded(b, w) && (!b.Local? ==> AllCoherent(how, b, w))
  }

  // ----- What an operation on one root leaves alone -----

  /** The caches hold the same under this key. */
  ghost predicate SameCopies(w: World, w': World, key: Key) {
    && (key in w.artifacts <==> key in w'.artifacts) && (key in w.artifacts ==> w'.artifacts[key] == w.artifacts[key])
    && (key in w.active <==> key in w'.active) && (key in w.active ==> w'.active[key] == w.active[key])
  }

  ghost predicate SameBut(w: World, w': World) { w'.store == w.store && w'.local == w.local && w'.states == w.states }

  /** Resolving changes no store, local directory or state, and of the caches only the bundle's own copies. */
  lemma RelElsewhere(b: Backend, w: World, root: string, rel: string)
    ensures var w' := ResolveRel(b, w, root, rel).0;
            SameBut(w, w') && w'.active == w.active && forall key :: key != KeyOf(root, rel) ==> SameCopies(w, w', key)
  {
  }

  lemma ActiveElsewhere(b: Backend, w: World, root: string)
    ensures SameBut(w, ResolveActive(b, w, root).0)
    ensures forall key :: (root in w.states ==> key != KeyOf(root, w.states[root].rel)) ==> SameCopies(w, ResolveActive(b, w, root).0, key)
  {
    if root != "" && root in w.states { RelElsewhere(b, w, root, w.states[root].rel); }
  }

  /** What is recorded depends on the states, the store and the local directories alone. */
  lemma RecordedStays(b: Backend, w: World, w': World)
    requires AllRecorded(b, w) && SameBut(w, w')
    ensures AllRecorded(b, w')
  {
    forall r | r in w'.states ensures Recorded(b, w', r, w'.states[r]) { assert Recorded(b, w, r, w.states[r]); }
  }

  /** Coherence under a key is a matter of the copies under it and of the stored bundle. */
  lemma CoherentStays(how: Agreement, b: Backend, w: World, w': World, key: Key)
    requires Coherent(how, b, w, key) && SameCopies(w, w', key) && w'.local.Keys == w.local.Keys
    requires var k := StoreOf(b, key); k in w.store ==> k in w'.store && Agree(how, w.store[k], w'.store[k])
    ensures Coherent(how, b, w', key)
  {
    assert NotLocal(w', key) <==> NotLocal(w, key) by { SameKeys(w, w', key); }
  }

  lemma SameKeys(w: World, w': World, key: Key)
    requires w'.local.Keys == w.local.Keys
    ensures NotLocal(w', key) <==> NotLocal(w, key)
  {
    assert forall k :: k in w'.local <==> k in w.local;
  }

  // ----- Resolving -----

  /** Bringing a coherent copy up to date leaves it as it is, and makes one where there is none. */
  lemma EnsuredAgrees(how: Agreement, cache: Dirs, key: Key, from: Dir)
    requires key in cache ==> Agree(how, cache[key], from)
    ensures var (cache', ok) := Ensured(cache, key, from);
            && (ok ==> key in cache' && Agree(how, cache'[key], from))
            && (key in cache ==> ok && cache' == cache)
            && (key !in cache ==> (ok <==> Copyable(from)) && cache' == if ok then cache[key := from] else cache)
  {
    if key in cache { AgreeingHash(how, cache[key], from); }
    assert key !in cache ==> cache - {key} == cache;
  }

  /** The bundle resolves unless it is not stored or, having no artifact, cannot be copied. */
  ghost predicate Resolvable(b: Backend, w: World, root: string, rel: string) {
    && !Refused(b, root) && StoreKey(b, root, rel) in w.store
    && (b.ObjectStore? && KeyOf(root, rel) !in w.artifacts ==> Copyable(w.store[StoreKey(b, root, rel)]))
  }

  /** Where a bundle resolves to has the stored files, and existing copies are left alone. */
  lemma RelHere(how: Agreement, b: Backend, w: World, root: string, rel: string)
    requires !b.Local? && Key(root, rel) !in w.local && Coherent(how, b, w, KeyOf(root, rel))
    ensures var key, stored := KeyOf(root, rel), StoreKey(b, root, rel);
            var (w1, bundle) := ResolveRel(b, w, root, rel);
            && (bundle.Some? <==> Resolvable(b, w, root, rel))
            && (bundle.Some? ==> bundle.value == if b.Cached? then AtStore(stored) else AtArtifact(key))
            && (bundle.Some? ==> Exists(w1, bundle.value) && Agree(how, FilesAt(w1, bundle.value), w.store[stored]))
            && (bundle.Some? && key !in w.artifacts ==> FilesAt(w1, bundle.value) == w.store[stored])
            && (bundle.None? || b.Cached? || key in w.artifacts ==> w1 == w)
            && (bundle.Some? && b.ObjectStore? && key !in w.artifacts ==> w1.artifacts == w.artifacts[key := w.store[stored]])
  {
    var key, stored := KeyOf(root, rel), StoreKey(b, root, rel);
    if b.ObjectStore? && !Refused(b, root) && stored in w.store { EnsuredAgrees(how, w.artifacts, key, w.store[stored]); }
  }

  lemma RelCoherent(how: Agreement, b: Backend, w: World, root: string, rel: string)
    requires !b.Local? && Coherent(how, b, w, KeyOf(root, rel))
    ensures Coherent(how, b, ResolveRel(b, w, root, rel).0, KeyOf(root, rel))
  {
    if Key(root, rel) !in w.local {
      RelHere(how, b, w, root, rel);
      RelElsewhere(b, w, root, rel);
    }
  }

  /** The active copy of a bundle that is no root's own directory. */
  lemma ActiveHere(how: Agreement, b: Backend, w: World, root: string)
    requires !b.Local? && root != "" && root in w.states
    requires var key := KeyOf(root, w.states[root].rel); NotLocal(w, key) && Coherent(how, b, w, key)
    ensures var rel := w.states[root].rel;
            var key, stored := KeyOf(root, rel), StoreKey(b, root, rel);
            var (w2, active) := ResolveActive(b, w, root);
            && w2.artifacts == ResolveRel(b, w, root, rel).0.artifacts
            && (active.Some? ==> active.value == AtActive(key) && stored in w.store && key in w2.active)
            && (active.Some? ==> Agree(how, w2.active[key], w.store[stored]))
            && (active.Some? && key !in w.active && key !in w.artifacts ==> w2.active[key] == w.store[stored])
            && (key in w.active || active.None? ==> w2.active == w.active)
  {
    var rel := w.states[root].rel;
    var key := KeyOf(root, rel);
    assert Key(root, rel) in w.local ==> KeyOf(root, rel) != key;
    RelHere(how, b, w, root, rel);
    RelElsewhere(b, w, root, rel);
    var (w1, bundle) := ResolveRel(b, w, root, rel);
    if bundle.Some? { EnsuredAgrees(how, w1.active, key, FilesAt(w1, bundle.value)); }
  }

  lemma ActiveCoherentHere(how: Agreement, b: Backend, w: World, root: string)
    requires !b.Local? && root != "" && root in w.states && Coherent(how, b, w, KeyOf(root, w.states[root].rel))
    ensures Coherent(how, b, ResolveActive(b, w, root).0, KeyOf(root, w.states[root].rel))
  {
    var rel := w.states[root].rel;
    var key := KeyOf(root, rel);
    ActiveElsewhere(b, w, root);
    RelCoherent(how, b, w, root, rel);
    RelElsewhere(b, w, root, rel);
    ActiveArtifacts(b, w, root);
    if NotLocal(w, key) {
      ActiveHere(how, b, w, root);
      if Key(root, rel) !in w.local { RelHere(how, b, w, root, rel); }
    }
  }

  lemma ActiveArtifacts(b: Backend, w: World, root: string)
    requires root != "" && root in w.states
    ensures ResolveActive(b, w, root).0.artifacts == ResolveRel(b, w, root, w.states[root].rel).0.artifacts
  {
  }

  lemma RelKeeps(how: Agreement, b: Backend, w: World, root: string, rel: string)
    requires Inv(how, b, w)
    ensures Inv(how, b, ResolveRel(b, w, root, rel).0)
  {
    var w' := ResolveRel(b, w, root, rel).0;
    RelElsewhere(b, w, root, rel);
    RecordedStays(b, w, w');
    if !b.Local? {
      forall k ensures Coherent(how, b, w', k) {
        assert Coherent(how, b, w, k);
        if k == KeyOf(root, rel) { RelCoherent(how, b, w, root, rel); } else { CoherentStays(how, b, w, w', k); }
      }
    }
  }

  lemma ActiveKeeps(how: Agreement, b: Backend, w: World, root: string)
    requires Inv(how, b, w)
    ensures Inv(how, b, ResolveActive(b, w, root).0)
  {
    var w' := ResolveActive(b, w, root).0;
    ActiveElsewhere(b, w, root);
    RecordedStays(b, w, w');
    if !b.Local? {
      forall k ensures Coherent(how, b, w', k) {
        assert Coherent(how, b, w, k);
        if root != "" && root in w.states && k == KeyOf(root, w.states[root].rel) { ActiveCoherentHere(how, b, w, root); }
        else if root != "" { CoherentStays(how, b, w, w', k); }
      }
    }
  }

  // ----- Installing -----

  ghost predicate KeepsDirs(dirs: Dirs, dirs': Dirs) { forall k :: k in dirs ==> k in dirs' && dirs'[k] == dirs[k] }

  /** The world once the bundle is stored. */
  ghost function Stored(b: Backend, w: World, root: string, rel: string, files: Dir): World {
    if b.Local? then
      if Installed(w.local, Key(root, rel), files).Some? then w.(local := Installed(w.local, Key(root, rel), files).value) else w
    else
      if Installed(w.store, StoreKey(b, root, rel), files).Some? then w.(store := Installed(w.store, StoreKey(b, root, rel), files).value) else w
  }

  /** Installing refuses, keeps or adds: it changes no bundle that is there. */
  lemma InstalledAdds(dirs: Dirs, key: Key, files: Dir)
    ensures Installed(dirs, key, files).Some? ==> KeepsDirs(dirs, Installed(dirs, key, files).value)
  {
  }

  lemma StoredOnlyAdds(b: Backend, w: World, root: string, rel: string, files: Dir)
    ensures var w' := Stored(b, w, root, rel, files);
            && KeepsDirs(w.local, w'.local) && KeepsDirs(w.store, w'.store)
            && w'.artifacts == w.artifacts && w'.active == w.active && w'.states == w.states
            && (!b.Local? ==> w'.local == w.local)
  {
    InstalledAdds(w.local, Key(root, rel), files);
    InstalledAdds(w.store, StoreKey(b, root, rel), files);
  }

  /** Bundles added to the store change no promise about the others. */
  lemma StoredKeeps(how: Agreement, b: Backend, w: World, root: string, rel: string, files: Dir)
    requires Inv(how, b, w)
    ensures Inv(how, b, Stored(b, w, root, rel, files))
  {
    var w' := Stored(b, w, root, rel, files);
    StoredOnlyAdds(b, w, root, rel, files);
    forall r | r in w'.states ensures Recorded(b, w', r, w'.states[r]) { assert Recorded(b, w, r, w.states[r]); }
    if !b.Local? {
      forall k ensures Coherent(how, b, w', k) {
        assert Coherent(how, b, w, k);
        CoherentStays(how, b, w, w', k);
      }
    }
  }

  lemma MaterializeUnfolds(b: Backend, n: Naming, w: World, src: Source, root: string, revision: string)
    ensures var hash := HashOf(src.files);
            var rel := "bundles/" + BundleName(n, revision, hash);
            var w1 := Stored(b, w, root, rel, src.files);
            var w2 := ResolveRel(b, w1, root, rel).0;
            var w3 := w2.(states := w2.states[root := State(rel, TrimSpace(revision), hash)]);
            var after := Materialize(b, n, w, src, root, revision);
            || after == (w, None)
            || (ResolveRel(b, w1, root, rel).1.None? && after == (w2, None) && Holds(b, w1, root, rel, hash))
            || (ResolveRel(b, w1, root, rel).1.Some? && after.0 == ResolveActive(b, w3, root).0 && Holds(b, w1, root, rel, hash)
                && root != "" && (after.1.Some? <==> ResolveActive(b, w3, root).1.Some?)
                && (after.1.Some? ==> after.1.value == Materialized(rel, hash, ResolveActive(b, w3, root).1.value)))
  {
  }

  ghost predicate Holds(b: Backend, w: World, root: string, rel: string, hash: Hash) {
    Recorded(b, w, root, State(rel, "", hash))
  }

  lemma MaterializeKeeps(how: Agreement, b: Backend, n: Naming, w: World, src: Source, root: string, revision: string)
    requires Inv(how, b, w)
    ensures Inv(how, b, Materialize(b, n, w, src, root, revision).0)
  {
    var hash := HashOf(src.files);
    var rel := "bundles/" + BundleName(n, revision, hash);
    var w1 := Stored(b, w, root, rel, src.files);
    var w2 := ResolveRel(b, w1, root, rel).0;
    StoredKeeps(how, b, w, root, rel, src.files);
    RelKeeps(how, b, w1, root, rel);
    RelElsewhere(b, w1, root, rel);
    MaterializeUnfolds(b, n, w, src, root, revision);
    if Materialize(b, n, w, src, root, revision).0 != w && ResolveRel(b, w1, root, rel).1.Some? {
      StateKeeps(how, b, w2, root, State(rel, TrimSpace(revision), hash));
      ActiveKeeps(how, b, w2.(states := w2.states[root := State(rel, TrimSpace(revision), hash)]), root);
    }
  }

  /** Recording a bundle that is there. */
  lemma StateKeeps(how: Agreement, b: Backend, w: World, root: string, s: State)
    requires Inv(how, b, w) && Recorded(b, w, root, s)
    ensures Inv(how, b, w.(states := w.states[root := s]))
  {
    var w' := w.(states := w.states[root := s]);
    forall r | r in w'.states ensures Recorded(b, w', r, w'.states[r]) {
      if r != root { assert Recorded(b, w, r, w.states[r]); }
    }
    if !b.Local? {
      forall k ensures Coherent(how, b, w', k) {
        assert Coherent(how, b, w, k);
        CoherentStays(how, b, w, w', k);
      }
    }
  }

  /** Installing for a root touches only copies under its own plugin id. */
  lemma MaterializeElsewhere(b: Backend, n: Naming, w: World, src: Source, root: string, revision: string, key: Key)
    requires key.plugin != Base(root)
    ensures SameCopies(w, Materialize(b, n, w, src, root, revision).0, key)
  {
    var hash := HashOf(src.files);
    var rel := "bundles/" + BundleName(n, revision, hash);
    var w1 := Stored(b, w, root, rel, src.files);
    var w2 := ResolveRel(b, w1, root, rel).0;
    var w3 := w2.(states := w2.states[root := State(rel, TrimSpace(revision), hash)]);
    MaterializeUnfolds(b, n, w, src, root, revision);
    StoredOnlyAdds(b, w, root, rel, src.files);
    RelElsewhere(b, w1, root, rel);
    assert SameCopies(w1, w2, key);
    ActiveElsewhere(b, w3, root);
    assert SameCopies(w3, ResolveActive(b, w3, root).0, key);
  }

  // ----- Signing -----

  /** The same bundles up to their signatures. */
  ghost predicate SameButSigned(dirs: Dirs, dirs': Dirs) {
    forall k :: k in dirs ==> k in dirs' && SameFiles(dirs[k], dirs'[k])
  }

  /** Nothing but signatures written, into directories that are there. */
  ghost predicate OnlySigned(w: World, w': World) {
    w'.states == w.states && w'.local.Keys == w.local.Keys && SameButSigned(w.local, w'.local) && SameButSigned(w.store, w'.store)
  }

  lemma OnlySignedKeepsRecorded(b: Backend, w: World, w': World)
    requires AllRecorded(b, w) && OnlySigned(w, w')
    ensures AllRecorded(b, w')
  {
    forall r | r in w'.states ensures Recorded(b, w', r, w'.states[r]) {
      assert Recorded(b, w, r, w.states[r]);
      var k := BundleKey(b, r, w.states[r].rel);
      SameFilesHash(Bundles(b, w)[k], Bundles(b, w')[k]);
    }
  }

  lemma WriteOnlySigns(w: World, p: Place, signature: string)
    requires Exists(w, p)
    ensures OnlySigned(w, WriteAt(w, p, signature))
  {
    SignedIsSame(DirsAt(w, p)[p.key], signature);
  }

  lemma SignedIsSame(files: Dir, signature: string)
    ensures SameFiles(files, files[SIGNATURE := signature])
  {
    assert files - {SIGNATURE} == files[SIGNATURE := signature] - {SIGNATURE};
  }

  lemma StoreSignedOnlySigns(w: World, key: Key, signature: string)
    ensures OnlySigned(w, StoreSigned(w, key, signature))
  {
    if key in w.store { SignedIsSame(w.store[key], signature); }
  }

  /** The stages of `Sign` on a root with a state: the store written, the bundle resolved and written. */
  ghost function SignStored(b: Backend, w: World, root: string, signature: string): World
    requires root in w.states
  {
    var rel := w.states[root].rel;
    if b.ObjectStore? && Key(root, rel) !in w.local then StoreSigned(w, StoreKey(b, root, rel), signature) else w
  }

  lemma SignUnfolds(b: Backend, w: World, root: string, signature: string)
    ensures var after := Sign(b, w, root, signature);
            || after == (w, false)
            || (root != "" && root in w.states &&
                var w1 := SignStored(b, w, root, signature);
                var (w2, bundle) := ResolveRel(b, w1, root, w.states[root].rel);
                || (after == (w2, false) && (bundle.None? || !Exists(w2, bundle.value)))
                || (bundle.Some? && Exists(w2, bundle.value) && after.1 &&
                    var w3 := WriteAt(w2, bundle.value, signature);
                    after.0 == if b.Local? then w3 else SignActive(b, w3, root, bundle.value, signature)))
  {
  }

  lemma SignActiveFrom(b: Backend, w: World, root: string, bundle: Place, signature: string)
    ensures var (w1, active) := ResolveActive(b, w, root);
            SignActive(b, w, root, bundle, signature) ==
            if active.Some? && active.value != bundle && Exists(w1, active.value) then WriteAt(w1, active.value, signature) else w1
  {
  }

  lemma SignActiveOnlySigns(b: Backend, w: World, root: string, bundle: Place, signature: string)
    ensures OnlySigned(w, SignActive(b, w, root, bundle, signature))
  {
    SignActiveFrom(b, w, root, bundle, signature);
    var (w1, active) := ResolveActive(b, w, root);
    ActiveElsewhere(b, w, root);
    if active.Some? && Exists(w1, active.value) { WriteOnlySigns(w1, active.value, signature); }
  }

  lemma SameButSignedOnwards(a: Dirs, b: Dirs, c: Dirs)
    requires SameButSigned(a, b) && SameButSigned(b, c)
    ensures SameButSigned(a, c)
  {
    forall k | k in a ensures k in c && SameFiles(a[k], c[k]) { assert SameFiles(a[k], b[k]) && SameFiles(b[k], c[k]); }
  }

  lemma OnlySignedOnwards(u: World, v: World, w: World)
    requires OnlySigned(u, v) && OnlySigned(v, w)
    ensures OnlySigned(u, w)
  {
    SameButSignedOnwards(u.local, v.local, w.local);
    SameButSignedOnwards(u.store, v.store, w.store);
  }

  lemma SignOnlySigns(b: Backend, w: World, root: string, signature: string)
    ensures OnlySigned(w, Sign(b, w, root, signature).0)
  {
    SignUnfolds(b, w, root, signature);
    if root != "" && root in w.states {
      var rel := w.states[root].rel;
      StoreSignedOnlySigns(w, StoreKey(b, root, rel), signature);
      var w1 := SignStored(b, w, root, signature);
      RelElsewhere(b, w1, root, rel);
      var (w2, bundle) := ResolveRel(b, w1, root, rel);
      if bundle.Some? && Exists(w2, bundle.value) {
        var w3 := WriteAt(w2, bundle.value, signature);
        WriteOnlySigns(w2, bundle.value, signature);
        OnlySignedOnwards(w, w2, w3);
        SignActiveOnlySigns(b, w3, root, bundle.value, signature);
        OnlySignedOnwards(w, w3, SignActive(b, w3, root, bundle.value, signature));
      }
    }
  }

  // Coherence up to the signature survives every stage.

  lemma WriteKeeps(b: Backend, w: World, p: Place, signature: string)
    requires Inv(UpToSignature, b, w) && Exists(w, p)
    ensures Inv(UpToSignature, b, WriteAt(w, p, signature))
  {
    var w' := WriteAt(w, p, signature);
    WriteOnlySigns(w, p, signature);
    OnlySignedKeepsRecorded(b, w, w');
    if !b.Local? {
      forall k ensures Coherent(UpToSignature, b, w', k) {
        assert Coherent(UpToSignature, b, w, k);
        SameKeys(w, w', k);
        if k in w.artifacts { SignedIsSame(w.artifacts[k], signature); }
        if k in w.active { SignedIsSame(w.active[k], signature); }
      }
    }
  }

  lemma OnlySignedKeeps(b: Backend, w: World, w': World)
    requires Inv(UpToSignature, b, w) && OnlySigned(w, w') && w'.artifacts == w.artifacts && w'.active == w.active
    ensures Inv(UpToSignature, b, w')
  {
    OnlySignedKeepsRecorded(b, w, w');
    if !b.Local? {
      forall k ensures Coherent(UpToSignature, b, w', k) {
        assert Coherent(UpToSignature, b, w, k);
        CoherentStays(UpToSignature, b, w, w', k);
      }
    }
  }

  lemma SignKeepsFiles(b: Backend, w: World, root: string, signature: string)
    requires Inv(UpToSignature, b, w)
    ensures Inv(UpToSignature, b, Sign(b, w, root, signature).0)
  {
    SignUnfolds(b, w, root, signature);
    if root != "" && root in w.states {
      var rel := w.states[root].rel;
      var w1 := SignStored(b, w, root, signature);
      StoreSignedOnlySigns(w, StoreKey(b, root, rel), signature);
      OnlySignedKeeps(b, w, w1);
      RelKeeps(UpToSignature, b, w1, root, rel);
      var (w2, bundle) := ResolveRel(b, w1, root, rel);
      if bundle.Some? && Exists(w2, bundle.value) {
        var w3 := WriteAt(w2, bundle.value, signature);
        WriteKeeps(b, w2, bundle.value, signature);
        SignActiveKeeps(b, w3, root, bundle.value, signature);
      }
    }
  }

  lemma SignActiveKeeps(b: Backend, w: World, root: string, bundle: Place, signature: string)
    requires Inv(UpToSignature, b, w)
    ensures Inv(UpToSignature, b, SignActive(b, w, root, bundle, signature))
  {
    SignActiveFrom(b, w, root, bundle, signature);
    ActiveKeeps(UpToSignature, b, w, root);
    var (w1, active) := ResolveActive(b, w, root);
    if active.Some? && Exists(w1, active.value) { WriteKeeps(b, w1, active.value, signature); }
  }

  // Coherence in full survives where no other copies share the stored bundle.

  /** A copy that lacks only the signature is kept, and is as the bundle once it is signed too. */
  lemma EnsuredSigned(cache: Dirs, key: Key, files: Dir, signature: string)
    requires files[SIGNATURE := signature] == files
    requires key in cache ==> cache[key][SIGNATURE := signature] == files
    ensures var (cache', ok) := Ensured(cache, key, files);
            && (ok ==> key in cache' && cache'[key][SIGNATURE := signature] == files)
            && (!ok ==> key !in cache && cache' == cache)
  {
    if key in cache { HashIgnoresSignature(cache[key], signature); }
    assert key !in cache ==> cache - {key} == cache;
  }

  /** The object store and the artifact signed: the first two stages. */
  lemma ArtifactSigned(w: World, root: string, rel: string, signature: string)
    requires !Refused(ObjectStore, root) && Key(root, rel) !in w.local
    requires var key, stored := KeyOf(root, rel), StoreKey(ObjectStore, root, rel);
             stored in w.store && (key in w.artifacts ==> w.artifacts[key] == w.store[stored])
    ensures var key, stored := KeyOf(root, rel), StoreKey(ObjectStore, root, rel);
            var w1 := StoreSigned(w, stored, signature);
            var (w2, bundle) := ResolveRel(ObjectStore, w1, root, rel);
            && w2 == w1.(artifacts := w2.artifacts)
            && (bundle.None? ==> w2.artifacts == w.artifacts && key !in w.artifacts)
            && (bundle.Some? ==> bundle.value == AtArtifact(key) && key in w2.artifacts)
            && (bundle.Some? ==> w2.artifacts[key][SIGNATURE := signature] == w2.store[stored])
  {
    var key, stored := KeyOf(root, rel), StoreKey(ObjectStore, root, rel);
    var w1 := StoreSigned(w, stored, signature);
    assert w1.store[stored] == w.store[stored][SIGNATURE := signature];
    EnsuredSigned(w1.artifacts, key, w1.store[stored], signature);
  }

  /** With its artifact up to date, a bundle resolves without a change. */
  lemma RelSettled(b: Backend, w: World, root: string, rel: string)
    requires !b.Local? && !Refused(b, root) && Key(root, rel) !in w.local && StoreKey(b, root, rel) in w.store
    requires b.ObjectStore? ==> KeyOf(root, rel) in w.artifacts && w.artifacts[KeyOf(root, rel)] == w.store[StoreKey(b, root, rel)]
    ensures ResolveRel(b, w, root, rel) == (w, Some(if b.Cached? then AtStore(StoreKey(b, root, rel)) else AtArtifact(KeyOf(root, rel))))
  {
  }

  lemma ActiveFrom(b: Backend, w: World, root: string, source: Place)
    requires !b.Local? && root != "" && root in w.states && Exists(w, source)
    requires ResolveRel(b, w, root, w.states[root].rel) == (w, Some(source))
    ensures var key := KeyOf(root, w.states[root].rel);
            var (active, ok) := Ensured(w.active, key, FilesAt(w, source));
            ResolveActive(b, w, root) == (w.(active := active), if ok then Some(AtActive(key)) else None)
  {
  }

  /** The last stage: the bundle and its artifact are signed, and the active copy follows. */
  lemma ActiveSigned(b: Backend, w: World, root: string, bundle: Place, signature: string)
    requires !b.Local? && root != "" && root in w.states && !Refused(b, root) && (bundle.AtStore? || bundle.AtArtifact?)
    requires var rel := w.states[root].rel;
             var key, stored := KeyOf(root, rel), StoreKey(b, root, rel);
             && Key(root, rel) !in w.local && stored in w.store && w.store[stored][SIGNATURE := signature] == w.store[stored]
             && (b.ObjectStore? ==> key in w.artifacts && w.artifacts[key] == w.store[stored])
    ensures var key, stored := KeyOf(root, w.states[root].rel), StoreKey(b, root, w.states[root].rel);
            var w' := SignActive(b, w, root, bundle, signature);
            && w' == w.(active := w'.active)
            && ((key in w.active ==> w.active[key][SIGNATURE := signature] == w.store[stored]) ==>
                  (key in w'.active ==> w'.active[key] == w.store[stored]))
  {
    var rel := w.states[root].rel;
    var key, stored := KeyOf(root, rel), StoreKey(b, root, rel);
    RelSettled(b, w, root, rel);
    ActiveFrom(b, w, root, if b.Cached? then AtStore(stored) else AtArtifact(key));
    if key in w.active ==> w.active[key][SIGNATURE := signature] == w.store[stored] {
      EnsuredSigned(w.active, key, w.store[stored], signature);
    }
    SignActiveFrom(b, w, root, bundle, signature);
  }

  /** After the first two stages the bundle and its artifact are signed alike, or there are no copies. */
  lemma HalfWay(b: Backend, w: World, root: string, signature: string)
    requires !b.Local? && root in w.states && !Refused(b, root) && Key(root, w.states[root].rel) !in w.local
    requires var rel := w.states[root].rel;
             StoreKey(b, root, rel) in w.store && Coherent(InFull, b, w, KeyOf(root, rel))
    ensures var (w2, bundle) := ResolveRel(b, SignStored(b, w, root, signature), root, w.states[root].rel);
            && (bundle.None? ==> b.ObjectStore? && w2.artifacts == w.artifacts && w2.active == w.active && w2.local == w.local)
            && (bundle.None? ==> KeyOf(root, w.states[root].rel) !in w.artifacts)
            && (bundle.None? ==> StoreSignedAt(b, w, w2, root, signature))
            && (bundle.Some? ==> (bundle.value.AtStore? || bundle.value.AtArtifact?) && Exists(w2, bundle.value))
            && (bundle.Some? ==> HalfSigned(b, w, WriteAt(w2, bundle.value, signature), root, signature))
  {
    var rel := w.states[root].rel;
    if b.Cached? {
      RelSettled(b, w, root, rel);
    } else {
      ArtifactSigned(w, root, rel, signature);
    }
  }

  ghost predicate StoreSignedAt(b: Backend, w: World, w': World, root: string, signature: string)
    requires root in w.states && StoreKey(b, root, w.states[root].rel) in w.store
  {
    var stored := StoreKey(b, root, w.states[root].rel);
    stored in w'.store && w'.store[stored] == w.store[stored][SIGNATURE := signature]
  }

  ghost predicate HalfSigned(b: Backend, w: World, w3: World, root: string, signature: string)
    requires root in w.states && StoreKey(b, root, w.states[root].rel) in w.store
  {
    var rel := w.states[root].rel;
    var key, stored := KeyOf(root, rel), StoreKey(b, root, rel);
    && w3.states == w.states && w3.local == w.local && w3.active == w.active
    && StoreSignedAt(b, w, w3, root, signature)
    && (b.ObjectStore? ==> key in w3.artifacts && w3.artifacts[key] == w3.store[stored])
  }

  /** Signing brings all copies of the bundle of the root along. */
  lemma SignHere(b: Backend, w: World, root: string, signature: string)
    requires !b.Local? && root != "" && root in w.states && !Refused(b, root) && Key(root, w.states[root].rel) !in w.local
    requires var rel := w.states[root].rel;
             StoreKey(b, root, rel) in w.store && Coherent(InFull, b, w, KeyOf(root, rel))
    ensures var w' := Sign(b, w, root, signature).0;
            StoreSignedAt(b, w, w', root, signature) && Coherent(InFull, b, w', KeyOf(root, w.states[root].rel))
  {
    var rel := w.states[root].rel;
    var key, stored := KeyOf(root, rel), StoreKey(b, root, rel);
    var w1 := SignStored(b, w, root, signature);
    var (w2, bundle) := ResolveRel(b, w1, root, rel);
    SignUnfolds(b, w, root, signature);
    HalfWay(b, w, root, signature);
    if bundle.Some? {
      var w3 := WriteAt(w2, bundle.value, signature);
      assert HalfSigned(b, w, w3, root, signature);
      ActiveSigned(b, w3, root, bundle.value, signature);
    }
  }

  /** A root's own directory is signed where it is, and no store or artifact is written. */
  lemma SignOwn(b: Backend, w: World, root: string, signature: string)
    requires !b.Local? && root in w.states && Key(root, w.states[root].rel) in w.local
    ensures var w' := Sign(b, w, root, signature).0; w'.store == w.store && w'.artifacts == w.artifacts
  {
    SignUnfolds(b, w, root, signature);
    if root != "" {
      var place := AtLocal(Key(root, w.states[root].rel));
      var w3 := WriteAt(w, place, signature);
      ActiveElsewhere(b, w3, root);
      ActiveArtifacts(b, w3, root);
      SignActiveFrom(b, w3, root, place, signature);
      Places(b, w3, root);
    }
  }

  lemma Places(b: Backend, w: World, root: string)
    requires !b.Local? && root in w.states
    ensures var active := ResolveActive(b, w, root).1;
            active.Some? ==> active.value == AtActive(KeyOf(root, w.states[root].rel))
  {
  }

  /** What signing for a root leaves alone: other copies and other stored bundles. */
  lemma SignElsewhere(b: Backend, w: World, root: string, signature: string, key: Key)
    requires !b.Local? && (root in w.states ==> key != KeyOf(root, w.states[root].rel))
    ensures SameCopies(w, Sign(b, w, root, signature).0, key)
  {
    SignUnfolds(b, w, root, signature);
    if root != "" && root in w.states {
      var rel := w.states[root].rel;
      var w1 := SignStored(b, w, root, signature);
      assert SameCopies(w, w1, key);
      RelElsewhere(b, w1, root, rel);
      RelPlaces(b, w1, root, rel);
      var (w2, bundle) := ResolveRel(b, w1, root, rel);
      assert SameCopies(w1, w2, key);
      if bundle.Some? && Exists(w2, bundle.value) {
        var w3 := WriteAt(w2, bundle.value, signature);
        WriteElsewhere(w2, bundle.value, signature, key);
        SignActiveElsewhere(b, w3, root, bundle.value, signature, key);
      }
    }
  }

  lemma WriteElsewhere(w: World, p: Place, signature: string, key: Key)
    requires Exists(w, p) && (p.AtLocal? || p.AtStore? || p.key != key)
    ensures SameCopies(w, WriteAt(w, p, signature), key)
  {
  }

  lemma SignStoreElsewhere(b: Backend, w: World, root: string, signature: string, k: Key)
    requires !b.Local? && k in w.store && (root in w.states ==> k != StoreKey(b, root, w.states[root].rel))
    ensures var w' := Sign(b, w, root, signature).0; k in w'.store && w'.store[k] == w.store[k]
  {
    SignUnfolds(b, w, root, signature);
    if root != "" && root in w.states {
      var rel := w.states[root].rel;
      var w1 := SignStored(b, w, root, signature);
      RelElsewhere(b, w1, root, rel);
      RelPlaces(b, w1, root, rel);
      var (w2, bundle) := ResolveRel(b, w1, root, rel);
      if bundle.Some? && Exists(w2, bundle.value) {
        WriteStoreElsewhere(w2, bundle.value, signature, k);
        SignActiveStore(b, WriteAt(w2, bundle.value, signature), root, bundle.value, signature);
      }
    }
  }

  lemma WriteStoreElsewhere(w: World, p: Place, signature: string, k: Key)
    requires Exists(w, p) && p != AtStore(k) && k in w.store
    ensures var w' := WriteAt(w, p, signature); k in w'.store && w'.store[k] == w.store[k]
  {
  }

  lemma RelPlaces(b: Backend, w: World, root: string, rel: string)
    requires !b.Local?
    ensures var bundle := ResolveRel(b, w, root, rel).1;
            bundle == None || bundle == Some(AtLocal(Key(root, rel)))
            || bundle == Some(AtStore(StoreKey(b, root, rel))) || bundle == Some(AtArtifact(KeyOf(root, rel)))
  {
  }

  lemma SignActiveStore(b: Backend, w: World, root: string, bundle: Place, signature: string)
    requires !b.Local? && root in w.states
    ensures SignActive(b, w, root, bundle, signature).store == w.store
  {
    SignActiveFrom(b, w, root, bundle, signature);
    ActiveElsewhere(b, w, root);
    Places(b, w, root);
  }

  lemma SignActiveElsewhere(b: Backend, w: World, root: string, bundle: Place, signature: string, key: Key)
    requires !b.Local? && root in w.states && key != KeyOf(root, w.states[root].rel)
    ensures SameCopies(w, SignActive(b, w, root, bundle, signature), key)
  {
    SignActiveFrom(b, w, root, bundle, signature);
    ActiveElsewhere(b, w, root);
    Places(b, w, root);
    var (w1, active) := ResolveActive(b, w, root);
    assert SameCopies(w, w1, key);
    if active.Some? && Exists(w1, active.value) { WriteElsewhere(w1, active.value, signature, key); }
  }

  /** No other copies share the bundle that the root's state names. */
  ghost predicate Alone(b: Backend, w: World, root: string) {
    root != "" && root in w.states ==>
      forall key :: key in w.artifacts.Keys + w.active.Keys ==> OwnOrApart(b, key, root, w.states[root].rel)
  }

  predicate OwnOrApart(b: Backend, key: Key, root: string, rel: string) {
    StoreOf(b, key) == StoreKey(b, root, rel) ==> key == KeyOf(root, rel)
  }

  lemma SignKeepsInFull(b: Backend, w: World, root: string, signature: string)
    requires Inv(InFull, b, w) && Alone(b, w, root)
    ensures Inv(InFull, b, Sign(b, w, root, signature).0)
  {
    var w' := Sign(b, w, root, signature).0;
    SignOnlySigns(b, w, root, signature);
    OnlySignedKeepsRecorded(b, w, w');
    if !b.Local? {
      forall k ensures Coherent(InFull, b, w', k) {
        assert Coherent(InFull, b, w, k);
        if root != "" && root in w.states && k == KeyOf(root, w.states[root].rel) {
          SignKeepsOwn(b, w, root, signature);
        } else if root != "" && root in w.states {
          SignElsewhere(b, w, root, signature, k);
          if k in w.artifacts.Keys + w.active.Keys {
            assert OwnOrApart(b, k, root, w.states[root].rel);
            if StoreOf(b, k) in w.store { SignStoreElsewhere(b, w, root, signature, StoreOf(b, k)); }
            CoherentStays(InFull, b, w, w', k);
          }
        }
      }
    }
  }

  lemma SignKeepsOwn(b: Backend, w: World, root: string, signature: string)
    requires !b.Local? && Inv(InFull, b, w) && root != "" && root in w.states
    ensures Coherent(InFull, b, Sign(b, w, root, signature).0, KeyOf(root, w.states[root].rel))
  {
    var key := KeyOf(root, w.states[root].rel);
    assert Recorded(b, w, root, w.states[root]) && Coherent(InFull, b, w, key);
    if Key(root, w.states[root].rel) in w.local {
      SignOwn(b, w, root, signature);
      SignOnlySigns(b, w, root, signature);
      SameKeys(w, Sign(b, w, root, signature).0, key);
      assert !NotLocal(w, key);
    } else {
      SignHere(b, w, root, signature);
    }
  }

  // ----- Runs -----

  function RootOf(e: Event): string { TrimSpace(e.root) }

  /** Two plugin roots whose ids differ in the whitespace around them alone: in the object store their
      bundles are the same, in the caches they are not. */
  predicate Clash(b: Backend, one: string, two: string) {
    && b.ObjectStore? && one != "" && two != "" && Base(one) != Base(two)
    && TrimSpace(Base(one)) == TrimSpace(Base(two)) != ""
  }

  ghost predicate NoClash(b: Backend, roots: iset<string>) {
    forall one, two :: one in roots && two in roots ==> !Clash(b, TrimSpace(one), TrimSpace(two))
  }

  ghost predicate Uses(events: seq<Event>, roots: iset<string>) {
    forall i :: 0 <= i < |events| ==> events[i].root in roots
  }

  /** The caches hold copies for these roots only. */
  ghost predicate CachedFor(w: World, roots: iset<string>) {
    forall key :: key in w.artifacts.Keys + w.active.Keys ==> OfRoots(roots, key.plugin)
  }

  ghost predicate OfRoots(roots: iset<string>, plugin: string) {
    exists root :: root in roots && TrimSpace(root) != "" && Base(TrimSpace(root)) == plugin
  }

  lemma AfterElsewhere(b: Backend, n: Naming, w: World, e: Event, key: Key)
    requires !b.Local? && (RootOf(e) != "" ==> key.plugin != Base(RootOf(e)))
    ensures SameCopies(w, After(b, n, w, e), key)
  {
    if RootOf(e) != "" {
      match e {
        case Install(src, root, revision) => MaterializeElsewhere(b, n, w, src, TrimSpace(root), revision, key);
        case WriteSignature(root, signature) => SignElsewhere(b, w, TrimSpace(root), signature, key);
        case Resolve(root) => ActiveElsewhere(b, w, TrimSpace(root));
      }
    }
  }

  lemma AfterCachedFor(b: Backend, n: Naming, w: World, e: Event, roots: iset<string>)
    requires !b.Local? && CachedFor(w, roots) && e.root in roots
    ensures CachedFor(After(b, n, w, e), roots)
  {
    var w' := After(b, n, w, e);
    forall key | key in w'.artifacts.Keys + w'.active.Keys ensures OfRoots(roots, key.plugin) {
      if RootOf(e) == "" || key.plugin != Base(RootOf(e)) {
        AfterElsewhere(b, n, w, e, key);
        assert key in w.artifacts.Keys + w.active.Keys;
      }
    }
  }

  lemma AloneAmong(b: Backend, w: World, root: string, roots: iset<string>)
    requires AllRecorded(b, w) && CachedFor(w, roots) && NoClash(b, roots) && root in roots
    ensures Alone(b, w, TrimSpace(root))
  {
    var p := TrimSpace(root);
    if p != "" && p in w.states {
      assert Recorded(b, w, p, w.states[p]);
      forall key | key in w.artifacts.Keys + w.active.Keys ensures OwnOrApart(b, key, p, w.states[p].rel) {
        assert OfRoots(roots, key.plugin);
        var other :| other in roots && TrimSpace(other) != "" && Base(TrimSpace(other)) == key.plugin;
        assert !Clash(b, p, TrimSpace(other));
      }
    }
  }

  /** What a run needs for its copies to agree in full; up to signatures it needs nothing. */
  ghost predicate Fit(how: Agreement, b: Backend, w: World, events: seq<Event>, roots: iset<string>) {
    how.InFull? ==> !b.Local? && NoClash(b, roots) && Uses(events, roots) && CachedFor(w, roots)
  }

  lemma AfterKeeps(how: Agreement, b: Backend, n: Naming, w: World, e: Event, roots: iset<string>)
    requires Inv(how, b, w) && Fit(how, b, w, [e], roots)
    ensures Inv(how, b, After(b, n, w, e))
  {
    assert e == [e][0];
    match e {
      case Install(src, root, revision) => MaterializeKeeps(how, b, n, w, src, TrimSpace(root), revision);
      case WriteSignature(root, signature) =>
        if how.InFull? {
          AloneAmong(b, w, root, roots);
          SignKeepsInFull(b, w, TrimSpace(root), signature);
        } else {
          SignKeepsFiles(b, w, TrimSpace(root), signature);
        }
      case Resolve(root) => ActiveKeeps(how, b, w, TrimSpace(root));
    }
  }

  lemma {:induction false} RunKeeps(how: Agreement, b: Backend, n: Naming, w: World, events: seq<Event>, roots: iset<string>)
    requires Inv(how, b, w) && Fit(how, b, w, events, roots)
    ensures Inv(how, b, Run(b, n, w, events))
    decreases |events|
  {
    if events != [] {
      assert how.InFull? ==> events[0].root in roots && Uses(events[1..], roots);
      AfterKeeps(how, b, n, w, events[0], roots);
      if how.InFull? { AfterCachedFor(b, n, w, events[0], roots); }
      RunKeeps(how, b, n, After(b, n, w, events[0]), events[1..], roots);
    }
  }

  /** Nothing installed yet; plugin roots may hold directories of their own. */
  function Start(local: Dirs): World { World(map[], local, map[], map[], map[]) }

  lemma Reachable(b: Backend, n: Naming, local: Dirs, events: seq<Event>)
    ensures Inv(UpToSignature, b, Run(b, n, Start(local), events))
  {
    RunKeeps(UpToSignature, b, n, Start(local), events, iset{});
  }

  // ----- Installs that succeed -----

  /** Installing under a name that holds nothing, or these files, with copies to match. */
  lemma InstallWith(b: Backend, n: Naming, w: World, src: Source, root: string, revision: string, files: Dir)
    requires !b.Local? && root != "" && !src.links && Copyable(src.files) && Copyable(files) && !Refused(b, root)
    requires HashOf(files) == HashOf(src.files)
    requires var rel := "bundles/" + BundleName(n, revision, HashOf(src.files));
             var key, stored := KeyOf(root, rel), StoreKey(b, root, rel);
             && Key(root, rel) !in w.local && files == (if stored in w.store then w.store[stored] else src.files)
             && (key in w.artifacts ==> w.artifacts[key] == files) && (key in w.active ==> w.active[key] == files)
    ensures var rel := "bundles/" + BundleName(n, revision, HashOf(src.files));
            var key, stored := KeyOf(root, rel), StoreKey(b, root, rel);
            Materialize(b, n, w, src, root, revision) ==
            (World(w.states[root := State(rel, TrimSpace(revision), HashOf(src.files))], w.local, w.store[stored := files],
                   if b.Cached? then w.artifacts else w.artifacts[key := files], w.active[key := files]),
             Some(Materialized(rel, HashOf(src.files), AtActive(key))))
  {
    var rel := "bundles/" + BundleName(n, revision, HashOf(src.files));
    var key, stored := KeyOf(root, rel), StoreKey(b, root, rel);
    var w1 := Stored(b, w, root, rel, src.files);
    assert w1 == w.(store := w.store[stored := files]);
    RelMade(b, w1, root, rel);
    var (w2, there) := ResolveRel(b, w1, root, rel);
    var w3 := w2.(states := w2.states[root := State(rel, TrimSpace(revision), HashOf(src.files))]);
    ActiveMade(b, w3, root, rel);
    MaterializeGoes(b, n, w, src, root, revision);
  }

  lemma MaterializeGoes(b: Backend, n: Naming, w: World, src: Source, root: string, revision: string)
    requires !b.Local? && root != "" && !src.links && Copyable(src.files) && !Refused(b, root)
    requires var rel := "bundles/" + BundleName(n, revision, HashOf(src.files));
             && Installed(w.store, StoreKey(b, root, rel), src.files).Some?
             && ResolveRel(b, Stored(b, w, root, rel, src.files), root, rel).1.Some?
    ensures var hash := HashOf(src.files);
            var rel := "bundles/" + BundleName(n, revision, hash);
            var w2 := ResolveRel(b, Stored(b, w, root, rel, src.files), root, rel).0;
            var (w4, active) := ResolveActive(b, w2.(states := w2.states[root := State(rel, TrimSpace(revision), hash)]), root);
            Materialize(b, n, w, src, root, revision) ==
            (w4, if active.Some? then Some(Materialized(rel, hash, active.value)) else None)
  {
  }

  lemma ActiveMade(b: Backend, w: World, root: string, rel: string)
    requires !b.Local? && root != "" && root in w.states && w.states[root].rel == rel && !Refused(b, root) && Key(root, rel) !in w.local
    requires var key, stored := KeyOf(root, rel), StoreKey(b, root, rel);
             && stored in w.store && Copyable(w.store[stored])
             && (b.ObjectStore? ==> key in w.artifacts && w.artifacts[key] == w.store[stored])
             && (key in w.active ==> w.active[key] == w.store[stored])
    ensures var key, stored := KeyOf(root, rel), StoreKey(b, root, rel);
            ResolveActive(b, w, root) == (w.(active := w.active[key := w.store[stored]]), Some(AtActive(key)))
  {
    var key, files := KeyOf(root, rel), w.store[StoreKey(b, root, rel)];
    RelSettled(b, w, root, rel);
    ActiveFrom(b, w, root, if b.Cached? then AtStore(StoreKey(b, root, rel)) else AtArtifact(key));
    EnsuredAgrees(InFull, w.active, key, files);
    assert key in w.active ==> w.active[key := files] == w.active;
  }

  lemma RelMade(b: Backend, w: World, root: string, rel: string)
    requires !b.Local? && !Refused(b, root) && Key(root, rel) !in w.local
    requires var key, stored := KeyOf(root, rel), StoreKey(b, root, rel);
             stored in w.store && Copyable(w.store[stored]) && (key in w.artifacts ==> w.artifacts[key] == w.store[stored])
    ensures var key, stored := KeyOf(root, rel), StoreKey(b, root, rel);
            ResolveRel(b, w, root, rel) ==
            if b.Cached? then (w, Some(AtStore(stored)))
            else (w.(artifacts := w.artifacts[key := w.store[stored]]), Some(AtArtifact(key)))
  {
    var key, files := KeyOf(root, rel), w.store[StoreKey(b, root, rel)];
    EnsuredAgrees(InFull, w.artifacts, key, files);
    assert key in w.artifacts ==> w.artifacts[key := files] == w.artifacts;
  }

  lemma InstallLocal(n: Naming, w: World, src: Source, root: string, revision: string, files: Dir)
    requires root != "" && !src.links && Copyable(src.files) && HashOf(files) == HashOf(src.files)
    requires var key := Key(root, "bundles/" + BundleName(n, revision, HashOf(src.files)));
             files == if key in w.local then w.local[key] else src.files
    ensures var rel := "bundles/" + BundleName(n, revision, HashOf(src.files));
            var key := Key(root, rel);
            Materialize(Local, n, w, src, root, revision) ==
            (w.(states := w.states[root := State(rel, TrimSpace(revision), HashOf(src.files))], local := w.local[key := files]),
             Some(Materialized(rel, HashOf(src.files), AtLocal(key))))
  {
    var rel := "bundles/" + BundleName(n, revision, HashOf(src.files));
    var key := Key(root, rel);
    var w1 := Stored(Local, w, root, rel, src.files);
    assert w1 == w.(local := w.local[key := files]);
    var w3 := w1.(states := w1.states[root := State(rel, TrimSpace(revision), HashOf(src.files))]);
    assert ResolveActive(Local, w3, root) == (w3, Some(AtLocal(key)));
    MaterializeUnfolds(Local, n, w, src, root, revision);
  }
}
