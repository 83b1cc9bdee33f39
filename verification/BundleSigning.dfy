/** What signing writes and what it leaves alone, and when it fails, for the three repositories. */
module BundleSigning {
  import opened Wrappers
  import opened GoText
  import opened BundleHash
  import opened BundleStores
  import opened BundleCoherence

  /** The files as before, with this text as their signature. */
  ghost predicate SignedFrom(before: Dir, after: Dir, signature: string) {
    && after.Keys == before.Keys + {SIGNATURE} && after[SIGNATURE] == signature
    && forall p :: p in before && p != SIGNATURE ==> after[p] == before[p]
  }

  /** Nothing but the directory under this key differs. */
  ghost predicate OnlyAt(dirs: Dirs, dirs': Dirs, key: Key) {
    forall k :: k != key ==> (k in dirs <==> k in dirs') && (k in dirs ==> dirs'[k] == dirs[k])
  }

  ghost predicate HasSignature(files: Dir, signature: string) { SIGNATURE in files && files[SIGNATURE] == signature }

  /** A copy of these files can be had: one that hashes alike is there, or they can be copied. */
  ghost predicate Obtainable(cache: Dirs, key: Key, from: Dir) {
    (key in cache && HashOf(cache[key]) == HashOf(from)) || Copyable(from)
  }

  /** What the object store holds for a bundle before it is signed: its files, or none. */
  ghost function StoredFiles(store: Dirs, key: Key): Dir { if key in store then store[key] else map[] }

  /** Signing succeeds: the root has a state, and there is a bundle to sign. */
  ghost predicate Signable(b: Backend, w: World, root: string, signature: string) {
    root != "" && root in w.states &&
    var rel := w.states[root].rel;
    var stored := StoreKey(b, root, rel);
    if Key(root, rel) in w.local then true
    else match b
      case Local => false
      case Cached => stored in w.store
      case ObjectStore => !Refused(b, root) && Obtainable(w.artifacts, KeyOf(root, rel), StoredFiles(w.store, stored)[SIGNATURE := signature])
  }

  // ----- The local repository -----

  /** The local repository: it succeeds exactly when the state's directory is there, and writes just its signature. */
  lemma LocalSigns(w: World, root: string, signature: string)
    ensures var (w', ok) := Sign(Local, w, root, signature);
            && (ok <==> Signable(Local, w, root, signature))
            && (!ok ==> w' == w)
            && (ok ==> var key := Key(root, w.states[root].rel);
                       && w' == w.(local := w'.local) && OnlyAt(w.local, w'.local, key)
                       && key in w'.local && SignedFrom(w.local[key], w'.local[key], signature)
                       && ResolveBundle(Local, w', root).1 == Some(AtLocal(key)) == ResolveActive(Local, w', root).1)
  {
  }

  // ----- The active copy -----

  /** What the bundle of a root resolves to. */
  ghost function BundleFiles(b: Backend, w: World, root: string): Dir
    requires !b.Local? && root in w.states && ResolveRel(b, w, root, w.states[root].rel).1.Some?
  {
    var (w1, bundle) := ResolveRel(b, w, root, w.states[root].rel);
    FilesAt(w1, bundle.value)
  }

  /** The active copy has the signature and hashes as the bundle; if there is none, the bundle cannot be copied. */
  ghost predicate Follows(active: Dirs, key: Key, bundle: Dir, signature: string) {
    if key in active then HasSignature(active[key], signature) && HashOf(active[key]) == HashOf(bundle) else !Copyable(bundle)
  }

  /** The last stage writes the signature of the active copy, and no other. */
  lemma ActiveGetsSignature(b: Backend, w: World, root: string, bundle: Place, signature: string)
    requires !b.Local? && root != "" && root in w.states && !bundle.AtActive?
    ensures var key := KeyOf(root, w.states[root].rel);
            var w' := SignActive(b, w, root, bundle, signature);
            && w'.local == w.local && w'.store == w.store && w'.states == w.states
            && w'.artifacts == ResolveRel(b, w, root, w.states[root].rel).0.artifacts
            && OnlyAt(w.active, w'.active, key)
            && (ResolveRel(b, w, root, w.states[root].rel).1.Some? ==> Follows(w'.active, key, BundleFiles(b, w, root), signature))
  {
    var rel := w.states[root].rel;
    var key := KeyOf(root, rel);
    SignActiveFrom(b, w, root, bundle, signature);
    Places(b, w, root);
    ActiveElsewhere(b, w, root);
    ActiveArtifacts(b, w, root);
    ActiveOutcome(b, w, root);
    var (w1, active) := ResolveActive(b, w, root);
    if active.Some? { HashIgnoresSignature(w1.active[key], signature); }
  }

  /** The active copy is there exactly when it can be had, and then hashes as the bundle. */
  lemma ActiveOutcome(b: Backend, w: World, root: string)
    requires !b.Local? && root != "" && root in w.states
    ensures var rel := w.states[root].rel;
            var key := KeyOf(root, rel);
            var (w1, bundle) := ResolveRel(b, w, root, rel);
            var (w2, active) := ResolveActive(b, w, root);
            && OnlyAt(w.active, w2.active, key)
            && (bundle.Some? ==> (active.Some? <==> Obtainable(w.active, key, FilesAt(w1, bundle.value))))
            && (bundle.Some? && active.None? ==> key !in w2.active)
            && (bundle.None? ==> active.None? && w2.active == w.active)
            && (active.Some? ==> active.value == AtActive(key) && key in w2.active)
            && (active.Some? ==> HashOf(w2.active[key]) == HashOf(FilesAt(w1, bundle.value)))
  {
    RelElsewhere(b, w, root, w.states[root].rel);
    var (w1, bundle) := ResolveRel(b, w, root, w.states[root].rel);
    if bundle.Some? { EnsuredOutcome(w.active, KeyOf(root, w.states[root].rel), FilesAt(w1, bundle.value)); }
  }

  lemma EnsuredOutcome(cache: Dirs, key: Key, from: Dir)
    ensures var (cache', ok) := Ensured(cache, key, from);
            && OnlyAt(cache, cache', key) && (ok <==> Obtainable(cache, key, from)) && (ok <==> key in cache')
            && (ok ==> HashOf(cache'[key]) == HashOf(from))
  {
  }

  /** Where the active copy follows the bundle, reading it changes nothing and shows the signature. */
  lemma ReadsSigned(b: Backend, w: World, root: string, source: Place, signature: string)
    requires !b.Local? && root != "" && root in w.states && Exists(w, source)
    requires ResolveRel(b, w, root, w.states[root].rel) == (w, Some(source))
    requires Follows(w.active, KeyOf(root, w.states[root].rel), FilesAt(w, source), signature)
    ensures var (w', active) := ResolveActive(b, w, root);
            active.Some? ==> Exists(w', active.value) && HasSignature(FilesAt(w', active.value), signature)
  {
    ActiveFrom(b, w, root, source);
  }

  // ----- A directory of the root's own -----

  /** The effect of signing on the caches and the directories beside the one signed. */
  ghost predicate OnlyActiveAt(w: World, w': World, key: Key) {
    w'.states == w.states && OnlyAt(w.active, w'.active, key)
  }

  /** A directory of the root's own takes precedence: its signature is written, and that of the active copy. */
  lemma OwnDirSigned(b: Backend, w: World, root: string, signature: string)
    requires !b.Local? && root != "" && root in w.states && Key(root, w.states[root].rel) in w.local
    ensures var own, key := Key(root, w.states[root].rel), KeyOf(root, w.states[root].rel);
            var (w', ok) := Sign(b, w, root, signature);
            && ok && w'.store == w.store && w'.artifacts == w.artifacts && OnlyActiveAt(w, w', key)
            && OnlyAt(w.local, w'.local, own) && own in w'.local && SignedFrom(w.local[own], w'.local[own], signature)
            && ResolveRel(b, w', root, w.states[root].rel) == (w', Some(AtLocal(own)))
            && Follows(w'.active, key, w'.local[own], signature)
  {
    var own := Key(root, w.states[root].rel);
    var w3 := WriteAt(w, AtLocal(own), signature);
    assert ResolveRel(b, w, root, w.states[root].rel) == (w, Some(AtLocal(own)));
    assert ResolveRel(b, w3, root, w.states[root].rel) == (w3, Some(AtLocal(own)));
    SignUnfolds(b, w, root, signature);
    ActiveGetsSignature(b, w3, root, AtLocal(own), signature);
  }

  // ----- The stores -----

  lemma CachedSigned(w: World, root: string, signature: string)
    requires root != "" && root in w.states && Key(root, w.states[root].rel) !in w.local
    ensures var rel := w.states[root].rel;
            var key := KeyOf(root, rel);
            var (w', ok) := Sign(Cached, w, root, signature);
            && (ok <==> key in w.store)
            && (!ok ==> w' == w)
            && (ok ==> && w'.local == w.local && w'.artifacts == w.artifacts && OnlyActiveAt(w, w', key)
                       && OnlyAt(w.store, w'.store, key) && key in w'.store && SignedFrom(w.store[key], w'.store[key], signature)
                       && ResolveRel(Cached, w', root, rel) == (w', Some(AtStore(key)))
                       && Follows(w'.active, key, w'.store[key], signature))
  {
    var rel := w.states[root].rel;
    var key := KeyOf(root, rel);
    SignUnfolds(Cached, w, root, signature);
    if key in w.store {
      var files := w.store[key][SIGNATURE := signature];
      var w3 := w.(store := w.store[key := files]);
      RelSettled(Cached, w, root, rel);
      assert Sign(Cached, w, root, signature) == (SignActive(Cached, w3, root, AtStore(key), signature), true);
      RelSettled(Cached, w3, root, rel);
      ActiveGetsSignature(Cached, w3, root, AtStore(key), signature);
      var w' := SignActive(Cached, w3, root, AtStore(key), signature);
      RelSettled(Cached, w', root, rel);
    }
  }

  /** The signature is in the object store, and nothing else differs but copies of the bundle. */
  ghost predicate StoreWritten(w: World, w': World, root: string, rel: string, signature: string) {
    var key, stored := KeyOf(root, rel), StoreKey(ObjectStore, root, rel);
    && w'.local == w.local && OnlyActiveAt(w, w', key) && OnlyAt(w.artifacts, w'.artifacts, key)
    && OnlyAt(w.store, w'.store, stored) && stored in w'.store && SignedFrom(StoredFiles(w.store, stored), w'.store[stored], signature)
  }

  /** So is the artifact signed: the one that was there, if it hashed as the bundle, or a new copy. */
  ghost predicate ArtifactWritten(w: World, w': World, root: string, rel: string, signature: string) {
    var key, files := KeyOf(root, rel), StoredFiles(w.store, StoreKey(ObjectStore, root, rel));
    && key in w'.artifacts && HasSignature(w'.artifacts[key], signature)
    && SameFiles(w'.artifacts[key], if key in w.artifacts && HashOf(w.artifacts[key]) == HashOf(files) then w.artifacts[key] else files)
    && ResolveRel(ObjectStore, w', root, rel) == (w', Some(AtArtifact(key)))
    && Follows(w'.active, key, w'.artifacts[key], signature)
  }

  /** The object store itself is written first, and gets a directory where it had none. */
  lemma ObjectSigned(w: World, root: string, signature: string)
    requires root != "" && root in w.states && Key(root, w.states[root].rel) !in w.local
    ensures var rel := w.states[root].rel;
            var (w', ok) := Sign(ObjectStore, w, root, signature);
            && (ok <==> Signable(ObjectStore, w, root, signature))
            && (if Refused(ObjectStore, root) then w' == w else StoreWritten(w, w', root, rel, signature))
            && (ok ==> ArtifactWritten(w, w', root, rel, signature))
  {
    var rel := w.states[root].rel;
    if !Refused(ObjectStore, root) {
      StoreSide(w, root, signature);
      SignUnfolds(ObjectStore, w, root, signature);
      if ResolveRel(ObjectStore, SignStored(ObjectStore, w, root, signature), root, rel).1.Some? { ArtifactSide(w, root, signature); }
    }
  }

  lemma ArtifactSide(w: World, root: string, signature: string)
    requires root != "" && root in w.states && Key(root, w.states[root].rel) !in w.local && !Refused(ObjectStore, root)
    requires ResolveRel(ObjectStore, SignStored(ObjectStore, w, root, signature), root, w.states[root].rel).1.Some?
    ensures var rel := w.states[root].rel;
            var (w', ok) := Sign(ObjectStore, w, root, signature);
            ok && StoreWritten(w, w', root, rel, signature) && ArtifactWritten(w, w', root, rel, signature)
  {
    var rel := w.states[root].rel;
    var key, stored := KeyOf(root, rel), StoreKey(ObjectStore, root, rel);
    StoreSide(w, root, signature);
    var w2 := ResolveRel(ObjectStore, SignStored(ObjectStore, w, root, signature), root, rel).0;
    var w3 := WriteAt(w2, AtArtifact(key), signature);
    assert w3 == w2.(artifacts := w2.artifacts[key := w2.artifacts[key][SIGNATURE := signature]]);
    HashIgnoresSignature(w2.artifacts[key], signature);
    SignedIsSame(w2.artifacts[key], signature);
    SignUnfolds(ObjectStore, w, root, signature);
    ArtifactSettled(w3, root, rel);
    ActiveGetsSignature(ObjectStore, w3, root, AtArtifact(key), signature);
    var w' := SignActive(ObjectStore, w3, root, AtArtifact(key), signature);
    ArtifactSettled(w', root, rel);
  }

  lemma ArtifactSettled(w: World, root: string, rel: string)
    requires !Refused(ObjectStore, root) && Key(root, rel) !in w.local && StoreKey(ObjectStore, root, rel) in w.store
    requires KeyOf(root, rel) in w.artifacts && HashOf(w.artifacts[KeyOf(root, rel)]) == HashOf(w.store[StoreKey(ObjectStore, root, rel)])
    ensures ResolveRel(ObjectStore, w, root, rel) == (w, Some(AtArtifact(KeyOf(root, rel))))
  {
  }

  lemma StoreSide(w: World, root: string, signature: string)
    requires root != "" && root in w.states && Key(root, w.states[root].rel) !in w.local && !Refused(ObjectStore, root)
    ensures var rel := w.states[root].rel;
            var key, stored := KeyOf(root, rel), StoreKey(ObjectStore, root, rel);
            var files := StoredFiles(w.store, stored);
            var w1 := SignStored(ObjectStore, w, root, signature);
            var (w2, bundle) := ResolveRel(ObjectStore, w1, root, rel);
            && w2 == w1.(artifacts := w2.artifacts) && w1 == w.(store := w1.store)
            && OnlyAt(w.store, w1.store, stored) && stored in w1.store && SignedFrom(files, w1.store[stored], signature)
            && HashOf(w1.store[stored]) == HashOf(files) && SameFiles(w1.store[stored], files)
            && (bundle.Some? <==> Obtainable(w.artifacts, key, w1.store[stored])) && w1.store[stored] == files[SIGNATURE := signature]
            && OnlyAt(w.artifacts, w2.artifacts, key)
            && (bundle.Some? ==> && bundle.value == AtArtifact(key) && key in w2.artifacts
                                 && w2.artifacts[key] == if key in w.artifacts && HashOf(w.artifacts[key]) == HashOf(files) then w.artifacts[key]
                                                         else w1.store[stored])
  {
    var rel := w.states[root].rel;
    var stored := StoreKey(ObjectStore, root, rel);
    var files := StoredFiles(w.store, stored);
    HashIgnoresSignature(files, signature);
    SignedIsSame(files, signature);
  }

  // ----- The main result -----

  /** For all three repositories: signing succeeds exactly when the root has a state and a bundle to sign, and
      then what the bundle resolves to, and what is active, has the signature. */
  lemma SigningIsRead(b: Backend, w: World, root: string, signature: string)
    ensures var (w', ok) := Sign(b, w, root, signature);
            && (ok <==> Signable(b, w, root, signature))
            && (ok ==> var (w1, bundle) := ResolveBundle(b, w', root);
                       && w1 == w' && bundle.Some? && Exists(w', bundle.value) && HasSignature(FilesAt(w', bundle.value), signature))
            && (ok ==> var (w2, active) := ResolveActive(b, w', root);
                       active.Some? ==> Exists(w2, active.value) && HasSignature(FilesAt(w2, active.value), signature))
  {
    var w' := Sign(b, w, root, signature).0;
    if b.Local? {
      LocalSigns(w, root, signature);
    } else if root != "" && root in w.states {
      var rel := w.states[root].rel;
      if Key(root, rel) in w.local {
        OwnDirSigned(b, w, root, signature);
        ReadsSigned(b, w', root, AtLocal(Key(root, rel)), signature);
      } else if b.Cached? {
        CachedSigned(w, root, signature);
        if Signable(b, w, root, signature) { ReadsSigned(b, w', root, AtStore(KeyOf(root, rel)), signature); }
      } else {
        ObjectSigned(w, root, signature);
        if Signable(b, w, root, signature) { ReadsSigned(b, w', root, AtArtifact(KeyOf(root, rel)), signature); }
      }
    }
  }
}
