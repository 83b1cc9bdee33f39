/** The repositories as the source keeps them: directories added, replaced and overwritten in place.
    Each method leaves the file system as the operation of the same name in `BundleStores` says. */
module BundleRepositories {
  import opened Wrappers
  import opened GoText
  import opened BundleHash
  import opened BundleStores

  class FileSystem {
    var states: map<string, State>
    var local: Dirs
    var store: Dirs
    var artifacts: Dirs
    var active: Dirs

    ghost function Value(): World
      reads this
    {
      World(states, local, store, artifacts, active)
    }

    constructor (local: Dirs)
      ensures Value() == World(map[], local, map[], map[], map[])
    {
      states, store, artifacts, active := map[], map[], map[], map[];
      this.local := local;
    }

    method WriteFile(p: Place, signature: string) returns (ok: bool)
      modifies this
      ensures ok == Exists(old(Value()), p)
      ensures Value() == if ok then WriteAt(old(Value()), p, signature) else old(Value())
    {
      match p {
        case AtLocal(key) =>
          if key !in local { return false; }
          local := local[key := local[key][SIGNATURE := signature]];
        case AtStore(key) =>
          if key !in store { return false; }
          store := store[key := store[key][SIGNATURE := signature]];
        case AtArtifact(key) =>
          if key !in artifacts { return false; }
          artifacts := artifacts[key := artifacts[key][SIGNATURE := signature]];
        case AtActive(key) =>
          if key !in active { return false; }
          active := active[key := active[key][SIGNATURE := signature]];
      }
      return true;
    }

    method ReadDir(p: Place) returns (files: Option<Dir>)
      ensures files == if Exists(Value(), p) then Some(FilesAt(Value(), p)) else None
    {
      var dirs := match p case AtLocal(_) => local case AtStore(_) => store case AtArtifact(_) => artifacts case AtActive(_) => active;
      return if p.key in dirs then Some(dirs[p.key]) else None;
    }
  }

  /** `ensureCachedBundle`, on the cache that holds the active directory. */
  method EnsureCachedBundle(cache: Dirs, key: Key, source: Dir) returns (cache': Dirs, ok: bool)
    ensures (cache', ok) == Ensured(cache, key, source)
  {
    cache' := cache;
    if key in cache {
      var sourceHash := HashDir(source);
      var activeHash := HashDir(cache[key]);
      if activeHash == sourceHash { return cache, true; }
      cache' := cache' - {key};
    }
    var copied, fits := CopyDirSafe(source);
    if !fits {
      assert cache' == cache - {key};
      return cache', false;
    }
    cache' := cache'[key := copied];
    assert cache' == cache[key := source];
    return cache', true;
  }

  /** Puts a bundle into a store: an equal one stays, a different one is refused. */
  method PutBundle(dirs: Dirs, key: Key, files: Dir, hash: Hash) returns (put: Option<Dirs>)
    requires hash == HashOf(files)
    ensures put == Installed(dirs, key, files)
  {
    if key in dirs {
      var there := HashDir(dirs[key]);
      if there != hash { return None; }
      return Some(dirs);
    }
    return Some(dirs[key := files]);
  }

  class LocalRepository {
    const fs: FileSystem
    const naming: Naming

    constructor (fs: FileSystem, naming: Naming)
      ensures this.fs == fs && this.naming == naming
    {
      this.fs, this.naming := fs, naming;
    }

    method ResolveBundleDir(root: string) returns (place: Option<Place>)
      ensures place == ResolveBundle(Local, fs.Value(), TrimSpace(root)).1
    {
      var r := TrimSpace(root);
      if r == "" || r !in fs.states { return None; }
      return Some(AtLocal(Key(r, fs.states[r].rel)));
    }

    method MaterializeBundle(src: Source, root: string, revision: string) returns (m: Option<Materialized>)
      modifies fs
      ensures (fs.Value(), m) == Materialize(Local, naming, old(fs.Value()), src, TrimSpace(root), revision)
    {
      var r := TrimSpace(root);
      if r == "" || src.links { return None; }
      var copied, fits := CopyDirSafe(src.files);
      if !fits { return None; }
      var hash := HashDir(copied);
      var rel := "bundles/" + BundleName(naming, revision, hash);
      var put := PutBundle(fs.local, Key(r, rel), copied, hash);
      if put.None? { return None; }
      fs.local := put.value;
      fs.states := fs.states[r := State(rel, TrimSpace(revision), hash)];
      return Some(Materialized(rel, hash, AtLocal(Key(r, rel))));
    }

    method WriteBundleSignature(root: string, signature: string) returns (ok: bool)
      modifies fs
      ensures (fs.Value(), ok) == Sign(Local, old(fs.Value()), TrimSpace(root), signature)
    {
      var place := ResolveBundleDir(root);
      if place.None? { return false; }
      ok := fs.WriteFile(place.value, signature);
    }

    method BundleModified(root: string, installed: Hash) returns (modified: Option<bool>)
      ensures modified == Modified(Local, fs.Value(), TrimSpace(root), installed).1
    {
      var place := ResolveBundleDir(root);
      if place.None? { return None; }
      var files := fs.ReadDir(place.value);
      if files.None? { return None; }
      var hash := HashDir(files.value);
      return Some(hash != installed);
    }
  }

  class CachedRepository {
    const fs: FileSystem
    const naming: Naming

    constructor (fs: FileSystem, naming: Naming)
      ensures this.fs == fs && this.naming == naming
    {
      this.fs, this.naming := fs, naming;
    }

    method ResolveBundleRelativeDir(root: string, rel: string) returns (place: Option<Place>)
      ensures (fs.Value(), place) == ResolveRel(Cached, fs.Value(), root, rel)
    {
      if Key(root, rel) in fs.local { return Some(AtLocal(Key(root, rel))); }
      var key := KeyOf(root, rel);
      if key !in fs.store { return None; }
      return Some(AtStore(key));
    }

    method ResolveActiveDir(root: string) returns (place: Option<Place>)
      modifies fs`active
      ensures (fs.Value(), place) == ResolveActive(Cached, old(fs.Value()), TrimSpace(root))
    {
      var r := TrimSpace(root);
      if r == "" || r !in fs.states { return None; }
      var rel := fs.states[r].rel;
      var source := ResolveBundleRelativeDir(r, rel);
      if source.None? { return None; }
      var files := fs.ReadDir(source.value);
      var active, ok := EnsureCachedBundle(fs.active, KeyOf(r, rel), files.value);
      fs.active := active;
      return if ok then Some(AtActive(KeyOf(r, rel))) else None;
    }

    method MaterializeBundle(src: Source, root: string, revision: string) returns (m: Option<Materialized>)
      modifies fs
      ensures (fs.Value(), m) == Materialize(Cached, naming, old(fs.Value()), src, TrimSpace(root), revision)
    {
      var r := TrimSpace(root);
      if r == "" || src.links { return None; }
      var copied, fits := CopyDirSafe(src.files);
      if !fits { return None; }
      var hash := HashDir(copied);
      var rel := "bundles/" + BundleName(naming, revision, hash);
      var put := PutBundle(fs.store, KeyOf(r, rel), copied, hash);
      if put.None? { return None; }
      fs.store := put.value;
      var there := ResolveBundleRelativeDir(r, rel);
      if there.None? { return None; }
      fs.states := fs.states[r := State(rel, TrimSpace(revision), hash)];
      TrimTwice(root);
      var active := ResolveActiveDir(r);
      return if active.Some? then Some(Materialized(rel, hash, active.value)) else None;
    }

    method WriteBundleSignature(root: string, signature: string) returns (ok: bool)
      modifies fs
      ensures (fs.Value(), ok) == Sign(Cached, old(fs.Value()), TrimSpace(root), signature)
    {
      var r := TrimSpace(root);
      if r == "" || r !in fs.states { return false; }
      var bundle := ResolveBundleRelativeDir(r, fs.states[r].rel);
      if bundle.None? { return false; }
      ok := fs.WriteFile(bundle.value, signature);
      if !ok { return; }
      TrimTwice(root);
      var active := ResolveActiveDir(r);
      if active.Some? && active.value != bundle.value {
        var _ := fs.WriteFile(active.value, signature);
      }
    }

    method BundleModified(root: string, installed: Hash) returns (modified: Option<bool>)
      ensures modified == Modified(Cached, fs.Value(), TrimSpace(root), installed).1
    {
      var r := TrimSpace(root);
      if r == "" || r !in fs.states { return None; }
      var place := ResolveBundleRelativeDir(r, fs.states[r].rel);
      if place.None? { return None; }
      var files := fs.ReadDir(place.value);
      var hash := HashDir(files.value);
      return Some(hash != installed);
    }
  }

  /** `DirObjectStore`: it trims the plugin id it is given and refuses an empty one. */
  class DirObjectStore {
    const fs: FileSystem

    constructor (fs: FileSystem)
      ensures this.fs == fs
    {
      this.fs := fs;
    }

    method Put(pluginID: string, rel: string, files: Dir, hash: Hash) returns (ok: bool)
      requires hash == HashOf(files)
      modifies fs`store
      ensures ok == (TrimSpace(pluginID) != "" && Installed(old(fs.store), Key(TrimSpace(pluginID), rel), files).Some?)
      ensures fs.store == if ok then Installed(old(fs.store), Key(TrimSpace(pluginID), rel), files).value else old(fs.store)
    {
      var id := TrimSpace(pluginID);
      if id == "" { return false; }
      var put := PutBundle(fs.store, Key(id, rel), files, hash);
      if put.None? { return false; }
      fs.store := put.value;
      return true;
    }

    /** Brings the artifact up to date with the stored bundle. */
    method MaterializeBundle(pluginID: string, rel: string, artifact: Key) returns (ok: bool)
      modifies fs`artifacts
      ensures var stored := Key(TrimSpace(pluginID), rel);
              if TrimSpace(pluginID) == "" || stored !in fs.store then !ok && fs.artifacts == old(fs.artifacts)
              else (fs.artifacts, ok) == Ensured(old(fs.artifacts), artifact, fs.store[stored])
    {
      var id := TrimSpace(pluginID);
      if id == "" || Key(id, rel) !in fs.store { return false; }
      var artifacts;
      artifacts, ok := EnsureCachedBundle(fs.artifacts, artifact, fs.store[Key(id, rel)]);
      fs.artifacts := artifacts;
    }

    method WriteBundleFile(pluginID: string, rel: string, signature: string) returns (ok: bool)
      modifies fs`store
      ensures ok == (TrimSpace(pluginID) != "")
      ensures fs.Value() == if ok then StoreSigned(old(fs.Value()), Key(TrimSpace(pluginID), rel), signature) else old(fs.Value())
    {
      var id := TrimSpace(pluginID);
      if id == "" { return false; }
      var files := if Key(id, rel) in fs.store then fs.store[Key(id, rel)] else map[];
      fs.store := fs.store[Key(id, rel) := files[SIGNATURE := signature]];
      return true;
    }
  }

  class ObjectStoreRepository {
    const fs: FileSystem
    const store: DirObjectStore
    const naming: Naming

    constructor (fs: FileSystem, store: DirObjectStore, naming: Naming)
      ensures this.fs == fs && this.store == store && this.naming == naming
    {
      this.fs, this.store, this.naming := fs, store, naming;
    }

    method ResolveBundleRelativeDir(root: string, rel: string) returns (place: Option<Place>)
      requires store.fs == fs
      modifies fs`artifacts
      ensures (fs.Value(), place) == ResolveRel(ObjectStore, old(fs.Value()), root, rel)
    {
      if Key(root, rel) in fs.local { return Some(AtLocal(Key(root, rel))); }
      var ok := store.MaterializeBundle(Base(root), rel, KeyOf(root, rel));
      return if ok then Some(AtArtifact(KeyOf(root, rel))) else None;
    }

    method ResolveActiveDir(root: string) returns (place: Option<Place>)
      requires store.fs == fs
      modifies fs`artifacts, fs`active
      ensures (fs.Value(), place) == ResolveActive(ObjectStore, old(fs.Value()), TrimSpace(root))
    {
      var r := TrimSpace(root);
      if r == "" || r !in fs.states { return None; }
      var rel := fs.states[r].rel;
      var source := ResolveBundleRelativeDir(r, rel);
      if source.None? { return None; }
      var files := fs.ReadDir(source.value);
      var active, ok := EnsureCachedBundle(fs.active, KeyOf(r, rel), files.value);
      fs.active := active;
      return if ok then Some(AtActive(KeyOf(r, rel))) else None;
    }

    method MaterializeBundle(src: Source, root: string, revision: string) returns (m: Option<Materialized>)
      requires store.fs == fs
      modifies fs
      ensures (fs.Value(), m) == Materialize(ObjectStore, naming, old(fs.Value()), src, TrimSpace(root), revision)
    {
      var r := TrimSpace(root);
      if r == "" || src.links { return None; }
      var copied, fits := CopyDirSafe(src.files);
      if !fits { return None; }
      var hash := HashDir(copied);
      var rel := "bundles/" + BundleName(naming, revision, hash);
      var ok := store.Put(Base(r), rel, copied, hash);
      if !ok { return None; }
      var there := ResolveBundleRelativeDir(r, rel);
      if there.None? { return None; }
      fs.states := fs.states[r := State(rel, TrimSpace(revision), hash)];
      TrimTwice(root);
      var active := ResolveActiveDir(r);
      return if active.Some? then Some(Materialized(rel, hash, active.value)) else None;
    }

    method WriteBundleSignature(root: string, signature: string) returns (ok: bool)
      requires store.fs == fs
      modifies fs
      ensures (fs.Value(), ok) == Sign(ObjectStore, old(fs.Value()), TrimSpace(root), signature)
    {
      var r := TrimSpace(root);
      TrimTwice(root);
      if r == "" || r !in fs.states { return false; }
      var rel := fs.states[r].rel;
      if Key(r, rel) !in fs.local {
        var written := store.WriteBundleFile(Base(r), rel, signature);
        if !written { return false; }
      }
      var bundle := ResolveBundleRelativeDir(r, rel);
      if bundle.None? { return false; }
      ok := fs.WriteFile(bundle.value, signature);
      if !ok { return; }
      var active := ResolveActiveDir(r);
      if active.Some? && active.value != bundle.value {
        var _ := fs.WriteFile(active.value, signature);
      }
    }
  }
}
