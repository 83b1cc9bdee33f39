/** The three bundle repositories over one file system: `LocalRepository`, `CachedRepository` and
    `ObjectStoreRepository`. This module says what each operation does to the file system. */
module BundleStores {
  import opened Wrappers
  import opened GoText
  import opened BundleHash

  datatype Backend = Local | Cached | ObjectStore

  /** A bundle: its plugin root (under the root itself) or plugin id (in stores and caches), and its
      directory relative to that. */
  datatype Key = Key(plugin: string, rel: string)

  datatype State = State(rel: string, revision: string, hash: Hash)

  type Dirs = map<Key, Dir>

  /** `states` are the state files of plugin roots, `local` the directories under them; `store` is the
      bundle store or object store, `artifacts` and `active` are the caches. */
  datatype World = World(states: map<string, State>, local: Dirs, store: Dirs, artifacts: Dirs, active: Dirs)

  datatype Place = AtLocal(key: Key) | AtStore(key: Key) | AtArtifact(key: Key) | AtActive(key: Key)

  /** What is installed from; links are refused. */
  datatype Source = Source(files: Dir, links: bool)

  /** `unicode.IsLetter` or `IsDigit`, and the hexadecimal start of a hash. */
  datatype Naming = Naming(word: char -> bool, short: Hash -> string)

  /** `filepath.Base`. */
  function Base(path: string): string {
    var trimmed := TrimRight(path, c => c == '/');
    if path == "" then "." else if trimmed == "" then "/" else LastSegment(trimmed)
  }

  function LastSegment(path: string): string {
    if path == "" || path[|path| - 1] == '/' then "" else LastSegment(path[..|path| - 1]) + [path[|path| - 1]]
  }

  predicate Punctuation(c: char) { c in "._-" }

  function Dashed(naming: Naming, text: string): string {
    seq(|text|, i requires 0 <= i < |text| => if naming.word(text[i]) || Punctuation(text[i]) then text[i] else '-')
  }

  function BundleName(naming: Naming, revision: string, hash: Hash): string {
    var clean := Trim(Dashed(naming, TrimSpace(revision)), Punctuation);
    if clean != "" then "git-" + clean else "sha256-" + naming.short(hash)
  }

  function KeyOf(root: string, rel: string): Key { Key(Base(root), rel) }

  /** The object store trims the plugin ids it is given, where the caches do not. */
  function StoreKey(b: Backend, root: string, rel: string): Key {
    if b.ObjectStore? then Key(TrimSpace(Base(root)), rel) else KeyOf(root, rel)
  }

  /** The object store refuses an empty plugin id. */
  predicate Refused(b: Backend, root: string) { b.ObjectStore? && TrimSpace(Base(root)) == "" }

  function DirsAt(w: World, p: Place): Dirs {
    match p case AtLocal(_) => w.local case AtStore(_) => w.store case AtArtifact(_) => w.artifacts case AtActive(_) => w.active
  }

  predicate Exists(w: World, p: Place) { p.key in DirsAt(w, p) }

  function FilesAt(w: World, p: Place): Dir
    requires Exists(w, p)
  {
    DirsAt(w, p)[p.key]
  }

  function Written(dirs: Dirs, key: Key, signature: string): Dirs
    requires key in dirs
  {
    dirs[key := dirs[key][SIGNATURE := signature]]
  }

  /** `signature.json` written into a directory. */
  function WriteAt(w: World, p: Place, signature: string): World
    requires Exists(w, p)
  {
    match p
    case AtLocal(key) => w.(local := Written(w.local, key, signature))
    case AtStore(key) => w.(store := Written(w.store, key, signature))
    case AtArtifact(key) => w.(artifacts := Written(w.artifacts, key, signature))
    case AtActive(key) => w.(active := Written(w.active, key, signature))
  }

  /** `ensureCachedBundle`: a copy with the same hash stays; any other is removed and copied anew. */
  ghost function Ensured(cache: Dirs, key: Key, from: Dir): (Dirs, bool) {
    if key in cache && HashOf(from) == HashOf(cache[key]) then (cache, true)
    else if Copyable(from) then (cache[key := from], true)
    else (cache - {key}, false)
  }

  /** `ResolveBundleRelativeDir`; the object-store repository brings the artifact up to date on the way. */
  ghost function ResolveRel(b: Backend, w: World, root: string, rel: string): (r: (World, Option<Place>))
    ensures r.1.Some? && !b.Local? ==> Exists(r.0, r.1.value)
  {
    var stored := StoreKey(b, root, rel);
    if b.Local? || Key(root, rel) in w.local then (w, Some(AtLocal(Key(root, rel))))
    else if Refused(b, root) || stored !in w.store then (w, None)
    else if b.Cached? then (w, Some(AtStore(stored)))
    else
      var (artifacts, ok) := Ensured(w.artifacts, KeyOf(root, rel), w.store[stored]);
      (w.(artifacts := artifacts), if ok then Some(AtArtifact(KeyOf(root, rel))) else None)
  }

  ghost function ResolveBundle(b: Backend, w: World, root: string): (r: (World, Option<Place>))
    ensures r.1.Some? && !b.Local? ==> Exists(r.0, r.1.value)
  {
    if root == "" || root !in w.states then (w, None) else ResolveRel(b, w, root, w.states[root].rel)
  }

  ghost function ResolveActive(b: Backend, w: World, root: string): (r: (World, Option<Place>))
    ensures r.1.Some? && !b.Local? ==> Exists(r.0, r.1.value)
  {
    var (w1, source) := ResolveBundle(b, w, root);
    if source.None? || b.Local? then (w1, source)
    else
      var key := KeyOf(root, w.states[root].rel);
      var (active, ok) := Ensured(w1.active, key, FilesAt(w1, source.value));
      (w1.(active := active), if ok then Some(AtActive(key)) else None)
  }

  /** Keeps an equal bundle, refuses a different one, or adds a new one. */
  ghost function Installed(dirs: Dirs, key: Key, files: Dir): Option<Dirs> {
    if key !in dirs then Some(dirs[key := files])
    else if HashOf(dirs[key]) == HashOf(files) then Some(dirs)
    else None
  }

  datatype Materialized = Materialized(rel: string, hash: Hash, active: Place)

  ghost function Materialize(b: Backend, n: Naming, w: World, src: Source, root: string, revision: string): (World, Option<Materialized>) {
    var hash := HashOf(src.files);
    var rel := "bundles/" + BundleName(n, revision, hash);
    var installed := if b.Local? then Installed(w.local, Key(root, rel), src.files) else Installed(w.store, StoreKey(b, root, rel), src.files);
    if root == "" || src.links || !Copyable(src.files) || Refused(b, root) || installed.None? then (w, None)
    else
      var w1 := if b.Local? then w.(local := installed.value) else w.(store := installed.value);
      var (w2, there) := ResolveRel(b, w1, root, rel);
      if there.None? then (w2, None)
      else
        var w3 := w2.(states := w2.states[root := State(rel, TrimSpace(revision), hash)]);
        var (w4, active) := ResolveActive(b, w3, root);
        (w4, if active.Some? then Some(Materialized(rel, hash, active.value)) else None)
  }

  /** The signature goes to the active copy too, if that is another directory and can be had. */
  ghost function SignActive(b: Backend, w: World, root: string, bundle: Place, signature: string): World {
    var (w1, active) := ResolveActive(b, w, root);
    if active.Some? && active.value != bundle && Exists(w1, active.value) then WriteAt(w1, active.value, signature) else w1
  }

  /** `WriteBundleSignature`. The object store is written before the artifact is resolved, and makes the
      bundle's directory where there is none. */
  ghost function Sign(b: Backend, w: World, root: string, signature: string): (World, bool) {
    if root == "" || root !in w.states then (w, false)
    else
      var rel := w.states[root].rel;
      var inStore := b.ObjectStore? && Key(root, rel) !in w.local;
      if inStore && Refused(b, root) then (w, false)
      else
        var w1 := if inStore then StoreSigned(w, StoreKey(b, root, rel), signature) else w;
        var (w2, bundle) := ResolveBundle(b, w1, root);
        if bundle.None? || !Exists(w2, bundle.value) then (w2, false)
        else
          var w3 := WriteAt(w2, bundle.value, signature);
          (if b.Local? then w3 else SignActive(b, w3, root, bundle.value, signature), true)
  }

  function StoreSigned(w: World, key: Key, signature: string): World {
    w.(store := Written(if key in w.store then w.store else w.store[key := map[]], key, signature))
  }

  /** `BundleModified`; None when there is no bundle to compare. */
  ghost function Modified(b: Backend, w: World, root: string, installed: Hash): (World, Option<bool>) {
    var (w1, bundle) := ResolveBundle(b, w, root);
    if bundle.None? || !Exists(w1, bundle.value) then (w1, None)
    else (w1, Some(HashOf(FilesAt(w1, bundle.value)) != installed))
  }

  // ----- Runs -----

  datatype Event =
    | Install(src: Source, root: string, revision: string)
    | WriteSignature(root: string, signature: string)
    | Resolve(root: string)

  ghost function After(b: Backend, n: Naming, w: World, e: Event): World {
    match e
    case Install(src, root, revision) => Materialize(b, n, w, src, TrimSpace(root), revision).0
    case WriteSignature(root, signature) => Sign(b, w, TrimSpace(root), signature).0
    case Resolve(root) => ResolveActive(b, w, TrimSpace(root)).0
  }

  ghost function Run(b: Backend, n: Naming, w: World, events: seq<Event>): World
    decreases |events|
  {
    if events == [] then w else Run(b, n, After(b, n, w, events[0]), events[1..])
  }
}
