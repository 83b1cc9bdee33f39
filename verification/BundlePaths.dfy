/** The path check of `LocalRepository.ResolveBundleRelativeDir`, on slash-separated paths. */
module BundlePaths {
  import opened Wrappers
  import opened GoText

  /** A cleaned path: absolute or not, and its segments. */
  datatype Path = Path(absolute: bool, segments: seq<string>)

  /** One segment more, as `filepath.Clean` takes it. */
  function Descend(absolute: bool, at: seq<string>, segment: string): seq<string> {
    if segment == "" || segment == "." then at
    else if segment != ".." then at + [segment]
    else if at != [] && at[|at| - 1] != ".." then at[..|at| - 1]
    else if absolute then at
    else at + [".."]
  }

  function Walk(absolute: bool, at: seq<string>, segments: seq<string>): seq<string>
    decreases |segments|
  {
    if segments == [] then at else Walk(absolute, Descend(absolute, at, segments[0]), segments[1..])
  }

  predicate IsAbs(path: string) { path != "" && path[0] == '/' }

  /** `filepath.Clean`. */
  function Clean(path: string): Path { Path(IsAbs(path), Walk(IsAbs(path), [], Split(path, '/'))) }

  /** `filepath.Join` of a path and a relative one. */
  function Join(root: Path, rel: Path): Path { Path(root.absolute, Walk(root.absolute, root.segments, rel.segments)) }

  function CommonPrefix(a: seq<string>, b: seq<string>): (n: nat)
    ensures n <= |a| && n <= |b| && a[..n] == b[..n] && (n < |a| && n < |b| ==> a[n] != b[n])
  {
    if a == [] || b == [] || a[0] != b[0] then 0
    else
      var n := CommonPrefix(a[1..], b[1..]);
      assert a[..n + 1] == [a[0]] + a[1..][..n] && b[..n + 1] == [b[0]] + b[1..][..n];
      n + 1
  }

  /** `filepath.Rel`: up from the base to the common prefix, then down to the target. */
  function Rel(base: Path, target: Path): Option<seq<string>> {
    var n := CommonPrefix(base.segments, target.segments);
    if n == |base.segments| then Some(target.segments[n..])
    else if base.segments[n] == ".." then None
    else Some(seq(|base.segments| - n, i => "..") + target.segments[n..])
  }

  /** `ResolveBundleRelativeDir`. */
  function Resolve(root: string, rel: string): Option<Path> {
    var r, t := TrimSpace(root), TrimSpace(rel);
    if r == "" || t == "" || IsAbs(t) then None
    else
      var clean := Clean(t);
      if clean.segments == [] || clean.segments == [".."] then None
      else
        var resolved := Join(Clean(r), clean);
        var relative := Rel(Clean(r), resolved);
        if relative.None? || (relative.value != [] && relative.value[0] == "..") then None else Some(resolved)
  }

  /** No empty segment and no "."; ".." only at the start of a relative path. */
  predicate Cleaned(absolute: bool, segments: seq<string>) { forall i :: 0 <= i < |segments| ==> CleanAt(absolute, segments, i) }

  predicate CleanAt(absolute: bool, segments: seq<string>, i: nat)
    requires i < |segments|
  {
    && segments[i] != "" && segments[i] != "."
    && (segments[i] == ".." ==> !absolute && (i > 0 ==> segments[i - 1] == ".."))
  }

  lemma DescendCleans(absolute: bool, at: seq<string>, segment: string)
    requires Cleaned(absolute, at)
    ensures Cleaned(absolute, Descend(absolute, at, segment))
    ensures Cleaned(absolute, at + [segment]) ==> Descend(absolute, at, segment) == at + [segment]
  {
    var next := Descend(absolute, at, segment);
    forall i | 0 <= i < |next| ensures CleanAt(absolute, next, i) {
      if i < |at| { assert CleanAt(absolute, at, i); }
      if 0 < |at| { assert CleanAt(absolute, at, |at| - 1); }
    }
    if Cleaned(absolute, at + [segment]) { assert CleanAt(absolute, at + [segment], |at|); }
  }

  lemma CleanedPrefix(absolute: bool, front: seq<string>, rest: seq<string>)
    requires Cleaned(absolute, front + rest)
    ensures Cleaned(absolute, front)
  {
    forall i | 0 <= i < |front| ensures CleanAt(absolute, front, i) { assert CleanAt(absolute, front + rest, i); }
  }

  lemma {:induction false} WalkCleans(absolute: bool, at: seq<string>, segments: seq<string>)
    requires Cleaned(absolute, at)
    ensures Cleaned(absolute, Walk(absolute, at, segments))
    ensures Cleaned(absolute, at + segments) ==> Walk(absolute, at, segments) == at + segments
    decreases |segments|
  {
    if segments == [] {
      assert at + segments == at;
    } else {
      DescendCleans(absolute, at, segments[0]);
      WalkCleans(absolute, Descend(absolute, at, segments[0]), segments[1..]);
      assert at + [segments[0]] + segments[1..] == at + segments;
      if Cleaned(absolute, at + segments) { CleanedPrefix(absolute, at + [segments[0]], segments[1..]); }
    }
  }

  /** Cleaning leaves nothing to clean, and what it leaves is cleaned to itself. */
  lemma CleanIsFixed(path: string)
    ensures var clean := Clean(path);
            Cleaned(clean.absolute, clean.segments) && Walk(clean.absolute, [], clean.segments) == clean.segments
  {
    var clean := Clean(path);
    WalkCleans(clean.absolute, [], Split(path, '/'));
    WalkCleans(clean.absolute, [], clean.segments);
    assert [] + clean.segments == clean.segments;
  }

  /** The root itself or a path below it. */
  predicate Within(root: Path, path: Path) {
    && path.absolute == root.absolute && root.segments <= path.segments
    && (|path.segments| > |root.segments| ==> path.segments[|root.segments|] != "..")
  }

  /** The check lets a relative directory through exactly when it is neither blank, absolute, "." nor
      "..", and where it leads is the plugin root or below it. */
  lemma ResolvesWithin(root: string, rel: string)
    ensures var r, clean := Clean(TrimSpace(root)), Clean(TrimSpace(rel));
            Resolve(root, rel) ==
            if TrimSpace(root) != "" && TrimSpace(rel) != "" && !IsAbs(TrimSpace(rel))
               && clean.segments != [] && clean.segments != [".."] && Within(r, Join(r, clean))
            then Some(Join(r, clean)) else None
  {
    var r, clean := Clean(TrimSpace(root)), Clean(TrimSpace(rel));
    var resolved := Join(r, clean);
    var n := CommonPrefix(r.segments, resolved.segments);
    if r.segments <= resolved.segments {
      assert n == |r.segments|;
    }
  }

  lemma {:induction false} WalkPlain(absolute: bool, at: seq<string>, segments: seq<string>)
    requires forall i :: 0 <= i < |segments| ==> segments[i] != "" && segments[i] != "." && segments[i] != ".."
    ensures Walk(absolute, at, segments) == at + segments
    decreases |segments|
  {
    if segments == [] {
      assert at + segments == at;
    } else {
      WalkPlain(absolute, at + [segments[0]], segments[1..]);
      assert at + [segments[0]] + segments[1..] == at + segments;
    }
  }

  /** A bundle name of the kind repositories make resolves to its own directory below the root. */
  lemma BundleResolves(root: string, name: string)
    requires TrimSpace(root) != "" && '/' !in name && name != "" && name != "." && name != ".."
    requires Trimmed("bundles/" + name, IsSpace)
    ensures var r := Clean(TrimSpace(root));
            Resolve(root, "bundles/" + name) == Some(Path(r.absolute, r.segments + ["bundles", name]))
  {
    var r, rel := Clean(TrimSpace(root)), "bundles/" + name;
    TrimmedIsFixed(rel, IsSpace);
    SplitName(name);
    WalkPlain(false, [], ["bundles", name]);
    assert [] + ["bundles", name] == ["bundles", name];
    WalkPlain(r.absolute, r.segments, ["bundles", name]);
    ResolvesWithin(root, rel);
  }

  lemma SplitName(name: string)
    requires '/' !in name
    ensures Split("bundles/" + name, '/') == ["bundles", name]
  {
    assert "bundles/" + name == "bundles" + ['/'] + name;
    SplitOnce("bundles", '/', name);
    SplitFree(name, '/');
  }

  predicate PlainName(name: string) { '/' !in name && name != "" && name != "." && name != ".." && Trimmed(name, IsSpace) }

  lemma SplitSegment(name: string)
    requires '/' !in name
    ensures Split("/" + name, '/') == ["", name] && Split("../" + name, '/') == ["..", name]
  {
    SplitFree(name, '/');
    SplitOnce("", '/', name);
    SplitOnce("..", '/', name);
    assert "/" + name == "" + ['/'] + name && "../" + name == ".." + ['/'] + name;
    assert [""] + [name] == ["", name] && [".."] + [name] == ["..", name];
  }

  /** Cleaning and joining the paths `/name` and `../name`. */
  lemma OneSegment(name: string)
    requires PlainName(name)
    ensures Clean("/" + name) == Path(true, [name]) && Clean("../" + name) == Path(false, ["..", name])
    ensures Join(Path(true, [name]), Path(false, ["..", name])) == Path(true, [name])
  {
    SplitSegment(name);
    WalkPlain(true, [], [name]);
    WalkPlain(false, [".."], [name]);
    assert [".."] + [name] == ["..", name];
    assert Walk(true, [], ["", name]) == Walk(true, [], ["", name][1..]) && ["", name][1..] == [name];
    assert Descend(false, [], "..") == [".."];
    assert Walk(false, [], ["..", name]) == Walk(false, [".."], ["..", name][1..]) && ["..", name][1..] == [name];
    assert Walk(true, [name], ["..", name]) == Walk(true, [], ["..", name][1..]);
  }

  /** A directory may lead out of the root and back, even to the root itself, which "." may not name. */
  lemma BackToTheRoot(name: string)
    requires PlainName(name)
    ensures Resolve("/" + name, "../" + name) == Some(Clean("/" + name))
  {
    var root, rel := "/" + name, "../" + name;
    OneSegment(name);
    TrimmedIsFixed(root, IsSpace);
    TrimmedIsFixed(rel, IsSpace);
    ResolvesWithin(root, rel);
  }
}
