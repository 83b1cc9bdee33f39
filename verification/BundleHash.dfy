/** `HashDir`: what the hash of a bundle sees. A `char` stands for one byte, and SHA-256 is taken to be
    injective, so that a hash stands for the bytes that are fed to it. */
module BundleHash {
  import opened GoText

  /** The regular files of a directory, by slash-separated path. */
  type Dir = map<string, string>

  type Hash = string

  const SIGNATURE := "signature.json"
  const NUL := '\0'

  // ----- Sorted listings -----

  predicate Less(a: string, b: string) {
    b != "" && (a == "" || a[0] < b[0] || (a[0] == b[0] && Less(a[1..], b[1..])))
  }

  lemma {:induction false} LessTotal(a: string, b: string)
    ensures Less(a, b) || Less(b, a) || a == b
    ensures !(Less(a, b) && Less(b, a)) && !Less(a, a)
  {
    if a != "" && b != "" && a[0] == b[0] {
      LessTotal(a[1..], b[1..]);
      assert a == [a[0]] + a[1..] && b == [b[0]] + b[1..];
    }
    if a != "" { LessTotal(a[1..], a[1..]); }
  }

  lemma {:induction false} LessTransitive(a: string, b: string, c: string)
    requires Less(a, b) && Less(b, c)
    ensures Less(a, c)
  {
    if a != "" && a[0] == b[0] == c[0] { LessTransitive(a[1..], b[1..], c[1..]); }
  }

  ghost predicate Least(p: string, paths: set<string>) {
    p in paths && forall q :: q in paths ==> !Less(q, p)
  }

  lemma {:induction false} HasLeast(paths: set<string>)
    requires paths != {}
    ensures exists p :: Least(p, paths)
    decreases |paths|
  {
    var q :| q in paths;
    LessTotal(q, q);
    if paths == {q} {
      assert Least(q, paths);
    } else {
      HasLeast(paths - {q});
      var r :| Least(r, paths - {q});
      LessTotal(q, r);
      var p := if Less(q, r) then q else r;
      forall s | s in paths ensures !Less(s, p) {
        LessTotal(s, q);
        if s != q && p == q && Less(s, q) { LessTransitive(s, q, r); }
      }
      assert Least(p, paths);
    }
  }

  /** `sort.Strings`: the paths in byte order. */
  ghost function Sorted(paths: set<string>): (list: seq<string>)
    ensures forall p :: p in list <==> p in paths
    decreases |paths|
  {
    if paths == {} then []
    else
      HasLeast(paths);
      var p :| Least(p, paths);
      [p] + Sorted(paths - {p})
  }

  lemma LeastUnique(p: string, q: string, paths: set<string>)
    requires Least(p, paths) && Least(q, paths)
    ensures p == q
  {
    LessTotal(p, q);
  }

  // ----- The bytes that are hashed -----

  /** `listFiles`: every file but the top-level signature. */
  ghost function Listed(dir: Dir): seq<string> { Sorted(dir.Keys - {SIGNATURE}) }

  function Feed(dir: Dir, paths: seq<string>): Hash
    requires forall p :: p in paths ==> p in dir
  {
    if paths == [] then ""
    else
      var last := paths[|paths| - 1];
      Feed(dir, paths[..|paths| - 1]) + last + [NUL] + dir[last] + [NUL]
  }

  ghost function HashOf(dir: Dir): Hash { Feed(dir, Listed(dir)) }

  /** `HashDir`. */
  method HashDir(dir: Dir) returns (hash: Hash)
    ensures hash == HashOf(dir)
  {
    var paths := ListFiles(dir);
    hash := "";
    forall p | p in paths ensures p in dir { assert p in Listed(dir); }
    for i := 0 to |paths|
      invariant hash == Feed(dir, paths[..i])
    {
      assert paths[..i + 1][..i] == paths[..i];
      hash := hash + paths[i] + [NUL] + dir[paths[i]] + [NUL];
    }
    assert paths[..|paths|] == paths;
  }

  method ListFiles(dir: Dir) returns (paths: seq<string>)
    ensures paths == Listed(dir)
  {
    paths := SortPaths(dir.Keys - {SIGNATURE});
  }

  method TakeLeast(paths: set<string>) returns (p: string)
    requires paths != {}
    ensures p in paths && Sorted(paths) == [p] + Sorted(paths - {p})
  {
    HasLeast(paths);
    p :| p in paths && forall q :: q in paths ==> !Less(q, p);
    SortedFrom(paths, p);
  }

  lemma SortedFrom(paths: set<string>, p: string)
    requires Least(p, paths)
    ensures Sorted(paths) == [p] + Sorted(paths - {p})
  {
    HasLeast(paths);
    var first := Sorted(paths)[0];
    assert Least(first, paths);
    LeastUnique(p, first, paths);
  }

  method SortPaths(all: set<string>) returns (paths: seq<string>)
    ensures paths == Sorted(all)
  {
    paths := [];
    var left := all;
    ghost var spec, rest := Sorted(all), Sorted(all);
    while left != {}
      invariant rest == Sorted(left) && spec == paths + rest
      decreases |left|
    {
      var p := TakeLeast(left);
      rest := rest[1..];
      left := left - {p};
      Moves(spec, paths, p, rest);
      paths := paths + [p];
    }
  }

  lemma Moves(spec: seq<string>, paths: seq<string>, p: string, rest: seq<string>)
    requires spec == paths + ([p] + rest)
    ensures spec == paths + [p] + rest
  {
  }

  /** A file fed byte for byte: signing changes nothing that is hashed. */
  lemma HashIgnoresSignature(dir: Dir, signature: string)
    ensures HashOf(dir[SIGNATURE := signature]) == HashOf(dir)
  {
    var signed := dir[SIGNATURE := signature];
    assert signed.Keys - {SIGNATURE} == dir.Keys - {SIGNATURE};
    FeedSame(dir, signed, Listed(dir));
  }

  lemma {:induction false} FeedSame(a: Dir, b: Dir, paths: seq<string>)
    requires forall p :: p in paths ==> p in a && p in b && a[p] == b[p]
    ensures Feed(a, paths) == Feed(b, paths)
  {
    if paths != [] { FeedSame(a, b, paths[..|paths| - 1]); }
  }

  // ----- What may be copied -----

  const MAX_FILE_BYTES: nat := 8 * 1024 * 1024
  const MAX_BUNDLE_BYTES: nat := 32 * 1024 * 1024

  function Bytes(dir: Dir, paths: seq<string>): nat
    requires forall p :: p in paths ==> p in dir
  {
    if paths == [] then 0 else Bytes(dir, paths[..|paths| - 1]) + |dir[paths[|paths| - 1]]|
  }

  /** No file over 8 MiB, and no more than 32 MiB in all. */
  ghost predicate Copyable(dir: Dir) {
    (forall p :: p in dir ==> |dir[p]| <= MAX_FILE_BYTES) && Bytes(dir, Sorted(dir.Keys)) <= MAX_BUNDLE_BYTES
  }

  /** `copyDirSafe`, apart from links: gives up at the first file that breaks a limit. */
  method CopyDirSafe(dir: Dir) returns (copied: Dir, ok: bool)
    ensures ok == Copyable(dir) && (ok ==> copied == dir)
  {
    copied := map[];
    var paths := SortPaths(dir.Keys);
    CopyableIff(dir, paths);
    var total: nat := 0;
    var i := 0;
    while i < |paths|
      invariant 0 <= i <= |paths| && total == Bytes(dir, paths[..i]) <= MAX_BUNDLE_BYTES
      invariant copied == Part(dir, paths[..i]) && AllSmall(dir, paths[..i])
    {
      PartGrows(dir, paths, i);
      var content := dir[paths[i]];
      total := total + |content|;
      if total > MAX_BUNDLE_BYTES {
        BytesGrow(dir, paths, i + 1);
        return map[], false;
      }
      if |content| > MAX_FILE_BYTES {
        SmallParts(dir, paths, i + 1);
        return map[], false;
      }
      copied := copied[paths[i] := content];
      i := i + 1;
    }
    assert paths[..i] == paths;
    return copied, true;
  }

  lemma CopyableIff(dir: Dir, paths: seq<string>)
    requires paths == Sorted(dir.Keys)
    ensures (forall p :: p in paths ==> p in dir) && Part(dir, paths) == dir
    ensures Copyable(dir) <==> AllSmall(dir, paths) && Bytes(dir, paths) <= MAX_BUNDLE_BYTES
  {
    PartIs(dir, paths);
  }

  /** The files copied once these paths are done. */
  ghost function Part(dir: Dir, paths: seq<string>): Dir
    requires forall p :: p in paths ==> p in dir
  {
    if paths == [] then map[]
    else Part(dir, paths[..|paths| - 1])[paths[|paths| - 1] := dir[paths[|paths| - 1]]]
  }

  ghost predicate AllSmall(dir: Dir, paths: seq<string>)
    requires forall p :: p in paths ==> p in dir
  {
    paths == [] || (AllSmall(dir, paths[..|paths| - 1]) && |dir[paths[|paths| - 1]]| <= MAX_FILE_BYTES)
  }

  lemma {:induction false} PartIs(dir: Dir, paths: seq<string>)
    requires forall p :: p in paths ==> p in dir
    ensures (forall p :: p in Part(dir, paths) <==> p in paths) && (forall p :: p in paths ==> Part(dir, paths)[p] == dir[p])
    ensures AllSmall(dir, paths) <==> forall p :: p in paths ==> |dir[p]| <= MAX_FILE_BYTES
  {
    if paths != [] {
      var front, last := paths[..|paths| - 1], paths[|paths| - 1];
      PartIs(dir, front);
      assert forall p :: p in paths <==> p in front || p == last;
    }
  }

  lemma PartGrows(dir: Dir, paths: seq<string>, i: nat)
    requires i < |paths| && forall p :: p in paths ==> p in dir
    ensures paths[i] in dir && Part(dir, paths[..i + 1]) == Part(dir, paths[..i])[paths[i] := dir[paths[i]]]
    ensures Bytes(dir, paths[..i + 1]) == Bytes(dir, paths[..i]) + |dir[paths[i]]|
    ensures AllSmall(dir, paths[..i + 1]) <==> AllSmall(dir, paths[..i]) && |dir[paths[i]]| <= MAX_FILE_BYTES
  {
    assert paths[..i + 1][..i] == paths[..i];
  }

  /** A file over the limit stays in the way. */
  lemma {:induction false} SmallParts(dir: Dir, paths: seq<string>, i: nat)
    requires i <= |paths| && forall p :: p in paths ==> p in dir
    ensures AllSmall(dir, paths) ==> AllSmall(dir, paths[..i])
    decreases |paths|
  {
    if i < |paths| {
      assert paths[..|paths| - 1][..i] == paths[..i];
      SmallParts(dir, paths[..|paths| - 1], i);
    } else {
      assert paths[..i] == paths;
    }
  }

  lemma {:induction false} BytesGrow(dir: Dir, paths: seq<string>, i: nat)
    requires i <= |paths| && forall p :: p in paths ==> p in dir
    ensures Bytes(dir, paths[..i]) <= Bytes(dir, paths)
    decreases |paths|
  {
    if i < |paths| {
      assert paths[..|paths| - 1][..i] == paths[..i];
      BytesGrow(dir, paths[..|paths| - 1], i);
    } else {
      assert paths[..i] == paths;
    }
  }

  // ----- What equal hashes mean -----

  /** The same files but for the signature. */
  ghost predicate SameFiles(a: Dir, b: Dir) { a - {SIGNATURE} == b - {SIGNATURE} }

  /** The strings between the NUL bytes of what is hashed. */
  function Fields(dir: Dir, paths: seq<string>): seq<string>
    requires forall p :: p in paths ==> p in dir
  {
    if paths == [] then []
    else
      var last := paths[|paths| - 1];
      Fields(dir, paths[..|paths| - 1]) + Split(last, NUL) + Split(dir[last], NUL)
  }

  function Terminated(fields: seq<string>): string {
    if fields == [] then "" else fields[0] + [NUL] + Terminated(fields[1..])
  }

  ghost predicate NoNul(s: string) { NUL !in s }

  ghost predicate AllNoNul(fields: seq<string>) { forall i :: 0 <= i < |fields| ==> NoNul(fields[i]) }

  lemma {:induction false} TerminatedAppend(a: seq<string>, b: seq<string>)
    ensures Terminated(a + b) == Terminated(a) + Terminated(b)
  {
    if a == [] {
      assert a + b == b;
    } else {
      assert (a + b)[1..] == a[1..] + b;
      TerminatedAppend(a[1..], b);
    }
  }

  lemma {:induction false} SplitTerminated(s: string)
    ensures Terminated(Split(s, NUL)) == s + [NUL] && AllNoNul(Split(s, NUL))
  {
    if s == [] {
      assert Terminated([""]) == "" + [NUL] + Terminated([]);
    } else {
      var rest := Split(s[1..], NUL);
      SplitTerminated(s[1..]);
      if s[0] == NUL {
        assert ([[]] + rest)[1..] == rest;
        assert s == [NUL] + s[1..];
      } else {
        var joined := [[s[0]] + rest[0]] + rest[1..];
        assert joined[1..] == rest[1..];
        assert s == [s[0]] + s[1..];
        assert Terminated(joined) == [s[0]] + (rest[0] + [NUL] + Terminated(rest[1..]));
      }
    }
  }

  lemma {:induction false} FeedIsFields(dir: Dir, paths: seq<string>)
    requires forall p :: p in paths ==> p in dir
    ensures Feed(dir, paths) == Terminated(Fields(dir, paths)) && AllNoNul(Fields(dir, paths))
  {
    if paths != [] {
      var front, last := paths[..|paths| - 1], paths[|paths| - 1];
      FeedIsFields(dir, front);
      FileFields(Fields(dir, front), last, dir[last]);
    }
  }

  /** One more file. */
  lemma FileFields(before: seq<string>, path: string, content: string)
    requires AllNoNul(before)
    ensures var fields := before + Split(path, NUL) + Split(content, NUL);
            AllNoNul(fields) && Terminated(fields) == Terminated(before) + path + [NUL] + content + [NUL]
  {
    var p, c := Split(path, NUL), Split(content, NUL);
    SplitTerminated(path);
    SplitTerminated(content);
    TerminatedAppend(before + p, c);
    TerminatedAppend(before, p);
    Regroup(Terminated(before), path, content);
  }

  lemma Regroup(before: string, path: string, content: string)
    ensures before + (path + [NUL]) + (content + [NUL]) == before + path + [NUL] + content + [NUL]
  {
  }

  /** Terminated fields without NUL can be told apart. */
  lemma {:induction false} TerminatedInjective(a: seq<string>, b: seq<string>)
    requires AllNoNul(a) && AllNoNul(b) && Terminated(a) == Terminated(b)
    ensures a == b
  {
    if a != [] && b != [] {
      FirstField(a[0], Terminated(a[1..]), b[0], Terminated(b[1..]));
      TerminatedInjective(a[1..], b[1..]);
      assert a == [a[0]] + a[1..] && b == [b[0]] + b[1..];
    }
  }

  lemma {:induction false} FirstField(x: string, s: string, y: string, t: string)
    requires NoNul(x) && NoNul(y) && x + [NUL] + s == y + [NUL] + t
    ensures x == y && s == t
  {
    assert (x + [NUL] + s)[|x|] == NUL && (y + [NUL] + t)[|y|] == NUL;
    assert forall i :: 0 <= i < |x| ==> (x + [NUL] + s)[i] == x[i];
    assert forall i :: 0 <= i < |y| ==> (y + [NUL] + t)[i] == y[i];
    assert |x| == |y|;
    assert s == (x + [NUL] + s)[|x| + 1..];
    assert t == (y + [NUL] + t)[|y| + 1..];
  }

  /** The hash tells two directories apart exactly when the strings between NUL bytes do. */
  lemma HashExact(a: Dir, b: Dir)
    ensures HashOf(a) == HashOf(b) <==> Fields(a, Listed(a)) == Fields(b, Listed(b))
  {
    FeedIsFields(a, Listed(a));
    FeedIsFields(b, Listed(b));
    if HashOf(a) == HashOf(b) { TerminatedInjective(Fields(a, Listed(a)), Fields(b, Listed(b))); }
  }

  /** Neither a path nor a hashed file holds a NUL byte. */
  ghost predicate TextOnly(dir: Dir) { forall p :: p in dir && p != SIGNATURE ==> NoNul(p) && NoNul(dir[p]) }

  lemma {:induction false} TextSplits(s: string)
    requires NoNul(s)
    ensures Split(s, NUL) == [s]
  {
    if s != [] {
      TextSplits(s[1..]);
      assert s == [s[0]] + s[1..];
    }
  }

  /** Path and content, alternately. */
  function Alternating(dir: Dir, paths: seq<string>): seq<string>
    requires forall p :: p in paths ==> p in dir
  {
    seq(2 * |paths|, i requires 0 <= i < 2 * |paths| => if i % 2 == 0 then paths[i / 2] else dir[paths[i / 2]])
  }

  lemma {:induction false} TextFields(dir: Dir, paths: seq<string>)
    requires TextOnly(dir) && SIGNATURE !in paths && forall p :: p in paths ==> p in dir
    ensures Fields(dir, paths) == Alternating(dir, paths)
  {
    if paths != [] {
      var front, last := paths[..|paths| - 1], paths[|paths| - 1];
      TextFields(dir, front);
      TextSplits(last);
      TextSplits(dir[last]);
      assert Alternating(dir, paths) == Alternating(dir, front) + [last] + [dir[last]];
    }
  }

  /** For directories without NUL bytes, equal hashes mean equal files, signatures apart. */
  lemma TextHashExact(a: Dir, b: Dir)
    requires TextOnly(a) && TextOnly(b)
    ensures HashOf(a) == HashOf(b) <==> SameFiles(a, b)
  {
    HashExact(a, b);
    TextFields(a, Listed(a));
    TextFields(b, Listed(b));
    if HashOf(a) == HashOf(b) { AlternatingTells(a, b, Listed(a), Listed(b)); SameListing(a, b, Listed(a)); }
    if SameFiles(a, b) { SameFilesHash(a, b); }
  }

  lemma AlternatingTells(a: Dir, b: Dir, pa: seq<string>, pb: seq<string>)
    requires (forall p :: p in pa ==> p in a) && (forall p :: p in pb ==> p in b)
    requires Alternating(a, pa) == Alternating(b, pb)
    ensures pa == pb && forall p :: p in pa ==> a[p] == b[p]
  {
    var x, y := Alternating(a, pa), Alternating(b, pb);
    assert |x| == |y| && |pa| == |pb|;
    forall i | 0 <= i < |pa| ensures pa[i] == pb[i] && a[pa[i]] == b[pb[i]] {
      assert x[2 * i] == y[2 * i] && x[2 * i + 1] == y[2 * i + 1];
    }
  }

  lemma SameFilesHash(a: Dir, b: Dir)
    requires SameFiles(a, b)
    ensures HashOf(a) == HashOf(b)
  {
    var x, y := a - {SIGNATURE}, b - {SIGNATURE};
    assert a.Keys - {SIGNATURE} == x.Keys && b.Keys - {SIGNATURE} == y.Keys;
    forall p | p in Listed(a) ensures p in a && p in b && a[p] == b[p] { assert x[p] == y[p]; }
    FeedSame(a, b, Listed(a));
  }

  lemma SameListing(a: Dir, b: Dir, paths: seq<string>)
    requires Listed(a) == paths && Listed(b) == paths
    requires forall p :: p in paths ==> p in a && p in b && a[p] == b[p]
    ensures SameFiles(a, b)
  {
    var x, y := a - {SIGNATURE}, b - {SIGNATURE};
    forall p ensures p in x <==> p in y {
      assert p in x <==> p in paths;
      assert p in y <==> p in paths;
    }
    forall p | p in x ensures x[p] == y[p] {
      assert p in paths;
    }
    assert x == y;
  }

  /** With NUL bytes they need not: one file can hash as two, whatever their names and texts. */
  lemma NulHidesFiles(p: string, x: string, q: string, y: string)
    requires Less(p, q) && p != SIGNATURE && q != SIGNATURE
    ensures var one, two := map[p := x + [NUL] + q + [NUL] + y], map[p := x, q := y];
            HashOf(one) == HashOf(two) && !SameFiles(one, two)
  {
    var one: Dir, two: Dir := map[p := x + [NUL] + q + [NUL] + y], map[p := x, q := y];
    OneFed(p, x + [NUL] + q + [NUL] + y);
    TwoFed(p, x, q, y);
    assert p + [NUL] + (x + [NUL] + q + [NUL] + y) + [NUL] == p + [NUL] + x + [NUL] + q + [NUL] + y + [NUL];
    LessTotal(p, p);
    assert q in (two - {SIGNATURE}) && q !in (one - {SIGNATURE});
  }

  lemma OneFed(p: string, x: string)
    requires p != SIGNATURE
    ensures HashOf(map[p := x]) == p + [NUL] + x + [NUL]
  {
    var one: Dir := map[p := x];
    assert one.Keys - {SIGNATURE} == {p};
    SortedOne(p);
    FeedAppend(one, [], p);
  }

  lemma TwoFed(p: string, x: string, q: string, y: string)
    requires Less(p, q) && p != SIGNATURE && q != SIGNATURE
    ensures HashOf(map[p := x, q := y]) == p + [NUL] + x + [NUL] + q + [NUL] + y + [NUL]
  {
    LessTotal(p, p);
    var two: Dir := map[p := x, q := y];
    assert two.Keys - {SIGNATURE} == {p, q};
    SortedTwo(p, q);
    FeedAppend(two, [], p);
    FeedAppend(two, [p], q);
  }

  lemma FeedAppend(dir: Dir, paths: seq<string>, p: string)
    requires p in dir && forall r :: r in paths ==> r in dir
    ensures Feed(dir, paths + [p]) == Feed(dir, paths) + p + [NUL] + dir[p] + [NUL]
  {
    assert (paths + [p])[..|paths|] == paths;
  }

  lemma SortedOne(p: string)
    ensures Sorted({p}) == [p]
  {
    HasLeast({p});
    assert {p} - {p} == {};
  }

  lemma SortedTwo(p: string, q: string)
    requires Less(p, q)
    ensures Sorted({p, q}) == [p, q]
  {
    LessTotal(p, q);
    LessTotal(p, p);
    HasLeast({p, q});
    assert Least(p, {p, q});
    var first := Sorted({p, q})[0];
    assert Least(first, {p, q});
    assert {p, q} - {p} == {q};
    SortedOne(q);
  }
}
