/** `bundleName`: what the directory of a bundle is called. */
module BundleNames {
  import opened Wrappers
  import opened GoText
  import opened BundleStores
  import opened BundlePaths

  /** A character that a name may begin or end with. */
  predicate Solid(n: Naming, c: char) { n.word(c) && !Punctuation(c) }

  /** `name` is "git-" and the part of the revision from its first solid character to its last, with a
      dash for every character that is neither a word character nor punctuation. */
  ghost predicate NamedAfter(n: Naming, revision: string, from: nat, to: nat, name: string) {
    && from < to <= |revision| && Solid(n, revision[from]) && Solid(n, revision[to - 1])
    && (forall i :: 0 <= i < |revision| && Solid(n, revision[i]) ==> from <= i < to)
    && |name| == 4 + to - from && name[..4] == "git-"
    && forall i :: from <= i < to ==>
         name[4 + i - from] == if n.word(revision[i]) || revision[i] in "._-" then revision[i] else '-'
  }

  /** What is left of a row of characters after trimming those of one kind off its ends. */
  lemma TrimFrom(s: string, outer: char -> bool) returns (from: nat, to: nat)
    ensures from <= to <= |s| && Trim(s, outer) == s[from..to]
    ensures forall i :: 0 <= i < |s| && !outer(s[i]) ==> from <= i < to
    ensures from < to ==> !outer(s[from]) && !outer(s[to - 1])
  {
    var lead, trail := TrimSplits(s, outer);
    var core := Trim(s, outer);
    from, to := |lead|, |lead| + |core|;
    assert s[from..to] == core;
    assert forall i :: 0 <= i < from ==> s[i] == lead[i];
    assert forall i :: to <= i < |s| ==> s[i] == trail[i - to];
    assert from < to ==> s[from] == core[0] && s[to - 1] == core[|core| - 1];
  }

  lemma BundleNameIs(n: Naming, revision: string, hash: BundleHash.Hash)
    ensures var text, name := TrimSpace(revision), BundleName(n, revision, hash);
            || (exists from: nat, to: nat :: NamedAfter(n, text, from, to, name))
            || ((forall i :: 0 <= i < |text| ==> !Solid(n, text[i])) && name == "sha256-" + n.short(hash))
  {
    var text := TrimSpace(revision);
    var parts := Dashed(n, text);
    forall i | 0 <= i < |text| ensures Punctuation(parts[i]) <==> !Solid(n, text[i]) { }
    var from, to := TrimFrom(parts, Punctuation);
    if from < to {
      var name := "git-" + parts[from..to];
      forall i | from <= i < to ensures name[4 + i - from] == parts[i] { }
      assert NamedAfter(n, text, from, to, name);
    }
  }

  /** Letters and digits are neither whitespace nor slashes, and the short form of a hash has only such. */
  ghost predicate Plausible(n: Naming, hash: BundleHash.Hash) {
    && (forall c :: n.word(c) ==> !IsSpace(c) && c != '/')
    && n.short(hash) != "" && forall i :: 0 <= i < |n.short(hash)| ==> n.word(n.short(hash)[i])
  }

  lemma NoSlash(n: Naming, text: string, from: nat, to: nat, name: string)
    requires NamedAfter(n, text, from, to, name) && forall c :: n.word(c) ==> !IsSpace(c) && c != '/'
    ensures '/' !in name && name != "" && name != "." && name != ".." && !IsSpace(name[|name| - 1])
  {
    assert name[4 + (to - 1) - from] == text[to - 1];
    forall k | 0 <= k < |name| ensures name[k] != '/' {
      if k < 4 {
        assert '/' !in "git-" && name[k] == name[..4][k];
      } else {
        var i := from + k - 4;
        assert from <= i < to && name[4 + i - from] == name[k];
        assert n.word(text[i]) || text[i] in "._-" ==> text[i] != '/';
      }
    }
  }

  /** Whatever the revision says, the bundle's directory resolves, to a directory of that name in
      `bundles` under the plugin root. */
  lemma BundleNameResolves(n: Naming, root: string, revision: string, hash: BundleHash.Hash)
    requires TrimSpace(root) != "" && Plausible(n, hash)
    ensures var r, name := Clean(TrimSpace(root)), BundleName(n, revision, hash);
            BundlePaths.Resolve(root, "bundles/" + name) == Some(Path(r.absolute, r.segments + ["bundles", name]))
  {
    var text, name := TrimSpace(revision), BundleName(n, revision, hash);
    BundleNameIs(n, revision, hash);
    if from: nat, to: nat :| NamedAfter(n, text, from, to, name) {
      NoSlash(n, text, from, to, name);
    }
    var rel := "bundles/" + name;
    assert rel[|rel| - 1] == name[|name| - 1];
    BundleResolves(root, name);
  }
}
