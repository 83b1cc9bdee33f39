/** The few operations of Go's `strings` package that the modelled code relies on.
    A `string` here is a sequence of Unicode scalar values (Go's runes). */
module GoText {
  /** `unicode.IsSpace`. */
  predicate IsSpace(c: char) {
    || '\U{0009}' <= c <= '\U{000D}'
    || c == ' ' || c == '\U{0085}' || c == '\U{00A0}' || c == '\U{1680}'
    || '\U{2000}' <= c <= '\U{200A}'
    || c == '\U{2028}' || c == '\U{2029}' || c == '\U{202F}' || c == '\U{205F}' || c == '\U{3000}'
  }

  function TrimLeft<T>(s: seq<T>, space: T -> bool): seq<T> {
    if s != [] && space(s[0]) then TrimLeft(s[1..], space) else s
  }

  function TrimRight<T>(s: seq<T>, space: T -> bool): seq<T> {
    if s != [] && space(s[|s| - 1]) then TrimRight(s[..|s| - 1], space) else s
  }

  /** `strings.TrimFunc`, on any kind of element. */
  function Trim<T>(s: seq<T>, space: T -> bool): seq<T> {
    TrimRight(TrimLeft(s, space), space)
  }

  function TrimSpace(s: string): string {
    Trim(s, IsSpace)
  }

  ghost predicate AllSpace<T>(s: seq<T>, space: T -> bool) {
    forall i :: 0 <= i < |s| ==> space(s[i])
  }

  /** No whitespace at either end. */
  predicate Trimmed<T>(s: seq<T>, space: T -> bool) {
    s == [] || (!space(s[0]) && !space(s[|s| - 1]))
  }

  lemma {:induction false} TrimLeftSplits<T>(s: seq<T>, space: T -> bool) returns (lead: seq<T>)
    ensures s == lead + TrimLeft(s, space) && AllSpace(lead, space)
    ensures TrimLeft(s, space) == [] || !space(TrimLeft(s, space)[0])
  {
    if s != [] && space(s[0]) {
      var rest := TrimLeftSplits(s[1..], space);
      lead := [s[0]] + rest;
    } else {
      lead := [];
    }
  }

  lemma {:induction false} TrimRightSplits<T>(s: seq<T>, space: T -> bool) returns (trail: seq<T>)
    ensures s == TrimRight(s, space) + trail && AllSpace(trail, space)
    ensures TrimRight(s, space) == [] || !space(TrimRight(s, space)[|TrimRight(s, space)| - 1])
  {
    if s != [] && space(s[|s| - 1]) {
      var rest := TrimRightSplits(s[..|s| - 1], space);
      trail := rest + [s[|s| - 1]];
    } else {
      trail := [];
    }
  }

  /** Trimming removes whitespace at the ends and nothing else. */
  lemma TrimSplits<T>(s: seq<T>, space: T -> bool) returns (lead: seq<T>, trail: seq<T>)
    ensures s == lead + Trim(s, space) + trail
    ensures AllSpace(lead, space) && AllSpace(trail, space)
    ensures Trimmed(Trim(s, space), space)
  {
    lead := TrimLeftSplits(s, space);
    trail := TrimRightSplits(TrimLeft(s, space), space);
    var left, t := TrimLeft(s, space), Trim(s, space);
    assert left == t + trail;
    if t != [] {
      assert left[0] == t[0];
    }
  }

  lemma TrimmedIsFixed<T>(s: seq<T>, space: T -> bool)
    ensures Trim(s, space) == s <==> Trimmed(s, space)
  {
    var _, _ := TrimSplits(s, space);
  }

  lemma TrimTwice(s: string)
    ensures TrimSpace(TrimSpace(s)) == TrimSpace(s)
  {
    var _, _ := TrimSplits(s, IsSpace);
    TrimmedIsFixed(TrimSpace(s), IsSpace);
  }

  /** What is left after trimming is the only way to cut whitespace off both ends. */
  lemma {:induction false} TrimOf<T>(lead: seq<T>, core: seq<T>, trail: seq<T>, space: T -> bool)
    requires AllSpace(lead, space) && AllSpace(trail, space) && Trimmed(core, space)
    ensures Trim(lead + core + trail, space) == core
    decreases |lead| + |trail|
  {
    var s := lead + core + trail;
    if lead != [] {
      assert s[0] == lead[0] && s[1..] == lead[1..] + core + trail;
      TrimOf(lead[1..], core, trail, space);
    } else if core == [] {
      assert s == trail;
      AllSpaceTrimsAway(trail, space);
    } else if trail != [] {
      assert s[0] == core[0];
      assert TrimLeft(s, space) == s;
      assert s[|s| - 1] == trail[|trail| - 1];
      assert s[..|s| - 1] == lead + core + trail[..|trail| - 1];
      TrimOf(lead, core, trail[..|trail| - 1], space);
      assert TrimLeft(s[..|s| - 1], space) == s[..|s| - 1];
    } else {
      assert s == core;
      TrimmedIsFixed(core, space);
    }
  }

  lemma {:induction false} AllSpaceTrimsAway<T>(s: seq<T>, space: T -> bool)
    requires AllSpace(s, space)
    ensures TrimLeft(s, space) == []
  {
    if s != [] {
      AllSpaceTrimsAway(s[1..], space);
    }
  }

  /** What `unicode.ToLower` makes of characters outside ASCII: any table, on which nothing here depends. */
  const LOWERED: map<char, char>

  /** `strings.ToLower`, one character at a time. */
  function LowerChar(c: char): char {
    if 'A' <= c <= 'Z' then (c as int + 32) as char
    else if c as int >= 128 && c in LOWERED then LOWERED[c]
    else c
  }

  function ToLower(s: string): string {
    seq(|s|, i requires 0 <= i < |s| => LowerChar(s[i]))
  }

  /** `strings.Join`. */
  function Join(parts: seq<string>, separator: string): string {
    if parts == [] then ""
    else if |parts| == 1 then parts[0]
    else parts[0] + separator + Join(parts[1..], separator)
  }

  /** `strings.Split` on a single character: always at least one part. */
  function Split(s: string, separator: char): (parts: seq<string>)
    ensures parts != []
  {
    if s == [] then [[]]
    else
      var rest := Split(s[1..], separator);
      if s[0] == separator then [[]] + rest
      else [[s[0]] + rest[0]] + rest[1..]
  }

  lemma {:induction false} SplitFree(s: string, c: char)
    ensures |Split(s, c)| == 1 <==> c !in s
    ensures c !in s ==> Split(s, c) == [s]
  {
    if s != [] {
      SplitFree(s[1..], c);
      assert s == [s[0]] + s[1..];
    }
  }

  lemma {:induction false} SplitOnce(a: string, c: char, b: string)
    requires c !in a
    ensures Split(a + [c] + b, c) == [a] + Split(b, c)
  {
    var s := a + [c] + b;
    if a == [] {
      assert s[1..] == b;
    } else {
      assert s[1..] == a[1..] + [c] + b;
      SplitOnce(a[1..], c, b);
      assert [a[0]] + a[1..] == a;
    }
  }

  /** How many bytes UTF-8 takes for a rune. */
  function RuneBytes(c: char): (n: nat)
    ensures 1 <= n <= 4
  {
    if c < '\U{0080}' then 1 else if c < '\U{0800}' then 2 else if c < '\U{10000}' then 3 else 4
  }

  /** `len` of a string: its bytes. */
  function ByteLen(s: string): nat {
    if s == [] then 0 else RuneBytes(s[0]) + ByteLen(s[1..])
  }

  lemma {:induction false} ByteLenAppend(s: string, t: string)
    ensures ByteLen(s + t) == ByteLen(s) + ByteLen(t)
  {
    if s == [] {
      assert s + t == t;
    } else {
      assert (s + t)[1..] == s[1..] + t;
      ByteLenAppend(s[1..], t);
    }
  }

  predicate LowerAlpha(c: char) { 'a' <= c <= 'z' }
  predicate Digit(c: char) { '0' <= c <= '9' }
  predicate IdChar(c: char) { LowerAlpha(c) || Digit(c) || c == '_' || c == '.' || c == '-' }
}
