/** The patterns of names, ids and routes as regular expressions, with what it means to match one. */
module DefinitionPatterns {
  import opened Wrappers
  import opened GoText
  import opened PluginContract
  import opened DefinitionValidation
  import CustomId

  datatype Pattern =
    | OneOf(ok: char -> bool)
    | Then(first: Pattern, second: Pattern)
    | Repeat(part: Pattern, min: nat, max: Option<nat>)

  /** The whole of `s` matches. */
  ghost predicate Fits(p: Pattern, s: string)
    decreases p, 0
  {
    match p
    case OneOf(ok) => |s| == 1 && ok(s[0])
    case Then(first, second) => exists i :: 0 <= i <= |s| && Fits(first, s[..i]) && Fits(second, s[i..])
    case Repeat(part, min, max) => exists n: nat :: min <= n && (max.Some? ==> n <= max.value) && FitsTimes(part, n, s)
  }

  ghost predicate FitsTimes(p: Pattern, n: nat, s: string)
    decreases p, n + 1
  {
    if n == 0 then s == "" else exists i :: 0 <= i <= |s| && Fits(p, s[..i]) && FitsTimes(p, n - 1, s[i..])
  }

  predicate LowerOrDigit(c: char) { LowerAlpha(c) || Digit(c) }
  predicate SlashChar(c: char) { LowerAlpha(c) || Digit(c) || c == '_' || c == '-' }
  predicate Colon(c: char) { c == ':' }

  /** `[a-z0-9_-]{1,32}` */
  const SlashNames := Repeat(OneOf(SlashChar), 1, Some(32))

  /** `[a-z][a-z0-9_.-]{0,63}` */
  const HandlerIds := Then(OneOf(LowerAlpha), Repeat(OneOf(IdChar), 0, Some(63)))

  /** `[a-z0-9][a-z0-9_.-]*` */
  const Segments := Then(OneOf(LowerOrDigit), Repeat(OneOf(IdChar), 0, None))

  const Tails := Then(OneOf(Colon), Segments)

  /** `[a-z][a-z0-9]*(?::[a-z0-9][a-z0-9_.-]*)+` */
  const Routes := Then(Then(OneOf(LowerAlpha), Repeat(OneOf(LowerOrDigit), 0, None)), Repeat(Tails, 1, None))

  lemma {:induction false} OneTimes(ok: char -> bool, n: nat, s: string)
    ensures FitsTimes(OneOf(ok), n, s) <==> |s| == n && forall k :: 0 <= k < n ==> ok(s[k])
  {
    if n > 0 {
      forall i | 0 <= i <= |s| { OneTimes(ok, n - 1, s[i..]); }
      if |s| == n && forall k :: 0 <= k < n ==> ok(s[k]) {
        assert Fits(OneOf(ok), s[..1]) && FitsTimes(OneOf(ok), n - 1, s[1..]);
      }
      if i :| 0 <= i <= |s| && Fits(OneOf(ok), s[..i]) && FitsTimes(OneOf(ok), n - 1, s[i..]) {
        assert i == 1 && s[0] == s[..1][0];
        forall k | 0 < k < n ensures ok(s[k]) { assert s[k] == s[1..][k - 1]; }
      }
    }
  }

  lemma Times(part: Pattern, min: nat, max: Option<nat>, s: string) returns (n: nat)
    requires Fits(Repeat(part, min, max), s)
    ensures min <= n && (max.Some? ==> n <= max.value) && FitsTimes(part, n, s)
  {
    n :| min <= n && (max.Some? ==> n <= max.value) && FitsTimes(part, n, s);
  }

  lemma OneRepeated(ok: char -> bool, min: nat, max: Option<nat>, s: string)
    ensures Fits(Repeat(OneOf(ok), min, max), s) <==>
              min <= |s| && (max.Some? ==> |s| <= max.value) && forall k :: 0 <= k < |s| ==> ok(s[k])
  {
    OneTimes(ok, |s|, s);
    if Fits(Repeat(OneOf(ok), min, max), s) {
      var n := Times(OneOf(ok), min, max, s);
      OneTimes(ok, n, s);
    }
  }

  lemma ThenOne(ok: char -> bool, p: Pattern, s: string)
    ensures Fits(Then(OneOf(ok), p), s) <==> s != "" && ok(s[0]) && Fits(p, s[1..])
  {
    if i :| 0 <= i <= |s| && Fits(OneOf(ok), s[..i]) && Fits(p, s[i..]) {
      assert i == 1 && s[0] == s[..1][0];
    }
    if s != "" && ok(s[0]) && Fits(p, s[1..]) { assert Fits(OneOf(ok), s[..1]); }
  }

  lemma SlashNameFits(s: string)
    ensures SlashName(s) <==> Fits(SlashNames, s)
  {
    OneRepeated(SlashChar, 1, Some(32), s);
  }

  lemma HandlerIdFits(s: string)
    ensures HandlerId(s) <==> Fits(HandlerIds, s)
  {
    ThenOne(LowerAlpha, Repeat(OneOf(IdChar), 0, Some(63)), s);
    if s != "" {
      OneRepeated(IdChar, 0, Some(63), s[1..]);
      AllFromSecond(s, IdChar);
    }
  }

  predicate PluginChar(c: char) { LowerAlpha(c) || Digit(c) || c == '-' }

  /** `[a-z][a-z0-9-]{0,63}` */
  const PluginIds := Then(OneOf(LowerAlpha), Repeat(OneOf(PluginChar), 0, Some(63)))

  /** Both kinds of ids in custom ids; the local one is a handler id. */
  lemma CustomIdsFit(s: string)
    ensures CustomId.ValidPluginId(s) <==> Fits(PluginIds, s)
    ensures CustomId.ValidLocalId(s) <==> Fits(HandlerIds, s)
  {
    ThenOne(LowerAlpha, Repeat(OneOf(PluginChar), 0, Some(63)), s);
    if s != "" {
      OneRepeated(PluginChar, 0, Some(63), s[1..]);
      AllFromSecond(s, PluginChar);
    }
    HandlerIdFits(s);
  }

  lemma AllFromSecond(s: string, ok: char -> bool)
    requires s != ""
    ensures (forall k :: 0 <= k < |s| ==> ok(s[k])) <==> ok(s[0]) && forall k :: 0 <= k < |s[1..]| ==> ok(s[1..][k])
  {
    if ok(s[0]) && forall k :: 0 <= k < |s[1..]| ==> ok(s[1..][k]) {
      forall k | 0 <= k < |s| ensures ok(s[k]) { if k > 0 { assert s[k] == s[1..][k - 1]; } }
    }
  }

  lemma SegmentFits(s: string)
    ensures RouteSegment(s) <==> Fits(Segments, s)
  {
    ThenOne(LowerOrDigit, Repeat(OneOf(IdChar), 0, None), s);
    if s != "" {
      OneRepeated(IdChar, 0, None, s[1..]);
      AllFromSecond(s, IdChar);
    }
  }

  lemma HeadFits(s: string)
    ensures Fits(Routes.first, s) <==> s != "" && LowerAlpha(s[0]) && forall k :: 0 <= k < |s| ==> LowerOrDigit(s[k])
  {
    ThenOne(LowerAlpha, Repeat(OneOf(LowerOrDigit), 0, None), s);
    if s != "" {
      OneRepeated(LowerOrDigit, 0, None, s[1..]);
      AllFromSecond(s, LowerOrDigit);
    }
  }

  /** The first part of a split, and the rest behind its separator. */
  lemma {:induction false} SplitHead(s: string, c: char)
    ensures var parts := Split(s, c);
            var i := |parts[0]|;
            && i <= |s| && s[..i] == parts[0] && c !in parts[0]
            && (|parts| == 1 <==> i == |s|)
            && (i < |s| ==> s[i] == c && Split(s[i + 1..], c) == parts[1..])
  {
    if s != "" && s[0] != c {
      SplitHead(s[1..], c);
      var parts, rest := Split(s, c), Split(s[1..], c);
      var i := |parts[0]|;
      assert s[..i] == [s[0]] + s[1..][..i - 1];
      if i < |s| { assert s[1..][i - 1 + 1..] == s[i + 1..]; }
    }
  }

  ghost predicate AllSegments(parts: seq<string>) { forall j :: 0 <= j < |parts| ==> RouteSegment(parts[j]) }

  /** A colon and segments between colons. */
  ghost predicate Tail(n: nat, s: string) {
    if n == 0 then s == ""
    else s != "" && s[0] == ':' && |Split(s[1..], ':')| == n && AllSegments(Split(s[1..], ':'))
  }

  /** A tail is a first segment behind a colon, and a tail with one segment less. */
  lemma TailCut(n: nat, s: string, i: nat)
    requires n > 0 && 0 < i <= |s| && s[0] == ':' && RouteSegment(s[1..i]) && Tail(n - 1, s[i..])
    ensures Tail(n, s)
  {
    var segment, rest := s[1..i], s[i..];
    assert ':' !in segment;
    if n == 1 {
      assert s[1..] == segment;
      SplitFree(segment, ':');
    } else {
      assert s[1..] == segment + [':'] + rest[1..];
      SplitOnce(segment, ':', rest[1..]);
    }
  }

  lemma {:induction false} TailFits(n: nat, s: string)
    ensures FitsTimes(Tails, n, s) <==> Tail(n, s)
  {
    if n > 0 {
      if i :| 0 <= i <= |s| && Fits(Tails, s[..i]) && FitsTimes(Tails, n - 1, s[i..]) {
        ThenOne(Colon, Segments, s[..i]);
        SegmentFits(s[..i][1..]);
        assert s[..i][1..] == s[1..i];
        TailFits(n - 1, s[i..]);
        TailCut(n, s, i);
      }
      if Tail(n, s) { TailMatches(n, s); }
    }
  }

  lemma {:induction false} TailMatches(n: nat, s: string)
    requires Tail(n, s)
    ensures FitsTimes(Tails, n, s)
  {
    if n > 0 {
      var parts := Split(s[1..], ':');
      SplitHead(s[1..], ':');
      var i := 1 + |parts[0]|;
      assert s[..i][1..] == s[1..][..i - 1] == parts[0];
      SegmentFits(parts[0]);
      ThenOne(Colon, Segments, s[..i]);
      if n > 1 { assert s[i..][1..] == s[1..][i - 1 + 1..] && s[i] == s[1..][i - 1]; }
      assert Tail(n - 1, s[i..]);
      TailMatches(n - 1, s[i..]);
    }
  }

  lemma ShapeMatches(s: string)
    requires RouteShape(s)
    ensures Fits(Routes, s)
  {
    var parts := Split(s, ':');
    SplitHead(s, ':');
    var i := |parts[0]|;
    HeadFits(parts[0]);
    assert s[i..][1..] == s[i + 1..];
    assert Tail(|parts| - 1, s[i..]);
    TailMatches(|parts| - 1, s[i..]);
    assert Fits(Routes.first, s[..i]) && Fits(Routes.second, s[i..]);
  }

  lemma CutHasShape(head: string, tail: string, n: nat)
    requires n >= 1 && Fits(Routes.first, head) && Tail(n, tail)
    ensures RouteShape(head + tail)
  {
    HeadFits(head);
    assert ':' !in head;
    assert head + tail == head + [':'] + tail[1..];
    SplitOnce(head, ':', tail[1..]);
    var rest := Split(tail[1..], ':');
    assert forall j :: 1 <= j <= |rest| ==> ([head] + rest)[j] == rest[j - 1];
  }

  /** Splitting at colons decides the route pattern. */
  lemma RouteShapeFits(s: string)
    ensures RouteShape(s) <==> Fits(Routes, s)
  {
    if RouteShape(s) { ShapeMatches(s); }
    if i :| 0 <= i <= |s| && Fits(Routes.first, s[..i]) && Fits(Routes.second, s[i..]) {
      var n := Times(Tails, 1, None, s[i..]);
      TailFits(n, s[i..]);
      CutHasShape(s[..i], s[i..], n);
      assert s == s[..i] + s[i..];
    }
  }
}
