/** `EmbedFieldChunked`: packs lines, in order, into embed fields of at most 1024 bytes. Lengths are
    UTF-8 bytes, so a text is a sequence of units: a rune, or a byte that decodes to none. */
module FieldChunker {
  import opened GoText

  const LIMIT: nat := 1024

  /** A stray byte is known by the rune it was cut from and its place there. */
  datatype Unit = Rune(c: char) | Stray(of: char, index: nat)

  type Text = seq<Unit>

  const NEWLINE := Rune('\n')
  const ELLIPSIS := Rune('\U{2026}')

  function Width(u: Unit): (w: nat)
    ensures 1 <= w <= 4
  {
    if u.Rune? then RuneBytes(u.c) else 1
  }

  /** `len`. */
  function Len(t: Text): nat { if t == [] then 0 else Width(t[0]) + Len(t[1..]) }

  function IsSpaceUnit(u: Unit): bool { u.Rune? && IsSpace(u.c) }

  /** The first `n` bytes of a rune. */
  function Strays(c: char, n: nat): Text { if n == 0 then [] else Strays(c, n - 1) + [Stray(c, n - 1)] }

  /** The first `n` bytes; a rune cut in two leaves stray bytes. */
  function Cut(t: Text, n: nat): Text {
    if n == 0 || t == [] then []
    else if Width(t[0]) <= n then [t[0]] + Cut(t[1..], n - Width(t[0]))
    else if t[0].Rune? then Strays(t[0].c, n) else []
  }

  function Truncated(line: Text): Text { Cut(line, LIMIT - 1) + [ELLIPSIS] }

  /** What a trimmed line contributes. */
  function Piece(line: Text): Text { if Len(line) > LIMIT then Truncated(line) else line }

  /** The trimmed lines that are not blank. */
  function Clean(lines: seq<Text>): seq<Text> {
    if lines == [] then []
    else
      var line := Trim(lines[|lines| - 1], IsSpaceUnit);
      if line == [] then Clean(lines[..|lines| - 1]) else Clean(lines[..|lines| - 1]) + [line]
  }

  function Pieces(lines: seq<Text>): seq<Text> {
    if lines == [] then []
    else
      var line := Trim(lines[|lines| - 1], IsSpaceUnit);
      if line == [] then Pieces(lines[..|lines| - 1]) else Pieces(lines[..|lines| - 1]) + [Piece(line)]
  }

  /** Lines joined by newlines. */
  function Joined(lines: seq<Text>): Text {
    if lines == [] then []
    else if |lines| == 1 then lines[0]
    else Joined(lines[..|lines| - 1]) + [NEWLINE] + lines[|lines| - 1]
  }

  function JoinedLen(lines: seq<Text>): nat {
    if lines == [] then 0
    else if |lines| == 1 then Len(lines[0])
    else JoinedLen(lines[..|lines| - 1]) + 1 + Len(lines[|lines| - 1])
  }

  // ----- The running state of the loop -----

  /** The groups flushed, the open group, and the length the loop believes it has. */
  datatype Packer = Packer(out: seq<seq<Text>>, cur: seq<Text>, curLen: nat)

  const Empty := Packer([], [], 0)

  /** One turn of the loop. What is added to `curLen` is settled before the flush and not after. */
  function Feed(s: Packer, raw: Text): Packer {
    var line := Trim(raw, IsSpaceUnit);
    if line == [] then s
    else
      var add := Len(line) + if s.curLen > 0 then 1 else 0;
      var ready := if s.curLen > 0 && s.curLen + add > LIMIT then Flush(s) else s;
      if Len(line) > LIMIT then Packer(ready.out, ready.cur + [Truncated(line)], ready.curLen + Len(Truncated(line)))
      else Packer(ready.out, ready.cur + [line], ready.curLen + add)
  }

  function Flush(s: Packer): Packer {
    if s.cur == [] then s else Packer(s.out + [s.cur], [], 0)
  }

  function FeedAll(lines: seq<Text>): Packer {
    if lines == [] then Empty else Feed(FeedAll(lines[..|lines| - 1]), lines[|lines| - 1])
  }

  function Chunks(lines: seq<Text>): seq<seq<Text>> { Flush(FeedAll(lines)).out }

  // ----- The source's methods -----

  datatype Field = Field(name: Text, value: Text, inline: bool)

  method JoinLines(lines: seq<Text>) returns (joined: Text)
    ensures joined == Joined(Clean(lines))
  {
    joined := [];
    for i := 0 to |lines|
      invariant joined == Joined(Clean(lines[..i]))
      invariant joined == [] <==> Clean(lines[..i]) == []
    {
      var line := Trim(lines[i], IsSpaceUnit);
      ghost var before := Clean(lines[..i]);
      assert lines[..i + 1][..i] == lines[..i];
      if line == [] { continue; }
      assert (before + [line])[..|before|] == before;
      if |joined| != 0 { joined := joined + [NEWLINE]; }
      joined := joined + line;
    }
    assert lines[..|lines|] == lines;
  }

  /** The closure that turns the open group into a field, if there is one. */
  method FlushField(title: Text, cur: seq<Text>, inline: bool, fields: seq<Field>) returns (flushed: seq<Field>)
    requires AllClean(cur)
    ensures flushed == if cur == [] then fields else fields + [Field(title, Joined(cur), inline)]
  {
    if |cur| == 0 { return fields; }
    var value := JoinLines(cur);
    CleanIsFixed(cur);
    return fields + [Field(title, value, inline)];
  }

  function FieldsOf(title: Text, groups: seq<seq<Text>>, inline: bool): seq<Field> {
    if groups == [] then []
    else FieldsOf(title, groups[..|groups| - 1], inline) + [Field(title, Joined(groups[|groups| - 1]), inline)]
  }

  lemma FieldsOfNext(title: Text, groups: seq<seq<Text>>, group: seq<Text>, inline: bool)
    ensures FieldsOf(title, groups + [group], inline) == FieldsOf(title, groups, inline) + [Field(title, Joined(group), inline)]
  {
    assert (groups + [group])[..|groups|] == groups;
  }

  method EmbedFieldChunked(name: Text, lines: seq<Text>, inline: bool) returns (fields: seq<Field>)
    ensures fields == FieldsOf(FieldName(name), Chunks(lines), inline)
  {
    var title := Trim(name, IsSpaceUnit);
    if title == [] { title := [Rune('\U{200B}')]; }
    fields := [];
    var cur: seq<Text>, curLen: nat := [], 0;
    ghost var s := Empty;
    for i := 0 to |lines|
      invariant s == FeedAll(lines[..i]) && cur == s.cur && curLen == s.curLen
      invariant fields == FieldsOf(title, s.out, inline)
    {
      assert lines[..i + 1][..i] == lines[..i];
      FedAccounts(lines[..i]);
      FedClean(lines[..i]);
      var line := Trim(lines[i], IsSpaceUnit);
      if line == [] { continue; }
      var add := Len(line);
      if curLen > 0 { add := add + 1; }
      if curLen > 0 && curLen + add > LIMIT {
        fields := FlushField(title, cur, inline, fields);
        FieldsOfNext(title, s.out, s.cur, inline);
        cur, curLen := [], 0;
      }
      if Len(line) > LIMIT {
        line := Cut(line, LIMIT - 1) + [ELLIPSIS];
        add := Len(line);
      }
      cur := cur + [line];
      curLen := curLen + add;
      s := Feed(s, lines[i]);
    }
    assert lines[..|lines|] == lines;
    FedClean(lines);
    FieldsOfNext(title, s.out, s.cur, inline);
    fields := FlushField(title, cur, inline, fields);
  }

  function FieldName(name: Text): Text {
    var title := Trim(name, IsSpaceUnit);
    if title == [] then [Rune('\U{200B}')] else title
  }

  // ----- Lengths -----

  lemma {:induction false} LenAppend(s: Text, t: Text)
    ensures Len(s + t) == Len(s) + Len(t)
  {
    if s == [] {
      assert s + t == t;
    } else {
      assert (s + t)[1..] == s[1..] + t;
      LenAppend(s[1..], t);
    }
  }

  lemma {:induction false} LenBoundsUnits(t: Text)
    ensures |t| <= Len(t)
  {
    if t != [] { LenBoundsUnits(t[1..]); }
  }

  lemma {:induction false} StraysLen(c: char, n: nat)
    ensures Len(Strays(c, n)) == n
  {
    if n > 0 {
      StraysLen(c, n - 1);
      LenAppend(Strays(c, n - 1), [Stray(c, n - 1)]);
      assert Len([Stray(c, n - 1)]) == 1 + Len([]);
    }
  }

  lemma {:induction false} CutLen(t: Text, n: nat)
    requires n <= Len(t)
    ensures Len(Cut(t, n)) == n
  {
    if n > 0 {
      if Width(t[0]) <= n {
        CutLen(t[1..], n - Width(t[0]));
        assert ([t[0]] + Cut(t[1..], n - Width(t[0])))[1..] == Cut(t[1..], n - Width(t[0]));
      } else {
        StraysLen(t[0].c, n);
      }
    }
  }

  /** A truncated line has 1026 bytes and at most 1024 characters. */
  lemma TruncatedSize(line: Text)
    requires Len(line) > LIMIT
    ensures Len(Truncated(line)) == LIMIT + 2 && |Truncated(line)| <= LIMIT
  {
    CutLen(line, LIMIT - 1);
    LenAppend(Cut(line, LIMIT - 1), [ELLIPSIS]);
    assert Len([ELLIPSIS]) == 3 + Len([]);
    LenBoundsUnits(Cut(line, LIMIT - 1));
  }

  lemma {:induction false} JoinedLenIsLen(lines: seq<Text>)
    ensures Len(Joined(lines)) == JoinedLen(lines)
  {
    if |lines| > 1 {
      var front, last := lines[..|lines| - 1], lines[|lines| - 1];
      JoinedLenIsLen(front);
      LenAppend(Joined(front) + [NEWLINE], last);
      LenAppend(Joined(front), [NEWLINE]);
      assert Len([NEWLINE]) == 1 + Len([]);
    }
  }

  // ----- Trimmed lines -----

  ghost predicate IsClean(line: Text) { line != [] && Trimmed(line, IsSpaceUnit) }

  ghost predicate AllClean(lines: seq<Text>) { forall i :: 0 <= i < |lines| ==> IsClean(lines[i]) }

  lemma TrimmedLine(raw: Text)
    ensures var line := Trim(raw, IsSpaceUnit); line != [] ==> IsClean(line) && Len(line) > 0
  {
    var _, _ := TrimSplits(raw, IsSpaceUnit);
  }

  lemma TruncatedIsClean(line: Text)
    requires IsClean(line) && Len(line) > LIMIT
    ensures IsClean(Truncated(line))
  {
    assert Truncated(line)[0] == line[0];
  }

  lemma {:induction false} FedClean(lines: seq<Text>)
    ensures AllClean(FeedAll(lines).cur)
  {
    if lines != [] {
      var before, raw := lines[..|lines| - 1], lines[|lines| - 1];
      var line := Trim(raw, IsSpaceUnit);
      FedClean(before);
      TrimmedLine(raw);
      if Len(line) > LIMIT { TruncatedIsClean(line); }
    }
  }

  lemma {:induction false} CleanIsFixed(lines: seq<Text>)
    requires AllClean(lines)
    ensures Clean(lines) == lines
  {
    if lines != [] {
      CleanIsFixed(lines[..|lines| - 1]);
      TrimmedIsFixed(lines[|lines| - 1], IsSpaceUnit);
    }
  }

  // ----- Packing -----

  predicate Fits(group: seq<Text>, cap: nat) { |group| == 1 || JoinedLen(group) <= cap }

  /** First-fit packing: a piece joins the open group while the group fits; `cap` bounds the open
      group and `later` those after it. */
  function Pack(pieces: seq<Text>, cur: seq<Text>, cap: nat, later: nat): seq<seq<Text>>
    decreases |pieces|
  {
    if pieces == [] then (if cur == [] then [] else [cur])
    else if cur == [] || Fits(cur + [pieces[0]], cap) then Pack(pieces[1..], cur + [pieces[0]], cap, later)
    else [cur] + Pack(pieces[1..], [pieces[0]], later, later)
  }

  function Flat(groups: seq<seq<Text>>): seq<Text> {
    if groups == [] then [] else groups[0] + Flat(groups[1..])
  }

  /** An order-preserving split of `pieces` into non-empty groups that are single or fit. */
  ghost predicate Splits(groups: seq<seq<Text>>, pieces: seq<Text>, cap: nat, later: nat) {
    Flat(groups) == pieces && AllFit(groups, cap, later)
  }

  ghost predicate AllFit(groups: seq<seq<Text>>, cap: nat, later: nat) {
    forall k :: 0 <= k < |groups| ==> groups[k] != [] && Fits(groups[k], if k == 0 then cap else later)
  }

  lemma JoinedLenGrows(cur: seq<Text>, piece: Text)
    requires cur != []
    ensures JoinedLen(cur + [piece]) == JoinedLen(cur) + 1 + Len(piece)
  {
    assert (cur + [piece])[..|cur|] == cur;
  }

  /** A run of lines within a group joins to no more than the group. */
  lemma {:induction false} PartIsShorter(lead: seq<Text>, part: seq<Text>, trail: seq<Text>)
    ensures JoinedLen(part) <= JoinedLen(lead + part + trail)
    decreases |lead| + |trail|, |part|
  {
    var all := lead + part + trail;
    if trail != [] {
      var front := trail[..|trail| - 1];
      assert all[..|all| - 1] == lead + part + front;
      PartIsShorter(lead, part, front);
    } else if lead != [] && part != [] {
      var front := part[..|part| - 1];
      assert all[..|all| - 1] == lead + front + [];
      PartIsShorter(lead, front, []);
    } else if lead == [] {
      assert all == part;
    }
  }

  lemma {:induction false} PackFits(pieces: seq<Text>, cur: seq<Text>, cap: nat, later: nat)
    requires cur != [] ==> Fits(cur, cap)
    ensures Splits(Pack(pieces, cur, cap, later), cur + pieces, cap, later)
    ensures cur != [] ==> Pack(pieces, cur, cap, later) != [] && cur <= Pack(pieces, cur, cap, later)[0]
    decreases |pieces|
  {
    if pieces == [] {
      assert cur + pieces == cur;
      if cur != [] { assert Flat([cur]) == cur + Flat([]); }
    } else if cur == [] || Fits(cur + [pieces[0]], cap) {
      assert cur + [pieces[0]] + pieces[1..] == cur + pieces;
      PackFits(pieces[1..], cur + [pieces[0]], cap, later);
    } else {
      PackFits(pieces[1..], [pieces[0]], later, later);
      var rest := Pack(pieces[1..], [pieces[0]], later, later);
      assert ([cur] + rest)[1..] == rest;
      assert [pieces[0]] + pieces[1..] == pieces;
      assert AllFit([cur] + rest, cap, later);
    }
  }

  /** No split needs fewer groups, even one that starts a group earlier, by `lead`. */
  lemma {:induction false} PackIsLeast(pieces: seq<Text>, cur: seq<Text>, cap: nat, later: nat, lead: seq<Text>, groups: seq<seq<Text>>)
    requires later <= cap && cur != []
    requires Splits(groups, lead + cur + pieces, cap, later)
    ensures |Pack(pieces, cur, cap, later)| <= |groups|
    decreases |pieces|
  {
    if pieces != [] {
      var p, rest := pieces[0], pieces[1..];
      assert lead + cur + pieces == lead + (cur + [p]) + rest;
      if Fits(cur + [p], cap) {
        PackIsLeast(rest, cur + [p], cap, later, lead, groups);
      } else {
        var first := groups[0];
        var all := lead + cur + pieces;
        assert all == first + Flat(groups[1..]);
        if |first| > |lead| + |cur| {
          assert first == all[..|first|];
          var trail := first[|lead| + |cur| + 1..];
          assert first == lead + (cur + [p]) + trail;
          PartIsShorter(lead, cur + [p], trail);
        }
        var lead' := (lead + cur)[|first|..];
        assert Flat(groups[1..]) == lead' + [p] + rest;
        assert AllFit(groups[1..], later, later);
        PackIsLeast(rest, [p], later, later, lead', groups[1..]);
      }
    }
  }

  // ----- The loop packs: 1024 bytes for the first field, 1023 for later ones of several lines -----

  /** The length the loop keeps is the joined length of the open group only while nothing was flushed,
      or the group is a truncated line: after a flush it is one more. */
  ghost predicate Accounted(s: Packer) {
    && (s.cur == [] <==> s.curLen == 0) && (s.cur == [] ==> s.out == [])
    && s.curLen == JoinedLen(s.cur) + (if s.out != [] && JoinedLen(s.cur) <= LIMIT then 1 else 0)
    && (JoinedLen(s.cur) > LIMIT ==> |s.cur| == 1)
  }

  function Cap(s: Packer): nat { if s.out == [] then LIMIT else LIMIT - 1 }

  /** The loop flushes exactly when the piece does not fit. */
  lemma FlushIffUnfit(s: Packer, line: Text)
    requires Accounted(s) && line != []
    ensures s.curLen > 0 && s.curLen + Len(line) + 1 > LIMIT <==> s.cur != [] && !Fits(s.cur + [Piece(line)], Cap(s))
  {
    if s.cur != [] {
      JoinedLenGrows(s.cur, Piece(line));
      if Len(line) > LIMIT { TruncatedSize(line); }
    }
  }

  /** What one turn of the loop does with a line that is not blank. */
  lemma FeedDoes(s: Packer, raw: Text)
    requires Accounted(s) && Trim(raw, IsSpaceUnit) != []
    ensures var piece := Piece(Trim(raw, IsSpaceUnit));
            if s.cur == [] || Fits(s.cur + [piece], Cap(s)) then Feed(s, raw).out == s.out && Feed(s, raw).cur == s.cur + [piece]
            else Feed(s, raw).out == s.out + [s.cur] && Feed(s, raw).cur == [piece]
  {
    FlushIffUnfit(s, Trim(raw, IsSpaceUnit));
  }

  lemma FeedAccounts(s: Packer, raw: Text)
    requires Accounted(s)
    ensures Accounted(Feed(s, raw))
  {
    var line := Trim(raw, IsSpaceUnit);
    if line != [] {
      TrimmedLine(raw);
      if s.cur != [] { JoinedLenGrows(s.cur, Piece(line)); }
      if Len(line) > LIMIT { TruncatedSize(line); }
    }
  }

  lemma {:induction false} FedAccounts(lines: seq<Text>)
    ensures Accounted(FeedAll(lines))
  {
    if lines != [] {
      FedAccounts(lines[..|lines| - 1]);
      FeedAccounts(FeedAll(lines[..|lines| - 1]), lines[|lines| - 1]);
    }
  }

  /** What the loop's state has of the lines: the open group ends with the last piece, and while all
      pieces fit one field it is all of them. */
  ghost predicate Traced(s: Packer, pieces: seq<Text>) {
    && (s.cur == [] <==> pieces == []) && (pieces != [] ==> s.cur[|s.cur| - 1] == pieces[|pieces| - 1])
    && (s.out == [] ==> s.cur == pieces) && (s.out == [] <==> Fits(pieces, LIMIT))
  }

  lemma {:induction false} FedTraced(lines: seq<Text>)
    ensures Traced(FeedAll(lines), Pieces(lines))
  {
    if lines != [] {
      var before, raw := lines[..|lines| - 1], lines[|lines| - 1];
      FedTraced(before);
      FedAccounts(before);
      if Trim(raw, IsSpaceUnit) != [] { FeedTraces(FeedAll(before), raw, Pieces(before)); }
    }
  }

  lemma FeedTraces(s: Packer, raw: Text, pieces: seq<Text>)
    requires Accounted(s) && Traced(s, pieces) && Trim(raw, IsSpaceUnit) != []
    ensures Traced(Feed(s, raw), pieces + [Piece(Trim(raw, IsSpaceUnit))])
  {
    var piece := Piece(Trim(raw, IsSpaceUnit));
    FeedDoes(s, raw);
    if pieces == [] { assert pieces + [piece] == [piece]; } else { JoinedLenGrows(pieces, piece); }
    if s.cur != [] { JoinedLenGrows(s.cur, piece); }
  }

  /** So the kept length is the joined length exactly while all lines so far fit one field, or when the
      last was truncated. */
  lemma RunningLengthIff(lines: seq<Text>)
    ensures var s, pieces := FeedAll(lines), Pieces(lines);
            s.curLen == JoinedLen(s.cur) <==>
              Fits(pieces, LIMIT) || (pieces != [] && Len(pieces[|pieces| - 1]) > LIMIT)
  {
    FedAccounts(lines);
    FedTraced(lines);
  }

  /** Where packing stands once the loop is in state `s`, with pieces still to come. */
  ghost function Continued(s: Packer, more: seq<Text>): seq<seq<Text>> { s.out + Pack(more, s.cur, Cap(s), LIMIT - 1) }

  lemma {:induction false} FeedsPack(lines: seq<Text>, more: seq<Text>)
    ensures Pack(Pieces(lines) + more, [], LIMIT, LIMIT - 1) == Continued(FeedAll(lines), more)
  {
    if lines == [] {
      assert Pieces(lines) + more == more;
    } else {
      var before, raw := lines[..|lines| - 1], lines[|lines| - 1];
      var line := Trim(raw, IsSpaceUnit);
      FedAccounts(before);
      if line == [] {
        FeedsPack(before, more);
      } else {
        var next := [Piece(line)] + more;
        assert Pieces(lines) + more == Pieces(before) + next;
        FeedsPack(before, next);
        FeedPacks(FeedAll(before), raw, more);
      }
    }
  }

  /** One turn of the loop is one step of packing. */
  lemma FeedPacks(s: Packer, raw: Text, more: seq<Text>)
    requires Accounted(s) && Trim(raw, IsSpaceUnit) != []
    ensures Continued(s, [Piece(Trim(raw, IsSpaceUnit))] + more) == Continued(Feed(s, raw), more)
  {
    var piece, s' := Piece(Trim(raw, IsSpaceUnit)), Feed(s, raw);
    FeedDoes(s, raw);
    ContinuedStep(s, s', piece, more);
  }

  lemma ContinuedStep(s: Packer, s': Packer, piece: Text, more: seq<Text>)
    requires if s.cur == [] || Fits(s.cur + [piece], Cap(s)) then s'.out == s.out && s'.cur == s.cur + [piece]
             else s'.out == s.out + [s.cur] && s'.cur == [piece]
    ensures Continued(s, [piece] + more) == Continued(s', more)
  {
    PackStep(piece, more, s.cur, Cap(s), LIMIT - 1);
    var rest := Pack(more, [piece], LIMIT - 1, LIMIT - 1);
    assert s.out + ([s.cur] + rest) == (s.out + [s.cur]) + rest;
  }

  lemma PackStep(piece: Text, more: seq<Text>, cur: seq<Text>, cap: nat, later: nat)
    ensures Pack([piece] + more, cur, cap, later) ==
            if cur == [] || Fits(cur + [piece], cap) then Pack(more, cur + [piece], cap, later)
            else [cur] + Pack(more, [piece], later, later)
  {
    assert ([piece] + more)[1..] == more;
  }

  lemma ChunksPack(lines: seq<Text>)
    ensures Chunks(lines) == Pack(Pieces(lines), [], LIMIT, LIMIT - 1)
  {
    FeedsPack(lines, []);
    FedAccounts(lines);
    assert Pieces(lines) + [] == Pieces(lines);
  }

  // ----- The main results -----

  /** The fields hold the trimmed non-blank lines in order, over-long ones truncated, and joining
      their values by newlines joins those lines. */
  lemma ContentKept(lines: seq<Text>)
    ensures Flat(Chunks(lines)) == Pieces(lines)
    ensures Joined(Values(Chunks(lines))) == Joined(Pieces(lines))
  {
    ChunksPack(lines);
    PackFits(Pieces(lines), [], LIMIT, LIMIT - 1);
    JoinedFlat(Chunks(lines));
  }

  function Values(groups: seq<seq<Text>>): seq<Text> {
    seq(|groups|, i requires 0 <= i < |groups| => Joined(groups[i]))
  }

  lemma {:induction false} JoinedAppend(a: seq<Text>, b: seq<Text>)
    requires a != [] && b != []
    ensures Joined(a + b) == Joined(a) + [NEWLINE] + Joined(b)
    decreases |b|
  {
    var front, last := b[..|b| - 1], b[|b| - 1];
    assert (a + b)[..|a + b| - 1] == a + front;
    if front == [] {
      assert a + front == a;
    } else {
      JoinedAppend(a, front);
    }
  }

  lemma {:induction false} JoinedFlat(groups: seq<seq<Text>>)
    requires forall k :: 0 <= k < |groups| ==> groups[k] != []
    ensures Joined(Values(groups)) == Joined(Flat(groups))
    ensures groups != [] ==> Flat(groups) != []
  {
    if |groups| == 1 {
      assert Flat(groups) == groups[0] + Flat(groups[1..]) == groups[0];
    } else if |groups| > 1 {
      JoinedFlat(groups[1..]);
      assert Values(groups) == [Joined(groups[0])] + Values(groups[1..]);
      JoinedAppend([Joined(groups[0])], Values(groups[1..]));
      JoinedAppend(groups[0], Flat(groups[1..]));
    }
  }

  /** Each value has at most 1024 bytes, but for a truncated line standing alone, which has 1026; none
      has more than 1024 characters. */
  lemma ValueSizes(lines: seq<Text>, i: nat)
    requires i < |Chunks(lines)|
    ensures var group := Chunks(lines)[i];
            && |Joined(group)| <= LIMIT
            && (Len(Joined(group)) <= LIMIT || (Len(Joined(group)) == LIMIT + 2 && exists line :: Len(line) > LIMIT && group == [Truncated(line)]))
  {
    var group := Chunks(lines)[i];
    ChunksPack(lines);
    PackFits(Pieces(lines), [], LIMIT, LIMIT - 1);
    JoinedLenIsLen(group);
    LenBoundsUnits(Joined(group));
    if JoinedLen(group) > LIMIT {
      InFlat(Chunks(lines), i);
      assert group[0] in group;
      var line := PieceOfLine(lines, group[0]);
      assert group == [group[0]];
      TruncatedSize(line);
    }
  }

  lemma {:induction false} InFlat(groups: seq<seq<Text>>, i: nat)
    requires i < |groups|
    ensures forall t :: t in groups[i] ==> t in Flat(groups)
  {
    if i > 0 { InFlat(groups[1..], i - 1); }
  }

  lemma {:induction false} PieceOfLine(lines: seq<Text>, piece: Text) returns (line: Text)
    requires piece in Pieces(lines)
    ensures piece == Piece(line)
  {
    var before := lines[..|lines| - 1];
    if piece in Pieces(before) {
      line := PieceOfLine(before, piece);
    } else {
      line := Trim(lines[|lines| - 1], IsSpaceUnit);
    }
  }

  /** The fewest fields for groups of 1024 bytes. */
  function Ideal(lines: seq<Text>): seq<seq<Text>> { Pack(Pieces(lines), [], LIMIT, LIMIT) }

  lemma {:induction false} PackLeastFromStart(pieces: seq<Text>, cap: nat, later: nat, groups: seq<seq<Text>>)
    requires later <= cap && Splits(groups, pieces, cap, later)
    ensures |Pack(pieces, [], cap, later)| <= |groups|
  {
    if pieces != [] {
      var first: seq<Text> := [pieces[0]];
      assert [] + first == first && first + pieces[1..] == pieces;
      PackIsLeast(pieces[1..], [pieces[0]], cap, later, [], groups);
    }
  }

  /** The number of fields is the least of any order-preserving split whose groups are single lines or
      fit in 1024 bytes, the first, and 1023 bytes, the others. */
  lemma LeastWithSpareByte(lines: seq<Text>, groups: seq<seq<Text>>)
    requires Splits(groups, Pieces(lines), LIMIT, LIMIT - 1)
    ensures |Chunks(lines)| <= |groups|
  {
    ChunksPack(lines);
    PackLeastFromStart(Pieces(lines), LIMIT, LIMIT - 1, groups);
  }

  /** `Ideal` is what its name says. */
  lemma IdealIsLeast(lines: seq<Text>, groups: seq<seq<Text>>)
    requires Splits(groups, Pieces(lines), LIMIT, LIMIT)
    ensures Splits(Ideal(lines), Pieces(lines), LIMIT, LIMIT) && |Ideal(lines)| <= |groups|
  {
    PackFits(Pieces(lines), [], LIMIT, LIMIT);
    PackLeastFromStart(Pieces(lines), LIMIT, LIMIT, groups);
  }

  /** Some split into as few groups leaves a byte spare in every later group of several lines. */
  ghost predicate SomeBestSplitHasSpare(lines: seq<Text>) {
    exists groups :: Splits(groups, Pieces(lines), LIMIT, LIMIT - 1) && |groups| == |Ideal(lines)|
  }

  /** The number of fields is the least for the full 1024 bytes exactly when some least split leaves
      that byte spare. */
  lemma LeastIff(lines: seq<Text>)
    ensures |Ideal(lines)| <= |Chunks(lines)|
    ensures |Chunks(lines)| == |Ideal(lines)| <==> SomeBestSplitHasSpare(lines)
  {
    ChunksPack(lines);
    PackFits(Pieces(lines), [], LIMIT, LIMIT - 1);
    IdealIsLeast(lines, Chunks(lines));
    if SomeBestSplitHasSpare(lines) {
      var groups :| Splits(groups, Pieces(lines), LIMIT, LIMIT - 1) && |groups| == |Ideal(lines)|;
      LeastWithSpareByte(lines, groups);
    } else {
      assert Splits(Chunks(lines), Pieces(lines), LIMIT, LIMIT - 1);
    }
  }

  /** Where packing to `later` never fills that last byte, a cap one lower changes nothing. */
  lemma {:induction false} SpareChangesNothing(pieces: seq<Text>, cur: seq<Text>, cap: nat, later: nat, tight: nat)
    requires cur != [] && Fits(cur, cap) && later > 0
    requires tight == cap || tight == cap - 1
    requires AllFit(Pack(pieces, cur, cap, later), tight, later - 1)
    ensures Pack(pieces, cur, tight, later - 1) == Pack(pieces, cur, cap, later)
    decreases |pieces|
  {
    if pieces != [] {
      var p, rest := pieces[0], pieces[1..];
      if Fits(cur + [p], cap) {
        PackFits(rest, cur + [p], cap, later);
        var group := Pack(rest, cur + [p], cap, later)[0];
        assert group == [] + (cur + [p]) + group[|cur| + 1..];
        PartIsShorter([], cur + [p], group[|cur| + 1..]);
        SpareChangesNothing(rest, cur + [p], cap, later, tight);
      } else {
        var after := Pack(rest, [p], later, later);
        assert ([cur] + after)[1..] == after;
        assert AllFit(after, later - 1, later - 1);
        SpareChangesNothing(rest, [p], later, later, later - 1);
      }
    }
  }

  /** The fields are those of the ideal packing exactly when no later ideal field of several lines has
      all its 1024 bytes. */
  lemma IdealIff(lines: seq<Text>)
    ensures Chunks(lines) == Ideal(lines) <==>
              forall k :: 1 <= k < |Ideal(lines)| && |Ideal(lines)[k]| > 1 ==> JoinedLen(Ideal(lines)[k]) != LIMIT
  {
    var pieces := Pieces(lines);
    ChunksPack(lines);
    PackFits(pieces, [], LIMIT, LIMIT - 1);
    PackFits(pieces, [], LIMIT, LIMIT);
    if (forall k :: 1 <= k < |Ideal(lines)| && |Ideal(lines)[k]| > 1 ==> JoinedLen(Ideal(lines)[k]) != LIMIT) && pieces != [] {
      assert [] + [pieces[0]] == [pieces[0]];
      SpareChangesNothing(pieces[1..], [pieces[0]], LIMIT, LIMIT, LIMIT);
    }
  }

  /** Then there are as few fields as any order-preserving split can have. */
  lemma LeastUnlessFull(lines: seq<Text>, groups: seq<seq<Text>>)
    requires Splits(groups, Pieces(lines), LIMIT, LIMIT)
    requires forall k :: 1 <= k < |Ideal(lines)| && |Ideal(lines)[k]| > 1 ==> JoinedLen(Ideal(lines)[k]) != LIMIT
    ensures |Chunks(lines)| <= |groups|
  {
    IdealIff(lines);
    IdealIsLeast(lines, groups);
  }

  // ----- A case where a field too many is made -----

  function Run(n: nat): Text { seq(n, i => Rune('a')) }

  lemma {:induction false} RunIsClean(n: nat)
    ensures Len(Run(n)) == n && Trim(Run(n), IsSpaceUnit) == Run(n)
  {
    if n > 0 {
      assert Run(n)[1..] == Run(n - 1);
      RunIsClean(n - 1);
    }
    TrimmedIsFixed(Run(n), IsSpaceUnit);
  }

  /** Lines of 1024, 500 and 523 bytes fit in two fields of 1024 bytes; three are made, as the length
      kept for the second group is one more than its joined length. */
  lemma OneFieldTooMany()
    ensures var lines := [Run(1024), Run(500), Run(523)];
            && FeedAll(lines[..2]).curLen == JoinedLen(FeedAll(lines[..2]).cur) + 1
            && |Chunks(lines)| == 3 && Splits([[lines[0]], [lines[1], lines[2]]], Pieces(lines), LIMIT, LIMIT)
  {
    RunIsClean(1024);
    RunIsClean(500);
    RunIsClean(523);
    ThreeFields(Run(1024), Run(500), Run(523));
    TwoFields(Run(1024), Run(500), Run(523));
  }

  ghost predicate IsLine(line: Text, n: nat) { Trim(line, IsSpaceUnit) == line && Len(line) == n > 0 }

  lemma ThreeFields(a: Text, b: Text, c: Text)
    requires IsLine(a, 1024) && IsLine(b, 500) && IsLine(c, 523)
    ensures FeedAll([a, b, c][..2]) == Packer([[a]], [b], 501)
    ensures Chunks([a, b, c]) == [[a], [b], [c]]
  {
    assert Feed(Empty, a) == Packer([], [a], 1024);
    assert Feed(Packer([], [a], 1024), b) == Packer([[a]], [b], 501);
    assert Feed(Packer([[a]], [b], 501), c) == Packer([[a], [b]], [c], 524);
    FeedThree(a, b, c);
  }

  lemma FeedThree(a: Text, b: Text, c: Text)
    ensures FeedAll([a, b, c][..2]) == Feed(Feed(Empty, a), b)
    ensures FeedAll([a, b, c]) == Feed(Feed(Feed(Empty, a), b), c)
  {
    assert [a, b, c][..2] == [a, b] && [a, b][..1] == [a] && [a][..0] == [];
    assert FeedAll([a]) == Feed(Empty, a);
    assert FeedAll([a, b]) == Feed(FeedAll([a]), b);
  }

  lemma ThreePieces(a: Text, b: Text, c: Text)
    requires IsLine(a, 1024) && IsLine(b, 500) && IsLine(c, 523)
    ensures Pieces([a, b, c]) == [a, b, c]
  {
    assert [] + [a] == [a] && [a] + [b] == [a, b] && [a, b] + [c] == [a, b, c];
    PiecesNext([], a);
    PiecesNext([a], b);
    PiecesNext([a, b], c);
  }

  lemma PiecesNext(lines: seq<Text>, line: Text)
    requires Trim(line, IsSpaceUnit) == line && 0 < Len(line) <= LIMIT
    ensures Pieces(lines + [line]) == Pieces(lines) + [line]
  {
    assert (lines + [line])[..|lines|] == lines;
    assert Piece(line) == line;
  }

  lemma TwoFields(a: Text, b: Text, c: Text)
    requires IsLine(a, 1024) && IsLine(b, 500) && IsLine(c, 523)
    ensures Splits([[a], [b, c]], Pieces([a, b, c]), LIMIT, LIMIT) && JoinedLen([b]) == 500
  {
    var lines := [a, b, c];
    ThreePieces(a, b, c);
    var groups := [[a], [b, c]];
    assert groups[1..] == [[b, c]] && [[b, c]][1..] == [];
    assert Flat([[b, c]]) == [b, c] + Flat([]);
    assert [b] + [c] == [b, c];
    JoinedLenGrows([b], c);
  }
}
