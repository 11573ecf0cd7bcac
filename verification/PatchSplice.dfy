/** Applying located replacements by splicing from back to front
    (src/agents/apply-patch-update.ts), and when that is one simultaneous substitution. */
module PatchSplice {
  import opened Common
  import opened Text
  import opened PatchUpdate

  type Lns = seq<string>

  // ----- splicing -----

  /** Remove up to `oldLen` lines at `start`; a start past the end removes nothing. */
  function Cut(lines: Lns, r: Replacement): Lns {
    if r.start < |lines| then lines[..r.start] + lines[Min(EndOf(r), |lines|)..] else lines
  }

  /** Put lines in at `at`; past the end means at the end. */
  function PutIn(lines: Lns, at: nat, newLines: Lns): Lns {
    lines[..Min(at, |lines|)] + newLines + lines[Min(at, |lines|)..]
  }

  function Splice(lines: Lns, r: Replacement): Lns {
    PutIn(Cut(lines, r), r.start, r.newLines)
  }

  /** The replacements applied one after the other, the last one first. */
  function SpliceAll(lines: Lns, rs: seq<Replacement>): Lns {
    if rs == [] then lines else Splice(SpliceAll(lines, rs[1..]), rs[0])
  }

  method RemoveOldLines(lines: Lns, r: Replacement) returns (result: Lns)
    ensures result == Cut(lines, r)
  {
    result := lines;
    for i := 0 to r.oldLen
      invariant result == if r.start < |lines| then lines[..r.start] + lines[Min(r.start + i, |lines|)..] else lines
    {
      if r.start < |result| {
        result := result[..r.start] + result[r.start + 1..];
      }
    }
  }

  method InsertNewLines(lines: Lns, r: Replacement) returns (result: Lns)
    ensures result == PutIn(lines, r.start, r.newLines)
  {
    result := lines;
    ghost var at := Min(r.start, |lines|);
    for i := 0 to |r.newLines|
      invariant result == lines[..at] + r.newLines[..i] + lines[at..]
    {
      assert r.newLines[..i + 1] == r.newLines[..i] + [r.newLines[i]];
      result := PutIn(result, r.start + i, [r.newLines[i]]);
    }
    assert r.newLines[..|r.newLines|] == r.newLines;
  }

  method ApplyReplacements(lines: Lns, replacements: seq<Replacement>) returns (result: Lns)
    ensures result == SpliceAll(lines, replacements)
  {
    result := lines;
    assert replacements[|replacements|..] == [];
    for k := |replacements| downto 0
      invariant result == SpliceAll(lines, replacements[k..])
    {
      assert replacements[k..][0] == replacements[k] && replacements[k..][1..] == replacements[k + 1..];
      result := RemoveOldLines(result, replacements[k]);
      result := InsertNewLines(result, replacements[k]);
    }
    assert replacements[0..] == replacements;
  }

  // ----- simultaneous substitution -----

  /** In bounds, in order and not overlapping. */
  ghost predicate Apart(rs: seq<Replacement>, from: nat, length: nat) {
    && (forall i :: 0 <= i < |rs| ==> from <= rs[i].start && EndOf(rs[i]) <= length)
    && (forall i, j :: 0 <= i < j < |rs| ==> EndOf(rs[i]) <= rs[j].start)
  }

  /** Read the old lines from `from` on once, left to right, with each replaced stretch swapped for its new lines. */
  function Substitute(lines: Lns, rs: seq<Replacement>, from: nat): Lns
    requires from <= |lines| && Apart(rs, from, |lines|)
    decreases |rs|
  {
    if rs == [] then lines[from..]
    else lines[from..rs[0].start] + rs[0].newLines + Substitute(lines, rs[1..], EndOf(rs[0]))
  }

  lemma ApartRest(rs: seq<Replacement>, from: nat, length: nat)
    requires Apart(rs, from, length) && rs != []
    ensures from <= rs[0].start && EndOf(rs[0]) <= length && Apart(rs[1..], EndOf(rs[0]), length)
  {
    forall i | 0 <= i < |rs[1..]| ensures EndOf(rs[0]) <= rs[1..][i].start {
      assert rs[1..][i] == rs[i + 1];
    }
  }

  lemma {:induction false} SplicingFrom(lines: Lns, rs: seq<Replacement>, from: nat)
    requires from <= |lines| && Apart(rs, from, |lines|)
    ensures SpliceAll(lines, rs) == lines[..from] + Substitute(lines, rs, from)
    decreases |rs|
  {
    hide Apart, Splice;
    if rs == [] {
      assert lines == lines[..from] + lines[from..];
    } else {
      var r := rs[0];
      ApartRest(rs, from, |lines|);
      SplicingFrom(lines, rs[1..], EndOf(r));
      var tail := Substitute(lines, rs[1..], EndOf(r));
      var spliced := lines[..EndOf(r)] + tail;
      SpliceInFront(lines[..EndOf(r)], tail, r);
      Regroup(lines, from, r, tail);
    }
  }

  lemma Regroup(lines: Lns, from: nat, r: Replacement, tail: Lns)
    requires from <= r.start && EndOf(r) <= |lines|
    ensures lines[..EndOf(r)][..r.start] + r.newLines + tail
            == lines[..from] + (lines[from..r.start] + r.newLines + tail)
  {
    assert lines[..EndOf(r)][..r.start] == lines[..from] + lines[from..r.start];
  }

  lemma SpliceInFront(head: Lns, tail: Lns, r: Replacement)
    requires EndOf(r) == |head|
    ensures Splice(head + tail, r) == head[..r.start] + r.newLines + tail
  {
    var all := head + tail;
    var cut := head[..r.start] + tail;
    if r.start < |all| {
      assert all[..r.start] == head[..r.start] && all[EndOf(r)..] == tail;
    } else {
      assert all == cut;
    }
    assert cut[..r.start] == head[..r.start] && cut[r.start..] == tail;
  }

  /** Splicing from back to front is one simultaneous substitution when the replacements are apart. */
  lemma SplicingIsSubstitution(lines: Lns, rs: seq<Replacement>)
    requires Apart(rs, 0, |lines|)
    ensures SpliceAll(lines, rs) == Substitute(lines, rs, 0)
  {
    SplicingFrom(lines, rs, 0);
    assert lines[..0] + Substitute(lines, rs, 0) == Substitute(lines, rs, 0);
  }

  /** The replacements that take the new lines back out and put the old ones in; `shift` is how far
      earlier replacements have moved the text. */
  function Inverse(lines: Lns, rs: seq<Replacement>, from: nat, at: nat): seq<Replacement>
    requires from <= |lines| && Apart(rs, from, |lines|)
    decreases |rs|
  {
    if rs == [] then []
    else
      var r := rs[0];
      var start := at + (r.start - from);
      ApartRest(rs, from, |lines|);
      [Replacement(start, |r.newLines|, lines[r.start..EndOf(r)])]
      + Inverse(lines, rs[1..], EndOf(r), start + |r.newLines|)
  }

  lemma {:induction false} InverseIsApart(lines: Lns, rs: seq<Replacement>, from: nat, at: nat)
    requires from <= |lines| && Apart(rs, from, |lines|)
    ensures Apart(Inverse(lines, rs, from, at), at, at + |Substitute(lines, rs, from)|)
    decreases |rs|
  {
    if rs != [] {
      var r := rs[0];
      ApartRest(rs, from, |lines|);
      var start := at + (r.start - from);
      InverseIsApart(lines, rs[1..], EndOf(r), start + |r.newLines|);
      var rest := Inverse(lines, rs[1..], EndOf(r), start + |r.newLines|);
      var all := Inverse(lines, rs, from, at);
      assert all[0] == Replacement(start, |r.newLines|, lines[r.start..EndOf(r)]);
      assert forall i :: 1 <= i < |all| ==> all[i] == rest[i - 1];
    }
  }

  lemma TailsOf(out: Lns, at: nat, before: Lns, middle: Lns, tail: Lns)
    requires at <= |out| && out[at..] == before + middle + tail
    ensures |out| == at + |before| + |middle| + |tail|
    ensures out[at..at + |before|] == before && out[at + |before| + |middle|..] == tail
  {
    assert out[at..at + |before|] == out[at..][..|before|];
    assert out[at + |before| + |middle|..] == out[at..][|before| + |middle|..];
  }

  lemma {:induction false} InverseUndoesFrom(lines: Lns, rs: seq<Replacement>, from: nat, out: Lns, at: nat)
    requires from <= |lines| && Apart(rs, from, |lines|)
    requires at <= |out| && out[at..] == Substitute(lines, rs, from)
    ensures var inverse := Inverse(lines, rs, from, at);
            Apart(inverse, at, |out|) && Substitute(out, inverse, at) == lines[from..]
    decreases |rs|
  {
    hide Apart, Inverse, Substitute;
    InverseIsApart(lines, rs, from, at);
    if rs == [] {
      NothingSubstituted(lines, rs, from, at);
      NothingSubstituted(out, [], at, at);
    } else {
      var r := rs[0];
      ApartRest(rs, from, |lines|);
      var start := at + (r.start - from);
      var next := start + |r.newLines|;
      SubstituteStep(lines, rs, from);
      InverseStep(lines, rs, from, at);
      TailsOf(out, at, lines[from..r.start], r.newLines, Substitute(lines, rs[1..], EndOf(r)));
      InverseUndoesFrom(lines, rs[1..], EndOf(r), out, next);
      SubstituteStep(out, Inverse(lines, rs, from, at), at);
      Regrouped(lines, from, r);
    }
  }

  lemma NothingSubstituted(lines: Lns, rs: seq<Replacement>, from: nat, at: nat)
    requires rs == [] && from <= |lines| && Apart(rs, from, |lines|)
    ensures Substitute(lines, rs, from) == lines[from..] && Inverse(lines, rs, from, at) == []
  {
  }

  lemma SubstituteStep(lines: Lns, rs: seq<Replacement>, from: nat)
    requires rs != [] && from <= |lines| && Apart(rs, from, |lines|)
    ensures from <= rs[0].start && EndOf(rs[0]) <= |lines| && Apart(rs[1..], EndOf(rs[0]), |lines|)
    ensures Substitute(lines, rs, from)
            == lines[from..rs[0].start] + rs[0].newLines + Substitute(lines, rs[1..], EndOf(rs[0]))
  {
    hide Apart;
    ApartRest(rs, from, |lines|);
  }

  lemma InverseStep(lines: Lns, rs: seq<Replacement>, from: nat, at: nat)
    requires rs != [] && from <= |lines| && Apart(rs, from, |lines|)
    ensures from <= rs[0].start && EndOf(rs[0]) <= |lines| && Apart(rs[1..], EndOf(rs[0]), |lines|)
    ensures var r, inverse := rs[0], Inverse(lines, rs, from, at);
            var start := at + (r.start - from);
            && inverse != [] && inverse[0] == Replacement(start, |r.newLines|, lines[r.start..EndOf(r)])
            && inverse[1..] == Inverse(lines, rs[1..], EndOf(r), start + |r.newLines|)
  {
    hide Apart;
    ApartRest(rs, from, |lines|);
  }

  lemma Regrouped(lines: Lns, from: nat, r: Replacement)
    requires from <= r.start && EndOf(r) <= |lines|
    ensures lines[from..] == lines[from..r.start] + lines[r.start..EndOf(r)] + lines[EndOf(r)..]
  {
  }

  /** Applying the inverse replacements to the result restores the original lines. */
  lemma InverseRestores(lines: Lns, rs: seq<Replacement>)
    requires Apart(rs, 0, |lines|)
    ensures SpliceAll(SpliceAll(lines, rs), Inverse(lines, rs, 0, 0)) == lines
  {
    SplicingIsSubstitution(lines, rs);
    var out := SpliceAll(lines, rs);
    assert out[0..] == Substitute(lines, rs, 0);
    InverseUndoesFrom(lines, rs, 0, out, 0);
    SplicingIsSubstitution(out, Inverse(lines, rs, 0, 0));
    assert lines[0..] == lines;
  }

  // ----- which chunks give replacements that are apart -----

  /** `b`, pushed after `a`, lies wholly after it, or starts earlier and lies wholly before it. */
  predicate Compatible(a: Replacement, b: Replacement) {
    EndOf(a) <= b.start || (b.start < a.start && EndOf(b) <= a.start)
  }

  lemma {:induction false} InsertKeepsApart(sorted: seq<Replacement>, r: Replacement, length: nat)
    requires Apart(sorted, 0, length) && EndOf(r) <= length
    requires forall i :: 0 <= i < |sorted| ==> Compatible(sorted[i], r)
    ensures Apart(InsertByStart(sorted, r), 0, length)
    ensures forall x :: x in InsertByStart(sorted, r) <==> x in sorted || x == r
  {
    hide Apart, Compatible;
    var n := |sorted| - 1;
    if sorted == [] || sorted[n].start <= r.start {
      AppendKeepsApart(sorted, r, length);
    } else {
      var front := sorted[..n];
      var last := sorted[n];
      assert sorted == front + [last];
      ApartFront(front, last, length);
      assert forall i :: 0 <= i < n ==> Compatible(front[i], r) by {
        assert forall i :: 0 <= i < n ==> front[i] == sorted[i];
      }
      InsertKeepsApart(front, r, length);
      assert EndOf(r) <= last.start by {
        assert Compatible(last, r);
        LaterStartsAfter(last, r);
      }
      AppendKeepsApartAll(InsertByStart(front, r), front, r, last, length);
      assert forall x :: x in sorted <==> x in front || x == last;
    }
  }

  lemma LaterStartsAfter(a: Replacement, b: Replacement)
    requires Compatible(a, b) && a.start > b.start
    ensures EndOf(b) <= a.start
  {
  }

  lemma AppendKeepsApart(sorted: seq<Replacement>, r: Replacement, length: nat)
    requires Apart(sorted, 0, length) && EndOf(r) <= length
    requires forall i :: 0 <= i < |sorted| ==> Compatible(sorted[i], r)
    requires sorted == [] || sorted[|sorted| - 1].start <= r.start
    ensures Apart(sorted + [r], 0, length)
  {
    var n := |sorted| - 1;
    forall i | 0 <= i < |sorted| ensures EndOf(sorted[i]) <= r.start {
      assert i < n ==> EndOf(sorted[i]) <= sorted[n].start;
    }
  }

  lemma ApartFront(front: seq<Replacement>, last: Replacement, length: nat)
    requires Apart(front + [last], 0, length)
    ensures Apart(front, 0, length) && EndOf(last) <= length
    ensures forall x :: x in front ==> EndOf(x) <= last.start
  {
    var all := front + [last];
    forall x | x in front ensures EndOf(x) <= last.start {
      var k :| 0 <= k < |front| && front[k] == x;
      assert all[k] == x && all[|front|] == last;
    }
    assert forall i :: 0 <= i < |front| ==> all[i] == front[i];
    assert all[|front|] == last;
  }

  lemma AppendKeepsApartAll(inner: seq<Replacement>, front: seq<Replacement>, r: Replacement, last: Replacement,
      length: nat)
    requires Apart(inner, 0, length) && (forall x :: x in inner <==> x in front || x == r)
    requires EndOf(r) <= last.start && EndOf(last) <= length && forall x :: x in front ==> EndOf(x) <= last.start
    ensures Apart(inner + [last], 0, length)
  {
    forall i | 0 <= i < |inner| ensures EndOf(inner[i]) <= last.start {
      assert inner[i] in inner;
    }
  }

  lemma {:induction false} SortKeepsApart(rs: seq<Replacement>, length: nat)
    requires forall i :: 0 <= i < |rs| ==> EndOf(rs[i]) <= length
    requires forall i, j :: 0 <= i < j < |rs| ==> Compatible(rs[i], rs[j])
    ensures Apart(SortByStart(rs), 0, length)
    ensures forall x :: x in SortByStart(rs) <==> x in rs
  {
    if rs != [] {
      var n := |rs| - 1;
      SortKeepsApart(rs[..n], length);
      var sorted := SortByStart(rs[..n]);
      forall i | 0 <= i < |sorted| ensures Compatible(sorted[i], rs[n]) {
        assert sorted[i] in sorted;
        var k :| 0 <= k < n && rs[..n][k] == sorted[i];
        assert rs[k] == sorted[i];
      }
      InsertKeepsApart(sorted, rs[n], length);
      assert forall x :: x in rs <==> x in rs[..n] || x == rs[n];
    }
  }

  predicate NoInsertions(chunks: seq<UpdateFileChunk>) {
    forall i :: 0 <= i < |chunks| ==> chunks[i].oldLines != []
  }

  /** A chunk pinned to the end of the file fits behind what was replaced before it. */
  predicate HasRoom(lines: Lns, chunk: UpdateFileChunk, lineIndex: nat, r: Replacement) {
    chunk.isEndOfFile && r.oldLen > 0 ==> lineIndex + r.oldLen <= |lines|
  }

  predicate PinnedHaveRoom(lines: Lns, chunks: seq<UpdateFileChunk>, lineIndex: nat)
    decreases |chunks|
  {
    chunks == [] ||
    match Locate(lines, chunks[0], lineIndex)
    case Err(_) => true
    case Ok(located) =>
      HasRoom(lines, chunks[0], lineIndex, located.replacement) && PinnedHaveRoom(lines, chunks[1..], located.lineIndex)
  }

  /** Where a chunk ends up: in bounds, and at or after the search position exactly when it has room. */
  lemma LocatedInBounds(lines: Lns, chunk: UpdateFileChunk, lineIndex: nat)
    requires lineIndex <= |lines| && Locate(lines, chunk, lineIndex).Ok?
    ensures var located := Locate(lines, chunk, lineIndex).value;
            var r := located.replacement;
            && EndOf(r) <= |lines| && located.lineIndex <= |lines|
            && (chunk.oldLines != [] ==> located.lineIndex == EndOf(r))
            && (chunk.oldLines != [] ==> (lineIndex <= r.start <==> HasRoom(lines, chunk, lineIndex, r)))
            && (chunk.isEndOfFile && r.oldLen > 0 ==> EndOf(r) == |lines|)
            && (chunk.oldLines == [] ==>
                  lineIndex <= located.lineIndex && r == Replacement(InsertionIndex(lines), 0, chunk.newLines))
  {
    hide Seek;
    if chunk.changeContext.Some? && chunk.changeContext.value != "" {
      SeekInBounds(lines, [chunk.changeContext.value], lineIndex, false);
    }
    var from := AfterContext(lines, chunk, lineIndex).value;
    assert lineIndex <= from <= |lines|;
    if chunk.oldLines != [] {
      SeekInBounds(lines, chunk.oldLines, from, chunk.isEndOfFile);
      SeekInBounds(lines, chunk.oldLines[..|chunk.oldLines| - 1], from, chunk.isEndOfFile);
    }
  }

  lemma SeekInBounds(lines: Lns, pattern: Lns, start: nat, eof: bool)
    requires start <= |lines|
    ensures var r := Seek(lines, pattern, start, eof);
            && (r.Some? ==> r.value + |pattern| <= |lines| && (!eof || pattern == [] ==> start <= r.value))
            && (r.Some? && eof && pattern != [] ==> r.value + |pattern| == |lines|)
  {
    hide MatchesAt, FirstMatch;
    if pattern != [] && Seek(lines, pattern, start, eof).Some? {
      SeekFindsBestMatch(lines, pattern, start, eof);
      var level :| BestMatch(lines, pattern, SearchStart(lines, pattern, start, eof),
        Seek(lines, pattern, start, eof).value, level);
      MatchIsInBounds(lines, pattern, Seek(lines, pattern, start, eof).value, level);
    }
  }

  lemma MatchIsInBounds(lines: Lns, pattern: Lns, i: nat, level: Level)
    requires MatchesAt(lines, pattern, i, level)
    ensures i + |pattern| <= |lines|
  {
  }

  /** When every pinned chunk has room, replacements come in order, insertions excepted. */
  lemma {:induction false} CollectedAreCompatible(lines: Lns, chunks: seq<UpdateFileChunk>, lineIndex: nat)
    requires lineIndex <= |lines| && Collect(lines, chunks, lineIndex).Ok?
    requires PinnedHaveRoom(lines, chunks, lineIndex)
    requires NoInsertions(chunks) || !LastLineBlank(lines)
    ensures var rs := Collect(lines, chunks, lineIndex).value;
            && (forall i :: 0 <= i < |rs| ==> lineIndex <= rs[i].start && EndOf(rs[i]) <= |lines|)
            && (forall i, j :: 0 <= i < j < |rs| ==> Compatible(rs[i], rs[j]))
    decreases |chunks|
  {
    hide Locate;
    if chunks == [] {
      CollectNothing(lines, chunks, lineIndex);
    } else {
      CollectStep(lines, chunks, lineIndex);
      LocatedInBounds(lines, chunks[0], lineIndex);
      var located := Locate(lines, chunks[0], lineIndex).value;
      CollectedAreCompatible(lines, chunks[1..], located.lineIndex);
      var first := located.replacement;
      var rest := Collect(lines, chunks[1..], located.lineIndex).value;
      assert Collect(lines, chunks, lineIndex).value == [first] + rest;
      forall j | 0 <= j < |rest| ensures Compatible(first, rest[j]) {
        if chunks[0].oldLines == [] && rest[j].start < |lines| {
          assert first.start == |lines|;
        }
      }
    }
  }

  /** When every pinned chunk has room, and no line is inserted into a file that ends in a blank line,
      the computed replacements are in bounds, in order and apart. */
  lemma RoomKeepsApart(lines: Lns, chunks: seq<UpdateFileChunk>)
    requires Replacements(lines, chunks).Ok? && PinnedHaveRoom(lines, chunks, 0)
    requires NoInsertions(chunks) || !LastLineBlank(lines)
    ensures Apart(Replacements(lines, chunks).value, 0, |lines|)
  {
    hide Collect, SortByStart, Compatible, PinnedHaveRoom, Apart;
    CollectedAreCompatible(lines, chunks, 0);
    SortKeepsApart(Collect(lines, chunks, 0).value, |lines|);
  }

  // ----- exactly which chunks are safe -----

  lemma {:induction false} InsertApartOnlyIf(sorted: seq<Replacement>, r: Replacement, length: nat)
    requires Apart(InsertByStart(sorted, r), 0, length)
    ensures Apart(sorted, 0, length) && forall x :: x in sorted ==> Compatible(x, r)
    ensures forall x :: x in InsertByStart(sorted, r) <==> x in sorted || x == r
  {
    hide Apart, Compatible;
    var n := |sorted| - 1;
    if sorted == [] || sorted[n].start <= r.start {
      ApartFront(sorted, r, length);
      EndsBeforeIsCompatible(sorted, r);
    } else {
      var front, last := sorted[..n], sorted[n];
      assert sorted == front + [last];
      var inner := InsertByStart(front, r);
      ApartFront(inner, last, length);
      InsertApartOnlyIf(front, r, length);
      AppendBehind(front, last, length);
      assert EndOf(r) <= last.start;
      EarlierIsCompatible(last, r);
      assert forall x :: x in sorted <==> x in front || x == last;
    }
  }

  lemma EndsBeforeIsCompatible(sorted: seq<Replacement>, r: Replacement)
    requires forall x :: x in sorted ==> EndOf(x) <= r.start
    ensures forall x :: x in sorted ==> Compatible(x, r)
  {
  }

  lemma EarlierIsCompatible(a: Replacement, b: Replacement)
    requires EndOf(b) <= a.start && b.start < a.start
    ensures Compatible(a, b)
  {
  }

  lemma AppendBehind(front: seq<Replacement>, last: Replacement, length: nat)
    requires Apart(front, 0, length) && EndOf(last) <= length && forall x :: x in front ==> EndOf(x) <= last.start
    ensures Apart(front + [last], 0, length)
  {
    assert forall i :: 0 <= i < |front| ==> front[i] in front;
  }

  lemma {:induction false} SortApartOnlyIf(rs: seq<Replacement>, length: nat)
    requires Apart(SortByStart(rs), 0, length)
    ensures forall i, j :: 0 <= i < j < |rs| ==> Compatible(rs[i], rs[j])
    ensures forall x :: x in SortByStart(rs) <==> x in rs
  {
    hide Apart, Compatible;
    if rs != [] {
      var n := |rs| - 1;
      var front := rs[..n];
      InsertApartOnlyIf(SortByStart(front), rs[n], length);
      SortApartOnlyIf(front, length);
      assert rs == front + [rs[n]];
      forall i, j | 0 <= i < j < |rs| ensures Compatible(rs[i], rs[j]) {
        if j < n {
          assert front[i] == rs[i] && front[j] == rs[j];
        } else {
          assert front[i] == rs[i] && front[i] in front;
        }
      }
    }
  }

  /** A replacement fits behind the chunks before it, which replace nothing beyond `reached` short of the end of the
      file: it starts no earlier than that, and if one of them inserts lines, it does not cover the place of the
      insertion. */
  predicate FitsBehind(lines: Lns, reached: nat, inserted: bool, r: Replacement) {
    && reached <= r.start
    && (inserted && r.start < InsertionIndex(lines) ==> EndOf(r) <= InsertionIndex(lines))
  }

  /** Every chunk fits behind those before it. */
  predicate ChunksFit(lines: Lns, chunks: seq<UpdateFileChunk>, lineIndex: nat, reached: nat, inserted: bool)
    decreases |chunks|
  {
    chunks == [] ||
    match Locate(lines, chunks[0], lineIndex)
    case Err(_) => true
    case Ok(located) =>
      var r, inserts := located.replacement, chunks[0].oldLines == [];
      && FitsBehind(lines, reached, inserted, r)
      && ChunksFit(lines, chunks[1..], located.lineIndex,
                   if inserts || r.start == |lines| then reached else EndOf(r), inserted || inserts)
  }

  /** A replacement behind the search position, at the end of the file, or at the place of insertions. */
  predicate Placed(lines: Lns, lineIndex: nat, r: Replacement) {
    && EndOf(r) <= |lines|
    && (lineIndex <= r.start || EndOf(r) == |lines| || (r.oldLen == 0 && r.start == InsertionIndex(lines)))
  }

  lemma {:induction false} CollectedArePlaced(lines: Lns, chunks: seq<UpdateFileChunk>, lineIndex: nat)
    requires lineIndex <= |lines| && Collect(lines, chunks, lineIndex).Ok?
    ensures var rs := Collect(lines, chunks, lineIndex).value;
            forall i :: 0 <= i < |rs| ==> Placed(lines, lineIndex, rs[i])
    decreases |chunks|
  {
    hide Locate;
    if chunks == [] {
      CollectNothing(lines, chunks, lineIndex);
    } else {
      CollectStep(lines, chunks, lineIndex);
      LocatedInBounds(lines, chunks[0], lineIndex);
      LineIndexMovesOn(lines, chunks[0], lineIndex);
      CollectedArePlaced(lines, chunks[1..], Locate(lines, chunks[0], lineIndex).value.lineIndex);
    }
  }

  lemma LineIndexMovesOn(lines: Lns, chunk: UpdateFileChunk, lineIndex: nat)
    requires lineIndex <= |lines| && Locate(lines, chunk, lineIndex).Ok?
    ensures Placed(lines, lineIndex, Locate(lines, chunk, lineIndex).value.replacement)
    ensures lineIndex <= Locate(lines, chunk, lineIndex).value.lineIndex
            || Locate(lines, chunk, lineIndex).value.lineIndex == |lines|
  {
    hide Locate;
    LocatedInBounds(lines, chunk, lineIndex);
  }

  /** What fits behind the chunks up to `r` is what fits behind those before it and does not collide with `r`. */
  lemma FitsBehindOneMore(lines: Lns, reached: nat, inserted: bool, r: Replacement, inserts: bool, lineIndex: nat,
      x: Replacement)
    requires EndOf(r) <= |lines| && Placed(lines, lineIndex, x) && FitsBehind(lines, reached, inserted, r)
    requires if inserts then r.oldLen == 0 && r.start == InsertionIndex(lines) else lineIndex == EndOf(r)
    ensures FitsBehind(lines, if inserts || r.start == |lines| then reached else EndOf(r), inserted || inserts, x)
            <==> FitsBehind(lines, reached, inserted, x) && Compatible(r, x)
  {
  }

  lemma {:induction false} ChunksFitIff(lines: Lns, chunks: seq<UpdateFileChunk>, lineIndex: nat, reached: nat,
      inserted: bool)
    requires lineIndex <= |lines| && Collect(lines, chunks, lineIndex).Ok?
    ensures var rs := Collect(lines, chunks, lineIndex).value;
            ChunksFit(lines, chunks, lineIndex, reached, inserted) <==>
            && (forall i :: 0 <= i < |rs| ==> FitsBehind(lines, reached, inserted, rs[i]))
            && (forall i, j :: 0 <= i < j < |rs| ==> Compatible(rs[i], rs[j]))
    decreases |chunks|
  {
    hide Locate, FitsBehind, Compatible, Placed, Collect;
    if chunks == [] {
      CollectNothing(lines, chunks, lineIndex);
    } else {
      CollectStep(lines, chunks, lineIndex);
      LocatedInBounds(lines, chunks[0], lineIndex);
      var located, inserts := Locate(lines, chunks[0], lineIndex).value, chunks[0].oldLines == [];
      var r := located.replacement;
      var rest := Collect(lines, chunks[1..], located.lineIndex).value;
      var rs := Collect(lines, chunks, lineIndex).value;
      var further := if inserts || r.start == |lines| then reached else EndOf(r);
      assert rs == [r] + rest;
      CollectedArePlaced(lines, chunks[1..], located.lineIndex);
      ChunksFitIff(lines, chunks[1..], located.lineIndex, further, inserted || inserts);
      if FitsBehind(lines, reached, inserted, r) {
        forall i | 0 <= i < |rest|
          ensures FitsBehind(lines, further, inserted || inserts, rest[i])
                  <==> FitsBehind(lines, reached, inserted, rest[i]) && Compatible(r, rest[i])
        {
          FitsBehindOneMore(lines, reached, inserted, r, inserts, located.lineIndex, rest[i]);
        }
      }
      FirstAndRest(lines, reached, inserted, r, rest);
    }
  }

  /** The conditions on all pairs, taken apart at the first replacement. */
  lemma FirstAndRest(lines: Lns, reached: nat, inserted: bool, r: Replacement, rest: seq<Replacement>)
    ensures var rs := [r] + rest;
            && ((forall i :: 0 <= i < |rs| ==> FitsBehind(lines, reached, inserted, rs[i])) <==>
                FitsBehind(lines, reached, inserted, r) && forall i :: 0 <= i < |rest| ==>
                  FitsBehind(lines, reached, inserted, rest[i]))
            && ((forall i, j :: 0 <= i < j < |rs| ==> Compatible(rs[i], rs[j])) <==>
                && (forall i :: 0 <= i < |rest| ==> Compatible(r, rest[i]))
                && forall i, j :: 0 <= i < j < |rest| ==> Compatible(rest[i], rest[j]))
  {
    hide FitsBehind, Compatible;
    var rs := [r] + rest;
    assert rs[0] == r && forall i :: 0 <= i < |rest| ==> rest[i] == rs[i + 1];
    assert forall i :: 0 < i < |rs| ==> rs[i] == rest[i - 1];
  }

  /** For every file and every list of chunks that is found in it: the computed replacements are in bounds, in order and
      apart exactly when every chunk fits behind those before it. */
  lemma ReplacementsAreApart(lines: Lns, chunks: seq<UpdateFileChunk>)
    requires Replacements(lines, chunks).Ok?
    ensures Apart(Replacements(lines, chunks).value, 0, |lines|) <==> ChunksFit(lines, chunks, 0, 0, false)
  {
    hide Collect, SortByStart, Compatible, ChunksFit, Apart;
    var rs := Collect(lines, chunks, 0).value;
    ChunksFitIff(lines, chunks, 0, 0, false);
    CollectedArePlaced(lines, chunks, 0);
    if Apart(Replacements(lines, chunks).value, 0, |lines|) {
      SortApartOnlyIf(rs, |lines|);
    }
    if ChunksFit(lines, chunks, 0, 0, false) {
      SortKeepsApart(rs, |lines|);
    }
  }

  /** Then the computed edit is one simultaneous substitution, and can be undone. */
  lemma UpdateIsSubstitution(lines: Lns, chunks: seq<UpdateFileChunk>)
    requires Replacements(lines, chunks).Ok? && ChunksFit(lines, chunks, 0, 0, false)
    ensures var rs := Replacements(lines, chunks).value;
            && Apart(rs, 0, |lines|)
            && SpliceAll(lines, rs) == Substitute(lines, rs, 0)
            && SpliceAll(SpliceAll(lines, rs), Inverse(lines, rs, 0, 0)) == lines
  {
    ReplacementsAreApart(lines, chunks);
    SplicingIsSubstitution(lines, Replacements(lines, chunks).value);
    InverseRestores(lines, Replacements(lines, chunks).value);
  }

  // ----- exactly which pinned chunks are safe -----

  /** Every chunk replaces something. */
  predicate AllReplace(rs: seq<Replacement>) {
    forall i :: 0 <= i < |rs| ==> rs[i].oldLen > 0
  }

  predicate EndsAt(previous: Option<Replacement>, lineIndex: nat) {
    match previous
    case None => lineIndex == 0
    case Some(q) => q.oldLen > 0 && EndOf(q) == lineIndex
  }

  /** Replacements that do not collide leave every pinned chunk the room it needs. */
  lemma {:induction false} CompatibleHaveRoom(lines: Lns, chunks: seq<UpdateFileChunk>, lineIndex: nat,
      previous: Option<Replacement>)
    requires lineIndex <= |lines| && EndsAt(previous, lineIndex) && Collect(lines, chunks, lineIndex).Ok?
    requires var rs := Collect(lines, chunks, lineIndex).value;
             && AllReplace(rs)
             && (forall i, j :: 0 <= i < j < |rs| ==> Compatible(rs[i], rs[j]))
             && (previous.Some? ==> forall i :: 0 <= i < |rs| ==> Compatible(previous.value, rs[i]))
    ensures PinnedHaveRoom(lines, chunks, lineIndex)
    decreases |chunks|
  {
    hide Locate;
    if chunks != [] {
      CollectStep(lines, chunks, lineIndex);
      LocatedInBounds(lines, chunks[0], lineIndex);
      var located := Locate(lines, chunks[0], lineIndex).value;
      var first := located.replacement;
      var rest := Collect(lines, chunks[1..], located.lineIndex).value;
      var rs := Collect(lines, chunks, lineIndex).value;
      assert rs == [first] + rest && rs[0] == first;
      assert forall i :: 0 <= i < |rest| ==> rest[i] == rs[i + 1];
      CompatibleHaveRoom(lines, chunks[1..], located.lineIndex, Some(first));
    }
  }

  /** When every chunk replaces something, the replacements are in bounds, in order and apart
      exactly when every chunk pinned to the end of the file has room behind the one before it. */
  lemma PinnedChunksAreSafeIff(lines: Lns, chunks: seq<UpdateFileChunk>)
    requires Collect(lines, chunks, 0).Ok? && AllReplace(Collect(lines, chunks, 0).value)
    ensures Replacements(lines, chunks).Ok?
    ensures Apart(Replacements(lines, chunks).value, 0, |lines|) <==> PinnedHaveRoom(lines, chunks, 0)
  {
    hide SortByStart, PinnedHaveRoom, Apart, Compatible, Collect;
    var rs := Collect(lines, chunks, 0).value;
    if PinnedHaveRoom(lines, chunks, 0) {
      ReplacingIsNoInsertion(lines, chunks, 0);
      RoomKeepsApart(lines, chunks);
    }
    if Apart(Replacements(lines, chunks).value, 0, |lines|) {
      SortApartOnlyIf(rs, |lines|);
      CompatibleHaveRoom(lines, chunks, 0, None);
    }
  }

  lemma {:induction false} ReplacingIsNoInsertion(lines: Lns, chunks: seq<UpdateFileChunk>, lineIndex: nat)
    requires lineIndex <= |lines| && Collect(lines, chunks, lineIndex).Ok?
             && AllReplace(Collect(lines, chunks, lineIndex).value)
    ensures NoInsertions(chunks)
    decreases |chunks|
  {
    hide Locate;
    if chunks != [] {
      CollectStep(lines, chunks, lineIndex);
      LocatedInBounds(lines, chunks[0], lineIndex);
      var located := Locate(lines, chunks[0], lineIndex).value;
      var rest := Collect(lines, chunks[1..], located.lineIndex).value;
      var rs := Collect(lines, chunks, lineIndex).value;
      assert rs == [located.replacement] + rest && rs[0] == located.replacement;
      assert forall i :: 0 <= i < |rest| ==> rest[i] == rs[i + 1];
      ReplacingIsNoInsertion(lines, chunks[1..], located.lineIndex);
    }
  }

  /** A chunk that is not pinned, or is the first, has room. */
  lemma {:induction false} UnpinnedHaveRoom(lines: Lns, chunks: seq<UpdateFileChunk>, lineIndex: nat)
    requires lineIndex <= |lines| && Collect(lines, chunks, lineIndex).Ok?
    requires forall i :: 0 <= i < |chunks| && (i > 0 || lineIndex > 0) ==> !chunks[i].isEndOfFile
    ensures PinnedHaveRoom(lines, chunks, lineIndex)
    decreases |chunks|
  {
    hide Locate;
    if chunks != [] {
      CollectStep(lines, chunks, lineIndex);
      LocatedInBounds(lines, chunks[0], lineIndex);
      UnpinnedHaveRoom(lines, chunks[1..], Locate(lines, chunks[0], lineIndex).value.lineIndex);
    }
  }

  // ----- exactly when that holds -----

  predicate NoneAtEof(chunks: seq<UpdateFileChunk>) {
    forall i :: 0 <= i < |chunks| ==> !chunks[i].isEndOfFile
  }

  lemma TwoReplacements(lines: Lns, a: UpdateFileChunk, b: UpdateFileChunk, ra: Located, rb: Located)
    requires Locate(lines, a, 0) == Ok(ra) && Locate(lines, b, ra.lineIndex) == Ok(rb)
    requires ra.replacement.start <= rb.replacement.start
    ensures Replacements(lines, [a, b]) == Ok([ra.replacement, rb.replacement])
  {
    hide Locate, Collect, SortByStart;
    var chunks := [a, b];
    assert chunks[1..] == [b] && chunks[1..][1..] == [];
    CollectStep(lines, chunks, 0);
    CollectStep(lines, chunks[1..], ra.lineIndex);
    CollectNothing(lines, chunks[1..][1..], rb.lineIndex);
    var rs := [ra.replacement, rb.replacement];
    assert [ra.replacement] + ([rb.replacement] + []) == rs;
    assert Collect(lines, chunks, 0) == Ok(rs);
    SortTwo(ra.replacement, rb.replacement);
  }

  lemma SortTwo(a: Replacement, b: Replacement)
    requires a.start <= b.start
    ensures SortByStart([a, b]) == [a, b]
  {
    assert [a, b][..1] == [a] && [a][..0] == [];
    assert SortByStart([a]) == InsertByStart([], a) == [a];
    assert SortByStart([a, b]) == InsertByStart([a], b);
  }

  /** A chunk that lists the whole file is found at its top. */
  lemma WholeFileIsFound(lines: Lns, newLines: Lns)
    requires lines != []
    ensures Locate(lines, UpdateFileChunk(None, lines, newLines, false), 0)
            == Ok(Located(Replacement(0, |lines|, newLines), |lines|))
  {
    hide FirstMatch, MatchesAt, Normalize, LocateOld;
    MatchesItself(lines);
    assert Seek(lines, lines, 0, false) == Some(0);
    FoundAsGiven(lines, UpdateFileChunk(None, lines, newLines, false), 0);
  }

  lemma MatchesItself(lines: Lns)
    requires lines != []
    ensures FirstMatch(lines, lines, 0, Exact) == Some(0)
  {
    hide Normalize;
    assert MatchesAt(lines, lines, 0, Exact);
  }

  lemma FoundAsGiven(lines: Lns, chunk: UpdateFileChunk, from: nat)
    requires chunk.oldLines != [] && Seek(lines, chunk.oldLines, from, chunk.isEndOfFile).Some?
    ensures LocateOld(lines, chunk, from)
            == Ok(Replacement(Seek(lines, chunk.oldLines, from, chunk.isEndOfFile).value, |chunk.oldLines|,
              chunk.newLines))
  {
    hide Seek;
  }

  /** Files on which insertions are safe: without chunks tied to the end of the file, the replacements
      are apart for every chunk list exactly when the file does not end in a blank line. */
  lemma InsertionsAreSafeIff(lines: Lns)
    ensures (forall chunks :: NoneAtEof(chunks) && Replacements(lines, chunks).Ok? ==>
               Apart(Replacements(lines, chunks).value, 0, |lines|))
            <==> !LastLineBlank(lines)
  {
    hide Replacements, Apart;
    if LastLineBlank(lines) {
      var chunks := InsertionOverlaps(lines);
    } else {
      forall chunks | NoneAtEof(chunks) && Replacements(lines, chunks).Ok?
        ensures Apart(Replacements(lines, chunks).value, 0, |lines|)
      {
        UnpinnedAreApart(lines, chunks);
      }
    }
  }

  lemma UnpinnedAreApart(lines: Lns, chunks: seq<UpdateFileChunk>)
    requires NoneAtEof(chunks) && Replacements(lines, chunks).Ok? && !LastLineBlank(lines)
    ensures Apart(Replacements(lines, chunks).value, 0, |lines|)
  {
    hide Collect, PinnedHaveRoom, Apart, SortByStart;
    UnpinnedHaveRoom(lines, chunks, 0);
    RoomKeepsApart(lines, chunks);
  }

  /** In a file that ends in a blank line, replacing everything and inserting a line overlap. */
  lemma InsertionOverlaps(lines: Lns) returns (chunks: seq<UpdateFileChunk>)
    requires LastLineBlank(lines)
    ensures NoneAtEof(chunks) && Replacements(lines, chunks).Ok?
            && !Apart(Replacements(lines, chunks).value, 0, |lines|)
  {
    hide Replacements, Collect, LocateOld, Seek;
    var whole := UpdateFileChunk(None, lines, ["x"], false);
    var insertion := UpdateFileChunk(None, [], ["y"], false);
    chunks := [whole, insertion];
    var last := Replacement(|lines| - 1, 0, ["y"]);
    WholeFileIsFound(lines, ["x"]);
    assert Locate(lines, insertion, |lines|) == Ok(Located(last, |lines|));
    TwoReplacements(lines, whole, insertion, Located(Replacement(0, |lines|, ["x"]), |lines|), Located(last, |lines|));
    var rs := [Replacement(0, |lines|, ["x"]), last];
    assert EndOf(rs[0]) > rs[1].start;
  }

  lemma {:induction false} NothingToOverlap(chunks: seq<UpdateFileChunk>)
    requires Collect([], chunks, 0).Ok?
    ensures forall i :: 0 <= i < |Collect([], chunks, 0).value| ==>
              Collect([], chunks, 0).value[i].start == 0 && Collect([], chunks, 0).value[i].oldLen == 0
  {
    hide Locate;
    if chunks == [] {
      CollectNothing([], chunks, 0);
    } else {
      CollectStep([], chunks, 0);
      LocatedInBounds([], chunks[0], 0);
      NothingToOverlap(chunks[1..]);
    }
  }

  /** A chunk tied to the end of the file may fall behind the previous match: without insertions, the
      replacements are apart for every chunk list only when the file is empty. */
  lemma EofChunksAreSafeIff(lines: Lns)
    ensures (forall chunks :: NoInsertions(chunks) && Replacements(lines, chunks).Ok? ==>
               Apart(Replacements(lines, chunks).value, 0, |lines|))
            <==> lines == []
  {
    if lines != [] {
      var chunks := EofOverlaps(lines);
    } else {
      forall chunks | NoInsertions(chunks) && Replacements(lines, chunks).Ok?
        ensures Apart(Replacements(lines, chunks).value, 0, |lines|)
      {
        NothingToOverlap(chunks);
        SortKeepsApart(Collect(lines, chunks, 0).value, 0);
      }
    }
  }

  lemma EofOverlaps(lines: Lns) returns (chunks: seq<UpdateFileChunk>)
    requires lines != []
    ensures NoInsertions(chunks) && Replacements(lines, chunks).Ok?
            && !Apart(Replacements(lines, chunks).value, 0, |lines|)
  {
    hide Replacements, Collect;
    var n := |lines|;
    var whole := UpdateFileChunk(None, lines, ["x"], false);
    var pinned := UpdateFileChunk(None, [lines[n - 1]], ["y"], true);
    chunks := [whole, pinned];
    var last := Replacement(n - 1, 1, ["y"]);
    WholeFileIsFound(lines, ["x"]);
    assert MatchesAt(lines, [lines[n - 1]], n - 1, Exact);
    assert FirstMatch(lines, [lines[n - 1]], n - 1, Exact) == Some(n - 1);
    assert Locate(lines, pinned, n) == Ok(Located(last, n));
    TwoReplacements(lines, whole, pinned, Located(Replacement(0, n, ["x"]), n), Located(last, n));
    var rs := [Replacement(0, n, ["x"]), last];
    assert EndOf(rs[0]) > rs[1].start;
  }

  /** What the overlap does: on a file whose only line is blank, replacing that line and inserting another
      loses the inserted line and keeps the replaced one. */
  lemma InsertedLineIsLost()
    ensures var chunks := [UpdateFileChunk(None, [""], ["x"], false), UpdateFileChunk(None, [], ["y"], false)];
            && Replacements([""], chunks).Ok?
            && SpliceAll([""], Replacements([""], chunks).value) == ["x", ""]
  {
    hide Collect, Locate, Replacements, SpliceAll;
    var whole := UpdateFileChunk(None, [""], ["x"], false);
    var insertion := UpdateFileChunk(None, [], ["y"], false);
    var a, b := Replacement(0, 1, ["x"]), Replacement(0, 0, ["y"]);
    WholeFileIsFound([""], ["x"]);
    InsertionAtBlank(insertion);
    TwoReplacements([""], whole, insertion, Located(a, 1), Located(b, 1));
    SpliceTwo([""], a, b);
    assert Splice([""], b) == ["y", ""];
    assert Splice(["y", ""], a) == ["x", ""];
  }

  lemma InsertionAtBlank(insertion: UpdateFileChunk)
    requires insertion.changeContext == None && insertion.oldLines == []
    ensures Locate([""], insertion, 1) == Ok(Located(Replacement(0, 0, insertion.newLines), 1))
  {
  }

  lemma SpliceTwo(lines: Lns, a: Replacement, b: Replacement)
    ensures SpliceAll(lines, [a, b]) == Splice(Splice(lines, b), a)
  {
    hide Splice;
    assert [a, b][1..] == [b] && [b][1..] == [];
    assert SpliceAll(lines, [b]) == Splice(SpliceAll(lines, []), b);
  }

  // ----- the whole update -----

  function FileLines(contents: string): Lns {
    WithoutLast(Lines(contents))
  }

  function FileText(lines: Lns): string {
    Join(if lines == [] || lines[|lines| - 1] != "" then lines + [""] else lines, "\n")
  }

  method ApplyUpdateHunk(contents: string, chunks: seq<UpdateFileChunk>) returns (r: Result<string, UpdateError>)
    ensures r.Err? <==> Replacements(FileLines(contents), chunks).Err?
    ensures r.Err? ==> r.error == Replacements(FileLines(contents), chunks).error
    ensures r.Ok? ==>
              r.value == FileText(SpliceAll(FileLines(contents), Replacements(FileLines(contents), chunks).value))
  {
    var originalLines := Lines(contents);
    if |originalLines| > 0 && originalLines[|originalLines| - 1] == "" {
      originalLines := originalLines[..|originalLines| - 1];
    }
    var replacements := ComputeReplacements(originalLines, chunks);
    if replacements.Err? {
      return Err(replacements.error);
    }
    var newLines := ApplyReplacements(originalLines, replacements.value);
    if |newLines| == 0 || newLines[|newLines| - 1] != "" {
      newLines := newLines + [""];
    }
    return Ok(Join(newLines, "\n"));
  }

  /** Reading a file into lines and writing the lines back is the identity exactly on the empty file
      and on files that end in one newline and not in a blank line; in particular a trailing blank line is dropped. */
  lemma UntouchedFileSurvivesIff(contents: string)
    ensures FileText(FileLines(contents)) == contents <==>
            || contents == ""
            || (|contents| >= 2 && contents[|contents| - 1] == '\n' && contents[|contents| - 2] != '\n')
  {
    var all := Lines(contents);
    var n := |contents| - 1;
    JoinOfLines(contents);
    LastLineEmpty(contents);
    if contents == "" {
      assert FileLines(contents) == [];
      assert FileText([]) == Join([""], "\n");
    } else if contents[n] == '\n' {
      var front := contents[..n];
      assert contents == front + ['\n'];
      LinesExtend(front, '\n');
      assert FileLines(contents) == Lines(front);
      LastLineEmpty(front);
      JoinOfLines(front);
      if front == "" || front[n - 1] == '\n' {
        assert FileText(Lines(front)) == front;
      } else {
        JoinSnoc(Lines(front), "", "\n");
        assert FileText(Lines(front)) == front + "\n" + "";
      }
    } else {
      JoinSnoc(all, "", "\n");
      assert FileText(all) == contents + "\n" + "";
      assert |FileText(all)| == |contents| + 1;
    }
  }

  // ----- an update that keeps every line -----

  /** A chunk of context lines only: what it replaces and what it puts in are the same. */
  function Keeping(kept: Lns): UpdateFileChunk {
    UpdateFileChunk(None, kept, kept, false)
  }

  predicate OccursIn(lines: Lns, kept: Lns, at: nat) {
    at + |kept| <= |lines| && lines[at..at + |kept|] == kept
  }

  lemma ExactIsOccurrence(lines: Lns, kept: Lns, at: nat)
    ensures MatchesAt(lines, kept, at, Exact) <==> OccursIn(lines, kept, at)
  {
    if at + |kept| <= |lines| {
      var part := lines[at..at + |kept|];
      forall i | 0 <= i < |kept| ensures part[i] == lines[at + i] {
      }
    }
  }

  /** Context lines that are in the file are found and put back as they were. */
  lemma KeepingChangesNothing(lines: Lns, kept: Lns, at: nat)
    requires kept != [] && OccursIn(lines, kept, at)
    ensures Replacements(lines, [Keeping(kept)]).Ok?
    ensures SpliceAll(lines, Replacements(lines, [Keeping(kept)]).value) == lines
  {
    hide FirstMatch, MatchesAt, Collect, SortByStart, SpliceAll;
    ExactIsOccurrence(lines, kept, at);
    var found := FirstMatch(lines, kept, 0, Exact).value;
    ExactIsOccurrence(lines, kept, found);
    var r := Replacement(found, |kept|, kept);
    assert Seek(lines, kept, 0, false) == Some(found);
    FoundAsGiven(lines, Keeping(kept), 0);
    assert Locate(lines, Keeping(kept), 0) == Ok(Located(r, EndOf(r)));
    OneReplacement(lines, Keeping(kept), r);
    PuttingBack(lines, r);
  }

  lemma OneReplacement(lines: Lns, chunk: UpdateFileChunk, r: Replacement)
    requires Locate(lines, chunk, 0) == Ok(Located(r, EndOf(r)))
    ensures Replacements(lines, [chunk]) == Ok([r])
  {
    hide Locate, Collect;
    CollectStep(lines, [chunk], 0);
    CollectNothing(lines, [chunk][1..], EndOf(r));
    assert [r] + [] == [r];
    assert Collect(lines, [chunk], 0) == Ok([r]);
    assert [r][..0] == [];
    assert SortByStart([r]) == InsertByStart([], r) == [r];
  }

  lemma PuttingBack(lines: Lns, r: Replacement)
    requires OccursIn(lines, r.newLines, r.start) && r.oldLen == |r.newLines| && r.newLines != []
    ensures SpliceAll(lines, [r]) == lines
  {
    var cut := Cut(lines, r);
    assert cut == lines[..r.start] + lines[EndOf(r)..];
    assert cut[..r.start] == lines[..r.start] && cut[r.start..] == lines[EndOf(r)..];
    assert lines == lines[..r.start] + lines[r.start..EndOf(r)] + lines[EndOf(r)..];
    assert [r][1..] == [];
    assert SpliceAll(lines, [r]) == Splice(lines, r);
  }

  /** An update that only keeps lines leaves the file as it is exactly when the file is one that survives being read
      into lines and written back. */
  lemma KeepingSurvivesIff(contents: string, kept: Lns, at: nat)
    requires kept != [] && OccursIn(FileLines(contents), kept, at)
    ensures Replacements(FileLines(contents), [Keeping(kept)]).Ok?
    ensures FileText(SpliceAll(FileLines(contents), Replacements(FileLines(contents), [Keeping(kept)]).value))
            == contents
            <==> |contents| >= 2 && contents[|contents| - 1] == '\n' && contents[|contents| - 2] != '\n'
  {
    hide Replacements, SpliceAll, FileText, FileLines;
    KeepingChangesNothing(FileLines(contents), kept, at);
    UntouchedFileSurvivesIff(contents);
    EmptyFileHasNoLines();
  }

  lemma EmptyFileHasNoLines()
    ensures FileLines("") == []
  {
    assert Lines("") == [""];
  }

  /** A file that ends in a blank line: keeping its first line drops the blank one. */
  lemma BlankLineIsDropped()
    ensures var rs := Replacements(FileLines("a\n\n"), [Keeping(["a"])]);
            rs.Ok? && FileText(SpliceAll(FileLines("a\n\n"), rs.value)) == "a\n"
  {
    hide Replacements, SpliceAll;
    BlankLines();
    KeepingChangesNothing(["a", ""], ["a"], 0);
    assert ["a", ""][0..1] == ["a"];
    assert ["a", ""][1..] == [""];
    assert Join(["a", ""], "\n") == "a" + "\n" + "";
  }

  lemma BlankLines()
    ensures FileLines("a\n\n") == ["a", ""]
  {
    var s := "a\n\n";
    assert s[1..] == "\n\n" && s[1..][1..] == "\n" && s[1..][1..][1..] == "";
    assert Lines("") == [""];
    assert Lines("\n") == ["", ""];
    assert Lines("\n\n") == ["", "", ""];
    assert ['a'] + "" == "a";
    assert Lines(s) == ["a", "", ""];
    assert ["a", "", ""][..2] == ["a", ""];
  }
}
