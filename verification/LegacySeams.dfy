/** When stripping the context blocks of older versions leaves one behind (src/agents/internal-runtime-context.ts). */
module LegacySeams {
  import opened Common
  import opened Text
  import opened InternalContext
  import opened LegacyContext

  // ----- characters of the header -----

  const HEADER_LENGTH: nat := 123
  const CUT_LENGTH: nat := 121
  const MARKER_LENGTH: nat := 32

  /** A header whose final newlines have been trimmed. */
  function CutHeader(): string {
    Title() + "\n" + Notice()
  }

  lemma HeaderParts()
    ensures |CutHeader()| == CUT_LENGTH && |LegacyHeader()| == HEADER_LENGTH && |EventMarker()| == MARKER_LENGTH
    ensures LegacyHeader() == CutHeader() + "\n\n"
    ensures CutHeader()[0] == 'O' && CutHeader()[CUT_LENGTH - 1] == '.'
    ensures forall i :: 0 < i < CUT_LENGTH ==> CutHeader()[i] != 'O'
    ensures forall i :: 0 <= i < CUT_LENGTH ==> (CutHeader()[i] == '\n' <==> i == 36)
  {
    hide Title, Notice;
    var cut := CutHeader();
    assert forall i :: 0 <= i < 36 ==> cut[i] == Title()[i];
    assert forall i :: 0 < i < 36 ==> Title()[i] == Title()[1..][i - 1];
    assert forall i :: 37 <= i < CUT_LENGTH ==> cut[i] == Notice()[i - 37];
  }

  /** Inside a header, a newline before another newline or before the marker is the first of its last two. */
  lemma NewlinesOfHeader(i: nat)
    requires i + 1 < HEADER_LENGTH && |LegacyHeader()| == HEADER_LENGTH
    requires LegacyHeader()[i] == '\n' && LegacyHeader()[i + 1] == '\n'
    ensures i == CUT_LENGTH
  {
    hide LegacyHeader, CutHeader;
    HeaderParts();
  }

  lemma CharOf(text: string, pattern: string, k: nat, i: nat)
    requires OccursAt(text, pattern, k) && i < |pattern|
    ensures k + i < |text| && text[k + i] == pattern[i]
  {
    assert text[k..k + |pattern|][i] == text[k + i];
  }

  /** A block takes the header and the marker; the next header comes behind both. */
  lemma NextHeaderIsBehind(text: string, k: nat, h: nat)
    requires LegacyAt(text, k) && OccursAt(text, LegacyHeader(), h) && k < h
    ensures k + HEADER_LENGTH + MARKER_LENGTH <= h
  {
    hide OccursAt, LegacyHeader, EventMarker;
    HeaderParts();
    HeadersDoNotOverlap(text, k, h);
    CharOf(text, LegacyHeader(), h, 0);
    HeaderIsLong();
    if h < k + HEADER_LENGTH + MARKER_LENGTH {
      CharOf(text, EventMarker(), k + HEADER_LENGTH, h - (k + HEADER_LENGTH));
    }
  }

  // ----- prefixes and suffixes -----

  lemma LegacyInPrefix(before: string, text: string, k: nat)
    requires before <= text && k + HEADER_LENGTH + MARKER_LENGTH <= |before|
    ensures LegacyAt(before, k) <==> LegacyAt(text, k)
  {
    hide OccursAt, LegacyHeader, EventMarker;
    HeaderParts();
    OccursInPrefix(before, text, LegacyHeader(), k);
    OccursInPrefix(before, text, EventMarker(), k + HEADER_LENGTH);
  }

  lemma LegacyInSuffix(text: string, after: string, shift: nat, k: nat)
    requires shift <= |text| && text[shift..] == after
    ensures LegacyAt(after, k) <==> LegacyAt(text, shift + k)
  {
    hide OccursAt, LegacyHeader, EventMarker;
    OccursInSuffix(text, after, shift, LegacyHeader(), k);
    OccursInSuffix(text, after, shift, EventMarker(), k + |LegacyHeader()|);
  }

  lemma LegacyFits(text: string, k: nat)
    requires LegacyAt(text, k)
    ensures k + HEADER_LENGTH + MARKER_LENGTH <= |text|
  {
    hide LegacyHeader, EventMarker;
    HeaderParts();
  }

  /** Trimming the end stops at the last character that is not a space. */
  lemma TrimEndReaches(s: string, i: nat)
    requires i < |s| && !IsSpace(s[i])
    ensures i < |TrimEnd(s)| && TrimEnd(s) <= s
  {
    var cut := TrimEndSplits(s);
  }

  // ----- the seam of one removal -----

  /** What a removal puts together. */
  datatype Seam = Seam(before: string, after: string)

  function SeamAt(text: string, header: nat): Seam
    requires header + |LegacyHeader()| <= |text| && OccursAt(text, EventMarker(), header + |LegacyHeader()|)
  {
    Seam(TrimEnd(text[..header]), TrimStart(text[BlockEnd(text, header + |LegacyHeader()|)..]))
  }

  /** A header without its newlines before the seam, an event marker behind it. */
  predicate MakesBlock(seam: Seam) {
    EndsWith(seam.before, CutHeader()) && StartsWith(seam.after, EventMarker())
  }

  function Joined(seam: Seam): string {
    Rejoin(seam.before, seam.after)
  }

  predicate IsTrimmed(seam: Seam) {
    && (seam.before != "" ==> !IsSpace(seam.before[|seam.before| - 1]))
    && (seam.after != "" ==> !IsSpace(seam.after[0]))
  }

  /** A block of the joined text that starts before the seam is one of the text before it, or the seam makes it. */
  lemma BlockAtSeam(seam: Seam, k: nat)
    requires IsTrimmed(seam) && k < |seam.before| && LegacyAt(Joined(seam), k)
    ensures k + HEADER_LENGTH + MARKER_LENGTH <= |seam.before| || (k + CUT_LENGTH == |seam.before| && MakesBlock(seam))
  {
    hide OccursAt, LegacyHeader, EventMarker, CutHeader, IsSpace;
    HeaderParts();
    LegacyFits(Joined(seam), k);
    var b := |seam.before|;
    if seam.after != "" && b < k + HEADER_LENGTH + MARKER_LENGTH {
      var text, d := Joined(seam), b - k;
      assert text == seam.before + "\n\n" + seam.after;
      assert text[b] == '\n' && text[b + 1] == '\n';
      SeamInHeader(text, k, d);
      assert d == CUT_LENGTH;
      SeamMakesBlock(seam, k);
    }
  }

  /** Two newlines inside a block are those that end its header. */
  lemma SeamInHeader(text: string, k: nat, d: nat)
    requires LegacyAt(text, k) && d < HEADER_LENGTH + MARKER_LENGTH && k + d + 1 < |text|
    requires d > 0 && text[k + d] == '\n' && text[k + d + 1] == '\n'
    ensures d == CUT_LENGTH
  {
    hide OccursAt, LegacyHeader, EventMarker, CutHeader;
    HeaderParts();
    if d >= HEADER_LENGTH {
      CharOf(text, EventMarker(), k + HEADER_LENGTH, d - HEADER_LENGTH);
    } else {
      CharOf(text, LegacyHeader(), k, d);
      if d + 1 == HEADER_LENGTH {
        CharOf(text, EventMarker(), k + HEADER_LENGTH, 0);
      } else {
        CharOf(text, LegacyHeader(), k, d + 1);
        NewlinesOfHeader(d);
      }
    }
  }

  lemma SeamMakesBlock(seam: Seam, k: nat)
    requires seam.before != "" && seam.after != "" && k + CUT_LENGTH == |seam.before|
    ensures LegacyAt(Joined(seam), k) <==> MakesBlock(seam)
  {
    hide OccursAt, LegacyHeader, EventMarker, CutHeader;
    HeaderParts();
    var text, b := Joined(seam), |seam.before|;
    assert text == seam.before + "\n\n" + seam.after;
    assert text[b + 2..] == seam.after;
    OccursInSuffix(text, seam.after, b + 2, EventMarker(), 0);
    StartsIsOccurs(seam.after, EventMarker());
    HeaderAtSeam(text, seam.before, k);
  }

  lemma StartsIsOccurs(s: string, t: string)
    ensures StartsWith(s, t) <==> OccursAt(s, t, 0)
  {
  }

  lemma HeaderAtSeam(text: string, before: string, k: nat)
    requires k + CUT_LENGTH == |before| && before + "\n\n" <= text
    ensures OccursAt(text, LegacyHeader(), k) <==> EndsWith(before, CutHeader())
  {
    hide LegacyHeader, CutHeader;
    HeaderParts();
    var found := text[k..k + HEADER_LENGTH];
    assert text[..|before| + 2] == before + "\n\n";
    assert found == before[k..] + "\n\n";
    assert found[..CUT_LENGTH] == before[k..];
    assert LegacyHeader()[..CUT_LENGTH] == CutHeader();
  }

  // ----- what is left at the end -----

  ghost predicate HasBlock(text: string) {
    exists k: nat :: LegacyAt(text, k)
  }

  ghost predicate BlockBehind(text: string, searchFrom: nat) {
    exists k: nat :: k < searchFrom && LegacyAt(text, k)
  }

  /** Some removal of the search has a seam that makes a block. */
  ghost predicate SomeSeamMakesBlock(text: string, searchFrom: nat)
    requires searchFrom <= |text|
    decreases |text|, |text| - searchFrom
  {
    match IndexFrom(text, LegacyHeader(), searchFrom)
    case None => false
    case Some(header) =>
      var eventStart := header + |LegacyHeader()|;
      if !OccursAt(text, EventMarker(), eventStart) then eventStart <= |text| && SomeSeamMakesBlock(text, eventStart)
      else
        var seam := SeamAt(text, header);
        RemovalProgresses(text, header);
        MakesBlock(seam) || SomeSeamMakesBlock(Joined(seam), LegacyContext.Resume(seam.before))
  }

  lemma SeamIsTrimmed(text: string, header: nat)
    requires header + |LegacyHeader()| <= |text| && OccursAt(text, EventMarker(), header + |LegacyHeader()|)
    ensures IsTrimmed(SeamAt(text, header)) && SeamAt(text, header).before <= text
  {
    hide OccursAt, LegacyHeader, EventMarker, BlockEnd, TrimStart, TrimEnd, IsSpace;
    FrontIsTrimmed(text, header);
    BackIsTrimmed(text, BlockEnd(text, header + |LegacyHeader()|));
  }

  lemma FrontIsTrimmed(text: string, n: nat)
    requires n <= |text|
    ensures var before := TrimEnd(text[..n]);
            before <= text && |before| <= n && (before != "" ==> !IsSpace(before[|before| - 1]))
  {
    hide TrimEnd, IsSpace;
    var cut := TrimEndSplits(text[..n]);
  }

  lemma BackIsTrimmed(text: string, n: nat)
    requires n <= |text|
    ensures var after := TrimStart(text[n..]);
            after != "" ==> !IsSpace(after[0])
  {
    hide TrimStart, IsSpace;
    var cut := TrimStartSplits(text[n..]);
  }

  /** A removal keeps the blocks behind the search and adds one exactly when its seam makes it. */
  lemma RemovalLeaves(text: string, searchFrom: nat, header: nat)
    requires searchFrom <= header && LegacyAt(text, header) && header + |LegacyHeader()| <= |text|
    requires forall j: nat :: searchFrom <= j < header ==> !OccursAt(text, LegacyHeader(), j)
    ensures var seam := SeamAt(text, header);
            BlockBehind(Joined(seam), LegacyContext.Resume(seam.before)) <==>
            BlockBehind(text, searchFrom) || MakesBlock(seam)
  {
    hide OccursAt, LegacyHeader, EventMarker, MakesBlock, BlockEnd, TrimEnd, TrimStart;
    HeaderParts();
    var seam := SeamAt(text, header);
    var joined, resume := Joined(seam), LegacyContext.Resume(seam.before);
    SeamIsTrimmed(text, header);
    assert seam.before <= joined;
    if k: nat :| k < resume && LegacyAt(joined, k) {
      BlockAtSeam(seam, k);
      if k + HEADER_LENGTH + MARKER_LENGTH <= |seam.before| {
        LegacyInPrefix(seam.before, joined, k);
        LegacyInPrefix(seam.before, text, k);
        FrontIsTrimmed(text, header);
        assert k < searchFrom;
      }
    }
    if k: nat :| k < searchFrom && LegacyAt(text, k) {
      NextHeaderIsBehind(text, k, header);
      BlockSurvivesTrim(text, header, k);
      LegacyInPrefix(seam.before, joined, k);
      LegacyInPrefix(seam.before, text, k);
      assert k < resume && LegacyAt(joined, k);
    }
    if MakesBlock(seam) {
      MadeBlockIsBehind(seam);
    }
  }

  lemma BlockSurvivesTrim(text: string, header: nat, k: nat)
    requires LegacyAt(text, k) && k + HEADER_LENGTH + MARKER_LENGTH <= header <= |text|
    ensures k + HEADER_LENGTH + MARKER_LENGTH <= |TrimEnd(text[..header])|
  {
    hide OccursAt, LegacyHeader, EventMarker;
    HeaderParts();
    var last := k + HEADER_LENGTH + MARKER_LENGTH - 1;
    CharOf(text, EventMarker(), k + HEADER_LENGTH, MARKER_LENGTH - 1);
    assert text[..header][last] == ']';
    TrimEndReaches(text[..header], last);
  }

  lemma MadeBlockIsBehind(seam: Seam)
    requires MakesBlock(seam)
    ensures BlockBehind(Joined(seam), LegacyContext.Resume(seam.before))
  {
    hide OccursAt, LegacyHeader, EventMarker, CutHeader;
    HeaderParts();
    var k := |seam.before| - CUT_LENGTH;
    SeamMakesBlock(seam, k);
    assert k < LegacyContext.Resume(seam.before) && LegacyAt(Joined(seam), k);
  }

  /** The search leaves a block exactly when there was one behind it or one of its removals makes one. */
  lemma {:induction false} SearchLeavesBlockIff(text: string, searchFrom: nat)
    requires searchFrom <= |text|
    ensures HasBlock(StripLegacy(text, searchFrom))
            <==> BlockBehind(text, searchFrom) || SomeSeamMakesBlock(text, searchFrom)
    decreases |text|, |text| - searchFrom
  {
    hide OccursAt, LegacyHeader, EventMarker, IndexFrom, MakesBlock, SeamAt, Joined, HasBlock;
    HeaderParts();
    IndexFromFinds(text, LegacyHeader(), searchFrom);
    var found := IndexFrom(text, LegacyHeader(), searchFrom);
    if found.None? {
      assert StripLegacy(text, searchFrom) == text && !SomeSeamMakesBlock(text, searchFrom);
      BlocksAreBehind(text, searchFrom);
    } else {
      var header := found.value;
      var eventStart := header + |LegacyHeader()|;
      if !OccursAt(text, EventMarker(), eventStart) {
        SearchLeavesBlockIff(text, eventStart);
        forall k: nat | k < eventStart && LegacyAt(text, k) ensures k < searchFrom {
          assert OccursAt(text, LegacyHeader(), k);
          if header < k {
            HeadersDoNotOverlap(text, header, k);
          }
        }
        LegacySkip(text, searchFrom, header);
      } else {
        assert LegacyAt(text, header);
        RemovalLeaves(text, searchFrom, header);
        RemovalStep(text, searchFrom, header);
        var seam := SeamAt(text, header);
        SearchLeavesBlockIff(Joined(seam), LegacyContext.Resume(seam.before));
      }
    }
  }

  lemma BlocksAreBehind(text: string, searchFrom: nat)
    requires forall j: nat :: searchFrom <= j ==> !OccursAt(text, LegacyHeader(), j)
    ensures HasBlock(text) <==> BlockBehind(text, searchFrom)
  {
    hide OccursAt, LegacyHeader, EventMarker;
    if k: nat :| LegacyAt(text, k) {
      assert OccursAt(text, LegacyHeader(), k);
      assert k < searchFrom && LegacyAt(text, k);
    }
  }

  lemma RemovalStep(text: string, searchFrom: nat, header: nat)
    requires searchFrom <= |text| && IndexFrom(text, LegacyHeader(), searchFrom) == Some(header)
    requires header + |LegacyHeader()| <= |text| && OccursAt(text, EventMarker(), header + |LegacyHeader()|)
    ensures var seam := SeamAt(text, header);
            && |Joined(seam)| < |text| && LegacyContext.Resume(seam.before) <= |Joined(seam)|
            && StripLegacy(text, searchFrom) == StripLegacy(Joined(seam), LegacyContext.Resume(seam.before))
            && (SomeSeamMakesBlock(text, searchFrom)
                <==> MakesBlock(seam) || SomeSeamMakesBlock(Joined(seam), LegacyContext.Resume(seam.before)))
  {
    hide OccursAt, LegacyHeader, EventMarker, IndexFrom, MakesBlock, BlockEnd, Rejoin, TrimEnd, TrimStart;
    RemovalProgresses(text, header);
    LegacyRemove(text, searchFrom, header);
  }

  /** Stripping leaves an older block exactly when one of its removals joins a header that lost its newlines to trimming
      with an event marker. */
  lemma LegacyBlockIsLeftIff(text: string)
    ensures HasBlock(StripLegacy(text, 0)) <==> SomeSeamMakesBlock(text, 0)
  {
    hide StripLegacy, SomeSeamMakesBlock, HasBlock;
    SearchLeavesBlockIff(text, 0);
  }

  /** Stripping once more changes the result exactly then. */
  lemma SecondPassChangesIff(text: string)
    ensures StripLegacy(StripLegacy(text, 0), 0) != StripLegacy(text, 0) <==> SomeSeamMakesBlock(text, 0)
  {
    hide StripLegacy, SomeSeamMakesBlock, LegacyAt;
    LegacyBlockIsLeftIff(text);
    LegacyStripChangesIff(StripLegacy(text, 0), 0);
  }

  // ----- a condition on the text itself -----

  /** A header at `k`, whatever its newlines, followed by nothing but space up to a block at `j`. */
  ghost predicate HeaderBeforeBlock(text: string, k: nat, j: nat) {
    && OccursAt(text, CutHeader(), k) && k + CUT_LENGTH <= j && LegacyAt(text, j)
    && j <= |text| && AllSpace(text[k + CUT_LENGTH..j])
  }

  ghost predicate NoHeaderBeforeBlock(text: string) {
    forall k: nat, j: nat :: !HeaderBeforeBlock(text, k, j)
  }

  /** A seam whose front ends in a trimmed header comes from a header before the removed block. */
  lemma CutSeamComesFromText(text: string, header: nat) returns (k: nat)
    requires LegacyAt(text, header) && header + |LegacyHeader()| <= |text|
    requires EndsWith(SeamAt(text, header).before, CutHeader())
    ensures HeaderBeforeBlock(text, k, header)
  {
    hide LegacyHeader, EventMarker, CutHeader, BlockEnd, TrimEnd, TrimStart;
    HeaderParts();
    var before := SeamAt(text, header).before;
    k := |before| - CUT_LENGTH;
    var cut := TrimEndSplits(text[..header]);
    SeamIsTrimmed(text, header);
    assert before[k..k + CUT_LENGTH] == CutHeader();
    OccursInPrefix(before, text, CutHeader(), k);
    assert text[..header][|before|..] == cut;
    assert text[|before|..header] == cut;
  }

  lemma CutInPrefix(before: string, text: string, k: nat, j: nat)
    requires before <= text && j + HEADER_LENGTH + MARKER_LENGTH <= |before| && HeaderBeforeBlock(before, k, j)
    ensures HeaderBeforeBlock(text, k, j)
  {
    hide OccursAt, LegacyHeader, EventMarker, CutHeader;
    HeaderParts();
    OccursInPrefix(before, text, CutHeader(), k);
    LegacyInPrefix(before, text, j);
    assert text[..|before|] == before;
    assert text[k + CUT_LENGTH..j] == before[k + CUT_LENGTH..j];
  }

  lemma CutInSuffix(text: string, after: string, shift: nat, k: nat, j: nat)
    requires shift <= |text| && text[shift..] == after
    ensures HeaderBeforeBlock(after, k, j) <==> HeaderBeforeBlock(text, shift + k, shift + j)
  {
    hide OccursAt, LegacyHeader, EventMarker, CutHeader;
    OccursInSuffix(text, after, shift, CutHeader(), k);
    LegacyInSuffix(text, after, shift, j);
    if k + CUT_LENGTH <= j <= |after| {
      assert after[k + CUT_LENGTH..j] == text[shift + k + CUT_LENGTH..shift + j];
    }
  }

  /** In a joined text, a header before a block lies on one side of the seam, or right before it. */
  lemma CutSidesOfSeam(seam: Seam, k: nat, j: nat)
    requires IsTrimmed(seam) && seam.before != "" && seam.after != "" && HeaderBeforeBlock(Joined(seam), k, j)
    ensures || j + HEADER_LENGTH + MARKER_LENGTH <= |seam.before|
            || EndsWith(seam.before, CutHeader())
            || |seam.before| + 2 <= k
  {
    hide OccursAt, LegacyHeader, EventMarker, CutHeader;
    HeaderParts();
    var text, b := Joined(seam), |seam.before|;
    assert text == seam.before + "\n\n" + seam.after;
    assert text[b] == '\n' && text[b + 1] == '\n' && text[b - 1] == seam.before[b - 1];
    if j < b {
      BlockAtSeam(seam, j);
    } else if k < b + 2 {
      if k + CUT_LENGTH < b {
        SpacesAre(text, k + CUT_LENGTH, j);
      } else {
        CutEndsAtSeam(text, k, b);
        OccursInPrefix(seam.before, text, CutHeader(), k);
        EndsIsOccurs(seam.before, CutHeader());
      }
    }
  }

  lemma EndsIsOccurs(s: string, t: string)
    requires |t| <= |s|
    ensures EndsWith(s, t) <==> OccursAt(s, t, |s| - |t|)
  {
    assert s[|s| - |t|..|s| - |t| + |t|] == s[|s| - |t|..];
  }

  /** A trimmed header that reaches two newlines ends before them. */
  lemma CutEndsAtSeam(text: string, k: nat, b: nat)
    requires OccursAt(text, CutHeader(), k) && k < b + 2 && b <= k + CUT_LENGTH && b + 1 < |text|
    requires text[b] == '\n' && text[b + 1] == '\n'
    ensures k + CUT_LENGTH == b
  {
    hide OccursAt, CutHeader;
    HeaderParts();
    if b < k {
      CharOf(text, CutHeader(), k, 0);
    } else if b < k + CUT_LENGTH {
      CharOf(text, CutHeader(), k, b - k);
      if b + 1 < k + CUT_LENGTH {
        CharOf(text, CutHeader(), k, b + 1 - k);
      }
    }
  }

  lemma JoinedHasNoHeaderBeforeBlock(text: string, header: nat)
    requires NoHeaderBeforeBlock(text) && LegacyAt(text, header) && header + |LegacyHeader()| <= |text|
    ensures NoHeaderBeforeBlock(Joined(SeamAt(text, header)))
  {
    hide OccursAt, LegacyHeader, EventMarker, CutHeader, BlockEnd, TrimEnd, TrimStart, HeaderBeforeBlock, EndsWith;
    HeaderParts();
    var seam := SeamAt(text, header);
    var joined := Joined(seam);
    var shift := |text| - |seam.after|;
    SeamIsTrimmed(text, header);
    AfterIsSuffix(text, BlockEnd(text, header + |LegacyHeader()|));
    forall k: nat, j: nat ensures !HeaderBeforeBlock(joined, k, j) {
      if HeaderBeforeBlock(joined, k, j) {
        BlockOfPair(joined, k, j);
        if seam.after == "" {
          assert joined == seam.before;
          CutInPrefix(seam.before, text, k, j);
        } else if seam.before == "" {
          assert joined == seam.after;
          CutInSuffix(text, seam.after, shift, k, j);
        } else {
          JoinedPair(text, header, k, j);
        }
      }
    }
  }

  lemma BlockOfPair(text: string, k: nat, j: nat)
    requires HeaderBeforeBlock(text, k, j)
    ensures j + HEADER_LENGTH + MARKER_LENGTH <= |text|
  {
    hide OccursAt, LegacyHeader, EventMarker, CutHeader;
    LegacyFits(text, j);
  }

  lemma AfterIsSuffix(text: string, n: nat)
    requires n <= |text|
    ensures |TrimStart(text[n..])| <= |text| && text[|text| - |TrimStart(text[n..])|..] == TrimStart(text[n..])
  {
    var cut := TrimStartSplits(text[n..]);
    var after := TrimStart(text[n..]);
    assert text[n..][|cut|..] == after;
    assert text[|text| - |after|..] == text[n + |cut|..];
  }

  lemma JoinedPair(text: string, header: nat, k: nat, j: nat)
    requires LegacyAt(text, header) && header + |LegacyHeader()| <= |text|
    requires var seam := SeamAt(text, header);
             seam.before != "" && seam.after != "" && HeaderBeforeBlock(Joined(seam), k, j)
    ensures !NoHeaderBeforeBlock(text)
  {
    hide OccursAt, LegacyHeader, EventMarker, CutHeader, BlockEnd, TrimEnd, TrimStart, HeaderBeforeBlock, EndsWith;
    var seam := SeamAt(text, header);
    var b, shift, joined := |seam.before|, |text| - |seam.after|, Joined(seam);
    SeamIsTrimmed(text, header);
    AfterIsSuffix(text, BlockEnd(text, header + |LegacyHeader()|));
    CutSidesOfSeam(seam, k, j);
    if j + HEADER_LENGTH + MARKER_LENGTH <= b {
      PairInFront(seam.before, joined, k, j);
      CutInPrefix(seam.before, text, k, j);
    } else if EndsWith(seam.before, CutHeader()) {
      var i := CutSeamComesFromText(text, header);
    } else {
      assert joined == seam.before + "\n\n" + seam.after;
      assert joined[b + 2..] == seam.after;
      PairIsOrdered(joined, k, j);
      CutInSuffix(joined, seam.after, b + 2, k - (b + 2), j - (b + 2));
      CutInSuffix(text, seam.after, shift, k - (b + 2), j - (b + 2));
    }
  }

  lemma PairIsOrdered(text: string, k: nat, j: nat)
    requires HeaderBeforeBlock(text, k, j)
    ensures k <= j
  {
  }

  lemma PairInFront(before: string, text: string, k: nat, j: nat)
    requires before <= text && HeaderBeforeBlock(text, k, j) && j + HEADER_LENGTH + MARKER_LENGTH <= |before|
    ensures HeaderBeforeBlock(before, k, j)
  {
    hide OccursAt, LegacyHeader, EventMarker, CutHeader;
    HeaderParts();
    OccursInPrefix(before, text, CutHeader(), k);
    LegacyInPrefix(before, text, j);
    assert text[..|before|] == before;
    assert text[k + CUT_LENGTH..j] == before[k + CUT_LENGTH..j];
  }

  lemma {:induction false} NoHeaderNoSeam(text: string, searchFrom: nat)
    requires searchFrom <= |text| && NoHeaderBeforeBlock(text)
    ensures !SomeSeamMakesBlock(text, searchFrom)
    decreases |text|, |text| - searchFrom
  {
    hide OccursAt, LegacyHeader, EventMarker, IndexFrom, SeamAt, Joined, CutHeader, HeaderBeforeBlock, EndsWith,
         StartsWith;
    HeaderParts();
    IndexFromFinds(text, LegacyHeader(), searchFrom);
    var found := IndexFrom(text, LegacyHeader(), searchFrom);
    if found.Some? {
      var header := found.value;
      var eventStart := header + |LegacyHeader()|;
      if !OccursAt(text, EventMarker(), eventStart) {
        NoHeaderNoSeam(text, eventStart);
      } else {
        assert LegacyAt(text, header);
        RemovalStep(text, searchFrom, header);
        JoinedHasNoHeaderBeforeBlock(text, header);
        var seam := SeamAt(text, header);
        NoHeaderNoSeam(Joined(seam), LegacyContext.Resume(seam.before));
        if EndsWith(seam.before, CutHeader()) {
          var k := CutSeamComesFromText(text, header);
        }
      }
    }
  }

  /** A text in which no header is followed, but for white space, by a block is stripped of every block. */
  lemma StrippedOfAllBlocks(text: string)
    requires NoHeaderBeforeBlock(text)
    ensures !HasBlock(StripLegacy(text, 0))
  {
    hide StripLegacy, SomeSeamMakesBlock, NoHeaderBeforeBlock, HasBlock;
    NoHeaderNoSeam(text, 0);
    LegacyBlockIsLeftIff(text);
  }
}
