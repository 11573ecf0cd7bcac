/** Where a chunk goes: what counts as a match, and which of the matches is taken (src/agents/apply-patch-update.ts). */
module PatchLocation {
  import opened Common
  import opened Text
  import opened PatchUpdate

  // ----- what counts as a match -----

  const DASHES := "-\U{2010}\U{2011}\U{2012}\U{2013}\U{2014}\U{2015}\U{2212}"
  const SINGLE_QUOTES := "'\U{2018}\U{2019}\U{201A}\U{201B}"
  const DOUBLE_QUOTES := "\"\U{201C}\U{201D}\U{201E}\U{201F}"
  const BLANKS :=
    " \U{00A0}\U{2002}\U{2003}\U{2004}\U{2005}\U{2006}\U{2007}\U{2008}" + "\U{2009}\U{200A}\U{202F}\U{205F}\U{3000}"

  /** The same character, or two dashes, two quotes of one kind or two blanks. */
  predicate Alike(c: char, d: char) {
    || c == d || (c in DASHES && d in DASHES) || (c in SINGLE_QUOTES && d in SINGLE_QUOTES)
    || (c in DOUBLE_QUOTES && d in DOUBLE_QUOTES) || (c in BLANKS && d in BLANKS)
  }

  lemma GroupOf(c: char)
    ensures NormalizeChar(c) == '-' <==> c in DASHES
    ensures NormalizeChar(c) == '\'' <==> c in SINGLE_QUOTES
    ensures NormalizeChar(c) == '"' <==> c in DOUBLE_QUOTES
    ensures NormalizeChar(c) == ' ' <==> c in BLANKS
    ensures NormalizeChar(c) in {'-', '\'', '"', ' ', c}
  {
  }

  lemma AlikeIff(c: char, d: char)
    ensures NormalizeChar(c) == NormalizeChar(d) <==> Alike(c, d)
  {
    hide NormalizeChar;
    GroupOf(c);
    GroupOf(d);
  }

  predicate Padded(s: string, left: string, core: string, right: string) {
    s == left + core + right && AllSpace(left) && AllSpace(right)
  }

  ghost predicate SameButTail(a: string, b: string) {
    exists core, ra, rb :: Padded(a, "", core, ra) && Padded(b, "", core, rb)
  }

  ghost predicate SameButEnds(a: string, b: string) {
    exists core, la, lb, ra, rb :: Padded(a, la, core, ra) && Padded(b, lb, core, rb)
  }

  /** The four levels, from strict to loose: equal; equal up to trailing white space; up to surrounding white space; and
      with surrounding white space cut off, alike character by character. */
  lemma LevelsMean(a: string, b: string)
    ensures Normalize(Exact, a) == Normalize(Exact, b) <==> a == b
    ensures Normalize(IgnoreTrailingSpace, a) == Normalize(IgnoreTrailingSpace, b) <==> SameButTail(a, b)
    ensures Normalize(IgnoreSurroundingSpace, a) == Normalize(IgnoreSurroundingSpace, b) <==> SameButEnds(a, b)
    ensures Normalize(IgnorePunctuation, a) == Normalize(IgnorePunctuation, b) <==>
            |Trim(a)| == |Trim(b)| && forall i :: 0 <= i < |Trim(a)| ==> Alike(Trim(a)[i], Trim(b)[i])
  {
    TrailingMeans(a, b);
    SurroundingMeans(a, b);
    PunctuationMeans(Trim(a), Trim(b));
  }

  lemma TrailingMeans(a: string, b: string)
    ensures TrimEnd(a) == TrimEnd(b) <==> SameButTail(a, b)
  {
    hide AllSpace, TrimEnd, IsSpace;
    var ra := TrimEndSplits(a);
    var rb := TrimEndSplits(b);
    NothingIsSpace();
    if TrimEnd(a) == TrimEnd(b) {
      assert Padded(a, "", TrimEnd(a), ra) && Padded(b, "", TrimEnd(a), rb);
    }
    if SameButTail(a, b) {
      var core, ra, rb :| Padded(a, "", core, ra) && Padded(b, "", core, rb);
      TrimEndOfPadded(core, ra);
      TrimEndOfPadded(core, rb);
      assert a == core + ra && b == core + rb;
    }
  }

  lemma NothingIsSpace()
    ensures AllSpace("")
  {
  }

  /** White space at the end does not matter for what is left after cutting it. */
  lemma {:induction false} TrimEndOfPadded(s: string, cut: string)
    requires AllSpace(cut)
    ensures TrimEnd(s + cut) == TrimEnd(s)
  {
    if cut == "" {
      assert s + cut == s;
    } else {
      var n := |cut| - 1;
      assert (s + cut)[..|s + cut| - 1] == s + cut[..n];
      assert (s + cut)[|s + cut| - 1] == cut[n];
      TrimEndOfPadded(s, cut[..n]);
    }
  }

  lemma {:induction false} TrimStartOfPadded(cut: string, s: string)
    requires AllSpace(cut)
    ensures TrimStart(cut + s) == TrimStart(s)
  {
    if cut == "" {
      assert cut + s == s;
    } else {
      assert (cut + s)[1..] == cut[1..] + s;
      TrimStartOfPadded(cut[1..], s);
    }
  }

  /** Cutting at the start and at the end in either order. */
  lemma TrimOfPadded(left: string, s: string, right: string)
    requires AllSpace(left) && AllSpace(right)
    ensures Trim(left + s + right) == Trim(s)
  {
    hide AllSpace, TrimStart, TrimEnd, IsSpace;
    assert left + s + right == left + (s + right);
    TrimStartOfPadded(left, s + right);
    var cut := TrimStartSplits(s);
    if TrimStart(s) == "" {
      assert s + right == cut + right && cut == s;
      TrimStartOfPadded(s, right);
      OnlySpace(right);
      EmptyTrims();
    } else {
      assert s + right == cut + (TrimStart(s) + right);
      TrimStartOfPadded(cut, TrimStart(s) + right);
      StartsBlack(TrimStart(s) + right);
      TrimEndOfPadded(TrimStart(s), right);
    }
  }

  lemma OnlySpace(s: string)
    requires AllSpace(s)
    ensures TrimStart(s) == ""
  {
    TrimStartOfPadded(s, "");
    assert s + "" == s;
  }

  lemma EmptyTrims()
    ensures TrimEnd("") == ""
  {
  }

  lemma StartsBlack(s: string)
    requires s != "" && !IsSpace(s[0])
    ensures TrimStart(s) == s
  {
  }

  lemma SurroundingMeans(a: string, b: string)
    ensures Trim(a) == Trim(b) <==> SameButEnds(a, b)
  {
    hide AllSpace, Trim, IsSpace;
    var la, ra := TrimSplits(a);
    var lb, rb := TrimSplits(b);
    assert Padded(a, la, Trim(a), ra) && Padded(b, lb, Trim(b), rb);
    if SameButEnds(a, b) {
      var core, la, lb, ra, rb :| Padded(a, la, core, ra) && Padded(b, lb, core, rb);
      TrimOfPadded(la, core, ra);
      TrimOfPadded(lb, core, rb);
    }
  }

  lemma PunctuationMeans(a: string, b: string)
    ensures NormalizePunctuation(a) == NormalizePunctuation(b) <==>
            |a| == |b| && forall i :: 0 <= i < |a| ==> Alike(a[i], b[i])
  {
    hide NormalizeChar, Alike;
    var na, nb := NormalizePunctuation(a), NormalizePunctuation(b);
    forall i | 0 <= i < |a| && i < |b| ensures NormalizeChar(a[i]) == NormalizeChar(b[i]) <==> Alike(a[i], b[i]) {
      AlikeIff(a[i], b[i]);
    }
    if na == nb {
      assert |na| == |nb|;
      assert forall i :: 0 <= i < |a| ==> na[i] == NormalizeChar(a[i]) && nb[i] == NormalizeChar(b[i]);
    }
  }

  // ----- which match is taken -----

  /** The search for lines tied to the end of the file looks at one place only. */
  function LookFrom(lines: seq<string>, pattern: seq<string>, from: nat, eof: bool): nat {
    if eof && |pattern| <= |lines| then |lines| - |pattern| else from
  }

  ghost predicate IsTaken(lines: seq<string>, pattern: seq<string>, from: nat, eof: bool, i: nat) {
    if pattern == [] then i == from
    else exists level :: BestMatch(lines, pattern, LookFrom(lines, pattern, from, eof), i, level)
  }

  ghost predicate NoneTaken(lines: seq<string>, pattern: seq<string>, from: nat, eof: bool) {
    pattern != []
    && forall j: nat :: LookFrom(lines, pattern, from, eof) <= j ==> !MatchesAt(lines, pattern, j, IgnorePunctuation)
  }

  lemma BestIsUnique(lines: seq<string>, pattern: seq<string>, from: nat, i: nat, j: nat, a: Level, b: Level)
    requires BestMatch(lines, pattern, from, i, a) && BestMatch(lines, pattern, from, j, b)
    ensures i == j
  {
    hide MatchesAt;
    assert Rank(a) == Rank(b);
    assert a == b;
  }

  lemma SeekIff(lines: seq<string>, pattern: seq<string>, from: nat, eof: bool, i: nat)
    ensures Seek(lines, pattern, from, eof) == Some(i) <==> IsTaken(lines, pattern, from, eof, i)
    ensures Seek(lines, pattern, from, eof) == None <==> NoneTaken(lines, pattern, from, eof)
  {
    hide MatchesAt, FirstMatch, BestMatch;
    if pattern != [] {
      SeekFindsBestMatch(lines, pattern, from, eof);
      var at := LookFrom(lines, pattern, from, eof);
      var r := Seek(lines, pattern, from, eof);
      if IsTaken(lines, pattern, from, eof, i) {
        var level :| BestMatch(lines, pattern, at, i, level);
        BestIsAMatch(lines, pattern, at, i, level);
        var found :| BestMatch(lines, pattern, at, r.value, found);
        BestIsUnique(lines, pattern, at, i, r.value, level, found);
      }
    }
  }

  lemma BestIsAMatch(lines: seq<string>, pattern: seq<string>, from: nat, i: nat, level: Level)
    requires BestMatch(lines, pattern, from, i, level)
    ensures from <= i && MatchesAt(lines, pattern, i, IgnorePunctuation)
  {
    hide MatchesAt;
    MatchesAtLooser(lines, pattern, i, level, IgnorePunctuation);
  }

  /** `from` is where the search for the old lines starts: right behind the best match of the context line, if any. */
  ghost predicate BehindContext(lines: seq<string>, chunk: UpdateFileChunk, lineIndex: nat, from: nat) {
    if chunk.changeContext.None? || chunk.changeContext.value == "" then from == lineIndex
    else exists k: nat, level ::
           BestMatch(lines, [chunk.changeContext.value], lineIndex, k, level) && from == k + 1
  }

  /** The lines as given are taken, or, when they are nowhere, the lines without a blank last one. */
  ghost predicate TakesOldLines(lines: seq<string>, chunk: UpdateFileChunk, from: nat, r: Replacement) {
    var given, n := chunk.oldLines, |chunk.oldLines|;
    || (IsTaken(lines, given, from, chunk.isEndOfFile, r.start) && r.oldLen == n && r.newLines == chunk.newLines)
    || (n > 0 && given[n - 1] == "" && NoneTaken(lines, given, from, chunk.isEndOfFile)
        && IsTaken(lines, given[..n - 1], from, chunk.isEndOfFile, r.start) && r.oldLen == n - 1
        && r.newLines == (if chunk.newLines != [] && chunk.newLines[|chunk.newLines| - 1] == ""
                          then chunk.newLines[..|chunk.newLines| - 1] else chunk.newLines))
  }

  /** A chunk without old lines goes to the end of the file, in front of a blank last line; its context moves the
      search on. */
  ghost predicate Goes(lines: seq<string>, chunk: UpdateFileChunk, lineIndex: nat, located: Located) {
    exists from: nat :: BehindContext(lines, chunk, lineIndex, from)
      && if chunk.oldLines == [] then
           && located.lineIndex == from && located.replacement.oldLen == 0
           && located.replacement.newLines == chunk.newLines
           && located.replacement.start == if lines != [] && lines[|lines| - 1] == "" then |lines| - 1 else |lines|
         else
           && TakesOldLines(lines, chunk, from, located.replacement)
           && located.lineIndex == located.replacement.start + located.replacement.oldLen
  }

  lemma ContextIff(lines: seq<string>, chunk: UpdateFileChunk, lineIndex: nat, from: nat)
    ensures AfterContext(lines, chunk, lineIndex) == Ok(from) <==> BehindContext(lines, chunk, lineIndex, from)
  {
    hide Seek, BestMatch;
    if chunk.changeContext.Some? && chunk.changeContext.value != "" {
      var context := [chunk.changeContext.value];
      if from > 0 {
        SeekIff(lines, context, lineIndex, false, from - 1);
      }
      if BehindContext(lines, chunk, lineIndex, from) {
        var k: nat, level :| BestMatch(lines, context, lineIndex, k, level) && from == k + 1;
        SeekIff(lines, context, lineIndex, false, k);
        assert LookFrom(lines, context, lineIndex, false) == lineIndex;
        assert IsTaken(lines, context, lineIndex, false, k);
      }
    }
  }

  lemma OldLinesIff(lines: seq<string>, chunk: UpdateFileChunk, from: nat, r: Replacement)
    requires chunk.oldLines != []
    ensures LocateOld(lines, chunk, from) == Ok(r) <==> TakesOldLines(lines, chunk, from, r)
  {
    hide Seek, IsTaken, NoneTaken;
    var given := chunk.oldLines;
    SeekIff(lines, given, from, chunk.isEndOfFile, r.start);
    SeekIff(lines, given[..|given| - 1], from, chunk.isEndOfFile, r.start);
  }

  /** Every chunk is located exactly where this says: behind its context line, at the leftmost match of its old lines
      at the strictest level that has one. */
  lemma LocateIff(lines: seq<string>, chunk: UpdateFileChunk, lineIndex: nat, located: Located)
    ensures Locate(lines, chunk, lineIndex) == Ok(located) <==> Goes(lines, chunk, lineIndex, located)
  {
    hide AfterContext, LocateOld, BehindContext, TakesOldLines;
    forall from: nat
      ensures AfterContext(lines, chunk, lineIndex) == Ok(from) <==> BehindContext(lines, chunk, lineIndex, from)
    {
      ContextIff(lines, chunk, lineIndex, from);
    }
    if chunk.oldLines != [] {
      forall from: nat
        ensures LocateOld(lines, chunk, from) == Ok(located.replacement)
                <==> TakesOldLines(lines, chunk, from, located.replacement)
      {
        OldLinesIff(lines, chunk, from, located.replacement);
      }
    }
  }

  /** Locating fails for the context exactly when it is nowhere behind the search position, and for the old lines
      exactly when they are nowhere behind the context, with or without a blank last line. */
  lemma LocateFailsIff(lines: seq<string>, chunk: UpdateFileChunk, lineIndex: nat)
    ensures Locate(lines, chunk, lineIndex).Err? && Locate(lines, chunk, lineIndex).error.ContextNotFound? <==>
            chunk.changeContext.Some? && chunk.changeContext.value != ""
            && NoneTaken(lines, [chunk.changeContext.value], lineIndex, false)
    ensures Locate(lines, chunk, lineIndex).Err? && Locate(lines, chunk, lineIndex).error.LinesNotFound? <==>
            exists from: nat :: BehindContext(lines, chunk, lineIndex, from) && NowhereFrom(lines, chunk, from)
  {
    hide Seek, NoneTaken, BehindContext, LocateOld;
    forall from: nat
      ensures AfterContext(lines, chunk, lineIndex) == Ok(from) <==> BehindContext(lines, chunk, lineIndex, from)
    {
      ContextIff(lines, chunk, lineIndex, from);
    }
    if chunk.changeContext.Some? && chunk.changeContext.value != "" {
      SeekIff(lines, [chunk.changeContext.value], lineIndex, false, 0);
    }
    forall from: nat | chunk.oldLines != []
      ensures LocateOld(lines, chunk, from).Err? <==> NowhereFrom(lines, chunk, from)
      ensures LocateOld(lines, chunk, from).Err? ==> LocateOld(lines, chunk, from).error.LinesNotFound?
    {
      OldLinesFailIff(lines, chunk, from);
    }
  }

  ghost predicate NowhereFrom(lines: seq<string>, chunk: UpdateFileChunk, from: nat) {
    var given, n := chunk.oldLines, |chunk.oldLines|;
    && n > 0 && NoneTaken(lines, given, from, chunk.isEndOfFile)
    && (given[n - 1] == "" ==> NoneTaken(lines, given[..n - 1], from, chunk.isEndOfFile))
  }

  lemma OldLinesFailIff(lines: seq<string>, chunk: UpdateFileChunk, from: nat)
    requires chunk.oldLines != []
    ensures LocateOld(lines, chunk, from).Err? <==> NowhereFrom(lines, chunk, from)
    ensures LocateOld(lines, chunk, from).Err? ==> LocateOld(lines, chunk, from).error == LinesNotFound(chunk.oldLines)
  {
    hide Seek, NoneTaken;
    var given := chunk.oldLines;
    SeekIff(lines, given, from, chunk.isEndOfFile, 0);
    SeekIff(lines, given[..|given| - 1], from, chunk.isEndOfFile, 0);
  }

  // ----- the order of the replacements -----

  /** Sorting keeps every replacement, puts them in order of their starts, and keeps the order of those that start
      together. */
  lemma {:induction false} SortedIsStable(rs: seq<Replacement>)
    ensures multiset(SortByStart(rs)) == multiset(rs)
    ensures forall i, j :: 0 <= i < j < |SortByStart(rs)| ==> SortByStart(rs)[i].start <= SortByStart(rs)[j].start
    ensures forall start: nat :: StartingAt(SortByStart(rs), start) == StartingAt(rs, start)
  {
    if rs != [] {
      var n := |rs| - 1;
      var front := rs[..n];
      SortedIsStable(front);
      InsertedIsStable(SortByStart(front), rs[n]);
      assert rs == front + [rs[n]];
      forall start: nat ensures StartingAt(SortByStart(rs), start) == StartingAt(rs, start) {
        StartingSnoc(front, rs[n], start);
        StartingSnoc(SortByStart(front), rs[n], start);
      }
    }
  }

  /** The replacements that start here, in order. */
  function StartingAt(rs: seq<Replacement>, start: nat): seq<Replacement> {
    if rs == [] then []
    else
      var last := rs[|rs| - 1];
      StartingAt(rs[..|rs| - 1], start) + if last.start == start then [last] else []
  }

  lemma StartingSnoc(rs: seq<Replacement>, r: Replacement, start: nat)
    ensures StartingAt(rs + [r], start) == StartingAt(rs, start) + if r.start == start then [r] else []
  {
    assert (rs + [r])[..|rs|] == rs;
  }

  ghost predicate Ascending(rs: seq<Replacement>) {
    forall i, j :: 0 <= i < j < |rs| ==> rs[i].start <= rs[j].start
  }

  lemma {:induction false} InsertedIsStable(sorted: seq<Replacement>, r: Replacement)
    requires Ascending(sorted)
    ensures multiset(InsertByStart(sorted, r)) == multiset(sorted + [r])
    ensures Ascending(InsertByStart(sorted, r))
    ensures forall start: nat :: StartingAt(InsertByStart(sorted, r), start) == StartingAt(sorted + [r], start)
  {
    hide StartingAt, Ascending;
    var n := |sorted| - 1;
    if sorted == [] || sorted[n].start <= r.start {
      LastIsBehind(sorted, r);
    } else {
      var front, last := sorted[..n], sorted[n];
      assert sorted == front + [last];
      FrontIsAscending(sorted);
      InsertedIsStable(front, r);
      var inner := InsertByStart(front, r);
      LastStaysLast(front, inner, r, last);
      hide InsertByStart;
      forall start: nat ensures StartingAt(inner + [last], start) == StartingAt(sorted + [r], start) {
        StartingSnoc(inner, last, start);
        StartingSnoc(front, r, start);
        StartingSnoc(front, last, start);
        StartingSnoc(sorted, r, start);
      }
    }
  }

  lemma LastIsBehind(sorted: seq<Replacement>, r: Replacement)
    requires Ascending(sorted) && (sorted == [] || sorted[|sorted| - 1].start <= r.start)
    ensures Ascending(sorted + [r])
  {
  }

  lemma FrontIsAscending(sorted: seq<Replacement>)
    requires Ascending(sorted) && sorted != []
    ensures Ascending(sorted[..|sorted| - 1])
    ensures forall r :: r in sorted[..|sorted| - 1] ==> r.start <= sorted[|sorted| - 1].start
  {
  }

  lemma LastStaysLast(front: seq<Replacement>, inner: seq<Replacement>, r: Replacement, last: Replacement)
    requires multiset(inner) == multiset(front + [r]) && Ascending(inner)
    requires r.start < last.start && forall x :: x in front ==> x.start <= last.start
    ensures multiset(inner + [last]) == multiset((front + [last]) + [r])
    ensures Ascending(inner + [last])
  {
    forall i | 0 <= i < |inner| ensures inner[i].start <= last.start {
      assert inner[i] in multiset(inner);
      assert inner[i] in front + [r];
    }
  }
}
