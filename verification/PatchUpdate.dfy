/** Locating and splicing the chunks of an update hunk (src/agents/apply-patch-update.ts). */
module PatchUpdate {
  import opened Common
  import opened Text

  datatype UpdateFileChunk = UpdateFileChunk(
    changeContext: Option<string>,
    oldLines: seq<string>,
    newLines: seq<string>,
    isEndOfFile: bool)

  datatype UpdateError = ContextNotFound(context: string) | LinesNotFound(expected: seq<string>)

  // ----- fuzzy comparison -----

  function NormalizeChar(c: char): char {
    if c in {'\U{2010}', '\U{2011}', '\U{2012}', '\U{2013}', '\U{2014}', '\U{2015}', '\U{2212}'} then '-'
    else if c in {'\U{2018}', '\U{2019}', '\U{201A}', '\U{201B}'} then '\''
    else if c in {'\U{201C}', '\U{201D}', '\U{201E}', '\U{201F}'} then '"'
    else if c in {'\U{00A0}', '\U{2002}', '\U{2003}', '\U{2004}', '\U{2005}', '\U{2006}', '\U{2007}',
                  '\U{2008}', '\U{2009}', '\U{200A}', '\U{202F}', '\U{205F}', '\U{3000}'} then ' '
    else c
  }

  function NormalizePunctuation(s: string): string {
    seq(|s|, i requires 0 <= i < |s| => NormalizeChar(s[i]))
  }

  /** From strictest to loosest. */
  datatype Level = Exact | IgnoreTrailingSpace | IgnoreSurroundingSpace | IgnorePunctuation

  function Rank(level: Level): nat {
    match level
    case Exact => 0
    case IgnoreTrailingSpace => 1
    case IgnoreSurroundingSpace => 2
    case IgnorePunctuation => 3
  }

  function Normalize(level: Level, s: string): string {
    match level
    case Exact => s
    case IgnoreTrailingSpace => TrimEnd(s)
    case IgnoreSurroundingSpace => Trim(s)
    case IgnorePunctuation => NormalizePunctuation(Trim(s))
  }

  predicate MatchesAt(lines: seq<string>, pattern: seq<string>, start: nat, level: Level) {
    start + |pattern| <= |lines|
    && forall i :: 0 <= i < |pattern| ==> Normalize(level, lines[start + i]) == Normalize(level, pattern[i])
  }

  /** Each level only forgets more than the one before. */
  lemma LooserStillMatches(a: string, b: string, strict: Level, loose: Level)
    requires Rank(strict) <= Rank(loose) && Normalize(strict, a) == Normalize(strict, b)
    ensures Normalize(loose, a) == Normalize(loose, b)
  {
    TrimOfTrimEnd(a);
    TrimOfTrimEnd(b);
  }

  lemma MatchesAtLooser(lines: seq<string>, pattern: seq<string>, start: nat, strict: Level, loose: Level)
    requires Rank(strict) <= Rank(loose) && MatchesAt(lines, pattern, start, strict)
    ensures MatchesAt(lines, pattern, start, loose)
  {
    forall i | 0 <= i < |pattern| ensures Normalize(loose, lines[start + i]) == Normalize(loose, pattern[i]) {
      LooserStillMatches(lines[start + i], pattern[i], strict, loose);
    }
  }

  method LinesMatch(lines: seq<string>, pattern: seq<string>, start: nat, level: Level) returns (r: bool)
    requires start + |pattern| <= |lines|
    ensures r == MatchesAt(lines, pattern, start, level)
  {
    for idx := 0 to |pattern|
      invariant forall i :: 0 <= i < idx ==> Normalize(level, lines[start + i]) == Normalize(level, pattern[i])
    {
      if Normalize(level, lines[start + idx]) != Normalize(level, pattern[idx]) {
        return false;
      }
    }
    return true;
  }

  // ----- searching -----

  function FirstMatch(lines: seq<string>, pattern: seq<string>, from: nat, level: Level): (r: Option<nat>)
    ensures r.Some? ==> from <= r.value && MatchesAt(lines, pattern, r.value, level)
                        && forall j: nat :: from <= j < r.value ==> !MatchesAt(lines, pattern, j, level)
    ensures r.None? ==> forall j: nat :: from <= j ==> !MatchesAt(lines, pattern, j, level)
    decreases |lines| - from
  {
    if from + |pattern| > |lines| then None
    else if MatchesAt(lines, pattern, from, level) then Some(from)
    else if from + |pattern| == |lines| then None
    else FirstMatch(lines, pattern, from + 1, level)
  }

  function SearchStart(lines: seq<string>, pattern: seq<string>, start: nat, eof: bool): nat {
    if eof && |lines| >= |pattern| then |lines| - |pattern| else start
  }

  function OrElse(a: Option<nat>, b: Option<nat>): Option<nat> {
    if a.Some? then a else b
  }

  function Seek(lines: seq<string>, pattern: seq<string>, start: nat, eof: bool): Option<nat> {
    if pattern == [] then Some(start)
    else
      var from := SearchStart(lines, pattern, start, eof);
      OrElse(FirstMatch(lines, pattern, from, Exact),
        OrElse(FirstMatch(lines, pattern, from, IgnoreTrailingSpace),
          OrElse(FirstMatch(lines, pattern, from, IgnoreSurroundingSpace),
            FirstMatch(lines, pattern, from, IgnorePunctuation))))
  }

  method ScanLevel(lines: seq<string>, pattern: seq<string>, searchStart: nat, level: Level) returns (r: Option<nat>)
    requires searchStart + |pattern| <= |lines|
    ensures r == FirstMatch(lines, pattern, searchStart, level)
  {
    hide MatchesAt;
    var maxStart := |lines| - |pattern|;
    var i := searchStart;
    while i <= maxStart
      invariant searchStart <= i <= maxStart + 1
      invariant FirstMatch(lines, pattern, searchStart, level) == FirstMatch(lines, pattern, i, level)
    {
      var here := LinesMatch(lines, pattern, i, level);
      if here {
        return Some(i);
      }
      i := i + 1;
    }
    return None;
  }

  lemma OutOfRange(lines: seq<string>, pattern: seq<string>, from: nat)
    ensures from + |pattern| > |lines| ==> forall level :: FirstMatch(lines, pattern, from, level) == None
  {
  }

  method SeekSequence(lines: seq<string>, pattern: seq<string>, start: nat, eof: bool) returns (r: Option<nat>)
    ensures r == Seek(lines, pattern, start, eof)
  {
    hide FirstMatch;
    if pattern == [] {
      return Some(start);
    }
    OutOfRange(lines, pattern, SearchStart(lines, pattern, start, eof));
    if |pattern| > |lines| {
      return None;
    }
    var maxStart := |lines| - |pattern|;
    var searchStart := if eof && |lines| >= |pattern| then maxStart else start;
    if searchStart > maxStart {
      return None;
    }
    r := ScanLevel(lines, pattern, searchStart, Exact);
    if r.None? {
      r := ScanLevel(lines, pattern, searchStart, IgnoreTrailingSpace);
    }
    if r.None? {
      r := ScanLevel(lines, pattern, searchStart, IgnoreSurroundingSpace);
    }
    if r.None? {
      r := ScanLevel(lines, pattern, searchStart, IgnorePunctuation);
    }
  }

  /** Leftmost in range at the strictest level that has any match in range. */
  ghost predicate BestMatch(lines: seq<string>, pattern: seq<string>, from: nat, i: nat, level: Level) {
    && from <= i && MatchesAt(lines, pattern, i, level)
    && (forall j: nat :: from <= j < i ==> !MatchesAt(lines, pattern, j, level))
    && (forall j: nat, stricter: Level :: from <= j && Rank(stricter) < Rank(level) ==>
          !MatchesAt(lines, pattern, j, stricter))
  }

  /** A non-empty pattern is found exactly when it matches somewhere in range at the loosest level,
      and then at the leftmost place at the strictest level that has any. */
  lemma SeekFindsBestMatch(lines: seq<string>, pattern: seq<string>, start: nat, eof: bool)
    requires pattern != []
    ensures var from := SearchStart(lines, pattern, start, eof);
            var r := Seek(lines, pattern, start, eof);
            && (r.Some? <==> exists j: nat :: from <= j && MatchesAt(lines, pattern, j, IgnorePunctuation))
            && (r.Some? ==> exists level :: BestMatch(lines, pattern, from, r.value, level))
  {
    hide FirstMatch, MatchesAt;
    var from := SearchStart(lines, pattern, start, eof);
    var r := Seek(lines, pattern, start, eof);
    var level := if FirstMatch(lines, pattern, from, Exact).Some? then Exact
                 else if FirstMatch(lines, pattern, from, IgnoreTrailingSpace).Some? then IgnoreTrailingSpace
                 else if FirstMatch(lines, pattern, from, IgnoreSurroundingSpace).Some? then IgnoreSurroundingSpace
                 else IgnorePunctuation;
    if r.Some? {
      assert BestMatch(lines, pattern, from, r.value, level);
      MatchesAtLooser(lines, pattern, r.value, level, IgnorePunctuation);
    }
  }

  // ----- from chunks to replacements -----

  datatype Replacement = Replacement(start: nat, oldLen: nat, newLines: seq<string>)

  function EndOf(r: Replacement): nat {
    r.start + r.oldLen
  }

  predicate LastLineBlank(lines: seq<string>) {
    lines != [] && lines[|lines| - 1] == ""
  }

  function InsertionIndex(lines: seq<string>): nat {
    if LastLineBlank(lines) then |lines| - 1 else |lines|
  }

  function WithoutLast(lines: seq<string>): seq<string> {
    if LastLineBlank(lines) then lines[..|lines| - 1] else lines
  }

  datatype Located = Located(replacement: Replacement, lineIndex: nat)

  /** Where the search for a chunk's old lines starts: after its context line, if it has one. */
  function AfterContext(lines: seq<string>, chunk: UpdateFileChunk, lineIndex: nat): Result<nat, UpdateError> {
    if chunk.changeContext.None? || chunk.changeContext.value == "" then Ok(lineIndex)
    else match Seek(lines, [chunk.changeContext.value], lineIndex, false)
      case None => Err(ContextNotFound(chunk.changeContext.value))
      case Some(i) => Ok(i + 1)
  }

  /** A chunk with old lines: found as given, or without a blank last line. */
  function LocateOld(lines: seq<string>, chunk: UpdateFileChunk, lineIndex: nat): Result<Replacement, UpdateError>
    requires chunk.oldLines != []
  {
    match Seek(lines, chunk.oldLines, lineIndex, chunk.isEndOfFile)
    case Some(found) => Ok(Replacement(found, |chunk.oldLines|, chunk.newLines))
    case None =>
      if !LastLineBlank(chunk.oldLines) then Err(LinesNotFound(chunk.oldLines))
      else
        var pattern := chunk.oldLines[..|chunk.oldLines| - 1];
        match Seek(lines, pattern, lineIndex, chunk.isEndOfFile)
        case None => Err(LinesNotFound(chunk.oldLines))
        case Some(found) => Ok(Replacement(found, |pattern|, WithoutLast(chunk.newLines)))
  }

  function Locate(lines: seq<string>, chunk: UpdateFileChunk, lineIndex: nat): Result<Located, UpdateError> {
    match AfterContext(lines, chunk, lineIndex)
    case Err(e) => Err(e)
    case Ok(from) =>
      if chunk.oldLines == [] then Ok(Located(Replacement(InsertionIndex(lines), 0, chunk.newLines), from))
      else match LocateOld(lines, chunk, from)
        case Err(e) => Err(e)
        case Ok(r) => Ok(Located(r, EndOf(r)))
  }

  /** The replacements in the order of the chunks. */
  function Collect(lines: seq<string>, chunks: seq<UpdateFileChunk>, lineIndex: nat): Result<seq<Replacement>,
      UpdateError>
    decreases |chunks|
  {
    if chunks == [] then Ok([])
    else match Locate(lines, chunks[0], lineIndex)
      case Err(e) => Err(e)
      case Ok(located) =>
        match Collect(lines, chunks[1..], located.lineIndex)
        case Err(e) => Err(e)
        case Ok(rest) => Ok([located.replacement] + rest)
  }

  /** Stable insertion: after everything that starts no later. */
  function InsertByStart(sorted: seq<Replacement>, r: Replacement): seq<Replacement> {
    if sorted == [] || sorted[|sorted| - 1].start <= r.start then sorted + [r]
    else InsertByStart(sorted[..|sorted| - 1], r) + [sorted[|sorted| - 1]]
  }

  function SortByStart(rs: seq<Replacement>): seq<Replacement> {
    if rs == [] then [] else InsertByStart(SortByStart(rs[..|rs| - 1]), rs[|rs| - 1])
  }

  function Replacements(lines: seq<string>, chunks: seq<UpdateFileChunk>): Result<seq<Replacement>, UpdateError> {
    match Collect(lines, chunks, 0)
    case Err(e) => Err(e)
    case Ok(rs) => Ok(SortByStart(rs))
  }

  /** One turn of the loop: search for the context, then for the old lines, and move on past them. */
  method LocateChunk(lines: seq<string>, chunk: UpdateFileChunk, start: nat) returns (r: Result<Located, UpdateError>)
    ensures r == Locate(lines, chunk, start)
  {
    hide Seek;
    var lineIndex := start;
    if chunk.changeContext.Some? && chunk.changeContext.value != "" {
      var ctxIndex := SeekSequence(lines, [chunk.changeContext.value], lineIndex, false);
      if ctxIndex.None? {
        return Err(ContextNotFound(chunk.changeContext.value));
      }
      lineIndex := ctxIndex.value + 1;
    }
    if chunk.oldLines == [] {
      var insertionIndex := if |lines| > 0 && lines[|lines| - 1] == "" then |lines| - 1 else |lines|;
      return Ok(Located(Replacement(insertionIndex, 0, chunk.newLines), lineIndex));
    }
    var pattern := chunk.oldLines;
    var newSlice := chunk.newLines;
    var found := SeekSequence(lines, pattern, lineIndex, chunk.isEndOfFile);
    if found.None? && pattern[|pattern| - 1] == "" {
      pattern := pattern[..|pattern| - 1];
      if |newSlice| > 0 && newSlice[|newSlice| - 1] == "" {
        newSlice := newSlice[..|newSlice| - 1];
      }
      found := SeekSequence(lines, pattern, lineIndex, chunk.isEndOfFile);
    }
    if found.None? {
      return Err(LinesNotFound(chunk.oldLines));
    }
    return Ok(Located(Replacement(found.value, |pattern|, newSlice), found.value + |pattern|));
  }

  method ComputeReplacements(lines: seq<string>, chunks: seq<UpdateFileChunk>)
      returns (r: Result<seq<Replacement>, UpdateError>)
    ensures r == Replacements(lines, chunks)
  {
    hide Collect, Locate, SortByStart;
    var replacements: seq<Replacement> := [];
    var lineIndex: nat := 0;
    assert chunks[0..] == chunks;
    PrependNothing(Collect(lines, chunks, 0));
    for k := 0 to |chunks|
      invariant Collect(lines, chunks, 0) == Prepend(replacements, Collect(lines, chunks[k..], lineIndex))
    {
      assert chunks[k..][0] == chunks[k] && chunks[k..][1..] == chunks[k + 1..];
      CollectStep(lines, chunks[k..], lineIndex);
      var located := LocateChunk(lines, chunks[k], lineIndex);
      if located.Err? {
        return Err(located.error);
      }
      PrependTwice(replacements, located.value.replacement, Collect(lines, chunks[k + 1..], located.value.lineIndex));
      replacements := replacements + [located.value.replacement];
      lineIndex := located.value.lineIndex;
    }
    CollectNothing(lines, chunks[|chunks|..], lineIndex);
    assert replacements + [] == replacements;
    return Ok(SortByStart(replacements));
  }

  lemma CollectStep(lines: seq<string>, chunks: seq<UpdateFileChunk>, lineIndex: nat)
    requires chunks != []
    ensures Collect(lines, chunks, lineIndex) ==
            match Locate(lines, chunks[0], lineIndex)
            case Err(e) => Err(e)
            case Ok(located) => Prepend([located.replacement], Collect(lines, chunks[1..], located.lineIndex))
  {
  }

  lemma CollectNothing(lines: seq<string>, chunks: seq<UpdateFileChunk>, lineIndex: nat)
    requires chunks == []
    ensures Collect(lines, chunks, lineIndex) == Ok([])
  {
  }

  lemma PrependTwice(front: seq<Replacement>, r: Replacement, rest: Result<seq<Replacement>, UpdateError>)
    ensures Prepend(front, Prepend([r], rest)) == Prepend(front + [r], rest)
  {
    if rest.Ok? {
      assert front + ([r] + rest.value) == (front + [r]) + rest.value;
    }
  }

  function Prepend(front: seq<Replacement>, r: Result<seq<Replacement>, UpdateError>): Result<seq<Replacement>,
      UpdateError> {
    match r case Ok(rest) => Ok(front + rest) case Err(e) => Err(e)
  }

  lemma PrependNothing(r: Result<seq<Replacement>, UpdateError>)
    ensures Prepend([], r) == r
  {
    if r.Ok? {
      assert [] + r.value == r.value;
    }
  }
}
