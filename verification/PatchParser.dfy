/** The line parser for patches (src/agents/apply-patch.ts). */
module PatchParser {
  import opened Common
  import opened Text
  import opened PatchUpdate

  const BEGIN_PATCH_MARKER := "*** Begin Patch"
  const END_PATCH_MARKER := "*** End Patch"
  const ADD_FILE_MARKER := "*** Add File: "
  const DELETE_FILE_MARKER := "*** Delete File: "
  const UPDATE_FILE_MARKER := "*** Update File: "
  const MOVE_TO_MARKER := "*** Move to: "
  const EOF_MARKER := "*** End of File"
  const CHANGE_CONTEXT_MARKER := "@@ "
  const EMPTY_CHANGE_CONTEXT_MARKER := "@@"

  datatype Hunk =
    | AddFile(path: string, contents: string)
    | DeleteFile(path: string)
    | UpdateFile(path: string, movePath: Option<string>, chunks: seq<UpdateFileChunk>)

  datatype ParseError =
    | EmptyInput
    | BadFirstLine
    | BadLastLine
    | EmptyHunk(line: nat)
    | BadHeader(line: nat, text: string)
    | EmptyUpdate(line: nat, path: string)
    | MissingContext(line: nat, text: string)
    | NoLines(line: nat)
    | UnexpectedLine(line: nat, text: string)

  datatype ParsedPatch = ParsedPatch(hunks: seq<Hunk>, patch: string)
  datatype ParsedHunk = ParsedHunk(hunk: Hunk, consumed: nat)
  datatype ParsedChunk = ParsedChunk(chunk: UpdateFileChunk, consumed: nat)

  // ----- lines -----

  function DropReturn(line: string): string {
    if line != "" && line[|line| - 1] == '\r' then line[..|line| - 1] else line
  }

  /** `s.split(/\r?\n/)`: one carriage return goes with the newline that follows it. */
  function SplitLines(s: string): (lines: seq<string>)
    ensures |lines| > 0
  {
    var lines := Lines(s);
    seq(|lines|, i requires 0 <= i < |lines| => if i + 1 < |lines| then DropReturn(lines[i]) else lines[i])
  }

  // ----- one chunk -----

  /** What a line of a chunk asks for. */
  datatype Edit = Keep(line: string) | Remove(line: string) | Insert(line: string) | KeepBlank

  function EditOf(line: string): Option<Edit> {
    if line == "" then Some(KeepBlank)
    else if line[0] == ' ' then Some(Keep(line[1..]))
    else if line[0] == '+' then Some(Insert(line[1..]))
    else if line[0] == '-' then Some(Remove(line[1..]))
    else None
  }

  function OldOf(edit: Edit): seq<string> {
    match edit case Keep(line) => [line] case Remove(line) => [line] case Insert(_) => [] case KeepBlank => [""]
  }

  function NewOf(edit: Edit): seq<string> {
    match edit case Keep(line) => [line] case Remove(_) => [] case Insert(line) => [line] case KeepBlank => [""]
  }

  datatype Body = Body(oldLines: seq<string>, newLines: seq<string>, isEndOfFile: bool, parsedLines: nat)

  /** The edit lines up to the first other line; the end-of-file marker belongs to the chunk. */
  function ReadBody(lines: seq<string>): (r: Body)
    ensures r.parsedLines <= |lines|
  {
    if lines == [] then Body([], [], false, 0)
    else if lines[0] == EOF_MARKER then Body([], [], true, 1)
    else match EditOf(lines[0])
      case None => Body([], [], false, 0)
      case Some(edit) => AfterEdits(OldOf(edit), NewOf(edit), 1, ReadBody(lines[1..]))
  }

  function AfterEdits(oldLines: seq<string>, newLines: seq<string>, n: nat, rest: Body): Body {
    Body(oldLines + rest.oldLines, newLines + rest.newLines, rest.isEndOfFile, n + rest.parsedLines)
  }

  datatype ChunkStart = ChunkStart(changeContext: Option<string>, startIndex: nat)

  function ChunkStartOf(line: string): (r: ChunkStart)
    ensures r.startIndex <= 1
  {
    if line == EMPTY_CHANGE_CONTEXT_MARKER then ChunkStart(None, 1)
    else if StartsWith(line, CHANGE_CONTEXT_MARKER) then ChunkStart(Some(line[|CHANGE_CONTEXT_MARKER|..]), 1)
    else ChunkStart(None, 0)
  }

  function ParseChunk(lines: seq<string>, lineNumber: nat, allowMissingContext: bool): (r: Result<ParsedChunk,
      ParseError>)
    ensures r.Ok? ==> 0 < r.value.consumed <= |lines|
  {
    if lines == [] then Err(NoLines(lineNumber))
    else
      var start := ChunkStartOf(lines[0]);
      if start.startIndex == 0 && !allowMissingContext then Err(MissingContext(lineNumber, lines[0]))
      else if start.startIndex >= |lines| then Err(NoLines(lineNumber + 1))
      else if lines[start.startIndex] == EOF_MARKER then Err(NoLines(lineNumber + 1))
      else if EditOf(lines[start.startIndex]).None? then Err(UnexpectedLine(lineNumber + 1, lines[start.startIndex]))
      else
        var body := ReadBody(lines[start.startIndex..]);
        Ok(ParsedChunk(UpdateFileChunk(start.changeContext, body.oldLines, body.newLines, body.isEndOfFile),
                       body.parsedLines + start.startIndex))
  }

  lemma ReadBodyStep(lines: seq<string>, oldLines: seq<string>, newLines: seq<string>, n: nat)
    requires lines != [] && lines[0] != EOF_MARKER && EditOf(lines[0]).Some?
    ensures var edit := EditOf(lines[0]).value;
            AfterEdits(oldLines, newLines, n, ReadBody(lines))
            == AfterEdits(oldLines + OldOf(edit), newLines + NewOf(edit), n + 1, ReadBody(lines[1..]))
  {
    var edit := EditOf(lines[0]).value;
    var rest := ReadBody(lines[1..]);
    assert oldLines + (OldOf(edit) + rest.oldLines) == (oldLines + OldOf(edit)) + rest.oldLines;
    assert newLines + (NewOf(edit) + rest.newLines) == (newLines + NewOf(edit)) + rest.newLines;
  }

  lemma ReadBodyStops(lines: seq<string>, oldLines: seq<string>, newLines: seq<string>, n: nat)
    requires lines == [] || lines[0] == EOF_MARKER || EditOf(lines[0]).None?
    ensures AfterEdits(oldLines, newLines, n, ReadBody(lines))
            == if lines != [] && lines[0] == EOF_MARKER then Body(oldLines, newLines, true, n + 1)
              else Body(oldLines, newLines, false, n)
  {
  }

  method ParseUpdateFileChunk(lines: seq<string>, lineNumber: nat, allowMissingContext: bool)
    returns (r: Result<ParsedChunk, ParseError>)
    ensures r == ParseChunk(lines, lineNumber, allowMissingContext)
  {
    hide ReadBody, AfterEdits, ParseChunk, EditOf;
    ParseChunkCases(lines, lineNumber, allowMissingContext);
    if |lines| == 0 {
      return Err(NoLines(lineNumber));
    }
    var changeContext: Option<string>, startIndex: nat := None, 0;
    if lines[0] == EMPTY_CHANGE_CONTEXT_MARKER {
      startIndex := 1;
    } else if StartsWith(lines[0], CHANGE_CONTEXT_MARKER) {
      changeContext, startIndex := Some(lines[0][|CHANGE_CONTEXT_MARKER|..]), 1;
    } else if !allowMissingContext {
      return Err(MissingContext(lineNumber, lines[0]));
    }
    if startIndex >= |lines| {
      return Err(NoLines(lineNumber + 1));
    }
    var tail := lines[startIndex..];
    var oldLines: seq<string>, newLines: seq<string>, isEndOfFile, parsedLines: nat := [], [], false, 0;
    NothingBefore(ReadBody(tail));
    assert tail[0..] == tail;
    while parsedLines < |tail|
      invariant parsedLines <= |tail|
      invariant parsedLines > 0 ==> tail[0] != EOF_MARKER && EditOf(tail[0]).Some?
      invariant ReadBody(tail) == AfterEdits(oldLines, newLines, parsedLines, ReadBody(tail[parsedLines..]))
    {
      var line := tail[parsedLines];
      assert tail[parsedLines..][0] == line && tail[parsedLines..][1..] == tail[parsedLines + 1..];
      if line == EOF_MARKER {
        if parsedLines == 0 {
          return Err(NoLines(lineNumber + 1));
        }
        ReadBodyStops(tail[parsedLines..], oldLines, newLines, parsedLines);
        isEndOfFile := true;
        parsedLines := parsedLines + 1;
        return Ok(ParsedChunk(UpdateFileChunk(changeContext, oldLines, newLines, isEndOfFile),
          parsedLines + startIndex));
      }
      ReadBodyLine(tail[parsedLines..], oldLines, newLines, parsedLines);
      if line != "" && line[0] !in [' ', '+', '-'] {
        if parsedLines == 0 {
          return Err(UnexpectedLine(lineNumber + 1, line));
        }
        ReadBodyStops(tail[parsedLines..], oldLines, newLines, parsedLines);
        return Ok(ParsedChunk(UpdateFileChunk(changeContext, oldLines, newLines, isEndOfFile),
          parsedLines + startIndex));
      }
      if line == "" {
        oldLines, newLines := oldLines + [""], newLines + [""];
      } else if line[0] == ' ' {
        oldLines, newLines := oldLines + [line[1..]], newLines + [line[1..]];
      } else if line[0] == '+' {
        newLines := newLines + [line[1..]];
      } else {
        oldLines := oldLines + [line[1..]];
      }
      parsedLines := parsedLines + 1;
    }
    ReadBodyStops(tail[parsedLines..], oldLines, newLines, parsedLines);
    return Ok(ParsedChunk(UpdateFileChunk(changeContext, oldLines, newLines, isEndOfFile), parsedLines + startIndex));
  }

  /** What one line of a chunk adds; other lines than these four kinds are no edits. */
  lemma ReadBodyLine(lines: seq<string>, oldLines: seq<string>, newLines: seq<string>, n: nat)
    requires lines != [] && lines[0] != EOF_MARKER
    ensures var line := lines[0];
            var more := ReadBody(lines[1..]);
            && (EditOf(line).Some? <==> line == "" || line[0] in [' ', '+', '-'])
            && (EditOf(line).Some? ==>
                  AfterEdits(oldLines, newLines, n, ReadBody(lines)) ==
                  if line == "" then AfterEdits(oldLines + [""], newLines + [""], n + 1, more)
                  else if line[0] == ' ' then AfterEdits(oldLines + [line[1..]], newLines + [line[1..]], n + 1, more)
                  else if line[0] == '+' then AfterEdits(oldLines, newLines + [line[1..]], n + 1, more)
                  else AfterEdits(oldLines + [line[1..]], newLines, n + 1, more))
  {
    hide ReadBody, AfterEdits;
    if EditOf(lines[0]).Some? {
      ReadBodyStep(lines, oldLines, newLines, n);
      assert oldLines + [] == oldLines && newLines + [] == newLines;
    }
  }

  lemma ParseChunkCases(lines: seq<string>, lineNumber: nat, allowMissingContext: bool)
    ensures lines == [] ==> ParseChunk(lines, lineNumber, allowMissingContext) == Err(NoLines(lineNumber))
    ensures lines != [] ==>
              var start := ChunkStartOf(lines[0]);
              ParseChunk(lines, lineNumber, allowMissingContext) ==
              if start.startIndex == 0 && !allowMissingContext then Err(MissingContext(lineNumber, lines[0]))
              else if start.startIndex >= |lines| then Err(NoLines(lineNumber + 1))
              else
                var tail := lines[start.startIndex..];
                if tail[0] == EOF_MARKER then Err(NoLines(lineNumber + 1))
                else if EditOf(tail[0]).None? then Err(UnexpectedLine(lineNumber + 1, tail[0]))
                else
                  var body := ReadBody(tail);
                  Ok(ParsedChunk(UpdateFileChunk(start.changeContext, body.oldLines, body.newLines, body.isEndOfFile),
                                 body.parsedLines + start.startIndex))
  {
  }

  lemma NothingBefore(body: Body)
    ensures AfterEdits([], [], 0, body) == body
  {
    assert [] + body.oldLines == body.oldLines && [] + body.newLines == body.newLines;
  }

  // ----- one hunk -----

  /** The lines of an added file: the leading lines that start with a plus sign. */
  function AddedLines(lines: seq<string>): (r: seq<string>)
    ensures |r| <= |lines|
  {
    if lines == [] || !StartsWith(lines[0], "+") then [] else [lines[0][1..]] + AddedLines(lines[1..])
  }

  function TextOf(lines: seq<string>): string {
    if lines == [] then "" else lines[0] + "\n" + TextOf(lines[1..])
  }

  datatype ChunkRun = ChunkRun(chunks: seq<UpdateFileChunk>, consumed: nat)

  /** The chunks up to the next line that starts with three stars; blank lines between chunks are skipped. */
  function ParseChunks(lines: seq<string>, lineNumber: nat, isFirst: bool): (r: Result<ChunkRun, ParseError>)
    ensures r.Ok? ==> r.value.consumed <= |lines|
    decreases |lines|
  {
    if lines == [] then Ok(ChunkRun([], 0))
    else if Trim(lines[0]) == "" then AfterChunks([], 1, ParseChunks(lines[1..], lineNumber + 1, isFirst))
    else if StartsWith(lines[0], "***") then Ok(ChunkRun([], 0))
    else match ParseChunk(lines, lineNumber, isFirst)
      case Err(e) => Err(e)
      case Ok(parsed) =>
        AfterChunks([parsed.chunk], parsed.consumed,
          ParseChunks(lines[parsed.consumed..], lineNumber + parsed.consumed, false))
  }

  function AfterChunks(chunks: seq<UpdateFileChunk>, n: nat, rest: Result<ChunkRun, ParseError>): Result<ChunkRun,
      ParseError> {
    match rest case Err(e) => Err(e) case Ok(run) => Ok(ChunkRun(chunks + run.chunks, n + run.consumed))
  }

  function MoveTarget(lines: seq<string>): Option<string> {
    if lines != [] && StartsWith(Trim(lines[0]), MOVE_TO_MARKER) then Some(Trim(lines[0])[|MOVE_TO_MARKER|..]) else None
  }

  function ParseUpdate(lines: seq<string>, lineNumber: nat, path: string): (r: Result<ParsedHunk, ParseError>)
    requires lines != []
    ensures r.Ok? ==> 0 < r.value.consumed <= |lines|
  {
    var movePath := MoveTarget(lines[1..]);
    var skip := if movePath.Some? then 2 else 1;
    match ParseChunks(lines[skip..], lineNumber + skip, true)
    case Err(e) => Err(e)
    case Ok(run) =>
      if run.chunks == [] then Err(EmptyUpdate(lineNumber, path))
      else Ok(ParsedHunk(UpdateFile(path, movePath, run.chunks), run.consumed + skip))
  }

  function ParseHunk(lines: seq<string>, lineNumber: nat): (r: Result<ParsedHunk, ParseError>)
    ensures r.Ok? ==> 0 < r.value.consumed <= |lines|
  {
    if lines == [] then Err(EmptyHunk(lineNumber))
    else
      var first := Trim(lines[0]);
      if StartsWith(first, ADD_FILE_MARKER) then
        var added := AddedLines(lines[1..]);
        Ok(ParsedHunk(AddFile(first[|ADD_FILE_MARKER|..], TextOf(added)), 1 + |added|))
      else if StartsWith(first, DELETE_FILE_MARKER) then
        Ok(ParsedHunk(DeleteFile(first[|DELETE_FILE_MARKER|..]), 1))
      else if StartsWith(first, UPDATE_FILE_MARKER) then
        ParseUpdate(lines, lineNumber, first[|UPDATE_FILE_MARKER|..])
      else Err(BadHeader(lineNumber, lines[0]))
  }

  lemma ParseChunksStep(lines: seq<string>, lineNumber: nat, isFirst: bool)
    requires lines != [] && Trim(lines[0]) != "" && !StartsWith(lines[0], "***")
    ensures ParseChunks(lines, lineNumber, isFirst) ==
            match ParseChunk(lines, lineNumber, isFirst)
            case Err(e) => Err(e)
            case Ok(parsed) =>
              AfterChunks([parsed.chunk], parsed.consumed,
                ParseChunks(lines[parsed.consumed..], lineNumber + parsed.consumed, false))
  {
    hide ParseChunk, Trim, StartsWith;
  }

  lemma ParseChunksBlank(lines: seq<string>, lineNumber: nat, isFirst: bool)
    requires lines != [] && Trim(lines[0]) == ""
    ensures ParseChunks(lines, lineNumber, isFirst)
            == AfterChunks([], 1, ParseChunks(lines[1..], lineNumber + 1, isFirst))
  {
    hide ParseChunk, Trim, StartsWith;
  }

  lemma ParseChunksStops(lines: seq<string>, lineNumber: nat, isFirst: bool)
    requires lines == [] || (Trim(lines[0]) != "" && StartsWith(lines[0], "***"))
    ensures ParseChunks(lines, lineNumber, isFirst) == Ok(ChunkRun([], 0))
  {
    hide ParseChunk, Trim, StartsWith;
  }

  lemma AfterChunksTwice(a: seq<UpdateFileChunk>, m: nat, b: seq<UpdateFileChunk>, n: nat, rest: Result<ChunkRun,
      ParseError>)
    ensures AfterChunks(a, m, AfterChunks(b, n, rest)) == AfterChunks(a + b, m + n, rest)
  {
    if rest.Ok? {
      assert a + (b + rest.value.chunks) == (a + b) + rest.value.chunks;
    }
  }

  lemma NoChunksBefore(r: Result<ChunkRun, ParseError>)
    ensures AfterChunks([], 0, r) == r
  {
    if r.Ok? {
      assert [] + r.value.chunks == r.value.chunks;
    }
  }

  method ParseOneHunk(lines: seq<string>, lineNumber: nat) returns (r: Result<ParsedHunk, ParseError>)
    ensures r == ParseHunk(lines, lineNumber)
  {
    hide ParseChunks, ParseUpdate, AddedLines, TextOf, Trim;
    if |lines| == 0 {
      return Err(EmptyHunk(lineNumber));
    }
    var firstLine := Trim(lines[0]);
    if StartsWith(firstLine, ADD_FILE_MARKER) {
      var contents, consumed := ReadAddedFile(lines[1..]);
      return Ok(ParsedHunk(AddFile(firstLine[|ADD_FILE_MARKER|..], contents), 1 + consumed));
    }
    if StartsWith(firstLine, DELETE_FILE_MARKER) {
      return Ok(ParsedHunk(DeleteFile(firstLine[|DELETE_FILE_MARKER|..]), 1));
    }
    if StartsWith(firstLine, UPDATE_FILE_MARKER) {
      r := ParseUpdateFile(lines, lineNumber, firstLine[|UPDATE_FILE_MARKER|..]);
      return r;
    }
    return Err(BadHeader(lineNumber, lines[0]));
  }

  method ReadAddedFile(lines: seq<string>) returns (contents: string, consumed: nat)
    ensures contents == TextOf(AddedLines(lines)) && consumed == |AddedLines(lines)|
  {
    hide TextOf, StartsWith;
    contents, consumed := "", 0;
    ghost var added: seq<string> := [];
    assert lines[0..] == lines && [] + AddedLines(lines) == AddedLines(lines);
    TextOfNothing();
    while consumed < |lines| && StartsWith(lines[consumed], "+")
      invariant consumed == |added| <= |lines| && contents == TextOf(added)
      invariant AddedLines(lines) == added + AddedLines(lines[consumed..])
    {
      var line := lines[consumed];
      assert StartsWith(line, "+") ==> |line| > 0 by { PlusIsNotEmpty(line); }
      assert lines[consumed..][0] == line && lines[consumed..][1..] == lines[consumed + 1..];
      assert added + ([line[1..]] + AddedLines(lines[consumed + 1..]))
        == (added + [line[1..]]) + AddedLines(lines[consumed + 1..]);
      TextOfSnoc(added, line[1..]);
      added := added + [line[1..]];
      contents := contents + (line[1..] + "\n");
      consumed := consumed + 1;
    }
    assert added + [] == added;
  }

  lemma PlusIsNotEmpty(line: string)
    requires StartsWith(line, "+")
    ensures |line| > 0
  {
  }

  lemma TextOfNothing()
    ensures TextOf([]) == ""
  {
  }

  lemma {:induction false} TextOfSnoc(lines: seq<string>, last: string)
    ensures TextOf(lines + [last]) == TextOf(lines) + (last + "\n")
  {
    if lines == [] {
      assert [last][1..] == [] && [] + [last] == [last];
      assert TextOf([last]) == last + "\n" + "";
    } else {
      TextOfSnoc(lines[1..], last);
      assert (lines + [last])[1..] == lines[1..] + [last];
      assert lines[0] + "\n" + (TextOf(lines[1..]) + (last + "\n"))
        == (lines[0] + "\n" + TextOf(lines[1..])) + (last + "\n");
    }
  }

  method ParseUpdateFile(lines: seq<string>, lineNumber: nat, targetPath: string)
      returns (r: Result<ParsedHunk, ParseError>)
    requires lines != []
    ensures r == ParseUpdate(lines, lineNumber, targetPath)
  {
    hide ParseChunks, ParseChunk, AfterChunks, Trim, StartsWith;
    var remaining := lines[1..];
    var consumed: nat := 1;
    var movePath: Option<string> := None;
    if |remaining| > 0 && StartsWith(Trim(remaining[0]), MOVE_TO_MARKER) {
      MarkerFits(Trim(remaining[0]), MOVE_TO_MARKER);
      movePath := Some(Trim(remaining[0])[|MOVE_TO_MARKER|..]);
      remaining := remaining[1..];
      consumed := consumed + 1;
    }
    ghost var skip := consumed;
    assert remaining == lines[skip..];
    var chunks: seq<UpdateFileChunk> := [];
    NoChunksBefore(ParseChunks(remaining, lineNumber + skip, true));
    while |remaining| > 0
      invariant consumed >= skip
      invariant ParseChunks(lines[skip..], lineNumber + skip, true)
                == AfterChunks(chunks, consumed - skip, ParseChunks(remaining, lineNumber + consumed, |chunks| == 0))
      decreases |remaining|
    {
      var rest := ParseChunks(remaining, lineNumber + consumed, |chunks| == 0);
      if Trim(remaining[0]) == "" {
        ParseChunksBlank(remaining, lineNumber + consumed, |chunks| == 0);
        AfterChunksTwice(chunks, consumed - skip, [], 1,
          ParseChunks(remaining[1..], lineNumber + consumed + 1, |chunks| == 0));
        assert chunks + [] == chunks;
        remaining := remaining[1..];
        consumed := consumed + 1;
        continue;
      }
      if StartsWith(remaining[0], "***") {
        break;
      }
      ParseChunksStep(remaining, lineNumber + consumed, |chunks| == 0);
      var parsed := ParseUpdateFileChunk(remaining, lineNumber + consumed, |chunks| == 0);
      if parsed.Err? {
        AfterChunksError(chunks, consumed - skip, parsed.error);
        return Err(parsed.error);
      }
      AfterChunksTwice(chunks, consumed - skip, [parsed.value.chunk], parsed.value.consumed,
                       ParseChunks(remaining[parsed.value.consumed..], lineNumber + consumed + parsed.value.consumed,
                         false));
      chunks := chunks + [parsed.value.chunk];
      remaining := remaining[parsed.value.consumed..];
      consumed := consumed + parsed.value.consumed;
    }
    ParseChunksStops(remaining, lineNumber + consumed, |chunks| == 0);
    AfterNoMoreChunks(chunks, consumed - skip);
    if |chunks| == 0 {
      return Err(EmptyUpdate(lineNumber, targetPath));
    }
    return Ok(ParsedHunk(UpdateFile(targetPath, movePath, chunks), consumed));
  }

  lemma MarkerFits(s: string, marker: string)
    requires StartsWith(s, marker)
    ensures |marker| <= |s|
  {
  }

  lemma AfterChunksError(chunks: seq<UpdateFileChunk>, n: nat, e: ParseError)
    ensures AfterChunks(chunks, n, Err(e)) == Err(e)
  {
  }

  lemma AfterNoMoreChunks(chunks: seq<UpdateFileChunk>, n: nat)
    ensures AfterChunks(chunks, n, Ok(ChunkRun([], 0))) == Ok(ChunkRun(chunks, n))
  {
    assert chunks + [] == chunks;
  }

  // ----- the whole patch -----

  function ParseHunks(lines: seq<string>, lineNumber: nat): Result<seq<ParsedHunk>, ParseError>
    decreases |lines|
  {
    if lines == [] then Ok([])
    else match ParseHunk(lines, lineNumber)
      case Err(e) => Err(e)
      case Ok(parsed) => AfterHunks([parsed], ParseHunks(lines[parsed.consumed..], lineNumber + parsed.consumed))
  }

  function AfterHunks(parsed: seq<ParsedHunk>, rest: Result<seq<ParsedHunk>, ParseError>): Result<seq<ParsedHunk>,
      ParseError> {
    match rest case Err(e) => Err(e) case Ok(more) => Ok(parsed + more)
  }

  function HunksOf(parsed: seq<ParsedHunk>): (r: seq<Hunk>)
    ensures |r| == |parsed|
    ensures forall i :: 0 <= i < |r| ==> r[i] == parsed[i].hunk
  {
    if parsed == [] then [] else [parsed[0].hunk] + HunksOf(parsed[1..])
  }

  function StrictError(lines: seq<string>): (r: Option<ParseError>)
    requires lines != []
    ensures r.None? ==> |lines| >= 2
  {
    var firstLine, lastLine := Trim(lines[0]), Trim(lines[|lines| - 1]);
    assert BEGIN_PATCH_MARKER[4] != END_PATCH_MARKER[4];
    if firstLine == BEGIN_PATCH_MARKER && lastLine == END_PATCH_MARKER then None
    else if firstLine != BEGIN_PATCH_MARKER then Some(BadFirstLine)
    else Some(BadLastLine)
  }

  predicate OpensHeredoc(line: string) {
    line == "<<EOF" || line == "<<'EOF'" || line == "<<\"EOF\""
  }

  /** The lines of the patch proper: as they are, or inside a shell here-document. */
  function CheckBoundaries(lines: seq<string>): (r: Result<seq<string>, ParseError>)
    requires lines != []
    ensures r.Ok? ==> |r.value| >= 2
  {
    match StrictError(lines)
    case None => Ok(lines)
    case Some(strict) =>
      if |lines| >= 4 && OpensHeredoc(lines[0]) && EndsWith(lines[|lines| - 1], "EOF") then
        match StrictError(lines[1..|lines| - 1])
        case None => Ok(lines[1..|lines| - 1])
        case Some(inner) => Err(inner)
      else Err(strict)
  }

  /** The patch lines of a text, and the hunks between the first and the last of them. */
  function PatchLines(input: string): (r: Result<seq<string>, ParseError>)
    ensures r.Ok? ==> |r.value| >= 2
  {
    if Trim(input) == "" then Err(EmptyInput) else CheckBoundaries(SplitLines(Trim(input)))
  }

  function ParseLines(lines: seq<string>): Result<ParsedPatch, ParseError>
    requires |lines| >= 2
  {
    match ParseHunks(lines[1..|lines| - 1], 2)
    case Err(e) => Err(e)
    case Ok(parsed) => Ok(ParsedPatch(HunksOf(parsed), Join(lines, "\n")))
  }

  function Parse(input: string): Result<ParsedPatch, ParseError> {
    match PatchLines(input)
    case Err(e) => Err(e)
    case Ok(lines) => ParseLines(lines)
  }

  lemma ParseHunksStep(lines: seq<string>, lineNumber: nat, before: seq<ParsedHunk>)
    requires lines != []
    ensures match ParseHunk(lines, lineNumber)
            case Err(e) => AfterHunks(before, ParseHunks(lines, lineNumber)) == Err(e)
            case Ok(parsed) =>
              AfterHunks(before, ParseHunks(lines, lineNumber))
              == AfterHunks(before + [parsed], ParseHunks(lines[parsed.consumed..], lineNumber + parsed.consumed))
  {
    hide ParseHunk;
    var one := ParseHunk(lines, lineNumber);
    if one.Ok? {
      var rest := ParseHunks(lines[one.value.consumed..], lineNumber + one.value.consumed);
      if rest.Ok? {
        assert before + ([one.value] + rest.value) == (before + [one.value]) + rest.value;
      }
    }
  }

  lemma HunksOfSnoc(parsed: seq<ParsedHunk>, last: ParsedHunk)
    ensures HunksOf(parsed + [last]) == HunksOf(parsed) + [last.hunk]
  {
  }

  lemma ParseHunksEnds(lineNumber: nat, before: seq<ParsedHunk>)
    ensures AfterHunks(before, ParseHunks([], lineNumber)) == Ok(before)
  {
    assert before + [] == before;
  }

  lemma NoHunksBefore(r: Result<seq<ParsedHunk>, ParseError>)
    ensures AfterHunks([], r) == r
  {
    if r.Ok? {
      assert [] + r.value == r.value;
    }
  }

  method CheckPatchBoundariesLenient(lines: seq<string>) returns (r: Result<seq<string>, ParseError>)
    requires lines != []
    ensures r == CheckBoundaries(lines)
  {
    hide Trim;
    var strictError := StrictError(lines);
    if strictError.None? {
      return Ok(lines);
    }
    if |lines| < 4 {
      return Err(strictError.value);
    }
    var first, last := lines[0], lines[|lines| - 1];
    if (first == "<<EOF" || first == "<<'EOF'" || first == "<<\"EOF\"") && EndsWith(last, "EOF") {
      var inner := lines[1..|lines| - 1];
      var innerError := StrictError(inner);
      if innerError.None? {
        return Ok(inner);
      }
      return Err(innerError.value);
    }
    return Err(strictError.value);
  }

  method ParsePatchText(input: string) returns (r: Result<ParsedPatch, ParseError>)
    ensures r == Parse(input)
  {
    hide Trim, SplitLines, CheckBoundaries, ParseHunks, ParseHunk, AfterHunks, Join;
    var trimmed := Trim(input);
    if trimmed == "" {
      return Err(EmptyInput);
    }
    var validated := CheckPatchBoundariesLenient(SplitLines(trimmed));
    if validated.Err? {
      return Err(validated.error);
    }
    var lines := validated.value;
    var remaining := lines[1..|lines| - 1];
    var lineNumber: nat := 2;
    var hunks: seq<Hunk> := [];
    ghost var done: seq<ParsedHunk> := [];
    NoHunksBefore(ParseHunks(remaining, 2));
    while |remaining| > 0
      invariant hunks == HunksOf(done)
      invariant ParseHunks(lines[1..|lines| - 1], 2) == AfterHunks(done, ParseHunks(remaining, lineNumber))
      decreases |remaining|
    {
      ParseHunksStep(remaining, lineNumber, done);
      var parsed := ParseOneHunk(remaining, lineNumber);
      if parsed.Err? {
        return Err(parsed.error);
      }
      HunksOfSnoc(done, parsed.value);
      done := done + [parsed.value];
      hunks := hunks + [parsed.value.hunk];
      lineNumber := lineNumber + parsed.value.consumed;
      remaining := remaining[parsed.value.consumed..];
    }
    assert remaining == [];
    ParseHunksEnds(lineNumber, done);
    return Ok(ParsedPatch(hunks, Join(lines, "\n")));
  }

  // ----- what the line counts say -----

  function TotalConsumed(parsed: seq<ParsedHunk>): nat {
    if parsed == [] then 0 else parsed[0].consumed + TotalConsumed(parsed[1..])
  }

  /** Every hunk takes at least its header, and together the hunks take every line of the body. */
  lemma {:induction false} ConsumedAddsUp(lines: seq<string>, lineNumber: nat)
    requires ParseHunks(lines, lineNumber).Ok?
    ensures var parsed := ParseHunks(lines, lineNumber).value;
            && TotalConsumed(parsed) == |lines|
            && forall i :: 0 <= i < |parsed| ==> parsed[i].consumed >= 1
    decreases |lines|
  {
    hide ParseHunk;
    if lines != [] {
      var one := ParseHunk(lines, lineNumber).value;
      ConsumedAddsUp(lines[one.consumed..], lineNumber + one.consumed);
      var rest := ParseHunks(lines[one.consumed..], lineNumber + one.consumed).value;
      assert ([one] + rest)[1..] == rest;
    }
  }
}
