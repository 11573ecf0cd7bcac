/** What the patch parser accepts and what it reports: printing and parsing are inverse,
    and errors name the line they are about (src/agents/apply-patch.ts). */
module PatchPrinter {
  import opened Common
  import opened Text
  import opened PatchUpdate
  import opened PatchParser

  // ----- printing -----

  /** A chunk as a patch author writes it: blank lines before it, a context line (the first chunk may go without),
      edits in any order, and the end-of-file mark. */
  datatype ChunkScript = ChunkScript(
    lead: seq<string>,
    marked: bool,
    changeContext: Option<string>,
    edits: seq<Edit>,
    isEndOfFile: bool)

  datatype MoveScript = MoveScript(line: string, path: string)

  /** A hunk as a patch author writes it: its header line, with white space around it, and its lines. */
  datatype HunkScript =
    | AddScript(header: string, path: string, lines: seq<string>)
    | DeleteScript(header: string, path: string)
    | UpdateScript(header: string, path: string, move: Option<MoveScript>, chunks: seq<ChunkScript>, tail: seq<string>)

  function EditLine(edit: Edit): string {
    match edit
    case Keep(line) => " " + line
    case Remove(line) => "-" + line
    case Insert(line) => "+" + line
    case KeepBlank => ""
  }

  function EditLines(edits: seq<Edit>): (r: seq<string>)
    ensures |r| == |edits| && forall i :: 0 <= i < |r| ==> r[i] == EditLine(edits[i])
  {
    seq(|edits|, i requires 0 <= i < |edits| => EditLine(edits[i]))
  }

  function ContextLine(changeContext: Option<string>): string {
    match changeContext case None => EMPTY_CHANGE_CONTEXT_MARKER case Some(c) => CHANGE_CONTEXT_MARKER + c
  }

  function MarkLine(chunk: ChunkScript): seq<string> {
    if chunk.marked then [ContextLine(chunk.changeContext)] else []
  }

  function EofLine(isEndOfFile: bool): seq<string> {
    if isEndOfFile then [EOF_MARKER] else []
  }

  /** The lines of a chunk that its blank lines lead up to. */
  function ChunkLines(chunk: ChunkScript): seq<string> {
    MarkLine(chunk) + (EditLines(chunk.edits) + EofLine(chunk.isEndOfFile))
  }

  function PrintChunk(chunk: ChunkScript): seq<string> {
    chunk.lead + ChunkLines(chunk)
  }

  function PrintChunks(chunks: seq<ChunkScript>): seq<string> {
    if chunks == [] then [] else PrintChunk(chunks[0]) + PrintChunks(chunks[1..])
  }

  function PlusLines(lines: seq<string>): (r: seq<string>)
    ensures |r| == |lines| && forall i :: 0 <= i < |r| ==> r[i] == "+" + lines[i]
  {
    seq(|lines|, i requires 0 <= i < |lines| => "+" + lines[i])
  }

  function MoveLine(move: Option<MoveScript>): seq<string> {
    if move.Some? then [move.value.line] else []
  }

  function HunkBody(hunk: HunkScript): seq<string> {
    match hunk
    case AddScript(_, _, lines) => PlusLines(lines)
    case DeleteScript(_, _) => []
    case UpdateScript(_, _, move, chunks, tail) => MoveLine(move) + (PrintChunks(chunks) + tail)
  }

  function PrintHunk(hunk: HunkScript): seq<string> {
    [hunk.header] + HunkBody(hunk)
  }

  function PrintHunks(hunks: seq<HunkScript>): seq<string> {
    if hunks == [] then [] else PrintHunk(hunks[0]) + PrintHunks(hunks[1..])
  }

  function PatchOf(hunks: seq<HunkScript>): seq<string> {
    [BEGIN_PATCH_MARKER] + PrintHunks(hunks) + [END_PATCH_MARKER]
  }

  // ----- what a script asks for -----

  function OldLinesOf(edits: seq<Edit>): seq<string> {
    if edits == [] then [] else OldOf(edits[0]) + OldLinesOf(edits[1..])
  }

  function NewLinesOf(edits: seq<Edit>): seq<string> {
    if edits == [] then [] else NewOf(edits[0]) + NewLinesOf(edits[1..])
  }

  function ChunkOf(chunk: ChunkScript): UpdateFileChunk {
    UpdateFileChunk(chunk.changeContext, OldLinesOf(chunk.edits), NewLinesOf(chunk.edits), chunk.isEndOfFile)
  }

  function ChunksOf(chunks: seq<ChunkScript>): seq<UpdateFileChunk> {
    if chunks == [] then [] else [ChunkOf(chunks[0])] + ChunksOf(chunks[1..])
  }

  function MovePath(move: Option<MoveScript>): Option<string> {
    match move case None => None case Some(m) => Some(m.path)
  }

  function HunkOf(hunk: HunkScript): Hunk {
    match hunk
    case AddScript(_, path, lines) => AddFile(path, TextOf(lines))
    case DeleteScript(_, path) => DeleteFile(path)
    case UpdateScript(_, path, move, chunks, _) => UpdateFile(path, MovePath(move), ChunksOf(chunks))
  }

  function AllHunksOf(hunks: seq<HunkScript>): seq<Hunk> {
    if hunks == [] then [] else [HunkOf(hunks[0])] + AllHunksOf(hunks[1..])
  }

  // ----- which scripts are patches -----

  predicate AllBlank(lines: seq<string>) {
    forall i :: 0 <= i < |lines| ==> Trim(lines[i]) == ""
  }

  /** A line that starts with none of the marks of an edit. */
  predicate IsNoEdit(line: string) {
    line != "" && line[0] != ' ' && line[0] != '+' && line[0] != '-'
  }

  /** Blank lines; those behind a chunk that goes on must not start with one that reads as an edit of it. */
  predicate BlanksFit(lines: seq<string>, open: bool) {
    AllBlank(lines) && (open && lines != [] ==> IsNoEdit(lines[0]))
  }

  /** Only the first chunk may go without its context line, and then it starts with an edit that is not blank. */
  predicate ChunkFits(chunk: ChunkScript, isFirst: bool, open: bool) {
    && chunk.edits != [] && BlanksFit(chunk.lead, open)
    && (!chunk.marked ==> isFirst && chunk.changeContext.None? && Trim(EditLine(chunk.edits[0])) != "")
  }

  /** A run of chunks and the blank lines after the last; a chunk goes on unless it ends in the end-of-file mark. */
  predicate RunFits(chunks: seq<ChunkScript>, tail: seq<string>, isFirst: bool, open: bool) {
    if chunks == [] then BlanksFit(tail, open)
    else ChunkFits(chunks[0], isFirst, open) && RunFits(chunks[1..], tail, false, !chunks[0].isEndOfFile)
  }

  predicate IsHeader(line: string, marker: string, path: string) {
    Trim(line) == marker + path
  }

  predicate NoMove(lines: seq<string>) {
    lines == [] || !StartsWith(Trim(lines[0]), MOVE_TO_MARKER)
  }

  predicate HunkFits(hunk: HunkScript) {
    match hunk
    case AddScript(header, path, _) => IsHeader(header, ADD_FILE_MARKER, path)
    case DeleteScript(header, path) => IsHeader(header, DELETE_FILE_MARKER, path)
    case UpdateScript(header, path, move, chunks, tail) =>
      && IsHeader(header, UPDATE_FILE_MARKER, path)
      && chunks != [] && RunFits(chunks, tail, true, false)
      && (if move.Some? then IsHeader(move.value.line, MOVE_TO_MARKER, move.value.path)
            else NoMove(PrintChunks(chunks)))
  }

  /** Every hunk fits, and behind an update the next header stands at the margin. */
  predicate AllFit(hunks: seq<HunkScript>) {
    hunks == [] ||
    (HunkFits(hunks[0]) && AllFit(hunks[1..])
     && (hunks[0].UpdateScript? && |hunks| > 1 ==> StartsWith(hunks[1].header, "***")))
  }

  // ----- parsing what was printed, line by line -----

  predicate EndsChunk(lines: seq<string>) {
    lines == [] || (lines[0] != EOF_MARKER && EditOf(lines[0]).None?)
  }

  lemma EditLineReadsBack(edit: Edit)
    ensures EditOf(EditLine(edit)) == Some(edit) && EditLine(edit) != EOF_MARKER
    ensures EditLine(edit) != "" ==> EditLine(edit)[0] in [' ', '+', '-']
  {
    match edit
    case KeepBlank =>
    case Keep(line) => assert (" " + line)[1..] == line;
    case Remove(line) => assert ("-" + line)[1..] == line;
    case Insert(line) => assert ("+" + line)[1..] == line;
  }

  lemma {:induction false} BodyReadsBack(edits: seq<Edit>, isEndOfFile: bool, rest: seq<string>)
    requires isEndOfFile || EndsChunk(rest)
    ensures ReadBody(EditLines(edits) + EofLine(isEndOfFile) + rest)
            == Body(OldLinesOf(edits), NewLinesOf(edits), isEndOfFile, |edits| + |EofLine(isEndOfFile)|)
  {
    hide EditOf;
    var lines := EditLines(edits) + EofLine(isEndOfFile) + rest;
    if edits == [] {
      if isEndOfFile {
        assert lines[0] == EOF_MARKER;
      } else {
        assert lines == rest;
      }
    } else {
      EditLineReadsBack(edits[0]);
      assert lines[0] == EditLine(edits[0]);
      assert lines[1..] == EditLines(edits[1..]) + EofLine(isEndOfFile) + rest;
      BodyReadsBack(edits[1..], isEndOfFile, rest);
    }
  }

  lemma ContextLineReadsBack(changeContext: Option<string>)
    ensures ChunkStartOf(ContextLine(changeContext)) == ChunkStart(changeContext, 1)
    ensures ContextLine(changeContext)[0] == '@'
  {
    if changeContext.Some? {
      var line := CHANGE_CONTEXT_MARKER + changeContext.value;
      assert line[..3] == CHANGE_CONTEXT_MARKER && line[3..] == changeContext.value;
    }
  }

  /** An edit is no context line. */
  lemma EditStartsChunk(edit: Edit)
    ensures ChunkStartOf(EditLine(edit)) == ChunkStart(None, 0)
  {
    EditLineReadsBack(edit);
    StartsLikeMarker(EditLine(edit), CHANGE_CONTEXT_MARKER);
  }

  lemma StartsLikeMarker(line: string, marker: string)
    requires marker != ""
    ensures StartsWith(line, marker) ==> line != "" && line[0] == marker[0]
  {
    if StartsWith(line, marker) {
      assert line[..|marker|][0] == line[0];
    }
  }

  /** A chunk is read back with all its edits, the first one included when there is no context line. */
  lemma ChunkReadsBack(chunk: ChunkScript, rest: seq<string>, lineNumber: nat, isFirst: bool, open: bool)
    requires ChunkFits(chunk, isFirst, open) && (chunk.isEndOfFile || EndsChunk(rest))
    ensures ParseChunk(ChunkLines(chunk) + rest, lineNumber, isFirst)
            == Ok(ParsedChunk(ChunkOf(chunk), |ChunkLines(chunk)|))
  {
    hide EditOf, ReadBody, ChunkStartOf, ContextLine, OldLinesOf, NewLinesOf, EditLines, EofLine, ChunkLines, BlanksFit,
         Trim;
    EditLineReadsBack(chunk.edits[0]);
    EditStartsChunk(chunk.edits[0]);
    ContextLineReadsBack(chunk.changeContext);
    BodyReadsBack(chunk.edits, chunk.isEndOfFile, rest);
    PrintedChunkLines(chunk, rest);
  }

  lemma PrintedChunkLines(chunk: ChunkScript, rest: seq<string>)
    requires chunk.edits != []
    ensures |ChunkLines(chunk)| == |MarkLine(chunk)| + |chunk.edits| + |EofLine(chunk.isEndOfFile)|
    ensures var lines, k := ChunkLines(chunk) + rest, |MarkLine(chunk)|;
            && (chunk.marked ==> lines[0] == ContextLine(chunk.changeContext)) && lines[k] == EditLine(chunk.edits[0])
            && lines[k..] == EditLines(chunk.edits) + EofLine(chunk.isEndOfFile) + rest
  {
    hide ContextLine, EofLine, EditLines;
    var mark, body := MarkLine(chunk), EditLines(chunk.edits) + EofLine(chunk.isEndOfFile);
    assert ChunkLines(chunk) + rest == mark + (body + rest);
    assert (mark + (body + rest))[|mark|..] == body + rest;
    assert body[0] == EditLines(chunk.edits)[0];
  }

  /** A later chunk without a context line is an error, whatever it starts with. */
  lemma LaterChunkNeedsItsContextLine(lines: seq<string>, lineNumber: nat)
    requires lines != [] && lines[0] != "@@" && !StartsWith(lines[0], "@@ ")
    ensures ParseChunk(lines, lineNumber, false) == Err(MissingContext(lineNumber, lines[0]))
  {
  }

  predicate EndsHunk(lines: seq<string>) {
    lines == [] || (StartsWith(lines[0], "***") && lines[0] != EOF_MARKER)
  }

  lemma EndOfHunkEndsChunks(lines: seq<string>)
    requires EndsHunk(lines)
    ensures EndsChunk(lines) && (lines != [] ==> Trim(lines[0]) != "" && lines[0][0] == '*')
  {
    if lines != [] {
      assert lines[0][0] == '*' by { assert lines[0][..3][0] == '*'; }
      NotBlank(lines[0]);
    }
  }

  lemma NotBlank(s: string)
    requires s != "" && !IsSpace(s[0])
    ensures Trim(s) != ""
  {
    BlankIffAllSpace(s);
  }

  lemma {:induction false} LeadIsSkipped(lead: seq<string>, more: seq<string>, lineNumber: nat, isFirst: bool)
    requires AllBlank(lead)
    ensures ParseChunks(lead + more, lineNumber, isFirst)
            == AfterChunks([], |lead|, ParseChunks(more, lineNumber + |lead|, isFirst))
  {
    hide ParseChunks, Trim, AfterChunks;
    if lead == [] {
      assert lead + more == more;
      NoChunksBefore(ParseChunks(more, lineNumber, isFirst));
    } else {
      var lines := lead + more;
      assert lines[0] == lead[0] && lines[1..] == lead[1..] + more;
      ParseChunksBlank(lines, lineNumber, isFirst);
      LeadIsSkipped(lead[1..], more, lineNumber + 1, isFirst);
      AfterChunksTwice([], 1, [], |lead| - 1, ParseChunks(more, lineNumber + |lead|, isFirst));
      var none: seq<UpdateFileChunk> := [];
      assert none + none == none;
    }
  }

  /** What follows a chunk that goes on does not go on with it. */
  lemma BlanksEndChunk(lines: seq<string>, rest: seq<string>)
    requires BlanksFit(lines, true) && EndsChunk(rest)
    ensures EndsChunk(lines + rest)
  {
    if lines == [] {
      assert lines + rest == rest;
    } else {
      EofIsTrimmed();
    }
  }

  lemma RestEndsChunk(chunks: seq<ChunkScript>, tail: seq<string>, rest: seq<string>)
    requires RunFits(chunks, tail, false, true) && EndsHunk(rest)
    ensures EndsChunk(PrintChunks(chunks) + tail + rest)
  {
    hide EndsChunk, BlanksFit;
    EndOfHunkEndsChunks(rest);
    if chunks == [] {
      assert PrintChunks(chunks) + tail + rest == tail + rest;
      BlanksEndChunk(tail, rest);
    } else {
      var first, more := ChunkLines(chunks[0]), PrintChunks(chunks[1..]) + tail + rest;
      ContextStartsNoEdit(chunks[0], more);
      BlanksEndChunk(chunks[0].lead, first + more);
      assert PrintChunks(chunks) + tail + rest == chunks[0].lead + (first + more);
    }
  }

  lemma ContextStartsNoEdit(chunk: ChunkScript, more: seq<string>)
    requires chunk.marked
    ensures EndsChunk(ChunkLines(chunk) + more)
  {
    ContextLineReadsBack(chunk.changeContext);
    assert (ChunkLines(chunk) + more)[0] == ContextLine(chunk.changeContext);
  }

  lemma ChunkLineOpens(chunk: ChunkScript, isFirst: bool, open: bool, more: seq<string>)
    requires ChunkFits(chunk, isFirst, open)
    ensures var lines := ChunkLines(chunk) + more;
            lines != [] && Trim(lines[0]) != "" && !StartsWith(lines[0], "***")
  {
    hide Trim;
    ContextLineReadsBack(chunk.changeContext);
    EditLineReadsBack(chunk.edits[0]);
    var line := (ChunkLines(chunk) + more)[0];
    assert line == if chunk.marked then ContextLine(chunk.changeContext) else EditLine(chunk.edits[0]);
    if chunk.marked {
      NotBlank(line);
    } else {
      EmptyIsBlank();
    }
    StarLine(line);
  }

  lemma EmptyIsBlank()
    ensures Trim("") == ""
  {
  }

  lemma StarLine(line: string)
    ensures StartsWith(line, "***") ==> line[0] == '*'
  {
    if StartsWith(line, "***") {
      assert line[..3][0] == '*';
    }
  }

  /** A run of chunks is read back, with the blank lines before, between and after them. */
  lemma {:induction false} ChunksReadBack(chunks: seq<ChunkScript>, tail: seq<string>, rest: seq<string>,
      lineNumber: nat, isFirst: bool, open: bool)
    requires RunFits(chunks, tail, isFirst, open) && EndsHunk(rest)
    ensures ParseChunks(PrintChunks(chunks) + tail + rest, lineNumber, isFirst)
            == Ok(ChunkRun(ChunksOf(chunks), |PrintChunks(chunks)| + |tail|))
  {
    hide ParseChunk, ParseChunks, ChunkLines, EndsHunk, EndsChunk, Trim, StartsWith, ChunkOf, ChunkFits, AfterChunks;
    if chunks == [] {
      EndOfHunkEndsChunks(rest);
      StarsOrNothing(rest);
      assert PrintChunks(chunks) + tail + rest == tail + rest;
      LeadIsSkipped(tail, rest, lineNumber, isFirst);
      ParseChunksStops(rest, lineNumber + |tail|, isFirst);
      AfterNoChunks(|tail|);
    } else {
      var chunk, more := chunks[0], PrintChunks(chunks[1..]) + tail + rest;
      var first, at := ChunkLines(chunk), lineNumber + |chunk.lead|;
      assert PrintChunks(chunks) + tail + rest == chunk.lead + (first + more);
      ChunkFitsBlank(chunk, isFirst, open);
      LeadIsSkipped(chunk.lead, first + more, lineNumber, isFirst);
      if !chunk.isEndOfFile {
        RestEndsChunk(chunks[1..], tail, rest);
      }
      ChunkReadsBack(chunk, more, at, isFirst, open);
      ChunkLineOpens(chunk, isFirst, open, more);
      ParseChunksStep(first + more, at, isFirst);
      assert (first + more)[|first|..] == more;
      ChunksReadBack(chunks[1..], tail, rest, at + |first|, false, !chunk.isEndOfFile);
      AfterOneChunk(chunk, |chunk.lead|, |first|, ChunksOf(chunks[1..]), |PrintChunks(chunks[1..])| + |tail|);
    }
  }

  lemma StarsOrNothing(rest: seq<string>)
    requires EndsHunk(rest)
    ensures rest == [] || StartsWith(rest[0], "***")
  {
  }

  lemma ChunkFitsBlank(chunk: ChunkScript, isFirst: bool, open: bool)
    requires ChunkFits(chunk, isFirst, open)
    ensures AllBlank(chunk.lead)
  {
    hide Trim;
  }

  lemma AfterNoChunks(n: nat)
    ensures AfterChunks([], n, Ok(ChunkRun([], 0))) == Ok(ChunkRun([], n))
  {
    var none: seq<UpdateFileChunk> := [];
    assert none + none == none;
  }

  lemma AfterOneChunk(chunk: ChunkScript, lead: nat, n: nat, more: seq<UpdateFileChunk>, m: nat)
    ensures AfterChunks([], lead, AfterChunks([ChunkOf(chunk)], n, Ok(ChunkRun(more, m))))
            == Ok(ChunkRun([ChunkOf(chunk)] + more, lead + n + m))
  {
    assert [] + ([ChunkOf(chunk)] + more) == [ChunkOf(chunk)] + more;
  }

  lemma {:induction false} AddedLinesReadBack(lines: seq<string>, rest: seq<string>)
    requires rest == [] || !StartsWith(rest[0], "+")
    ensures AddedLines(PlusLines(lines) + rest) == lines
  {
    var all := PlusLines(lines) + rest;
    if lines == [] {
      assert all == rest;
    } else {
      assert all[0] == "+" + lines[0] && all[0][1..] == lines[0] && all[0][..1] == "+";
      assert all[1..] == PlusLines(lines[1..]) + rest;
      AddedLinesReadBack(lines[1..], rest);
    }
  }

  lemma HeaderReadsBack(line: string, marker: string, path: string)
    requires IsHeader(line, marker, path)
    ensures StartsWith(Trim(line), marker) && Trim(line)[|marker|..] == path
  {
    hide Trim;
  }

  /** The kinds of header are told apart by the letter after the stars. */
  lemma HeadersDiffer(line: string)
    ensures StartsWith(line, ADD_FILE_MARKER) ==> line[0] == '*' && line[4] == 'A'
    ensures StartsWith(line, DELETE_FILE_MARKER) ==> line[0] == '*' && line[4] == 'D'
    ensures StartsWith(line, UPDATE_FILE_MARKER) ==> line[0] == '*' && line[4] == 'U'
    ensures StartsWith(line, MOVE_TO_MARKER) ==> line[0] == '*' && line[4] == 'M'
  {
    MarkerHasLetter(line, ADD_FILE_MARKER);
    MarkerHasLetter(line, DELETE_FILE_MARKER);
    MarkerHasLetter(line, UPDATE_FILE_MARKER);
    MarkerHasLetter(line, MOVE_TO_MARKER);
  }

  lemma MarkerHasLetter(line: string, marker: string)
    requires |marker| > 4
    ensures StartsWith(line, marker) ==> line[0] == marker[0] && line[4] == marker[4]
  {
    if StartsWith(line, marker) {
      assert line[..|marker|][0] == line[0] && line[..|marker|][4] == line[4];
    }
  }

  /** A header line, whatever white space is around it, is no added line and no end-of-file mark. */
  lemma HeaderEndsHunk(hunk: HunkScript)
    requires HunkFits(hunk)
    ensures !StartsWith(hunk.header, "+") && hunk.header != EOF_MARKER && Trim(hunk.header) != ""
  {
    hide RunFits, NoMove, PrintChunks;
    var core := Trim(hunk.header);
    HeadersDiffer(core);
    HeaderHasMarker(hunk);
    var left, right := TrimSplits(hunk.header);
    if left != "" {
      assert hunk.header[0] == left[0];
    } else {
      assert hunk.header[0] == core[0];
    }
    StartsLikeMarker(hunk.header, "+");
    EofIsTrimmed();
  }

  lemma HeaderHasMarker(hunk: HunkScript)
    requires HunkFits(hunk)
    ensures var core := Trim(hunk.header);
            StartsWith(core, ADD_FILE_MARKER) || StartsWith(core, DELETE_FILE_MARKER)
              || StartsWith(core, UPDATE_FILE_MARKER)
  {
    hide Trim, RunFits, NoMove;
  }

  lemma EofIsTrimmed()
    ensures Trim(EOF_MARKER) == EOF_MARKER && EOF_MARKER[4] == 'E'
  {
    assert "" + EOF_MARKER + "" == EOF_MARKER;
    TrimUnique("", EOF_MARKER, "");
  }

  lemma TrimKeepsFirst(s: string)
    requires s != "" && !IsSpace(s[0])
    ensures Trim(s) != "" && Trim(s)[0] == s[0]
  {
    NotBlank(s);
    var cut := TrimEndSplits(s);
    assert TrimStart(s) == s;
  }

  /** The first line after an update header is a chunk line unless there is a move. */
  lemma MoveReadsBack(hunk: HunkScript, rest: seq<string>)
    requires hunk.UpdateScript? && HunkFits(hunk)
    ensures MoveTarget(HunkBody(hunk) + rest) == MovePath(hunk.move)
  {
    hide Trim, RunFits;
    var lines := HunkBody(hunk) + rest;
    if hunk.move.Some? {
      assert lines[0] == hunk.move.value.line;
      HeaderReadsBack(lines[0], MOVE_TO_MARKER, hunk.move.value.path);
    } else {
      RunIsNotEmpty(hunk.chunks, hunk.tail);
      assert lines[0] == PrintChunks(hunk.chunks)[0];
    }
  }

  lemma RunIsNotEmpty(chunks: seq<ChunkScript>, tail: seq<string>)
    requires chunks != [] && RunFits(chunks, tail, true, false)
    ensures PrintChunks(chunks) != [] && ChunksOf(chunks) != []
  {
    hide BlanksFit, Trim;
  }

  lemma UpdateReadsBack(hunk: HunkScript, rest: seq<string>, lineNumber: nat)
    requires hunk.UpdateScript? && HunkFits(hunk) && EndsHunk(rest)
    ensures ParseUpdate(PrintHunk(hunk) + rest, lineNumber, hunk.path)
            == Ok(ParsedHunk(HunkOf(hunk), |PrintHunk(hunk)|))
  {
    hide ParseChunks, PrintChunks, MoveTarget, EndsHunk, RunFits, NoMove, IsHeader;
    var lines := PrintHunk(hunk) + rest;
    assert lines[1..] == HunkBody(hunk) + rest;
    MoveReadsBack(hunk, rest);
    var skip := if hunk.move.Some? then 2 else 1;
    assert lines[skip..] == PrintChunks(hunk.chunks) + hunk.tail + rest;
    ChunksReadBack(hunk.chunks, hunk.tail, rest, lineNumber + skip, true, false);
    RunIsNotEmpty(hunk.chunks, hunk.tail);
  }

  /** What may follow a hunk: nothing or a header, at the margin behind an update. */
  predicate Follows(hunk: HunkScript, rest: seq<string>) {
    rest == [] ||
    match hunk
    case AddScript(_, _, _) => !StartsWith(rest[0], "+")
    case DeleteScript(_, _) => true
    case UpdateScript(_, _, _, _, _) => EndsHunk(rest)
  }

  /** Every kind of hunk is read back, and takes exactly its own lines. */
  lemma HunkReadsBack(hunk: HunkScript, rest: seq<string>, lineNumber: nat)
    requires HunkFits(hunk) && Follows(hunk, rest)
    ensures ParseHunk(PrintHunk(hunk) + rest, lineNumber) == Ok(ParsedHunk(HunkOf(hunk), |PrintHunk(hunk)|))
  {
    hide ParseUpdate, EndsHunk, Trim, StartsWith, AddedLines, PrintChunks, RunFits, NoMove;
    var lines := PrintHunk(hunk) + rest;
    assert lines[0] == hunk.header;
    HeadersDiffer(Trim(lines[0]));
    match hunk
    case AddScript(header, path, added) =>
      HeaderReadsBack(header, ADD_FILE_MARKER, path);
      assert lines[1..] == PlusLines(added) + rest;
      AddedLinesReadBack(added, rest);
    case DeleteScript(header, path) =>
      HeaderReadsBack(header, DELETE_FILE_MARKER, path);
      assert Trim(lines[0])[4] == 'D';
    case UpdateScript(header, path, _, _, _) =>
      HeaderReadsBack(header, UPDATE_FILE_MARKER, path);
      assert Trim(lines[0])[4] == 'U';
      NothingEndsHunk();
      UpdateReadsBack(hunk, rest, lineNumber);
  }

  lemma {:induction false} HunksReadBack(hunks: seq<HunkScript>, lineNumber: nat) returns (parsed: seq<ParsedHunk>)
    requires AllFit(hunks)
    ensures ParseHunks(PrintHunks(hunks), lineNumber) == Ok(parsed) && HunksOf(parsed) == AllHunksOf(hunks)
  {
    hide ParseHunk, PrintHunk, HunkOf, HunkFits, Follows;
    var lines := PrintHunks(hunks);
    if hunks == [] {
      parsed := [];
    } else {
      var first, more := PrintHunk(hunks[0]), PrintHunks(hunks[1..]);
      RestFollows(hunks);
      HunkReadsBack(hunks[0], more, lineNumber);
      assert lines[|first|..] == more;
      var rest := HunksReadBack(hunks[1..], lineNumber + |first|);
      parsed := [ParsedHunk(HunkOf(hunks[0]), |first|)] + rest;
      assert parsed[1..] == rest;
    }
  }

  lemma RestFollows(hunks: seq<HunkScript>)
    requires hunks != [] && AllFit(hunks)
    ensures Follows(hunks[0], PrintHunks(hunks[1..]))
  {
    hide HunkBody, HunkFits, StartsWith;
    var rest := hunks[1..];
    if rest != [] {
      HeaderEndsHunk(rest[0]);
      assert PrintHunks(rest)[0] == rest[0].header;
    }
  }

  lemma NothingEndsHunk()
    ensures EndsHunk([])
  {
  }

  // ----- from text to lines -----

  /** One line of a text whose lines end in `eol`. */
  predicate IsLine(s: string, eol: string) {
    '\n' !in s && (eol == "\n" ==> s == "" || s[|s| - 1] != '\r')
  }

  predicate IsEol(eol: string) {
    eol == "\n" || eol == "\r\n"
  }

  function WithReturns(lines: seq<string>): (r: seq<string>)
    requires lines != []
    ensures |r| == |lines|
    ensures forall i :: 0 <= i < |r| ==> r[i] == if i + 1 < |lines| then lines[i] + "\r" else lines[i]
  {
    seq(|lines|, i requires 0 <= i < |lines| => if i + 1 < |lines| then lines[i] + "\r" else lines[i])
  }

  lemma {:induction false} JoinWithReturns(lines: seq<string>)
    requires lines != []
    ensures Join(lines, "\r\n") == Join(WithReturns(lines), "\n")
  {
    if |lines| > 1 {
      JoinWithReturns(lines[1..]);
      assert WithReturns(lines)[1..] == WithReturns(lines[1..]);
      assert lines[0] + "\r\n" == lines[0] + "\r" + "\n";
    } else {
      assert WithReturns(lines) == lines;
    }
  }

  /** Splitting undoes joining with either line ending. */
  lemma SplitOfJoin(lines: seq<string>, eol: string)
    requires lines != [] && IsEol(eol) && forall i :: 0 <= i < |lines| ==> IsLine(lines[i], eol)
    ensures SplitLines(Join(lines, eol)) == lines
  {
    hide Join, Lines;
    if eol == "\n" {
      LinesOfJoin(lines);
      assert SplitLines(Join(lines, eol)) == lines;
    } else {
      JoinWithReturns(lines);
      LinesOfJoin(WithReturns(lines));
      forall i | 0 <= i < |lines| - 1 ensures DropReturn(lines[i] + "\r") == lines[i] {
        assert (lines[i] + "\r")[..|lines[i]|] == lines[i];
      }
      assert SplitLines(Join(lines, eol)) == lines;
    }
  }

  predicate LinesPrint(lines: seq<string>, eol: string) {
    forall i :: 0 <= i < |lines| ==> IsLine(lines[i], eol)
  }

  // ----- the round trip -----

  lemma {:induction false} JoinKeepsEnds(lines: seq<string>, separator: string)
    requires lines != [] && lines[0] != "" && lines[|lines| - 1] != ""
    ensures var s := Join(lines, separator);
            var last := lines[|lines| - 1];
            s != "" && s[0] == lines[0][0] && s[|s| - 1] == last[|last| - 1]
  {
    var last := lines[|lines| - 1];
    if |lines| > 1 {
      var front := lines[..|lines| - 1];
      assert lines == front + [last];
      JoinSnoc(front, last, separator);
      assert lines == [lines[0]] + lines[1..];
      JoinCons(lines[0], lines[1..], separator);
      assert Join(lines, separator)[0] == lines[0][0];
    }
  }

  /** White space around a patch does not matter, and trimming leaves a text that starts and ends otherwise alone. */
  lemma LinesOfPadded(left: string, lines: seq<string>, eol: string, right: string)
    requires lines != [] && LinesPrint(lines, eol) && IsEol(eol) && AllSpace(left) && AllSpace(right)
    requires lines[0] != "" && !IsSpace(lines[0][0])
    requires var last := lines[|lines| - 1]; last != "" && !IsSpace(last[|last| - 1])
    ensures var input := left + Join(lines, eol) + right;
            Trim(input) != "" && SplitLines(Trim(input)) == lines
  {
    hide Join, SplitLines, IsLine, IsSpace, Trim;
    var text := Join(lines, eol);
    JoinKeepsEnds(lines, eol);
    TrimUnique(left, text, right);
    SplitOfJoin(lines, eol);
  }

  lemma PatchIsStrict(hunks: seq<HunkScript>)
    ensures StrictError(PatchOf(hunks)) == None && |PatchOf(hunks)| >= 2
  {
    hide PrintHunks;
    TrimUnique("", BEGIN_PATCH_MARKER, "");
    TrimUnique("", END_PATCH_MARKER, "");
    assert "" + BEGIN_PATCH_MARKER + "" == BEGIN_PATCH_MARKER && "" + END_PATCH_MARKER + "" == END_PATCH_MARKER;
    var lines := PatchOf(hunks);
    assert lines[0] == BEGIN_PATCH_MARKER && lines[|lines| - 1] == END_PATCH_MARKER;
  }

  lemma ParseLinesOfPatch(hunks: seq<HunkScript>)
    requires AllFit(hunks)
    ensures |PatchOf(hunks)| >= 2
    ensures ParseLines(PatchOf(hunks)) == Ok(ParsedPatch(AllHunksOf(hunks), Join(PatchOf(hunks), "\n")))
  {
    hide AllFit, PrintHunks, ParseHunks, Join, AllHunksOf;
    var lines := PatchOf(hunks);
    assert lines[1..|lines| - 1] == PrintHunks(hunks);
    var parsed := HunksReadBack(hunks, 2);
  }

  /** Parsing a printed patch gives back the hunks it was printed from: whatever the order of the edits, with or without
      the context line of a first chunk, and whatever the blank lines, the white space around headers and around the
      patch, and the line ending. */
  lemma PrintedPatchParses(hunks: seq<HunkScript>, eol: string, left: string, right: string)
    requires AllFit(hunks) && LinesPrint(PatchOf(hunks), eol) && IsEol(eol) && AllSpace(left) && AllSpace(right)
    ensures Parse(left + Join(PatchOf(hunks), eol) + right)
            == Ok(ParsedPatch(AllHunksOf(hunks), Join(PatchOf(hunks), "\n")))
  {
    hide AllFit, LinesPrint, Join, SplitLines, StrictError, ParseLines, Trim;
    var lines := PatchOf(hunks);
    assert lines[0] == BEGIN_PATCH_MARKER && lines[|lines| - 1] == END_PATCH_MARKER;
    LinesOfPadded(left, lines, eol, right);
    PatchIsStrict(hunks);
    ParseLinesOfPatch(hunks);
  }

  /** A patch wrapped in a shell here-document parses like the patch itself. */
  lemma PatchInHeredocParses(hunks: seq<HunkScript>, eol: string, first: string, last: string)
    requires AllFit(hunks) && LinesPrint(PatchOf(hunks), eol) && IsEol(eol)
    requires OpensHeredoc(first) && EndsWith(last, "EOF") && IsLine(last, eol)
    ensures Parse(Join([first] + PatchOf(hunks) + [last], eol)) == Parse(Join(PatchOf(hunks), eol))
  {
    hide AllFit, Join, SplitLines, StrictError, ParseLines, Trim, PrintHunks, IsLine;
    var patch := PatchOf(hunks);
    var lines := [first] + patch + [last];
    FirstIsLine(first, last, eol);
    assert "" + Join(lines, eol) + "" == Join(lines, eol) && "" + Join(patch, eol) + "" == Join(patch, eol);
    LinesOfPadded("", lines, eol, "");
    PatchIsStrict(hunks);
    NotStrict(lines);
    ParseLinesOfPatch(hunks);
    PrintedPatchParses(hunks, eol, "", "");
    assert |patch| >= 2 && |lines| == |patch| + 2 && lines[1..|lines| - 1] == patch;
  }

  lemma FirstIsLine(first: string, last: string, eol: string)
    requires OpensHeredoc(first) && EndsWith(last, "EOF")
    ensures IsLine(first, eol) && first[0] == '<' && !IsSpace('<')
    ensures last != "" && last[|last| - 1] == 'F'
  {
    assert last[|last| - 3..][2] == last[|last| - 1];
  }

  lemma NotStrict(lines: seq<string>)
    requires lines != [] && OpensHeredoc(lines[0])
    ensures StrictError(lines) == Some(BadFirstLine)
  {
    FirstIsLine(lines[0], "EOF", "\n");
    TrimKeepsFirst(lines[0]);
  }

  // ----- the hunks themselves -----

  function Removes(lines: seq<string>): (r: seq<Edit>)
    ensures |r| == |lines| && forall i :: 0 <= i < |r| ==> r[i] == Remove(lines[i])
  {
    seq(|lines|, i requires 0 <= i < |lines| => Remove(lines[i]))
  }

  function Inserts(lines: seq<string>): (r: seq<Edit>)
    ensures |r| == |lines| && forall i :: 0 <= i < |r| ==> r[i] == Insert(lines[i])
  {
    seq(|lines|, i requires 0 <= i < |lines| => Insert(lines[i]))
  }

  function ChunkScriptOf(chunk: UpdateFileChunk): ChunkScript {
    ChunkScript([], true, chunk.changeContext, Removes(chunk.oldLines) + Inserts(chunk.newLines), chunk.isEndOfFile)
  }

  function ChunkScriptsOf(chunks: seq<UpdateFileChunk>): (r: seq<ChunkScript>)
    ensures |r| == |chunks| && forall i :: 0 <= i < |r| ==> r[i] == ChunkScriptOf(chunks[i])
  {
    seq(|chunks|, i requires 0 <= i < |chunks| => ChunkScriptOf(chunks[i]))
  }

  function ScriptOf(hunk: Hunk): HunkScript {
    match hunk
    case AddFile(path, contents) =>
      AddScript(ADD_FILE_MARKER + path, path, Lines(contents)[..|Lines(contents)| - 1])
    case DeleteFile(path) => DeleteScript(DELETE_FILE_MARKER + path, path)
    case UpdateFile(path, movePath, chunks) =>
      var move := match movePath case None => None case Some(to) => Some(MoveScript(MOVE_TO_MARKER + to, to));
      UpdateScript(UPDATE_FILE_MARKER + path, path, move, ChunkScriptsOf(chunks), [])
  }

  function ScriptsOf(hunks: seq<Hunk>): (r: seq<HunkScript>)
    ensures |r| == |hunks| && forall i :: 0 <= i < |r| ==> r[i] == ScriptOf(hunks[i])
  {
    seq(|hunks|, i requires 0 <= i < |hunks| => ScriptOf(hunks[i]))
  }

  /** A path is not blank and does not end in a space; it may start with one. */
  predicate IsPath(path: string) {
    path != "" && !IsSpace(path[|path| - 1]) && '\n' !in path
  }

  predicate ChunkPrintable(chunk: UpdateFileChunk, eol: string) {
    && (chunk.oldLines != [] || chunk.newLines != [])
    && (chunk.changeContext.Some? ==> IsLine(chunk.changeContext.value, eol))
    && LinesPrint(chunk.oldLines, eol) && LinesPrint(chunk.newLines, eol)
  }

  /** Hunks of which the printed form exists: every line is a line, paths are trimmed at the end, chunks are not empty,
      added text ends in a newline. */
  predicate Printable(hunk: Hunk, eol: string) {
    match hunk
    case AddFile(path, contents) =>
      && IsPath(path) && LinesPrint(Lines(contents), eol)
      && (contents == "" || contents[|contents| - 1] == '\n')
    case DeleteFile(path) => IsPath(path)
    case UpdateFile(path, movePath, chunks) =>
      && IsPath(path) && (movePath.Some? ==> IsPath(movePath.value))
      && chunks != [] && forall i :: 0 <= i < |chunks| ==> ChunkPrintable(chunks[i], eol)
  }

  predicate AllPrintable(hunks: seq<Hunk>, eol: string) {
    forall i :: 0 <= i < |hunks| ==> Printable(hunks[i], eol)
  }

  /** A marker followed by a path is not changed by trimming. */
  lemma MarkedPath(marker: string, path: string)
    requires marker != "" && !IsSpace(marker[0]) && IsPath(path)
    ensures IsHeader(marker + path, marker, path)
  {
    var line := marker + path;
    assert "" + line + "" == line;
    TrimUnique("", line, "");
  }

  lemma PrefixedIsLine(prefix: string, s: string, eol: string)
    requires IsLine(s, eol) && '\n' !in prefix && prefix != "" && prefix[|prefix| - 1] != '\r'
    ensures IsLine(prefix + s, eol)
  {
  }

  lemma PathIsLine(path: string, eol: string)
    requires IsPath(path)
    ensures IsLine(path, eol)
  {
  }

  lemma MarkersAreLines(eol: string)
    ensures IsLine("", eol) && IsLine(EOF_MARKER, eol) && IsLine(EMPTY_CHANGE_CONTEXT_MARKER, eol)
    ensures IsLine(BEGIN_PATCH_MARKER, eol) && IsLine(END_PATCH_MARKER, eol)
  {
  }

  lemma ChunkPrintsLines(chunk: UpdateFileChunk, eol: string)
    requires ChunkPrintable(chunk, eol)
    ensures LinesPrint(PrintChunk(ChunkScriptOf(chunk)), eol)
    ensures ChunkScriptOf(chunk).edits != []
  {
    hide IsLine;
    MarkersAreLines(eol);
    if chunk.changeContext.Some? {
      PrefixedIsLine(CHANGE_CONTEXT_MARKER, chunk.changeContext.value, eol);
    }
    var edits := ChunkScriptOf(chunk).edits;
    forall i | 0 <= i < |edits| ensures IsLine(EditLines(edits)[i], eol) {
      if i < |chunk.oldLines| {
        assert edits[i] == Remove(chunk.oldLines[i]);
        PrefixedIsLine("-", chunk.oldLines[i], eol);
      } else {
        assert edits[i] == Insert(chunk.newLines[i - |chunk.oldLines|]);
        PrefixedIsLine("+", chunk.newLines[i - |chunk.oldLines|], eol);
      }
    }
  }

  lemma {:induction false} ChunksPrintLines(chunks: seq<UpdateFileChunk>, eol: string, isFirst: bool, open: bool)
    requires forall i :: 0 <= i < |chunks| ==> ChunkPrintable(chunks[i], eol)
    ensures LinesPrint(PrintChunks(ChunkScriptsOf(chunks)), eol)
    ensures RunFits(ChunkScriptsOf(chunks), [], isFirst, open)
    ensures chunks != [] ==> NoMove(PrintChunks(ChunkScriptsOf(chunks)))
  {
    hide IsLine, ChunkPrintable, PrintChunk, ChunkScriptOf, NoMove;
    if chunks != [] {
      ChunkPrintsLines(chunks[0], eol);
      ChunksPrintLines(chunks[1..], eol, false, !chunks[0].isEndOfFile);
      assert ChunkScriptsOf(chunks)[1..] == ChunkScriptsOf(chunks[1..]);
      PlainChunkFits(chunks[0], isFirst, open);
      ChunkIsNoMove(chunks[0], PrintChunks(ChunkScriptsOf(chunks[1..])));
    }
  }

  lemma PlainChunkFits(chunk: UpdateFileChunk, isFirst: bool, open: bool)
    requires ChunkScriptOf(chunk).edits != []
    ensures ChunkFits(ChunkScriptOf(chunk), isFirst, open) && ChunkScriptOf(chunk).isEndOfFile == chunk.isEndOfFile
  {
    hide Trim;
  }

  lemma ChunkIsNoMove(chunk: UpdateFileChunk, more: seq<string>)
    ensures NoMove(PrintChunk(ChunkScriptOf(chunk)) + more)
  {
    hide Trim;
    var line := ContextLine(chunk.changeContext);
    ContextLineReadsBack(chunk.changeContext);
    assert (PrintChunk(ChunkScriptOf(chunk)) + more)[0] == line;
    HeadersDiffer(Trim(line));
    TrimKeepsFirst(line);
  }

  lemma PathIsPrintable(hunk: Hunk, eol: string)
    requires Printable(hunk, eol)
    ensures IsPath(hunk.path)
  {
    hide IsPath, LinesPrint, ChunkPrintable;
  }

  lemma ScriptHasHeader(hunk: Hunk)
    ensures ScriptOf(hunk).header == HeaderMarker(hunk) + hunk.path && StartsWith(ScriptOf(hunk).header, "***")
  {
    hide Lines, ChunkScriptsOf;
  }

  function HeaderMarker(hunk: Hunk): string {
    match hunk
    case AddFile(_, _) => ADD_FILE_MARKER
    case DeleteFile(_) => DELETE_FILE_MARKER
    case UpdateFile(_, _, _) => UPDATE_FILE_MARKER
  }

  lemma {:induction false} ScriptFits(hunk: Hunk, eol: string)
    requires Printable(hunk, eol)
    ensures HunkFits(ScriptOf(hunk)) && LinesPrint(PrintHunk(ScriptOf(hunk)), eol)
    ensures StartsWith(ScriptOf(hunk).header, "***")
  {
    hide HunkFits, LinesPrint, PrintHunk, IsPath, IsSpace, ChunkPrintable, Lines, IsHeader, IsLine, StartsWith,
         ScriptOf;
    PathIsPrintable(hunk, eol);
    PathIsLine(hunk.path, eol);
    ScriptHasHeader(hunk);
    StarsAreNoSpace();
    match hunk
    case AddFile(path, contents) =>
      MarkedPath(ADD_FILE_MARKER, path);
      PrefixedIsLine(ADD_FILE_MARKER, path, eol);
      AddFits(hunk, eol);
    case DeleteFile(path) =>
      MarkedPath(DELETE_FILE_MARKER, path);
      PrefixedIsLine(DELETE_FILE_MARKER, path, eol);
      DeleteFits(hunk, eol);
    case UpdateFile(path, movePath, chunks) =>
      MarkedPath(UPDATE_FILE_MARKER, path);
      PrefixedIsLine(UPDATE_FILE_MARKER, path, eol);
      UpdateFits(hunk, eol);
  }

  lemma AddFits(hunk: Hunk, eol: string)
    requires hunk.AddFile? && LinesPrint(Lines(hunk.contents), eol)
    requires IsHeader(ScriptOf(hunk).header, ADD_FILE_MARKER, hunk.path) && IsLine(ScriptOf(hunk).header, eol)
    ensures HunkFits(ScriptOf(hunk)) && LinesPrint(PrintHunk(ScriptOf(hunk)), eol)
  {
    hide IsLine, IsHeader, Lines;
    var lines := Lines(hunk.contents)[..|Lines(hunk.contents)| - 1];
    forall i | 0 <= i < |lines| ensures IsLine(PlusLines(lines)[i], eol) {
      assert lines[i] == Lines(hunk.contents)[i];
      PrefixedIsLine("+", lines[i], eol);
    }
  }

  lemma DeleteFits(hunk: Hunk, eol: string)
    requires hunk.DeleteFile?
    requires IsHeader(ScriptOf(hunk).header, DELETE_FILE_MARKER, hunk.path) && IsLine(ScriptOf(hunk).header, eol)
    ensures HunkFits(ScriptOf(hunk)) && LinesPrint(PrintHunk(ScriptOf(hunk)), eol)
  {
    hide IsLine, IsHeader;
  }

  lemma {:induction false} UpdateFits(hunk: Hunk, eol: string)
    requires hunk.UpdateFile? && Printable(hunk, eol)
    requires IsHeader(ScriptOf(hunk).header, UPDATE_FILE_MARKER, hunk.path) && IsLine(ScriptOf(hunk).header, eol)
    ensures HunkFits(ScriptOf(hunk)) && LinesPrint(PrintHunk(ScriptOf(hunk)), eol)
  {
    hide IsLine, IsPath, ChunkPrintable, PrintChunks, IsHeader, RunFits, NoMove, IsSpace;
    ChunksPrintLines(hunk.chunks, eol, true, false);
    StarsAreNoSpace();
    if hunk.movePath.Some? {
      MarkedPath(MOVE_TO_MARKER, hunk.movePath.value);
      PathIsLine(hunk.movePath.value, eol);
      PrefixedIsLine(MOVE_TO_MARKER, hunk.movePath.value, eol);
    }
  }

  lemma StarsAreNoSpace()
    ensures !IsSpace('*')
  {
  }

  lemma {:induction false} RemovesThenInserts(oldLines: seq<string>, newLines: seq<string>)
    ensures OldLinesOf(Removes(oldLines) + Inserts(newLines)) == oldLines
    ensures NewLinesOf(Removes(oldLines) + Inserts(newLines)) == newLines
  {
    var edits := Removes(oldLines) + Inserts(newLines);
    if oldLines != [] {
      assert edits[0] == Remove(oldLines[0]);
      assert edits[1..] == Removes(oldLines[1..]) + Inserts(newLines);
      RemovesThenInserts(oldLines[1..], newLines);
    } else {
      assert edits == Inserts(newLines);
      InsertsAlone(newLines);
    }
  }

  lemma {:induction false} InsertsAlone(newLines: seq<string>)
    ensures OldLinesOf(Inserts(newLines)) == [] && NewLinesOf(Inserts(newLines)) == newLines
  {
    if newLines != [] {
      assert Inserts(newLines)[1..] == Inserts(newLines[1..]);
      InsertsAlone(newLines[1..]);
    }
  }

  lemma {:induction false} TextOfIsJoin(lines: seq<string>)
    ensures TextOf(lines) == Join(lines + [""], "\n")
  {
    if lines == [] {
      assert lines + [""] == [""];
    } else {
      TextOfIsJoin(lines[1..]);
      assert lines + [""] == [lines[0]] + (lines[1..] + [""]);
      JoinCons(lines[0], lines[1..] + [""], "\n");
    }
  }

  lemma {:induction false} ChunkScriptsReadBack(chunks: seq<UpdateFileChunk>)
    ensures ChunksOf(ChunkScriptsOf(chunks)) == chunks
  {
    hide ChunkOf, ChunkScriptOf;
    if chunks != [] {
      assert ChunkScriptsOf(chunks)[1..] == ChunkScriptsOf(chunks[1..]);
      ChunkScriptsReadBack(chunks[1..]);
      ChunkScriptReadsBack(chunks[0]);
    }
  }

  lemma ChunkScriptReadsBack(chunk: UpdateFileChunk)
    ensures ChunkOf(ChunkScriptOf(chunk)) == chunk
  {
    RemovesThenInserts(chunk.oldLines, chunk.newLines);
  }

  lemma ScriptReadsBack(hunk: Hunk, eol: string)
    requires Printable(hunk, eol)
    ensures HunkOf(ScriptOf(hunk)) == hunk
  {
    hide LinesPrint, Lines, Join, TextOf, ChunksOf, ChunkPrintable;
    match hunk
    case AddFile(path, contents) =>
      var lines := Lines(contents);
      LastLineEmpty(contents);
      TextOfIsJoin(lines[..|lines| - 1]);
      assert lines[..|lines| - 1] + [""] == lines;
      JoinOfLines(contents);
    case DeleteFile(path) =>
    case UpdateFile(path, movePath, chunks) =>
      ChunkScriptsReadBack(chunks);
  }

  lemma {:induction false} ScriptsReadBack(hunks: seq<Hunk>, eol: string)
    requires AllPrintable(hunks, eol)
    ensures AllFit(ScriptsOf(hunks)) && LinesPrint(PrintHunks(ScriptsOf(hunks)), eol)
    ensures AllHunksOf(ScriptsOf(hunks)) == hunks
  {
    hide HunkOf, ScriptOf, HunkFits, PrintHunk, Printable, IsLine, StartsWith;
    if hunks != [] {
      ScriptsReadBack(hunks[1..], eol);
      ScriptReadsBack(hunks[0], eol);
      ScriptFits(hunks[0], eol);
      if |hunks| > 1 {
        ScriptFits(hunks[1], eol);
      }
      assert ScriptsOf(hunks)[1..] == ScriptsOf(hunks[1..]);
    }
  }

  function Print(hunks: seq<Hunk>, eol: string): string {
    Join(PatchOf(ScriptsOf(hunks)), eol)
  }

  /** The round trip from hunks to text and back. */
  lemma PrintThenParse(hunks: seq<Hunk>, eol: string)
    requires IsEol(eol) && AllPrintable(hunks, eol)
    ensures Parse(Print(hunks, eol)).Ok? && Parse(Print(hunks, eol)).value.hunks == hunks
  {
    hide AllFit, Join, Parse, Printable, AllHunksOf, ScriptsOf, PrintHunks, IsLine;
    ScriptsReadBack(hunks, eol);
    MarkersAreLines(eol);
    PrintedPatchParses(ScriptsOf(hunks), eol, "", "");
    assert "" + Print(hunks, eol) + "" == Print(hunks, eol);
  }

  // ----- whatever the parser returns can be printed -----

  predicate NewlineFree(lines: seq<string>) {
    forall i :: 0 <= i < |lines| ==> '\n' !in lines[i]
  }

  lemma {:induction false} LinesAreNewlineFree(s: string)
    ensures NewlineFree(Lines(s))
  {
    if s != "" {
      LinesAreNewlineFree(s[1..]);
    }
  }

  lemma SplitIsNewlineFree(s: string)
    ensures NewlineFree(SplitLines(s))
  {
    hide Lines;
    LinesAreNewlineFree(s);
    var lines := Lines(s);
    forall i | 0 <= i < |lines| ensures '\n' !in SplitLines(s)[i] {
      assert SplitLines(s)[i] <= lines[i];
    }
  }

  lemma {:induction false} BodyIsNewlineFree(lines: seq<string>)
    requires NewlineFree(lines)
    ensures NewlineFree(ReadBody(lines).oldLines) && NewlineFree(ReadBody(lines).newLines)
  {
    if lines != [] {
      BodyIsNewlineFree(lines[1..]);
    }
  }

  lemma BodyIsNotEmpty(lines: seq<string>)
    requires lines != [] && lines[0] != EOF_MARKER && EditOf(lines[0]).Some?
    ensures ReadBody(lines).oldLines != [] || ReadBody(lines).newLines != []
  {
  }

  lemma NewlineFreePrint(lines: seq<string>)
    requires NewlineFree(lines)
    ensures LinesPrint(lines, "\r\n")
  {
  }

  lemma ParsedChunkPrints(lines: seq<string>, lineNumber: nat, allowMissingContext: bool)
    requires NewlineFree(lines) && ParseChunk(lines, lineNumber, allowMissingContext).Ok?
    ensures ChunkPrintable(ParseChunk(lines, lineNumber, allowMissingContext).value.chunk, "\r\n")
  {
    hide ReadBody, EditOf;
    var chunk := ParseChunk(lines, lineNumber, allowMissingContext).value.chunk;
    var start := ChunkStartOf(lines[0]);
    BodyIsNewlineFree(lines[start.startIndex..]);
    BodyIsNotEmpty(lines[start.startIndex..]);
    NewlineFreePrint(chunk.oldLines);
    NewlineFreePrint(chunk.newLines);
  }

  lemma {:induction false} ParsedChunksPrint(lines: seq<string>, lineNumber: nat, isFirst: bool)
    requires NewlineFree(lines) && ParseChunks(lines, lineNumber, isFirst).Ok?
    ensures var chunks := ParseChunks(lines, lineNumber, isFirst).value.chunks;
            forall i :: 0 <= i < |chunks| ==> ChunkPrintable(chunks[i], "\r\n")
    decreases |lines|
  {
    hide ParseChunk, ParseChunks, Trim, StartsWith, ChunkPrintable;
    if lines == [] || (Trim(lines[0]) != "" && StartsWith(lines[0], "***")) {
      ParseChunksStops(lines, lineNumber, isFirst);
    } else if Trim(lines[0]) == "" {
      ParseChunksBlank(lines, lineNumber, isFirst);
      ParsedChunksPrint(lines[1..], lineNumber + 1, isFirst);
    } else {
      ParseChunksStep(lines, lineNumber, isFirst);
      ParsedChunkPrints(lines, lineNumber, isFirst);
      var n := ParseChunk(lines, lineNumber, isFirst).value.consumed;
      ParsedChunksPrint(lines[n..], lineNumber + n, false);
    }
  }

  /** What follows a marker that ends in a space, on a trimmed line, is a path. */
  lemma PathAfterMarker(line: string, marker: string)
    requires '\n' !in line && StartsWith(Trim(line), marker) && marker != "" && IsSpace(marker[|marker| - 1])
    ensures IsPath(Trim(line)[|marker|..])
  {
    var left, right := TrimSplits(line);
    var core := Trim(line);
    assert forall i :: 0 <= i < |core| ==> core[i] == line[|left| + i];
    assert |core| == |marker| ==> core == marker;
  }

  lemma {:induction false} AddedLinesAreNewlineFree(lines: seq<string>)
    requires NewlineFree(lines)
    ensures NewlineFree(AddedLines(lines))
  {
    if lines != [] && StartsWith(lines[0], "+") {
      AddedLinesAreNewlineFree(lines[1..]);
    }
  }

  lemma TextOfLines(lines: seq<string>)
    requires NewlineFree(lines)
    ensures Lines(TextOf(lines)) == lines + [""]
    ensures TextOf(lines) == "" || TextOf(lines)[|TextOf(lines)| - 1] == '\n'
  {
    hide Lines, TextOf, Join;
    TextOfIsJoin(lines);
    LinesOfJoin(lines + [""]);
    LastLineEmpty(TextOf(lines));
  }

  lemma MarkersEndInSpace()
    ensures forall m :: m in {ADD_FILE_MARKER, DELETE_FILE_MARKER, UPDATE_FILE_MARKER, MOVE_TO_MARKER}
              ==> m != "" && IsSpace(m[|m| - 1])
  {
  }

  lemma AddedFilePrints(path: string, lines: seq<string>)
    requires IsPath(path) && NewlineFree(lines)
    ensures Printable(AddFile(path, TextOf(AddedLines(lines))), "\r\n")
  {
    hide IsPath, AddedLines, TextOf, Lines;
    var added := AddedLines(lines);
    AddedLinesAreNewlineFree(lines);
    TextOfLines(added);
    NewlineFreePrint(added + [""]);
  }

  lemma MovePathIsPath(lines: seq<string>)
    requires NewlineFree(lines) && MoveTarget(lines).Some?
    ensures IsPath(MoveTarget(lines).value)
  {
    hide Trim, StartsWith, IsPath, IsSpace;
    MarkersEndInSpace();
    PathAfterMarker(lines[0], MOVE_TO_MARKER);
  }

  lemma ParsedUpdatePrints(lines: seq<string>, lineNumber: nat, path: string)
    requires lines != [] && NewlineFree(lines) && IsPath(path) && ParseUpdate(lines, lineNumber, path).Ok?
    ensures Printable(ParseUpdate(lines, lineNumber, path).value.hunk, "\r\n")
  {
    hide ParseChunks, MoveTarget, IsPath, ChunkPrintable;
    var movePath := MoveTarget(lines[1..]);
    if movePath.Some? {
      MovePathIsPath(lines[1..]);
    }
    var skip := if movePath.Some? then 2 else 1;
    ParsedChunksPrint(lines[skip..], lineNumber + skip, true);
  }

  lemma ParsedHunkPrints(lines: seq<string>, lineNumber: nat)
    requires NewlineFree(lines) && ParseHunk(lines, lineNumber).Ok?
    ensures Printable(ParseHunk(lines, lineNumber).value.hunk, "\r\n")
  {
    hide ParseUpdate, Trim, StartsWith, IsPath, AddedLines, TextOf, Lines, Printable, IsSpace;
    MarkersEndInSpace();
    var first := Trim(lines[0]);
    if StartsWith(first, ADD_FILE_MARKER) {
      MarkerFits(first, ADD_FILE_MARKER);
      PathAfterMarker(lines[0], ADD_FILE_MARKER);
      AddedFilePrints(first[|ADD_FILE_MARKER|..], lines[1..]);
    } else if StartsWith(first, DELETE_FILE_MARKER) {
      MarkerFits(first, DELETE_FILE_MARKER);
      PathAfterMarker(lines[0], DELETE_FILE_MARKER);
      DeletePrints(first[|DELETE_FILE_MARKER|..]);
    } else {
      MarkerFits(first, UPDATE_FILE_MARKER);
      PathAfterMarker(lines[0], UPDATE_FILE_MARKER);
      ParsedUpdatePrints(lines, lineNumber, first[|UPDATE_FILE_MARKER|..]);
    }
  }

  lemma DeletePrints(path: string)
    requires IsPath(path)
    ensures Printable(DeleteFile(path), "\r\n")
  {
  }

  lemma BehindIsNewlineFree(lines: seq<string>, n: nat)
    requires NewlineFree(lines) && n <= |lines|
    ensures NewlineFree(lines[n..])
  {
  }

  lemma FirstHunkOf(parsed: ParsedHunk, rest: seq<ParsedHunk>)
    ensures HunksOf([parsed] + rest) == [parsed.hunk] + HunksOf(rest)
  {
    assert ([parsed] + rest)[1..] == rest;
  }

  lemma {:induction false} ParsedHunksPrint(lines: seq<string>, lineNumber: nat)
    requires NewlineFree(lines) && ParseHunks(lines, lineNumber).Ok?
    ensures var parsed := ParseHunks(lines, lineNumber).value;
            AllPrintable(HunksOf(parsed), "\r\n")
    decreases |lines|
  {
    hide ParseHunk, Printable, Trim, HunksOf, NewlineFree;
    if lines == [] {
      assert HunksOf([]) == [];
    } else {
      ParsedHunkPrints(lines, lineNumber);
      var n := ParseHunk(lines, lineNumber).value.consumed;
      BehindIsNewlineFree(lines, n);
      ParsedHunksPrint(lines[n..], lineNumber + n);
      FirstHunkOf(ParseHunk(lines, lineNumber).value, ParseHunks(lines[n..], lineNumber + n).value);
    }
  }

  lemma PatchLinesAreNewlineFree(input: string)
    requires PatchLines(input).Ok?
    ensures NewlineFree(PatchLines(input).value)
  {
    hide Trim, SplitLines, StrictError;
    SplitIsNewlineFree(Trim(input));
  }

  /** For every text the parser accepts, the hunks it returns can be printed,
      and parsing the printed form returns the same hunks. */
  lemma ParseThenPrintThenParse(input: string)
    requires Parse(input).Ok?
    ensures var hunks := Parse(input).value.hunks;
            && Parse(Print(hunks, "\r\n")).Ok?
            && Parse(Print(hunks, "\r\n")).value.hunks == hunks
  {
    hide Print, Printable, PatchLines, ParseHunks;
    var lines := PatchLines(input).value;
    PatchLinesAreNewlineFree(input);
    ParsedHunksPrint(lines[1..|lines| - 1], 2);
    PrintThenParse(Parse(input).value.hunks, "\r\n");
  }

  // ----- where errors point -----

  /** The error is about a line of `lines`, the first of which has number `first`. A missing context, a bad header and
      an empty update carry the number of their line. An unexpected line carries its own number when a context marker
      opens its chunk; in a first chunk without a marker it is reported one line too low in the patch. */
  predicate PointsInto(lines: seq<string>, first: nat, e: ParseError) {
    match e
    case MissingContext(line, text) => first <= line < first + |lines| && lines[line - first] == text
    case BadHeader(line, text) => first <= line < first + |lines| && lines[line - first] == text
    case EmptyUpdate(line, path) =>
      first <= line < first + |lines| && Trim(lines[line - first]) == UPDATE_FILE_MARKER + path
    case UnexpectedLine(line, text) =>
      first < line <= first + |lines|
      && (if ChunkStartOf(lines[line - 1 - first]).startIndex == 1 then line < first + |lines|
            && lines[line - first] == text
          else lines[line - 1 - first] == text)
    case NoLines(line) =>
      first < line <= first + |lines| && ChunkStartOf(lines[line - 1 - first]).startIndex == 1
      && (line == first + |lines| || lines[line - first] == EOF_MARKER)
    case _ => false
  }

  lemma PointsIntoSuffix(lines: seq<string>, first: nat, k: nat, e: ParseError)
    requires k <= |lines| && PointsInto(lines[k..], first + k, e)
    ensures PointsInto(lines, first, e)
  {
    hide ChunkStartOf, Trim;
  }

  lemma ChunkErrorPoints(lines: seq<string>, lineNumber: nat, allowMissingContext: bool)
    requires lines != [] && !StartsWith(lines[0], "***") && ParseChunk(lines, lineNumber, allowMissingContext).Err?
    ensures PointsInto(lines, lineNumber, ParseChunk(lines, lineNumber, allowMissingContext).error)
  {
    hide ChunkStartOf, EditOf, ReadBody, Trim;
    assert EOF_MARKER[..3] == "***";
  }

  lemma {:induction false} ChunksErrorPoints(lines: seq<string>, lineNumber: nat, isFirst: bool)
    requires ParseChunks(lines, lineNumber, isFirst).Err?
    ensures PointsInto(lines, lineNumber, ParseChunks(lines, lineNumber, isFirst).error)
    decreases |lines|
  {
    hide ParseChunk, ParseChunks, Trim, StartsWith, PointsInto;
    if lines == [] || (Trim(lines[0]) != "" && StartsWith(lines[0], "***")) {
      ParseChunksStops(lines, lineNumber, isFirst);
    } else if Trim(lines[0]) == "" {
      ParseChunksBlank(lines, lineNumber, isFirst);
      ChunksErrorPoints(lines[1..], lineNumber + 1, isFirst);
      PointsIntoSuffix(lines, lineNumber, 1, ParseChunks(lines, lineNumber, isFirst).error);
    } else {
      ParseChunksStep(lines, lineNumber, isFirst);
      if ParseChunk(lines, lineNumber, isFirst).Err? {
        ChunkErrorPoints(lines, lineNumber, isFirst);
      } else {
        var n := ParseChunk(lines, lineNumber, isFirst).value.consumed;
        ChunksErrorPoints(lines[n..], lineNumber + n, false);
        PointsIntoSuffix(lines, lineNumber, n, ParseChunks(lines, lineNumber, isFirst).error);
      }
    }
  }

  lemma HunkErrorPoints(lines: seq<string>, lineNumber: nat)
    requires lines != [] && ParseHunk(lines, lineNumber).Err?
    ensures PointsInto(lines, lineNumber, ParseHunk(lines, lineNumber).error)
  {
    hide ParseChunks, Trim, ChunkStartOf, AddedLines, TextOf;
    var e := ParseHunk(lines, lineNumber).error;
    var first := Trim(lines[0]);
    if StartsWith(first, UPDATE_FILE_MARKER) {
      assert first == UPDATE_FILE_MARKER + first[|UPDATE_FILE_MARKER|..];
      var skip := if MoveTarget(lines[1..]).Some? then 2 else 1;
      if ParseChunks(lines[skip..], lineNumber + skip, true).Err? {
        ChunksErrorPoints(lines[skip..], lineNumber + skip, true);
        PointsIntoSuffix(lines, lineNumber, skip, e);
      }
    }
  }

  lemma {:induction false} HunksErrorPoints(lines: seq<string>, lineNumber: nat)
    requires ParseHunks(lines, lineNumber).Err?
    ensures PointsInto(lines, lineNumber, ParseHunks(lines, lineNumber).error)
    decreases |lines|
  {
    hide ParseHunk, PointsInto;
    if lines != [] {
      if ParseHunk(lines, lineNumber).Err? {
        HunkErrorPoints(lines, lineNumber);
      } else {
        var n := ParseHunk(lines, lineNumber).value.consumed;
        HunksErrorPoints(lines[n..], lineNumber + n);
        PointsIntoSuffix(lines, lineNumber, n, ParseHunks(lines, lineNumber).error);
      }
    }
  }

  /** Numbering the lines of the patch proper from one, every error in a hunk points at a line between the markers. */
  lemma ErrorsPointIntoThePatch(input: string)
    requires PatchLines(input).Ok? && Parse(input).Err?
    ensures var lines := PatchLines(input).value;
            PointsInto(lines[1..|lines| - 1], 2, Parse(input).error)
  {
    hide PatchLines, ParseHunks, PointsInto;
    var lines := PatchLines(input).value;
    HunksErrorPoints(lines[1..|lines| - 1], 2);
  }

  /** A patch whose first chunk has no context marker and starts with a line that is no edit. */
  function UnmarkedPatch(): seq<string> {
    [BEGIN_PATCH_MARKER, UPDATE_FILE_MARKER + "a", "x", END_PATCH_MARKER]
  }

  lemma UnmarkedChunkFails()
    ensures ParseChunks(["x"], 3, true) == Err(UnexpectedLine(4, "x")) && MoveTarget(["x"]) == None
  {
    NotBlank("x");
    TrimKeepsFirst("x");
    StarLine("x");
    HeadersDiffer(Trim("x"));
    assert ParseChunk(["x"], 3, true) == Err(UnexpectedLine(4, "x"));
    ParseChunksStep(["x"], 3, true);
  }

  lemma UnmarkedHunkFails()
    ensures ParseHunk([UPDATE_FILE_MARKER + "a", "x"], 2) == Err(UnexpectedLine(4, "x"))
  {
    hide ParseChunks, MoveTarget, Trim, StartsWith, AddedLines;
    var lines := [UPDATE_FILE_MARKER + "a", "x"];
    MarkedPath(UPDATE_FILE_MARKER, "a");
    HeaderReadsBack(lines[0], UPDATE_FILE_MARKER, "a");
    HeadersDiffer(lines[0]);
    assert lines[0][4] == 'U' && lines[1..] == ["x"];
    UnmarkedChunkFails();
  }

  lemma UnmarkedIsStrict()
    ensures StrictError(UnmarkedPatch()) == None
    ensures LinesPrint(UnmarkedPatch(), "\n")
  {
    TrimUnique("", BEGIN_PATCH_MARKER, "");
    TrimUnique("", END_PATCH_MARKER, "");
    assert "" + BEGIN_PATCH_MARKER + "" == BEGIN_PATCH_MARKER && "" + END_PATCH_MARKER + "" == END_PATCH_MARKER;
    MarkersAreLines("\n");
    PrefixedIsLine(UPDATE_FILE_MARKER, "a", "\n");
  }

  /** That line is the third of the patch, but the error gives it number four. */
  lemma UnmarkedLineIsReportedTooLow()
    ensures var text := Join(UnmarkedPatch(), "\n");
            && PatchLines(text) == Ok(UnmarkedPatch()) && UnmarkedPatch()[3 - 1] == "x"
            && Parse(text) == Err(UnexpectedLine(4, "x"))
  {
    hide StrictError, LinesPrint, SplitLines, Trim, Join, ParseHunk;
    var lines := UnmarkedPatch();
    var text := Join(lines, "\n");
    UnmarkedIsStrict();
    LinesOfPadded("", lines, "\n", "");
    assert "" + text + "" == text;
    assert lines[1..|lines| - 1] == [UPDATE_FILE_MARKER + "a", "x"];
    UnmarkedHunkFails();
  }
}
