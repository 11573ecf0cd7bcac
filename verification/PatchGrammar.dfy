/** The patches that the parser accepts: exactly those that some script prints, with exactly the hunks the script
    stands for (src/agents/apply-patch.ts). */
module PatchGrammar {
  import opened Common
  import opened Text
  import opened PatchUpdate
  import opened PatchParser
  import opened PatchPrinter

  // ----- from accepted lines to a script -----

  lemma EditOfLine(line: string)
    requires EditOf(line).Some?
    ensures EditLine(EditOf(line).value) == line
  {
    if line != "" {
      assert line == [line[0]] + line[1..];
    }
  }

  lemma EditLinesCons(edit: Edit, more: seq<Edit>)
    ensures EditLines([edit] + more) == [EditLine(edit)] + EditLines(more)
    ensures OldLinesOf([edit] + more) == OldOf(edit) + OldLinesOf(more)
    ensures NewLinesOf([edit] + more) == NewOf(edit) + NewLinesOf(more)
  {
    hide EditLine, OldOf, NewOf, EditLines;
    assert ([edit] + more)[1..] == more;
    EditLinesAre([edit] + more, [EditLine(edit)] + EditLines(more));
  }

  lemma EditLinesAre(edits: seq<Edit>, lines: seq<string>)
    requires |edits| == |lines| && forall i :: 0 <= i < |edits| ==> lines[i] == EditLine(edits[i])
    ensures EditLines(edits) == lines
  {
    hide EditLine;
  }

  /** The body of a chunk is made of edit lines, and what follows it is no part of it. */
  lemma {:induction false} BodyScript(lines: seq<string>) returns (edits: seq<Edit>)
    ensures var body := ReadBody(lines);
            && body.parsedLines == |edits| + |EofLine(body.isEndOfFile)|
            && lines[..body.parsedLines] == EditLines(edits) + EofLine(body.isEndOfFile)
            && OldLinesOf(edits) == body.oldLines && NewLinesOf(edits) == body.newLines
            && (!body.isEndOfFile ==> EndsChunk(lines[body.parsedLines..]))
    ensures lines != [] && lines[0] != EOF_MARKER && EditOf(lines[0]).Some? ==>
              edits != [] && EditLine(edits[0]) == lines[0]
  {
    hide EditOf, EditLines, OldOf, NewOf, OldLinesOf, NewLinesOf, EofLine, EndsChunk, ReadBody;
    if lines == [] || lines[0] == EOF_MARKER || EditOf(lines[0]).None? {
      edits := [];
      NoBody(lines);
    } else {
      EditOfLine(lines[0]);
      var more := BodyScript(lines[1..]);
      var edit, n := EditOf(lines[0]).value, ReadBody(lines[1..]).parsedLines;
      edits := [edit] + more;
      EditLinesCons(edit, more);
      BodyStep(lines);
      SplitLinesAt(lines, 1, n);
      assert lines[..1] == [lines[0]];
    }
  }

  lemma NoBody(lines: seq<string>)
    requires lines == [] || lines[0] == EOF_MARKER || EditOf(lines[0]).None?
    ensures var body := ReadBody(lines);
            && body.parsedLines == |EofLine(body.isEndOfFile)| && body.oldLines == [] && body.newLines == []
            && lines[..body.parsedLines] == EofLine(body.isEndOfFile)
            && (!body.isEndOfFile ==> EndsChunk(lines[body.parsedLines..]))
    ensures EditLines([]) == [] && OldLinesOf([]) == [] && NewLinesOf([]) == []
  {
    hide EditOf;
  }

  lemma BodyStep(lines: seq<string>)
    requires lines != [] && lines[0] != EOF_MARKER && EditOf(lines[0]).Some?
    ensures var edit := EditOf(lines[0]).value;
            ReadBody(lines) == AfterEdits(OldOf(edit), NewOf(edit), 1, ReadBody(lines[1..]))
  {
    hide EditOf;
  }

  lemma StartIsContextLine(line: string)
    ensures ChunkStartOf(line).startIndex == 1 ==> ContextLine(ChunkStartOf(line).changeContext) == line
    ensures ChunkStartOf(line).startIndex == 0 ==> ChunkStartOf(line).changeContext.None?
  {
    if StartsWith(line, CHANGE_CONTEXT_MARKER) {
      assert line == line[..|CHANGE_CONTEXT_MARKER|] + line[|CHANGE_CONTEXT_MARKER|..];
    }
  }

  lemma ScriptOfChunk(lines: seq<string>, lineNumber: nat, isFirst: bool, open: bool) returns (chunk: ChunkScript)
    requires ParseChunk(lines, lineNumber, isFirst).Ok? && Trim(lines[0]) != ""
    ensures var parsed := ParseChunk(lines, lineNumber, isFirst).value;
            && chunk.lead == [] && ChunkLines(chunk) == lines[..parsed.consumed]
            && ChunkOf(chunk) == parsed.chunk && ChunkFits(chunk, isFirst, open)
            && (!chunk.isEndOfFile ==> EndsChunk(lines[parsed.consumed..]))
  {
    hide EditOf, ReadBody, ChunkStartOf, ContextLine, OldLinesOf, NewLinesOf, EofLine, Trim, EndsChunk;
    var start := ChunkStartOf(lines[0]);
    StartIsContextLine(lines[0]);
    var tail := lines[start.startIndex..];
    var edits := BodyScript(tail);
    var body := ReadBody(tail);
    chunk := ChunkScript([], start.startIndex == 1, start.changeContext, edits, body.isEndOfFile);
    SplitLinesAt(lines, start.startIndex, body.parsedLines);
    assert MarkLine(chunk) == lines[..start.startIndex];
  }

  lemma SplitLinesAt(lines: seq<string>, k: nat, n: nat)
    requires k + n <= |lines|
    ensures lines[..k + n] == lines[..k] + lines[k..][..n] && lines[k + n..] == lines[k..][n..]
  {
  }

  /** A blank line in front of a run. */
  function AddLead(blank: string, chunks: seq<ChunkScript>): seq<ChunkScript>
    requires chunks != []
  {
    [chunks[0].(lead := [blank] + chunks[0].lead)] + chunks[1..]
  }

  lemma LeadIsAdded(blank: string, chunks: seq<ChunkScript>, tail: seq<string>, isFirst: bool, open: bool)
    requires chunks != [] && RunFits(chunks, tail, isFirst, false)
    requires Trim(blank) == "" && (open ==> IsNoEdit(blank))
    ensures RunFits(AddLead(blank, chunks), tail, isFirst, open)
    ensures PrintChunks(AddLead(blank, chunks)) == [blank] + PrintChunks(chunks)
    ensures ChunksOf(AddLead(blank, chunks)) == ChunksOf(chunks)
  {
    hide Trim, ChunkFits, PrintChunk, ChunkOf, IsNoEdit;
    LeadFits(blank, chunks[0], isFirst, open);
    LeadPrints(blank, chunks[0]);
    assert AddLead(blank, chunks)[1..] == chunks[1..];
  }

  lemma LeadFits(blank: string, chunk: ChunkScript, isFirst: bool, open: bool)
    requires ChunkFits(chunk, isFirst, false) && Trim(blank) == "" && (open ==> IsNoEdit(blank))
    ensures ChunkFits(chunk.(lead := [blank] + chunk.lead), isFirst, open)
  {
    hide Trim, IsNoEdit;
  }

  lemma LeadPrints(blank: string, chunk: ChunkScript)
    ensures PrintChunk(chunk.(lead := [blank] + chunk.lead)) == [blank] + PrintChunk(chunk)
    ensures ChunkOf(chunk.(lead := [blank] + chunk.lead)) == ChunkOf(chunk)
  {
    hide ChunkLines;
    SameChunkLines(chunk.(lead := [blank] + chunk.lead), chunk);
  }

  lemma SameChunkLines(a: ChunkScript, b: ChunkScript)
    requires a == b.(lead := a.lead)
    ensures ChunkLines(a) == ChunkLines(b)
  {
  }

  lemma BlankTail(blank: string, tail: seq<string>, isFirst: bool, open: bool)
    requires RunFits([], tail, isFirst, false) && Trim(blank) == "" && (open ==> IsNoEdit(blank))
    ensures RunFits([], [blank] + tail, isFirst, open)
  {
    hide Trim;
  }

  lemma NoEditIs(line: string)
    ensures EditOf(line).None? <==> IsNoEdit(line)
  {
  }

  /** These chunks and blank lines print what the parser takes, stand for what it returns, and stop where it stops. */
  ghost predicate IsScriptOf(chunks: seq<ChunkScript>, tail: seq<string>, lines: seq<string>, lineNumber: nat,
      isFirst: bool, open: bool)
  {
    && ParseChunks(lines, lineNumber, isFirst).Ok?
    && var run := ParseChunks(lines, lineNumber, isFirst).value;
       var rest := lines[run.consumed..];
    && lines[..run.consumed] == PrintChunks(chunks) + tail && RunFits(chunks, tail, isFirst, open)
    && ChunksOf(chunks) == run.chunks && (rest == [] || StartsWith(rest[0], "***"))
  }

  lemma {:induction false} ScriptOfRun(lines: seq<string>, lineNumber: nat, isFirst: bool, open: bool)
      returns (chunks: seq<ChunkScript>, tail: seq<string>)
    requires ParseChunks(lines, lineNumber, isFirst).Ok? && (open ==> EndsChunk(lines))
    ensures IsScriptOf(chunks, tail, lines, lineNumber, isFirst, open)
    decreases |lines|
  {
    hide ParseChunk, ParseChunks, Trim, StartsWith, ChunkOf, PrintChunk, ChunkFits, EndsChunk, IsScriptOf, ChunkLines;
    if lines == [] || (Trim(lines[0]) != "" && StartsWith(lines[0], "***")) {
      chunks, tail := [], [];
      StoppedRun(lines, lineNumber, isFirst, open);
    } else if Trim(lines[0]) == "" {
      ParseChunksBlank(lines, lineNumber, isFirst);
      chunks, tail := ScriptOfRun(lines[1..], lineNumber + 1, isFirst, false);
      chunks, tail := BlankBefore(lines, lineNumber, isFirst, open, chunks, tail);
    } else {
      ParseChunksStep(lines, lineNumber, isFirst);
      var chunk := ScriptOfChunk(lines, lineNumber, isFirst, open);
      var n := ParseChunk(lines, lineNumber, isFirst).value.consumed;
      chunks, tail := ScriptOfRun(lines[n..], lineNumber + n, false, !chunk.isEndOfFile);
      ChunkBefore(lines, lineNumber, isFirst, open, chunk, chunks, tail);
      chunks := [chunk] + chunks;
    }
  }

  lemma StoppedRun(lines: seq<string>, lineNumber: nat, isFirst: bool, open: bool)
    requires lines == [] || (Trim(lines[0]) != "" && StartsWith(lines[0], "***"))
    ensures IsScriptOf([], [], lines, lineNumber, isFirst, open)
  {
    hide ParseChunks, Trim, StartsWith;
    ParseChunksStops(lines, lineNumber, isFirst);
    NothingFits(isFirst, open);
  }

  lemma BlankBefore(lines: seq<string>, lineNumber: nat, isFirst: bool, open: bool, more: seq<ChunkScript>,
      rest: seq<string>)
      returns (chunks: seq<ChunkScript>, tail: seq<string>)
    requires lines != [] && Trim(lines[0]) == "" && (open ==> EndsChunk(lines))
    requires IsScriptOf(more, rest, lines[1..], lineNumber + 1, isFirst, false)
    ensures IsScriptOf(chunks, tail, lines, lineNumber, isFirst, open)
  {
    hide ParseChunks, Trim, StartsWith, EditOf, IsNoEdit, RunFits, PrintChunks, ChunksOf, AddLead;
    ParseChunksBlank(lines, lineNumber, isFirst);
    NoEditIs(lines[0]);
    var run := ParseChunks(lines[1..], lineNumber + 1, isFirst).value;
    SplitLinesAt(lines, 1, run.consumed);
    assert lines[..1] == [lines[0]];
    assert [] + run.chunks == run.chunks;
    if more == [] {
      BlankTail(lines[0], rest, isFirst, open);
      NothingFits(isFirst, open);
      assert [] + rest == rest && [] + ([lines[0]] + rest) == [lines[0]] + rest;
      chunks, tail := [], [lines[0]] + rest;
    } else {
      LeadIsAdded(lines[0], more, rest, isFirst, open);
      chunks, tail := AddLead(lines[0], more), rest;
    }
  }

  lemma ChunkBefore(lines: seq<string>, lineNumber: nat, isFirst: bool, open: bool, chunk: ChunkScript,
      more: seq<ChunkScript>, tail: seq<string>)
    requires lines != [] && Trim(lines[0]) != "" && !StartsWith(lines[0], "***")
    requires ParseChunk(lines, lineNumber, isFirst).Ok?
    requires var parsed := ParseChunk(lines, lineNumber, isFirst).value;
             && chunk.lead == [] && ChunkLines(chunk) == lines[..parsed.consumed]
             && ChunkOf(chunk) == parsed.chunk && ChunkFits(chunk, isFirst, open)
             && IsScriptOf(more, tail, lines[parsed.consumed..], lineNumber + parsed.consumed, false,
                !chunk.isEndOfFile)
    ensures IsScriptOf([chunk] + more, tail, lines, lineNumber, isFirst, open)
  {
    hide ParseChunk, ParseChunks, Trim, StartsWith, RunFits, PrintChunks, ChunksOf, ChunkLines, ChunkFits, ChunkOf;
    ParseChunksStep(lines, lineNumber, isFirst);
    var n := ParseChunk(lines, lineNumber, isFirst).value.consumed;
    SplitLinesAt(lines, n, ParseChunks(lines[n..], lineNumber + n, false).value.consumed);
    OneChunkMore(chunk, more, tail, isFirst, open);
  }

  lemma NothingFits(isFirst: bool, open: bool)
    ensures RunFits([], [], isFirst, open) && PrintChunks([]) == [] && ChunksOf([]) == []
  {
  }

  lemma OneChunkMore(chunk: ChunkScript, more: seq<ChunkScript>, tail: seq<string>, isFirst: bool, open: bool)
    requires chunk.lead == [] && ChunkFits(chunk, isFirst, open) && RunFits(more, tail, false, !chunk.isEndOfFile)
    ensures RunFits([chunk] + more, tail, isFirst, open)
    ensures PrintChunks([chunk] + more) == ChunkLines(chunk) + PrintChunks(more)
    ensures ChunksOf([chunk] + more) == [ChunkOf(chunk)] + ChunksOf(more)
    ensures ([chunk] + more)[1..] == more
  {
    hide ChunkLines, ChunkOf, ChunkFits;
    assert ([chunk] + more)[1..] == more;
    assert [] + ChunkLines(chunk) == ChunkLines(chunk);
  }

  lemma {:induction false} PlusLinesAre(lines: seq<string>)
    ensures lines[..|AddedLines(lines)|] == PlusLines(AddedLines(lines))
  {
    if lines != [] && StartsWith(lines[0], "+") {
      PlusLinesAre(lines[1..]);
      var more := AddedLines(lines[1..]);
      assert lines[0] == lines[0][..1] + lines[0][1..];
      assert PlusLines([lines[0][1..]] + more) == [lines[0]] + PlusLines(more);
      assert lines[..|more| + 1] == [lines[0]] + lines[1..][..|more|];
    }
  }

  lemma HeaderIs(line: string, marker: string)
    requires StartsWith(Trim(line), marker)
    ensures |marker| <= |Trim(line)| && IsHeader(line, marker, Trim(line)[|marker|..])
  {
    hide Trim;
  }

  /** Behind an update comes nothing or a line of three stars at the margin. */
  predicate Continues(hunk: HunkScript, rest: seq<string>) {
    hunk.UpdateScript? && rest != [] ==> StartsWith(rest[0], "***")
  }

  lemma ScriptOfHunk(lines: seq<string>, lineNumber: nat) returns (hunk: HunkScript)
    requires ParseHunk(lines, lineNumber).Ok?
    ensures var parsed := ParseHunk(lines, lineNumber).value;
            && PrintHunk(hunk) == lines[..parsed.consumed] && HunkOf(hunk) == parsed.hunk && HunkFits(hunk)
            && hunk.header == lines[0] && Continues(hunk, lines[parsed.consumed..])
  {
    hide ParseUpdate, Trim, StartsWith, AddedLines, IsHeader, PlusLines, TextOf, RunFits, NoMove, PrintChunks;
    var first := Trim(lines[0]);
    if StartsWith(first, ADD_FILE_MARKER) {
      HeaderIs(lines[0], ADD_FILE_MARKER);
      var added := AddedLines(lines[1..]);
      hunk := AddScript(lines[0], first[|ADD_FILE_MARKER|..], added);
      PlusLinesAre(lines[1..]);
      SplitLinesAt(lines, 1, |added|);
      assert lines[..1] == [lines[0]];
    } else if StartsWith(first, DELETE_FILE_MARKER) {
      HeaderIs(lines[0], DELETE_FILE_MARKER);
      hunk := DeleteScript(lines[0], first[|DELETE_FILE_MARKER|..]);
      assert lines[..1] == [lines[0]];
    } else {
      HeaderIs(lines[0], UPDATE_FILE_MARKER);
      hunk := ScriptOfUpdate(lines, lineNumber, first[|UPDATE_FILE_MARKER|..]);
    }
  }

  lemma ScriptOfUpdate(lines: seq<string>, lineNumber: nat, path: string) returns (hunk: HunkScript)
    requires lines != [] && ParseUpdate(lines, lineNumber, path).Ok? && IsHeader(lines[0], UPDATE_FILE_MARKER, path)
    ensures var parsed := ParseUpdate(lines, lineNumber, path).value;
            && PrintHunk(hunk) == lines[..parsed.consumed] && HunkOf(hunk) == parsed.hunk && HunkFits(hunk)
            && hunk.header == lines[0] && Continues(hunk, lines[parsed.consumed..])
  {
    hide ParseChunks, Trim, StartsWith, IsHeader, RunFits, PrintChunks, NoMove, MoveTarget, ChunksOf, PrintHunk;
    var movePath := MoveTarget(lines[1..]);
    var skip: nat := if movePath.Some? then 2 else 1;
    var move: Option<MoveScript> := None;
    if movePath.Some? {
      MoveIs(lines[1..]);
      move := Some(MoveScript(lines[1], movePath.value));
    }
    var chunks, tail := ScriptOfRun(lines[skip..], lineNumber + skip, true, false);
    hunk := UpdateScript(lines[0], path, move, chunks, tail);
    var n := ParseChunks(lines[skip..], lineNumber + skip, true).value.consumed;
    UpdatePrints(lines, hunk, skip, n);
    ChunksAreThere(chunks);
    if movePath.None? {
      NoMoveIs(lines[1..], chunks, tail, n);
    }
  }

  lemma UpdatePrints(lines: seq<string>, hunk: HunkScript, skip: nat, n: nat)
    requires hunk.UpdateScript? && skip + n <= |lines|
    requires lines[..skip] == [hunk.header] + MoveLine(hunk.move)
    requires lines[skip..][..n] == PrintChunks(hunk.chunks) + hunk.tail
    ensures PrintHunk(hunk) == lines[..skip + n] && lines[skip + n..] == lines[skip..][n..]
  {
    hide PrintChunks;
    SplitLinesAt(lines, skip, n);
  }

  lemma MoveIs(lines: seq<string>)
    requires MoveTarget(lines).Some?
    ensures IsHeader(lines[0], MOVE_TO_MARKER, MoveTarget(lines).value)
  {
    HeaderIs(lines[0], MOVE_TO_MARKER);
  }

  lemma NoMoveIs(lines: seq<string>, chunks: seq<ChunkScript>, tail: seq<string>, n: nat)
    requires n <= |lines| && MoveTarget(lines).None? && lines[..n] == PrintChunks(chunks) + tail
    requires chunks != [] && RunFits(chunks, tail, true, false)
    ensures NoMove(PrintChunks(chunks))
  {
    hide RunFits, PrintChunks, Trim, StartsWith;
    RunIsNotEmpty(chunks, tail);
    assert PrintChunks(chunks)[0] == lines[..n][0] == lines[0];
  }

  lemma ChunksAreThere(chunks: seq<ChunkScript>)
    ensures ChunksOf(chunks) != [] ==> chunks != []
  {
  }

  lemma {:induction false} ScriptOfHunks(lines: seq<string>, lineNumber: nat) returns (hunks: seq<HunkScript>)
    requires ParseHunks(lines, lineNumber).Ok?
    ensures PrintHunks(hunks) == lines && AllFit(hunks)
    ensures AllHunksOf(hunks) == HunksOf(ParseHunks(lines, lineNumber).value)
    ensures lines != [] ==> hunks != [] && hunks[0].header == lines[0]
    decreases |lines|
  {
    hide ParseHunk, PrintHunk, HunkOf, HunkFits, StartsWith, HunksOf, AllHunksOf, AllFit, PrintHunks;
    if lines == [] {
      hunks := [];
      NoHunks();
    } else {
      var hunk := ScriptOfHunk(lines, lineNumber);
      var n := ParseHunk(lines, lineNumber).value.consumed;
      var more := ScriptOfHunks(lines[n..], lineNumber + n);
      hunks := [hunk] + more;
      OneHunkMore(hunk, more, lines, n);
      FirstHunkOf(ParseHunk(lines, lineNumber).value, ParseHunks(lines[n..], lineNumber + n).value);
    }
  }

  lemma NoHunks()
    ensures PrintHunks([]) == [] && AllFit([]) && AllHunksOf([]) == [] && HunksOf([]) == []
  {
  }

  lemma OneHunkMore(hunk: HunkScript, more: seq<HunkScript>, lines: seq<string>, n: nat)
    requires n <= |lines| && PrintHunk(hunk) == lines[..n] && HunkFits(hunk) && Continues(hunk, lines[n..])
    requires PrintHunks(more) == lines[n..] && AllFit(more)
    requires lines[n..] != [] ==> more != [] && more[0].header == lines[n..][0]
    ensures PrintHunks([hunk] + more) == lines && AllFit([hunk] + more)
    ensures AllHunksOf([hunk] + more) == [HunkOf(hunk)] + AllHunksOf(more)
  {
    hide HunkFits, HunkOf, StartsWith, PrintHunk;
    assert ([hunk] + more)[1..] == more;
    assert lines == lines[..n] + lines[n..];
    if lines[n..] == [] && more != [] {
      PrintedIsNotEmpty(more[0]);
      assert false;
    }
  }

  lemma PrintedIsNotEmpty(hunk: HunkScript)
    ensures PrintHunk(hunk) != []
  {
  }

  // ----- what the lines of a chunk say -----

  /** The contents of the lines that do not carry this mark; a blank line carries none and is its own content. */
  function ContentsBut(mark: char, lines: seq<string>): seq<string> {
    if lines == [] then []
    else (if lines[0] == "" then [""] else if lines[0][0] == mark then [] else [lines[0][1..]])
         + ContentsBut(mark, lines[1..])
  }

  predicate IsContextLine(line: string) {
    line == "@@" || (|line| >= 3 && line[..3] == "@@ ")
  }

  /** The old lines are those not marked as added, the new ones those not marked as removed, each without its mark and
      in order. They run up to the end-of-file mark or to the first line that is no edit. */
  lemma {:induction false} BodyMeans(lines: seq<string>)
    ensures var body := ReadBody(lines);
            var n := body.parsedLines - (if body.isEndOfFile then 1 else 0);
            && 0 <= n <= body.parsedLines
            && body.oldLines == ContentsBut('+', lines[..n]) && body.newLines == ContentsBut('-', lines[..n])
            && (forall i :: 0 <= i < n ==> !IsNoEdit(lines[i]))
            && (body.isEndOfFile ==> lines[n] == "*** End of File")
            && (!body.isEndOfFile && n < |lines| ==> IsNoEdit(lines[n]) && lines[n] != "*** End of File")
  {
    hide EditOf, OldOf, NewOf;
    if lines != [] && lines[0] != EOF_MARKER && EditOf(lines[0]).Some? {
      hide ContentsBut, IsNoEdit;
      BodyMeans(lines[1..]);
      BodyStep(lines);
      hide ReadBody;
      NoEditIs(lines[0]);
      var rest := ReadBody(lines[1..]);
      OneMoreLine(lines, rest.parsedLines - if rest.isEndOfFile then 1 else 0);
      assert forall i :: 1 <= i <= |lines[1..]| ==> lines[i] == lines[1..][i - 1];
    } else if lines != [] {
      NoEditIs(lines[0]);
      assert lines[..0] == [];
    }
  }

  lemma OneMoreLine(lines: seq<string>, n: nat)
    requires lines != [] && n < |lines| && EditOf(lines[0]).Some?
    ensures var edit := EditOf(lines[0]).value;
            && ContentsBut('+', lines[..n + 1]) == OldOf(edit) + ContentsBut('+', lines[1..][..n])
            && ContentsBut('-', lines[..n + 1]) == NewOf(edit) + ContentsBut('-', lines[1..][..n])
  {
    assert lines[..n + 1][1..] == lines[1..][..n];
  }

  /** What an accepted chunk says: a context line is taken as such, and every other line is an edit of the chunk. */
  lemma ChunkMeans(lines: seq<string>, lineNumber: nat, isFirst: bool)
    requires ParseChunk(lines, lineNumber, isFirst).Ok?
    ensures var parsed := ParseChunk(lines, lineNumber, isFirst).value;
            var start := if IsContextLine(lines[0]) then 1 else 0;
            var end := parsed.consumed - (if parsed.chunk.isEndOfFile then 1 else 0);
            && start < end <= parsed.consumed && (start == 0 ==> isFirst)
            && parsed.chunk.changeContext == (if start == 1 && lines[0] != "@@" then Some(lines[0][3..]) else None)
            && parsed.chunk.oldLines == ContentsBut('+', lines[start..end])
            && parsed.chunk.newLines == ContentsBut('-', lines[start..end])
            && (parsed.chunk.isEndOfFile ==> lines[end] == "*** End of File")
  {
    hide EditOf, ReadBody;
    var start := ChunkStartOf(lines[0]).startIndex;
    assert start == if IsContextLine(lines[0]) then 1 else 0;
    BodyMeans(lines[start..]);
    var body := ReadBody(lines[start..]);
    var n := body.parsedLines - (if body.isEndOfFile then 1 else 0);
    assert lines[start..][..n] == lines[start..start + n];
    FirstIsTaken(lines[start..]);
  }

  lemma FirstIsTaken(lines: seq<string>)
    requires lines != [] && lines[0] != EOF_MARKER && EditOf(lines[0]).Some?
    ensures ReadBody(lines).parsedLines > if ReadBody(lines).isEndOfFile then 1 else 0
  {
    EofIsTaken(lines[1..]);
  }

  lemma EofIsTaken(lines: seq<string>)
    ensures ReadBody(lines).isEndOfFile ==> ReadBody(lines).parsedLines > 0
  {
  }

  // ----- acceptance -----

  /** The hunk lines of a patch are accepted, with these hunks, exactly when a script prints these lines and stands for
      these hunks. */
  lemma AcceptedIff(lines: seq<string>, lineNumber: nat, hunks: seq<Hunk>)
    ensures ParseHunks(lines, lineNumber).Ok? && HunksOf(ParseHunks(lines, lineNumber).value) == hunks
            <==> exists scripts :: AllFit(scripts) && PrintHunks(scripts) == lines && AllHunksOf(scripts) == hunks
  {
    hide ParseHunks, AllFit, PrintHunks, AllHunksOf;
    if ParseHunks(lines, lineNumber).Ok? {
      var scripts := ScriptOfHunks(lines, lineNumber);
    }
    if scripts :| AllFit(scripts) && PrintHunks(scripts) == lines && AllHunksOf(scripts) == hunks {
      var parsed := HunksReadBack(scripts, lineNumber);
    }
  }

  /** The first and the last line, whatever white space is around them, are the two markers. */
  predicate IsFramed(lines: seq<string>) {
    |lines| >= 2 && Trim(lines[0]) == "*** Begin Patch" && Trim(lines[|lines| - 1]) == "*** End Patch"
  }

  lemma StrictIsFramed(lines: seq<string>)
    requires lines != []
    ensures StrictError(lines) == None <==> IsFramed(lines)
    ensures !IsFramed(lines) ==>
              StrictError(lines) == Some(if Trim(lines[0]) != "*** Begin Patch" then BadFirstLine else BadLastLine)
  {
    hide Trim;
    MarkersDiffer();
  }

  lemma MarkersDiffer()
    ensures BEGIN_PATCH_MARKER != END_PATCH_MARKER
  {
    assert BEGIN_PATCH_MARKER[4] != END_PATCH_MARKER[4];
  }

  /** A text is accepted exactly when its trimmed lines, or those inside a here-document, are framed by the two markers
      and some script prints what is between them. */
  lemma TextIsAcceptedIff(input: string)
    ensures Parse(input).Ok? <==>
            && PatchLines(input).Ok? && IsFramed(PatchLines(input).value)
            && var lines := PatchLines(input).value;
               exists scripts :: AllFit(scripts) && PrintHunks(scripts) == lines[1..|lines| - 1]
    ensures PatchLines(input).Ok? <==>
            var lines := SplitLines(Trim(input));
            && Trim(input) != ""
            && (IsFramed(lines)
                || (|lines| >= 4 && OpensHeredoc(lines[0]) && EndsWith(lines[|lines| - 1], "EOF")
                    && IsFramed(lines[1..|lines| - 1])))
  {
    hide ParseHunks, AllFit, PrintHunks, AllHunksOf, Trim, SplitLines, StrictError, OpensHeredoc, EndsWith;
    var lines := SplitLines(Trim(input));
    StrictIsFramed(lines);
    if |lines| >= 4 {
      StrictIsFramed(lines[1..|lines| - 1]);
    }
    if PatchLines(input).Ok? {
      var patch := PatchLines(input).value;
      var body := patch[1..|patch| - 1];
      if Parse(input).Ok? {
        var scripts := ScriptOfHunks(body, 2);
      }
      if scripts :| AllFit(scripts) && PrintHunks(scripts) == body {
        var parsed := HunksReadBack(scripts, 2);
      }
    }
  }
}
