/** Stripping the context blocks of older versions, and stripping as a whole (src/agents/internal-runtime-context.ts).
    */
module LegacyContext {
  import opened Common
  import opened Text
  import opened InternalContext

  /** `text.indexOf(pattern, from)`, for patterns that are not empty. */
  function IndexFrom(text: string, pattern: string, from: nat): (r: Option<nat>)
    ensures r.Some? ==> from <= r.value && r.value + |pattern| <= |text|
  {
    if from > |text| then None
    else match IndexOf(text[from..], pattern)
      case None => None
      case Some(k) => Some(from + k)
  }

  lemma IndexFromIs(text: string, pattern: string, from: nat, k: nat)
    requires from <= k && OccursAt(text, pattern, k) && forall j: nat :: from <= j < k ==> !OccursAt(text, pattern, j)
    ensures IndexFrom(text, pattern, from) == Some(k)
  {
    OccursShift(text, pattern, from);
    IndexOfIs(text[from..], pattern, k - from);
  }

  lemma OccursShift(text: string, pattern: string, from: nat)
    requires from <= |text|
    ensures forall j: nat :: OccursAt(text[from..], pattern, j) <==> OccursAt(text, pattern, from + j)
  {
    var rest := text[from..];
    forall j: nat ensures OccursAt(rest, pattern, j) <==> OccursAt(text, pattern, from + j) {
      if j + |pattern| <= |rest| {
        assert rest[j..j + |pattern|] == text[from + j..from + j + |pattern|];
      }
    }
  }

  lemma IndexFromFinds(text: string, pattern: string, from: nat)
    requires from <= |text|
    ensures match IndexFrom(text, pattern, from)
            case None => forall j: nat :: from <= j ==> !OccursAt(text, pattern, j)
            case Some(k) => OccursAt(text, pattern, k) && forall j: nat :: from <= j < k ==> !OccursAt(text, pattern, j)
  {
    hide OccursAt;
    OccursShift(text, pattern, from);
    var rest := text[from..];
    var r := IndexOf(rest, pattern);
    forall j: nat | from <= j && (r.Some? ==> j < from + r.value) ensures !OccursAt(text, pattern, j) {
      assert !OccursAt(rest, pattern, j - from);
      assert from + (j - from) == j;
    }
  }

  // ----- one block -----

  /** The end of an event: behind its result and its action, at the next event, the next blank line or the end of the
      text. */
  function FindEventEnd(text: string, start: nat): (r: Option<nat>)
    ensures r.Some? ==> start + |EventMarker()| < r.value <= |text|
  {
    if !OccursAt(text, EventMarker(), start) then None
    else match IndexFrom(text, ResultBegin(), start + |EventMarker()|)
      case None => None
      case Some(resultBegin) =>
        match IndexFrom(text, ResultEnd(), resultBegin + |ResultBegin()|)
        case None => None
        case Some(resultEnd) =>
          match IndexFrom(text, ACTION_LABEL, resultEnd + |ResultEnd()|)
          case None => None
          case Some(action) => Some(ActionEnd(text, action + |ACTION_LABEL|))
  }

  function ActionEnd(text: string, afterAction: nat): (r: nat)
    requires afterAction <= |text|
    ensures afterAction <= r <= |text|
  {
    match IndexFrom(text, EVENT_SEPARATOR + EventMarker(), afterAction)
    case Some(nextEvent) => nextEvent
    case None => ParagraphEnd(text, afterAction)
  }

  function ParagraphEnd(text: string, from: nat): (r: nat)
    requires from <= |text|
    ensures from <= r <= |text|
  {
    match IndexFrom(text, "\n\n", from) case Some(k) => k case None => |text|
  }

  function MoreEvents(text: string, blockEnd: nat): (r: nat)
    requires blockEnd <= |text|
    ensures blockEnd <= r <= |text|
    decreases |text| - blockEnd
  {
    if !OccursAt(text, EVENT_SEPARATOR + EventMarker(), blockEnd) then blockEnd
    else match FindEventEnd(text, blockEnd + |EVENT_SEPARATOR|)
      case None => blockEnd
      case Some(next) => MoreEvents(text, next)
  }

  function BlockEnd(text: string, eventStart: nat): (r: nat)
    requires OccursAt(text, EventMarker(), eventStart)
    ensures eventStart + |EventMarker()| <= r <= |text|
  {
    match FindEventEnd(text, eventStart)
    case Some(end) => MoreEvents(text, end)
    case None => ParagraphEnd(text, eventStart + |EventMarker()|)
  }

  method FindLegacyBlockEnd(text: string, eventStart: nat) returns (blockEnd: nat)
    requires OccursAt(text, EventMarker(), eventStart)
    ensures blockEnd == BlockEnd(text, eventStart)
  {
    hide FindEventEnd, EventMarker;
    var eventEnd := FindEventEnd(text, eventStart);
    if eventEnd.None? {
      return ParagraphEnd(text, eventStart + |EventMarker()|);
    }
    blockEnd := eventEnd.value;
    while OccursAt(text, EVENT_SEPARATOR + EventMarker(), blockEnd)
      invariant blockEnd <= |text| && MoreEvents(text, blockEnd) == BlockEnd(text, eventStart)
      decreases |text| - blockEnd
    {
      var nextEventEnd := FindEventEnd(text, blockEnd + |EVENT_SEPARATOR|);
      if nextEventEnd.None? {
        break;
      }
      blockEnd := nextEventEnd.value;
    }
  }

  // ----- all blocks -----

  function Resume(before: string): nat {
    if before == "" then 0 else |before| - 1
  }

  /** The search goes on inside a text that a removal has shortened, or further on in the same text. */
  function StripLegacy(text: string, searchFrom: nat): string
    requires searchFrom <= |text|
    decreases |text|, |text| - searchFrom
  {
    match IndexFrom(text, LegacyHeader(), searchFrom)
    case None => text
    case Some(header) =>
      var eventStart := header + |LegacyHeader()|;
      if !OccursAt(text, EventMarker(), eventStart) then StripLegacy(text, eventStart)
      else
        var before := TrimEnd(text[..header]);
        var next := Rejoin(before, TrimStart(text[BlockEnd(text, eventStart)..]));
        RemovalProgresses(text, header);
        StripLegacy(next, Resume(before))
  }

  lemma RemovalProgresses(text: string, header: nat)
    requires header + |LegacyHeader()| <= |text| && OccursAt(text, EventMarker(), header + |LegacyHeader()|)
    ensures var before := TrimEnd(text[..header]);
            var next := Rejoin(before, TrimStart(text[BlockEnd(text, header + |LegacyHeader()|)..]));
            |next| < |text| && Resume(before) <= |next|
  {
    hide OccursAt, EventMarker, Title, Notice;
    var left := TrimEndSplits(text[..header]);
    var right := TrimStartSplits(text[BlockEnd(text, header + |LegacyHeader()|)..]);
  }

  method StripLegacyInternalRuntimeContext(text: string) returns (next: string)
    ensures next == StripLegacy(text, 0)
  {
    hide OccursAt, EventMarker, LegacyHeader, TrimEnd, TrimStart, BlockEnd, IndexFrom;
    next := text;
    var searchFrom: nat := 0;
    while true
      invariant searchFrom <= |next|
      invariant StripLegacy(next, searchFrom) == StripLegacy(text, 0)
      decreases |next|, |next| - searchFrom
    {
      var headerStart := IndexFrom(next, LegacyHeader(), searchFrom);
      if headerStart.None? {
        return next;
      }
      var eventStart := headerStart.value + |LegacyHeader()|;
      HeaderIsLong();
      if !OccursAt(next, EventMarker(), eventStart) {
        searchFrom := eventStart;
        continue;
      }
      var blockEnd := FindLegacyBlockEnd(next, eventStart);
      RemovalProgresses(next, headerStart.value);
      var before := TrimEnd(next[..headerStart.value]);
      var after := TrimStart(next[blockEnd..]);
      next := if before != "" && after != "" then before + "\n\n" + after else before + after;
      searchFrom := if |before| - 1 > 0 then |before| - 1 else 0;
    }
  }

  lemma HeaderIsLong()
    ensures |LegacyHeader()| == 123 && LegacyHeader()[0] == 'O' && 'O' !in LegacyHeader()[1..]
    ensures LegacyHeader() == Title() + "\n" + Notice() + "\n\n"
  {
    hide Title, Notice;
    var rest := LegacyHeader()[1..];
    assert rest == Title()[1..] + "\n" + Notice() + "\n\n";
  }

  /** The header cannot overlap itself. */
  lemma HeadersDoNotOverlap(text: string, j: nat, k: nat)
    requires OccursAt(text, LegacyHeader(), j) && OccursAt(text, LegacyHeader(), k) && j < k
    ensures j + |LegacyHeader()| <= k
  {
    hide LegacyHeader;
    HeaderIsLong();
    var h := LegacyHeader();
    assert text[k..k + |h|][0] == 'O';
    forall i | j < i < j + |h| ensures text[i] != 'O' {
      assert text[i] == text[j..j + |h|][i - j] == h[1..][i - j - 1];
    }
  }

  predicate LegacyAt(text: string, k: nat) {
    OccursAt(text, LegacyHeader(), k) && OccursAt(text, EventMarker(), k + |LegacyHeader()|)
  }

  /** The text is changed, and then shortened, exactly when a header directly before an event is ahead. */
  lemma {:induction false} LegacyStripChangesIff(text: string, searchFrom: nat)
    requires searchFrom <= |text|
    ensures |StripLegacy(text, searchFrom)| <= |text|
    ensures StripLegacy(text, searchFrom) != text <==> exists k: nat :: searchFrom <= k && LegacyAt(text, k)
    ensures StripLegacy(text, searchFrom) != text ==> |StripLegacy(text, searchFrom)| < |text|
    decreases |text|, |text| - searchFrom
  {
    hide OccursAt, EventMarker, LegacyHeader, TrimEnd, TrimStart, BlockEnd, IndexFrom, Rejoin;
    HeaderIsLong();
    IndexFromFinds(text, LegacyHeader(), searchFrom);
    var header := IndexFrom(text, LegacyHeader(), searchFrom);
    if header.Some? {
      var eventStart := header.value + |LegacyHeader()|;
      if !OccursAt(text, EventMarker(), eventStart) {
        LegacyStripChangesIff(text, eventStart);
        forall k: nat | searchFrom <= k && LegacyAt(text, k) ensures eventStart <= k {
          assert OccursAt(text, LegacyHeader(), k);
          if header.value < k {
            HeadersDoNotOverlap(text, header.value, k);
          }
        }
      } else {
        RemovalProgresses(text, header.value);
        var before := TrimEnd(text[..header.value]);
        LegacyStripChangesIff(Rejoin(before, TrimStart(text[BlockEnd(text, eventStart)..])), Resume(before));
        assert LegacyAt(text, header.value);
      }
    }
  }

  /** The search resumes one character before the seam, so a removal can leave a header directly before an event
      behind. */
  lemma SomeLegacyBlockIsLeft() returns (text: string)
    ensures LegacyAt(StripLegacy(text, 0), 0)
  {
    hide OccursAt, LegacyHeader, EventMarker, FindEventEnd, Resume, TrimEnd, TrimStart, StripLegacy, IndexFrom;
    HeaderIsLong();
    var h, m := LegacyHeader(), EventMarker();
    var n := |h|;
    text := h + h + m + "\n\n" + m;
    TextParts(h, m);
    IndexFromIs(text, h, 0, 0);
    LegacySkip(text, 0, 0);
    IndexFromIs(text, h, n, n);
    NoResultNoEnd(text, 2 * n, h, m);
    IndexFromIs(text, "\n\n", 2 * n + |m|, 2 * n + |m|);
    TrimmedHeader();
    TrimStartUnique("\n\n", m);
    var kept := h[..n - 2];
    SeamHidesHeader(kept);
    LegacyRemove(text, n, n);
    assert Rejoin(kept, m) == h + m;
    HeaderThenMarker();
  }

  lemma LegacySkip(text: string, searchFrom: nat, header: nat)
    requires searchFrom <= |text| && IndexFrom(text, LegacyHeader(), searchFrom) == Some(header)
    requires !OccursAt(text, EventMarker(), header + |LegacyHeader()|)
    ensures StripLegacy(text, searchFrom) == StripLegacy(text, header + |LegacyHeader()|)
  {
    hide OccursAt, LegacyHeader, EventMarker, IndexFrom, BlockEnd;
    HeaderIsLong();
  }

  lemma LegacyRemove(text: string, searchFrom: nat, header: nat)
    requires searchFrom <= |text| && IndexFrom(text, LegacyHeader(), searchFrom) == Some(header)
    requires OccursAt(text, EventMarker(), header + |LegacyHeader()|)
    ensures var before := TrimEnd(text[..header]);
            var next := Rejoin(before, TrimStart(text[BlockEnd(text, header + |LegacyHeader()|)..]));
            Resume(before) <= |next| && StripLegacy(text, searchFrom) == StripLegacy(next, Resume(before))
  {
    hide OccursAt, LegacyHeader, EventMarker, IndexFrom, BlockEnd, Rejoin, TrimEnd, TrimStart, Resume;
    RemovalProgresses(text, header);
  }

  lemma TextParts(h: string, m: string)
    requires h != "" && m != "" && h[0] == 'O' && m[0] == '['
    ensures var text := h + h + m + "\n\n" + m;
            var n := |h|;
            && OccursAt(text, h, 0) && OccursAt(text, h, n) && !OccursAt(text, m, n) && OccursAt(text, m, 2 * n)
            && OccursAt(text, "\n\n", 2 * n + |m|) && text[..n] == h && text[2 * n + |m|..] == "\n\n" + m
  {
    hide OccursAt;
    var text := h + h + m + "\n\n" + m;
    var tail := "\n\n" + m;
    TextInParts(h, m);
    OccursBetween(h + h + m, "\n\n", m);
    OccursBetween(h + h, m, tail);
    OccursBetween(h, h, m + tail);
    OccursBetween("", h, h + (m + tail));
    OccursFirst(text, m, |h|);
    OccursFirst(text, h, |h|);
  }

  lemma TextInParts(h: string, m: string)
    ensures var text, tail := h + h + m + "\n\n" + m, "\n\n" + m;
            && text == (h + h + m) + tail == (h + h) + m + tail == h + h + (m + tail) == "" + h + (h + (m + tail))
            && text[..|h|] == h && text[2 * |h| + |m|..] == tail
  {
    var tail := "\n\n" + m;
    Associates(h + h + m, "\n\n", m);
    Associates(h + h, m, tail);
    Associates(h, h, m + tail);
    assert "" + h == h;
    Parts(h, h + (m + tail));
    Parts(h + h + m, tail);
  }

  lemma Associates(a: string, b: string, c: string)
    ensures a + (b + c) == (a + b) + c
  {
  }

  lemma Parts(a: string, b: string)
    ensures (a + b)[..|a|] == a && (a + b)[|a|..] == b
  {
  }

  /** Without a result marker the event has no end of its own. */
  lemma NoResultNoEnd(text: string, start: nat, h: string, m: string)
    requires h == LegacyHeader() && m == EventMarker() && text == h + h + m + "\n\n" + m && start == 2 * |h|
    ensures FindEventEnd(text, start) == None
  {
    hide OccursAt, LegacyHeader, EventMarker, ResultBegin;
    var from := start + |m|;
    IndexFromFinds(text, ResultBegin(), from);
    var r := IndexFrom(text, ResultBegin(), from);
    var rest := "\n\n" + m;
    assert text[from..] == rest;
    forall k | from <= k < |text| ensures text[k] != '<' {
      assert text[k] == rest[k - from];
    }
    if r.Some? {
      OccursFirst(text, ResultBegin(), r.value);
    }
  }

  lemma OccursFirst(text: string, pattern: string, k: nat)
    requires pattern != ""
    ensures OccursAt(text, pattern, k) ==> k < |text| && text[k] == pattern[0]
  {
    if OccursAt(text, pattern, k) {
      assert text[k..k + |pattern|][0] == text[k];
    }
  }

  lemma TrimmedHeader()
    ensures |LegacyHeader()| == 123 && TrimEnd(LegacyHeader()) == LegacyHeader()[..121]
    ensures LegacyHeader() == LegacyHeader()[..121] + "\n\n"
  {
    hide Title, Notice;
    HeaderIsLong();
    var h := LegacyHeader();
    assert h == h[..121] + "\n\n";
    assert h[..121][120] == Notice()[83];
    TrimEndUnique(h[..121], "\n\n");
  }

  lemma SeamHidesHeader(kept: string)
    requires kept == LegacyHeader()[..121]
    ensures Resume(kept) <= |LegacyHeader() + EventMarker()|
    ensures StripLegacy(LegacyHeader() + EventMarker(), Resume(kept)) == LegacyHeader() + EventMarker()
  {
    hide OccursAt, LegacyHeader, EventMarker;
    HeaderIsLong();
    var text := LegacyHeader() + EventMarker();
    IndexFromFinds(text, LegacyHeader(), Resume(kept));
    assert IndexFrom(text, LegacyHeader(), Resume(kept)).None?;
  }

  lemma HeaderThenMarker()
    ensures LegacyAt(LegacyHeader() + EventMarker(), 0)
  {
    hide LegacyHeader, EventMarker;
  }

  // ----- stripping as a whole -----

  function StripInternalRuntimeContext(text: string): string {
    if text == "" then text else StripLegacy(Strip(text), 0)
  }

  predicate HasInternalRuntimeContext(text: string) {
    text != "" && (FindToken(text, Begin(), 0).Some? || IndexOf(text, LegacyHeader()).Some?)
  }

  /** A text that has no internal context is returned as it is. */
  lemma NothingToStrip(text: string)
    requires !HasInternalRuntimeContext(text)
    ensures StripInternalRuntimeContext(text) == text
  {
    hide OccursAt, LegacyHeader, Begin, FindToken;
    if text != "" {
      LegacyStripChangesIff(text, 0);
      assert forall k: nat :: LegacyAt(text, k) ==> OccursAt(text, LegacyHeader(), k);
    }
  }

  /** Stripping takes an embedded block out of its surroundings. When the joined surroundings have no internal context
      themselves, they are the result. */
  lemma StripUndoesEmbedding(before: string, body: string, after: string)
    requires !Contains(body, Begin()) && !Contains(body, End())
    requires StartsLine(before) && EndsLine(after, 0) && FindToken(before, Begin(), 0) == None
    ensures var joined := Rejoin(TrimEnd(before), TrimStart(after));
            && StripInternalRuntimeContext(Embed(before, body, after)) == StripInternalRuntimeContext(joined)
            && (!HasInternalRuntimeContext(joined) ==>
                  StripInternalRuntimeContext(Embed(before, body, after)) == joined)
  {
    hide OccursAt, LegacyHeader, Begin, End, FindToken, EndsLine, StartsLine, TrimEnd, TrimStart, Rejoin,
         HasInternalRuntimeContext, Strip, StripLegacy;
    var joined := Rejoin(TrimEnd(before), TrimStart(after));
    EmbedParts(before, body, after);
    EmbeddedBlockIsStripped(before, body, after);
    if !HasInternalRuntimeContext(joined) {
      NothingToStrip(joined);
    }
    EmptyStays();
  }

  lemma EmptyStays()
    ensures StripLegacy(Strip(""), 0) == ""
  {
    hide OccursAt, LegacyHeader, Begin, End;
    HeaderIsLong();
    assert FindToken("", Begin(), 0) == None by {
      assert forall j: nat :: !OccursAt("", Begin(), j) by { NothingOccursInNothing(Begin()); }
    }
    LegacyStripChangesIff("", 0);
    NothingOccursInNothing(LegacyHeader());
  }

  lemma NothingOccursInNothing(t: string)
    requires t != ""
    ensures forall j: nat :: !OccursAt("", t, j)
  {
  }
}
