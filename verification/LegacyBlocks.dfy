/** What one pass over the context blocks of older versions takes out: the header and all its events, and nothing else
    (src/agents/internal-runtime-context.ts). */
module LegacyBlocks {
  import opened Common
  import opened Text
  import opened InternalContext
  import opened LegacyContext
  import opened InternalEvents

  // ----- events as older versions wrote them -----

  datatype OldEvent = OldEvent(about: string, result: string, stats: string, action: string)

  function OldText(e: OldEvent): string {
    EventMarker() + (e.about + ResultBegin() + (e.result + ResultEnd() + (e.stats + ACTION_LABEL + e.action)))
  }

  function MoreTexts(events: seq<OldEvent>): string {
    if events == [] then "" else EVENT_SEPARATOR + OldText(events[0]) + MoreTexts(events[1..])
  }

  function OldBlock(events: seq<OldEvent>): string
    requires events != []
  {
    LegacyHeader() + OldText(events[0]) + MoreTexts(events[1..])
  }

  /** The pattern behind the part is its first occurrence. */
  predicate FirstBehind(part: string, pattern: string) {
    forall j: nat :: j < |part| ==> !OccursAt(part + pattern, pattern, j)
  }

  /** Each mark comes first where it is meant to, and the action is one paragraph. */
  predicate WellFormed(e: OldEvent) {
    && FirstBehind(e.about, ResultBegin()) && FirstBehind(e.result, ResultEnd())
    && FirstBehind(e.stats, ACTION_LABEL) && FirstBehind(e.action, "\n\n")
  }

  predicate AllWellFormed(events: seq<OldEvent>) {
    forall i :: 0 <= i < |events| ==> WellFormed(events[i])
  }

  /** What follows the action of an event: nothing, or a new paragraph. */
  predicate NewParagraph(tail: string) {
    tail == "" || StartsWith(tail, "\n\n")
  }

  function NextEvent(): string {
    EVENT_SEPARATOR + EventMarker()
  }

  // ----- the end of one event -----

  lemma FoundBehind(text: string, from: nat, part: string, pattern: string, tail: string)
    requires from <= |text| && text[from..] == part + (pattern + tail) && FirstBehind(part, pattern)
    ensures IndexFrom(text, pattern, from) == Some(from + |part|)
    ensures from + |part| + |pattern| <= |text| && text[from + |part| + |pattern|..] == tail
  {
    hide OccursAt;
    var rest := text[from..];
    assert rest == part + pattern + tail;
    OccursBetween(part, pattern, tail);
    forall j: nat | j < |part| ensures !OccursAt(rest, pattern, j) {
      assert part + pattern <= rest;
      OccursInPrefix(part + pattern, rest, pattern, j);
    }
    IndexOfIs(rest, pattern, |part|);
    assert rest[|part| + |pattern|..] == tail;
  }

  lemma NotFound(text: string, from: nat, pattern: string)
    requires from <= |text| && forall j: nat :: !OccursAt(text[from..], pattern, j)
    ensures IndexFrom(text, pattern, from) == None
  {
  }

  /** In a paragraph and what follows it, a blank line comes no earlier than its end. */
  lemma BlankLineBehind(action: string, tail: string, j: nat)
    requires FirstBehind(action, "\n\n") && NewParagraph(tail) && j < |action|
    ensures !OccursAt(action + tail, "\n\n", j)
  {
    hide OccursAt;
    var all := action + tail;
    if tail == "" {
      assert all <= action + "\n\n";
      if j + 2 <= |all| {
        OccursInPrefix(all, action + "\n\n", "\n\n", j);
      } else {
        OccursFits(all, "\n\n", j);
      }
    } else {
      assert tail == "\n\n" + tail[2..];
      assert action + "\n\n" <= all;
      OccursInPrefix(action + "\n\n", all, "\n\n", j);
    }
  }

  lemma OccursFits(s: string, t: string, j: nat)
    ensures OccursAt(s, t, j) ==> j + |t| <= |s|
  {
  }

  lemma NextEventStarts(s: string, j: nat)
    ensures OccursAt(s, NextEvent(), j) ==> OccursAt(s, "\n\n", j)
  {
    hide EventMarker;
    if OccursAt(s, NextEvent(), j) {
      assert s[j..j + 2] == s[j..j + |NextEvent()|][..2] == "\n\n";
    }
  }

  lemma ActionEndIs(text: string, from: nat, action: string, tail: string)
    requires from <= |text| && text[from..] == action + tail && FirstBehind(action, "\n\n") && NewParagraph(tail)
    requires StartsWith(tail, NextEvent()) || !Contains(tail, NextEvent())
    ensures ActionEnd(text, from) == from + |action|
  {
    hide OccursAt, IndexFrom, EventMarker, FirstBehind;
    forall j: nat | j < |action|
      ensures !OccursAt(action + tail, NextEvent(), j) && !OccursAt(action + tail, "\n\n", j) {
      BlankLineBehind(action, tail, j);
      NextEventStarts(action + tail, j);
    }
    if StartsWith(tail, NextEvent()) {
      FoundAt(text, from, action, NextEvent(), tail);
    } else {
      forall j: nat ensures !OccursAt(action + tail, NextEvent(), j) {
        if j >= |action| {
          assert (action + tail)[|action|..] == tail;
          OccursInSuffix(action + tail, tail, |action|, NextEvent(), j - |action|);
        }
      }
      NotFound(text, from, NextEvent());
      ParagraphEndIs(text, from, action, tail);
    }
  }

  lemma FoundAt(text: string, from: nat, part: string, pattern: string, tail: string)
    requires from <= |text| && text[from..] == part + tail && StartsWith(tail, pattern)
    requires forall j: nat :: j < |part| ==> !OccursAt(part + tail, pattern, j)
    ensures IndexFrom(text, pattern, from) == Some(from + |part|)
  {
    var rest := text[from..];
    assert rest[|part|..|part| + |pattern|] == tail[..|pattern|];
    IndexOfIs(rest, pattern, |part|);
  }

  lemma ParagraphEndIs(text: string, from: nat, action: string, tail: string)
    requires from <= |text| && text[from..] == action + tail && NewParagraph(tail)
    requires forall j: nat :: j < |action| ==> !OccursAt(action + tail, "\n\n", j)
    ensures ParagraphEnd(text, from) == from + |action|
  {
    hide OccursAt, IndexFrom;
    if tail == "" {
      assert action + tail == action;
      forall j: nat ensures !OccursAt(action + tail, "\n\n", j) {
        OccursFits(action + tail, "\n\n", j);
      }
      NotFound(text, from, "\n\n");
    } else {
      FoundAt(text, from, action, "\n\n", tail);
    }
  }

  lemma EventEndIs(text: string, start: nat, e: OldEvent, tail: string)
    requires start <= |text| && text[start..] == OldText(e) + tail && WellFormed(e) && NewParagraph(tail)
    requires StartsWith(tail, NextEvent()) || !Contains(tail, NextEvent())
    ensures FindEventEnd(text, start) == Some(start + |OldText(e)|)
  {
    hide OccursAt, IndexFrom, EventMarker, ResultBegin, ResultEnd, FirstBehind, StartsWith, Contains, NewParagraph,
         ActionEnd;
    var last := e.action + tail;
    var mid := e.stats + (ACTION_LABEL + last);
    var inner := e.result + (ResultEnd() + mid);
    EventInParts(e, tail);
    StartsHere(text, start, EventMarker(), e.about + (ResultBegin() + inner));
    var a := start + |EventMarker()|;
    FoundBehind(text, a, e.about, ResultBegin(), inner);
    var b := a + |e.about| + |ResultBegin()|;
    FoundBehind(text, b, e.result, ResultEnd(), mid);
    var c := b + |e.result| + |ResultEnd()|;
    FoundBehind(text, c, e.stats, ACTION_LABEL, last);
    ActionEndIs(text, c + |e.stats| + |ACTION_LABEL|, e.action, tail);
  }

  lemma EventInParts(e: OldEvent, tail: string)
    ensures OldText(e) + tail
            == EventMarker() + (e.about
              + (ResultBegin() + (e.result + (ResultEnd() + (e.stats + (ACTION_LABEL + (e.action + tail)))))))
    ensures |OldText(e)|
            == |EventMarker()| + |e.about| + |ResultBegin()| + |e.result| + |ResultEnd()| + |e.stats| + |ACTION_LABEL|
              + |e.action|
  {
    hide EventMarker, ResultBegin, ResultEnd;
    var last := e.stats + ACTION_LABEL + e.action;
    var mid := e.result + ResultEnd() + last;
    Shift(EventMarker(), e.about + ResultBegin() + mid, tail);
    Shift(e.about + ResultBegin(), mid, tail);
    Shift(e.about, ResultBegin(), mid + tail);
    Shift(e.result + ResultEnd(), last, tail);
    Shift(e.result, ResultEnd(), last + tail);
    Shift(e.stats + ACTION_LABEL, e.action, tail);
    Shift(e.stats, ACTION_LABEL, e.action + tail);
  }

  lemma Shift(a: string, b: string, c: string)
    ensures (a + b) + c == a + (b + c)
  {
  }

  lemma StartsHere(text: string, start: nat, mark: string, rest: string)
    requires start <= |text| && text[start..] == mark + rest
    ensures OccursAt(text, mark, start) && start + |mark| <= |text| && text[start + |mark|..] == rest
  {
    assert text[start..start + |mark|] == text[start..][..|mark|] == mark;
    assert text[start..][|mark|..] == rest;
  }

  // ----- the end of a block -----

  /** Text that may follow a block: a new paragraph without a further event in the form that continues a block. */
  ghost predicate EndsBlock(after: string) {
    NewParagraph(after) && !Contains(after, NextEvent())
  }

  lemma MoreStarts(events: seq<OldEvent>, after: string)
    requires EndsBlock(after)
    ensures NewParagraph(MoreTexts(events) + after)
    ensures StartsWith(MoreTexts(events) + after, NextEvent()) || !Contains(MoreTexts(events) + after, NextEvent())
    ensures events == [] ==> MoreTexts(events) + after == after && !OccursAt(after, NextEvent(), 0)
    ensures events != [] ==> OccursAt(MoreTexts(events) + after, NextEvent(), 0)
  {
    hide EventMarker, OldText, NextEvent, OccursAt;
    if events == [] {
      assert MoreTexts(events) + after == after;
    } else {
      var rest := FirstIsNext(events, after);
      NextIsParagraph(rest);
    }
  }

  lemma FirstIsNext(events: seq<OldEvent>, after: string) returns (rest: string)
    requires events != []
    ensures MoreTexts(events) + after == NextEvent() + rest
  {
    hide EventMarker, OldText;
    var text, marker := OldText(events[0]), EventMarker();
    MarkerFirst(events[0]);
    assert text == marker + text[|marker|..];
    rest := text[|marker|..] + (MoreTexts(events[1..]) + after);
    Shift(EVENT_SEPARATOR + text, MoreTexts(events[1..]), after);
    Shift(EVENT_SEPARATOR, marker, text[|marker|..]);
    Shift(NextEvent(), text[|marker|..], MoreTexts(events[1..]) + after);
  }

  lemma NextIsParagraph(rest: string)
    ensures var all := NextEvent() + rest;
            NewParagraph(all) && StartsWith(all, NextEvent()) && OccursAt(all, NextEvent(), 0)
  {
    hide EventMarker;
    var all := NextEvent() + rest;
    assert all[..|NextEvent()|] == NextEvent();
    assert all[..2] == NextEvent()[..2] == "\n\n";
  }

  lemma MarkerFirst(e: OldEvent)
    ensures |EventMarker()| <= |OldText(e)| && OldText(e)[..|EventMarker()|] == EventMarker()
  {
    hide EventMarker, ResultBegin, ResultEnd;
  }

  lemma {:induction false} MoreEventsEnd(text: string, from: nat, events: seq<OldEvent>, after: string)
    requires from <= |text| && text[from..] == MoreTexts(events) + after && AllWellFormed(events) && EndsBlock(after)
    ensures MoreEvents(text, from) == from + |MoreTexts(events)|
    decreases |events|
  {
    hide OccursAt, EventMarker, OldText, FindEventEnd, WellFormed, NewParagraph, StartsWith, Contains, EndsBlock;
    MoreStarts(events, after);
    OccursInSuffix(text, text[from..], from, NextEvent(), 0);
    if events != [] {
      var first, more := OldText(events[0]), MoreTexts(events[1..]) + after;
      MoreStarts(events[1..], after);
      Shift(EVENT_SEPARATOR + first, MoreTexts(events[1..]), after);
      Shift(EVENT_SEPARATOR, first, more);
      StartsHere(text, from, EVENT_SEPARATOR, first + more);
      var next := from + |EVENT_SEPARATOR|;
      EventEndIs(text, next, events[0], more);
      StartsHere(text, next, first, more);
      MoreEventsEnd(text, next + |first|, events[1..], after);
    }
  }

  lemma BlockEndIs(text: string, start: nat, events: seq<OldEvent>, after: string)
    requires events != [] && start <= |text| && text[start..] == OldText(events[0]) + (MoreTexts(events[1..]) + after)
    requires AllWellFormed(events) && EndsBlock(after)
    ensures OccursAt(text, EventMarker(), start)
    ensures BlockEnd(text, start) == start + |OldText(events[0])| + |MoreTexts(events[1..])|
  {
    hide EventMarker, OldText, FindEventEnd, MoreEvents, BlockEnd, WellFormed, NewParagraph, StartsWith, Contains,
         EndsBlock,
         MoreTexts, OccursAt;
    var first, more := OldText(events[0]), MoreTexts(events[1..]) + after;
    MoreStarts(events[1..], after);
    EventEndIs(text, start, events[0], more);
    StartsHere(text, start, first, more);
    EndIsFound(text, start, start + |first|);
    MoreEventsEnd(text, start + |first|, events[1..], after);
  }

  lemma EndIsFound(text: string, start: nat, end: nat)
    requires FindEventEnd(text, start) == Some(end) && end <= |text|
    ensures OccursAt(text, EventMarker(), start) && BlockEnd(text, start) == MoreEvents(text, end)
  {
    hide OccursAt, IndexFrom;
  }

  // ----- taking a block out -----

  /** A block of an older version is taken out with exactly its header and its events: what is left is stripped as if
      the trimmed surroundings were joined, and is just those when they hold no such block. */
  lemma OldBlockIsStripped(before: string, events: seq<OldEvent>, after: string)
    requires events != [] && AllWellFormed(events) && EndsBlock(after) && FirstBehind(before, LegacyHeader())
    ensures var joined := Rejoin(TrimEnd(before), TrimStart(after));
            && Resume(TrimEnd(before)) <= |joined|
            && StripLegacy(before + OldBlock(events) + after, 0) == StripLegacy(joined, Resume(TrimEnd(before)))
            && ((forall k: nat :: !LegacyAt(joined, k)) ==> StripLegacy(before + OldBlock(events) + after, 0) == joined)
  {
    hide EventMarker, OldText, LegacyHeader, AllWellFormed, EndsBlock, FirstBehind, MoreTexts, TrimEnd, TrimStart,
         BlockEnd,
         StripLegacy, IndexFrom, Rejoin, Resume, LegacyAt, OccursAt;
    var text := before + OldBlock(events) + after;
    var tail := OldText(events[0]) + (MoreTexts(events[1..]) + after);
    BlockInParts(before, events, after);
    assert text[0..] == text;
    FoundBehind(text, 0, before, LegacyHeader(), tail);
    var start := |before| + |LegacyHeader()|;
    BlockEndIs(text, start, events, after);
    LegacyRemove(text, 0, |before|);
    assert text[..|before|] == before;
    assert text[BlockEnd(text, start)..] == after;
    var joined := Rejoin(TrimEnd(before), TrimStart(after));
    LegacyStripChangesIff(joined, Resume(TrimEnd(before)));
  }

  lemma BlockInParts(before: string, events: seq<OldEvent>, after: string)
    requires events != []
    ensures var tail := OldText(events[0]) + (MoreTexts(events[1..]) + after);
            && before + OldBlock(events) + after == before + (LegacyHeader() + tail)
            && |before + OldBlock(events)|
               == |before| + |LegacyHeader()| + |OldText(events[0])| + |MoreTexts(events[1..])|
  {
    hide LegacyHeader, OldText, MoreTexts;
    var first, more := OldText(events[0]), MoreTexts(events[1..]);
    Shift(before, OldBlock(events), after);
    Shift(LegacyHeader() + first, more, after);
    Shift(LegacyHeader(), first, more + after);
  }

  // ----- events as they are formatted now -----

  /** A formatted event, cut at its marks. */
  function Parts(event: TaskCompletionEvent): OldEvent {
    OldEvent("\n" + Join(AboutLines(event)[1..], "\n") + "\n",
             "\n" + SanitizeMultilineField(event.result, "(no output)") + "\n",
             if StatsLines(event.statsLine) == [] then ""
                else "\n\n" + SanitizeMultilineField(event.statsLine.value, ""),
             SanitizeMultilineField(event.replyInstruction, ""))
  }

  /** Formatting has kept the form: an event written now is an event of that form. */
  lemma FormattedHasOldForm(event: TaskCompletionEvent)
    ensures EventText(event) == OldText(Parts(event))
  {
    hide Join, SanitizeMultilineField, AboutLines, EventMarker, ResultBegin, ResultEnd;
    var about := AboutLines(event);
    MarkerLine(event);
    assert about == [about[0]] + about[1..];
    JoinCons(about[0], about[1..], "\n");
    ResultJoined(event);
    ActionJoined(event);
    var rest := StatsLines(event.statsLine) + ActionLines(event);
    assert EventLines(event) == about + (ResultLines(event) + rest);
    JoinAppend(about, ResultLines(event) + rest, "\n");
    JoinAppend(ResultLines(event), rest, "\n");
    TextInParts(event);
  }

  lemma MarkerLine(event: TaskCompletionEvent)
    ensures AboutLines(event)[0] == EventMarker() && |AboutLines(event)[1..]| == 8
  {
    hide EventMarker, OutcomeLines, SanitizeSingleLineField;
  }

  lemma {:induction false} JoinAppend(a: seq<string>, b: seq<string>, separator: string)
    requires a != [] && b != []
    ensures Join(a + b, separator) == Join(a, separator) + separator + Join(b, separator)
  {
    hide Join;
    if |a| == 1 {
      assert a == [a[0]];
      JoinOne(a[0], separator);
      JoinCons(a[0], b, separator);
    } else {
      assert a == [a[0]] + a[1..] && a + b == [a[0]] + (a[1..] + b);
      JoinCons(a[0], a[1..], separator);
      JoinCons(a[0], a[1..] + b, separator);
      JoinAppend(a[1..], b, separator);
      Shift(a[0] + separator, Join(a[1..], separator) + separator, Join(b, separator));
      Shift(a[0] + separator, Join(a[1..], separator), separator);
    }
  }

  lemma ResultJoined(event: TaskCompletionEvent)
    ensures Join(ResultLines(event), "\n")
            == ResultBegin() + ("\n" + SanitizeMultilineField(event.result, "(no output)") + "\n") + ResultEnd()
  {
    hide Join, SanitizeMultilineField, ResultBegin, ResultEnd;
    var result := SanitizeMultilineField(event.result, "(no output)");
    JoinOne(ResultEnd(), "\n");
    JoinCons(result, [ResultEnd()], "\n");
    JoinCons(ResultBegin(), [result, ResultEnd()], "\n");
    assert [result] + [ResultEnd()] == [result, ResultEnd()];
    assert [ResultBegin()] + [result, ResultEnd()] == ResultLines(event);
  }

  lemma ActionJoined(event: TaskCompletionEvent)
    ensures var stats := if StatsLines(event.statsLine) == [] then ""
            else "\n\n" + SanitizeMultilineField(event.statsLine.value, "");
            "\n" + Join(StatsLines(event.statsLine) + ActionLines(event), "\n")
            == stats + ACTION_LABEL + SanitizeMultilineField(event.replyInstruction, "")
  {
    hide Join, SanitizeMultilineField;
    var action := SanitizeMultilineField(event.replyInstruction, "");
    ThreeLines("", "Action:", action);
    assert "\n" + ("" + "\n" + "Action:" + "\n" + action) == ACTION_LABEL + action;
    if StatsLines(event.statsLine) == [] {
      assert StatsLines(event.statsLine) + ActionLines(event) == ActionLines(event);
    } else {
      var stats := SanitizeMultilineField(event.statsLine.value, "");
      JoinOne(stats, "\n");
      JoinCons("", [stats], "\n");
      assert [""] + [stats] == StatsLines(event.statsLine);
      JoinAppend(StatsLines(event.statsLine), ActionLines(event), "\n");
      assert "\n" + ("" + "\n" + stats) == "\n\n" + stats;
    }
  }

  lemma ThreeLines(a: string, b: string, c: string)
    ensures Join([a, b, c], "\n") == a + "\n" + b + "\n" + c
  {
    hide Join;
    JoinOne(c, "\n");
    JoinCons(b, [c], "\n");
    JoinCons(a, [b, c], "\n");
    assert [b] + [c] == [b, c] && [a] + [b, c] == [a, b, c];
  }

  lemma TextInParts(event: TaskCompletionEvent)
    requires EventText(event) == Join(AboutLines(event), "\n") + "\n"
                                 + (Join(ResultLines(event), "\n") + "\n"
                                   + Join(StatsLines(event.statsLine) + ActionLines(event), "\n"))
    requires Join(AboutLines(event), "\n") == EventMarker() + "\n" + Join(AboutLines(event)[1..], "\n")
    requires Join(ResultLines(event), "\n") == ResultBegin() + Parts(event).result + ResultEnd()
    requires "\n" + Join(StatsLines(event.statsLine) + ActionLines(event), "\n")
             == Parts(event).stats + ACTION_LABEL + Parts(event).action
    ensures EventText(event) == OldText(Parts(event))
  {
    hide Join, SanitizeMultilineField, AboutLines, EventMarker, ResultBegin, ResultEnd, EventText, StatsLines,
         ActionLines, ResultLines;
    var p := Parts(event);
    var tail := Join(StatsLines(event.statsLine) + ActionLines(event), "\n");
    Shift(ResultBegin() + p.result + ResultEnd(), "\n", tail);
    Shift(ResultBegin(), p.result, ResultEnd());
    Shift(ResultBegin(), p.result + ResultEnd(), "\n" + tail);
    Shift(EventMarker() + "\n" + Join(AboutLines(event)[1..], "\n"), "\n",
      ResultBegin() + (p.result + ResultEnd() + ("\n" + tail)));
    Shift(EventMarker(), "\n", Join(AboutLines(event)[1..], "\n"));
    Shift(EventMarker(), "\n" + Join(AboutLines(event)[1..], "\n"), "\n");
    Shift(EventMarker(), p.about, ResultBegin() + (p.result + ResultEnd() + ("\n" + tail)));
    Shift(p.about, ResultBegin(), p.result + ResultEnd() + ("\n" + tail));
  }

  function AllParts(events: seq<TaskCompletionEvent>): (r: seq<OldEvent>)
    ensures |r| == |events| && forall i :: 0 <= i < |r| ==> r[i] == Parts(events[i])
  {
    seq(|events|, i requires 0 <= i < |events| => Parts(events[i]))
  }

  lemma {:induction false} JoinedHaveOldForm(events: seq<TaskCompletionEvent>)
    requires events != []
    ensures Join(EventTexts(events), EVENT_SEPARATOR) == OldText(Parts(events[0])) + MoreTexts(AllParts(events[1..]))
  {
    hide Join, Parts, OldText, EventText;
    var texts, first, rest := EventTexts(events), events[0], events[1..];
    FormattedHasOldForm(first);
    if rest == [] {
      assert texts == [EventText(first)];
      JoinOne(EventText(first), EVENT_SEPARATOR);
    } else {
      assert texts == [EventText(first)] + EventTexts(rest);
      JoinCons(EventText(first), EventTexts(rest), EVENT_SEPARATOR);
      JoinedHaveOldForm(rest);
      assert AllParts(rest)[1..] == AllParts(rest[1..]);
      Shift(EventText(first), EVENT_SEPARATOR, OldText(Parts(rest[0])) + MoreTexts(AllParts(rest[1..])));
      Shift(EVENT_SEPARATOR, OldText(Parts(rest[0])), MoreTexts(AllParts(rest[1..])));
    }
  }

  /** So events formatted now, under the header of an older version, are taken out of their surroundings: whenever their
      fields leave the marks in place. */
  lemma OldFormatIsStripped(before: string, events: seq<TaskCompletionEvent>, after: string)
    requires events != [] && AllWellFormed(AllParts(events)) && EndsBlock(after) && FirstBehind(before, LegacyHeader())
    ensures var joined := Rejoin(TrimEnd(before), TrimStart(after));
            (forall k: nat :: !LegacyAt(joined, k)) ==>
              StripLegacy(before + LegacyHeader() + Join(EventTexts(events), EVENT_SEPARATOR) + after, 0) == joined
  {
    hide Join, Parts, OldText, EventText, StripLegacy, LegacyHeader, MoreTexts, WellFormed, EndsBlock, FirstBehind,
         LegacyAt,
         Rejoin, TrimStart, TrimEnd;
    JoinedHaveOldForm(events);
    OldBlockIsStripped(before, AllParts(events), after);
    assert AllParts(events)[1..] == AllParts(events[1..]);
    var first, more := OldText(Parts(events[0])), MoreTexts(AllParts(events[1..]));
    Shift(before, LegacyHeader(), first + more);
    Shift(LegacyHeader(), first, more);
  }
}
