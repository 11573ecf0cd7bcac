/** The relay that reports a spawned child's progress to its parent session
    (src/agents/acp-spawn-parent-stream.ts). */
module RelayMonitor {
  import opened Common
  import opened Utf16

  const STREAM_BUFFER_MAX_CHARS: nat := 4_000
  const STREAM_SNIPPET_MAX_CHARS: nat := 220

  const NEWLINE: nat := 0x0A
  const SPACE: nat := 0x20
  const ELLIPSIS: nat := 0x2026

  /** The units that `\s` matches and `trim` removes; none of them is a surrogate. */
  predicate IsSpaceUnit(unit: nat) {
    || 0x09 <= unit <= 0x0D || unit == SPACE || unit == 0xA0 || unit == 0x1680
    || 0x2000 <= unit <= 0x200A || unit == 0x2028 || unit == 0x2029
    || unit == 0x202F || unit == 0x205F || unit == 0x3000 || unit == 0xFEFF
  }

  function LeadingSpaces(s: Units): (n: nat)
    ensures n <= |s|
  {
    if s != [] && IsSpaceUnit(s[0]) then 1 + LeadingSpaces(s[1..]) else 0
  }

  function TrailingSpaces(s: Units): (n: nat)
    ensures n <= |s|
  {
    if s != [] && IsSpaceUnit(s[|s| - 1]) then 1 + TrailingSpaces(s[..|s| - 1]) else 0
  }

  function TrimUnits(s: Units): Units {
    var rest := s[LeadingSpaces(s)..];
    rest[..|rest| - TrailingSpaces(rest)]
  }

  /** Two newlines in a row. */
  predicate HasParagraphBreak(s: Units) {
    exists i :: 0 < i < |s| && s[i - 1] == NEWLINE && s[i] == NEWLINE
  }

  /** `value.replace(/\s+/g, " ")`. */
  function CollapseSpaces(s: Units, inRun: bool): Units {
    if s == [] then []
    else if IsSpaceUnit(s[0]) then (if inRun then [] else [SPACE]) + CollapseSpaces(s[1..], true)
    else [s[0]] + CollapseSpaces(s[1..], false)
  }

  function CompactWhitespace(s: Units): Units {
    TrimUnits(CollapseSpaces(s, false))
  }

  function Truncate(value: Units, maxChars: nat): (r: Units)
    ensures |r| <= maxChars
    ensures |value| <= maxChars ==> r == value
  {
    if |value| <= maxChars then value
    else if maxChars <= 1 then value[..maxChars]
    else value[..maxChars - 1] + [ELLIPSIS]
  }

  function Snippet(text: Units): Units {
    Truncate(CompactWhitespace(text), STREAM_SNIPPET_MAX_CHARS)
  }

  function LastUnits(s: Units, max: nat): Units {
    if |s| <= max then s else s[|s| - max..]
  }

  lemma LastUnitsMore(s: Units)
    ensures LastUnits(s, STREAM_BUFFER_MAX_CHARS) ==
            if |s| > STREAM_BUFFER_MAX_CHARS then s[|s| - STREAM_BUFFER_MAX_CHARS..] else s
  {
  }

  datatype Notice =
    | Started
    | Progress(snippet: Units)
    | Stall
    | Resumed
    | Done(durationMs: Option<int>)
    | Failed(error: Option<string>)
    | TimedOut

  predicate Terminal(n: Notice) {
    n.Done? || n.Failed? || n.TimedOut?
  }

  predicate StallMark(n: Notice) {
    n.Stall? || n.Resumed?
  }

  /** The stall and resume notices, in order. */
  function StallMarks(notices: seq<Notice>): seq<Notice> {
    if notices == [] then []
    else
      var last := notices[|notices| - 1];
      StallMarks(notices[..|notices| - 1]) + if StallMark(last) then [last] else []
  }

  lemma StallMarksMore(notices: seq<Notice>, n: Notice)
    ensures StallMarks(notices + [n]) == StallMarks(notices) + if StallMark(n) then [n] else []
  {
    assert (notices + [n])[..|notices + [n]| - 1] == notices;
  }

  /** Stall, resume, stall, resume, ... */
  ghost predicate Alternating(marks: seq<Notice>) {
    forall i :: 0 <= i < |marks| ==> marks[i] == if i % 2 == 0 then Stall else Resumed
  }

  class Relay {
    const streamFlushMs: nat
    const noOutputNoticeMs: nat
    var disposed: bool
    var pendingText: Units
    var lastProgressAt: int
    var stallNotified: bool
    var flushTimer: bool
    var relayLifetimeTimer: bool
    var noOutputWatcher: bool
    var subscribed: bool
    var notices: seq<Notice>

    ghost var sinceFlush: Units // all visible output since the buffer was last emptied
    ghost var atDisposal: nat    // how many notices had been emitted when the relay was disposed

    constructor (streamFlushMs: nat, noOutputNoticeMs: nat, nowMs: int, startNotice: bool)
      ensures this.streamFlushMs == streamFlushMs && this.noOutputNoticeMs == noOutputNoticeMs
      ensures Valid() && !disposed && lastProgressAt == nowMs
      ensures notices == if startNotice then [Started] else []
    {
      this.streamFlushMs, this.noOutputNoticeMs := streamFlushMs, noOutputNoticeMs;
      disposed, pendingText, lastProgressAt, stallNotified := false, [], nowMs, false;
      flushTimer, relayLifetimeTimer, noOutputWatcher, subscribed := false, true, true, true;
      notices := if startNotice then [Started] else [];
      sinceFlush, atDisposal := [], 0;
      new;
      StallMarksMore([], Started);
      assert [] + [Started] == [Started];
    }

    /** At most one terminal notice, and it is the last thing before disposal; after that only start
        notices; stalls and resumes alternate; snippets are short and not empty. */
    ghost predicate WellBehaved()
      reads `disposed, `notices, `stallNotified, `atDisposal
    {
      && atDisposal <= |notices|
      && (forall i :: 0 <= i < |notices| && Terminal(notices[i]) ==> disposed && i == atDisposal - 1)
      && (disposed ==> forall i :: atDisposal <= i < |notices| ==> notices[i].Started?)
      && Alternating(StallMarks(notices))
      && (stallNotified <==> |StallMarks(notices)| % 2 == 1)
      && (forall i :: 0 <= i < |notices| && notices[i].Progress? ==>
            0 < |notices[i].snippet| <= STREAM_SNIPPET_MAX_CHARS)
    }

    /** While the relay lives, buffered text has a flush coming; once disposed, nothing can fire. */
    ghost predicate Valid()
      reads this
    {
      && WellBehaved()
      && (!disposed && pendingText != [] && streamFlushMs > 0 ==> flushTimer)
      && (flushTimer ==> !disposed)
      && (relayLifetimeTimer <==> !disposed)
      && (noOutputWatcher <==> !disposed)
      && (subscribed <==> !disposed)
      && |pendingText| < STREAM_SNIPPET_MAX_CHARS
      && pendingText == sinceFlush
    }

    method Emit(n: Notice)
      requires WellBehaved()
      requires disposed ==> n.Started?
      requires !Terminal(n) && (n.Progress? ==> 0 < |n.snippet| <= STREAM_SNIPPET_MAX_CHARS)
      requires n.Stall? ==> !stallNotified
      requires n.Resumed? ==> stallNotified
      modifies `notices, `stallNotified
      ensures WellBehaved() && notices == old(notices) + [n]
      ensures stallNotified == if StallMark(n) then n.Stall? else old(stallNotified)
    {
      StallMarksMore(notices, n);
      notices := notices + [n];
      if StallMark(n) {
        stallNotified := n.Stall?;
      }
    }

    method NotifyStarted()
      requires Valid()
      modifies `notices, `stallNotified
      ensures Valid() && notices == old(notices) + [Started]
    {
      Emit(Started);
    }

    /** Empty the buffer into one progress notice, unless there is nothing visible in it. */
    method FlushPending()
      requires WellBehaved() && !disposed
      modifies `pendingText, `flushTimer, `notices, `stallNotified, `sinceFlush
      ensures WellBehaved() && !flushTimer && pendingText == [] && sinceFlush == []
      ensures notices == old(notices) + if Snippet(old(pendingText)) == [] then []
              else [Progress(Snippet(old(pendingText)))]
      ensures stallNotified == old(stallNotified)
    {
      flushTimer := false;
      if pendingText == [] {
        sinceFlush := [];
        EmptySnippet();
        return;
      }
      var snippet := Snippet(pendingText);
      pendingText, sinceFlush := [], [];
      if snippet == [] {
        return;
      }
      Emit(Progress(snippet));
    }

    method FlushTimerFires()
      requires Valid() && flushTimer
      modifies this
      ensures Valid() && disposed == old(disposed) && pendingText == []
      ensures notices == old(notices) + if Snippet(old(pendingText)) == [] then []
              else [Progress(Snippet(old(pendingText)))]
    {
      FlushPending();
    }

    method NoOutputPoll(nowMs: int)
      requires Valid() && noOutputWatcher
      modifies `notices, `stallNotified
      ensures Valid()
      ensures var stalls := noOutputNoticeMs > 0 && !old(stallNotified) && nowMs - lastProgressAt >= noOutputNoticeMs;
              notices == old(notices) + (if stalls then [Stall] else [])
                && stallNotified == (old(stallNotified) || stalls)
    {
      if disposed || noOutputNoticeMs == 0 {
        return;
      }
      if stallNotified {
        return;
      }
      if nowMs - lastProgressAt < noOutputNoticeMs {
        return;
      }
      Emit(Stall);
    }

    method ResumeIfStalled()
      requires WellBehaved() && !disposed
      modifies `notices, `stallNotified
      ensures WellBehaved() && !stallNotified
      ensures notices == old(notices) + if old(stallNotified) then [Resumed] else []
    {
      if stallNotified {
        Emit(Resumed);
      }
    }

    /** Visible output: a resume notice if a stall was reported, then the buffer grows and is flushed
        when it is long enough or holds a paragraph break, or else left to the flush timer. */
    method AssistantDelta(delta: Units, nowMs: int)
      requires Valid() && subscribed
      modifies this
      ensures Valid() && disposed == old(disposed)
      ensures TrimUnits(delta) == [] ==> notices == old(notices) && pendingText == old(pendingText)
      ensures TrimUnits(delta) != [] ==>
                var text := LastUnits(old(sinceFlush) + delta, STREAM_BUFFER_MAX_CHARS);
                var resumed := if old(stallNotified) then [Resumed] else [];
                var flushes := |text| >= STREAM_SNIPPET_MAX_CHARS || HasParagraphBreak(delta);
                && !stallNotified && lastProgressAt == nowMs
                && pendingText == (if flushes then [] else text)
                && notices == old(notices) + resumed + if flushes
                   && Snippet(text) != [] then [Progress(Snippet(text))] else []
    {
      hide WellBehaved, Snippet, TrimUnits, HasParagraphBreak, LastUnits;
      LastUnitsMore(pendingText + delta);
      if disposed {
        return;
      }
      if TrimUnits(delta) == [] {
        return;
      }
      ResumeIfStalled();
      lastProgressAt := nowMs;
      pendingText := pendingText + delta;
      sinceFlush := sinceFlush + delta;
      if |pendingText| > STREAM_BUFFER_MAX_CHARS {
        pendingText := pendingText[|pendingText| - STREAM_BUFFER_MAX_CHARS..];
      }
      if |pendingText| >= STREAM_SNIPPET_MAX_CHARS || HasParagraphBreak(delta) {
        FlushPending();
        return;
      }
      if !(disposed || flushTimer || streamFlushMs <= 0) {
        flushTimer := true;
      }
    }

    /** The run ended: what is buffered goes out, then the outcome, then nothing more. */
    method RunEnded(outcome: Notice)
      requires Valid() && subscribed && (outcome.Done? || outcome.Failed?)
      modifies this
      ensures Valid() && disposed && atDisposal == |notices|
      ensures notices == old(notices)
              + (if Snippet(old(pendingText)) == [] then [] else [Progress(Snippet(old(pendingText)))]) + [outcome]
    {
      FlushPending();
      EmitLast(outcome);
    }

    method LifetimeTimerFires()
      requires Valid() && relayLifetimeTimer
      modifies this
      ensures Valid() && disposed && notices == old(notices) + [TimedOut] && atDisposal == |notices|
    {
      if disposed {
        return;
      }
      EmitLast(TimedOut);
    }

    /** A terminal notice is emitted and the relay disposed in the same step. */
    method EmitLast(n: Notice)
      requires WellBehaved() && !disposed && Terminal(n)
      requires |pendingText| < STREAM_SNIPPET_MAX_CHARS && pendingText == sinceFlush
      modifies this
      ensures Valid() && disposed && notices == old(notices) + [n] && atDisposal == |notices|
    {
      hide StallMarks;
      StallMarksMore(notices, n);
      notices := notices + [n];
      disposed, flushTimer, relayLifetimeTimer, noOutputWatcher, subscribed := true, false, false, false, false;
      atDisposal := |notices|;
    }

    method Dispose()
      requires Valid()
      modifies this
      ensures Valid() && disposed && notices == old(notices)
      ensures old(disposed) ==> atDisposal == old(atDisposal)
    {
      if disposed {
        return;
      }
      disposed, flushTimer, relayLifetimeTimer, noOutputWatcher, subscribed := true, false, false, false, false;
      atDisposal := |notices|;
    }
  }

  lemma EmptySnippet()
    ensures Snippet([]) == []
  {
  }

  ghost predicate NoSpaceRuns(c: Units) {
    forall i :: 0 < i < |c| && IsSpaceUnit(c[i]) ==> !IsSpaceUnit(c[i - 1])
  }

  lemma {:induction false} CollapsedHasNoRuns(s: Units, inRun: bool)
    ensures NoSpaceRuns(CollapseSpaces(s, inRun))
    ensures inRun && CollapseSpaces(s, inRun) != [] ==> !IsSpaceUnit(CollapseSpaces(s, inRun)[0])
  {
    if s != [] {
      CollapsedHasNoRuns(s[1..], IsSpaceUnit(s[0]));
      var c, rest := CollapseSpaces(s, inRun), CollapseSpaces(s[1..], IsSpaceUnit(s[0]));
      var first := if !IsSpaceUnit(s[0]) then [s[0]] else if inRun then [] else [SPACE];
      assert c == first + rest;
      forall i | 0 < i < |c| && IsSpaceUnit(c[i]) ensures !IsSpaceUnit(c[i - 1]) {
        assert c[i] == rest[i - |first|];
      }
    }
  }

  /** What is reported never has two spaces in a row, and no space at either end. */
  lemma CompactHasNoRuns(s: Units)
    ensures NoSpaceRuns(CompactWhitespace(s))
    ensures var c := CompactWhitespace(s); c != [] ==> !IsSpaceUnit(c[0]) && !IsSpaceUnit(c[|c| - 1])
  {
    CollapsedHasNoRuns(s, false);
    var whole := CollapseSpaces(s, false);
    var core, left := TrimUnits(whole), LeadingSpaces(whole);
    var rest := whole[left..];
    NoSpaceAhead(whole);
    NoSpaceBehind(rest);
    assert forall i :: 0 <= i < |core| ==> core[i] == whole[left + i];
    forall i | 0 < i < |core| && IsSpaceUnit(core[i]) ensures !IsSpaceUnit(core[i - 1]) {
      assert core[i] == whole[left + i] && core[i - 1] == whole[left + i - 1];
    }
  }

  lemma {:induction false} NoSpaceAhead(s: Units)
    ensures LeadingSpaces(s) < |s| ==> !IsSpaceUnit(s[LeadingSpaces(s)])
  {
    if s != [] && IsSpaceUnit(s[0]) {
      NoSpaceAhead(s[1..]);
    }
  }

  lemma {:induction false} NoSpaceBehind(s: Units)
    ensures TrailingSpaces(s) < |s| ==> !IsSpaceUnit(s[|s| - 1 - TrailingSpaces(s)])
  {
    if s != [] && IsSpaceUnit(s[|s| - 1]) {
      NoSpaceBehind(s[..|s| - 1]);
    }
  }

  // ----- what a snippet says -----

  /** The words of a text: the stretches between white space. `word` is what has been read of the current one. */
  function WordsFrom(s: Units, word: Units): seq<Units> {
    if s == [] then (if word == [] then [] else [word])
    else if IsSpaceUnit(s[0]) then
      if word == [] then WordsFrom(s[1..], []) else [word] + WordsFrom(s[1..], [])
    else WordsFrom(s[1..], word + [s[0]])
  }

  /** Words with one space between two of them. */
  function Spaced(words: seq<Units>): Units {
    if words == [] then [] else if |words| == 1 then words[0] else words[0] + [SPACE] + Spaced(words[1..])
  }

  function LastSpace(s: Units): Units {
    if s != [] && IsSpaceUnit(s[|s| - 1]) then [SPACE] else []
  }

  lemma NoWords()
    ensures Spaced([]) == []
  {
  }

  lemma SpacedCons(word: Units, words: seq<Units>)
    ensures Spaced([word] + words) == if words == [] then word else word + [SPACE] + Spaced(words)
  {
    assert ([word] + words)[1..] == words;
  }

  lemma LastSpaceOfRest(s: Units)
    ensures |s| > 1 ==> LastSpace(s) == LastSpace(s[1..])
  {
  }

  ghost predicate AreWords(words: seq<Units>) {
    forall i :: 0 <= i < |words| ==> words[i] != [] && forall k :: 0 <= k < |words[i]| ==> !IsSpaceUnit(words[i][k])
  }

  lemma {:induction false} WordsAreWords(s: Units, word: Units)
    requires word == [] || AreWords([word])
    ensures AreWords(WordsFrom(s, word)) && (word != [] ==> WordsFrom(s, word) != [])
  {
    hide IsSpaceUnit;
    if s != [] {
      if IsSpaceUnit(s[0]) {
        WordsAreWords(s[1..], []);
      } else {
        assert word != [] ==> [word][0] == word;
        WordsAreWords(s[1..], word + [s[0]]);
      }
    }
  }

  /** Collapsing inside a word: the word goes on, then the others follow one space apart. */
  lemma {:induction false} CollapsedWord(s: Units, word: Units)
    requires word != [] && AreWords([word])
    ensures word + CollapseSpaces(s, false) == Spaced(WordsFrom(s, word)) + LastSpace(s)
    decreases |s|, 0
  {
    hide IsSpaceUnit, Spaced, AreWords, LastSpace;
    if s == [] {
      WordAtTheEnd(word);
    } else if IsSpaceUnit(s[0]) {
      CollapsedRun(s[1..]);
      WordBeforeSpace(s, word);
    } else {
      Longer(word, s[0]);
      CollapsedWord(s[1..], word + [s[0]]);
      LastSpaceInRest(s);
      assert word + ([s[0]] + CollapseSpaces(s[1..], false)) == (word + [s[0]]) + CollapseSpaces(s[1..], false);
    }
  }

  lemma WordAtTheEnd(word: Units)
    requires word != []
    ensures word + CollapseSpaces([], false) == Spaced(WordsFrom([], word)) + LastSpace([])
  {
  }

  lemma WordBeforeSpace(s: Units, word: Units)
    requires s != [] && IsSpaceUnit(s[0]) && word != []
    requires var words := WordsFrom(s[1..], []);
             CollapseSpaces(s[1..], true) == if words == [] then [] else Spaced(words) + LastSpace(s[1..])
    ensures word + CollapseSpaces(s, false) == Spaced(WordsFrom(s, word)) + LastSpace(s)
  {
    var words, rest := WordsFrom(s[1..], []), CollapseSpaces(s[1..], true);
    assert CollapseSpaces(s, false) == [SPACE] + rest && WordsFrom(s, word) == [word] + words;
    hide IsSpaceUnit, Spaced, CollapseSpaces, WordsFrom;
    SpacedCons(word, words);
    if words == [] {
      if s[1..] != [] {
        OnlySpaces(s[1..]);
        LastSpaceOfRest(s);
      }
      assert LastSpace(s) == [SPACE] && [SPACE] + rest == [SPACE];
    } else {
      assert s[1..] != [] by {
        NoWordsInNothing();
      }
      LastSpaceOfRest(s);
      assert word + ([SPACE] + (Spaced(words) + LastSpace(s))) == (word + [SPACE] + Spaced(words)) + LastSpace(s);
    }
  }

  lemma NoWordsInNothing()
    ensures WordsFrom([], []) == []
  {
  }

  lemma LastSpaceInRest(s: Units)
    requires s != [] && !IsSpaceUnit(s[0])
    ensures LastSpace(s) == LastSpace(s[1..])
  {
  }

  lemma Longer(word: Units, unit: nat)
    requires AreWords([word]) && !IsSpaceUnit(unit)
    ensures AreWords([word + [unit]])
  {
    hide IsSpaceUnit;
    assert [word][0] == word;
  }

  lemma FirstUnit(s: Units)
    requires s != []
    ensures WordsFrom(s, []) == if IsSpaceUnit(s[0]) then WordsFrom(s[1..], []) else WordsFrom(s[1..], [s[0]])
  {
    hide IsSpaceUnit;
    assert [] + [s[0]] == [s[0]];
  }

  /** A text without words ends in a space. */
  lemma {:induction false} OnlySpaces(s: Units)
    requires s != []
    ensures WordsFrom(s, []) == [] ==> LastSpace(s) == [SPACE]
  {
    hide IsSpaceUnit;
    FirstUnit(s);
    if IsSpaceUnit(s[0]) {
      if |s| > 1 {
        OnlySpaces(s[1..]);
        LastSpaceOfRest(s);
      }
    } else {
      SomeWord(s[1..], [s[0]]);
    }
  }

  lemma {:induction false} SomeWord(s: Units, word: Units)
    requires word != []
    ensures WordsFrom(s, word) != []
  {
    if s != [] && !IsSpaceUnit(s[0]) {
      SomeWord(s[1..], word + [s[0]]);
    }
  }

  /** Collapsing behind a space: the words one space apart. */
  lemma {:induction false} CollapsedRun(s: Units)
    ensures CollapseSpaces(s, true) ==
            if WordsFrom(s, []) == [] then [] else Spaced(WordsFrom(s, [])) + LastSpace(s)
    decreases |s|, 1
  {
    hide IsSpaceUnit, Spaced;
    if s != [] {
      FirstUnit(s);
      LastSpaceOfRest(s);
      if IsSpaceUnit(s[0]) {
        CollapsedRun(s[1..]);
        assert [] + CollapseSpaces(s[1..], true) == CollapseSpaces(s[1..], true);
      } else {
        SingleUnit(s[0]);
        CollapsedWord(s[1..], [s[0]]);
        SomeWord(s[1..], [s[0]]);
      }
    }
  }

  lemma SingleUnit(unit: nat)
    requires !IsSpaceUnit(unit)
    ensures AreWords([[unit]])
  {
    hide IsSpaceUnit;
  }

  lemma {:induction false} SpacedIsBlack(words: seq<Units>)
    requires words != [] && AreWords(words)
    ensures var c := Spaced(words); c != [] && !IsSpaceUnit(c[0]) && !IsSpaceUnit(c[|c| - 1])
  {
    hide IsSpaceUnit;
    if |words| > 1 {
      SpacedIsBlack(words[1..]);
    }
  }

  lemma TrimsTo(before: Units, core: Units, behind: Units)
    requires before in {[], [SPACE]} && behind in {[], [SPACE]}
    requires core != [] && !IsSpaceUnit(core[0]) && !IsSpaceUnit(core[|core| - 1])
    ensures TrimUnits(before + core + behind) == core
  {
    var s := before + core + behind;
    assert s[|before|..] == core + behind;
    assert before != [] ==> s[1..] == core + behind && s[0] == SPACE;
    assert LeadingSpaces(core + behind) == 0;
    assert LeadingSpaces(s) == |before|;
    var rest := core + behind;
    assert behind != [] ==> rest[..|rest| - 1] == core && rest[|rest| - 1] == SPACE;
    assert TrailingSpaces(core) == 0;
    assert TrailingSpaces(rest) == |behind|;
  }

  /** White space is compacted to exactly the words of the text, in order and one space apart. */
  lemma CompactIsWords(s: Units)
    ensures CompactWhitespace(s) == Spaced(WordsFrom(s, []))
  {
    hide IsSpaceUnit, Spaced, TrimUnits;
    WordsAreWords(s, []);
    var words := WordsFrom(s, []);
    if words == [] {
      BlankCollapses(s);
      NoWords();
    } else {
      SpacedIsBlack(words);
      var before := if IsSpaceUnit(s[0]) then [SPACE] else [];
      TrimsTo(before, Spaced(words), LastSpace(s));
      LastSpaceOfRest(s);
      FirstUnit(s);
      if IsSpaceUnit(s[0]) {
        CollapsedRun(s[1..]);
        assert [SPACE] + (Spaced(words) + LastSpace(s)) == before + Spaced(words) + LastSpace(s);
      } else {
        SingleUnit(s[0]);
        CollapsedWord(s[1..], [s[0]]);
        assert before + Spaced(words) + LastSpace(s) == Spaced(words) + LastSpace(s);
      }
    }
  }

  lemma BlankCollapses(s: Units)
    requires WordsFrom(s, []) == []
    ensures CompactWhitespace(s) == []
  {
    hide IsSpaceUnit, TrimUnits;
    LoneSpaceIsTrimmed();
    if s != [] {
      FirstUnit(s);
      if IsSpaceUnit(s[0]) {
        CollapsedRun(s[1..]);
        assert CollapseSpaces(s, false) == [SPACE];
      } else {
        SomeWord(s[1..], [s[0]]);
      }
    }
  }

  lemma LoneSpaceIsTrimmed()
    ensures TrimUnits([SPACE]) == [] && TrimUnits([]) == []
  {
    assert [SPACE][1..] == [];
    assert LeadingSpaces([SPACE]) == 1;
  }

  /** A snippet is the words of the text, cut to 220 units with an ellipsis for the last when they are more. */
  lemma SnippetIsWords(text: Units)
    ensures var words := Spaced(WordsFrom(text, []));
            Snippet(text) == if |words| <= 220 then words else words[..219] + [0x2026]
  {
    CompactIsWords(text);
  }
}
