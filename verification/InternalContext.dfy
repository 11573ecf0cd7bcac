/** Escaping, finding and stripping internal context blocks (src/agents/internal-runtime-context.ts). */
module InternalContext {
  import opened Common
  import opened Text

  function BlockName(): (s: string)
    ensures |s| == 25 && forall c :: c in s ==> c == '_' || 'A' <= c <= 'Z'
  {
    "OPENCLAW_INTERNAL_CONTEXT"
  }

  function Begin(): (s: string)
    ensures |s| == 37 && s[0] == '<' && s[36] == '>' && '\n' !in s && ' ' !in s && '[' !in s
  {
    "<<<BEGIN_" + BlockName() + ">>>"
  }

  function End(): (s: string)
    ensures |s| == 35 && s[0] == '<' && s[34] == '>' && '\n' !in s && ' ' !in s && '[' !in s
  {
    "<<<END_" + BlockName() + ">>>"
  }

  function EscapedBegin(): (s: string)
    ensures s != "" && s[0] == '[' && '<' !in s
  {
    "[[" + BlockName() + "_BEGIN]]"
  }

  function EscapedEnd(): (s: string)
    ensures s != "" && s[0] == '[' && '<' !in s
  {
    "[[" + BlockName() + "_END]]"
  }

  /** On one line, and no character that starts a delimiter or the title. */
  predicate Plain(s: string) {
    '<' !in s && 'O' !in s && '\n' !in s
  }

  function TitleMiddle(): (s: string)
    ensures |s| == 16 && Plain(s)
  {
    "penClaw runtime "
  }

  function TitleEnd(): (s: string)
    ensures |s| == 19 && Plain(s)
  {
    "context (internal):"
  }

  function Title(): (s: string)
    ensures |s| == 36 && s[0] == 'O' && '<' !in s && '\n' !in s && 'O' !in s[1..]
  {
    "O" + TitleMiddle() + TitleEnd()
  }

  function NoticeStart(): (s: string)
    ensures |s| == 24 && Plain(s)
  {
    "This context is runtime-"
  }

  function NoticeMiddle(): (s: string)
    ensures |s| == 30 && Plain(s)
  {
    var start, rest := "generated, not ", "user-authored. ";
    start + rest
  }

  function NoticeRequest(): (s: string)
    ensures |s| == 14 && Plain(s)
  {
    "Keep internal "
  }

  function NoticeEnd(): (s: string)
    ensures |s| == 16 && s[15] == '.' && Plain(s)
  {
    "details private."
  }

  function Notice(): (s: string)
    ensures |s| == 84 && s[83] == '.' && Plain(s)
  {
    NoticeStart() + NoticeMiddle() + NoticeRequest() + NoticeEnd()
  }

  function LegacyHeader(): string {
    Title() + "\n" + Notice() + "\n\n"
  }

  function MarkerStart(): (s: string)
    ensures |s| == 15 && s[0] == '[' && Plain(s)
  {
    "[Internal task "
  }

  function MarkerEnd(): (s: string)
    ensures |s| == 17 && s[16] == ']' && Plain(s)
  {
    "completion event]"
  }

  function EventMarker(): (s: string)
    ensures |s| == 32 && s[0] == '[' && s[31] == ']' && Plain(s)
  {
    MarkerStart() + MarkerEnd()
  }

  const EVENT_SEPARATOR := "\n\n---\n\n"
  const ACTION_LABEL := "\n\nAction:\n"

  function ResultBegin(): (s: string)
    ensures |s| == 34 && s[0] == '<' && s[33] == '>'
  {
    "<<<BEGIN_UNTRUSTED_CHILD_RESULT>>>"
  }

  function ResultEnd(): (s: string)
    ensures |s| == 32 && s[0] == '<' && s[31] == '>'
  {
    "<<<END_UNTRUSTED_CHILD_RESULT>>>"
  }

  // ----- escaping -----

  function ReplaceAll(s: string, t: string, r: string): string
    requires t != ""
    decreases |s|
  {
    if OccursAt(s, t, 0) then r + ReplaceAll(s[|t|..], t, r)
    else if s == "" then ""
    else [s[0]] + ReplaceAll(s[1..], t, r)
  }

  function Escape(value: string): string {
    ReplaceAll(ReplaceAll(value, Begin(), EscapedBegin()), End(), EscapedEnd())
  }

  /** What starts a replaced text and avoids the replacement's first character already started the original. */
  lemma {:induction false} PrefixSurvives(s: string, t: string, r: string, v: string)
    requires t != "" && r != "" && r[0] !in v && OccursAt(ReplaceAll(s, t, r), v, 0)
    ensures OccursAt(s, v, 0)
    decreases |s|
  {
    if v != "" {
      var out := ReplaceAll(s, t, r);
      assert out[0] == v[0];
      assert !OccursAt(s, t, 0);
      assert out[1..] == ReplaceAll(s[1..], t, r);
      assert out[1..][0..|v| - 1] == out[0..|v|][1..];
      PrefixSurvives(s[1..], t, r, v[1..]);
      assert s[0..|v|] == [s[0]] + s[1..][0..|v| - 1];
    }
  }

  predicate Apart(r: string, u: string) {
    r != "" && u != "" && r[0] !in u && u[0] !in r
  }

  lemma EscapesAreApart()
    ensures Apart(EscapedBegin(), Begin()) && Apart(EscapedEnd(), Begin()) && Apart(EscapedEnd(), End())
  {
    hide Begin, End, EscapedBegin, EscapedEnd;
  }

  /** A replacement that shares no border with `u` brings no new occurrence of `u`, and leaves none of what it
      replaces. */
  lemma {:induction false} ReplaceAddsNone(s: string, t: string, r: string, u: string, k: nat)
    requires t != "" && Apart(r, u)
    requires u == t || !Contains(s, u)
    ensures !OccursAt(ReplaceAll(s, t, r), u, k)
    decreases |s|
  {
    var out := ReplaceAll(s, t, r);
    if OccursAt(s, t, 0) {
      var rest := ReplaceAll(s[|t|..], t, r);
      if k < |r| {
        assert out[k] == r[k];
        assert k + |u| <= |out| ==> out[k..k + |u|][0] == r[k];
      } else {
        assert OccursAt(out, u, k) ==> out[k..k + |u|] == rest[k - |r|..k - |r| + |u|];
        SuffixContains(s, |t|, u);
        ReplaceAddsNone(s[|t|..], t, r, u, k - |r|);
      }
    } else if s != "" {
      if k == 0 {
        if OccursAt(out, u, 0) {
          PrefixSurvives(s, t, r, u);
        }
      } else {
        var rest := ReplaceAll(s[1..], t, r);
        OccursAtDrop(out, u, k);
        assert out[1..] == rest;
        SuffixContains(s, 1, u);
        ReplaceAddsNone(s[1..], t, r, u, k - 1);
      }
    }
  }

  lemma SuffixContains(s: string, n: nat, u: string)
    requires n <= |s|
    ensures Contains(s[n..], u) ==> Contains(s, u)
  {
    if Contains(s[n..], u) {
      var k: nat :| OccursAt(s[n..], u, k);
      assert s[n..][k..k + |u|] == s[n + k..n + k + |u|];
      assert OccursAt(s, u, n + k);
    }
  }

  lemma PrefixContains(s: string, n: nat, u: string)
    requires n <= |s|
    ensures Contains(s[..n], u) ==> Contains(s, u)
  {
    if Contains(s[..n], u) {
      var k: nat :| OccursAt(s[..n], u, k);
      assert s[..n][k..k + |u|] == s[k..k + |u|];
      assert OccursAt(s, u, k);
    }
  }

  /** Neither delimiter occurs in an escaped text, whatever the text was. */
  lemma EscapedHasNoDelimiter(value: string)
    ensures !Contains(Escape(value), Begin()) && !Contains(Escape(value), End())
  {
    hide Begin, End, EscapedBegin, EscapedEnd, OccursAt, ReplaceAll, Apart;
    EscapesAreApart();
    var once := ReplaceAll(value, Begin(), EscapedBegin());
    forall k: nat ensures !OccursAt(once, Begin(), k) {
      ReplaceAddsNone(value, Begin(), EscapedBegin(), Begin(), k);
    }
    forall k: nat ensures !OccursAt(Escape(value), Begin(), k) {
      ReplaceAddsNone(once, End(), EscapedEnd(), Begin(), k);
    }
    forall k: nat ensures !OccursAt(Escape(value), End(), k) {
      ReplaceAddsNone(once, End(), EscapedEnd(), End(), k);
    }
  }

  // ----- delimiters on lines of their own -----

  predicate EndsLine(text: string, k: nat) {
    || k == |text|
    || (k < |text| && text[k] == '\n')
    || (k + 1 < |text| && text[k] == '\r' && text[k + 1] == '\n')
  }

  /** The token is a whole line: it starts one, and the text or the line ends after it. */
  predicate TokenAt(text: string, token: string, k: nat) {
    OccursAt(text, token, k) && (k == 0 || text[k - 1] == '\n') && EndsLine(text, k + |token|)
  }

  /** A match that starts at or after `from`: the newline before the token is part of it. */
  predicate TokenFrom(text: string, token: string, from: nat, k: nat) {
    TokenAt(text, token, k) && (if k == 0 then from == 0 else from <= k - 1)
  }

  function FindFrom(text: string, token: string, from: nat, k: nat): (r: Option<nat>)
    ensures r.Some? ==> k <= r.value && TokenFrom(text, token, from, r.value)
                        && forall j: nat :: k <= j < r.value ==> !TokenFrom(text, token, from, j)
    ensures r.None? ==> forall j: nat :: k <= j ==> !TokenFrom(text, token, from, j)
    decreases |text| - k
  {
    if k + |token| > |text| then None
    else if TokenFrom(text, token, from, k) then Some(k)
    else if k == |text| then None
    else FindFrom(text, token, from, k + 1)
  }

  /** The first whole-line token from a position on. */
  function FindToken(text: string, token: string, from: nat): (r: Option<nat>)
    ensures r.Some? ==> TokenFrom(text, token, from, r.value) && forall j: nat :: j < r.value ==>
            !TokenFrom(text, token, from, j)
    ensures r.None? ==> forall j: nat :: !TokenFrom(text, token, from, j)
  {
    FindFrom(text, token, from, 0)
  }

  lemma FindTokenIs(text: string, token: string, from: nat, k: nat)
    requires TokenFrom(text, token, from, k) && forall j: nat :: j < k ==> !TokenFrom(text, token, from, j)
    ensures FindToken(text, token, from) == Some(k)
  {
    hide TokenFrom;
    var r := FindToken(text, token, from);
    assert r.Some? && !(r.value < k) && !(k < r.value);
  }

  // ----- stripping delimited blocks -----

  /** Where the block that `depth` begin lines have opened is closed. */
  function Close(text: string, cursor: nat, depth: nat): (r: Option<nat>)
    requires cursor > 0 && depth > 0
    ensures r.Some? ==> cursor < r.value && r.value + |End()| <= |text|
    decreases |text| - cursor
  {
    match FindToken(text, End(), cursor)
    case None => None
    case Some(nextEnd) =>
      var nextBegin := FindToken(text, Begin(), cursor);
      if nextBegin.Some? && nextBegin.value < nextEnd then Close(text, nextBegin.value + |Begin()|, depth + 1)
      else if depth == 1 then Some(nextEnd)
      else Close(text, nextEnd + |End()|, depth - 1)
  }

  function Rejoin(before: string, after: string): string {
    if before != "" && after != "" then before + "\n\n" + after else before + after
  }

  function Strip(text: string): string
    decreases |text|
  {
    match FindToken(text, Begin(), 0)
    case None => text
    case Some(start) =>
      var before := TrimEnd(text[..start]);
      match Close(text, start + |Begin()|, 1)
      case None => before
      case Some(finish) =>
        var next := Rejoin(before, TrimStart(text[finish + |End()|..]));
        RemovalShortens(text, start, finish);
        Strip(next)
  }

  /** The seam adds at most two characters, the block takes away more. */
  lemma RemovalShortens(text: string, start: nat, finish: nat)
    requires start + |Begin()| < finish && finish + |End()| <= |text|
    ensures |Rejoin(TrimEnd(text[..start]), TrimStart(text[finish + |End()|..]))| < |text|
  {
    hide Begin, End;
    var left := TrimEndSplits(text[..start]);
    var right := TrimStartSplits(text[finish + |End()|..]);
  }

  /** The characters other than white space, in order. */
  function Visible(s: string): string {
    if s == "" then "" else (if IsSpace(s[0]) then "" else [s[0]]) + Visible(s[1..])
  }

  lemma {:induction false} VisibleAppend(a: string, b: string)
    ensures Visible(a + b) == Visible(a) + Visible(b)
  {
    hide IsSpace;
    if a == "" {
      assert a + b == b;
    } else {
      assert (a + b)[1..] == a[1..] + b;
      VisibleAppend(a[1..], b);
    }
  }

  lemma {:induction false} SpaceIsNotVisible(s: string)
    requires AllSpace(s)
    ensures Visible(s) == ""
  {
    if s != "" {
      SpaceIsNotVisible(s[1..]);
    }
  }

  /** What surrounds a block that is taken out keeps all its visible characters in order, and a blank line separates the
      text before from the text behind. */
  lemma SurroundingsAreKept(before: string, after: string)
    ensures var joined := Rejoin(TrimEnd(before), TrimStart(after));
            && Visible(joined) == Visible(before) + Visible(after)
            && (!AllSpace(before) && !AllSpace(after) ==> joined == TrimEnd(before) + "\n\n" + TrimStart(after))
  {
    hide TrimEnd, TrimStart, Visible, IsSpace;
    var right := TrimEndSplits(before);
    var left := TrimStartSplits(after);
    var b, a := TrimEnd(before), TrimStart(after);
    SpaceIsNotVisible(right);
    SpaceIsNotVisible(left);
    SeamIsSpace();
    VisibleAppend(b, right);
    VisibleAppend(left, a);
    VisibleAppend(b, a);
    VisibleAppend(b + "\n\n", a);
    VisibleAppend(b, "\n\n");
    assert b == "" ==> right == before;
    assert a == "" ==> left == after;
  }

  lemma SeamIsSpace()
    ensures Visible("\n\n") == ""
  {
    SpaceIsNotVisible("\n\n");
  }

  method FindTheEnd(text: string, start: nat) returns (depth: nat, finish: int)
    requires start + |Begin()| <= |text|
    ensures (finish == -1 || depth != 0) <==> Close(text, start + |Begin()|, 1).None?
    ensures Close(text, start + |Begin()|, 1).Some? ==> finish == Close(text, start + |Begin()|, 1).value
  {
    hide Begin, End, TokenFrom;
    var cursor: nat := start + |Begin()|;
    depth, finish := 1, -1;
    while depth > 0
      invariant 0 < cursor <= |text|
      invariant depth > 0 ==> Close(text, start + |Begin()|, 1) == Close(text, cursor, depth)
      invariant depth == 0 ==>
                Close(text, start + |Begin()|, 1).Some? && finish == Close(text, start + |Begin()|, 1).value
      decreases |text| - cursor, depth
    {
      var nextBegin := FindToken(text, Begin(), cursor);
      var nextEnd := FindToken(text, End(), cursor);
      if nextEnd.None? {
        break;
      }
      TokenIsLater(text, End(), cursor);
      if nextBegin.Some? {
        TokenIsLater(text, Begin(), cursor);
      }
      if nextBegin.Some? && nextBegin.value < nextEnd.value {
        depth := depth + 1;
        cursor := nextBegin.value + |Begin()|;
        continue;
      }
      depth := depth - 1;
      finish := nextEnd.value;
      cursor := nextEnd.value + |End()|;
    }
  }

  lemma TokenIsLater(text: string, token: string, from: nat)
    requires from > 0 && FindToken(text, token, from).Some?
    ensures from < FindToken(text, token, from).value && FindToken(text, token, from).value + |token| <= |text|
  {
  }

  lemma StripStep(text: string, start: nat, finish: nat)
    requires FindToken(text, Begin(), 0) == Some(start) && start + |Begin()| <= |text|
    requires Close(text, start + |Begin()|, 1) == Some(finish)
    ensures finish + |End()| <= |text|
    ensures var next := Rejoin(TrimEnd(text[..start]), TrimStart(text[finish + |End()|..]));
            |next| < |text| && Strip(text) == Strip(next)
  {
    hide Begin, End, FindToken, Close, TrimStart, TrimEnd, Rejoin;
    RemovalShortens(text, start, finish);
  }

  lemma StripEnds(text: string)
    ensures FindToken(text, Begin(), 0) == None ==> Strip(text) == text
    ensures FindToken(text, Begin(), 0).Some? ==>
              var start := FindToken(text, Begin(), 0).value;
              start + |Begin()| <= |text|
                && (Close(text, start + |Begin()|, 1) == None ==> Strip(text) == TrimEnd(text[..start]))
  {
    hide Begin, End, Close, TrimStart, TrimEnd, Rejoin;
  }

  method StripDelimitedBlock(text: string) returns (next: string)
    ensures next == Strip(text)
  {
    hide Begin, End, Close, TrimStart, TrimEnd, FindToken, Strip;
    next := text;
    while true
      invariant Strip(next) == Strip(text)
      decreases |next|
    {
      StripEnds(next);
      var start := FindToken(next, Begin(), 0);
      if start.None? {
        return next;
      }
      var depth, finish := FindTheEnd(next, start.value);
      var before := TrimEnd(next[..start.value]);
      if finish == -1 || depth != 0 {
        return before;
      }
      StripStep(next, start.value, finish);
      var after := TrimStart(next[finish + |End()|..]);
      next := if before != "" && after != "" then before + "\n\n" + after else before + after;
    }
  }

  // ----- what is removed is balanced -----

  function Change(text: string, k: nat): int {
    (if TokenAt(text, Begin(), k) then 1 else 0) - (if TokenAt(text, End(), k) then 1 else 0)
  }

  /** Begin lines minus end lines that start in `text[from..to]`. */
  function Level(text: string, from: nat, upto: nat): int
    decreases upto - from
  {
    if from >= upto then 0 else Level(text, from, upto - 1) + Change(text, upto - 1)
  }

  ghost predicate NoDelimiterIn(text: string, from: nat, upto: nat) {
    forall k: nat :: from <= k < upto ==> !TokenAt(text, Begin(), k) && !TokenAt(text, End(), k)
  }

  lemma {:induction false} LevelIsFlat(text: string, from: nat, upto: nat)
    requires from <= upto && NoDelimiterIn(text, from, upto)
    ensures Level(text, from, upto) == 0
    decreases upto
  {
    hide TokenAt;
    if from < upto {
      LevelIsFlat(text, from, upto - 1);
    }
  }

  lemma {:induction false} LevelAdds(text: string, a: nat, b: nat, c: nat)
    requires a <= b <= c
    ensures Level(text, a, c) == Level(text, a, b) + Level(text, b, c)
    decreases c
  {
    hide TokenAt;
    if b < c {
      LevelAdds(text, a, b, c - 1);
    }
  }

  /** No delimiter line starts inside a delimiter or right behind it. */
  lemma NoDelimiterInside(text: string, token: string, k: nat)
    requires token in {Begin(), End()} && TokenAt(text, token, k)
    ensures NoDelimiterIn(text, k + 1, k + |token| + 1)
  {
    hide Begin, End;
    forall j: nat | k + 1 <= j < k + |token| + 1 ensures !TokenAt(text, Begin(), j) && !TokenAt(text, End(), j) {
      assert text[j - 1] == text[k..k + |token|][j - 1 - k];
      assert text[j - 1] == token[j - 1 - k];
    }
  }

  /** Two different delimiters cannot start at one place. */
  lemma DelimitersDiffer(text: string, k: nat)
    ensures !(TokenAt(text, Begin(), k) && TokenAt(text, End(), k))
  {
    assert Begin()[3] == 'B' && End()[3] == 'E';
    if k + |Begin()| <= |text| {
      assert text[k..k + |Begin()|][3] == text[k + 3] == text[k..k + |End()|][3];
    }
  }

  predicate CursorIsBehind(text: string, cursor: nat) {
    0 < cursor <= |text| && text[cursor - 1] != '\n'
  }

  /** Up to the next delimiter the level does not change. */
  lemma NextDelimiterIs(text: string, cursor: nat, next: nat)
    requires CursorIsBehind(text, cursor) && cursor <= next
    requires forall j: nat :: j < next ==> !TokenFrom(text, Begin(), cursor, j) && !TokenFrom(text, End(), cursor, j)
    ensures NoDelimiterIn(text, cursor, next)
  {
    hide Begin, End, OccursAt;
    forall k: nat | cursor <= k < next ensures !TokenAt(text, Begin(), k) && !TokenAt(text, End(), k) {
      assert !TokenFrom(text, Begin(), cursor, k) && !TokenFrom(text, End(), cursor, k);
    }
  }

  ghost predicate StaysPositive(text: string, cursor: nat, depth: nat, until: nat) {
    forall k: nat :: cursor <= k <= until ==> depth + Level(text, cursor, k) > 0
  }

  /** The end that is found closes exactly what was opened: before it more lines begin a block than end one, behind it
      as many. If no end is found, the block is open up to the end of the text. */
  lemma {:induction false} CloseBalances(text: string, cursor: nat, depth: nat)
    requires CursorIsBehind(text, cursor) && depth > 0
    ensures Balances(text, cursor, depth)
    decreases |text| - cursor
  {
    hide Begin, End, TokenAt, TokenFrom, Level, StaysPositive, Balances, NoDelimiterIn;
    var nextBegin, nextEnd := FindToken(text, Begin(), cursor), FindToken(text, End(), cursor);
    if nextEnd.None? {
      NoEndStaysPositive(text, cursor, depth);
      OpenBalances(text, cursor, depth);
    } else if nextBegin.Some? && nextBegin.value < nextEnd.value {
      TokenComesNext(text, cursor, Begin(), nextBegin.value);
      CloseStep(text, cursor, depth, Begin(), nextBegin.value);
      CloseBalances(text, nextBegin.value + |Begin()|, depth + 1);
      PassOn(text, cursor, depth, nextBegin.value + |Begin()|, depth + 1);
    } else {
      TokenComesNext(text, cursor, End(), nextEnd.value);
      if depth == 1 {
        FlatStaysPositive(text, cursor, depth, nextEnd.value);
        TokenFromIsAt(text, End(), cursor, nextEnd.value);
        LevelAtEnd(text, cursor, nextEnd.value);
        ClosedBalances(text, cursor, nextEnd.value);
      } else {
        CloseStep(text, cursor, depth, End(), nextEnd.value);
        CloseBalances(text, nextEnd.value + |End()|, depth - 1);
        PassOn(text, cursor, depth, nextEnd.value + |End()|, depth - 1);
      }
    }
  }

  ghost predicate Balances(text: string, cursor: nat, depth: nat)
    requires cursor > 0 && depth > 0
  {
    match Close(text, cursor, depth)
    case Some(finish) =>
      && StaysPositive(text, cursor, depth, finish) && depth + Level(text, cursor, finish + 1) == 0
      && TokenAt(text, End(), finish)
    case None => StaysPositive(text, cursor, depth, |text|)
  }

  lemma OpenBalances(text: string, cursor: nat, depth: nat)
    requires cursor > 0 && depth > 0 && Close(text, cursor, depth).None? && StaysPositive(text, cursor, depth, |text|)
    ensures Balances(text, cursor, depth)
  {
  }

  lemma ClosedBalances(text: string, cursor: nat, finish: nat)
    requires cursor > 0 && Close(text, cursor, 1) == Some(finish) && StaysPositive(text, cursor, 1, finish)
    requires Level(text, cursor, finish + 1) == -1 && TokenAt(text, End(), finish)
    ensures Balances(text, cursor, 1)
  {
    hide Close, StaysPositive, Level, TokenAt, End;
  }

  /** What is balanced from a later delimiter on is balanced from here. */
  lemma PassOn(text: string, cursor: nat, depth: nat, later: nat, deeper: nat)
    requires 0 < cursor <= later && depth > 0 && deeper > 0 && deeper == depth + Level(text, cursor, later)
    requires Close(text, cursor, depth) == Close(text, later, deeper)
    requires StaysPositive(text, cursor, depth, later) && Balances(text, later, deeper)
    ensures Balances(text, cursor, depth)
  {
    hide Close, StaysPositive, Level, TokenAt, End;
    match Close(text, cursor, depth)
    case Some(finish) => Onwards(text, cursor, depth, later, deeper, finish);
    case None => Onwards(text, cursor, depth, later, deeper, |text|);
  }

  lemma TokenComesNext(text: string, cursor: nat, token: string, next: nat)
    requires CursorIsBehind(text, cursor) && token in {Begin(), End()} && FindToken(text, token, cursor) == Some(next)
    requires FindToken(text, Begin(), cursor).None? || FindToken(text, Begin(), cursor).value >= next
    requires FindToken(text, End(), cursor).None? || FindToken(text, End(), cursor).value >= next
    ensures cursor < next && NoDelimiterIn(text, cursor, next) && TokenFrom(text, token, cursor, next)
  {
    hide Begin, End, FindToken, TokenFrom;
    TokenIsLater(text, token, cursor);
    FirstIsFirst(text, cursor, next);
    NextDelimiterIs(text, cursor, next);
  }

  lemma TokenFromIsAt(text: string, token: string, from: nat, k: nat)
    requires TokenFrom(text, token, from, k)
    ensures TokenAt(text, token, k)
  {
  }

  lemma FirstIsFirst(text: string, cursor: nat, next: nat)
    requires FindToken(text, Begin(), cursor).None? || FindToken(text, Begin(), cursor).value >= next
    requires FindToken(text, End(), cursor).None? || FindToken(text, End(), cursor).value >= next
    ensures forall j: nat :: j < next ==> !TokenFrom(text, Begin(), cursor, j) && !TokenFrom(text, End(), cursor, j)
  {
    hide Begin, End, TokenFrom;
  }

  lemma LevelAtEnd(text: string, cursor: nat, next: nat)
    requires cursor <= next && NoDelimiterIn(text, cursor, next) && TokenAt(text, End(), next)
    ensures Level(text, cursor, next + 1) == -1
  {
    hide Begin, End, TokenAt;
    LevelIsFlat(text, cursor, next);
    DelimitersDiffer(text, next);
  }

  lemma FlatStaysPositive(text: string, cursor: nat, depth: nat, next: nat)
    requires depth > 0 && NoDelimiterIn(text, cursor, next)
    ensures StaysPositive(text, cursor, depth, next)
  {
    hide TokenAt;
    forall k: nat | cursor <= k <= next ensures depth + Level(text, cursor, k) > 0 {
      LevelIsFlat(text, cursor, k);
    }
  }

  /** Without another end line the level cannot fall. */
  lemma NoEndStaysPositive(text: string, cursor: nat, depth: nat)
    requires CursorIsBehind(text, cursor) && depth > 0 && FindToken(text, End(), cursor).None?
    ensures StaysPositive(text, cursor, depth, |text|)
  {
    hide Begin, End, OccursAt, FindToken;
    forall k: nat | cursor <= k <= |text| ensures depth + Level(text, cursor, k) > 0 {
      forall j: nat | cursor <= j ensures !TokenAt(text, End(), j) {
        assert !TokenFrom(text, End(), cursor, j);
      }
      NeverFalls(text, cursor, k);
    }
  }

  lemma {:induction false} NeverFalls(text: string, from: nat, upto: nat)
    requires forall j: nat :: from <= j ==> !TokenAt(text, End(), j)
    ensures Level(text, from, upto) >= 0
    decreases upto
  {
    hide Begin, End, TokenAt;
    if from < upto {
      NeverFalls(text, from, upto - 1);
    }
  }

  /** Passing one delimiter: the level up to the new cursor, and on the way there. */
  lemma CloseStep(text: string, cursor: nat, depth: nat, token: string, next: nat)
    requires token in {Begin(), End()} && cursor < next && (token == End() ==> depth > 1) && depth > 0
    requires NoDelimiterIn(text, cursor, next) && TokenFrom(text, token, cursor, next)
    ensures var change := if token == Begin() then 1 else -1;
            && CursorIsBehind(text, next + |token|)
            && Level(text, cursor, next + |token|) == change
            && StaysPositive(text, cursor, depth, next + |token|)
  {
    hide Begin, End, OccursAt, EndsLine, Level, NoDelimiterIn, TokenAt, StaysPositive;
    TokenFromIsAt(text, token, cursor, next);
    NoDelimiterInside(text, token, next);
    BehindToken(text, token, next);
    DelimitersDiffer(text, next);
    LevelSteps(text, cursor, token, next);
    PassingStaysPositive(text, cursor, depth, token, next);
  }

  lemma BehindToken(text: string, token: string, next: nat)
    requires token in {Begin(), End()} && TokenAt(text, token, next)
    ensures CursorIsBehind(text, next + |token|)
  {
    hide Begin, End;
    assert text[next..next + |token|][|token| - 1] == text[next + |token| - 1];
  }

  lemma LevelSteps(text: string, cursor: nat, token: string, next: nat)
    requires token in {Begin(), End()} && cursor <= next && NoDelimiterIn(text, cursor, next)
             && TokenAt(text, token, next)
    ensures forall k: nat :: next < k <= next + |token| ==> Level(text, cursor, k) == if token == Begin() then 1 else -1
  {
    hide Begin, End, TokenAt;
    NoDelimiterInside(text, token, next);
    DelimitersDiffer(text, next);
    LevelIsFlat(text, cursor, next);
    forall k: nat | next < k <= next + |token| ensures Level(text, cursor, k) == if token == Begin() then 1 else -1 {
      LevelIsFlat(text, next + 1, k);
      LevelAdds(text, cursor, next + 1, k);
    }
  }

  lemma PassingStaysPositive(text: string, cursor: nat, depth: nat, token: string, next: nat)
    requires token in {Begin(), End()} && cursor <= next && (token == End() ==> depth > 1) && depth > 0
    requires NoDelimiterIn(text, cursor, next) && TokenAt(text, token, next)
    ensures StaysPositive(text, cursor, depth, next + |token|)
  {
    hide Begin, End, TokenAt, Level, NoDelimiterIn;
    LevelSteps(text, cursor, token, next);
    FlatStaysPositive(text, cursor, depth, next);
  }

  lemma Onwards(text: string, cursor: nat, depth: nat, later: nat, deeper: nat, until: nat)
    requires cursor <= later && deeper == depth + Level(text, cursor, later)
    requires StaysPositive(text, cursor, depth, later) && StaysPositive(text, later, deeper, until)
    ensures StaysPositive(text, cursor, depth, until)
    ensures until + 1 >= later ==> deeper + Level(text, later, until + 1) == depth + Level(text, cursor, until + 1)
  {
    hide Level;
    forall k: nat | cursor <= k <= until ensures depth + Level(text, cursor, k) > 0 {
      if k >= later {
        LevelAdds(text, cursor, later, k);
        assert deeper + Level(text, later, k) > 0;
      }
    }
    if until + 1 >= later {
      LevelAdds(text, cursor, later, until + 1);
    }
  }

  /** A pass starts at the first begin line. What it removes up to the end it finds is balanced, and no shorter part
      from the same start is; without such an end everything from the begin line on is dropped. */
  lemma RemovedRegionIsBalanced(text: string, start: nat)
    requires FindToken(text, Begin(), 0) == Some(start)
    ensures match Close(text, start + |Begin()|, 1)
            case Some(finish) =>
              && Level(text, start, finish + 1) == 0
              && (forall k: nat :: start < k <= finish ==> Level(text, start, k) > 0)
              && NoDelimiterIn(text, finish + 1, finish + |End()| + 1)
            case None => forall k: nat :: start < k <= |text| ==> Level(text, start, k) > 0
  {
    hide Begin, End, OccursAt, EndsLine, Level, FindToken, Close, NoDelimiterIn, TokenAt;
    TokenFromIsAt(text, Begin(), 0, start);
    BehindToken(text, Begin(), start);
    NothingBefore(text, start);
    LevelSteps(text, start, Begin(), start);
    CloseBalances(text, start + |Begin()|, 1);
    var until := match Close(text, start + |Begin()|, 1) case Some(finish) => finish case None => |text|;
    forall k: nat | start < k <= until ensures Level(text, start, k) > 0 {
      if k > start + |Begin()| {
        LevelAdds(text, start, start + |Begin()|, k);
        assert 1 + Level(text, start + |Begin()|, k) > 0;
      }
    }
    if Close(text, start + |Begin()|, 1).Some? {
      LevelAdds(text, start, start + |Begin()|, until + 1);
      NoDelimiterInside(text, End(), until);
    }
  }

  lemma NothingBefore(text: string, start: nat)
    ensures NoDelimiterIn(text, start, start)
  {
  }

  // ----- stripping undoes embedding -----

  /** An occurrence of a newline-free token before a newline is inside the part before it. */
  lemma OccursInside(text: string, lo: nat, hi: nat, token: string, k: nat)
    requires lo <= k < hi < |text| && text[hi] == '\n' && '\n' !in token && token != ""
    requires OccursAt(text, token, k)
    ensures k + |token| <= hi && OccursAt(text[lo..hi], token, k - lo)
  {
    forall j | k <= j < k + |token| ensures text[j] != '\n' {
      assert text[j] == text[k..k + |token|][j - k] == token[j - k];
    }
    var part := text[lo..hi];
    var found := part[k - lo..k - lo + |token|];
    forall i | 0 <= i < |token| ensures found[i] == token[i] {
      assert found[i] == part[k - lo + i] == text[k + i];
    }
    assert found == token;
  }

  predicate StartsLine(before: string) {
    before == "" || before[|before| - 1] == '\n'
  }

  function Embed(before: string, body: string, after: string): string {
    before + Begin() + "\n" + body + "\n" + End() + after
  }

  lemma EmbedParts(before: string, body: string, after: string)
    ensures var text := Embed(before, body, after);
            var n, b, e := |before|, |before| + |Begin()| + 1, |before| + |Begin()| + 1 + |body| + 1;
            && |text| == e + |End()| + |after|
            && text[..n] == before && OccursAt(text, Begin(), n) && text[b - 1] == '\n'
            && text[b..e - 1] == body && text[e - 1] == '\n' && OccursAt(text, End(), e) && text[e + |End()|..] == after
  {
    hide Begin, End, OccursAt;
    var text := Embed(before, body, after);
    assert text == before + (Begin() + "\n" + body + "\n" + End() + after);
    assert text == before + Begin() + ("\n" + body + "\n" + End() + after);
    assert text == (before + Begin() + "\n") + body + ("\n" + End() + after);
    assert text == (before + Begin() + "\n" + body + "\n") + End() + after;
    OccursBetween(before, Begin(), "\n" + body + "\n" + End() + after);
    OccursBetween(before + Begin() + "\n" + body + "\n", End(), after);
  }

  lemma OccursBetween(before: string, token: string, after: string)
    ensures OccursAt(before + token + after, token, |before|)
  {
  }

  /** In front of the block, tokens of the text are tokens of what precedes the block. */
  lemma BlockIsFirst(text: string, before: string)
    requires before <= text && StartsLine(before) && FindToken(before, Begin(), 0) == None
             && TokenAt(text, Begin(), |before|)
    ensures FindToken(text, Begin(), 0) == Some(|before|)
  {
    hide Begin, End, FindToken, OccursAt;
    forall j: nat | j < |before| ensures !TokenFrom(text, Begin(), 0, j) {
      assert !TokenFrom(before, Begin(), 0, j);
      if TokenAt(text, Begin(), j) {
        TokenInFront(text, before, j);
      }
    }
    FindTokenIs(text, Begin(), 0, |before|);
  }

  lemma TokenInFront(text: string, before: string, j: nat)
    requires before <= text && StartsLine(before) && j < |before| && TokenAt(text, Begin(), j)
    ensures TokenAt(before, Begin(), j)
  {
    hide Begin, End;
    var hi := |before| - 1;
    assert text[..|before|] == before && text[hi] == '\n';
    assert text[j..j + |Begin()|][0] == text[j];
    OccursInside(text, 0, hi, Begin(), j);
    assert before[j..j + |Begin()|] == text[j..j + |Begin()|];
  }

  /** Between its delimiter lines the block has no delimiter, so its own end closes it. */
  lemma BlockCloses(before: string, body: string, after: string)
    requires !Contains(body, Begin()) && !Contains(body, End()) && EndsLine(after, 0)
    ensures var c := |before| + |Begin()|;
            Close(Embed(before, body, after), c, 1) == Some(c + |body| + 2)
  {
    hide Begin, End, OccursAt, FindToken, EndsLine;
    var text := Embed(before, body, after);
    var c := |before| + |Begin()|;
    var e := c + |body| + 2;
    EmbedParts(before, body, after);
    EndsLineShift(text, e + |End()|, after);
    forall j: nat | j < e ensures !TokenFrom(text, End(), c, j) && !TokenFrom(text, Begin(), c, j) {
      if c + 1 <= j {
        NoTokenInBody(text, c + 1, e - 1, body, End(), j);
        NoTokenInBody(text, c + 1, e - 1, body, Begin(), j);
      }
    }
    FindTokenIs(text, End(), c, e);
    BeginIsNotBefore(text, c, e);
  }

  lemma BeginIsNotBefore(text: string, cursor: nat, e: nat)
    requires forall j: nat :: j < e ==> !TokenFrom(text, Begin(), cursor, j)
    requires TokenAt(text, End(), e)
    ensures FindToken(text, Begin(), cursor).None? || FindToken(text, Begin(), cursor).value >= e
  {
    hide Begin, End, TokenFrom, TokenAt;
  }

  lemma EndsLineShift(text: string, k: nat, after: string)
    requires k <= |text| && text[k..] == after && EndsLine(after, 0)
    ensures EndsLine(text, k)
  {
    if after != "" {
      assert text[k] == after[0];
      if |after| > 1 {
        assert text[k + 1] == after[1];
      }
    }
  }

  lemma NoTokenInBody(text: string, lo: nat, hi: nat, body: string, token: string, j: nat)
    requires lo <= j <= hi < |text| && text[lo..hi] == body && text[hi] == '\n'
    requires token in {Begin(), End()} && !Contains(body, token)
    ensures !OccursAt(text, token, j)
  {
    hide Begin, End;
    if OccursAt(text, token, j) {
      assert text[j..j + |token|][0] == text[j];
      OccursInside(text, lo, hi, token, j);
    }
  }

  /** Stripping takes an embedded block out: what is left is stripped as if the trimmed surroundings had been joined. */
  lemma EmbeddedBlockIsStripped(before: string, body: string, after: string)
    requires !Contains(body, Begin()) && !Contains(body, End())
    requires StartsLine(before) && EndsLine(after, 0) && FindToken(before, Begin(), 0) == None
    ensures Strip(Embed(before, body, after)) == Strip(Rejoin(TrimEnd(before), TrimStart(after)))
  {
    hide Begin, End, OccursAt, FindToken, EndsLine, Close, Rejoin, TrimEnd, TrimStart, StartsLine;
    var text := Embed(before, body, after);
    var n := |before|;
    EmbedParts(before, body, after);
    assert text[..n] == before && before <= text;
    BlockStartsLine(text, before);
    BlockIsFirst(text, before);
    BlockCloses(before, body, after);
    var e := n + |Begin()| + |body| + 2;
    assert text[e + |End()|..] == after;
  }

  lemma BlockStartsLine(text: string, before: string)
    requires before <= text && StartsLine(before) && OccursAt(text, Begin(), |before|)
    requires |before| + |Begin()| < |text| && text[|before| + |Begin()|] == '\n'
    ensures TokenAt(text, Begin(), |before|)
  {
    hide Begin, End, OccursAt;
  }
}
