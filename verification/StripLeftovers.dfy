/** What stripping delimited blocks can leave behind (src/agents/internal-runtime-context.ts). */
module StripLeftovers {
  import opened Common
  import opened Text
  import opened InternalContext

  // ----- what a strip can leave -----

  predicate EndsInTokenLine(s: string, token: string) {
    |s| >= |token| && TokenAt(s, token, |s| - |token|)
  }

  /** A pass that finds no end drops everything from its begin line on; this is what it keeps. */
  function KeptWhenOpen(text: string): Option<string>
    decreases |text|
  {
    match FindToken(text, Begin(), 0)
    case None => None
    case Some(start) =>
      var before := TrimEnd(text[..start]);
      match Close(text, start + |Begin()|, 1)
      case None => Some(before)
      case Some(finish) =>
        RemovalShortens(text, start, finish);
        KeptWhenOpen(Rejoin(before, TrimStart(text[finish + |End()|..])))
  }

  lemma TokenInPrefix(text: string, before: string, token: string, j: nat)
    requires before <= text && TokenAt(before, token, j) && j + |token| < |before|
    ensures TokenAt(text, token, j)
  {
    assert text[..|before|] == before;
    assert before[j..j + |token|] == text[j..j + |token|];
  }

  /** What is kept in front of the first begin line has a begin line only if trimming has made one at its end. */
  lemma KeptHasBeginIff(text: string, start: nat)
    requires FindToken(text, Begin(), 0) == Some(start) && start <= |text|
    ensures var before := TrimEnd(text[..start]);
            FindToken(before, Begin(), 0).Some? <==> EndsInTokenLine(before, Begin())
  {
    hide Begin, TokenAt, FindToken;
    var before := TrimEnd(text[..start]);
    var cut := TrimEndSplits(text[..start]);
    assert before <= text;
    if EndsInTokenLine(before, Begin()) {
      assert TokenFrom(before, Begin(), 0, |before| - |Begin()|);
    }
    if FindToken(before, Begin(), 0).Some? {
      var j := FindToken(before, Begin(), 0).value;
      TokenFits(before, Begin(), j);
      if j + |Begin()| < |before| {
        TokenInPrefix(text, before, Begin(), j);
        assert !TokenFrom(text, Begin(), 0, j);
      }
    }
  }

  lemma TokenFits(text: string, token: string, k: nat)
    requires TokenFrom(text, token, 0, k)
    ensures TokenAt(text, token, k) && k + |token| <= |text|
  {
  }

  /** A stripped text has no begin line, except when a block without an end was cut off behind a line that trimming
      turned into a begin line. */
  lemma {:induction false} StrippedHasBeginIff(text: string)
    ensures FindToken(Strip(text), Begin(), 0).Some?
            <==> KeptWhenOpen(text).Some? && EndsInTokenLine(KeptWhenOpen(text).value, Begin())
    decreases |text|
  {
    hide Begin, End, FindToken, Close, Rejoin, TrimEnd, TrimStart, EndsInTokenLine;
    var start := FindToken(text, Begin(), 0);
    if start.Some? {
      KeptHasBeginIff(text, start.value);
      var finish := Close(text, start.value + |Begin()|, 1);
      if finish.Some? {
        RemovalShortens(text, start.value, finish.value);
        StrippedHasBeginIff(Rejoin(TrimEnd(text[..start.value]), TrimStart(text[finish.value + |End()|..])));
      }
    }
  }

  /** Such a text: a begin line with a trailing space, and a begin line with no end. */
  lemma SomeBeginIsLeft()
    ensures var text := Begin() + " \n" + Begin();
            Strip(text) == Begin() && FindToken(Strip(text), Begin(), 0).Some?
  {
    hide Begin, End, FindToken;
    var text := Begin() + " \n" + Begin();
    var n := |Begin()| + 2;
    assert text[n..] == Begin() && text[n..n + |Begin()|] == Begin() && text[n - 1] == '\n' && text[n - 2] == ' ';
    assert text[..n] == Begin() + " \n";
    forall j: nat | j < n ensures !TokenFrom(text, Begin(), 0, j) {
      if 0 < j {
        assert text[j - 1] == if j - 1 < |Begin()| then Begin()[j - 1] else ' ';
      }
    }
    FindTokenIs(text, Begin(), 0, n);
    NoTokenAfter(text, n + |Begin()|);
    TrimEndUnique(Begin(), " \n");
    assert OccursAt(Begin(), Begin(), 0);
    FindTokenIs(Begin(), Begin(), 0, 0);
  }

  lemma NoTokenAfter(text: string, cursor: nat)
    requires cursor == |text| && cursor > 0
    ensures FindToken(text, End(), cursor) == None
  {
    hide Begin, End, FindToken;
    var r := FindToken(text, End(), cursor);
    assert r.Some? ==> TokenFrom(text, End(), cursor, r.value);
  }

  // ----- a condition on the text before the strip -----

  ghost predicate BlankBefore(text: string, k: nat)
    requires k <= |text|
  {
    exists a: nat :: a <= k && (a == 0 || text[a - 1] == '\n') && AllSpace(text[a..k])
  }

  ghost predicate BlankAfter(text: string, b: nat)
    requires b <= |text|
  {
    exists e: nat :: b <= e <= |text| && (e == |text| || text[e] == '\n') && AllSpace(text[b..e])
  }

  /** A line that trimming would turn into a begin line, if it is not one already. */
  ghost predicate AlmostBegin(text: string, k: nat) {
    OccursAt(text, Begin(), k) && BlankBefore(text, k) && BlankAfter(text, k + |Begin()|)
  }

  /** Every line that is a begin line after trimming is one before. */
  ghost predicate BeginsAreTidy(text: string) {
    forall k: nat :: AlmostBegin(text, k) ==> TokenAt(text, Begin(), k)
  }

  lemma BlankBeforeInPrefix(before: string, text: string, k: nat)
    requires before <= text && k <= |before|
    ensures BlankBefore(before, k) <==> BlankBefore(text, k)
  {
    hide IsSpace;
    assert text[..|before|] == before;
    assert forall a: nat :: a <= k ==> before[a..k] == text[a..k];
  }

  /** What is blank up to the end of a trimmed front is at its very end. */
  lemma BlankInFront(text: string, before: string, b: nat)
    requires before <= text && b <= |before| && before != "" && !IsSpace(before[|before| - 1])
    requires BlankAfter(text, b)
    ensures b == |before| || exists e: nat :: b <= e < |before| && before[e] == '\n' && AllSpace(before[b..e])
  {
    hide IsSpace;
    assert text[..|before|] == before;
    var e: nat :| b <= e <= |text| && (e == |text| || text[e] == '\n') && AllSpace(text[b..e]);
    SpacesAre(text, b, e);
    assert text[|before| - 1] == before[|before| - 1];
    if e < |before| {
      assert before[b..e] == text[b..e];
      assert before[e] == '\n';
    }
  }

  /** In a tidy text nothing in front of the first begin line is almost one, trimmed or not. */
  lemma FrontHasNoBegin(text: string, start: nat, joined: string, k: nat)
    requires BeginsAreTidy(text) && FindToken(text, Begin(), 0) == Some(start) && start + |Begin()| <= |text|
    requires var before := TrimEnd(text[..start]); before <= joined && k + |Begin()| <= |before|
    ensures !AlmostBegin(joined, k)
  {
    hide Begin, FindToken, OccursAt, IsSpace, TrimEnd, BlankAfter, BlankBefore, EndsLine;
    var before := TrimEnd(text[..start]);
    var cut := TrimEndSplits(text[..start]);
    assert before <= text;
    OccursInPrefix(before, joined, Begin(), k);
    OccursInPrefix(before, text, Begin(), k);
    BlankBeforeInPrefix(before, joined, k);
    BlankBeforeInPrefix(before, text, k);
    NoneIsBefore(text, start, k);
    if AlmostBegin(joined, k) {
      BlankInFront(joined, before, k + |Begin()|);
      BlankGoesOn(text, start, before, cut, k);
    }
  }

  lemma NoneIsBefore(text: string, start: nat, k: nat)
    requires FindToken(text, Begin(), 0) == Some(start) && k < start
    ensures TokenAt(text, Begin(), start) && !TokenAt(text, Begin(), k)
  {
    hide Begin, OccursAt, EndsLine;
    assert !TokenFrom(text, Begin(), 0, k);
  }

  lemma BlankGoesOn(text: string, start: nat, before: string, cut: string, k: nat)
    requires start <= |text| && text[..start] == before + cut && AllSpace(cut) && k + |Begin()| <= |before|
    requires OccursAt(text, Begin(), k) && TokenAt(text, Begin(), start)
    requires var b := k + |Begin()|;
             b == |before| || exists e: nat :: b <= e < |before| && before[e] == '\n' && AllSpace(before[b..e])
    ensures BlankAfter(text, k + |Begin()|)
  {
    hide Begin, IsSpace, EndsLine;
    var b := k + |Begin()|;
    assert text[..|before|] == before;
    if b == |before| {
      BlankInCut(text, start, before, cut, k);
    } else {
      var e: nat :| b <= e < |before| && before[e] == '\n' && AllSpace(before[b..e]);
      SliceOfPrefix(text, |before|, b, e);
      assert text[e] == '\n';
    }
  }

  lemma BlankInCut(text: string, start: nat, before: string, cut: string, k: nat)
    requires start <= |text| && text[..start] == before + cut && AllSpace(cut) && k + |Begin()| == |before|
    requires OccursAt(text, Begin(), k) && TokenAt(text, Begin(), start)
    ensures BlankAfter(text, |before|)
  {
    hide Begin, IsSpace, EndsLine;
    var b := |before|;
    assert text[b - 1] == text[k..b][|Begin()| - 1] == Begin()[|Begin()| - 1];
    assert text[start - 1] == '\n';
    assert text[b..start - 1] == cut[..start - 1 - b];
    assert AllSpace(text[b..start - 1]);
  }

  lemma BlankAfterInSuffix(text: string, after: string, shift: nat, b: nat)
    requires shift <= |text| && text[shift..] == after && b <= |after|
    ensures BlankAfter(after, b) <==> BlankAfter(text, shift + b)
  {
    hide IsSpace;
    if BlankAfter(after, b) {
      var e: nat :| b <= e <= |after| && (e == |after| || after[e] == '\n') && AllSpace(after[b..e]);
      SliceOfSuffix(text, shift, b, e);
      assert shift + e == |text| || text[shift + e] == '\n';
    }
    if BlankAfter(text, shift + b) {
      var e: nat :| shift + b <= e <= |text| && (e == |text| || text[e] == '\n') && AllSpace(text[shift + b..e]);
      var f: nat := e - shift;
      SliceOfSuffix(text, shift, b, f);
      assert b <= f <= |after| && (f == |after| || after[f] == '\n') && AllSpace(after[b..f]);
    }
  }

  lemma EndsLineInSuffix(text: string, after: string, shift: nat, k: nat)
    requires shift <= |text| && text[shift..] == after && k <= |after|
    ensures EndsLine(after, k) <==> EndsLine(text, shift + k)
  {
  }

  /** White space behind an end line holds the newline that ends the line. */
  lemma BlankBehindEnd(text: string, from: nat, upto: nat)
    requires from < upto < |text| && EndsLine(text, from) && AllSpace(text[from..upto]) && !IsSpace(text[upto])
    ensures BlankBefore(text, upto)
  {
    var a := if text[from] == '\n' then from + 1 else from + 2;
    assert a <= upto;
    assert text[a..upto] == text[from..upto][a - from..];
  }

  /** Where the text behind a removed block is blank up to a token, the original is too. */
  lemma BlankBeforeBehind(text: string, from: nat, joined: string, at: nat, k: nat)
    requires from <= |text| && EndsLine(text, from) && at <= |joined| && joined[at..] == TrimStart(text[from..])
    requires k < |joined| && at <= k && !IsSpace(joined[k]) && BlankBefore(joined, k)
    ensures |joined| - k <= |text| && BlankBefore(text, |text| - (|joined| - k))
  {
    hide EndsLine, TrimStart, IsSpace;
    var after := TrimStart(text[from..]);
    var cut := TrimStartSplits(text[from..]);
    var shift := from + |cut|;
    assert text[shift..] == text[from..][|cut|..] == after;
    var a: nat :| a <= k && (a == 0 || joined[a - 1] == '\n') && AllSpace(joined[a..k]);
    if a > at {
      BlankInSuffix(joined, at, text, shift, a - at, k - at);
    } else {
      SpacesAre(joined, a, k);
      assert joined[at] == after[0];
      assert k == at;
      assert text[shift] == after[0];
      BlankUpToAfter(text, from, shift, cut);
    }
  }

  lemma BlankInSuffix(joined: string, at: nat, text: string, shift: nat, i: nat, j: nat)
    requires at <= |joined| && shift <= |text| && joined[at..] == text[shift..]
    requires 0 < i <= j && at + j <= |joined| && joined[at + i - 1] == '\n' && AllSpace(joined[at + i..at + j])
    ensures shift + j <= |text| && BlankBefore(text, shift + j)
  {
    hide AllSpace;
    var after := text[shift..];
    assert |joined| - at == |text| - shift;
    SliceOfSuffix(joined, at, i, j);
    SliceOfSuffix(text, shift, i, j);
    assert joined[at + i - 1] == after[i - 1] == text[shift + i - 1];
    assert AllSpace(text[shift + i..shift + j]);
  }

  lemma BlankUpToAfter(text: string, from: nat, shift: nat, cut: string)
    requires from <= shift < |text| && EndsLine(text, from) && text[from..shift] == cut && AllSpace(cut)
             && !IsSpace(text[shift])
    ensures BlankBefore(text, shift)
  {
    BlankBehindEnd(text, from, shift);
  }

  /** Almost a begin line behind the seam: it was one in the original, and still is. */
  lemma BehindSeamIsTidy(text: string, from: nat, joined: string, at: nat, k: nat)
    requires BeginsAreTidy(text) && from <= |text| && EndsLine(text, from)
    requires at <= |joined| && joined[at..] == TrimStart(text[from..]) && (at == 0 || joined[at - 1] == '\n')
    requires at <= k && AlmostBegin(joined, k)
    ensures TokenAt(joined, Begin(), k)
  {
    hide Begin, EndsLine, TrimStart, IsSpace, BlankBefore, BlankAfter, OccursAt;
    var after := TrimStart(text[from..]);
    var cut := TrimStartSplits(text[from..]);
    var shift := |text| - |after|;
    assert text[shift..] == text[from..][|cut|..] == after;
    var i := k - at;
    BeginFits(joined, k);
    OccursInSuffix(joined, after, at, Begin(), i);
    OccursInSuffix(text, after, shift, Begin(), i);
    BlankAfterInSuffix(joined, after, at, i + |Begin()|);
    BlankAfterInSuffix(text, after, shift, i + |Begin()|);
    EndsLineInSuffix(joined, after, at, i + |Begin()|);
    EndsLineInSuffix(text, after, shift, i + |Begin()|);
    BlankBeforeBehind(text, from, joined, at, k);
    assert AlmostBegin(text, shift + i);
    assert TokenAt(text, Begin(), shift + i);
    if i > 0 {
      assert joined[k - 1] == after[i - 1] == text[shift + i - 1];
    }
  }

  lemma BeginFits(text: string, k: nat)
    requires OccursAt(text, Begin(), k)
    ensures k + |Begin()| <= |text| && text[k] == '<' && !IsSpace(text[k])
  {
    hide Begin;
    assert text[k..k + |Begin()|][0] == text[k];
  }

  /** A pass keeps a tidy text tidy. */
  lemma PassKeepsTidy(text: string, start: nat, finish: nat)
    requires BeginsAreTidy(text) && FindToken(text, Begin(), 0) == Some(start) && start + |Begin()| <= |text|
    requires TokenAt(text, End(), finish) && finish + |End()| <= |text|
    ensures BeginsAreTidy(Rejoin(TrimEnd(text[..start]), TrimStart(text[finish + |End()|..])))
  {
    hide Begin, End, FindToken, EndsLine, TrimStart, TrimEnd, AlmostBegin, BeginsAreTidy, OccursAt;
    var before, after := TrimEnd(text[..start]), TrimStart(text[finish + |End()|..]);
    var joined := Rejoin(before, after);
    var at := |joined| - |after|;
    forall k: nat | AlmostBegin(joined, k) ensures TokenAt(joined, Begin(), k) {
      AlmostIsThere(joined, k);
      if k + |Begin()| <= |before| {
        FrontHasNoBegin(text, start, joined, k);
      } else {
        NotAcrossSeam(before, after, k);
        BehindSeamIsTidy(text, finish + |End()|, joined, at, k);
      }
    }
    TidyIsThat(joined);
  }

  lemma AlmostIsThere(text: string, k: nat)
    requires AlmostBegin(text, k)
    ensures OccursAt(text, Begin(), k)
  {
  }

  lemma TidyIsThat(text: string)
    requires forall k: nat :: AlmostBegin(text, k) ==> TokenAt(text, Begin(), k)
    ensures BeginsAreTidy(text)
  {
    hide AlmostBegin, TokenAt, Begin;
  }

  /** The newlines of the seam are no part of a token. */
  lemma NotAcrossSeam(before: string, after: string, k: nat)
    requires OccursAt(Rejoin(before, after), Begin(), k) && k + |Begin()| > |before|
    ensures |Rejoin(before, after)| - |after| <= k
  {
    hide Begin;
    var joined := Rejoin(before, after);
    forall i | k <= i < k + |Begin()| ensures joined[i] != '\n' {
      assert joined[i] == joined[k..k + |Begin()|][i - k] == Begin()[i - k];
    }
    if before != "" && after != "" {
      assert joined[|before|] == '\n' && joined[|before| + 1] == '\n';
    }
  }

  /** A text whose begin lines are tidy is stripped of all of them. */
  lemma {:induction false} TidyTextKeepsNoBegin(text: string)
    requires BeginsAreTidy(text)
    ensures FindToken(Strip(text), Begin(), 0) == None
    decreases |text|
  {
    hide Begin, End, FindToken, Close, Rejoin, TrimEnd, TrimStart, BeginsAreTidy, TokenAt, Strip, Level, StaysPositive,
         CursorIsBehind;
    StripEnds(text);
    if FindToken(text, Begin(), 0).Some? {
      var start := FindToken(text, Begin(), 0).value;
      FirstIsAt(text, start);
      BehindToken(text, Begin(), start);
      CloseBalances(text, start + |Begin()|, 1);
      if Close(text, start + |Begin()|, 1).Some? {
        var finish := Close(text, start + |Begin()|, 1).value;
        StripStep(text, start, finish);
        PassKeepsTidy(text, start, finish);
        TidyTextKeepsNoBegin(Rejoin(TrimEnd(text[..start]), TrimStart(text[finish + |End()|..])));
      } else {
        TidyFrontKeepsNoBegin(text, start);
      }
    }
  }

  lemma FirstIsAt(text: string, start: nat)
    requires FindToken(text, Begin(), 0) == Some(start)
    ensures TokenAt(text, Begin(), start)
  {
    hide Begin;
  }

  lemma TidyFrontKeepsNoBegin(text: string, start: nat)
    requires BeginsAreTidy(text) && FindToken(text, Begin(), 0) == Some(start) && start + |Begin()| <= |text|
    ensures FindToken(TrimEnd(text[..start]), Begin(), 0) == None
  {
    hide Begin, BeginsAreTidy, TrimEnd, FindToken, EndsLine, AlmostBegin;
    var before := TrimEnd(text[..start]);
    var r := FindToken(before, Begin(), 0);
    if r.Some? {
      FirstIsAt(before, r.value);
      TokenIsAlmost(before, r.value);
      FrontHasNoBegin(text, start, before, r.value);
    }
  }

  lemma TokenIsAlmost(text: string, k: nat)
    requires TokenAt(text, Begin(), k)
    ensures k + |Begin()| <= |text| && AlmostBegin(text, k)
  {
    hide Begin, OccursAt, IsSpace;
    BeginFits(text, k);
    var b := k + |Begin()|;
    assert AllSpace(text[k..k]);
    if b + 1 < |text| && text[b] == '\r' {
      CarriageIsSpace();
      assert text[b..b + 1] == ['\r'];
      assert AllSpace(text[b..b + 1]) && text[b + 1] == '\n';
    } else {
      assert AllSpace(text[b..b]);
    }
  }

  lemma CarriageIsSpace()
    ensures IsSpace('\r')
  {
  }
}
