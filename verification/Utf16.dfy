/** Slicing UTF-16 text without splitting a character (src/utils.ts). */
module Utf16 {
  import opened Common

  type Units = seq<nat>

  predicate IsHigh(unit: nat) {
    0xD800 <= unit <= 0xDBFF
  }

  predicate IsLow(unit: nat) {
    0xDC00 <= unit <= 0xDFFF
  }

  /** How many units the first character takes: a surrogate pair takes two. */
  function FirstLength(s: Units): (n: nat)
    requires s != []
    ensures 1 <= n <= 2 && n <= |s|
  {
    if |s| > 1 && IsHigh(s[0]) && IsLow(s[1]) then 2 else 1
  }

  /** Every surrogate is part of a pair (section 3.9 of the Unicode Standard). */
  predicate IsWellFormed(s: Units) {
    s == [] || (var n := FirstLength(s);
                (n == 1 ==> !IsHigh(s[0]) && !IsLow(s[0])) && IsWellFormed(s[n..]))
  }

  /** The index lies between the halves of a pair. */
  predicate SplitsPair(s: Units, i: int) {
    0 < i < |s| && IsHigh(s[i - 1]) && IsLow(s[i])
  }

  function Clamp(x: int, low: int, high: int): int {
    if x < low then low else if x > high then high else x
  }

  /** A negative index counts from the end. */
  function Absolute(len: nat, index: int): (r: nat)
    ensures r <= len
  {
    if index < 0 then Clamp(len + index, 0, len) else Clamp(index, 0, len)
  }

  function RoundUp(s: Units, i: int): int {
    if SplitsPair(s, i) then i + 1 else i
  }

  function RoundDown(s: Units, i: int): int {
    if SplitsPair(s, i) then i - 1 else i
  }

  function Between(s: Units, from: int, upto: int): Units {
    if 0 <= from <= upto <= |s| then s[from..upto] else []
  }

  /** The bounds in order, whichever way round they are given. */
  function Bounds(len: nat, start: int, end: Option<int>): (r: (nat, nat))
    ensures r.0 <= r.1 <= len
  {
    var from, upto := Absolute(len, start), if end.None? then len else Absolute(len, end.value);
    if upto < from then (upto, from) else (from, upto)
  }

  /** The characters that lie wholly between two indices. */
  function WholeCharacters(s: Units, from: int, upto: int): Units
    decreases |s|
  {
    if s == [] then []
    else
      var n := FirstLength(s);
      (if from <= 0 && n <= upto then s[..n] else []) + WholeCharacters(s[n..], from - n, upto - n)
  }

  lemma RoundedSliceIs(s: Units, from: nat, upto: nat)
    requires from <= upto <= |s|
    ensures var low := if SplitsPair(s, from) then from + 1 else from;
            var high := if SplitsPair(s, upto) then upto - 1 else upto;
            0 <= high && low <= |s| && high <= |s|
              && RoundedSlice(s, from, upto) == if low <= high then s[low..high] else []
  {
  }

  method SliceUtf16Safe(input: Units, start: int, end: Option<int>) returns (r: Units)
    ensures var bounds := Bounds(|input|, start, end);
            && r == RoundedSlice(input, bounds.0, bounds.1)
            && (IsWellFormed(input) ==> r == WholeCharacters(input, bounds.0, bounds.1) && IsWellFormed(r))
  {
    hide IsWellFormed, WholeCharacters, RoundedSlice, Absolute;
    var len := |input|;
    var from: int := Absolute(len, start);
    var upto: int := if end.None? then len else Absolute(len, end.value);
    if upto < from {
      from, upto := upto, from;
    }
    ghost var low, high := from, upto;
    assert (low, high) == Bounds(len, start, end);
    RoundedSliceIs(input, low, high);
    if 0 < from < len && IsLow(input[from]) && IsHigh(input[from - 1]) {
      from := from + 1;
    }
    if 0 < upto < len && IsHigh(input[upto - 1]) && IsLow(input[upto]) {
      upto := upto - 1;
    }
    if IsWellFormed(input) {
      SliceIsWholeCharacters(input, low, high);
      WholeCharactersAreWellFormed(input, low, high);
    }
    return if from <= upto then input[from..upto] else [];
  }

  lemma {:induction false} NothingAhead(s: Units, from: int, upto: int)
    requires upto <= 0
    ensures WholeCharacters(s, from, upto) == []
    decreases |s|
  {
    if s != [] {
      NothingAhead(s[FirstLength(s)..], from - FirstLength(s), upto - FirstLength(s));
    }
  }

  /** In well-formed text, indices inside the rest split a pair there exactly when they do in the whole. */
  lemma SplitsInRest(s: Units, i: int)
    requires IsWellFormed(s) && s != []
    ensures var n := FirstLength(s);
            && (i > n ==> (SplitsPair(s, i) <==> SplitsPair(s[n..], i - n)))
            && (i == n ==> !SplitsPair(s, i))
            && (i == 1 ==> (SplitsPair(s, i) <==> n == 2))
  {
  }

  function RoundedSlice(s: Units, from: int, upto: int): Units {
    Between(s, RoundUp(s, Clamp(from, 0, |s|)), RoundDown(s, upto))
  }

  lemma BoundsInRest(s: Units, i: int)
    requires IsWellFormed(s) && s != [] && FirstLength(s) <= i <= |s|
    ensures var n := FirstLength(s);
            && RoundUp(s, i) == n + RoundUp(s[n..], i - n) && RoundDown(s, i) == n + RoundDown(s[n..], i - n)
            && n <= RoundDown(s, i) <= |s| && n <= RoundUp(s, i) <= |s|
  {
    hide IsWellFormed;
    SplitsInRest(s, i);
  }

  lemma NoneFits(s: Units, from: int, upto: int)
    requires IsWellFormed(s) && s != [] && from <= upto < FirstLength(s)
    ensures RoundedSlice(s, from, upto) == []
  {
    hide IsWellFormed;
    SplitsInRest(s, 1);
  }

  lemma BetweenInRest(s: Units, n: nat, low: int, high: int)
    requires n <= low <= |s| && n <= high <= |s|
    ensures Between(s[n..], low - n, high - n) == Between(s, low, high)
  {
    if low <= high {
      assert s[n..][low - n..high - n] == s[low..high];
    }
  }

  function WithFirst(s: Units, n: nat, tail: Units): Units
    requires n <= |s|
  {
    s[..n] + tail
  }

  lemma BetweenFromStart(s: Units, n: nat, high: int)
    requires n <= high <= |s|
    ensures WithFirst(s, n, Between(s[n..], 0, high - n)) == Between(s, 0, high)
  {
    assert s[..n] + s[n..][..high - n] == s[..high];
  }

  lemma ClampInRest(len: nat, n: nat, i: int)
    requires n <= len && i <= len
    ensures i <= 0 ==> Clamp(i, 0, len) == 0
    ensures i <= n ==> Clamp(i - n, 0, len - n) == 0
    ensures i >= n ==> Clamp(i, 0, len) == i && Clamp(i - n, 0, len - n) == i - n
    ensures 0 < i < n ==> Clamp(i, 0, len) == i
  {
  }

  lemma RoundedSliceAt(s: Units, from: int, upto: int, low: int, high: int)
    requires RoundUp(s, Clamp(from, 0, |s|)) == low && RoundDown(s, upto) == high
    ensures RoundedSlice(s, from, upto) == Between(s, low, high)
  {
  }

  lemma StepFromStart(s: Units, from: int, upto: int)
    requires IsWellFormed(s) && s != [] && from <= 0 && FirstLength(s) <= upto <= |s|
    ensures var n := FirstLength(s);
            RoundedSlice(s, from, upto) == WithFirst(s, n, RoundedSlice(s[n..], from - n, upto - n))
  {
    hide IsWellFormed, SplitsPair, RoundUp, RoundDown, Between, FirstLength, Clamp, RoundedSlice, WithFirst;
    var n := FirstLength(s);
    var rest, high := s[n..], RoundDown(s, upto);
    BoundsInRest(s, upto);
    NoSplitAtStart(s);
    NoSplitAtStart(rest);
    ClampInRest(|s|, n, from);
    RoundedSliceAt(s, from, upto, 0, high);
    RoundedSliceAt(rest, from - n, upto - n, 0, high - n);
    BetweenFromStart(s, n, high);
  }

  lemma StepBehind(s: Units, from: int, upto: int)
    requires IsWellFormed(s) && s != [] && 0 < from <= upto && FirstLength(s) <= upto <= |s|
    ensures var n := FirstLength(s);
            RoundedSlice(s, from, upto) == RoundedSlice(s[n..], from - n, upto - n)
  {
    hide IsWellFormed, SplitsPair, RoundUp, RoundDown, Between, FirstLength, Clamp, RoundedSlice;
    var n := FirstLength(s);
    var rest, high := s[n..], RoundDown(s, upto);
    BoundsInRest(s, upto);
    NoSplitAtStart(rest);
    ClampInRest(|s|, n, from);
    if from < n {
      InsideFirst(s, from);
      RoundedSliceAt(s, from, upto, n, high);
      RoundedSliceAt(rest, from - n, upto - n, 0, high - n);
      BetweenInRest(s, n, n, high);
    } else {
      BoundsInRest(s, from);
      var low := RoundUp(s, from);
      RoundedSliceAt(s, from, upto, low, high);
      RoundedSliceAt(rest, from - n, upto - n, low - n, high - n);
      BetweenInRest(s, n, low, high);
    }
  }

  lemma InsideFirst(s: Units, from: int)
    requires IsWellFormed(s) && s != [] && 0 < from < FirstLength(s)
    ensures RoundUp(s, from) == FirstLength(s)
  {
    hide IsWellFormed;
    SplitsInRest(s, from);
  }

  lemma NoSplitAtStart(s: Units)
    ensures RoundUp(s, 0) == 0
  {
  }

  /** Rounding the bounds inwards to character boundaries gives the characters wholly between them, and no others. */
  lemma {:induction false} SliceIsWholeCharacters(s: Units, from: int, upto: int)
    requires IsWellFormed(s) && from <= upto <= |s|
    ensures WholeCharacters(s, from, upto) == RoundedSlice(s, from, upto)
    decreases |s|
  {
    hide RoundedSlice, FirstLength, IsWellFormed;
    if s == [] {
      NothingToSlice(from, upto);
    } else {
      var n := FirstLength(s);
      if upto < n {
        NothingAhead(s[n..], from - n, upto - n);
        NoneFits(s, from, upto);
      } else {
        RestIsWellFormed(s);
        SliceIsWholeCharacters(s[n..], from - n, upto - n);
        if from <= 0 {
          StepFromStart(s, from, upto);
        } else {
          StepBehind(s, from, upto);
        }
      }
    }
  }

  lemma RestIsWellFormed(s: Units)
    requires IsWellFormed(s) && s != []
    ensures IsWellFormed(s[FirstLength(s)..])
  {
  }

  lemma NothingToSlice(from: int, upto: int)
    ensures RoundedSlice([], from, upto) == []
  {
  }

  lemma {:induction false} WholeCharactersAreWellFormed(s: Units, from: int, upto: int)
    requires IsWellFormed(s)
    ensures IsWellFormed(WholeCharacters(s, from, upto))
    decreases |s|
  {
    if s != [] {
      var n := FirstLength(s);
      WholeCharactersAreWellFormed(s[n..], from - n, upto - n);
      var rest := WholeCharacters(s[n..], from - n, upto - n);
      if from <= 0 && n <= upto {
        FirstStaysFirst(s, n, rest);
      } else {
        assert [] + rest == rest;
      }
    }
  }

  lemma FirstStaysFirst(s: Units, n: nat, rest: Units)
    requires s != [] && n == FirstLength(s) && IsWellFormed(s) && IsWellFormed(rest)
    ensures IsWellFormed(s[..n] + rest)
  {
    var all := s[..n] + rest;
    assert all[0] == s[0] && all[n..] == rest;
    assert n == 2 ==> all[1] == s[1];
    assert FirstLength(all) == n;
  }

  /** At most one unit is lost at each end. */
  lemma AtMostOneUnitLost(s: Units, from: nat, upto: nat)
    requires IsWellFormed(s) && from <= upto <= |s|
    ensures upto - from - 2 <= |WholeCharacters(s, from, upto)| <= upto - from
  {
    hide IsWellFormed, WholeCharacters;
    SliceIsWholeCharacters(s, from, upto);
  }

  method TruncateUtf16Safe(input: Units, maxLen: real) returns (r: Units)
    ensures var limit := if maxLen < 0.0 then 0 else maxLen.Floor;
            && r <= input && |r| <= limit
            && |r| == (if |input| <= limit then |input| else RoundDown(input, limit))
    ensures IsWellFormed(input) ==> IsWellFormed(r)
  {
    hide IsWellFormed, WholeCharacters;
    var limit := if maxLen.Floor < 0 then 0 else maxLen.Floor;
    if |input| <= limit {
      return input;
    }
    r := SliceUtf16Safe(input, 0, Some(limit));
  }
}
