/** Shell text as a sequence of words and quotes, and what the scanners make of it, in terms of characters
    (src/agents/bash-tools.exec.ts). */
module ShellGrammar {
  import opened Common
  import opened Text
  import opened ShellScan

  // ----- a grammar of quoting -----

  /** A character between double quotes, or one behind a backslash there. */
  datatype Inner = Raw(c: char) | Behind(c: char)

  datatype Token =
    | Bare(c: char)
    | Escaped(c: char)
    | Single(body: string)
    | Double(inner: seq<Inner>)

  predicate InnerFits(inner: seq<Inner>) {
    forall i :: 0 <= i < |inner| && inner[i].Raw? ==> inner[i].c != '\\' && inner[i].c != '"'
  }

  predicate TokenFits(t: Token) {
    match t
    case Bare(c) => c != '\\' && c != '\'' && c != '"'
    case Escaped(_) => true
    case Single(body) => '\'' !in body
    case Double(inner) => InnerFits(inner)
  }

  predicate AllFit(tokens: seq<Token>) {
    forall i :: 0 <= i < |tokens| ==> TokenFits(tokens[i])
  }

  function InnerText(inner: seq<Inner>): string {
    if inner == [] then ""
    else (match inner[0] case Raw(c) => [c] case Behind(c) => ['\\', c]) + InnerText(inner[1..])
  }

  function TokenText(t: Token): string {
    match t
    case Bare(c) => [c]
    case Escaped(c) => ['\\', c]
    case Single(body) => "'" + body + "'"
    case Double(inner) => "\"" + InnerText(inner) + "\""
  }

  function TextOfTokens(tokens: seq<Token>): string {
    if tokens == [] then "" else TokenText(tokens[0]) + TextOfTokens(tokens[1..])
  }

  /** What is outside quotes; an escape keeps its backslash. */
  function OutsideQuotes(tokens: seq<Token>): string {
    if tokens == [] then ""
    else (if tokens[0].Bare? || tokens[0].Escaped? then TokenText(tokens[0]) else "") + OutsideQuotes(tokens[1..])
  }

  ghost predicate IsShellText(s: string) {
    exists tokens :: AllFit(tokens) && TextOfTokens(tokens) == s
  }

  // ----- scanning tokens -----

  const IN_SINGLE := Quoting(true, false, false)
  const IN_DOUBLE := Quoting(false, true, false)

  lemma ScanCons(c: char, rest: string, q: Quoting)
    ensures Scan([c] + rest, q) == Scan(rest, Advance(q, c))
    ensures Unquoted([c] + rest, q) == Kept(q, c) + Unquoted(rest, Advance(q, c))
  {
    assert ([c] + rest)[1..] == rest;
  }

  lemma {:induction false} ScanSingle(body: string, rest: string)
    requires '\'' !in body
    ensures Scan(body + "'" + rest, IN_SINGLE) == Scan(rest, PLAIN)
    ensures Unquoted(body + "'" + rest, IN_SINGLE) == Unquoted(rest, PLAIN)
  {
    hide Scan, Unquoted;
    if body == "" {
      assert body + "'" + rest == ['\''] + rest;
      ScanCons('\'', rest, IN_SINGLE);
    } else {
      assert body + "'" + rest == [body[0]] + (body[1..] + "'" + rest);
      ScanCons(body[0], body[1..] + "'" + rest, IN_SINGLE);
      ScanSingle(body[1..], rest);
    }
  }

  lemma {:induction false} ScanDouble(inner: seq<Inner>, rest: string)
    requires InnerFits(inner)
    ensures Scan(InnerText(inner) + "\"" + rest, IN_DOUBLE) == Scan(rest, PLAIN)
    ensures Unquoted(InnerText(inner) + "\"" + rest, IN_DOUBLE) == Unquoted(rest, PLAIN)
  {
    hide Scan, Unquoted;
    if inner == [] {
      assert InnerText(inner) + "\"" + rest == ['"'] + rest;
      ScanCons('"', rest, IN_DOUBLE);
    } else {
      var more := InnerText(inner[1..]) + "\"" + rest;
      ScanDouble(inner[1..], rest);
      match inner[0]
      case Raw(c) =>
        assert InnerText(inner) + "\"" + rest == [c] + more;
        ScanCons(c, more, IN_DOUBLE);
      case Behind(c) =>
        assert InnerText(inner) + "\"" + rest == ['\\'] + ([c] + more);
        ScanCons('\\', [c] + more, IN_DOUBLE);
        ScanCons(c, more, Quoting(false, true, true));
    }
  }

  lemma ScanToken(t: Token, rest: string)
    requires TokenFits(t)
    ensures Scan(TokenText(t) + rest, PLAIN) == Scan(rest, PLAIN)
    ensures Unquoted(TokenText(t) + rest, PLAIN) ==
            (if t.Bare? || t.Escaped? then TokenText(t) else "") + Unquoted(rest, PLAIN)
  {
    hide Scan, Unquoted, InnerText, InnerFits;
    match t
    case Bare(c) => ScanCons(c, rest, PLAIN);
    case Escaped(c) =>
      assert TokenText(t) + rest == ['\\'] + ([c] + rest);
      ScanCons('\\', [c] + rest, PLAIN);
      ScanCons(c, rest, Quoting(false, false, true));
    case Single(body) =>
      QuotedText('\'', body, rest);
      ScanCons('\'', body + "'" + rest, PLAIN);
      ScanSingle(body, rest);
    case Double(inner) =>
      QuotedText('"', InnerText(inner), rest);
      ScanCons('"', InnerText(inner) + "\"" + rest, PLAIN);
      ScanDouble(inner, rest);
  }

  lemma QuotedText(quote: char, body: string, rest: string)
    ensures [quote] + body + [quote] + rest == [quote] + (body + [quote] + rest)
  {
  }

  /** Text made of tokens is accepted, and what is extracted is what is outside quotes. */
  lemma {:induction false} TokensAreAccepted(tokens: seq<Token>)
    requires AllFit(tokens)
    ensures Accepted(TextOfTokens(tokens)) && Unquoted(TextOfTokens(tokens), PLAIN) == OutsideQuotes(tokens)
  {
    hide Unquoted, Scan, TokenText, TokenFits;
    if tokens == [] {
      ScanNothing("", PLAIN);
    } else {
      TokensAreAccepted(tokens[1..]);
      ScanToken(tokens[0], TextOfTokens(tokens[1..]));
    }
  }

  // ----- from accepted text to tokens -----

  lemma {:induction false} CloseSingle(s: string) returns (k: nat)
    requires Scan(s, IN_SINGLE) == PLAIN
    ensures k < |s| && s[k] == '\'' && '\'' !in s[..k] && Scan(s[k + 1..], PLAIN) == PLAIN
  {
    if s[0] == '\'' {
      k := 0;
    } else {
      var n := CloseSingle(s[1..]);
      k := n + 1;
      assert s[..k] == [s[0]] + s[1..][..n] && s[k + 1..] == s[1..][n + 1..];
    }
  }

  lemma InnerCons(x: Inner, more: seq<Inner>)
    ensures InnerText([x] + more) == (match x case Raw(c) => [c] case Behind(c) => ['\\', c]) + InnerText(more)
    ensures InnerFits([x] + more) <==> InnerFits([x]) && InnerFits(more)
  {
    var all := [x] + more;
    assert all[1..] == more && all[0] == x && [x][0] == x;
    assert forall i :: 0 <= i < |more| ==> all[i + 1] == more[i];
  }

  lemma ScanFirst(s: string, q: Quoting)
    requires s != ""
    ensures Scan(s, q) == Scan(s[1..], Advance(q, s[0]))
  {
  }

  lemma NothingLeft(q: Quoting)
    ensures Scan("", q) == q
  {
  }

  lemma {:induction false} CloseDouble(s: string) returns (inner: seq<Inner>, k: nat)
    requires Scan(s, IN_DOUBLE) == PLAIN
    ensures k < |s| && s[k] == '"' && InnerFits(inner) && s[..k] == InnerText(inner) && Scan(s[k + 1..], PLAIN) == PLAIN
    decreases |s|
  {
    hide Scan, InnerText, InnerFits;
    NothingLeft(IN_DOUBLE);
    ScanFirst(s, IN_DOUBLE);
    if s[0] == '"' {
      inner, k := [], 0;
      NoInner();
    } else if s[0] == '\\' {
      NothingLeft(Quoting(false, true, true));
      ScanFirst(s[1..], Quoting(false, true, true));
      assert s[1..][1..] == s[2..];
      var more, n := CloseDouble(s[2..]);
      inner, k := [Behind(s[1])] + more, n + 2;
      InnerCons(Behind(s[1]), more);
      OneFits(Behind(s[1]));
      assert s[..k] == [s[0], s[1]] + s[2..][..n] && s[k + 1..] == s[2..][n + 1..];
    } else {
      var more, n := CloseDouble(s[1..]);
      inner, k := [Raw(s[0])] + more, n + 1;
      InnerCons(Raw(s[0]), more);
      OneFits(Raw(s[0]));
      assert s[..k] == [s[0]] + s[1..][..n] && s[k + 1..] == s[1..][n + 1..];
    }
  }

  lemma NoInner()
    ensures InnerText([]) == "" && InnerFits([])
  {
  }

  lemma OneFits(x: Inner)
    ensures InnerFits([x]) <==> (x.Raw? ==> x.c != '\\' && x.c != '"')
  {
    assert [x][0] == x;
  }

  lemma FirstToken(s: string) returns (t: Token)
    requires s != "" && Accepted(s)
    ensures TokenFits(t) && TokenText(t) <= s && TokenText(t) != "" && Accepted(s[|TokenText(t)|..])
  {
    hide Scan, InnerText, InnerFits;
    ScanFirst(s, PLAIN);
    if s[0] == '\\' {
      NothingLeft(Quoting(false, false, true));
      ScanFirst(s[1..], Quoting(false, false, true));
      t := Escaped(s[1]);
      Behind2(s);
    } else if s[0] == '\'' {
      var k := CloseSingle(s[1..]);
      t := Single(s[1..][..k]);
      QuotedFront(s, k, '\'');
    } else if s[0] == '"' {
      var inner, k := CloseDouble(s[1..]);
      t := Double(inner);
      QuotedFront(s, k, '"');
    } else {
      t := Bare(s[0]);
      assert s == [s[0]] + s[1..];
    }
  }

  lemma Behind2(s: string)
    requires |s| >= 2
    ensures [s[0], s[1]] <= s && s[1..][1..] == s[2..]
  {
  }

  lemma QuotedFront(s: string, k: nat, quote: char)
    requires s != "" && s[0] == quote && k < |s[1..]| && s[1..][k] == quote
    ensures [quote] + s[1..][..k] + [quote] <= s && s[k + 2..] == s[1..][k + 1..]
    ensures |[quote] + s[1..][..k] + [quote]| == k + 2
  {
    assert s[..k + 2] == [quote] + s[1..][..k] + [quote];
  }

  lemma {:induction false} TokensOf(s: string) returns (tokens: seq<Token>)
    requires Accepted(s)
    ensures AllFit(tokens) && TextOfTokens(tokens) == s
    decreases |s|
  {
    hide Scan, TokenText, TokenFits;
    if s == "" {
      tokens := [];
    } else {
      var t := FirstToken(s);
      var more := TokensOf(s[|TokenText(t)|..]);
      tokens := [t] + more;
      assert tokens[1..] == more;
      assert s == TokenText(t) + s[|TokenText(t)|..];
    }
  }

  /** A command is accepted exactly when it is made of bare and escaped characters and of closed quotes. */
  lemma AcceptedIff(s: string)
    ensures Accepted(s) <==> IsShellText(s)
  {
    hide Scan, AllFit, TextOfTokens;
    if Accepted(s) {
      var tokens := TokensOf(s);
    }
    if tokens :| AllFit(tokens) && TextOfTokens(tokens) == s {
      TokensAreAccepted(tokens);
    }
  }

  // ----- segments, on characters -----

  /** Position `k` is outside quotes and not escaped: what comes before it is made of whole tokens. */
  ghost predicate IsBareAt(s: string, k: nat) {
    k < |s| && IsShellText(s[..k])
  }

  /** A separator starts here. */
  predicate SeparatorStarts(s: string, k: nat, splitPipes: bool) {
    && k < |s|
    && (|| s[k] == '\n' || s[k] == '\r' || s[k] == ';'
        || (k + 1 < |s| && s[k..k + 2] == "&&")
        || (k + 1 < |s| && s[k..k + 2] == "||")
        || (splitPipes && s[k] == '|'))
  }

  /** No separator starts outside quotes. */
  ghost predicate NoSeparator(s: string, splitPipes: bool) {
    forall k: nat :: IsBareAt(s, k) ==> !SeparatorStarts(s, k, splitPipes)
  }

  lemma LiveIff(s: string, k: nat, splitPipes: bool)
    ensures LiveSeparatorAt(s, k, splitPipes) <==> IsBareAt(s, k) && SeparatorStarts(s, k, splitPipes)
  {
    hide Scan, IsShellText;
    if k < |s| {
      AcceptedIff(s[..k]);
    }
  }

  lemma SettledIff(s: string, splitPipes: bool)
    ensures Settled(s, splitPipes) <==> NoSeparator(s, splitPipes)
  {
    hide LiveSeparatorAt, IsBareAt, SeparatorStarts;
    forall k: nat ensures LiveSeparatorAt(s, k, splitPipes) <==> IsBareAt(s, k) && SeparatorStarts(s, k, splitPipes) {
      LiveIff(s, k, splitPipes);
    }
    if Settled(s, splitPipes) {
      forall k: nat | IsBareAt(s, k) ensures !SeparatorStarts(s, k, splitPipes) {
        assert !LiveSeparatorAt(s, k, splitPipes);
      }
    }
  }

  /** No segment has a separator outside quotes, and each holds more than spaces. */
  lemma SegmentsHaveNoSeparator(s: string, splitPipes: bool)
    ensures forall t :: t in Segments(s, splitPipes) ==> NoSeparator(t, splitPipes) && Trim(t) != ""
  {
    hide Segments, Settled, NoSeparator, Pieces, Trim;
    SegmentsAreFinal(s, splitPipes);
    forall t | t in Segments(s, splitPipes) ensures NoSeparator(t, splitPipes) && Trim(t) != "" {
      SettledIff(t, splitPipes);
      SegmentIsNotBlank(s, splitPipes, t);
    }
  }

  lemma SegmentIsNotBlank(s: string, splitPipes: bool, t: string)
    requires t in Segments(s, splitPipes)
    ensures Trim(t) != ""
  {
    hide Pieces, Trim;
    NonBlankMembers(Pieces(s, splitPipes));
  }

  /** A text without separators outside quotes stays as it is. */
  lemma NoSeparatorOneSegment(s: string, splitPipes: bool)
    requires NoSeparator(s, splitPipes)
    ensures Segments(s, splitPipes) == if Trim(s) == "" then [] else [s]
  {
    hide Segments, Settled, NoSeparator, Pieces, Trim;
    SettledIff(s, splitPipes);
    SettledIsOnePiece(s, splitPipes);
  }

  predicate IsSeparator(sep: string, splitPipes: bool) {
    sep in {"\n", "\r", ";", "&&", "||"} || (splitPipes && sep == "|")
  }

  /** The last character is this one, outside quotes. */
  ghost predicate EndsBare(s: string, c: char) {
    s != "" && s[|s| - 1] == c && IsShellText(s[..|s| - 1])
  }

  /** The separator is the first one at its place: no bar or ampersand before it takes its first character away, and
      no bar behind it makes a single bar a double one. */
  ghost predicate Stands(a: string, sep: string, b: string)
    requires sep != ""
  {
    && (sep[0] == '&' || sep[0] == '|' ==> !EndsBare(a, sep[0]))
    && (sep == "|" && b != "" ==> b[0] != '|')
  }

  lemma SeparatorIsThere(a: string, sep: string, b: string, splitPipes: bool)
    requires IsSeparator(sep, splitPipes) && (sep == "|" && b != "" ==> b[0] != '|')
    ensures SeparatorLength(a + sep + b, |a|, splitPipes) == |sep|
  {
    var s := a + sep + b;
    assert forall i :: 0 <= i < |sep| ==> s[|a| + i] == sep[i];
    assert b != "" ==> s[|a| + |sep|] == b[0];
  }

  /** Inside `a` the same separators start as without what follows. */
  lemma SameInside(a: string, sep: string, b: string, splitPipes: bool, k: nat)
    requires IsSeparator(sep, splitPipes) && Stands(a, sep, b) && k < |a| && Accepted(a[..k])
    ensures SeparatorLength(a + sep + b, k, splitPipes) == SeparatorLength(a, k, splitPipes)
  {
    var s := a + sep + b;
    assert forall i :: 0 <= i < |a| ==> s[i] == a[i];
    if k == |a| - 1 {
      AcceptedIff(a[..k]);
      assert s[|a|] == sep[0];
    }
  }

  lemma NoneBefore(a: string, sep: string, b: string, splitPipes: bool, n: nat)
    requires IsSeparator(sep, splitPipes) && Stands(a, sep, b) && n <= |a|
    ensures NoLiveSeparatorBefore(a + sep + b, n, splitPipes) <==> NoLiveSeparatorBefore(a, n, splitPipes)
  {
    hide SeparatorLength, Stands, IsSeparator, Scan;
    var s := a + sep + b;
    forall k: nat | k < n ensures LiveSeparatorAt(s, k, splitPipes) <==> LiveSeparatorAt(a, k, splitPipes) {
      assert s[..k] == a[..k];
      if Accepted(a[..k]) {
        SameInside(a, sep, b, splitPipes, k);
      }
    }
  }

  /** Cutting a first piece off the front does not change how the text ends. */
  lemma EndsBareBehind(a: string, c: char, cut: nat)
    requires cut <= |a| && Accepted(a[..cut]) && EndsBare(a[cut..], c)
    ensures EndsBare(a, c)
  {
    hide Scan, IsShellText;
    var rest := a[cut..];
    var front := rest[..|rest| - 1];
    AcceptedIff(front);
    AcceptedIff(a[..|a| - 1]);
    ScanAppend(a[..cut], front, PLAIN);
    assert a[..|a| - 1] == a[..cut] + front;
  }

  lemma StandsBehind(a: string, sep: string, b: string, cut: nat)
    requires sep != "" && Stands(a, sep, b) && cut <= |a| && Accepted(a[..cut])
    ensures Stands(a[cut..], sep, b)
  {
    hide Scan, EndsBare;
    if EndsBare(a[cut..], sep[0]) {
      EndsBareBehind(a, sep[0], cut);
    }
  }

  /** At every separator a command is cut: what is before it, if made of whole tokens, and what is behind it have
      their segments one after the other. */
  lemma {:induction false} SegmentsOnEachSide(a: string, sep: string, b: string, splitPipes: bool)
    requires IsShellText(a) && IsSeparator(sep, splitPipes) && Stands(a, sep, b)
    ensures Segments(a + sep + b, splitPipes) == Segments(a, splitPipes) + Segments(b, splitPipes)
    decreases |a|
  {
    hide Segments, Scan, Stands, SeparatorLength, NextSeparator, Trim, IsShellText;
    AcceptedIff(a);
    var s := a + sep + b;
    var first := NextSeparator(a, 0, splitPipes);
    if first.None? {
      NoneBefore(a, sep, b, splitPipes, |a|);
      StandsIsEnough(a, sep, b, splitPipes);
      assert s[..|a|] == a && s[|a| + |sep|..] == b;
      SplitHere(s, |a|, splitPipes);
      SettledIsOnePiece(a, splitPipes);
    } else {
      var k, n := first.value, SeparatorLength(a, first.value, splitPipes);
      NoneBefore(a, sep, b, splitPipes, k);
      SplitHere(a, k, splitPipes);
      assert s[..k] == a[..k];
      SameInside(a, sep, b, splitPipes, k);
      LiveIsLong(a, k, splitPipes);
      SplitHere(s, k, splitPipes);
      ScanSeparator(a, k, splitPipes);
      assert a == a[..k + n] + a[k + n..];
      ScanAppend(a[..k + n], a[k + n..], PLAIN);
      AcceptedIff(a[k + n..]);
      SeparatorIsSome(sep, splitPipes);
      StandsBehind(a, sep, b, k + n);
      SegmentsOnEachSide(a[k + n..], sep, b, splitPipes);
      assert s[k + n..] == a[k + n..] + sep + b;
    }
  }

  lemma SeparatorIsSome(sep: string, splitPipes: bool)
    requires IsSeparator(sep, splitPipes)
    ensures sep != ""
  {
  }

  lemma LiveIsLong(s: string, k: nat, splitPipes: bool)
    requires LiveSeparatorAt(s, k, splitPipes)
    ensures SeparatorLength(s, k, splitPipes) > 0 && Accepted(s[..k])
  {
  }

  lemma StandsIsEnough(a: string, sep: string, b: string, splitPipes: bool)
    requires IsSeparator(sep, splitPipes) && Stands(a, sep, b) && Accepted(a)
    ensures LiveSeparatorAt(a + sep + b, |a|, splitPipes) && SeparatorLength(a + sep + b, |a|, splitPipes) == |sep|
  {
    hide Scan, SeparatorLength;
    SeparatorIsThere(a, sep, b, splitPipes);
    assert (a + sep + b)[..|a|] == a;
  }
}
