/** The two hand-written shell quote scanners (src/agents/bash-tools.exec.ts). */
module ShellScan {
  import opened Common
  import opened Text

  /** Where a scanner stands: inside which quotes, and whether the last character was a live backslash. */
  datatype Quoting = Quoting(inSingle: bool, inDouble: bool, escaped: bool)

  const PLAIN := Quoting(false, false, false)

  function Advance(q: Quoting, ch: char): Quoting {
    if q.escaped then q.(escaped := false)
    else if !q.inSingle && ch == '\\' then q.(escaped := true)
    else if q.inSingle then q.(inSingle := ch != '\'')
    else if q.inDouble then q.(inDouble := ch != '"')
    else if ch == '\'' then q.(inSingle := true)
    else if ch == '"' then q.(inDouble := true)
    else q
  }

  /** The quoting after scanning `s` from `q`. */
  function Scan(s: string, q: Quoting): Quoting {
    if s == "" then q else Scan(s[1..], Advance(q, s[0]))
  }

  lemma {:induction false} ScanAppend(a: string, b: string, q: Quoting)
    ensures Scan(a + b, q) == Scan(b, Scan(a, q))
  {
    if a == "" {
      assert a + b == b;
    } else {
      assert (a + b)[1..] == a[1..] + b;
      ScanAppend(a[1..], b, Advance(q, a[0]));
    }
  }

  lemma ScanOne(s: string, i: nat, q: Quoting)
    requires i < |s|
    ensures Scan(s[..i + 1], q) == Advance(Scan(s[..i], q), s[i])
  {
    assert s[..i + 1] == s[..i] + [s[i]];
    ScanAppend(s[..i], [s[i]], q);
    assert Scan([s[i]], Scan(s[..i], q)) == Scan("", Advance(Scan(s[..i], q), s[i]));
  }

  /** What the extractor keeps of one character. */
  function Kept(q: Quoting, ch: char): string {
    if q.inSingle || q.inDouble then ""
    else if q.escaped then ['\\', ch]
    else if ch == '\\' || ch == '\'' || ch == '"' then ""
    else [ch]
  }

  function Unquoted(s: string, q: Quoting): string {
    if s == "" then "" else Kept(q, s[0]) + Unquoted(s[1..], Advance(q, s[0]))
  }

  lemma {:induction false} UnquotedAppend(a: string, b: string, q: Quoting)
    ensures Unquoted(a + b, q) == Unquoted(a, q) + Unquoted(b, Scan(a, q))
  {
    if a == "" {
      assert a + b == b;
    } else {
      assert (a + b)[1..] == a[1..] + b;
      UnquotedAppend(a[1..], b, Advance(q, a[0]));
    }
  }

  lemma ScanNothing(s: string, q: Quoting)
    requires s == ""
    ensures Scan(s, q) == q && Unquoted(s, q) == ""
  {
  }

  lemma UnquotedOne(s: string, i: nat, q: Quoting)
    requires i < |s|
    ensures Unquoted(s[i..], q) == Kept(q, s[i]) + Unquoted(s[i + 1..], Advance(q, s[i]))
  {
    assert s[i..][0] == s[i] && s[i..][1..] == s[i + 1..];
  }

  /** A command is accepted when no quote and no backslash is left open at its end. */
  predicate Accepted(s: string) {
    Scan(s, PLAIN) == PLAIN
  }

  method ExtractUnquotedShellText(raw: string) returns (r: Option<string>)
    ensures r.Some? <==> Accepted(raw)
    ensures r.Some? ==> r.value == Unquoted(raw, PLAIN)
  {
    hide Scan, Unquoted;
    var out := "";
    var inSingle, inDouble, escaped := false, false, false;
    var i := 0;
    assert raw[..0] == "" && raw[0..] == raw;
    ScanNothing(raw[..0], PLAIN);
    while i < |raw|
      invariant 0 <= i <= |raw|
      invariant Scan(raw[..i], PLAIN) == Quoting(inSingle, inDouble, escaped)
      invariant !(inSingle && inDouble) && !(inSingle && escaped)
      invariant Unquoted(raw, PLAIN) == out + Unquoted(raw[i..], Quoting(inSingle, inDouble, escaped))
    {
      var ch := raw[i];
      ScanOne(raw, i, PLAIN);
      UnquotedOne(raw, i, Quoting(inSingle, inDouble, escaped));
      i := i + 1;
      if escaped {
        if !inSingle && !inDouble {
          out := out + ['\\', ch];
        }
        escaped := false;
      } else if !inSingle && ch == '\\' {
        escaped := true;
      } else if inSingle {
        if ch == '\'' {
          inSingle := false;
        }
      } else if inDouble {
        // The source looks for a backslash here; the branch above has already taken it.
        if ch == '"' {
          inDouble := false;
        }
      } else if ch == '\'' {
        inSingle := true;
      } else if ch == '"' {
        inDouble := true;
      } else {
        out := out + [ch];
      }
    }
    assert raw[..|raw|] == raw && raw[|raw|..] == "";
    ScanNothing(raw[|raw|..], Quoting(inSingle, inDouble, escaped));
    if escaped || inSingle || inDouble {
      return None;
    }
    return Some(out);
  }

  // ----- splitting at live separators -----

  /** The length of the separator that starts at `i`, or 0. */
  function SeparatorLength(s: string, i: nat, splitPipes: bool): (n: nat)
    requires i <= |s|
    ensures i + n <= |s|
  {
    if i == |s| then 0
    else if s[i] == '\n' || s[i] == '\r' || s[i] == ';' then 1
    else if i + 1 < |s| && s[i] == '&' && s[i + 1] == '&' then 2
    else if i + 1 < |s| && s[i] == '|' && s[i + 1] == '|' then 2
    else if splitPipes && s[i] == '|' then 1
    else 0
  }

  /** A separator outside all quotes and not escaped. */
  predicate LiveSeparatorAt(s: string, i: nat, splitPipes: bool) {
    i < |s| && Scan(s[..i], PLAIN) == PLAIN && SeparatorLength(s, i, splitPipes) > 0
  }

  ghost predicate NoLiveSeparatorBefore(s: string, n: nat, splitPipes: bool) {
    forall i: nat :: i < n ==> !LiveSeparatorAt(s, i, splitPipes)
  }

  function NextSeparator(s: string, from: nat, splitPipes: bool): (r: Option<nat>)
    requires from <= |s|
    ensures r.Some? ==> from <= r.value && LiveSeparatorAt(s, r.value, splitPipes)
    ensures r.Some? ==> forall i: nat :: from <= i < r.value ==> !LiveSeparatorAt(s, i, splitPipes)
    ensures r.None? ==> forall i: nat :: from <= i ==> !LiveSeparatorAt(s, i, splitPipes)
    decreases |s| - from
  {
    if from == |s| then None
    else if LiveSeparatorAt(s, from, splitPipes) then Some(from)
    else NextSeparator(s, from + 1, splitPipes)
  }

  /** A stretch between two live separators, and the separator that ends it (empty for the last). */
  datatype Piece = Piece(text: string, separator: string)

  /** Cut `s` at each live separator, leftmost first. */
  function Pieces(s: string, splitPipes: bool): seq<Piece>
    decreases |s|
  {
    match NextSeparator(s, 0, splitPipes)
    case None => [Piece(s, "")]
    case Some(k) =>
      var n := SeparatorLength(s, k, splitPipes);
      [Piece(s[..k], s[k..k + n])] + Pieces(s[k + n..], splitPipes)
  }

  /** The pieces that hold more than spaces. */
  function NonBlank(pieces: seq<Piece>): seq<string> {
    if pieces == [] then []
    else (if |Trim(pieces[0].text)| > 0 then [pieces[0].text] else []) + NonBlank(pieces[1..])
  }

  function Segments(s: string, splitPipes: bool): seq<string> {
    NonBlank(Pieces(s, splitPipes))
  }

  /** What looking ahead sees of `raw[from..]` is what it sees of `raw`. */
  lemma SeparatorLengthShift(s: string, from: nat, i: nat, splitPipes: bool)
    requires from <= i <= |s|
    ensures SeparatorLength(s[from..], i - from, splitPipes) == SeparatorLength(s, i, splitPipes)
  {
  }

  method SplitShellSegmentsOutsideQuotes(raw: string, splitPipes: bool) returns (segments: seq<string>)
    ensures segments == Segments(raw, splitPipes)
  {
    hide Segments, Trim, Scan, ScannedTo;
    segments := [];
    var buf := "";
    var inSingle, inDouble, escaped := false, false, false;
    var i := 0;
    ghost var start := 0; // where the current segment began
    assert raw[0..] == raw;
    ScannedNothing(raw, splitPipes);
    while i < |raw|
      invariant 0 <= start <= i <= |raw|
      invariant buf == raw[start..i]
      invariant ScannedTo(raw[start..], i - start, Quoting(inSingle, inDouble, escaped), splitPipes)
      invariant !(inSingle && inDouble) && !(inSingle && escaped)
      invariant Segments(raw, splitPipes) == segments + Segments(raw[start..], splitPipes)
    {
      var ch := raw[i];
      var width := 0;
      ghost var before := Quoting(inSingle, inDouble, escaped);
      if escaped {
        escaped := false;
      } else if !inSingle && ch == '\\' {
        escaped := true;
      } else if inSingle {
        if ch == '\'' {
          inSingle := false;
        }
      } else if inDouble {
        if ch == '"' {
          inDouble := false;
        }
      } else if ch == '\'' {
        inSingle := true;
      } else if ch == '"' {
        inDouble := true;
      } else if ch == '\n' || ch == '\r' {
        width := 1;
      } else if ch == ';' {
        width := 1;
      } else if ch == '&' && i + 1 < |raw| && raw[i + 1] == '&' {
        width := 2;
      } else if ch == '|' && i + 1 < |raw| && raw[i + 1] == '|' {
        width := 2;
      } else if splitPipes && ch == '|' {
        width := 1;
      }
      SeparatorLengthShift(raw, start, i, splitPipes);
      if width > 0 {
        SplitAtScanned(raw, start, i, splitPipes);
        if |Trim(buf)| > 0 {
          segments := segments + [buf];
        }
        buf := "";
        i := i + width;
        start := i;
      } else {
        Extend(raw[start..], i - start, before, splitPipes);
        buf := buf + [ch];
        i := i + 1;
      }
    }
    assert raw[start..] == buf;
    ScannedAll(buf, Quoting(inSingle, inDouble, escaped), splitPipes);
    SettledIsOnePiece(buf, splitPipes);
    if |Trim(buf)| > 0 {
      segments := segments + [buf];
    }
  }

  /** The first `n` characters lead to `q` and hold no live separator. */
  ghost predicate ScannedTo(s: string, n: nat, q: Quoting, splitPipes: bool) {
    n <= |s| && Scan(s[..n], PLAIN) == q && NoLiveSeparatorBefore(s, n, splitPipes)
  }

  lemma ScannedNothing(s: string, splitPipes: bool)
    ensures ScannedTo(s, 0, PLAIN, splitPipes)
  {
  }

  lemma ScannedAll(s: string, q: Quoting, splitPipes: bool)
    requires ScannedTo(s, |s|, q, splitPipes)
    ensures Scan(s, PLAIN) == q && Settled(s, splitPipes)
  {
    assert s[..|s|] == s;
  }

  lemma Extend(s: string, n: nat, q: Quoting, splitPipes: bool)
    requires n < |s| && ScannedTo(s, n, q, splitPipes)
    requires q != PLAIN || SeparatorLength(s, n, splitPipes) == 0
    ensures ScannedTo(s, n + 1, Advance(q, s[n]), splitPipes)
  {
    ScanOne(s, n, PLAIN);
  }

  lemma SplitAtScanned(raw: string, start: nat, i: nat, splitPipes: bool)
    requires start <= i < |raw| && ScannedTo(raw[start..], i - start, PLAIN, splitPipes)
    requires SeparatorLength(raw, i, splitPipes) > 0
    ensures var n := SeparatorLength(raw, i, splitPipes);
            && Segments(raw[start..], splitPipes) ==
               (if |Trim(raw[start..i])| > 0 then [raw[start..i]] else []) + Segments(raw[i + n..], splitPipes)
            && ScannedTo(raw[i + n..], 0, PLAIN, splitPipes)
  {
    hide Segments, Trim, Scan;
    var rest := raw[start..];
    SeparatorLengthShift(raw, start, i, splitPipes);
    SplitHere(rest, i - start, splitPipes);
    var n := SeparatorLength(raw, i, splitPipes);
    assert rest[..i - start] == raw[start..i];
    assert rest[i - start + n..] == raw[i + n..];
    ScannedNothing(raw[i + n..], splitPipes);
  }

  lemma SplitHere(s: string, k: nat, splitPipes: bool)
    requires LiveSeparatorAt(s, k, splitPipes) && NoLiveSeparatorBefore(s, k, splitPipes)
    ensures var n := SeparatorLength(s, k, splitPipes);
            Segments(s, splitPipes) ==
            (if |Trim(s[..k])| > 0 then [s[..k]] else []) + Segments(s[k + n..], splitPipes)
  {
    var n := SeparatorLength(s, k, splitPipes);
    PiecesHere(s, k, splitPipes);
    var all := Pieces(s, splitPipes);
    assert all[0] == Piece(s[..k], s[k..k + n]) && all[1..] == Pieces(s[k + n..], splitPipes);
  }

  lemma PiecesHere(s: string, k: nat, splitPipes: bool)
    requires LiveSeparatorAt(s, k, splitPipes) && NoLiveSeparatorBefore(s, k, splitPipes)
    ensures var n := SeparatorLength(s, k, splitPipes);
            Pieces(s, splitPipes) == [Piece(s[..k], s[k..k + n])] + Pieces(s[k + n..], splitPipes)
  {
    var r := NextSeparator(s, 0, splitPipes);
    assert r.Some?;
    assert r.value == k;
  }

  lemma SettledIsOnePiece(s: string, splitPipes: bool)
    requires Settled(s, splitPipes)
    ensures Pieces(s, splitPipes) == [Piece(s, "")]
    ensures Segments(s, splitPipes) == if |Trim(s)| > 0 then [s] else []
  {
    assert NextSeparator(s, 0, splitPipes).None?;
    var one := [Piece(s, "")];
    assert NonBlank(one) == (if |Trim(s)| > 0 then [s] else []) + NonBlank(one[1..]);
  }

  // ----- what the two scanners have in common -----

  /** Scanning across a live separator changes nothing. */
  lemma ScanSeparator(s: string, k: nat, splitPipes: bool)
    requires LiveSeparatorAt(s, k, splitPipes)
    ensures Scan(s[..k + SeparatorLength(s, k, splitPipes)], PLAIN) == PLAIN
  {
    ScanOne(s, k, PLAIN);
    if SeparatorLength(s, k, splitPipes) == 2 {
      ScanOne(s, k + 1, PLAIN);
    }
  }

  /** The pieces with their separators, in order, are the command: nothing is lost or reordered. */
  lemma {:induction false} PiecesCover(s: string, splitPipes: bool)
    ensures Reassembled(Pieces(s, splitPipes)) == s
    decreases |s|
  {
    hide NextSeparator, Scan, Pieces, Reassembled;
    match NextSeparator(s, 0, splitPipes)
    case None =>
      SettledIsOnePiece(s, splitPipes);
      ReassembledOne(s);
    case Some(k) =>
      var n := SeparatorLength(s, k, splitPipes);
      PiecesHere(s, k, splitPipes);
      PiecesCover(s[k + n..], splitPipes);
      ReassembledCons(Piece(s[..k], s[k..k + n]), Pieces(s[k + n..], splitPipes));
      assert s == s[..k] + s[k..k + n] + s[k + n..];
  }

  lemma ReassembledOne(s: string)
    ensures Reassembled([Piece(s, "")]) == s
  {
    assert Reassembled([Piece(s, "")]) == s + "" + Reassembled([]);
  }

  lemma ReassembledCons(first: Piece, rest: seq<Piece>)
    ensures Reassembled([first] + rest) == first.text + first.separator + Reassembled(rest)
  {
    assert ([first] + rest)[1..] == rest;
  }

  function Reassembled(pieces: seq<Piece>): string {
    if pieces == [] then "" else pieces[0].text + pieces[0].separator + Reassembled(pieces[1..])
  }

  /** Cutting a prefix at a neutral point keeps every earlier position as live as it was,
      except that a two-character separator may lose its second half. */
  lemma PrefixHasNoLiveSeparator(s: string, k: nat, splitPipes: bool)
    requires k <= |s| && NoLiveSeparatorBefore(s, k, splitPipes)
    ensures forall i: nat :: !LiveSeparatorAt(s[..k], i, splitPipes)
  {
    forall i: nat | i < k ensures !LiveSeparatorAt(s[..k], i, splitPipes) {
      assert s[..k][..i] == s[..i];
      assert !LiveSeparatorAt(s, i, splitPipes);
    }
  }

  ghost predicate Settled(segment: string, splitPipes: bool) {
    forall i: nat :: !LiveSeparatorAt(segment, i, splitPipes)
  }

  lemma {:induction false} PiecesAreSettled(s: string, splitPipes: bool)
    ensures forall p :: p in Pieces(s, splitPipes) ==> Settled(p.text, splitPipes)
    decreases |s|
  {
    hide Pieces, Settled, NextSeparator, SeparatorLength, LiveSeparatorAt;
    FirstPiece(s, splitPipes);
    match NextSeparator(s, 0, splitPipes)
    case None =>
    case Some(k) =>
      PiecesAreSettled(s[k + SeparatorLength(s, k, splitPipes)..], splitPipes);
  }

  lemma FirstPiece(s: string, splitPipes: bool)
    ensures match NextSeparator(s, 0, splitPipes)
            case None => Pieces(s, splitPipes) == [Piece(s, "")] && Settled(s, splitPipes)
            case Some(k) =>
              var n := SeparatorLength(s, k, splitPipes);
              && n > 0 && Settled(s[..k], splitPipes)
              && Pieces(s, splitPipes) == [Piece(s[..k], s[k..k + n])] + Pieces(s[k + n..], splitPipes)
  {
    hide Scan, SeparatorLength;
    if NextSeparator(s, 0, splitPipes).Some? {
      PrefixHasNoLiveSeparator(s, NextSeparator(s, 0, splitPipes).value, splitPipes);
    }
  }

  /** A command is accepted exactly when each piece is. */
  lemma {:induction false} AcceptedPieceByPiece(s: string, splitPipes: bool)
    ensures Accepted(s) <==> forall p :: p in Pieces(s, splitPipes) ==> Accepted(p.text)
    decreases |s|
  {
    match NextSeparator(s, 0, splitPipes)
    case None =>
      assert Pieces(s, splitPipes)[0] == Piece(s, "");
    case Some(k) =>
      var n := SeparatorLength(s, k, splitPipes);
      ScanSeparator(s, k, splitPipes);
      assert s == s[..k + n] + s[k + n..];
      ScanAppend(s[..k + n], s[k + n..], PLAIN);
      AcceptedPieceByPiece(s[k + n..], splitPipes);
      var all := Pieces(s, splitPipes);
      assert all == [Piece(s[..k], s[k..k + n])] + Pieces(s[k + n..], splitPipes);
      assert forall p :: p in all <==> p == all[0] || p in Pieces(s[k + n..], splitPipes);
  }

  lemma {:induction false} NonBlankMembers(pieces: seq<Piece>)
    ensures forall t :: t in NonBlank(pieces) ==> |Trim(t)| > 0 && exists p :: p in pieces && p.text == t
    ensures forall p :: p in pieces && |Trim(p.text)| > 0 ==> p.text in NonBlank(pieces)
  {
    if pieces != [] {
      NonBlankMembers(pieces[1..]);
      assert forall p :: p in pieces <==> p == pieces[0] || p in pieces[1..];
    }
  }

  lemma {:induction false} SpacesAreAccepted(s: string)
    requires AllSpace(s)
    ensures Accepted(s)
  {
    if s != "" {
      assert IsSpace(s[0]);
      SpacesAreAccepted(s[1..]);
    }
  }

  /** The scanners agree: the extractor accepts a command exactly when it accepts every segment. */
  lemma ScannersAgree(raw: string, splitPipes: bool)
    ensures Accepted(raw) <==> forall t :: t in Segments(raw, splitPipes) ==> Accepted(t)
  {
    var pieces := Pieces(raw, splitPipes);
    AcceptedPieceByPiece(raw, splitPipes);
    NonBlankMembers(pieces);
    forall p | p in pieces && |Trim(p.text)| == 0 ensures Accepted(p.text) {
      BlankIffAllSpace(p.text);
      SpacesAreAccepted(p.text);
    }
  }

  /** Every segment holds no live separator and splits to just itself. */
  lemma SegmentsAreFinal(raw: string, splitPipes: bool)
    ensures forall t :: t in Segments(raw, splitPipes) ==> Settled(t, splitPipes) && Segments(t, splitPipes) == [t]
  {
    PiecesAreSettled(raw, splitPipes);
    NonBlankMembers(Pieces(raw, splitPipes));
    forall t | t in Segments(raw, splitPipes)
      ensures Settled(t, splitPipes) && Segments(t, splitPipes) == [t]
    {
      SettledIsOnePiece(t, splitPipes);
    }
  }

  /** The unquoted text of a command is the unquoted text of its pieces, with the separators in between. */
  lemma {:induction false} UnquotedPieceByPiece(s: string, splitPipes: bool)
    ensures Unquoted(s, PLAIN) == UnquotedPieces(Pieces(s, splitPipes))
    decreases |s|
  {
    match NextSeparator(s, 0, splitPipes)
    case None =>
      assert UnquotedPieces([Piece(s, "")]) == Unquoted(s, PLAIN) + "" + UnquotedPieces([]);
    case Some(k) =>
      var n := SeparatorLength(s, k, splitPipes);
      UnquotedAroundSeparator(s, k, splitPipes);
      UnquotedPieceByPiece(s[k + n..], splitPipes);
      assert Pieces(s, splitPipes)[1..] == Pieces(s[k + n..], splitPipes);
  }

  lemma UnquotedAroundSeparator(s: string, k: nat, splitPipes: bool)
    requires LiveSeparatorAt(s, k, splitPipes)
    ensures var n := SeparatorLength(s, k, splitPipes);
            Unquoted(s, PLAIN) == Unquoted(s[..k], PLAIN) + s[k..k + n] + Unquoted(s[k + n..], PLAIN)
  {
    var n := SeparatorLength(s, k, splitPipes);
    assert Scan(s[..k], PLAIN) == PLAIN;
    hide *;
    SeparatorIsOrdinary(s, k, splitPipes);
    PlainRun(s[k..k + n]);
    UnquotedInThree(s[..k], s[k..k + n], s[k + n..]);
    assert s == s[..k] + (s[k..k + n] + s[k + n..]);
  }

  lemma UnquotedInThree(a: string, b: string, c: string)
    requires Scan(a, PLAIN) == PLAIN && Scan(b, PLAIN) == PLAIN
    ensures Unquoted(a + (b + c), PLAIN) == Unquoted(a, PLAIN) + Unquoted(b, PLAIN) + Unquoted(c, PLAIN)
  {
    hide Scan, Unquoted;
    UnquotedAppend(a, b + c, PLAIN);
    UnquotedAppend(b, c, PLAIN);
  }

  lemma SeparatorIsOrdinary(s: string, k: nat, splitPipes: bool)
    requires k <= |s|
    ensures var n := SeparatorLength(s, k, splitPipes);
            forall i :: k <= i < k + n ==> s[i] != '\\' && s[i] != '\'' && s[i] != '"'
  {
  }

  /** Outside quotes, ordinary characters are kept as they are. */
  lemma {:induction false} PlainRun(s: string)
    requires forall i :: 0 <= i < |s| ==> s[i] != '\\' && s[i] != '\'' && s[i] != '"'
    ensures Scan(s, PLAIN) == PLAIN && Unquoted(s, PLAIN) == s
  {
    if s != "" {
      PlainRun(s[1..]);
      assert s == [s[0]] + s[1..];
    }
  }

  function UnquotedPieces(pieces: seq<Piece>): string {
    if pieces == [] then ""
    else Unquoted(pieces[0].text, PLAIN) + pieces[0].separator + UnquotedPieces(pieces[1..])
  }
}
