/** The JavaScript string operations the models rely on. */
module Text {
  import opened Common

  /** The characters removed by `String.prototype.trim`. */
  predicate IsSpace(c: char) {
    || '\t' <= c <= '\r' || c == ' ' || c == '\U{00A0}' || c == '\U{1680}'
    || '\U{2000}' <= c <= '\U{200A}' || c == '\U{2028}' || c == '\U{2029}'
    || c == '\U{202F}' || c == '\U{205F}' || c == '\U{3000}' || c == '\U{FEFF}'
  }

  function TrimStart(s: string): string {
    if s != "" && IsSpace(s[0]) then TrimStart(s[1..]) else s
  }

  function TrimEnd(s: string): string {
    if s != "" && IsSpace(s[|s| - 1]) then TrimEnd(s[..|s| - 1]) else s
  }

  function Trim(s: string): string {
    TrimEnd(TrimStart(s))
  }

  predicate AllSpace(s: string) {
    forall i :: 0 <= i < |s| ==> IsSpace(s[i])
  }

  /** `TrimStart` cuts a run of spaces off the front and stops at the first other character. */
  lemma {:induction false} TrimStartSplits(s: string) returns (cut: string)
    ensures s == cut + TrimStart(s) && AllSpace(cut)
    ensures TrimStart(s) != "" ==> !IsSpace(TrimStart(s)[0])
  {
    if s != "" && IsSpace(s[0]) {
      var rest := TrimStartSplits(s[1..]);
      cut := [s[0]] + rest;
    } else {
      cut := "";
    }
  }

  lemma {:induction false} TrimEndSplits(s: string) returns (cut: string)
    ensures s == TrimEnd(s) + cut && AllSpace(cut)
    ensures TrimEnd(s) != "" ==> !IsSpace(TrimEnd(s)[|TrimEnd(s)| - 1])
  {
    if s != "" && IsSpace(s[|s| - 1]) {
      var rest := TrimEndSplits(s[..|s| - 1]);
      cut := rest + [s[|s| - 1]];
    } else {
      cut := "";
    }
  }

  lemma {:induction false} TrimStartUnique(cut: string, rest: string)
    requires AllSpace(cut) && (rest != "" ==> !IsSpace(rest[0]))
    ensures TrimStart(cut + rest) == rest
  {
    if cut == "" {
      assert cut + rest == rest;
    } else {
      assert (cut + rest)[1..] == cut[1..] + rest;
      assert (cut + rest)[0] == cut[0];
      TrimStartUnique(cut[1..], rest);
    }
  }

  lemma {:induction false} TrimEndUnique(rest: string, cut: string)
    requires AllSpace(cut) && (rest != "" ==> !IsSpace(rest[|rest| - 1]))
    ensures TrimEnd(rest + cut) == rest
  {
    if cut == "" {
      assert rest + cut == rest;
    } else {
      var n := |cut| - 1;
      assert (rest + cut)[..|rest + cut| - 1] == rest + cut[..n];
      assert (rest + cut)[|rest + cut| - 1] == cut[n];
      TrimEndUnique(rest, cut[..n]);
    }
  }

  lemma TrimUnique(left: string, core: string, right: string)
    requires AllSpace(left) && AllSpace(right)
    requires core != "" ==> !IsSpace(core[0]) && !IsSpace(core[|core| - 1])
    ensures Trim(left + core + right) == core
  {
    if core == "" {
      assert left + core + right == (left + right) + "";
      TrimStartUnique(left + right, "");
    } else {
      assert left + core + right == left + (core + right);
      TrimStartUnique(left, core + right);
      TrimEndUnique(core, right);
    }
  }

  /** `Trim` cuts a run of spaces off each end; what is left starts and ends with other characters. */
  lemma TrimSplits(s: string) returns (left: string, right: string)
    ensures s == left + Trim(s) + right && AllSpace(left) && AllSpace(right)
    ensures Trim(s) != "" ==> !IsSpace(Trim(s)[0]) && !IsSpace(Trim(s)[|Trim(s)| - 1])
  {
    left := TrimStartSplits(s);
    right := TrimEndSplits(TrimStart(s));
    var rest := TrimStart(s);
    assert rest == Trim(s) + right;
    assert Trim(s) != "" ==> Trim(s)[0] == rest[0];
  }

  /** A string is blank when trimming leaves nothing. */
  lemma BlankIffAllSpace(s: string)
    ensures Trim(s) == "" <==> AllSpace(s)
  {
    var left, right := TrimSplits(s);
    if AllSpace(s) {
      TrimUnique(s, "", "");
      assert s + "" + "" == s;
    }
  }

  /** Both trims together do not depend on the order. */
  lemma TrimOfTrimEnd(s: string)
    ensures Trim(TrimEnd(s)) == Trim(s)
  {
    var left, right := TrimSplits(s);
    var core := Trim(s);
    if core == "" {
      assert left + "" + right == s && "" + s == s;
      TrimEndUnique("", s);
    } else {
      TrimEndUnique(left + core, right);
      assert left + core == left + core + "";
      TrimUnique(left, core, "");
    }
  }

  /** The smallest index at which `t` occurs in `s`. */
  function IndexOf(s: string, t: string): (r: Option<nat>)
    ensures r.Some? ==> r.value + |t| <= |s| && OccursAt(s, t, r.value) && forall j: nat :: j < r.value ==>
            !OccursAt(s, t, j)
    ensures r.None? ==> forall j: nat :: !OccursAt(s, t, j)
    decreases |s|
  {
    if OccursAt(s, t, 0) then Some(0)
    else if s == "" then None
    else
      var rest := IndexOf(s[1..], t);
      assert forall j: nat :: j > 0 ==> (OccursAt(s, t, j) <==> OccursAt(s[1..], t, j - 1)) by {
        forall j: nat | j > 0 ensures OccursAt(s, t, j) <==> OccursAt(s[1..], t, j - 1) {
          OccursAtDrop(s, t, j);
        }
      }
      if rest.None? then None else Some(rest.value + 1)
  }

  predicate OccursAt(s: string, t: string, k: nat) {
    k + |t| <= |s| && s[k..k + |t|] == t
  }

  lemma IndexOfIs(s: string, t: string, k: nat)
    requires OccursAt(s, t, k) && forall j: nat :: j < k ==> !OccursAt(s, t, j)
    ensures IndexOf(s, t) == Some(k)
  {
    hide OccursAt;
    var r := IndexOf(s, t);
    assert r.Some?;
    assert !(r.value < k) && !(k < r.value);
  }

  lemma IndexOfNone(s: string, t: string)
    requires forall j: nat :: !OccursAt(s, t, j)
    ensures IndexOf(s, t) == None
  {
  }

  lemma OccursAtDrop(s: string, t: string, j: nat)
    requires s != "" && j > 0
    ensures OccursAt(s, t, j) <==> OccursAt(s[1..], t, j - 1)
  {
    if j + |t| <= |s| {
      assert s[j..j + |t|] == s[1..][j - 1..j - 1 + |t|];
    }
  }

  ghost predicate Contains(s: string, t: string) {
    exists k: nat :: OccursAt(s, t, k)
  }

  lemma OccursInPrefix(before: string, text: string, t: string, k: nat)
    requires before <= text && k + |t| <= |before|
    ensures OccursAt(before, t, k) <==> OccursAt(text, t, k)
  {
    assert text[..|before|] == before;
    assert before[k..k + |t|] == text[k..k + |t|];
  }

  lemma OccursInSuffix(text: string, after: string, shift: nat, t: string, k: nat)
    requires shift <= |text| && text[shift..] == after
    ensures OccursAt(after, t, k) <==> OccursAt(text, t, shift + k)
  {
    if k + |t| <= |after| {
      assert after[k..k + |t|] == text[shift + k..shift + k + |t|];
    }
  }

  lemma SpacesAre(text: string, from: nat, upto: nat)
    requires from <= upto <= |text| && AllSpace(text[from..upto])
    ensures forall i :: from <= i < upto ==> IsSpace(text[i])
  {
    hide IsSpace;
    forall i | from <= i < upto ensures IsSpace(text[i]) {
      assert text[i] == text[from..upto][i - from];
    }
  }

  lemma SliceOfPrefix(text: string, n: nat, from: nat, upto: nat)
    requires from <= upto <= n <= |text|
    ensures text[..n][from..upto] == text[from..upto]
  {
  }

  lemma SliceOfSuffix(text: string, shift: nat, from: nat, upto: nat)
    requires shift <= |text| && from <= upto <= |text| - shift
    ensures text[shift..][from..upto] == text[shift + from..shift + upto]
  {
  }

  predicate StartsWith(s: string, t: string) {
    |t| <= |s| && s[..|t|] == t
  }

  predicate EndsWith(s: string, t: string) {
    |t| <= |s| && s[|s| - |t|..] == t
  }

  /** `lines.join(separator)`. */
  function Join(lines: seq<string>, separator: string): string {
    if lines == [] then ""
    else if |lines| == 1 then lines[0]
    else lines[0] + separator + Join(lines[1..], separator)
  }

  /** `s.split("\n")`: always at least one line. */
  function Lines(s: string): (lines: seq<string>)
    ensures |lines| > 0
  {
    if s == "" then [""] else PrependToLines(s[0], Lines(s[1..]))
  }

  function PrependToLines(c: char, lines: seq<string>): (r: seq<string>)
    requires |lines| > 0
    ensures |r| > 0
  {
    if c == '\n' then [""] + lines else [[c] + lines[0]] + lines[1..]
  }

  function AppendToLines(lines: seq<string>, c: char): (r: seq<string>)
    requires |lines| > 0
    ensures |r| > 0
  {
    if c == '\n' then lines + [""] else lines[..|lines| - 1] + [lines[|lines| - 1] + [c]]
  }

  lemma JoinCons(first: string, rest: seq<string>, separator: string)
    requires rest != []
    ensures Join([first] + rest, separator) == first + separator + Join(rest, separator)
  {
    assert ([first] + rest)[1..] == rest;
  }

  /** Joining the lines gives the text back. */
  lemma {:induction false} JoinOfLines(s: string)
    ensures Join(Lines(s), "\n") == s
  {
    hide Join, PrependToLines;
    if s == "" {
      JoinOne("", "\n");
    } else {
      JoinOfLines(s[1..]);
      JoinOfPrepended(s[0], Lines(s[1..]));
      assert s == [s[0]] + s[1..];
    }
  }

  lemma JoinOne(line: string, separator: string)
    ensures Join([line], separator) == line
  {
  }

  lemma {:induction false} JoinOfPrepended(c: char, lines: seq<string>)
    requires |lines| > 0
    ensures Join(PrependToLines(c, lines), "\n") == [c] + Join(lines, "\n")
  {
    hide Join;
    if c == '\n' {
      JoinCons("", lines, "\n");
    } else if |lines| == 1 {
      JoinOne([c] + lines[0], "\n");
      JoinOne(lines[0], "\n");
      assert lines == [lines[0]];
      assert PrependToLines(c, lines) == [[c] + lines[0]];
    } else {
      var first, rest := lines[0], lines[1..];
      assert lines == [first] + rest;
      JoinCons(first, rest, "\n");
      JoinCons([c] + first, rest, "\n");
      PrefixedLine([c], first, Join(rest, "\n"));
    }
  }

  lemma PrefixedLine(prefix: string, line: string, rest: string)
    ensures (prefix + line) + "\n" + rest == prefix + (line + "\n" + rest)
  {
    assert (prefix + line) + "\n" == prefix + (line + "\n");
  }

  lemma {:induction false} JoinSnoc(lines: seq<string>, last: string, separator: string)
    requires lines != []
    ensures Join(lines + [last], separator) == Join(lines, separator) + separator + last
  {
    if |lines| == 1 {
      JoinCons(lines[0], [last], separator);
      assert lines == [lines[0]];
    } else {
      JoinSnoc(lines[1..], last, separator);
      assert lines + [last] == [lines[0]] + (lines[1..] + [last]);
      JoinCons(lines[0], lines[1..] + [last], separator);
      assert lines == [lines[0]] + lines[1..];
      JoinCons(lines[0], lines[1..], separator);
      assert lines[0] + separator + (Join(lines[1..], separator) + separator + last)
          == (lines[0] + separator + Join(lines[1..], separator)) + separator + last;
    }
  }

  lemma PrependThenAppend(c: char, lines: seq<string>, d: char)
    requires |lines| > 0
    ensures AppendToLines(PrependToLines(c, lines), d) == PrependToLines(c, AppendToLines(lines, d))
  {
    if c != '\n' && d != '\n' && |lines| == 1 {
      assert ([c] + lines[0]) + [d] == [c] + (lines[0] + [d]);
    }
  }

  lemma {:induction false} LinesExtend(s: string, c: char)
    ensures Lines(s + [c]) == AppendToLines(Lines(s), c)
    decreases |s|
  {
    if s == "" {
      assert s + [c] == [c];
      assert [c][1..] == "";
      assert "" + [c] == [c] + "";
    } else {
      assert (s + [c])[1..] == s[1..] + [c] && (s + [c])[0] == s[0];
      LinesExtend(s[1..], c);
      PrependThenAppend(s[0], Lines(s[1..]), c);
    }
  }

  lemma {:induction false} LastLineEmpty(s: string)
    ensures Lines(s)[|Lines(s)| - 1] == "" <==> s == "" || s[|s| - 1] == '\n'
  {
    if s != "" {
      LastLineEmpty(s[1..]);
      if |s| == 1 {
        assert Lines(s[1..]) == [""];
      }
    }
  }

  lemma {:induction false} LinesOfOne(s: string)
    requires '\n' !in s
    ensures Lines(s) == [s]
  {
    if s != "" {
      LinesOfOne(s[1..]);
      assert s == [s[0]] + s[1..];
    }
  }

  lemma {:induction false} LinesAfterFirst(first: string, rest: string)
    requires '\n' !in first
    ensures Lines(first + "\n" + rest) == [first] + Lines(rest)
  {
    var s := first + "\n" + rest;
    if first == "" {
      assert s[0] == '\n' && s[1..] == rest;
    } else {
      assert s[0] == first[0] && s[1..] == first[1..] + "\n" + rest;
      LinesAfterFirst(first[1..], rest);
      assert first == [first[0]] + first[1..];
    }
  }

  lemma {:induction false} LinesOfJoin(lines: seq<string>)
    requires lines != [] && forall i :: 0 <= i < |lines| ==> '\n' !in lines[i]
    ensures Lines(Join(lines, "\n")) == lines
  {
    if |lines| == 1 {
      LinesOfOne(lines[0]);
    } else {
      LinesAfterFirst(lines[0], Join(lines[1..], "\n"));
      LinesOfJoin(lines[1..]);
    }
  }

  function Flatten<T>(parts: seq<seq<T>>): seq<T> {
    if parts == [] then [] else parts[0] + Flatten(parts[1..])
  }

  lemma {:induction false} FlattenAppend<T>(a: seq<seq<T>>, b: seq<seq<T>>)
    ensures Flatten(a + b) == Flatten(a) + Flatten(b)
  {
    if a == [] {
      assert a + b == b;
    } else {
      assert (a + b)[1..] == a[1..] + b;
      FlattenAppend(a[1..], b);
    }
  }
}
