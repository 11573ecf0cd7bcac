/** Turning full-text snapshots into chunks: the delta handlers of one pending prompt
    (src/acp/translator.ts). */
module SnapshotDeltas {
  import opened Common
  import opened Text

  datatype ContentBlock = ThinkingBlock(thinking: string) | TextBlock(text: string) | OtherBlock

  function TextsOf(content: seq<ContentBlock>): seq<string> {
    if content == [] then []
    else (if content[0].TextBlock? then [content[0].text] else []) + TextsOf(content[1..])
  }

  function ThoughtsOf(content: seq<ContentBlock>): seq<string> {
    if content == [] then []
    else (if content[0].ThinkingBlock? then [content[0].thinking] else []) + ThoughtsOf(content[1..])
  }

  function FullText(content: seq<ContentBlock>): string {
    TrimEnd(Join(TextsOf(content), "\n"))
  }

  function FullThought(content: seq<ContentBlock>): string {
    TrimEnd(Join(ThoughtsOf(content), "\n"))
  }

  // ----- what a content shows -----

  lemma {:induction false} TextsOfMore(content: seq<ContentBlock>, block: ContentBlock)
    ensures TextsOf(content + [block]) == TextsOf(content) + if block.TextBlock? then [block.text] else []
  {
    var more := content + [block];
    if content == [] {
      assert more == [block];
      assert TextsOf(more[1..]) == [];
    } else {
      TextsOfMore(content[1..], block);
      assert more[1..] == content[1..] + [block];
      assert more[0] == content[0];
    }
  }

  lemma {:induction false} ThoughtsOfMore(content: seq<ContentBlock>, block: ContentBlock)
    ensures ThoughtsOf(content + [block]) == ThoughtsOf(content) + if block.ThinkingBlock? then [block.thinking] else []
  {
    var more := content + [block];
    if content == [] {
      assert more == [block];
      assert ThoughtsOf(more[1..]) == [];
    } else {
      ThoughtsOfMore(content[1..], block);
      assert more[1..] == content[1..] + [block];
      assert more[0] == content[0];
    }
  }

  /** A text block adds a line to what is said and nothing to what is thought, a thinking block the other way round, and
      any other block nothing to either. */
  lemma OneMoreBlock(content: seq<ContentBlock>, text: string)
    ensures ThoughtsOf(content + [TextBlock(text)]) == ThoughtsOf(content)
    ensures TextsOf(content + [ThinkingBlock(text)]) == TextsOf(content)
    ensures TextsOf(content + [OtherBlock]) == TextsOf(content)
    ensures ThoughtsOf(content + [OtherBlock]) == ThoughtsOf(content)
    ensures FullText(content + [TextBlock(text)])
            == TrimEnd(if TextsOf(content) == [] then text else Join(TextsOf(content), "\n") + "\n" + text)
    ensures FullThought(content + [ThinkingBlock(text)])
            == TrimEnd(if ThoughtsOf(content) == [] then text else Join(ThoughtsOf(content), "\n") + "\n" + text)
  {
    hide TrimEnd, TextsOf, ThoughtsOf, Join;
    TextsOfMore(content, TextBlock(text));
    TextsOfMore(content, ThinkingBlock(text));
    TextsOfMore(content, OtherBlock);
    ThoughtsOfMore(content, TextBlock(text));
    ThoughtsOfMore(content, ThinkingBlock(text));
    ThoughtsOfMore(content, OtherBlock);
    if TextsOf(content) != [] {
      JoinSnoc(TextsOf(content), text, "\n");
    }
    if ThoughtsOf(content) != [] {
      JoinSnoc(ThoughtsOf(content), text, "\n");
    }
    assert Join([text], "\n") == text by {
      JoinOne(text, "\n");
    }
    assert [] + [text] == [text];
  }

  // ----- what a client has been sent after some snapshots -----

  /** Each snapshot only ever adds what lies beyond the length already sent. */
  function Sent(snapshots: seq<string>): string {
    if snapshots == [] then ""
    else
      var before := Sent(snapshots[..|snapshots| - 1]);
      var full := snapshots[|snapshots| - 1];
      if |full| <= |before| then before else before + full[|before|..]
  }

  /** The two halves of a handler: each runs without interruption, but other handlers may run in between. */
  datatype Step = ThoughtStep(content: seq<ContentBlock>) | TextStep(content: seq<ContentBlock>)

  function TextSnapshots(steps: seq<Step>): seq<string> {
    if steps == [] then []
    else
      var last := steps[|steps| - 1];
      TextSnapshots(steps[..|steps| - 1]) + if last.TextStep? then [FullText(last.content)] else []
  }

  function ThoughtSnapshots(steps: seq<Step>): seq<string> {
    if steps == [] then []
    else
      var last := steps[|steps| - 1];
      ThoughtSnapshots(steps[..|steps| - 1]) + if last.ThoughtStep? then [FullThought(last.content)] else []
  }

  lemma OneMoreStep(steps: seq<Step>, step: Step)
    ensures var more := steps + [step];
            && TextSnapshots(more) == TextSnapshots(steps) + (if step.TextStep? then [FullText(step.content)] else [])
            && ThoughtSnapshots(more)
               == ThoughtSnapshots(steps) + (if step.ThoughtStep? then [FullThought(step.content)] else [])
  {
    assert (steps + [step])[..|steps + [step]| - 1] == steps;
  }

  lemma SentMore(snapshots: seq<string>, full: string)
    ensures var before := Sent(snapshots);
            Sent(snapshots + [full]) == if |full| <= |before| then before else before + full[|before|..]
  {
    assert (snapshots + [full])[..|snapshots + [full]| - 1] == snapshots;
  }

  class PendingText {
    var sentTextLength: nat
    var sentText: string
    var sentThoughtLength: nat
    var sentThought: string
    var messageChunks: seq<string>
    var thoughtChunks: seq<string>

    ghost var steps: seq<Step> // every half-handler that has run, in any interleaving

    constructor ()
      ensures Valid() && steps == [] && messageChunks == [] && thoughtChunks == []
    {
      sentTextLength, sentText, sentThoughtLength, sentThought := 0, "", 0, "";
      messageChunks, thoughtChunks, steps := [], [], [];
    }

    /** The chunks put together are what the snapshots so far call for. */
    ghost predicate Valid()
      reads this
    {
      && Flatten(messageChunks) == Sent(TextSnapshots(steps)) && sentTextLength == |Flatten(messageChunks)|
      && Flatten(thoughtChunks) == Sent(ThoughtSnapshots(steps)) && sentThoughtLength == |Flatten(thoughtChunks)|
    }

    method HandleThought(content: seq<ContentBlock>) returns (chunk: Option<string>)
      requires Valid()
      modifies `sentThoughtLength, `sentThought, `thoughtChunks, `steps
      ensures Valid() && steps == old(steps) + [ThoughtStep(content)]
      ensures thoughtChunks == old(thoughtChunks) + if chunk.Some? then [chunk.value] else []
      ensures chunk.Some? ==> chunk.value != ""
    {
      hide TextSnapshots, ThoughtSnapshots, Sent, FullThought, FullText;
      OneMoreStep(steps, ThoughtStep(content));
      var fullThought := FullThought(content);
      SentMore(ThoughtSnapshots(steps), fullThought);
      ghost var same := TextSnapshots(steps);
      assert same + [] == same;
      steps := steps + [ThoughtStep(content)];
      if fullThought == "" || |fullThought| <= sentThoughtLength {
        return None;
      }
      var newThought := fullThought[sentThoughtLength..];
      sentThoughtLength := |fullThought|;
      sentThought := fullThought;
      FlattenSnoc(thoughtChunks, newThought);
      thoughtChunks := thoughtChunks + [newThought];
      return Some(newThought);
    }

    method HandleText(content: seq<ContentBlock>) returns (chunk: Option<string>)
      requires Valid()
      modifies `sentTextLength, `sentText, `messageChunks, `steps
      ensures Valid() && steps == old(steps) + [TextStep(content)]
      ensures messageChunks == old(messageChunks) + if chunk.Some? then [chunk.value] else []
      ensures chunk.Some? ==> chunk.value != ""
    {
      hide TextSnapshots, ThoughtSnapshots, Sent, FullThought, FullText;
      OneMoreStep(steps, TextStep(content));
      var fullText := FullText(content);
      SentMore(TextSnapshots(steps), fullText);
      ghost var same := ThoughtSnapshots(steps);
      assert same + [] == same;
      steps := steps + [TextStep(content)];
      if fullText == "" || |fullText| <= sentTextLength {
        return None;
      }
      var newText := fullText[sentTextLength..];
      sentTextLength := |fullText|;
      sentText := fullText;
      FlattenSnoc(messageChunks, newText);
      messageChunks := messageChunks + [newText];
      return Some(newText);
    }
  }

  lemma FlattenSnoc(chunks: seq<string>, chunk: string)
    ensures Flatten(chunks + [chunk]) == Flatten(chunks) + chunk
  {
    FlattenAppend(chunks, [chunk]);
    assert Flatten([chunk]) == chunk + Flatten<char>([]);
  }

  // ----- what the sent text is -----

  /** Position `i` shows the first snapshot that reached it. */
  ghost predicate FirstToReach(snapshots: seq<string>, k: nat, i: nat) {
    k < |snapshots| && i < |snapshots[k]| && forall j :: 0 <= j < k ==> |snapshots[j]| <= i
  }

  /** For arbitrary snapshots, exactly as many characters are sent as the longest one has, and each
      character is the one of the first snapshot long enough to have it. */
  lemma {:induction false} SentIsFirstReached(snapshots: seq<string>)
    ensures forall j :: 0 <= j < |snapshots| ==> |snapshots[j]| <= |Sent(snapshots)|
    ensures snapshots != [] ==> exists j :: 0 <= j < |snapshots| && |snapshots[j]| == |Sent(snapshots)|
    ensures forall i: nat, k: nat :: FirstToReach(snapshots, k, i) ==>
            i < |Sent(snapshots)| && Sent(snapshots)[i] == snapshots[k][i]
  {
    if snapshots != [] {
      var n := |snapshots| - 1;
      var front := snapshots[..n];
      assert snapshots == front + [snapshots[n]];
      SentMore(front, snapshots[n]);
      if front == [] {
        assert Sent(front) == "";
      }
      hide Sent;
      SentIsFirstReached(front);
      assert forall j :: 0 <= j < n ==> front[j] == snapshots[j];
      assert |Sent(snapshots)| == if |snapshots[n]| <= |Sent(front)| then |Sent(front)| else |snapshots[n]|;
      if front == [] {
        assert |snapshots[0]| == |Sent(snapshots)|;
      } else if |snapshots[n]| <= |Sent(front)| {
        var j :| 0 <= j < |front| && |front[j]| == |Sent(front)|;
        assert |snapshots[j]| == |Sent(snapshots)|;
      }
      forall i: nat, k: nat | FirstToReach(snapshots, k, i)
        ensures i < |Sent(snapshots)| && Sent(snapshots)[i] == snapshots[k][i]
      {
        ReachedByLast(front, snapshots[n], k, i);
      }
    }
  }

  lemma ReachedByLast(front: seq<string>, last: string, k: nat, i: nat)
    requires FirstToReach(front + [last], k, i)
    requires front != [] ==> exists j :: 0 <= j < |front| && |front[j]| == |Sent(front)|
    requires front == [] ==> Sent(front) == ""
    requires forall i: nat, k: nat :: FirstToReach(front, k, i) ==> i < |Sent(front)| && Sent(front)[i] == front[k][i]
    ensures i < |Sent(front + [last])| && Sent(front + [last])[i] == (front + [last])[k][i]
  {
    SentMore(front, last);
    hide Sent;
    var snapshots := front + [last];
    assert forall j :: 0 <= j < |front| ==> snapshots[j] == front[j];
    if k < |front| {
      assert FirstToReach(front, k, i);
    } else if front != [] {
      var j :| 0 <= j < |front| && |front[j]| == |Sent(front)|;
      assert |snapshots[j]| <= i;
    }
  }

  lemma {:induction false} SomeReached(snapshots: seq<string>, i: nat) returns (k: nat)
    requires i < |Sent(snapshots)|
    ensures FirstToReach(snapshots, k, i)
  {
    var n := |snapshots| - 1;
    var front := snapshots[..n];
    SentIsFirstReached(front);
    assert forall j :: 0 <= j < n ==> front[j] == snapshots[j];
    if i < |Sent(front)| {
      k := SomeReached(front, i);
    } else {
      k := n;
    }
  }

  // ----- snapshots of one growing text -----

  predicate IsPrefix(a: string, b: string) {
    |a| <= |b| && b[..|a|] == a
  }

  /** Of any two snapshots one continues the other; their order of arrival is free. */
  ghost predicate Chain(snapshots: seq<string>) {
    forall i, j :: 0 <= i < |snapshots| && 0 <= j < |snapshots| ==>
      IsPrefix(snapshots[i], snapshots[j]) || IsPrefix(snapshots[j], snapshots[i])
  }

  /** Cutting trailing spaces keeps a continuation a continuation. */
  lemma TrimEndKeepsPrefix(a: string, b: string)
    requires IsPrefix(a, b)
    ensures IsPrefix(TrimEnd(a), TrimEnd(b))
  {
    hide TrimEnd;
    var cutA := TrimEndSplits(a);
    var cutB := TrimEndSplits(b);
    var ta, tb := TrimEnd(a), TrimEnd(b);
    assert forall i :: 0 <= i < |ta| ==> b[i] == a[i] && a[i] == ta[i];
    assert forall i :: |tb| <= i < |b| ==> b[i] == cutB[i - |tb|];
    if |ta| > |tb| {
      // The last kept character of `a` would have been cut from `b` as a space.
      assert false;
    }
    assert forall i :: 0 <= i < |ta| ==> tb[i] == b[i] && b[i] == a[i] && a[i] == ta[i];
    assert tb[..|ta|] == ta;
  }

  lemma ShorterIsPrefix(a: string, b: string)
    requires (IsPrefix(a, b) || IsPrefix(b, a)) && |a| <= |b|
    ensures IsPrefix(a, b)
  {
  }

  function Trimmed(snapshots: seq<string>): seq<string> {
    seq(|snapshots|, i requires 0 <= i < |snapshots| => TrimEnd(snapshots[i]))
  }

  /** When the snapshots are stages of one growing text, in any order of arrival and with repeats,
      the client has exactly the longest one, right-trimmed. */
  lemma ChainIsSentWhole(snapshots: seq<string>, longest: nat)
    requires Chain(snapshots) && longest < |snapshots|
    requires forall j :: 0 <= j < |snapshots| ==> |snapshots[j]| <= |snapshots[longest]|
    ensures Sent(Trimmed(snapshots)) == TrimEnd(snapshots[longest])
  {
    var trimmed := Trimmed(snapshots);
    var goal := TrimEnd(snapshots[longest]);
    forall j | 0 <= j < |trimmed| ensures IsPrefix(trimmed[j], goal) {
      ShorterIsPrefix(snapshots[j], snapshots[longest]);
      TrimEndKeepsPrefix(snapshots[j], snapshots[longest]);
    }
    SentIsFirstReached(trimmed);
    var sent := Sent(trimmed);
    assert |sent| == |goal| by {
      assert trimmed[longest] == goal;
    }
    forall i: nat | i < |sent| ensures sent[i] == goal[i] {
      var k := SomeReached(trimmed, i);
      assert IsPrefix(trimmed[k], goal);
      assert goal[..|trimmed[k]|][i] == goal[i];
    }
  }

  // ----- the same for a pending prompt -----

  /** The joined texts of the text half-handlers that have run, before their trailing spaces are cut. */
  function RawTexts(steps: seq<Step>): seq<string> {
    if steps == [] then []
    else
      var last := steps[|steps| - 1];
      RawTexts(steps[..|steps| - 1]) + if last.TextStep? then [Join(TextsOf(last.content), "\n")] else []
  }

  function RawThoughts(steps: seq<Step>): seq<string> {
    if steps == [] then []
    else
      var last := steps[|steps| - 1];
      RawThoughts(steps[..|steps| - 1]) + if last.ThoughtStep? then [Join(ThoughtsOf(last.content), "\n")] else []
  }

  lemma {:induction false} SnapshotsAreTrimmed(steps: seq<Step>)
    ensures TextSnapshots(steps) == Trimmed(RawTexts(steps))
    ensures ThoughtSnapshots(steps) == Trimmed(RawThoughts(steps))
  {
    hide TrimEnd;
    if steps != [] {
      SnapshotsAreTrimmed(steps[..|steps| - 1]);
    }
  }

  /**
   * Whatever ran in between, once every text that arrived is a stage of one growing text, the chunks sent for the
   * prompt put together are its longest stage without trailing spaces; thoughts do not disturb it.
   */
  lemma ClientHasWholeText(p: PendingText, longest: nat)
    requires p.Valid()
    requires var raw := RawTexts(p.steps);
             Chain(raw) && longest < |raw| && forall j :: 0 <= j < |raw| ==> |raw[j]| <= |raw[longest]|
    ensures Flatten(p.messageChunks) == TrimEnd(RawTexts(p.steps)[longest])
  {
    hide Chain;
    SnapshotsAreTrimmed(p.steps);
    ChainIsSentWhole(RawTexts(p.steps), longest);
  }

  lemma ClientHasWholeThought(p: PendingText, longest: nat)
    requires p.Valid()
    requires var raw := RawThoughts(p.steps);
             Chain(raw) && longest < |raw| && forall j :: 0 <= j < |raw| ==> |raw[j]| <= |raw[longest]|
    ensures Flatten(p.thoughtChunks) == TrimEnd(RawThoughts(p.steps)[longest])
  {
    hide Chain;
    SnapshotsAreTrimmed(p.steps);
    ChainIsSentWhole(RawThoughts(p.steps), longest);
  }
}
