/** Splitting, chunking and pruning a conversation to fit a context window (src/agents/compaction.ts). */
module Compaction {
  import opened Common
  import opened Text
  import opened TranscriptRepair

  const SAFETY_MARGIN := 1.2

  function Cost(messages: seq<Message>): nat {
    if messages == [] then 0 else Cost(messages[..|messages| - 1]) + messages[|messages| - 1].tokens
  }

  lemma {:induction false} CostAppend(a: seq<Message>, b: seq<Message>)
    ensures Cost(a + b) == Cost(a) + Cost(b)
  {
    if b == [] {
      assert a + b == a;
    } else {
      var n := |b| - 1;
      assert (a + b)[..|a + b| - 1] == a + b[..n] && (a + b)[|a + b| - 1] == b[n];
      CostAppend(a, b[..n]);
    }
  }

  lemma CostOne(m: Message)
    ensures Cost([m]) == m.tokens
  {
    assert [m][..0] == [];
  }

  /** A JavaScript number of parts. */
  datatype Parts = Finite(value: real) | NotFinite

  function NormalizeParts(parts: Parts, messageCount: nat): (r: nat)
    ensures 1 <= r && (messageCount > 0 ==> r <= messageCount)
    ensures r >= 2 <==> parts.Finite? && parts.value >= 2.0 && messageCount >= 2
  {
    if parts.NotFinite? || parts.value <= 1.0 then 1
    else Min(Max(1, parts.value.Floor), Max(1, messageCount))
  }

  function Max(a: int, b: int): int {
    if a >= b then a else b
  }

  // ----- greedy chunking -----

  ghost predicate NonEmpty(chunks: seq<seq<Message>>) {
    forall i :: 0 <= i < |chunks| ==> chunks[i] != []
  }

  /** A chunk is within the limit unless it is one message that is too big by itself. */
  predicate Fits(chunk: seq<Message>, limit: real) {
    Cost(chunk) as real <= limit || |chunk| == 1
  }

  ghost predicate AllFit(chunks: seq<seq<Message>>, limit: real) {
    forall i :: 0 <= i < |chunks| ==> Fits(chunks[i], limit)
  }

  /** Chunk `a` could not have taken the first message of the next chunk `b` as well. */
  predicate Overfull(a: seq<Message>, b: seq<Message>, limit: real) {
    b != [] && (Cost(a) + b[0].tokens) as real > limit
  }

  /** Every chunk is as long as it could be. */
  ghost predicate Greedy(chunks: seq<seq<Message>>, limit: real) {
    forall i :: 0 < i < |chunks| ==> Overfull(chunks[i - 1], chunks[i], limit)
  }

  /** The state of both chunking loops after the messages `done`. */
  ghost predicate Chunking(chunks: seq<seq<Message>>, current: seq<Message>, done: seq<Message>, limit: real) {
    && Flatten(chunks) + current == done
    && NonEmpty(chunks) && AllFit(chunks, limit)
    && Greedy(if current == [] then chunks else chunks + [current], limit)
  }

  lemma FlattenPush(chunks: seq<seq<Message>>, chunk: seq<Message>)
    ensures Flatten(chunks + [chunk]) == Flatten(chunks) + chunk
  {
    FlattenAppend(chunks, [chunk]);
    assert Flatten([chunk]) == chunk + Flatten<Message>([]);
  }

  lemma CostSnoc(messages: seq<Message>, m: Message)
    ensures Cost(messages + [m]) == Cost(messages) + m.tokens
  {
    assert (messages + [m])[..|messages + [m]| - 1] == messages;
  }

  /** The first message of the next chunk closes the current one. */
  lemma Cut(chunks: seq<seq<Message>>, current: seq<Message>, done: seq<Message>, message: Message, limit: real)
    requires Chunking(chunks, current, done, limit) && current != [] && Fits(current, limit)
    requires (Cost(current) + message.tokens) as real > limit
    ensures Chunking(chunks + [current], [message], done + [message], limit)
  {
    hide Cost, Flatten;
    FlattenPush(chunks, current);
    var more := chunks + [current] + [[message]];
    forall i | 0 < i < |more| ensures Overfull(more[i - 1], more[i], limit) {
      if i < |more| - 1 {
        assert more[i - 1] == (chunks + [current])[i - 1] && more[i] == (chunks + [current])[i];
      }
    }
  }

  lemma Grow(chunks: seq<seq<Message>>, current: seq<Message>, done: seq<Message>, message: Message, limit: real)
    requires Chunking(chunks, current, done, limit) && current != []
    ensures Chunking(chunks, current + [message], done + [message], limit)
  {
    hide Cost, Flatten;
    var more := chunks + [current + [message]];
    assert Flatten(chunks) + (current + [message]) == done + [message];
    forall i | 0 < i < |more| ensures Overfull(more[i - 1], more[i], limit) {
      assert Overfull((chunks + [current])[i - 1], (chunks + [current])[i], limit);
    }
  }

  lemma Begin(chunks: seq<seq<Message>>, done: seq<Message>, message: Message, limit: real)
    requires Chunking(chunks, [], done, limit)
    requires chunks != [] ==> Cost(chunks[|chunks| - 1]) as real > limit
    ensures Chunking(chunks, [message], done + [message], limit)
  {
    hide Cost, Flatten;
    var more := chunks + [[message]];
    assert Flatten(chunks) + [] == Flatten(chunks);
    forall i | 0 < i < |more| ensures Overfull(more[i - 1], more[i], limit) {
      if i < |chunks| {
        assert Overfull(chunks[i - 1], chunks[i], limit);
      }
    }
  }

  lemma Close(chunks: seq<seq<Message>>, current: seq<Message>, done: seq<Message>, limit: real)
    requires Chunking(chunks, current, done, limit) && current != []
    ensures Flatten(chunks + [current]) == done && NonEmpty(chunks + [current]) && Greedy(chunks + [current], limit)
    ensures Fits(current, limit) ==> Chunking(chunks + [current], [], done, limit)
  {
    hide Cost, Flatten;
    FlattenPush(chunks, current);
    assert done + [] == done;
  }

  method SplitMessagesByTokenShare(messages: seq<Message>, parts: Parts) returns (chunks: seq<seq<Message>>)
    ensures Flatten(chunks) == messages && NonEmpty(chunks)
    ensures var p := NormalizeParts(parts, |messages|);
            && |chunks| <= p
            && (p == 1 && messages != [] ==> chunks == [messages])
            && (p >= 2 ==>
                  var target := Cost(messages) as real / p as real;
                  && Greedy(chunks, target)
                  && AllFit(chunks[..Min(|chunks|, p - 1)], target)
                  && (Cost(messages) > 0 ==> |chunks| >= 2))
  {
    if messages == [] {
      return [];
    }
    var p := NormalizeParts(parts, |messages|);
    if p <= 1 {
      FlattenPush([], messages);
      assert [] + [messages] == [messages];
      return [messages];
    }
    WholeExceedsShare(messages, p);
    chunks := SplitIntoShares(messages, p, Cost(messages) as real / p as real);
  }

  /** The loop of the split, for a target that is less than the whole. */
  method SplitIntoShares(messages: seq<Message>, p: nat, target: real) returns (chunks: seq<seq<Message>>)
    requires p >= 2 && |messages| >= 2
    requires Cost(messages) > 0 ==> Cost(messages) as real > target
    ensures Flatten(chunks) == messages && NonEmpty(chunks) && |chunks| <= p
    ensures Greedy(chunks, target) && AllFit(chunks[..Min(|chunks|, p - 1)], target)
    ensures Cost(messages) > 0 ==> |chunks| >= 2
  {
    hide Cost, Flatten, Greedy, Chunking;
    chunks := [];
    var current: seq<Message> := [];
    var currentTokens := 0;
    NothingChunked(target);
    assert messages[..0] == [];
    for k := 0 to |messages|
      invariant currentTokens == Cost(current) && (current == [] <==> k == 0) && (k == 0 ==> chunks == [])
      invariant Chunking(chunks, current, messages[..k], target)
      invariant |chunks| <= p - 1 && NonEmpty(chunks) && AllFit(chunks, target)
      invariant |chunks| < p - 1 && k > 0 ==> Fits(current, target)
      invariant |chunks| == 0 ==> current == messages[..k] && (0 < k < |messages| || Cost(messages) == 0 || k == 0)
    {
      var message := messages[k];
      var messageTokens := message.tokens;
      assert messages[..k + 1] == messages[..k] + [message];
      CostSnoc(current, message);
      if |chunks| < p - 1 && current != [] && (currentTokens + messageTokens) as real > target {
        Cut(chunks, current, messages[..k], message, target);
        chunks := chunks + [current];
        current := [];
        currentTokens := 0;
        CostOne(message);
        assert [] + [message] == [message];
      } else {
        if current == [] {
          Begin(chunks, messages[..k], message, target);
          assert [] + [message] == [message];
        } else {
          Grow(chunks, current, messages[..k], message, target);
        }
        if k == |messages| - 1 && |chunks| == 0 {
          assert messages[..k + 1] == messages;
        }
      }
      current := current + [message];
      currentTokens := currentTokens + messageTokens;
    }
    assert messages[..|messages|] == messages;
    Close(chunks, current, messages, target);
    ghost var front := chunks;
    chunks := chunks + [current];
    if |chunks| < p {
      assert chunks[..|chunks|] == chunks;
    } else {
      assert chunks[..p - 1] == front;
    }
  }

  lemma NothingChunked(limit: real)
    ensures Chunking([], [], [], limit) && Cost([]) == 0
  {
  }

  /** One share of several is less than the whole. */
  lemma WholeExceedsShare(messages: seq<Message>, p: nat)
    requires p >= 2
    ensures Cost(messages) > 0 ==> Cost(messages) as real > Cost(messages) as real / p as real
  {
  }

  method ChunkMessagesByMaxTokens(messages: seq<Message>, maxTokens: real) returns (chunks: seq<seq<Message>>)
    ensures var limit := Max(1, (maxTokens / SAFETY_MARGIN).Floor) as real;
            && Flatten(chunks) == messages && NonEmpty(chunks)
            && AllFit(chunks, limit) && Greedy(chunks, limit)
  {
    if messages == [] {
      return [];
    }
    chunks := ChunkByLimit(messages, Max(1, (maxTokens / SAFETY_MARGIN).Floor));
  }

  /** The loop of the chunking, for a whole number of tokens per chunk. */
  method ChunkByLimit(messages: seq<Message>, effectiveMax: nat) returns (chunks: seq<seq<Message>>)
    ensures Flatten(chunks) == messages && NonEmpty(chunks)
    ensures AllFit(chunks, effectiveMax as real) && Greedy(chunks, effectiveMax as real)
  {
    hide Cost, Flatten, Greedy, Chunking;
    ghost var limit := effectiveMax as real;
    chunks := [];
    var currentChunk: seq<Message> := [];
    var currentTokens := 0;
    NothingChunked(limit);
    assert messages[..0] == [];
    for k := 0 to |messages|
      invariant currentTokens == Cost(currentChunk)
      invariant Chunking(chunks, currentChunk, messages[..k], limit)
      invariant currentChunk != [] ==> Fits(currentChunk, limit)
      invariant currentChunk == [] && chunks != [] ==> Cost(chunks[|chunks| - 1]) > effectiveMax
    {
      var message := messages[k];
      var messageTokens := message.tokens;
      assert messages[..k + 1] == messages[..k] + [message];
      CostSnoc(currentChunk, message);
      CostOne(message);
      assert [] + [message] == [message];
      if currentChunk != [] && currentTokens + messageTokens > effectiveMax {
        Cut(chunks, currentChunk, messages[..k], message, limit);
        chunks := chunks + [currentChunk];
        currentChunk := [];
        currentTokens := 0;
      } else if currentChunk == [] {
        Begin(chunks, messages[..k], message, limit);
      } else {
        Grow(chunks, currentChunk, messages[..k], message, limit);
      }
      currentChunk := currentChunk + [message];
      currentTokens := currentTokens + messageTokens;
      if messageTokens > effectiveMax {
        Close(chunks, currentChunk, messages[..k + 1], limit);
        chunks := chunks + [currentChunk];
        currentChunk := [];
        currentTokens := 0;
        NothingChunked(limit);
      }
    }
    assert messages[..|messages|] == messages;
    if currentChunk != [] {
      Close(chunks, currentChunk, messages, limit);
      chunks := chunks + [currentChunk];
    }
    Chunked(chunks, messages, limit);
  }

  lemma Chunked(chunks: seq<seq<Message>>, messages: seq<Message>, limit: real)
    requires Chunking(chunks, [], messages, limit)
    ensures Flatten(chunks) == messages && NonEmpty(chunks) && AllFit(chunks, limit) && Greedy(chunks, limit)
  {
    assert Flatten(chunks) + [] == Flatten(chunks);
  }

  /** Greedy chunking never needs more chunks than any other way to cut the same messages
      into pieces that fit: it even covers a suffix with no more pieces than cover the whole. */
  lemma {:induction false} GreedyIsOptimal(greedy: seq<seq<Message>>, other: seq<seq<Message>>, lead: seq<Message>,
      limit: real)
    requires NonEmpty(greedy) && Greedy(greedy, limit)
    requires NonEmpty(other) && AllFit(other, limit)
    requires Flatten(other) == lead + Flatten(greedy)
    ensures |greedy| <= |other|
    decreases |other|
  {
    if greedy != [] {
      assert Flatten(greedy) == greedy[0] + Flatten(greedy[1..]);
      assert other != [];
      assert Flatten(other) == other[0] + Flatten(other[1..]);
      var all := Flatten(other);
      var piece := other[0];
      if |piece| <= |lead| {
        var rest := lead[|piece|..];
        assert Flatten(other[1..]) == all[|piece|..] == rest + Flatten(greedy);
        GreedyIsOptimal(greedy, other[1..], rest, limit);
      } else {
        PieceEndsInFirstChunk(greedy, piece, lead, limit);
        var rest := greedy[0][|piece| - |lead|..];
        assert Flatten(other[1..]) == all[|piece|..] == rest + Flatten(greedy[1..]);
        forall i | 0 < i < |greedy[1..]| ensures Overfull(greedy[1..][i - 1], greedy[1..][i], limit) {
          assert Overfull(greedy[i], greedy[i + 1], limit);
        }
        GreedyIsOptimal(greedy[1..], other[1..], rest, limit);
      }
    }
  }

  /** A piece that fits and starts no later than the first greedy chunk ends no later either. */
  lemma PieceEndsInFirstChunk(greedy: seq<seq<Message>>, piece: seq<Message>, lead: seq<Message>, limit: real)
    requires greedy != [] && NonEmpty(greedy) && Greedy(greedy, limit) && Fits(piece, limit)
    requires |lead| < |piece| <= |lead + Flatten(greedy)| && piece == (lead + Flatten(greedy))[..|piece|]
    ensures |piece| - |lead| <= |greedy[0]|
  {
    hide Flatten, Cost;
    if |piece| - |lead| > |greedy[0]| {
      OverfullStart(greedy);
      assert Overfull(greedy[0], greedy[1], limit);
      var overfull := greedy[0] + [greedy[1][0]];
      CostSnoc(greedy[0], greedy[1][0]);
      SliceBehind(lead, Flatten(greedy), |piece|, |overfull|);
      PieceCosts(piece, lead, overfull);
      assert false;
    }
  }

  /** Chunks that are longer together than the first one go on with the first message of the second. */
  lemma OverfullStart(chunks: seq<seq<Message>>)
    requires chunks != [] && NonEmpty(chunks)
    ensures |Flatten(chunks)| > |chunks[0]| ==>
              && |chunks| > 1
              && |chunks[0]| + 1 <= |Flatten(chunks)|
                 && Flatten(chunks)[..|chunks[0]| + 1] == chunks[0] + [chunks[1][0]]
  {
    assert Flatten(chunks) == chunks[0] + Flatten(chunks[1..]);
    if |chunks| > 1 {
      assert Flatten(chunks[1..]) == chunks[1] + Flatten(chunks[1..][1..]);
    } else {
      assert Flatten(chunks[1..]) == [];
    }
  }

  lemma SliceBehind<T>(lead: seq<T>, s: seq<T>, end: nat, n: nat)
    requires |lead| + n <= end <= |lead + s|
    ensures (lead + s)[..end][|lead|..|lead| + n] == s[..n]
  {
  }

  lemma PieceCosts(piece: seq<Message>, lead: seq<Message>, part: seq<Message>)
    requires |piece| >= |lead| + |part| && piece[|lead|..|lead| + |part|] == part
    ensures Cost(piece) >= Cost(part)
  {
    var front := piece[..|lead|];
    var tail := piece[|lead| + |part|..];
    assert piece == (front + part) + tail;
    CostAppend(front + part, tail);
    CostAppend(front, part);
  }

  // ----- pruning -----

  datatype Pruned = Pruned(
    messages: seq<Message>,
    droppedMessagesList: seq<Message>,
    droppedChunks: nat,
    droppedMessages: nat,
    droppedTokens: nat,
    keptTokens: nat,
    budgetTokens: nat)

  predicate LeadsWithResult(messages: seq<Message>) {
    messages != [] && messages[0].ToolResult?
  }

  /** The repair as it is called here: results of failed turns are preserved. */
  function Preserving(missingTokens: nat): Options {
    Options(missingTokens, false)
  }

  /** The history after chunks of these sizes have been cut off its front, with a repair after each cut. */
  ghost function AfterCuts(messages: seq<Message>, sizes: seq<nat>, missingTokens: nat): seq<Message> {
    if sizes == [] then messages
    else
      var before := AfterCuts(messages, sizes[..|sizes| - 1], missingTokens);
      Repaired(Rest(before, sizes[|sizes| - 1]), Preserving(missingTokens)).messages
  }

  /** The results that those repairs have dropped because their calls were cut off. */
  ghost function OrphansOfCuts(messages: seq<Message>, sizes: seq<nat>, missingTokens: nat): nat {
    if sizes == [] then 0
    else
      var front := sizes[..|sizes| - 1];
      OrphansOfCuts(messages, front, missingTokens)
      + Repaired(Rest(AfterCuts(messages, front, missingTokens), sizes[|sizes| - 1]), Preserving(missingTokens)).orphans
  }

  function Rest(messages: seq<Message>, n: nat): seq<Message> {
    if n <= |messages| then messages[n..] else []
  }

  lemma OneMoreCut(messages: seq<Message>, sizes: seq<nat>, dropped: seq<Message>, rest: seq<Message>,
      missingTokens: nat)
    requires AfterCuts(messages, sizes, missingTokens) == dropped + rest
    ensures AfterCuts(messages, sizes + [|dropped|], missingTokens)
            == Repaired(rest, Preserving(missingTokens)).messages
    ensures OrphansOfCuts(messages, sizes + [|dropped|], missingTokens)
            == OrphansOfCuts(messages, sizes, missingTokens) + Repaired(rest, Preserving(missingTokens)).orphans
  {
    hide Repaired;
    var more := sizes + [|dropped|];
    assert more[..|more| - 1] == sizes;
    assert Rest(dropped + rest, |dropped|) == rest;
  }

  method PruneHistoryForContextShare(
      messages: seq<Message>, maxContextTokens: real, maxHistoryShare: real, requestedParts: Parts, missingTokens: nat)
    returns (r: Pruned, ghost sizes: seq<nat>)
    ensures r.budgetTokens == Max(1, (maxContextTokens * maxHistoryShare).Floor)
    ensures r.keptTokens == Cost(r.messages) && r.droppedTokens == Cost(r.droppedMessagesList)
    // Within budget, or down to one message that cannot be split.
    ensures NormalizeParts(requestedParts, |messages|) >= 2 ==> r.keptTokens <= r.budgetTokens || |r.messages| <= 1
    // A history within budget, and a request for a single part, leave everything as it is.
    ensures NormalizeParts(requestedParts, |messages|) == 1 || Cost(messages) <= r.budgetTokens ==>
              r.messages == messages && r.droppedMessagesList == [] && r.droppedChunks == 0
    // Apart from tool results, every message is either dropped or kept, in its old order.
    ensures NonResults(r.droppedMessagesList) + NonResults(r.messages) == NonResults(messages)
    // The counters tell how many cuts there were, and count the orphaned results besides the messages cut off.
    ensures r.messages == AfterCuts(messages, sizes, missingTokens) && r.droppedChunks == |sizes|
    ensures r.droppedMessages == |r.droppedMessagesList| + OrphansOfCuts(messages, sizes, missingTokens)
  {
    hide Repaired, AfterCuts, OrphansOfCuts;
    var budgetTokens := Max(1, (maxContextTokens * maxHistoryShare).Floor);
    var kept := messages;
    var allDropped: seq<Message> := [];
    var droppedChunks, droppedMessages, droppedTokens := 0, 0, 0;
    var parts := NormalizeParts(requestedParts, |messages|);
    sizes := [];
    NothingDropped(messages);
    NothingCut(messages, missingTokens);
    while kept != [] && Cost(kept) > budgetTokens
      invariant NonResults(allDropped) + NonResults(kept) == NonResults(messages)
      invariant droppedTokens == Cost(allDropped)
      invariant kept == AfterCuts(messages, sizes, missingTokens) && droppedChunks == |sizes|
      invariant droppedMessages == |allDropped| + OrphansOfCuts(messages, sizes, missingTokens)
      invariant parts == 1 || Cost(messages) <= budgetTokens ==>
                  kept == messages && allDropped == [] && droppedChunks == 0
      decreases LeadsWithResult(kept), |NonResults(kept)|
    {
      var chunks := SplitMessagesByTokenShare(kept, Finite(parts as real));
      if |chunks| <= 1 {
        break;
      }
      var dropped, flatRest := chunks[0], Flatten(chunks[1..]);
      assert kept == dropped + flatRest;
      var report := RepairToolUseResultPairing(flatRest, Preserving(missingTokens));
      RepairPromises(flatRest, Preserving(missingTokens));
      DroppingProgresses(kept, dropped, flatRest, report.messages);
      DroppedAccounts(allDropped, dropped, flatRest, kept, messages);
      OneMoreCut(messages, sizes, dropped, flatRest, missingTokens);
      sizes := sizes + [|dropped|];
      droppedChunks := droppedChunks + 1;
      droppedMessages := droppedMessages + |dropped| + report.orphans;
      droppedTokens := droppedTokens + Cost(dropped);
      allDropped := allDropped + dropped;
      kept := report.messages;
    }
    r := Pruned(kept, allDropped, droppedChunks, droppedMessages, droppedTokens, Cost(kept), budgetTokens);
  }

  lemma NothingCut(messages: seq<Message>, missingTokens: nat)
    ensures AfterCuts(messages, [], missingTokens) == messages && OrphansOfCuts(messages, [], missingTokens) == 0
  {
  }

  lemma NothingDropped(messages: seq<Message>)
    ensures NonResults([]) + NonResults(messages) == NonResults(messages) && Cost([]) == 0
  {
  }

  /** Repairing may add results but never another kind of message, so dropping a chunk makes progress
      unless the history began with a stray tool result, and it never does so again. */
  lemma DroppingProgresses(kept: seq<Message>, dropped: seq<Message>, rest: seq<Message>, repaired: seq<Message>)
    requires dropped != [] && kept == dropped + rest
    requires NonResults(repaired) == NonResults(rest) && !LeadsWithResult(repaired)
    ensures !LeadsWithResult(kept) ==> |NonResults(repaired)| < |NonResults(kept)|
  {
    NonResultsAppend(dropped, rest);
    if !LeadsWithResult(kept) {
      assert dropped == [dropped[0]] + dropped[1..];
      NonResultsAppend([dropped[0]], dropped[1..]);
      NonResultsOne(dropped[0]);
    }
  }

  lemma DroppedAccounts(allDropped: seq<Message>, dropped: seq<Message>, rest: seq<Message>, kept: seq<Message>,
      messages: seq<Message>)
    requires kept == dropped + rest && NonResults(allDropped) + NonResults(kept) == NonResults(messages)
    ensures NonResults(allDropped + dropped) + NonResults(rest) == NonResults(messages)
    ensures Cost(allDropped + dropped) == Cost(allDropped) + Cost(dropped)
  {
    hide NonResults, Cost;
    NonResultsAppend(dropped, rest);
    NonResultsAppend(allDropped, dropped);
    CostAppend(allDropped, dropped);
  }
}
