/** Bounded capture of a child process's output (src/agents/bash-process-registry.ts).
    Output is a sequence of units of any type `T`; the source's units are UTF-16 code units. */
module ProcessOutput {
  import opened Common
  import opened Text

  const DEFAULT_PENDING_OUTPUT_CHARS: nat := 30_000
  const TAIL_CHARS: nat := 2_000

  /** The last `max` units of `text`, or all of it. */
  function TrimWithCap<T>(text: seq<T>, max: nat): seq<T> {
    if |text| <= max then text else text[|text| - max..]
  }

  /** A window is what stands last, as much of it as there is room for. */
  lemma WindowIsLast<T>(front: seq<T>, last: seq<T>)
    ensures TrimWithCap(front + last, |last|) == last
    ensures forall max: nat | max >= |last| :: TrimWithCap(last, max) == last
  {
    assert (front + last)[|front|..] == last;
  }

  /** Keeping a window of a window's continuation is keeping a window of the whole. */
  lemma WindowOfWindow<T>(log: seq<T>, chunk: seq<T>, cap: nat)
    ensures TrimWithCap(TrimWithCap(log, cap) + chunk, cap) == TrimWithCap(log + chunk, cap)
  {
  }

  lemma WindowNests<T>(log: seq<T>, inner: nat, outer: nat)
    ensures TrimWithCap(TrimWithCap(log, outer), inner) == TrimWithCap(log, Min(inner, outer))
  {
  }

  lemma WindowSize<T>(log: seq<T>, cap: nat)
    ensures |TrimWithCap(log, cap)| <= |log| && (|TrimWithCap(log, cap)| < |log| <==> |log| > cap)
  {
  }

  method CapPendingBuffer<T>(chunks: seq<seq<T>>, pendingChars: nat, cap: nat) returns (capped: seq<seq<T>>, chars: nat)
    requires pendingChars == |Flatten(chunks)|
    ensures Flatten(capped) == TrimWithCap(Flatten(chunks), cap)
    ensures chars == |Flatten(capped)|
  {
    hide Flatten;
    if pendingChars <= cap {
      return chunks, pendingChars;
    }
    ghost var all := Flatten(chunks);
    if chunks != [] && |chunks[|chunks| - 1]| > 0 && |chunks[|chunks| - 1]| >= cap {
      var last := chunks[|chunks| - 1];
      assert chunks == chunks[..|chunks| - 1] + [last];
      FlattenAppend(chunks[..|chunks| - 1], [last]);
      FlattenOne(last);
      assert all == Flatten(chunks[..|chunks| - 1]) + last;
      FlattenOne(last[|last| - cap..]);
      return [last[|last| - cap..]], cap;
    }
    capped, chars := chunks, pendingChars;
    while capped != [] && chars - |capped[0]| >= cap
      invariant cap <= chars <= |all|
      invariant Flatten(capped) == all[|all| - chars..]
    {
      FlattenHead(capped);
      assert Flatten(capped[1..]) == Flatten(capped)[|capped[0]|..];
      chars := chars - |capped[0]|;
      capped := capped[1..];
    }
    if capped != [] && chars > cap {
      var overflow := chars - cap;
      FlattenHead(capped);
      ghost var before := capped;
      capped := [capped[0][overflow..]] + capped[1..];
      FlattenHead(capped);
      assert capped[1..] == before[1..];
      chars := cap;
    }
    if capped == [] {
      FlattenNone(capped);
    }
  }

  /** Push a chunk and cap the buffer if that made it too long. */
  method PushCapped<T>(buffer: seq<seq<T>>, bufferChars: nat, chunk: seq<T>, pendingCap: nat)
    returns (pushed: seq<seq<T>>, chars: nat)
    requires bufferChars == |Flatten(buffer)|
    ensures Flatten(pushed) == TrimWithCap(Flatten(buffer) + chunk, pendingCap)
    ensures chars == |Flatten(pushed)|
  {
    FlattenAppend(buffer, [chunk]);
    FlattenOne(chunk);
    pushed, chars := buffer + [chunk], bufferChars + |chunk|;
    if chars > pendingCap {
      pushed, chars := CapPendingBuffer(pushed, chars, pendingCap);
    }
  }

  lemma FlattenHead<T>(chunks: seq<seq<T>>)
    requires chunks != []
    ensures Flatten(chunks) == chunks[0] + Flatten(chunks[1..])
  {
  }

  lemma FlattenNone<T>(chunks: seq<seq<T>>)
    requires chunks == []
    ensures Flatten(chunks) == []
  {
  }

  lemma FlattenOne<T>(chunk: seq<T>)
    ensures Flatten([chunk]) == chunk
  {
    assert Flatten([chunk]) == chunk + Flatten([][..]);
  }

  // ----- the full log, as a specification -----

  datatype Stream = Stdout | Stderr

  datatype Op<T> = Append(stream: Stream, chunk: seq<T>) | Drain

  /** Everything written to `stream` since the last drain. */
  ghost function SinceDrain<T>(ops: seq<Op<T>>, stream: Stream): seq<T> {
    if ops == [] then []
    else match ops[|ops| - 1]
      case Drain => []
      case Append(s, chunk) => SinceDrain(ops[..|ops| - 1], stream) + if s == stream then chunk else []
  }

  /** Everything ever written, both streams in order of arrival. */
  ghost function Everything<T>(ops: seq<Op<T>>): seq<T> {
    if ops == [] then []
    else match ops[|ops| - 1]
      case Drain => Everything(ops[..|ops| - 1])
      case Append(_, chunk) => Everything(ops[..|ops| - 1]) + chunk
  }

  /** At some moment one of the windows was too small for what it should have held. */
  ghost predicate EverLost<T>(ops: seq<Op<T>>, pendingCap: nat, maxOutputChars: nat) {
    exists n :: 0 <= n <= |ops| && LosesAt(ops[..n], pendingCap, maxOutputChars)
  }

  ghost predicate LosesAt<T>(ops: seq<Op<T>>, pendingCap: nat, maxOutputChars: nat) {
    || |SinceDrain(ops, Stdout)| > pendingCap
    || |SinceDrain(ops, Stderr)| > pendingCap
    || |Everything(ops)| > maxOutputChars
  }

  lemma LosesWithOneMore<T>(ops: seq<Op<T>>, op: Op<T>, pendingCap: nat, maxOutputChars: nat)
    ensures EverLost(ops + [op], pendingCap, maxOutputChars)
            <==> EverLost(ops, pendingCap, maxOutputChars) || LosesAt(ops + [op], pendingCap, maxOutputChars)
  {
    var more := ops + [op];
    assert more[..|more|] == more;
    assert forall n :: 0 <= n <= |ops| ==> more[..n] == ops[..n];
    if EverLost(ops, pendingCap, maxOutputChars) {
      var n :| 0 <= n <= |ops| && LosesAt(ops[..n], pendingCap, maxOutputChars);
      assert LosesAt(more[..n], pendingCap, maxOutputChars);
    }
    if EverLost(more, pendingCap, maxOutputChars) {
      var n :| 0 <= n <= |more| && LosesAt(more[..n], pendingCap, maxOutputChars);
      if n <= |ops| {
        assert LosesAt(ops[..n], pendingCap, maxOutputChars);
      }
    }
    if LosesAt(more, pendingCap, maxOutputChars) {
      assert LosesAt(more[..|more|], pendingCap, maxOutputChars);
    }
  }

  lemma AppendedToLog<T>(ops: seq<Op<T>>, stream: Stream, chunk: seq<T>)
    ensures var more := ops + [Append(stream, chunk)];
            && SinceDrain(more, stream) == SinceDrain(ops, stream) + chunk
            && (forall s :: s != stream ==> SinceDrain(more, s) == SinceDrain(ops, s))
            && Everything(more) == Everything(ops) + chunk
  {
    var more := ops + [Append(stream, chunk)];
    assert more[..|more| - 1] == ops;
  }

  lemma DrainedLog<T>(ops: seq<Op<T>>, pendingCap: nat, maxOutputChars: nat)
    ensures var more := ops + [Drain];
            && (forall s :: SinceDrain(more, s) == [])
            && Everything(more) == Everything(ops)
            && (EverLost(more, pendingCap, maxOutputChars) <==> EverLost(ops, pendingCap, maxOutputChars))
  {
    var more := ops + [Drain];
    assert more[..|more| - 1] == ops;
    LosesWithOneMore(ops, Drain, pendingCap, maxOutputChars);
    if LosesAt(more, pendingCap, maxOutputChars) {
      assert ops[..|ops|] == ops;
    }
  }

  /** Whether one more append loses something, in terms of what the windows hold. */
  lemma AppendLoses<T>(ops: seq<Op<T>>, stream: Stream, chunk: seq<T>, pendingCap: nat, maxOutputChars: nat)
    ensures EverLost(ops + [Append(stream, chunk)], pendingCap, maxOutputChars)
            <==> || EverLost(ops, pendingCap, maxOutputChars)
                 || |TrimWithCap(SinceDrain(ops, stream), pendingCap)| + |chunk| > pendingCap
                 || |TrimWithCap(Everything(ops), maxOutputChars)| + |chunk| > maxOutputChars
  {
    AppendedToLog(ops, stream, chunk);
    LosesWithOneMore(ops, Append(stream, chunk), pendingCap, maxOutputChars);
    assert ops[..|ops|] == ops;
    if LosesAt(ops, pendingCap, maxOutputChars) {
      assert EverLost(ops, pendingCap, maxOutputChars);
    }
  }

  /** The buffer holds the window of what `stream` was sent since the last drain, and `chars` counts it. */
  ghost predicate Pending<T>(buffer: seq<seq<T>>, chars: nat, ops: seq<Op<T>>, stream: Stream, cap: nat) {
    Flatten(buffer) == TrimWithCap(SinceDrain(ops, stream), cap) && chars == |Flatten(buffer)|
  }

  lemma PendingIs<T>(buffer: seq<seq<T>>, chars: nat, ops: seq<Op<T>>, stream: Stream, cap: nat)
    ensures Pending(buffer, chars, ops, stream, cap) <==>
            Flatten(buffer) == TrimWithCap(SinceDrain(ops, stream), cap) && chars == |Flatten(buffer)|
  {
  }

  lemma AppendedToPending<T>(ops: seq<Op<T>>, stream: Stream, chunk: seq<T>, cap: nat, buffer: seq<seq<T>>, chars: nat,
      other: Stream)
    ensures var more := ops + [Append(stream, chunk)];
            && TrimWithCap(SinceDrain(more, stream), cap)
               == TrimWithCap(TrimWithCap(SinceDrain(ops, stream), cap) + chunk, cap)
            && (other != stream && Pending(buffer, chars, ops, other, cap) ==> Pending(buffer, chars, more, other, cap))
  {
    AppendedToLog(ops, stream, chunk);
    WindowOfWindow(SinceDrain(ops, stream), chunk, cap);
  }

  /** A session is only ever appended to and drained; `history` records how. */
  class ProcessSession<T> {
    const maxOutputChars: nat
    const pendingMaxOutputChars: Option<nat>
    var totalOutputChars: nat
    var pendingStdout: seq<seq<T>>
    var pendingStderr: seq<seq<T>>
    var pendingStdoutChars: nat
    var pendingStderrChars: nat
    var aggregated: seq<T>
    var tail: seq<T>
    var truncated: bool

    ghost var history: seq<Op<T>>

    constructor (maxOutputChars: nat, pendingMaxOutputChars: Option<nat>)
      ensures this.maxOutputChars == maxOutputChars && this.pendingMaxOutputChars == pendingMaxOutputChars
      ensures history == [] && Valid()
    {
      this.maxOutputChars := maxOutputChars;
      this.pendingMaxOutputChars := pendingMaxOutputChars;
      totalOutputChars := 0;
      pendingStdout, pendingStderr := [], [];
      pendingStdoutChars, pendingStderrChars := 0, 0;
      aggregated, tail := [], [];
      truncated := false;
      history := [];
    }

    function PendingCap(): nat {
      Min(match pendingMaxOutputChars case Some(n) => n case None => DEFAULT_PENDING_OUTPUT_CHARS, maxOutputChars)
    }

    /** The session's bounded state is the matching view of the unbounded history. */
    ghost predicate Valid()
      reads this
    {
      && Pending(pendingStdout, pendingStdoutChars, history, Stdout, PendingCap())
      && Pending(pendingStderr, pendingStderrChars, history, Stderr, PendingCap())
      && aggregated == TrimWithCap(Everything(history), maxOutputChars)
      && tail == TrimWithCap(Everything(history), Min(TAIL_CHARS, maxOutputChars))
      && totalOutputChars == |Everything(history)|
      && (truncated <==> EverLost(history, PendingCap(), maxOutputChars))
    }

    method AppendOutput(stream: Stream, chunk: seq<T>)
      requires Valid()
      modifies this
      ensures Valid() && history == old(history) + [Append(stream, chunk)]
    {
      hide Flatten, SinceDrain, Everything, EverLost, TrimWithCap, PendingCap, Pending, Min;
      AppendedToLog(history, stream, chunk);
      AppendLoses(history, stream, chunk, PendingCap(), maxOutputChars);
      if stream == Stdout {
        AppendedToPending(history, stream, chunk, PendingCap(), pendingStderr, pendingStderrChars, Stderr);
      } else {
        AppendedToPending(history, stream, chunk, PendingCap(), pendingStdout, pendingStdoutChars, Stdout);
      }
      WindowOfWindow(Everything(history), chunk, maxOutputChars);
      WindowNests(Everything(history) + chunk, TAIL_CHARS, maxOutputChars);
      WindowSize(aggregated + chunk, maxOutputChars);
      history := history + [Append(stream, chunk)];
      var buffer := if stream == Stdout then pendingStdout else pendingStderr;
      var bufferChars := if stream == Stdout then pendingStdoutChars else pendingStderrChars;
      var pendingCap := PendingCap();
      var pendingChars: nat;
      PendingIs(buffer, bufferChars, old(history), stream, pendingCap);
      buffer, pendingChars := PushCapped(buffer, bufferChars, chunk, pendingCap);
      PendingIs(buffer, pendingChars, history, stream, pendingCap);
      if bufferChars + |chunk| > pendingCap {
        truncated := true;
      }
      if stream == Stdout {
        pendingStdout, pendingStdoutChars := buffer, pendingChars;
      } else {
        pendingStderr, pendingStderrChars := buffer, pendingChars;
      }
      totalOutputChars := totalOutputChars + |chunk|;
      var kept := TrimWithCap(aggregated + chunk, maxOutputChars);
      truncated := truncated || |kept| < |aggregated| + |chunk|;
      aggregated := kept;
      tail := TrimWithCap(aggregated, TAIL_CHARS);
    }

    method DrainSession() returns (stdout: seq<T>, stderr: seq<T>)
      requires Valid()
      modifies this
      ensures Valid() && history == old(history) + [Drain]
      ensures stdout == TrimWithCap(SinceDrain(old(history), Stdout), PendingCap())
      ensures stderr == TrimWithCap(SinceDrain(old(history), Stderr), PendingCap())
      ensures aggregated == old(aggregated) && truncated == old(truncated)
    {
      DrainedLog(history, PendingCap(), maxOutputChars);
      stdout, stderr := Flatten(pendingStdout), Flatten(pendingStderr);
      pendingStdout, pendingStderr := [], [];
      pendingStdoutChars, pendingStderrChars := 0, 0;
      history := history + [Drain];
    }
  }
}
