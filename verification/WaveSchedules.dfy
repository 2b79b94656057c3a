/**
 Which runs of the protocol there are: what a finished run can have read, in how many receives, and
 what becomes of the acks nobody waits for.
 */
module WaveSchedules {
  import opened Arithmetic
  import opened WaveProtocol

  // ---------------------------------------------------------------- what a finished run has read

  /** The acks the client took bound the reads from below; everything sent has been read. */
  lemma CompleteReads(p: Params, s: State, steps: nat)
    requires Sensible(p) && Reachable(p, s, steps) && Complete(p, s)
    ensures |s.sizes| > p.k && Sum(s.sizes) == p.early + Times(p.k, p.chunk)
    ensures ValidReads(p.chunk, p.residue, s.sizes)
  {
    AlwaysInvariant(p, s, steps);
    ScriptAt(p.k, 0);
  }

  // ---------------------------------------------------------------- building runs

  ghost predicate Arrives(p: Params, s: State) {
    exists steps: nat :: Reachable(p, s, steps)
  }

  lemma ArrivesNext(p: Params, s: State, s': State)
    requires Arrives(p, s) && Next(p, s, s')
    ensures Arrives(p, s')
  {
    hide Next, Reachable;
    var steps: nat :| Reachable(p, s, steps);
    OneMoreStep(p, s, s', steps);
  }

  /** Bytes under way after `done` calls of the client and the reads `sizes`. */
  function Rest(p: Params, done: nat, sizes: seq<nat>): int {
    p.early + Times(Sent(p, done), p.chunk) - Sum(sizes)
  }

  /** Both sides between two steps: every read of `sizes` acknowledged. */
  function At(p: Params, done: nat, sizes: seq<nat>): State
    requires Rest(p, done, sizes) >= 0 && |sizes| >= Taken(p, done)
  {
    State(done, Rest(p, done, sizes), |sizes| - Taken(p, done), sizes, Receiving)
  }

  function Reading(p: Params, done: nat, sizes: seq<nat>, n: nat): State
    requires Rest(p, done, sizes) >= n && |sizes| >= Taken(p, done)
  {
    State(done, Rest(p, done, sizes) - n, |sizes| - Taken(p, done), sizes + [n], Pushing)
  }

  lemma SumSnoc(sizes: seq<nat>, n: nat)
    ensures Sum(sizes + [n]) == Sum(sizes) + n
  {
    assert (sizes + [n])[..|sizes|] == sizes;
  }

  lemma ReadPart(p: Params, done: nat, sizes: seq<nat>, n: nat)
    requires |sizes| >= Taken(p, done) && Rest(p, done, sizes) >= n && 1 <= n <= Window(p, sizes)
    requires Arrives(p, At(p, done, sizes))
    ensures Arrives(p, Reading(p, done, sizes, n))
  {
    hide Arrives, Rest, Taken;
    assert ServerRead(p, At(p, done, sizes), Reading(p, done, sizes, n), n);
    ArrivesNext(p, At(p, done, sizes), Reading(p, done, sizes, n));
  }

  /** Receive, push, ack. */
  lemma ReadAndAck(p: Params, done: nat, sizes: seq<nat>, n: nat)
    requires |sizes| >= Taken(p, done) && Rest(p, done, sizes) >= n && 1 <= n <= Window(p, sizes)
    requires Arrives(p, At(p, done, sizes))
    ensures Rest(p, done, sizes + [n]) == Rest(p, done, sizes) - n
    ensures Arrives(p, At(p, done, sizes + [n]))
  {
    SumSnoc(sizes, n);
    ReadPart(p, done, sizes, n);
    hide Arrives, Sum, Taken;
    assert ServerStep(p, Reading(p, done, sizes, n), At(p, done, sizes + [n]));
    ArrivesNext(p, Reading(p, done, sizes, n), At(p, done, sizes + [n]));
  }

  lemma ClientMoves(p: Params, done: nat, sizes: seq<nat>)
    requires done < 2 * p.k + 2 && |sizes| >= Taken(p, done + 1) && |sizes| >= Taken(p, done)
    requires Rest(p, done, sizes) >= 0 && Rest(p, done + 1, sizes) >= 0 && Arrives(p, At(p, done, sizes))
    ensures Arrives(p, At(p, done + 1, sizes))
  {
    ScriptAt(p.k, done);
    hide ClientScript, Arrives, Sum;
    assert ClientStep(p, At(p, done, sizes), At(p, done + 1, sizes));
    ArrivesNext(p, At(p, done, sizes), At(p, done + 1, sizes));
  }

  lemma RoundCounts(p: Params, j: nat)
    requires j < p.k
    ensures Taken(p, 2 * j) == Taken(p, 2 * j + 1) == j && Taken(p, 2 * j + 2) == j + 1
    ensures Sent(p, 2 * j) == j && Sent(p, 2 * j + 1) == Sent(p, 2 * j + 2) == j + 1
  {
  }

  /** Chunk, read, ack. */
  lemma OneRound(p: Params, j: nat, sizes: seq<nat>, n: nat)
    requires j < p.k && |sizes| == j == Taken(p, 2 * j) && Rest(p, 2 * j, sizes) >= 0
    requires 1 <= n <= Window(p, sizes) && n <= Rest(p, 2 * j, sizes) + p.chunk
    requires Arrives(p, At(p, 2 * j, sizes))
    ensures Taken(p, 2 * j + 2) == j + 1
    ensures Rest(p, 2 * j + 2, sizes + [n]) == Rest(p, 2 * j, sizes) + p.chunk - n
    ensures Arrives(p, At(p, 2 * j + 2, sizes + [n]))
  {
    RoundCounts(p, j);
    assert Rest(p, 2 * j + 1, sizes) == Rest(p, 2 * j, sizes) + p.chunk;
    assert Rest(p, 2 * j + 1, sizes + [n]) == Rest(p, 2 * j + 2, sizes + [n]);
    hide *;
    ClientMoves(p, 2 * j, sizes);
    ReadAndAck(p, 2 * j + 1, sizes, n);
    ClientMoves(p, 2 * j + 1, sizes + [n]);
  }

  lemma Begins(p: Params)
    requires p.accepted
    ensures Taken(p, 0) == 0 && Rest(p, 0, []) == p.early && Sum([]) == 0 && Arrives(p, At(p, 0, []))
  {
    assert Reachable(p, Init(p), 0);
    assert Init(p) == At(p, 0, []);
  }

  lemma WindowAt(p: Params, sizes: seq<nat>, j: nat)
    requires Sensible(p) && ValidReads(p.chunk, p.residue, sizes) && j < |sizes|
    ensures 1 <= sizes[j] <= Window(p, sizes[..j]) && sizes[..j + 1] == sizes[..j] + [sizes[j]]
    ensures Sum(sizes[..j + 1]) == Sum(sizes[..j]) + sizes[j]
    ensures Sum(sizes[..j + 1]) + p.residue <= Times(j, p.chunk) + p.chunk
  {
    assert sizes[..j + 1] == sizes[..j] + [sizes[j]];
    SumSnoc(sizes[..j], sizes[j]);
    ReadsBound(p.chunk, p.residue, sizes[..j + 1]);
  }

  /** One read for every chunk: there are always enough bytes for it, whatever its size. */
  lemma {:induction false} RoundsReach(p: Params, sizes: seq<nat>, j: nat)
    requires Sensible(p) && p.accepted && ValidReads(p.chunk, p.residue, sizes) && j <= p.k && j <= |sizes|
    ensures Taken(p, 2 * j) == j && Rest(p, 2 * j, sizes[..j]) == p.early + Times(j, p.chunk) - Sum(sizes[..j]) >= 0
    ensures Arrives(p, At(p, 2 * j, sizes[..j]))
  {
    hide Sent, Taken, Rest, Arrives, At, Sum, Window, ValidReads;
    if j == 0 {
      Begins(p);
      assert sizes[..0] == [];
    } else {
      RoundsReach(p, sizes, j - 1);
      WindowAt(p, sizes, j - 1);
      OneRound(p, j - 1, sizes[..j - 1], sizes[j - 1]);
      assert 2 * (j - 1) + 2 == 2 * j;
    }
  }

  lemma {:induction false} SumPrefix(sizes: seq<nat>, i: nat)
    requires i <= |sizes|
    ensures Sum(sizes[..i]) <= Sum(sizes)
    decreases |sizes|
  {
    if i == |sizes| {
      assert sizes[..i] == sizes;
    } else {
      SumPrefix(sizes[..|sizes| - 1], i);
      assert sizes[..|sizes| - 1][..i] == sizes[..i];
    }
  }

  /** Once all chunks are sent, the server can go on reading while the client waits, or is gone. */
  lemma {:induction false} DrainReach(p: Params, done: nat, sizes: seq<nat>, start: nat, i: nat)
    requires Sensible(p) && ValidReads(p.chunk, p.residue, sizes) && start <= i <= |sizes|
    requires Sum(sizes) <= p.early + Times(p.k, p.chunk) && Sent(p, done) == p.k && start >= Taken(p, done)
    requires Rest(p, done, sizes[..start]) >= 0 && Arrives(p, At(p, done, sizes[..start]))
    ensures Rest(p, done, sizes[..i]) == p.early + Times(p.k, p.chunk) - Sum(sizes[..i]) >= 0
    ensures Arrives(p, At(p, done, sizes[..i]))
    decreases i
  {
    SumPrefix(sizes, i);
    assert Rest(p, done, sizes[..i]) == p.early + Times(p.k, p.chunk) - Sum(sizes[..i]);
    hide Sent, Taken, Rest, Arrives, At, Sum, Window, ValidReads, Times;
    if i > start {
      DrainReach(p, done, sizes, start, i - 1);
      WindowAt(p, sizes, i - 1);
      ReadAndAck(p, done, sizes[..i - 1], sizes[i - 1]);
    }
  }

  /** The client's last two calls. */
  lemma ClientLeaves(p: Params, sizes: seq<nat>)
    requires |sizes| > p.k && Rest(p, 2 * p.k, sizes) >= 0 && Taken(p, 2 * p.k) == p.k
    requires Arrives(p, At(p, 2 * p.k, sizes))
    ensures Rest(p, 2 * p.k + 2, sizes) == Rest(p, 2 * p.k, sizes)
    ensures Taken(p, 2 * p.k + 2) == p.k + 1 && Sent(p, 2 * p.k + 2) == p.k
    ensures Arrives(p, At(p, 2 * p.k + 2, sizes))
  {
    assert Taken(p, 2 * p.k + 1) == p.k + 1 == Taken(p, 2 * p.k + 2);
    assert Sent(p, 2 * p.k) == Sent(p, 2 * p.k + 1) == Sent(p, 2 * p.k + 2) == p.k;
    assert Rest(p, 2 * p.k + 1, sizes) == Rest(p, 2 * p.k, sizes) == Rest(p, 2 * p.k + 2, sizes);
    hide *;
    ClientMoves(p, 2 * p.k, sizes);
    ClientMoves(p, 2 * p.k + 1, sizes);
  }

  // ---------------------------------------------------------------- the reads of finished runs

  /** Some finished run has made exactly these reads. */
  ghost predicate FinishedWith(p: Params, sizes: seq<nat>) {
    exists s: State, steps: nat :: Reachable(p, s, steps) && Complete(p, s) && s.sizes == sizes
  }

  lemma RunEnds(p: Params, sizes: seq<nat>)
    requires |sizes| > p.k && Rest(p, 2 * p.k + 2, sizes) == 0 && Taken(p, 2 * p.k + 2) == p.k + 1
    requires Arrives(p, At(p, 2 * p.k + 2, sizes))
    ensures FinishedWith(p, sizes)
  {
    hide Rest, Reachable;
    var s := At(p, 2 * p.k + 2, sizes);
    var end := s.(phase := Finished);
    ScriptAt(p.k, 0);
    hide ClientScript;
    assert ServerStep(p, s, end);
    ArrivesNext(p, s, end);
    assert Complete(p, end);
  }

  lemma CanFinishWith(p: Params, sizes: seq<nat>)
    requires Sensible(p) && p.accepted && ValidReads(p.chunk, p.residue, sizes)
    requires Sum(sizes) == p.early + Times(p.k, p.chunk) && |sizes| > p.k
    ensures FinishedWith(p, sizes)
  {
    assert sizes[..|sizes|] == sizes && Sent(p, 2 * p.k) == p.k;
    hide *;
    RoundsReach(p, sizes, p.k);
    DrainReach(p, 2 * p.k, sizes, p.k, |sizes|);
    ClientLeaves(p, sizes);
    RunEnds(p, sizes);
  }

  /**
   A sequence of reads is that of a finished run if and only if every read got something and stayed
   in its window, together they got all that was sent, and there are more of them than chunks.
   */
  lemma FinishedReadsExactly(p: Params, sizes: seq<nat>)
    requires Sensible(p)
    ensures FinishedWith(p, sizes)
       <==> && p.accepted && ValidReads(p.chunk, p.residue, sizes)
            && Sum(sizes) == p.early + Times(p.k, p.chunk) && |sizes| > p.k
  {
    hide Reachable, Complete, ValidReads, Sum, Times;
    if FinishedWith(p, sizes) {
      var s: State, steps: nat :| Reachable(p, s, steps) && Complete(p, s) && s.sizes == sizes;
      CompleteReads(p, s, steps);
      if !p.accepted {
        RefusedAlwaysHangs(p, s, steps);
      }
    } else if p.accepted && ValidReads(p.chunk, p.residue, sizes)
              && Sum(sizes) == p.early + Times(p.k, p.chunk) && |sizes| > p.k {
      CanFinishWith(p, sizes);
    }
  }

  lemma {:induction false} WindowsHold(p: Params, n: nat)
    requires Sensible(p)
    ensures n > 0 ==> n + p.residue <= Times(n, p.chunk)
  {
    if n > 1 {
      WindowsHold(p, n - 1);
    }
  }

  /** `total` bytes can be got in `n` reads. */
  ghost predicate Spreadable(p: Params, n: nat, total: nat) {
    n <= total && total + (if n == 0 then 0 else p.residue) <= Times(n, p.chunk)
  }

  /** Of `total` bytes in `n` reads the last is as full as the others allow. */
  function LastOf(p: Params, n: nat, total: nat): int {
    if total - (n - 1) < p.chunk then total - (n - 1) else p.chunk
  }

  lemma SpreadStep(p: Params, n: nat, total: nat)
    requires Sensible(p) && n > 1 && Spreadable(p, n, total)
    ensures 1 <= LastOf(p, n, total) <= p.chunk && LastOf(p, n, total) <= total
    ensures Spreadable(p, n - 1, total - LastOf(p, n, total))
  {
    WindowsHold(p, n - 1);
  }

  function Spread(p: Params, n: nat, total: nat): (r: seq<nat>)
    requires Sensible(p) && Spreadable(p, n, total)
    ensures |r| == n
  {
    if n == 0 then []
    else if n == 1 then [total]
    else
      SpreadStep(p, n, total);
      Spread(p, n - 1, total - LastOf(p, n, total)) + [LastOf(p, n, total)]
  }

  lemma SpreadOne(p: Params, total: nat)
    requires Sensible(p) && Spreadable(p, 1, total)
    ensures ValidReads(p.chunk, p.residue, [total]) && Sum([total]) == total
  {
    SumSnoc([], total);
    assert [] + [total] == [total];
    assert Times(0, p.chunk) == 0;
  }

  lemma {:induction false} SpreadIsValid(p: Params, n: nat, total: nat)
    requires Sensible(p) && Spreadable(p, n, total)
    ensures ValidReads(p.chunk, p.residue, Spread(p, n, total)) && Sum(Spread(p, n, total)) == total
  {
    if n == 1 {
      hide ValidReads, Sum, Times;
      SpreadOne(p, total);
    } else if n > 1 {
      SpreadStep(p, n, total);
      var init, last := Spread(p, n - 1, total - LastOf(p, n, total)), LastOf(p, n, total);
      assert Spread(p, n, total) == init + [last];
      hide *;
      SpreadIsValid(p, n - 1, total - last);
      ValidSnoc(p.chunk, p.residue, init, last);
    }
  }

  lemma ValidSnoc(chunk: nat, residue: nat, sizes: seq<nat>, n: nat)
    requires ValidReads(chunk, residue, sizes) && sizes != [] && 1 <= n <= chunk
    ensures ValidReads(chunk, residue, sizes + [n]) && Sum(sizes + [n]) == Sum(sizes) + n
  {
    SumSnoc(sizes, n);
  }

  ghost predicate CanFinishIn(p: Params, n: nat) {
    exists sizes: seq<nat> :: FinishedWith(p, sizes) && |sizes| == n
  }

  /**
   In how many reads a run can finish: more than there are chunks, no more than there are bytes,
   and enough for all bytes to fit into their windows.
   */
  lemma FinishedCountExactly(p: Params, n: nat)
    requires Sensible(p)
    ensures var total := p.early + Times(p.k, p.chunk);
            CanFinishIn(p, n) <==> p.accepted && p.k < n <= total && total + p.residue <= Times(n, p.chunk)
  {
    var total := p.early + Times(p.k, p.chunk);
    if CanFinishIn(p, n) {
      var sizes: seq<nat> :| FinishedWith(p, sizes) && |sizes| == n;
      FinishedReadsExactly(p, sizes);
      ReadsBound(p.chunk, p.residue, sizes);
    }
    if p.accepted && p.k < n <= total && total + p.residue <= Times(n, p.chunk) {
      SpreadIsValid(p, n, total);
      FinishedReadsExactly(p, Spread(p, n, total));
    }
  }

  // ---------------------------------------------------------------- runs that fill every window

  ghost predicate FillsAll(p: Params, s: State) {
    Sum(s.sizes) + p.residue == Times(|s.sizes|, p.chunk)
  }

  /** Some finished run has filled every window. */
  ghost predicate CanFillAll(p: Params) {
    exists s: State, steps: nat :: Reachable(p, s, steps) && Complete(p, s) && FillsAll(p, s)
  }

  /**
   If a finished run has filled all its windows, late bytes of the first block and the residue made
   up whole chunks of their own.
   */
  lemma FullReadsNeedLateBytes(p: Params, s: State, steps: nat)
    requires Sensible(p) && Reachable(p, s, steps) && Complete(p, s)
    requires FillsAll(p, s)
    ensures p.early > 0 && (p.early + p.residue) % p.chunk == 0
  {
    assert p.residue < p.chunk;
    CompleteReads(p, s, steps);
    hide *;
    LateBytesOf(p, |s.sizes|, Sum(s.sizes));
  }

  lemma LateBytesOf(p: Params, n: nat, sum: nat)
    requires p.residue < p.chunk && n > p.k && sum == p.early + Times(p.k, p.chunk)
    requires sum + p.residue == Times(n, p.chunk)
    ensures p.early > 0 && (p.early + p.residue) % p.chunk == 0
  {
    TimesSum(p.k, n - p.k, p.chunk);
    TimesIsMultiple(n - p.k, p.chunk);
  }

  lemma FullRunFinishes(p: Params, m: nat)
    requires Sensible(p) && p.accepted && m > 0 && Times(m, p.chunk) == p.early + p.residue
    ensures CanFillAll(p)
  {
    var n, total := p.k + m, p.early + Times(p.k, p.chunk);
    TimesSum(p.k, m, p.chunk);
    WindowsHold(p, n);
    SpreadIsValid(p, n, total);
    FinishedReadsExactly(p, Spread(p, n, total));
    hide Reachable, Complete, Sum, Times, Spread;
    var s: State, steps: nat :| Reachable(p, s, steps) && Complete(p, s) && s.sizes == Spread(p, n, total);
    assert FillsAll(p, s);
  }

  lemma WholeQuotient(total: nat, d: nat) returns (m: nat)
    requires d > 0 && total > 0 && total % d == 0
    ensures m > 0 && Times(m, d) == total
  {
    m := total / d;
    TimesIsProduct(m, d);
    assert total == m * d;
  }

  lemma CanFillAllOnlyIf(p: Params)
    requires Sensible(p) && CanFillAll(p)
    ensures p.accepted && p.early > 0 && (p.early + p.residue) % p.chunk == 0
  {
    hide Reachable, Complete, FillsAll;
    var s: State, steps: nat :| Reachable(p, s, steps) && Complete(p, s) && FillsAll(p, s);
    if !p.accepted {
      RefusedAlwaysHangs(p, s, steps);
    }
    FullReadsNeedLateBytes(p, s, steps);
  }

  /**
   A finished run can have filled every window exactly if late bytes of the first block and the
   residue make up whole chunks of their own.
   */
  lemma CanFillAllExactly(p: Params)
    requires Sensible(p)
    ensures CanFillAll(p) <==> p.accepted && p.early > 0 && (p.early + p.residue) % p.chunk == 0
  {
    assert p.chunk > 0;
    hide *;
    if CanFillAll(p) {
      CanFillAllOnlyIf(p);
    } else if p.accepted && p.early > 0 && (p.early + p.residue) % p.chunk == 0 {
      var m := WholeQuotient(p.early + p.residue, p.chunk);
      FullRunFinishes(p, m);
    }
  }

  // ---------------------------------------------------------------- acks nobody waits for

  /** The server acknowledges every read, the client takes one ack more than it sent chunks. */
  lemma UntakenAcks(p: Params, s: State, steps: nat)
    requires Sensible(p) && Reachable(p, s, steps) && Complete(p, s)
    ensures s.acks == |s.sizes| - (p.k + 1)
    ensures p.early + p.residue > p.chunk ==> s.acks > 0
  {
    CompleteReads(p, s, steps);
    CompleteAcks(p, s, steps);
    hide *;
    ReadsBound(p.chunk, p.residue, s.sizes);
    if |s.sizes| == p.k + 1 {
      TimesSum(p.k, 1, p.chunk);
      TimesOne(p.chunk);
    }
  }

  lemma TimesOne(d: nat)
    ensures Times(1, d) == d
  {
    assert Times(0, d) == 0;
  }

  lemma CompleteAcks(p: Params, s: State, steps: nat)
    requires Reachable(p, s, steps) && Complete(p, s)
    ensures s.acks == |s.sizes| - (p.k + 1)
  {
    AlwaysInvariant(p, s, steps);
    ScriptAt(p.k, 0);
    hide Reachable, ClientScript, ValidReads, Sum, Times;
  }

  ghost predicate CanLeaveNoAck(p: Params) {
    exists s: State, steps: nat :: Reachable(p, s, steps) && Complete(p, s) && s.acks == 0
  }

  /**
   A finished run can leave no ack untaken exactly if it can finish in one read more than chunks:
   late bytes and residue fit into one window, and there is a byte for every read.
   */
  lemma LeavesNoAckExactly(p: Params)
    requires Sensible(p)
    ensures CanLeaveNoAck(p)
       <==> p.accepted && p.early + p.residue <= p.chunk && p.early + Times(p.k, p.chunk) > p.k
  {
    FinishedCountExactly(p, p.k + 1);
    assert Times(p.k + 1, p.chunk) == Times(p.k, p.chunk) + p.chunk;
    hide Reachable, Complete, Times;
    if CanLeaveNoAck(p) {
      var s: State, steps: nat :| Reachable(p, s, steps) && Complete(p, s) && s.acks == 0;
      UntakenAcks(p, s, steps);
      assert FinishedWith(p, s.sizes);
    }
    if CanFinishIn(p, p.k + 1) {
      var sizes: seq<nat> :| FinishedWith(p, sizes) && |sizes| == p.k + 1;
      var s: State, steps: nat :| Reachable(p, s, steps) && Complete(p, s) && s.sizes == sizes;
      UntakenAcks(p, s, steps);
    }
  }

  /** Some run has the server push, and so about to ack, after the client has closed. */
  ghost predicate CanAckAfterClose(p: Params) {
    exists s: State, steps: nat :: Reachable(p, s, steps) && Closed(p, s) && s.phase == Pushing
  }

  lemma LateAckNeedsBytes(p: Params, s: State, steps: nat)
    requires Sensible(p) && Reachable(p, s, steps) && Closed(p, s) && s.phase == Pushing
    ensures p.accepted && p.early + Times(p.k, p.chunk) > p.k + 1
  {
    AlwaysInvariant(p, s, steps);
    ScriptAt(p.k, 0);
    ReadsBound(p.chunk, p.residue, s.sizes);
  }

  /** The client has all its acks and leaves, with the rest of the bytes still under way. */
  lemma ClientGone(p: Params, sizes: seq<nat>)
    requires Sensible(p) && p.accepted && ValidReads(p.chunk, p.residue, sizes)
    requires |sizes| == p.k + 1 && Sum(sizes) <= p.early + Times(p.k, p.chunk)
    ensures Taken(p, 2 * p.k + 2) == p.k + 1
    ensures 0 <= Rest(p, 2 * p.k + 2, sizes) == p.early + Times(p.k, p.chunk) - Sum(sizes)
    ensures Arrives(p, At(p, 2 * p.k + 2, sizes))
  {
    assert sizes[..|sizes|] == sizes && Sent(p, 2 * p.k) == p.k;
    hide *;
    RoundsReach(p, sizes, p.k);
    DrainReach(p, 2 * p.k, sizes, p.k, p.k + 1);
    ClientLeaves(p, sizes);
  }

  /** With one byte a read, there is a byte left to read then. */
  lemma SlowReads(p: Params)
    requires Sensible(p) && p.accepted && p.early + Times(p.k, p.chunk) > p.k + 1
    ensures CanAckAfterClose(p)
  {
    var ones := Ones(p.k + 1);
    OnesAreValid(p, p.k + 1);
    assert 1 <= p.chunk == Window(p, ones);
    hide *;
    ClientGone(p, ones);
    ReadPart(p, 2 * p.k + 2, ones, 1);
    LateRead(p, ones);
  }

  lemma LateRead(p: Params, sizes: seq<nat>)
    requires |sizes| >= Taken(p, 2 * p.k + 2) && Rest(p, 2 * p.k + 2, sizes) >= 1
    requires Arrives(p, Reading(p, 2 * p.k + 2, sizes, 1))
    ensures CanAckAfterClose(p)
  {
    ScriptAt(p.k, 0);
    hide ClientScript, Reachable, Rest, Taken;
    assert Closed(p, Reading(p, 2 * p.k + 2, sizes, 1));
  }

  function Ones(n: nat): (r: seq<nat>)
    ensures |r| == n
  {
    seq(n, _ => 1)
  }

  lemma {:induction false} OnesAreValid(p: Params, n: nat)
    requires Sensible(p)
    ensures ValidReads(p.chunk, p.residue, Ones(n)) && Sum(Ones(n)) == n
  {
    if n > 0 {
      OnesAreValid(p, n - 1);
      assert Ones(n)[..n - 1] == Ones(n - 1);
    }
  }

  /**
   The server can come to ack a client that has closed exactly if there are two bytes more than
   chunks: one read for every ack the client takes, and one after it.
   */
  lemma AckAfterCloseExactly(p: Params)
    requires Sensible(p)
    ensures CanAckAfterClose(p) <==> p.accepted && p.early + Times(p.k, p.chunk) >= p.k + 2
  {
    hide Reachable, Closed, Times;
    if CanAckAfterClose(p) {
      var s: State, steps: nat :| Reachable(p, s, steps) && Closed(p, s) && s.phase == Pushing;
      LateAckNeedsBytes(p, s, steps);
    } else if p.accepted && p.early + Times(p.k, p.chunk) >= p.k + 2 {
      SlowReads(p);
    }
  }
}
