/** What a whole wave command amounts to: which bytes reach the pushes, and which reach a speaker. */
module WaveStreams {
  import opened Arithmetic
  import opened Bytes
  import opened PushWave
  import opened WaveProtocol
  import opened WaveSchedules

  // ---------------------------------------------------------------- the splitting loop

  ghost predicate AllOf(blocks: seq<seq<Byte>>, len: nat) {
    forall j | 0 <= j < |blocks| :: |blocks[j]| == len
  }

  lemma AllOfCons(x: seq<Byte>, rest: seq<seq<Byte>>, len: nat)
    requires |x| == len && AllOf(rest, len)
    ensures AllOf([x] + rest, len)
  {
  }

  lemma SplitFront(s: seq<Byte>, chunk: nat, a: seq<Byte>, b: seq<Byte>)
    requires chunk <= |s| && a + b == s[chunk..]
    ensures (s[..chunk] + a) + b == s
  {
    ConcatAssoc(s[..chunk], a, b);
    assert s == s[..chunk] + s[chunk..];
  }

  /** The first loop loses nothing: whole chunks, then less than a chunk of residue. */
  lemma {:induction false} PiecesAndResidue(s: seq<Byte>, chunk: nat)
    requires chunk > 0
    ensures Flatten(Pieces(s, chunk)) + Residue(s, chunk) == s
    ensures AllOf(Pieces(s, chunk), chunk)
    ensures |Pieces(s, chunk)| == |s| / chunk && |Residue(s, chunk)| == |s| % chunk
    decreases |s|
  {
    if |s| < chunk {
      DivModUnique(|s|, chunk, 0, |s|);
    } else {
      var first, rest := s[..chunk], Pieces(s[chunk..], chunk);
      assert Pieces(s, chunk) == [first] + rest && Residue(s, chunk) == Residue(s[chunk..], chunk);
      hide *;
      PiecesAndResidue(s[chunk..], chunk);
      AllOfCons(first, rest, chunk);
      FlattenCons(first, rest);
      SplitFront(s, chunk, Flatten(rest), Residue(s[chunk..], chunk));
      DropDivides(|s|, chunk);
    }
  }

  lemma DropDivides(len: nat, d: nat)
    requires 0 < d <= len
    ensures len / d == (len - d) / d + 1 && len % d == (len - d) % d
  {
    var q := (len - d) / d;
    MulSucc(q, d);
    DivModUnique(len, d, q + 1, (len - d) % d);
  }

  lemma {:induction false} FlattenLength(blocks: seq<seq<Byte>>, len: nat)
    requires AllOf(blocks, len)
    ensures |Flatten(blocks)| == Times(|blocks|, len)
  {
    if blocks != [] {
      FlattenLength(blocks[1..], len);
    }
  }

  // ---------------------------------------------------------------- the receiving loop

  /** How much of each pushed buffer is new: residue and first segment, then one segment each. */
  function FreshEnd(residue: nat, segs: seq<seq<Byte>>, j: nat): nat
    requires j < |segs|
  {
    PlaceOf(residue, j) + |segs[j]|
  }

  function FreshParts(buf: seq<Byte>, residue: nat, segs: seq<seq<Byte>>): (r: seq<seq<Byte>>)
    requires Fitting(|buf|, residue, segs)
    ensures |r| == |segs|
    decreases |segs|
  {
    if segs == [] then [] else
      FittingPrefix(|buf|, residue, segs);
      var last := |segs| - 1;
      FreshParts(buf, residue, segs[..last]) + [BufferAfter(buf, residue, segs)[..FreshEnd(residue, segs, last)]]
  }

  lemma FreshPart(buf: seq<Byte>, residue: nat, segs: seq<seq<Byte>>)
    requires Fitting(|buf|, residue, segs) && segs != []
    ensures FreshEnd(residue, segs, |segs| - 1) <= |buf| && Fitting(|buf|, residue, segs[..|segs| - 1])
    ensures FreshParts(buf, residue, segs) == FreshParts(buf, residue, segs[..|segs| - 1])
                                              + [(if |segs| == 1 then buf[..residue] else []) + segs[|segs| - 1]]
    ensures |segs| == 1 ==> segs[..|segs| - 1] == [] == FreshParts(buf, residue, segs[..|segs| - 1])
  {
    FittingPrefix(|buf|, residue, segs);
    assert BufferAfter(buf, residue, segs)[..FreshEnd(residue, segs, |segs| - 1)]
        == (if |segs| == 1 then buf[..residue] else []) + segs[|segs| - 1];
  }

  /**
   For any reads, however short: the new parts of the buffers pushed are the residue followed by
   what was received, every byte once and in order.
   */
  lemma {:induction false} FreshPartsFlatten(buf: seq<Byte>, residue: nat, segs: seq<seq<Byte>>)
    requires Fitting(|buf|, residue, segs)
    ensures Flatten(FreshParts(buf, residue, segs))
         == (if segs == [] then [] else buf[..residue]) + Flatten(segs)
    decreases |segs|
  {
    if segs != [] {
      var init, seg := segs[..|segs| - 1], segs[|segs| - 1];
      assert segs == init + [seg] && (|segs| == 1 ==> Flatten(init) == []);
      FreshPart(buf, residue, segs);
      hide *;
      FreshPartsFlatten(buf, residue, init);
      FlattenSnoc(FreshParts(buf, residue, init), (if |segs| == 1 then buf[..residue] else []) + seg);
      FlattenSnoc(init, seg);
      JoinFresh(buf[..residue], Flatten(init), seg, |segs| == 1);
    }
  }

  /**
   In the `j`-th buffer pushed, the segment read for it sits where it was read to, the residue in
   front of the first; behind it is what was there before.
   */
  lemma {:induction false} SegmentInPlace(buf: seq<Byte>, residue: nat, segs: seq<seq<Byte>>, j: nat)
    requires Fitting(|buf|, residue, segs) && j < |segs|
    ensures |Buffers(buf, residue, segs)[j]| == |buf| && FreshEnd(residue, segs, j) <= |buf|
    ensures var now := Buffers(buf, residue, segs)[j];
            var was := if j == 0 then buf else Buffers(buf, residue, segs)[j - 1];
            && |was| == |buf|
            && now[..PlaceOf(residue, j)] == was[..PlaceOf(residue, j)]
            && now[PlaceOf(residue, j)..FreshEnd(residue, segs, j)] == segs[j]
            && now[FreshEnd(residue, segs, j)..] == was[FreshEnd(residue, segs, j)..]
    ensures FreshParts(buf, residue, segs)[j] == Buffers(buf, residue, segs)[j][..FreshEnd(residue, segs, j)]
    decreases |segs|
  {
    var init := segs[..|segs| - 1];
    BuffersLast(buf, residue, segs);
    hide Buffers, BufferAfter, FreshParts, Fitting;
    assert j > 0 ==> Buffers(buf, residue, segs)[j - 1] == Buffers(buf, residue, init)[j - 1];
    if j < |init| {
      SegmentInPlace(buf, residue, init, j);
      assert Buffers(buf, residue, segs)[j] == Buffers(buf, residue, init)[j] && segs[j] == init[j];
      assert FreshParts(buf, residue, segs)[j] == FreshParts(buf, residue, init)[j];
    }
  }

  lemma BuffersLast(buf: seq<Byte>, residue: nat, segs: seq<seq<Byte>>)
    requires Fitting(|buf|, residue, segs) && segs != []
    ensures Fitting(|buf|, residue, segs[..|segs| - 1]) && FreshEnd(residue, segs, |segs| - 1) <= |buf|
    ensures var last := |segs| - 1;
            var now, end := BufferAfter(buf, residue, segs), FreshEnd(residue, segs, last);
            var was := BufferAfter(buf, residue, segs[..last]);
            && Buffers(buf, residue, segs) == Buffers(buf, residue, segs[..last]) + [now]
            && FreshParts(buf, residue, segs) == FreshParts(buf, residue, segs[..last]) + [now[..end]]
            && was == (if last == 0 then buf else Buffers(buf, residue, segs[..last])[last - 1])
            && now[..PlaceOf(residue, last)] == was[..PlaceOf(residue, last)]
            && now[PlaceOf(residue, last)..end] == segs[last] && now[end..] == was[end..]
  {
    FittingPrefix(|buf|, residue, segs);
    var init := segs[..|segs| - 1];
    if init != [] {
      FittingPrefix(|buf|, residue, init);
      assert Buffers(buf, residue, init)[|init| - 1] == BufferAfter(buf, residue, init);
    }
  }

  lemma JoinFresh(front: seq<Byte>, before: seq<Byte>, seg: seq<Byte>, first: bool)
    requires first ==> before == []
    ensures ((if first then [] else front) + before) + ((if first then front else []) + seg)
         == front + (before + seg)
  {
  }

  /** Nothing of the first block and the stream is lost, if anything is received at all. */
  lemma StreamConservation(payload: seq<Byte>, chunk: nat, buf: seq<Byte>, segs: seq<seq<Byte>>)
    requires chunk == |buf| > 0 && buf[..|Residue(payload, chunk)|] == Residue(payload, chunk)
    requires Fitting(chunk, |Residue(payload, chunk)|, segs)
    ensures Flatten(Pieces(payload, chunk)) + Flatten(FreshParts(buf, |Residue(payload, chunk)|, segs))
         == if segs == [] then payload[..|payload| - |Residue(payload, chunk)|] else payload + Flatten(segs)
  {
    var pieces, residue := Flatten(Pieces(payload, chunk)), Residue(payload, chunk);
    PiecesAndResidue(payload, chunk);
    FreshPartsFlatten(buf, |residue|, segs);
    hide *;
    ConcatAssoc(pieces, residue, Flatten(segs));
    assert payload[..|payload| - |residue|] == pieces;
  }

  // ---------------------------------------------------------------- filled windows

  /** Every read filled its window. */
  ghost predicate Filled(chunk: nat, residue: nat, segs: seq<seq<Byte>>) {
    forall j | 0 <= j < |segs| :: PlaceOf(residue, j) + |segs[j]| == chunk
  }

  lemma {:induction false} FilledBuffers(buf: seq<Byte>, residue: nat, segs: seq<seq<Byte>>)
    requires Fitting(|buf|, residue, segs) && Filled(|buf|, residue, segs)
    ensures Buffers(buf, residue, segs) == FreshParts(buf, residue, segs)
    decreases |segs|
  {
    if segs != [] {
      FittingPrefix(|buf|, residue, segs);
      FilledSnoc(|buf|, residue, segs);
      FilledBuffers(buf, residue, segs[..|segs| - 1]);
      var now := BufferAfter(buf, residue, segs);
      assert now[..FreshEnd(residue, segs, |segs| - 1)] == now;
    }
  }

  lemma {:induction false} BuffersLength(buf: seq<Byte>, residue: nat, segs: seq<seq<Byte>>)
    requires Fitting(|buf|, residue, segs)
    ensures AllOf(Buffers(buf, residue, segs), |buf|)
    decreases |segs|
  {
    if segs != [] {
      FittingPrefix(|buf|, residue, segs);
      BuffersLength(buf, residue, segs[..|segs| - 1]);
    }
  }

  /** The received bytes and the residue fill the buffers pushed only if every read filled its window. */
  lemma {:induction false} FullOnlyIfFilled(chunk: nat, residue: nat, segs: seq<seq<Byte>>)
    requires Fitting(chunk, residue, segs)
    ensures |Flatten(segs)| + (if segs == [] then 0 else residue) <= Times(|segs|, chunk)
    ensures |Flatten(segs)| + (if segs == [] then 0 else residue) == Times(|segs|, chunk)
       <==> Filled(chunk, residue, segs)
    decreases |segs|
  {
    if segs != [] {
      var init, seg := segs[..|segs| - 1], segs[|segs| - 1];
      FittingPrefix(chunk, residue, segs);
      FullOnlyIfFilled(chunk, residue, init);
      FlattenSnoc(init, seg);
      assert segs == init + [seg];
      FilledSnoc(chunk, residue, segs);
      hide Flatten, Fitting, Filled;
    }
  }

  lemma FilledSnoc(chunk: nat, residue: nat, segs: seq<seq<Byte>>)
    requires segs != []
    ensures var last := |segs| - 1;
            Filled(chunk, residue, segs)
            <==> Filled(chunk, residue, segs[..last]) && PlaceOf(residue, last) + |segs[last]| == chunk
  {
    var last := |segs| - 1;
    if Filled(chunk, residue, segs[..last]) && PlaceOf(residue, last) + |segs[last]| == chunk {
      forall j | 0 <= j < |segs|
        ensures PlaceOf(residue, j) + |segs[j]| == chunk
      {
        assert j < last ==> segs[..last][j] == segs[j];
      }
    }
    if Filled(chunk, residue, segs) {
      forall j | 0 <= j < last
        ensures PlaceOf(residue, j) + |segs[..last][j]| == chunk
      {
        assert segs[..last][j] == segs[j];
      }
    }
  }

  /**
   The buffers pushed are the first block's payload and the stream after it, cut into chunks,
   exactly if every read filled its window and the residue, if any, was followed by some read.
   */
  lemma PushedIsStreamExactly(payload: seq<Byte>, chunk: nat, buf: seq<Byte>, segs: seq<seq<Byte>>)
    requires chunk == |buf| > 0 && buf[..|Residue(payload, chunk)|] == Residue(payload, chunk)
    requires Fitting(chunk, |Residue(payload, chunk)|, segs)
    ensures var residue := |Residue(payload, chunk)|;
            var blocks := Pieces(payload, chunk) + Buffers(buf, residue, segs);
            && AllOf(blocks, chunk)
            && (Flatten(blocks) == payload + Flatten(segs)
                <==> Filled(chunk, residue, segs) && (segs != [] || residue == 0))
  {
    var residue := |Residue(payload, chunk)|;
    var pieces, buffers := Pieces(payload, chunk), Buffers(buf, residue, segs);
    PiecesAndResidue(payload, chunk);
    BuffersLength(buf, residue, segs);
    FlattenAppend(pieces, buffers);
    FlattenLength(buffers, chunk);
    FullOnlyIfFilled(chunk, residue, segs);
    StreamConservation(payload, chunk, buf, segs);
    if Filled(chunk, residue, segs) {
      FilledBuffers(buf, residue, segs);
    }
    assert |Flatten(pieces)| + residue == |payload|;
    hide *;
  }

  // ---------------------------------------------------------------- which streams can be pushed exactly

  /** The stream delivered by reads that take all they can. */
  function Greedy(stream: seq<Byte>, window: nat, chunk: nat): seq<seq<Byte>>
    requires 0 < window <= chunk
    decreases |stream|
  {
    if stream == [] then []
    else if |stream| <= window then [stream]
    else [stream[..window]] + Greedy(stream[window..], chunk, chunk)
  }

  /** Every read but the last filled its window. */
  ghost predicate AllButLastFilled(chunk: nat, residue: nat, segs: seq<seq<Byte>>) {
    segs != [] ==> Filled(chunk, residue, segs[..|segs| - 1])
  }

  ghost predicate Delivers(chunk: nat, residue: nat, segs: seq<seq<Byte>>, stream: seq<Byte>) {
    Fitting(chunk, residue, segs) && Flatten(segs) == stream
  }

  lemma DeliversCons(chunk: nat, residue: nat, seg: seq<Byte>, rest: seq<seq<Byte>>, stream: seq<Byte>)
    requires 0 < chunk && residue < chunk && |seg| == chunk - residue && rest != []
    requires Delivers(chunk, 0, rest, stream) && AllButLastFilled(chunk, 0, rest)
    ensures Delivers(chunk, residue, [seg] + rest, seg + stream)
    ensures AllButLastFilled(chunk, residue, [seg] + rest)
  {
    var segs := [seg] + rest;
    FlattenCons(seg, rest);
    hide Flatten;
    var sizes := Sizes(segs);
    forall j | 0 <= j < |sizes|
      ensures 1 <= sizes[j] <= chunk - if j == 0 then residue else 0
    {
      assert j > 0 ==> sizes[j] == Sizes(rest)[j - 1];
    }
    var init := segs[..|segs| - 1];
    forall j | 0 <= j < |init|
      ensures PlaceOf(residue, j) + |init[j]| == chunk
    {
      assert j > 0 ==> init[j] == rest[..|rest| - 1][j - 1];
    }
  }

  lemma {:induction false} GreedyDelivers(stream: seq<Byte>, residue: nat, chunk: nat)
    requires residue < chunk
    ensures Delivers(chunk, residue, Greedy(stream, chunk - residue, chunk), stream)
    ensures AllButLastFilled(chunk, residue, Greedy(stream, chunk - residue, chunk))
    ensures stream != [] ==> Greedy(stream, chunk - residue, chunk) != []
    decreases |stream|
  {
    var window := chunk - residue;
    if 0 < |stream| <= window {
      FlattenCons(stream, []);
      assert [stream] + [] == [stream];
      assert Sizes([stream])[0] == |stream|;
    } else if |stream| > window {
      var rest := Greedy(stream[window..], chunk, chunk);
      assert Greedy(stream, window, chunk) == [stream[..window]] + rest;
      assert stream[..window] + stream[window..] == stream;
      hide *;
      GreedyDelivers(stream[window..], 0, chunk);
      DeliversCons(chunk, residue, stream[..window], rest, stream[window..]);
    }
  }

  /** Of a stream delivered with all windows but the last filled, the last is too if the sum says so. */
  lemma LastFilledToo(chunk: nat, residue: nat, segs: seq<seq<Byte>>)
    requires Fitting(chunk, residue, segs) && segs != [] && AllButLastFilled(chunk, residue, segs)
    requires Whole(|Flatten(segs)| + residue, chunk)
    ensures Filled(chunk, residue, segs)
  {
    var last := |segs| - 1;
    var init, seg := segs[..last], segs[last];
    var at := PlaceOf(residue, last);
    assert segs == init + [seg] && at == if init == [] then residue else 0;
    assert Filled(chunk, residue, init);
    FittingPrefix(chunk, residue, segs);
    hide *;
    FullOnlyIfFilled(chunk, residue, init);
    FlattenSnoc(init, seg);
    FilledSnoc(chunk, residue, segs);
    OnlyAWholeOne(last, chunk, at + |seg|);
  }

  lemma {:induction false} OnlyAWholeOne(q: nat, d: nat, r: nat)
    requires 0 < r <= d && Whole(Times(q, d) + r, d)
    ensures r == d
  {
    if q > 0 {
      OnlyAWholeOne(q - 1, d, r);
    }
  }

  /** The pushes carry exactly the first block's payload and the stream. */
  ghost predicate PushedExactly(payload: seq<Byte>, chunk: nat, buf: seq<Byte>, segs: seq<seq<Byte>>)
    requires chunk == |buf| > 0
  {
    && Fitting(chunk, |Residue(payload, chunk)|, segs)
    && Flatten(Pieces(payload, chunk) + Buffers(buf, |Residue(payload, chunk)|, segs)) == payload + Flatten(segs)
  }

  lemma PushedExactlyIsWhole(payload: seq<Byte>, chunk: nat, buf: seq<Byte>, segs: seq<seq<Byte>>)
    requires chunk == |buf| > 0 && buf[..|Residue(payload, chunk)|] == Residue(payload, chunk)
    requires PushedExactly(payload, chunk, buf, segs)
    ensures Whole(|payload| + |Flatten(segs)|, chunk)
  {
    var blocks := Pieces(payload, chunk) + Buffers(buf, |Residue(payload, chunk)|, segs);
    PushedIsStreamExactly(payload, chunk, buf, segs);
    FlattenLength(blocks, chunk);
    TimesIsProduct(|blocks|, chunk);
    WholeMultiple(|blocks|, chunk);
  }

  lemma {:induction false} WholeResidue(payload: seq<Byte>, chunk: nat, n: nat)
    requires chunk > 0
    ensures Whole(|Residue(payload, chunk)| + n, chunk) <==> Whole(|payload| + n, chunk)
    decreases |payload|
  {
    if |payload| >= chunk {
      WholeResidue(payload[chunk..], chunk, n);
    }
  }

  /**
   Some delivery of the stream makes the pushes carry exactly payload and stream if and only if
   together they are a whole number of chunks.
   */
  lemma ExactDeliveryExists(payload: seq<Byte>, chunk: nat, buf: seq<Byte>, stream: seq<Byte>)
    requires chunk == |buf| > 0 && buf[..|Residue(payload, chunk)|] == Residue(payload, chunk)
    ensures (exists segs: seq<seq<Byte>> | PushedExactly(payload, chunk, buf, segs) :: Flatten(segs) == stream)
       <==> (|payload| + |stream|) % chunk == 0
  {
    WholeIff(|payload| + |stream|, chunk);
    hide *;
    if segs: seq<seq<Byte>> :| PushedExactly(payload, chunk, buf, segs) && Flatten(segs) == stream {
      PushedExactlyIsWhole(payload, chunk, buf, segs);
    }
    if Whole(|payload| + |stream|, chunk) {
      var segs := GreedyIsExact(payload, chunk, buf, stream);
    }
  }

  lemma GreedyIsExact(payload: seq<Byte>, chunk: nat, buf: seq<Byte>, stream: seq<Byte>)
    returns (segs: seq<seq<Byte>>)
    requires chunk == |buf| > 0 && buf[..|Residue(payload, chunk)|] == Residue(payload, chunk)
    requires Whole(|payload| + |stream|, chunk)
    ensures PushedExactly(payload, chunk, buf, segs) && Flatten(segs) == stream
  {
    hide Whole, PushedExactly, Greedy, Flatten, Fitting, Filled;
    WholeResidue(payload, chunk, |stream|);
    segs := GreedyFills(|Residue(payload, chunk)|, chunk, stream);
    FilledIsExact(payload, chunk, buf, segs);
  }

  lemma FilledIsExact(payload: seq<Byte>, chunk: nat, buf: seq<Byte>, segs: seq<seq<Byte>>)
    requires chunk == |buf| > 0 && buf[..|Residue(payload, chunk)|] == Residue(payload, chunk)
    requires Fitting(chunk, |Residue(payload, chunk)|, segs) && Filled(chunk, |Residue(payload, chunk)|, segs)
    requires segs != [] || |Residue(payload, chunk)| == 0
    ensures PushedExactly(payload, chunk, buf, segs)
  {
    PushedIsStreamExactly(payload, chunk, buf, segs);
  }

  lemma GreedyFills(residue: nat, chunk: nat, stream: seq<Byte>) returns (segs: seq<seq<Byte>>)
    requires residue < chunk && Whole(residue + |stream|, chunk)
    ensures Fitting(chunk, residue, segs) && Flatten(segs) == stream
    ensures Filled(chunk, residue, segs) && (segs != [] || residue == 0)
  {
    segs := Greedy(stream, chunk - residue, chunk);
    GreedyDelivers(stream, residue, chunk);
    assert Fitting(chunk, residue, segs) && Flatten(segs) == stream;
    if stream == [] {
      assert segs == [] && Filled(chunk, residue, segs);
    } else {
      hide *;
      LastFilledToo(chunk, residue, segs);
    }
  }

  // ---------------------------------------------------------------- a last window that is not filled

  /**
   If every read but the last filled its window, the pushes carry payload and stream and then only
   the unfilled rest of the last window, with what the buffer held there before.
   */
  lemma OnlyTheTailIsStale(payload: seq<Byte>, chunk: nat, buf: seq<Byte>, segs: seq<seq<Byte>>)
    requires chunk == |buf| > 0 && buf[..|Residue(payload, chunk)|] == Residue(payload, chunk)
    requires Fitting(chunk, |Residue(payload, chunk)|, segs) && segs != []
    requires AllButLastFilled(chunk, |Residue(payload, chunk)|, segs)
    ensures var residue := |Residue(payload, chunk)|;
            var init, end := segs[..|segs| - 1], FreshEnd(residue, segs, |segs| - 1);
            && Fitting(chunk, residue, init) && end <= chunk
            && Flatten(Pieces(payload, chunk) + Buffers(buf, residue, segs))
            == payload + Flatten(segs) + BufferAfter(buf, residue, init)[end..]
  {
    var residue := |Residue(payload, chunk)|;
    var init, end := segs[..|segs| - 1], FreshEnd(residue, segs, |segs| - 1);
    var now := BufferAfter(buf, residue, segs);
    BuffersLast(buf, residue, segs);
    FilledBuffers(buf, residue, init);
    StreamConservation(payload, chunk, buf, segs);
    assert now == now[..end] + now[end..];
    hide *;
    TailJoins(Pieces(payload, chunk), Buffers(buf, residue, init), now[..end], now[end..]);
  }

  lemma TailJoins(pieces: seq<seq<Byte>>, buffers: seq<seq<Byte>>, filled: seq<Byte>, stale: seq<Byte>)
    ensures Flatten(pieces + (buffers + [filled + stale]))
         == Flatten(pieces) + Flatten(buffers + [filled]) + stale
  {
    FlattenAppend(pieces, buffers + [filled + stale]);
    FlattenSnoc(buffers, filled + stale);
    FlattenSnoc(buffers, filled);
    hide *;
    ConcatAssoc(Flatten(buffers), filled, stale);
    ConcatAssoc(Flatten(pieces), Flatten(buffers) + filled, stale);
  }

  /** The blocks pushed before the last: the stream up to it, ending in the buffer the last read finds. */
  lemma BeforeTheLast(payload: seq<Byte>, chunk: nat, buf: seq<Byte>, init: seq<seq<Byte>>)
    returns (front: seq<Byte>)
    requires chunk == |buf| > 0 && buf[..|Residue(payload, chunk)|] == Residue(payload, chunk)
    requires Fitting(chunk, |Residue(payload, chunk)|, init) && init != []
    requires Filled(chunk, |Residue(payload, chunk)|, init)
    ensures payload + Flatten(init) == front + BufferAfter(buf, |Residue(payload, chunk)|, init)
  {
    var residue := |Residue(payload, chunk)|;
    BuffersLast(buf, residue, init);
    PushedIsStreamExactly(payload, chunk, buf, init);
    var pieces, before := Pieces(payload, chunk), Buffers(buf, residue, init[..|init| - 1]);
    var was := BufferAfter(buf, residue, init);
    hide *;
    ConcatAssoc(pieces, before, [was]);
    FlattenSnoc(pieces + before, was);
    front := Flatten(pieces + before);
  }

  /** What `was` holds from `end` on is what ends `end` bytes before the end of `all`. */
  ghost predicate Repeats(all: seq<Byte>, was: seq<Byte>, end: nat) {
    end <= |was| <= |all| && was[end..] == all[|all| - |was|..|all| - end]
  }

  lemma TailRepeats(payload: seq<Byte>, chunk: nat, buf: seq<Byte>, init: seq<seq<Byte>>, seg: seq<Byte>)
    requires chunk == |buf| > 0 && buf[..|Residue(payload, chunk)|] == Residue(payload, chunk)
    requires Fitting(chunk, |Residue(payload, chunk)|, init) && init != [] && |seg| <= chunk
    requires Filled(chunk, |Residue(payload, chunk)|, init)
    ensures Repeats((payload + Flatten(init)) + seg, BufferAfter(buf, |Residue(payload, chunk)|, init), |seg|)
  {
    var was := BufferAfter(buf, |Residue(payload, chunk)|, init);
    assert |was| == chunk;
    hide *;
    var front := BeforeTheLast(payload, chunk, buf, init);
    TailOf((payload + Flatten(init)) + seg, front, was, seg);
  }

  /** From the second read on, that rest repeats the bytes of the stream one chunk before. */
  lemma StaleTailRepeats(payload: seq<Byte>, chunk: nat, buf: seq<Byte>, segs: seq<seq<Byte>>)
    requires chunk == |buf| > 0 && buf[..|Residue(payload, chunk)|] == Residue(payload, chunk)
    requires Fitting(chunk, |Residue(payload, chunk)|, segs) && |segs| >= 2
    requires AllButLastFilled(chunk, |Residue(payload, chunk)|, segs)
    ensures Fitting(chunk, |Residue(payload, chunk)|, segs[..|segs| - 1])
    ensures Repeats(payload + Flatten(segs), BufferAfter(buf, |Residue(payload, chunk)|, segs[..|segs| - 1]),
                    |segs[|segs| - 1]|)
  {
    var init, seg := segs[..|segs| - 1], segs[|segs| - 1];
    FittingPrefix(chunk, |Residue(payload, chunk)|, segs);
    assert |seg| <= chunk && Filled(chunk, |Residue(payload, chunk)|, init);
    assert segs == init + [seg];
    hide *;
    FlattenSnoc(init, seg);
    ConcatAssoc(payload, Flatten(init), seg);
    TailRepeats(payload, chunk, buf, init, seg);
  }

  lemma TailOf(all: seq<Byte>, front: seq<Byte>, was: seq<Byte>, seg: seq<Byte>)
    requires all == (front + was) + seg && |seg| <= |was|
    ensures Repeats(all, was, |seg|)
  {
  }

  // ---------------------------------------------------------------- filled windows in a session

  lemma {:induction false} SumOfSizes(segs: seq<seq<Byte>>)
    ensures Sum(Sizes(segs)) == |Flatten(segs)|
    decreases |segs|
  {
    if segs != [] {
      var init, seg := segs[..|segs| - 1], segs[|segs| - 1];
      SumOfSizes(init);
      FlattenSnoc(init, seg);
      assert segs == init + [seg];
      assert Sizes(segs)[..|segs| - 1] == Sizes(init);
    }
  }

  /**
   A session whose client finishes can fill every window only if late bytes of the first block and
   the residue make whole chunks; with the first block received in one piece it never does, and
   the pushes never carry exactly what was sent.
   */
  lemma FinishedIsNotExact(p: Params, s: State, steps: nat, payload: seq<Byte>, buf: seq<Byte>, segs: seq<seq<Byte>>)
    requires p.chunk == |buf| > 0 && p.residue == |Residue(payload, p.chunk)|
    requires buf[..p.residue] == Residue(payload, p.chunk)
    requires Reachable(p, s, steps) && Complete(p, s) && s.sizes == Sizes(segs)
    ensures Fitting(p.chunk, p.residue, segs)
    ensures PushedExactly(payload, p.chunk, buf, segs) ==> p.early > 0 && (p.early + p.residue) % p.chunk == 0
  {
    CompleteReads(p, s, steps);
    SumOfSizes(segs);
    FullOnlyIfFilled(p.chunk, p.residue, segs);
    PushedIsStreamExactly(payload, p.chunk, buf, segs);
    hide Reachable, Complete, Filled, Fitting, Sum, Flatten, Residue, Times, Sizes;
    if PushedExactly(payload, p.chunk, buf, segs) {
      FullReadsNeedLateBytes(p, s, steps);
    }
  }
}
