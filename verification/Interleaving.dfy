/**
 The meaning of an interleaved sample block: `n` channels, `b` bytes to a sample, frame after
 frame, channel after channel within a frame. Nothing here mentions a pointer or a loop; the
 strided loop of `SpeakerPusher` is proved against `Channel`.
 */
module Interleaving {
  import opened Arithmetic
  import opened Bytes

  /** The `b` bytes at `off` of every `step`-byte frame, in frame order. */
  function Strided(s: seq<Byte>, step: nat, off: nat, b: nat): seq<Byte>
    requires 0 < step && off + b <= step
    decreases |s|
  {
    if |s| < step then [] else s[off..off + b] + Strided(s[step..], step, off, b)
  }

  /** A shape: at least one channel, at least one byte to a sample, `n * b` bytes to a frame. */
  ghost predicate Shape(n: nat, b: nat, step: nat) {
    n > 0 && b > 0 && step > 0 && step == n * b
  }

  ghost predicate WholeFrames(s: seq<Byte>, n: nat, b: nat) {
    Shape(n, b, n * b) && Whole(|s|, n * b)
  }

  lemma SlotInFrame(n: nat, b: nat, i: nat)
    requires i < n && b > 0
    ensures 0 <= i * b && i * b + b <= n * b && 0 < n * b
  {
    MulMonotone(0, i, b);
    MulMonotone(i + 1, n, b);
    MulSucc(i, b);
  }

  /** The bytes of channel `i`: its sample of the first frame, then of the second, and so on. */
  function Channel(s: seq<Byte>, n: nat, b: nat, i: nat): seq<Byte>
    requires b > 0 && i < n
  {
    SlotInFrame(n, b, i);
    Strided(s, n * b, i * b, b)
  }

  /** One payload per channel. */
  function Split(s: seq<Byte>, n: nat, b: nat): (r: seq<seq<Byte>>)
    requires b > 0
    ensures |r| == n
  {
    seq(n, i requires 0 <= i < n => Channel(s, n, b, i))
  }

  // ---------------------------------------------------------------- lengths

  lemma {:induction false} StridedLength(s: seq<Byte>, step: nat, off: nat, n: nat, b: nat)
    requires Shape(n, b, step) && Whole(|s|, step) && off + b <= step
    ensures |Strided(s, step, off, b)| * n == |s|
    ensures Whole(|Strided(s, step, off, b)|, b)
    decreases |s|
  {
    if s != [] {
      StridedLength(s[step..], step, off, n, b);
      Distribute(b, |Strided(s[step..], step, off, b)|, n);
    }
  }

  lemma Distribute(b: int, r: int, n: int)
    ensures (b + r) * n == n * b + r * n
  {
  }

  /** Every channel gets the same number of bytes, an n-th of the block. */
  lemma ChannelLength(s: seq<Byte>, n: nat, b: nat, i: nat)
    requires WholeFrames(s, n, b) && i < n
    ensures |Channel(s, n, b, i)| * n == |s|
    ensures |Channel(s, n, b, i)| == |s| / n
    ensures Whole(|Channel(s, n, b, i)|, b)
  {
    SlotInFrame(n, b, i);
    StridedLength(s, n * b, i * b, n, b);
    DivModUnique(|s|, n, |Channel(s, n, b, i)|, 0);
  }

  // ---------------------------------------------------------------- position of every byte

  /** Where byte `c` of channel `i` of frame `f` sits in the block. */
  function SourceIndex(n: nat, b: nat, f: nat, i: nat, c: nat): int {
    f * (n * b) + i * b + c
  }

  lemma {:induction false} StridedAt(s: seq<Byte>, step: nat, off: nat, b: nat, f: nat, c: nat)
    requires 0 < step && off + b <= step && Whole(|s|, step)
    requires c < b && Times(f, step) < |s|
    ensures Times(f, step) + off + c < |s|
    ensures Times(f, b) + c < |Strided(s, step, off, b)|
    ensures Strided(s, step, off, b)[Times(f, b) + c] == s[Times(f, step) + off + c]
    decreases f
  {
    var head := s[off..off + b];
    var rest := Strided(s[step..], step, off, b);
    assert Strided(s, step, off, b) == head + rest;
    if f > 0 {
      StridedAt(s[step..], step, off, b, f - 1, c);
      var p, q := Times(f - 1, b) + c, Times(f - 1, step) + off + c;
      assert (head + rest)[b + p] == rest[p];
      assert s[step..][q] == s[step + q];
    }
  }

  /** Channel `i` is sample `i` of each frame in order, byte by byte. */
  lemma ChannelAt(s: seq<Byte>, n: nat, b: nat, i: nat, f: nat, c: nat)
    requires WholeFrames(s, n, b) && i < n && c < b && f * (n * b) < |s|
    ensures 0 <= SourceIndex(n, b, f, i, c) < |s|
    ensures 0 <= f * b + c < |Channel(s, n, b, i)|
    ensures Channel(s, n, b, i)[f * b + c] == s[SourceIndex(n, b, f, i, c)]
  {
    SlotInFrame(n, b, i);
    TimesIsProduct(f, n * b);
    TimesIsProduct(f, b);
    StridedAt(s, n * b, i * b, b, f, c);
  }

  /** The three coordinates of position `p` of the block. */
  function FrameOf(step: nat, p: nat): int requires step > 0 { p / step }
  function SlotOf(step: nat, b: nat, p: nat): int requires step > 0 && b > 0 { p % step / b }
  function ByteOf(step: nat, b: nat, p: nat): int requires step > 0 && b > 0 { p % step % b }

  /** Every position comes from one (frame, channel, byte) ... */
  lemma SourceIndexOnto(n: nat, b: nat, p: nat)
    requires Shape(n, b, n * b)
    ensures 0 <= FrameOf(n * b, p) && 0 <= SlotOf(n * b, b, p) < n && 0 <= ByteOf(n * b, b, p) < b
    ensures SourceIndex(n, b, FrameOf(n * b, p), SlotOf(n * b, b, p), ByteOf(n * b, b, p)) == p
  {
    var step := n * b;
    var q := p % step;
    assert p == (p / step) * step + q;
    var slot := q / b;
    assert q == slot * b + q % b;
    if n <= slot {
      MulMonotone(n, slot, b);
    }
    if slot < 0 {
      MulMonotone(slot, -1, b);
    }
  }

  /** ... and from no other. */
  lemma SourceIndexOneToOne(n: nat, b: nat, f: nat, i: nat, c: nat)
    requires Shape(n, b, n * b) && i < n && c < b
    ensures 0 <= SourceIndex(n, b, f, i, c)
    ensures FrameOf(n * b, SourceIndex(n, b, f, i, c)) == f
    ensures SlotOf(n * b, b, SourceIndex(n, b, f, i, c)) == i
    ensures ByteOf(n * b, b, SourceIndex(n, b, f, i, c)) == c
  {
    SlotInFrame(n, b, i);
    var step := n * b;
    MulMonotone(0, f, step);
    DivModUnique(SourceIndex(n, b, f, i, c), step, f, i * b + c);
    DivModUnique(i * b + c, b, i, c);
  }

  // ---------------------------------------------------------------- re-interleaving

  /** Channel payloads of one common length, a whole number of samples. */
  ghost predicate Aligned(chs: seq<seq<Byte>>, b: nat, len: nat) {
    Whole(len, b) && forall i | 0 <= i < |chs| :: |chs[i]| == len
  }

  ghost predicate AtLeast(chs: seq<seq<Byte>>, b: nat) {
    forall i | 0 <= i < |chs| :: |chs[i]| >= b
  }

  /** The next sample of every channel, in channel order: one frame. */
  function Heads(chs: seq<seq<Byte>>, b: nat): seq<Byte>
    requires AtLeast(chs, b)
  {
    if chs == [] then [] else chs[0][..b] + Heads(chs[1..], b)
  }

  function Tails(chs: seq<seq<Byte>>, b: nat): (r: seq<seq<Byte>>)
    requires AtLeast(chs, b)
    ensures |r| == |chs|
  {
    seq(|chs|, i requires 0 <= i < |chs| => chs[i][b..])
  }

  /** What a receiver of all channels does: put the frames back together. */
  function Interleave(chs: seq<seq<Byte>>, b: nat, len: nat): seq<Byte>
    requires Aligned(chs, b, len)
    decreases len
  {
    if len == 0 then [] else Heads(chs, b) + Interleave(Tails(chs, b), b, len - b)
  }

  lemma {:induction false} HeadsFromSplit(s: seq<Byte>, n: nat, b: nat, m: nat)
    requires Shape(n, b, n * b) && m <= n && |s| >= n * b
    requires AtLeast(Split(s, n, b), b)
    ensures 0 <= m * b <= n * b
    ensures Heads(Split(s, n, b)[m..], b) == s[m * b..n * b]
    decreases n - m
  {
    MulMonotone(0, m, b);
    MulMonotone(m, n, b);
    if m < n {
      HeadsFromSplit(s, n, b, m + 1);
      MulSucc(m, b);
      var chs := Split(s, n, b);
      assert chs[m..][0] == Channel(s, n, b, m) && chs[m..][1..] == chs[m + 1..];
      assert Channel(s, n, b, m)[..b] == s[m * b..m * b + b];
    }
  }

  lemma SplitStep(s: seq<Byte>, n: nat, b: nat)
    requires Shape(n, b, n * b) && |s| >= n * b
    ensures AtLeast(Split(s, n, b), b)
    ensures Heads(Split(s, n, b), b) == s[..n * b]
    ensures Tails(Split(s, n, b), b) == Split(s[n * b..], n, b)
  {
    forall i | 0 <= i < n
      ensures |Channel(s, n, b, i)| >= b
      ensures Channel(s, n, b, i)[b..] == Channel(s[n * b..], n, b, i)
    {
      SlotInFrame(n, b, i);
    }
    HeadsFromSplit(s, n, b, 0);
    assert Split(s, n, b)[0..] == Split(s, n, b);
  }

  lemma SplitAligned(s: seq<Byte>, n: nat, b: nat)
    requires WholeFrames(s, n, b)
    ensures Aligned(Split(s, n, b), b, |s| / n)
  {
    ChannelLength(s, n, b, 0);
    forall i | 0 <= i < n
      ensures |Channel(s, n, b, i)| == |s| / n
    {
      ChannelLength(s, n, b, i);
    }
  }

  lemma {:induction false} InterleaveSplitAs(s: seq<Byte>, n: nat, b: nat, len: nat)
    requires WholeFrames(s, n, b) && Aligned(Split(s, n, b), b, len)
    ensures Interleave(Split(s, n, b), b, len) == s
    decreases |s|
  {
    assert |Split(s, n, b)[0]| == len;
    SlotInFrame(n, b, 0);
    if s != [] {
      var step := n * b;
      SplitStep(s, n, b);
      InterleaveSplitAs(s[step..], n, b, len - b);
      assert s == s[..step] + s[step..];
    }
  }

  /** Putting the channels of a block back together gives the block. */
  lemma InterleaveSplit(s: seq<Byte>, n: nat, b: nat)
    requires WholeFrames(s, n, b)
    ensures Aligned(Split(s, n, b), b, |s| / n)
    ensures Interleave(Split(s, n, b), b, |s| / n) == s
  {
    SplitAligned(s, n, b);
    InterleaveSplitAs(s, n, b, |s| / n);
  }

  lemma {:induction false} HeadsAt(chs: seq<seq<Byte>>, b: nat, i: nat)
    requires i < |chs| && AtLeast(chs, b)
    ensures |Heads(chs, b)| == Times(|chs|, b)
    ensures Times(i, b) + b <= Times(|chs|, b)
    ensures Heads(chs, b)[Times(i, b)..Times(i, b) + b] == chs[i][..b]
  {
    if |chs| > 1 {
      HeadsAt(chs[1..], b, if i == 0 then 0 else i - 1);
    }
  }

  lemma StridedCons(h: seq<Byte>, t: seq<Byte>, step: nat, off: nat, b: nat)
    requires 0 < step && off + b <= step && |h| == step
    ensures Strided(h + t, step, off, b) == h[off..off + b] + Strided(t, step, off, b)
  {
    assert (h + t)[step..] == t;
    assert (h + t)[off..off + b] == h[off..off + b];
  }

  lemma TailsAligned(chs: seq<seq<Byte>>, b: nat, len: nat)
    requires Aligned(chs, b, len) && len > 0
    ensures AtLeast(chs, b)
    ensures Aligned(Tails(chs, b), b, len - b)
  {
  }

  lemma InterleaveStep(chs: seq<seq<Byte>>, b: nat, len: nat, i: nat, step: nat, off: nat)
    requires Aligned(chs, b, len) && i < |chs| && len > 0
    requires step == Times(|chs|, b) && off == Times(i, b) && 0 < step && off + b <= step
    ensures Aligned(Tails(chs, b), b, len - b)
    ensures Strided(Interleave(chs, b, len), step, off, b)
         == chs[i][..b] + Strided(Interleave(Tails(chs, b), b, len - b), step, off, b)
  {
    TailsAligned(chs, b, len);
    HeadsAt(chs, b, i);
    assert Interleave(chs, b, len) == Heads(chs, b) + Interleave(Tails(chs, b), b, len - b);
    hide *;
    StridedCons(Heads(chs, b), Interleave(Tails(chs, b), b, len - b), step, off, b);
  }

  lemma {:induction false} SplitInterleaveAs(chs: seq<seq<Byte>>, b: nat, len: nat, i: nat,
                                             step: nat, off: nat)
    requires Aligned(chs, b, len) && i < |chs|
    requires step == Times(|chs|, b) && off == Times(i, b) && 0 < step && off + b <= step
    ensures Strided(Interleave(chs, b, len), step, off, b) == chs[i]
    decreases len
  {
    if len > 0 {
      InterleaveStep(chs, b, len, i, step, off);
      SplitInterleaveAs(Tails(chs, b), b, len - b, i, step, off);
    }
  }

  /** Splitting put-together channels gives each channel back. */
  lemma SplitInterleave(chs: seq<seq<Byte>>, b: nat, len: nat, i: nat)
    requires Aligned(chs, b, len) && i < |chs|
    ensures Channel(Interleave(chs, b, len), |chs|, b, i) == chs[i]
  {
    SlotInFrame(|chs|, b, i);
    TimesIsProduct(|chs|, b);
    TimesIsProduct(i, b);
    SplitInterleaveAs(chs, b, len, i, |chs| * b, i * b);
  }

  // ---------------------------------------------------------------- conservation

  lemma {:induction false} FlattenHeadsTails(chs: seq<seq<Byte>>, b: nat)
    requires AtLeast(chs, b)
    ensures multiset(Flatten(chs)) == multiset(Heads(chs, b)) + multiset(Flatten(Tails(chs, b)))
  {
    if chs != [] {
      FlattenHeadsTails(chs[1..], b);
      assert Tails(chs, b)[0] == chs[0][b..] && Tails(chs, b)[1..] == Tails(chs[1..], b);
      MultisetOfSplit(chs[0], b);
    }
  }

  lemma {:induction false} FlattenEmpties(chs: seq<seq<Byte>>)
    requires forall i | 0 <= i < |chs| :: chs[i] == []
    ensures Flatten(chs) == []
  {
    if chs != [] {
      FlattenEmpties(chs[1..]);
    }
  }

  /** Across all channels, every byte of the block appears exactly once. */
  lemma {:induction false} SplitConserves(s: seq<Byte>, n: nat, b: nat)
    requires WholeFrames(s, n, b)
    ensures multiset(Flatten(Split(s, n, b))) == multiset(s)
    decreases |s|
  {
    if s == [] {
      FlattenEmpties(Split(s, n, b));
    } else {
      var step := n * b;
      SplitStep(s, n, b);
      FlattenHeadsTails(Split(s, n, b), b);
      SplitConserves(s[step..], n, b);
      MultisetOfSplit(s, step);
    }
  }

  lemma MultisetOfSplit(s: seq<Byte>, k: nat)
    requires k <= |s|
    ensures multiset(s) == multiset(s[..k]) + multiset(s[k..])
  {
    assert s == s[..k] + s[k..];
  }

  // ---------------------------------------------------------------- streams of blocks

  lemma {:induction false} StridedAppend(s: seq<Byte>, t: seq<Byte>, step: nat, off: nat, b: nat)
    requires Whole(|s|, step) && off + b <= step
    ensures Strided(s + t, step, off, b) == Strided(s, step, off, b) + Strided(t, step, off, b)
    decreases |s|
  {
    if s == [] {
      assert s + t == t;
    } else {
      StridedAppend(s[step..], t, step, off, b);
      assert (s + t)[step..] == s[step..] + t;
      assert (s + t)[off..off + b] == s[off..off + b];
      ConcatAssoc(s[off..off + b], Strided(s[step..], step, off, b), Strided(t, step, off, b));
    }
  }

  /** A channel of two blocks in a row is the channel of the first, then of the second. */
  lemma ChannelAppend(s: seq<Byte>, t: seq<Byte>, n: nat, b: nat, i: nat)
    requires WholeFrames(s, n, b) && i < n
    ensures Channel(s + t, n, b, i) == Channel(s, n, b, i) + Channel(t, n, b, i)
  {
    SlotInFrame(n, b, i);
    StridedAppend(s, t, n * b, i * b, b);
  }

  /** With one channel, that channel is the whole stream. */
  lemma {:induction false} MonoChannel(s: seq<Byte>, b: nat)
    requires Whole(|s|, b)
    ensures Channel(s, 1, b, 0) == s
    decreases |s|
  {
    SlotInFrame(1, b, 0);
    if s != [] {
      MonoChannel(s[b..], b);
      assert s == s[..b] + s[b..];
    }
  }
}
