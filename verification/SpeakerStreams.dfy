/** What one speaker is sent over a whole wave command, and where those bytes come from. */
module SpeakerStreams {
  import opened Arithmetic
  import opened Bytes
  import opened FanOut
  import opened Interleaving
  import opened PushWave
  import opened Registry
  import opened SpeakerPusher
  import opened WaveStreams

  // ---------------------------------------------------------------- one speaker's turns

  function CountIn(ids: seq<int>, id: int): nat {
    if ids == [] then 0 else
      CountIn(ids[..|ids| - 1], id) + if ids[|ids| - 1] == id then 1 else 0
  }

  /** Of the channels pushed, the speaker is a member of the `i`-th only, and once. */
  ghost predicate OnlyOn(reg: Registry, line: int, list: seq<int>, i: nat, id: int) {
    && i < |list|
    && forall k | 0 <= k < |list| :: CountIn(Members(reg, line, list[k]), id) == if k == i then 1 else 0
  }

  lemma {:induction false} PacketsAppend(a: seq<Turn>, b: seq<Turn>, id: int)
    ensures PacketsOf(a + b, id) == PacketsOf(a, id) + PacketsOf(b, id)
    decreases |b|
  {
    if b == [] {
      assert a + b == a;
    } else {
      PacketsAppend(a, b[..|b| - 1], id);
      assert (a + b)[..|a + b| - 1] == a + b[..|b| - 1];
    }
  }

  lemma {:induction false} PacketsOfMember(ids: seq<int>, packet: seq<Byte>, id: int)
    ensures CountIn(ids, id) == 0 ==> PacketsOf(TurnsOf(ids, packet), id) == []
    ensures CountIn(ids, id) == 1 ==> PacketsOf(TurnsOf(ids, packet), id) == [packet]
    decreases |ids|
  {
    if ids != [] {
      PacketsOfMember(ids[..|ids| - 1], packet, id);
      assert TurnsOf(ids, packet)[..|ids| - 1] == TurnsOf(ids[..|ids| - 1], packet);
    }
  }

  lemma {:induction false} BlockPackets(reg: Registry, line: int, list: seq<int>, packets: seq<seq<Byte>>,
                                        i: nat, id: int, m: nat)
    requires OnlyOn(reg, line, list, i, id) && |packets| == |list| && m <= |list|
    ensures PacketsOf(BlockTurns(reg, line, list[..m], packets[..m]), id) == if m <= i then [] else [packets[i]]
  {
    hide *;
    if m == 0 {
      NoChannels(reg, line, list, packets, id);
    } else {
      MemberCount(reg, line, list, i, id, m - 1);
      BlockPackets(reg, line, list, packets, i, id, m - 1);
      BlockTurnsNext(reg, line, list, packets, m - 1);
      PacketsAppend(BlockTurns(reg, line, list[..m - 1], packets[..m - 1]),
                    TurnsOf(Members(reg, line, list[m - 1]), packets[m - 1]), id);
      PacketsOfMember(Members(reg, line, list[m - 1]), packets[m - 1], id);
    }
  }

  lemma MemberCount(reg: Registry, line: int, list: seq<int>, i: nat, id: int, k: nat)
    requires OnlyOn(reg, line, list, i, id) && k < |list|
    ensures i < |list| && CountIn(Members(reg, line, list[k]), id) == if k == i then 1 else 0
  {
    hide CountIn, Members;
  }

  lemma NoChannels(reg: Registry, line: int, list: seq<int>, packets: seq<seq<Byte>>, id: int)
    requires |packets| == |list|
    ensures PacketsOf(BlockTurns(reg, line, list[..0], packets[..0]), id) == []
  {
  }

  /** One packet per pushed block, with the channel's bytes of the part that is de-interleaved. */
  function ChannelPackets(header: seq<Byte>, blocks: seq<seq<Byte>>, len: nat, n: nat, b: nat, i: nat,
                          tail: seq<Byte>): (r: seq<seq<Byte>>)
    requires b > 0 && i < n && LongEnough(blocks, len)
    ensures |r| == |blocks|
  {
    seq(|blocks|, k requires 0 <= k < |blocks| => header + Channel(blocks[k][..len], n, b, i) + tail)
  }

  lemma PushPackets(reg: Registry, line: int, list: seq<int>, header: seq<Byte>, s: seq<Byte>, b: nat,
                    tail: seq<Byte>, i: nat, id: int)
    requires b > 0 && OnlyOn(reg, line, list, i, id)
    ensures PacketsOf(PushTurns(reg, line, list, header, s, b, tail), id)
         == [header + Channel(s, |list|, b, i) + tail]
  {
    var packets := Packets(header, s, |list|, b, tail);
    BlockPackets(reg, line, list, packets, i, id, |list|);
    assert list[..|list|] == list && packets[..|list|] == packets;
  }

  lemma ChannelPacketsLast(header: seq<Byte>, blocks: seq<seq<Byte>>, len: nat, n: nat, b: nat, i: nat, tail: seq<Byte>)
    requires b > 0 && i < n && LongEnough(blocks, len) && blocks != []
    ensures var last := |blocks| - 1;
            ChannelPackets(header, blocks, len, n, b, i, tail)
            == ChannelPackets(header, blocks[..last], len, n, b, i, tail)
               + [header + Channel(blocks[last][..len], n, b, i) + tail]
  {
  }

  lemma {:induction false} RunPackets(reg: Registry, line: int, list: seq<int>, header: seq<Byte>,
                                      blocks: seq<seq<Byte>>, len: nat, b: nat, tail: seq<Byte>, i: nat, id: int)
    requires b > 0 && LongEnough(blocks, len) && OnlyOn(reg, line, list, i, id)
    ensures PacketsOf(RunTurns(reg, line, list, header, blocks, len, b, tail), id)
         == ChannelPackets(header, blocks, len, |list|, b, i, tail)
    decreases |blocks|
  {
    hide PushTurns, Channel;
    if blocks != [] {
      var last := |blocks| - 1;
      RunPackets(reg, line, list, header, blocks[..last], len, b, tail, i, id);
      PushPackets(reg, line, list, header, blocks[last][..len], b, tail, i, id);
      PacketsAppend(RunTurns(reg, line, list, header, blocks[..last], len, b, tail),
                    PushTurns(reg, line, list, header, blocks[last][..len], b, tail), id);
      ChannelPacketsLast(header, blocks, len, |list|, b, i, tail);
      hide PacketsOf, ChannelPackets, OnlyOn;
    }
  }

  // ---------------------------------------------------------------- one channel's stream

  function Prefixes(blocks: seq<seq<Byte>>, len: nat): (r: seq<seq<Byte>>)
    requires LongEnough(blocks, len)
    ensures |r| == |blocks|
  {
    seq(|blocks|, k requires 0 <= k < |blocks| => blocks[k][..len])
  }

  /** The payloads of a channel over a run. */
  function ChannelPayloads(blocks: seq<seq<Byte>>, len: nat, n: nat, b: nat, i: nat): (r: seq<seq<Byte>>)
    requires b > 0 && i < n && LongEnough(blocks, len)
    ensures |r| == |blocks|
  {
    seq(|blocks|, k requires 0 <= k < |blocks| => Channel(blocks[k][..len], n, b, i))
  }

  lemma {:induction false} PrefixesWhole(blocks: seq<seq<Byte>>, len: nat, step: nat)
    requires LongEnough(blocks, len) && Whole(len, step)
    ensures Whole(|Flatten(Prefixes(blocks, len))|, step)
    decreases |blocks|
  {
    if blocks != [] {
      PrefixesWhole(blocks[1..], len, step);
      assert Prefixes(blocks, len)[1..] == Prefixes(blocks[1..], len);
      WholeSum(len, |Flatten(Prefixes(blocks[1..], len))|, step);
    }
  }

  lemma {:induction false} WholeSum(a: nat, b: nat, step: nat)
    requires Whole(a, step) && Whole(b, step)
    ensures Whole(a + b, step)
    decreases a
  {
    if a > 0 {
      WholeSum(a - step, b, step);
    }
  }

  /** The payloads of a channel, end to end, are that channel of the de-interleaved bytes, end to end. */
  lemma {:induction false} ChannelStream(blocks: seq<seq<Byte>>, len: nat, n: nat, b: nat, i: nat)
    requires Shape(n, b, n * b) && i < n && LongEnough(blocks, len) && Whole(len, n * b)
    ensures Flatten(ChannelPayloads(blocks, len, n, b, i)) == Channel(Flatten(Prefixes(blocks, len)), n, b, i)
    decreases |blocks|
  {
    if blocks == [] {
      SlotInFrame(n, b, i);
    } else {
      var first, rest := blocks[0][..len], blocks[1..];
      ChannelStream(rest, len, n, b, i);
      assert Prefixes(blocks, len)[1..] == Prefixes(rest, len);
      assert ChannelPayloads(blocks, len, n, b, i)[1..] == ChannelPayloads(rest, len, n, b, i);
      hide Channel, Prefixes, ChannelPayloads;
      ChannelAppend(first, Flatten(Prefixes(rest, len)), n, b, i);
    }
  }

  // ---------------------------------------------------------------- what the length argument leaves out

  /**
   The push gets a chunk's length divided by the number of channels. What it de-interleaves is
   all that was pushed exactly for one channel.
   */
  lemma CoverageExactly(blocks: seq<seq<Byte>>, chunk: nat, channels: nat)
    requires chunk > 0 && channels > 0 && blocks != [] && AllOf(blocks, chunk)
    ensures 0 <= chunk / channels <= chunk && LongEnough(blocks, chunk / channels)
    ensures Flatten(Prefixes(blocks, chunk / channels)) == Flatten(blocks) <==> channels == 1
  {
    LengthFits(chunk, channels);
    var per := chunk / channels;
    QuotientIsWhole(chunk, channels);
    FlattenLength(blocks, chunk);
    FlattenLength(Prefixes(blocks, per), per);
    if channels == 1 {
      forall k | 0 <= k < |blocks|
        ensures blocks[k][..per] == blocks[k]
      {
      }
      assert Prefixes(blocks, per) == blocks;
    } else {
      TimesStrict(|blocks|, per, chunk);
    }
  }

  lemma QuotientIsWhole(chunk: nat, channels: nat)
    requires chunk > 0 && channels > 0
    ensures chunk / channels == chunk <==> channels == 1
    ensures 0 <= chunk / channels <= chunk
  {
    var q := chunk / channels;
    LengthFits(chunk, channels);
    assert chunk == q * channels + chunk % channels;
    if q == chunk && channels > 1 {
      MulMonotone(2, channels, chunk);
      assert false;
    }
  }

  lemma {:induction false} TimesStrict(q: nat, a: nat, b: nat)
    requires q > 0 && a < b
    ensures Times(q, a) < Times(q, b)
  {
    if q > 1 {
      TimesStrict(q - 1, a, b);
    }
  }

  /** Two blocks give every channel the same payload exactly if they agree on what is de-interleaved. */
  lemma SamePayloadsExactly(x: seq<Byte>, y: seq<Byte>, n: nat, b: nat)
    requires WholeFrames(x, n, b) && WholeFrames(y, n, b)
    ensures Split(x, n, b) == Split(y, n, b) <==> x == y
  {
    InterleaveSplit(x, n, b);
    InterleaveSplit(y, n, b);
    if Split(x, n, b) == Split(y, n, b) {
      ChannelLength(x, n, b, 0);
      ChannelLength(y, n, b, 0);
      assert Split(x, n, b)[0] == Split(y, n, b)[0];
    }
  }

  ghost predicate SamePackets(header: seq<Byte>, xs: seq<seq<Byte>>, ys: seq<seq<Byte>>, len: nat, n: nat, b: nat,
                              tail: seq<Byte>)
    requires b > 0 && LongEnough(xs, len) && LongEnough(ys, len)
  {
    forall i: nat | i < n ::
      ChannelPackets(header, xs, len, n, b, i, tail) == ChannelPackets(header, ys, len, n, b, i, tail)
  }

  /**
   Two runs of blocks are the same to all speakers exactly if every block agrees on its prefix: the
   rest of a block, `1 - 1 / channels` of it, is sent to nobody.
   */
  lemma OnlyPrefixesMatter(header: seq<Byte>, xs: seq<seq<Byte>>, ys: seq<seq<Byte>>, len: nat, n: nat, b: nat,
                           tail: seq<Byte>)
    requires Shape(n, b, n * b) && Whole(len, n * b)
    requires LongEnough(xs, len) && LongEnough(ys, len) && |xs| == |ys|
    ensures SamePackets(header, xs, ys, len, n, b, tail) <==> Prefixes(xs, len) == Prefixes(ys, len)
  {
    if Prefixes(xs, len) == Prefixes(ys, len) {
      forall i: nat, k | i < n && 0 <= k < |xs|
        ensures ChannelPackets(header, xs, len, n, b, i, tail)[k] == ChannelPackets(header, ys, len, n, b, i, tail)[k]
      {
        assert Prefixes(xs, len)[k] == Prefixes(ys, len)[k];
      }
    }
    if SamePackets(header, xs, ys, len, n, b, tail) {
      forall k | 0 <= k < |xs|
        ensures xs[k][..len] == ys[k][..len]
      {
        SamePrefix(header, xs, ys, len, n, b, tail, k);
      }
    }
  }

  lemma SamePrefix(header: seq<Byte>, xs: seq<seq<Byte>>, ys: seq<seq<Byte>>, len: nat, n: nat, b: nat,
                   tail: seq<Byte>, k: nat)
    requires Shape(n, b, n * b) && Whole(len, n * b)
    requires LongEnough(xs, len) && LongEnough(ys, len) && |xs| == |ys| && k < |xs|
    requires SamePackets(header, xs, ys, len, n, b, tail)
    ensures xs[k][..len] == ys[k][..len]
  {
    var x, y := xs[k][..len], ys[k][..len];
    forall i: nat | i < n
      ensures Channel(x, n, b, i) == Channel(y, n, b, i)
    {
      SamePacket(header, xs, ys, len, n, b, tail, k, i);
    }
    assert Split(x, n, b) == Split(y, n, b);
    SamePayloadsExactly(x, y, n, b);
  }

  lemma SamePacket(header: seq<Byte>, xs: seq<seq<Byte>>, ys: seq<seq<Byte>>, len: nat, n: nat, b: nat,
                   tail: seq<Byte>, k: nat, i: nat)
    requires Shape(n, b, n * b) && Whole(len, n * b) && i < n
    requires LongEnough(xs, len) && LongEnough(ys, len) && |xs| == |ys| && k < |xs|
    requires SamePackets(header, xs, ys, len, n, b, tail)
    ensures Channel(xs[k][..len], n, b, i) == Channel(ys[k][..len], n, b, i)
  {
    var x, y := Channel(xs[k][..len], n, b, i), Channel(ys[k][..len], n, b, i);
    ChannelLength(xs[k][..len], n, b, i);
    ChannelLength(ys[k][..len], n, b, i);
    assert ChannelPackets(header, xs, len, n, b, i, tail)[k] == ChannelPackets(header, ys, len, n, b, i, tail)[k];
    assert header + x + tail == header + y + tail;
    hide *;
    assert x == (header + x + tail)[|header|..|header| + |x|];
    assert y == (header + y + tail)[|header|..|header| + |x|];
  }

  /** A four-byte stereo chunk of one-byte samples: the second frame is never sent. */
  lemma StereoDropsTheSecondFrame()
    ensures var block: seq<Byte> := [1, 2, 3, 4];
            Prefixes([block], 4 / 2) == [[1, 2]]
            && Split(block[..4 / 2], 2, 1) == [[1], [2]]
  {
    var block: seq<Byte> := [1, 2, 3, 4];
    var s: seq<Byte> := [1, 2];
    assert block[..2] == s;
    assert s[2..] == [];
    assert Channel(s, 2, 1, 0) == s[0..1] + Strided(s[2..], 2, 0, 1) == [1];
    assert Channel(s, 2, 1, 1) == s[1..2] + Strided(s[2..], 2, 1, 1) == [2];
  }

  // ---------------------------------------------------------------- what the speaker is sent

  /**
   A speaker that passes the gate when the pushes begin, and is a member of channel `i` only, is
   sent one packet per pushed block: header, its channel's bytes, and the unchanged buffer tail.
   */
  lemma SpeakerHears(cfg: Config, reg: Registry, sent: seq<Message>, line: int, list: seq<int>, header: seq<Byte>,
                     blocks: seq<seq<Byte>>, len: nat, b: nat, tail: seq<Byte>, i: nat, id: int)
    requires b > 0 && LongEnough(blocks, len) && OnlyOn(reg, line, list, i, id)
    requires KnownTurns(reg.recs, RunTurns(reg, line, list, header, blocks, len, b, tail))
    requires id in reg.recs && Passes(reg.recs[id])
    ensures AudioTo(sent + FanOutLog(cfg, reg.recs, RunTurns(reg, line, list, header, blocks, len, b, tail)), id)
         == AudioTo(sent, id) + ChannelPackets(header, blocks, len, |list|, b, i, tail)
  {
    var turns := RunTurns(reg, line, list, header, blocks, len, b, tail);
    ReadySpeakerGetsAll(cfg, reg.recs, turns, id);
    RunPackets(reg, line, list, header, blocks, len, b, tail, i, id);
    AudioToAppend(sent, FanOutLog(cfg, reg.recs, turns), id);
  }

  /** The fresh part of each packet: `m` bytes behind the header. */
  function Payloads(packets: seq<seq<Byte>>, skip: nat, m: nat): (r: seq<seq<Byte>>)
    requires forall k | 0 <= k < |packets| :: skip + m <= |packets[k]|
    ensures |r| == |packets|
  {
    seq(|packets|, k requires 0 <= k < |packets| => packets[k][skip..skip + m])
  }

  lemma PayloadsOfPackets(header: seq<Byte>, blocks: seq<seq<Byte>>, len: nat, n: nat, b: nat, i: nat, tail: seq<Byte>)
    requires Shape(n, b, n * b) && i < n && LongEnough(blocks, len) && Whole(len, n * b)
    ensures var packets := ChannelPackets(header, blocks, len, n, b, i, tail);
            && (forall k | 0 <= k < |packets| :: |header| + len / n <= |packets[k]|)
            && Payloads(packets, |header|, len / n) == ChannelPayloads(blocks, len, n, b, i)
  {
    var packets, m := ChannelPackets(header, blocks, len, n, b, i, tail), len / n;
    assert n > 0;
    forall k | 0 <= k < |packets|
      ensures |header| + m <= |packets[k]|
      ensures packets[k][|header|..|header| + m] == Channel(blocks[k][..len], n, b, i)
    {
      assert packets[k] == header + Channel(blocks[k][..len], n, b, i) + tail;
      assert WholeFrames(blocks[k][..len], n, b);
      hide *;
      ChannelLength(blocks[k][..len], n, b, i);
      PayloadOf(header, Channel(blocks[k][..len], n, b, i), tail);
    }
  }

  lemma PayloadOf(header: seq<Byte>, payload: seq<Byte>, tail: seq<Byte>)
    ensures (header + payload + tail)[|header|..|header| + |payload|] == payload
  {
  }

  /** The payloads a speaker is sent are its channel of the bytes de-interleaved, all blocks in order. */
  lemma PayloadStream(header: seq<Byte>, blocks: seq<seq<Byte>>, len: nat, n: nat, b: nat, i: nat, tail: seq<Byte>)
    requires Shape(n, b, n * b) && i < n && LongEnough(blocks, len) && Whole(len, n * b)
    ensures var packets := ChannelPackets(header, blocks, len, n, b, i, tail);
            && (forall k | 0 <= k < |packets| :: |header| + len / n <= |packets[k]|)
            && Flatten(Payloads(packets, |header|, len / n)) == Channel(Flatten(Prefixes(blocks, len)), n, b, i)
  {
    PayloadsOfPackets(header, blocks, len, n, b, i, tail);
    ChannelStream(blocks, len, n, b, i);
  }

  /** The blocks a finished wave command has pushed. */
  function PushedBlocks(payload: seq<Byte>, chunk: nat, buf: seq<Byte>, segs: seq<seq<Byte>>): seq<seq<Byte>>
    requires chunk == |buf| > 0 && Fitting(chunk, |Residue(payload, chunk)|, segs)
  {
    Pieces(payload, chunk) + Buffers(buf, |Residue(payload, chunk)|, segs)
  }

  /** The same, of a run of the command itself. */
  lemma CommandReachesSpeaker(cmd: WaveCommand, w: WaveInfo, payload: seq<Byte>, st: Snapshot,
                              conn: Connection, buf: seq<Byte>, all: seq<Byte>, i: nat, id: int)
    requires cmd.Played(w, payload, st, conn, buf, all)
    requires OnlyOn(st.reg, cmd.line, w.list, i, id) && id in st.reg.recs && Passes(st.reg.recs[id])
    ensures FreshLength(w) <= PushLength(w) && PushLength(w) - FreshLength(w) <= |st.back|
    ensures var blocks := PushedBlocks(payload, w.chunk, buf, conn.segments);
            && LongEnough(blocks, PushLength(w))
            && AudioTo(cmd.pusher.out.sent, id)
            == AudioTo(st.sent, id)
               + ChannelPackets(cmd.pusher.header, blocks, PushLength(w), |w.list|, SampleBytes(w), i,
                                st.back[..PushLength(w) - FreshLength(w)])
  {
    var blocks := PushedBlocks(payload, w.chunk, buf, conn.segments);
    SpeakerHears(cmd.pusher.table.cfg, st.reg, st.sent, cmd.line, w.list, cmd.pusher.header, blocks,
                 PushLength(w), SampleBytes(w), st.back[..PushLength(w) - FreshLength(w)], i, id);
  }

  lemma MonoStream(header: seq<Byte>, blocks: seq<seq<Byte>>, len: nat, b: nat, tail: seq<Byte>)
    requires Shape(1, b, 1 * b) && Whole(len, 1 * b) && LongEnough(blocks, len)
    ensures var packets := ChannelPackets(header, blocks, len, 1, b, 0, tail);
            && (forall k | 0 <= k < |packets| :: |header| + len <= |packets[k]|)
            && Flatten(Payloads(packets, |header|, len)) == Flatten(Prefixes(blocks, len))
  {
    PayloadStream(header, blocks, len, 1, b, 0, tail);
    PrefixesWhole(blocks, len, b);
    MonoChannel(Flatten(Prefixes(blocks, len)), b);
  }

  /** With one channel the speaker is sent all that is pushed, whatever that is. */
  lemma MonoHearsAll(w: WaveInfo, header: seq<Byte>, blocks: seq<seq<Byte>>, tail: seq<Byte>)
    requires Playable(w, w.headerSize, header) && w.channels == 1 && |w.list| == 1 && AllOf(blocks, w.chunk)
    ensures LongEnough(blocks, w.chunk)
    ensures var packets := ChannelPackets(header, blocks, w.chunk, 1, SampleBytes(w), 0, tail);
            && (forall k | 0 <= k < |packets| :: |header| + w.chunk <= |packets[k]|)
            && Flatten(Payloads(packets, |header|, w.chunk)) == Flatten(blocks)
  {
    var b := SampleBytes(w);
    QuotientIsWhole(w.chunk, w.channels);
    assert Whole(w.chunk, 1 * b) && Shape(1, b, 1 * b);
    MonoStream(header, blocks, w.chunk, b, tail);
    if blocks != [] {
      CoverageExactly(blocks, w.chunk, 1);
    }
  }

  /**
   One channel: the payloads sent to the speaker are the first block's payload and everything
   received after it exactly if every read filled its window and no residue was left alone.
   */
  lemma MonoIsComplete(w: WaveInfo, header: seq<Byte>, payload: seq<Byte>, buf: seq<Byte>,
                       segs: seq<seq<Byte>>, tail: seq<Byte>)
    requires Playable(w, w.headerSize, header) && w.channels == 1 && |w.list| == 1 && |buf| == w.chunk
    requires buf[..|Residue(payload, w.chunk)|] == Residue(payload, w.chunk)
    requires Fitting(w.chunk, |Residue(payload, w.chunk)|, segs)
    ensures var residue := |Residue(payload, w.chunk)|;
            var blocks := PushedBlocks(payload, w.chunk, buf, segs);
            && LongEnough(blocks, w.chunk)
            && var packets := ChannelPackets(header, blocks, w.chunk, 1, SampleBytes(w), 0, tail);
               && (forall k | 0 <= k < |packets| :: |header| + w.chunk <= |packets[k]|)
               && (Flatten(Payloads(packets, |header|, w.chunk)) == payload + Flatten(segs)
                   <==> Filled(w.chunk, residue, segs) && (segs != [] || residue == 0))
  {
    assert w.chunk > 0;
    PushedIsStreamExactly(payload, w.chunk, buf, segs);
    var blocks := PushedBlocks(payload, w.chunk, buf, segs);
    assert AllOf(blocks, w.chunk);
    hide Playable, Residue, Pieces, Buffers, ChannelPackets, Payloads, Flatten;
    MonoHearsAll(w, header, blocks, tail);
  }

  /**
   One channel, all windows but the last filled: the speaker is sent payload and stream, and then
   what the buffer held before where the last read did not reach.
   */
  lemma MonoTail(w: WaveInfo, header: seq<Byte>, payload: seq<Byte>, buf: seq<Byte>,
                 segs: seq<seq<Byte>>, tail: seq<Byte>)
    requires Playable(w, w.headerSize, header) && w.channels == 1 && |w.list| == 1 && |buf| == w.chunk
    requires buf[..|Residue(payload, w.chunk)|] == Residue(payload, w.chunk)
    requires Fitting(w.chunk, |Residue(payload, w.chunk)|, segs) && segs != []
    requires AllButLastFilled(w.chunk, |Residue(payload, w.chunk)|, segs)
    ensures var residue := |Residue(payload, w.chunk)|;
            var blocks := PushedBlocks(payload, w.chunk, buf, segs);
            var init, end := segs[..|segs| - 1], FreshEnd(residue, segs, |segs| - 1);
            && LongEnough(blocks, w.chunk) && Fitting(w.chunk, residue, init) && end <= w.chunk
            && var packets := ChannelPackets(header, blocks, w.chunk, 1, SampleBytes(w), 0, tail);
               && (forall k | 0 <= k < |packets| :: |header| + w.chunk <= |packets[k]|)
               && Flatten(Payloads(packets, |header|, w.chunk))
               == payload + Flatten(segs) + BufferAfter(buf, residue, init)[end..]
  {
    assert w.chunk > 0;
    PushedIsStreamExactly(payload, w.chunk, buf, segs);
    var blocks := PushedBlocks(payload, w.chunk, buf, segs);
    assert AllOf(blocks, w.chunk);
    OnlyTheTailIsStale(payload, w.chunk, buf, segs);
    hide Playable, Residue, Pieces, Buffers, BufferAfter, Fitting, ChannelPackets, Payloads, Flatten;
    MonoHearsAll(w, header, blocks, tail);
  }
}
