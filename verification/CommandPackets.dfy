/**
 What a finished wave command has sent, told from the wave's format alone: how long the packets are,
 what they carry over all channels, and what speakers were told before the first of them.
 */
module CommandPackets {
  import opened Arithmetic
  import opened Bytes
  import opened FanOut
  import opened Interleaving
  import opened PushWave
  import opened Registry
  import opened SpeakerControl
  import opened SpeakerPusher
  import opened SpeakerStreams
  import opened WaveStreams

  // ---------------------------------------------------------------- sizes, by multiplication

  /** `p` is the whole part of `total` over `n`. */
  predicate WholePart(p: nat, total: nat, n: nat) {
    p * n <= total < p * n + n
  }

  lemma WholePartIs(p: nat, total: nat, n: nat)
    requires WholePart(p, total, n)
    ensures n > 0 && total / n == p
  {
    DivModUnique(total, n, p, total - p * n);
  }

  /**
   The sizes of a command: `p` bytes of a chunk pushed for each of the format's channels, `q` of them in
   each packet, samples of `b` bytes.
   */
  ghost predicate Sized(w: WaveInfo, p: nat, q: nat, b: nat) {
    WholePart(p, w.chunk, w.channels) && WholePart(q, p, |w.list|) && WholePart(b, w.bits, 8)
  }

  lemma SizesAre(w: WaveInfo, p: nat, q: nat, b: nat)
    requires Sized(w, p, q, b)
    ensures w.channels > 0 && w.list != []
    ensures PushLength(w) == p && FreshLength(w) == q && SampleBytes(w) == b
  {
    WholePartIs(p, w.chunk, w.channels);
    WholePartIs(q, p, |w.list|);
    WholePartIs(b, w.bits, 8);
  }

  // ---------------------------------------------------------------- every packet

  ghost predicate AllTurns(turns: seq<Turn>, header: seq<Byte>, size: nat) {
    forall k | 0 <= k < |turns| :: header <= turns[k].packet && |turns[k].packet| == size
  }

  ghost predicate AllPackets(log: seq<Message>, header: seq<Byte>, size: nat) {
    forall k | 0 <= k < |log| && log[k].Audio? :: header <= log[k].packet && |log[k].packet| == size
  }

  lemma {:induction false} LogOfTurns(cfg: Config, recs: map<int, SpeakerRec>, turns: seq<Turn>,
                                      header: seq<Byte>, size: nat)
    requires KnownTurns(recs, turns) && AllTurns(turns, header, size)
    ensures AllPackets(FanOutLog(cfg, recs, turns), header, size)
    decreases |turns|
  {
    if turns != [] {
      LogOfTurns(cfg, recs, turns[..|turns| - 1], header, size);
    }
  }

  lemma {:induction false} TurnsOfBlock(reg: Registry, line: int, channels: seq<int>, packets: seq<seq<Byte>>,
                                        header: seq<Byte>, size: nat)
    requires |channels| == |packets|
    requires forall k | 0 <= k < |packets| :: header <= packets[k] && |packets[k]| == size
    ensures AllTurns(BlockTurns(reg, line, channels, packets), header, size)
    decreases |channels|
  {
    if channels != [] {
      var last := |channels| - 1;
      TurnsOfBlock(reg, line, channels[..last], packets[..last], header, size);
    }
  }

  lemma PacketIs(header: seq<Byte>, own: seq<Byte>, tail: seq<Byte>)
    ensures header <= header + own + tail && |header + own + tail| == |header| + |own| + |tail|
  {
    ConcatAssoc(header, own, tail);
  }

  lemma TurnsOfPush(reg: Registry, line: int, list: seq<int>, header: seq<Byte>, s: seq<Byte>, b: nat, tail: seq<Byte>)
    requires WholeFrames(s, |list|, b)
    ensures AllTurns(PushTurns(reg, line, list, header, s, b, tail), header, |header| + |s| / |list| + |tail|)
  {
    var n := |list|;
    var packets := Packets(header, s, n, b, tail);
    forall i | 0 <= i < n
      ensures header <= packets[i] && |packets[i]| == |header| + |s| / n + |tail|
    {
      ChannelLength(s, n, b, i);
      PacketIs(header, Channel(s, n, b, i), tail);
    }
    TurnsOfBlock(reg, line, list, packets, header, |header| + |s| / n + |tail|);
  }

  lemma {:induction false} TurnsOfRun(reg: Registry, line: int, list: seq<int>, header: seq<Byte>,
                                      blocks: seq<seq<Byte>>, len: nat, b: nat, tail: seq<Byte>)
    requires Shape(|list|, b, |list| * b) && Whole(len, |list| * b) && LongEnough(blocks, len)
    ensures AllTurns(RunTurns(reg, line, list, header, blocks, len, b, tail), header, |header| + len / |list| + |tail|)
    decreases |blocks|
  {
    hide PushTurns;
    if blocks != [] {
      var last := |blocks| - 1;
      TurnsOfRun(reg, line, list, header, blocks[..last], len, b, tail);
      assert |blocks[last][..len]| == len;
      TurnsOfPush(reg, line, list, header, blocks[last][..len], b, tail);
    }
  }

  lemma SuffixAllPackets(sent: seq<Message>, more: seq<Message>, header: seq<Byte>, size: nat)
    requires AllPackets(more, header, size)
    ensures sent <= sent + more && AllPackets((sent + more)[|sent|..], header, size)
  {
    assert (sent + more)[|sent|..] == more;
  }

  /**
   Every packet the command sends is the header and `p` bytes: as many as go into the chunk once for
   each channel of the format.
   */
  lemma CommandPacketSize(cmd: WaveCommand, w: WaveInfo, payload: seq<Byte>, st: Snapshot,
                          conn: Connection, buf: seq<Byte>, all: seq<Byte>, p: nat)
    requires cmd.Played(w, payload, st, conn, buf, all)
    requires p * w.channels <= w.chunk < p * w.channels + w.channels
    ensures st.sent <= cmd.pusher.out.sent
    ensures AllPackets(cmd.pusher.out.sent[|st.sent|..], cmd.pusher.header, |cmd.pusher.header| + p)
  {
    WholePartIs(p, w.chunk, w.channels);
    var blocks := PushedBlocks(payload, w.chunk, buf, conn.segments);
    var tail := st.back[..PushLength(w) - FreshLength(w)];
    var turns := RunTurns(st.reg, cmd.line, w.list, cmd.pusher.header, blocks, PushLength(w), SampleBytes(w), tail);
    assert Shape(|w.list|, SampleBytes(w), |w.list| * SampleBytes(w)) && PushLength(w) == p;
    assert Whole(PushLength(w), |w.list| * SampleBytes(w)) && FreshLength(w) == p / |w.list|;
    assert KnownTurns(st.reg.recs, turns);
    assert cmd.pusher.out.sent == st.sent + FanOutLog(cmd.pusher.table.cfg, st.reg.recs, turns);
    assert |tail| == p - p / |w.list|;
    hide *;
    TurnsOfRun(st.reg, cmd.line, w.list, cmd.pusher.header, blocks, p, SampleBytes(w), tail);
    LogOfTurns(cmd.pusher.table.cfg, st.reg.recs, turns, cmd.pusher.header, |cmd.pusher.header| + p);
    SuffixAllPackets(st.sent, FanOutLog(cmd.pusher.table.cfg, st.reg.recs, turns),
                     cmd.pusher.header, |cmd.pusher.header| + p);
  }

  // ---------------------------------------------------------------- all channels together

  lemma AudioOfSuffix(before: seq<Message>, after: seq<Message>, id: int, packets: seq<seq<Byte>>)
    requires before <= after && AudioTo(after, id) == AudioTo(before, id) + packets
    ensures AudioTo(after[|before|..], id) == packets
  {
    var more := after[|before|..];
    assert after == before + more;
    AudioToAppend(before, more, id);
    hide AudioTo;
    assert packets == (AudioTo(before, id) + packets)[|AudioTo(before, id)|..];
    assert AudioTo(more, id) == (AudioTo(before, id) + AudioTo(more, id))[|AudioTo(before, id)|..];
  }

  /** What the command has sent to one speaker: `q` bytes behind the header of each packet. */
  function HeardBy(log: seq<Message>, id: int, skip: nat, q: nat): seq<Byte>
    requires forall k | 0 <= k < |AudioTo(log, id)| :: skip + q <= |AudioTo(log, id)[k]|
  {
    Flatten(Payloads(AudioTo(log, id), skip, q))
  }

  /** One speaker of channel `i`, ready when the command starts. */
  ghost predicate Hears(cmd: WaveCommand, w: WaveInfo, st: Snapshot, i: nat, id: int) {
    OnlyOn(st.reg, cmd.line, w.list, i, id) && id in st.reg.recs
    && st.reg.recs[id].online && st.reg.recs[id].supported && st.reg.recs[id].dport != 0 && st.reg.recs[id].fd > 0
  }

  /** One packet per block: header, the channel's bytes of the block's first `p`, and the old buffer tail. */
  lemma CommandPackets(cmd: WaveCommand, w: WaveInfo, payload: seq<Byte>, st: Snapshot, conn: Connection,
                       buf: seq<Byte>, all: seq<Byte>, p: nat, q: nat, b: nat, i: nat, id: int)
    requires cmd.Played(w, payload, st, conn, buf, all) && Sized(w, p, q, b) && Hears(cmd, w, st, i, id)
    ensures Shape(|w.list|, b, |w.list| * b) && Whole(p, |w.list| * b) && i < |w.list|
    ensures st.sent <= cmd.pusher.out.sent && 0 <= p - q <= |st.back|
    ensures var blocks := PushedBlocks(payload, w.chunk, buf, conn.segments);
            && LongEnough(blocks, p)
            && AudioTo(cmd.pusher.out.sent[|st.sent|..], id)
            == ChannelPackets(cmd.pusher.header, blocks, p, |w.list|, b, i, st.back[..p - q])
  {
    SizesAre(w, p, q, b);
    CommandPacketSize(cmd, w, payload, st, conn, buf, all, p);
    CommandReachesSpeaker(cmd, w, payload, st, conn, buf, all, i, id);
    var blocks := PushedBlocks(payload, w.chunk, buf, conn.segments);
    assert Shape(|w.list|, b, |w.list| * b) && Whole(p, |w.list| * b) && LongEnough(blocks, p);
    var packets := ChannelPackets(cmd.pusher.header, blocks, p, |w.list|, b, i, st.back[..p - q]);
    hide *;
    AudioOfSuffix(st.sent, cmd.pusher.out.sent, id, packets);
  }

  /** That tail is what the packet buffer holds behind the fresh bytes when the command starts. */
  lemma TailIsOldBuffer(cmd: WaveCommand, w: WaveInfo, p: nat, q: nat, b: nat)
    requires cmd.Valid() && Playable(w, w.headerSize, cmd.pusher.header) && Sized(w, p, q, b)
    ensures q <= p && |cmd.pusher.header| + p <= cmd.pusher.channelBuffer.Length
    ensures cmd.Begin(w).back == cmd.pusher.channelBuffer[|cmd.pusher.header| + q..]
  {
    SizesAre(w, p, q, b);
    LengthFits(p, |w.list|);
  }

  lemma HeardIsChannel(cmd: WaveCommand, w: WaveInfo, payload: seq<Byte>, st: Snapshot, conn: Connection,
                       buf: seq<Byte>, all: seq<Byte>, p: nat, q: nat, b: nat, i: nat, id: int)
    requires cmd.Played(w, payload, st, conn, buf, all) && Sized(w, p, q, b) && Hears(cmd, w, st, i, id)
    ensures Shape(|w.list|, b, |w.list| * b) && Whole(p, |w.list| * b) && i < |w.list|
    ensures st.sent <= cmd.pusher.out.sent
    ensures var log, blocks := cmd.pusher.out.sent[|st.sent|..], PushedBlocks(payload, w.chunk, buf, conn.segments);
            && LongEnough(blocks, p)
            && (forall k | 0 <= k < |AudioTo(log, id)| :: |cmd.pusher.header| + q <= |AudioTo(log, id)[k]|)
            && HeardBy(log, id, |cmd.pusher.header|, q) == Channel(Flatten(Prefixes(blocks, p)), |w.list|, b, i)
  {
    SizesAre(w, p, q, b);
    CommandPackets(cmd, w, payload, st, conn, buf, all, p, q, b, i, id);
    assert q == p / |w.list|;
    hide *;
    PayloadStream(cmd.pusher.header, PushedBlocks(payload, w.chunk, buf, conn.segments), p, |w.list|, b, i,
                  st.back[..p - q]);
  }

  /** One ready speaker for every channel. */
  ghost predicate Audience(cmd: WaveCommand, w: WaveInfo, st: Snapshot, ids: seq<int>) {
    |ids| == |w.list| && forall i | 0 <= i < |ids| :: Hears(cmd, w, st, i, ids[i])
  }

  /** What all of them are sent, channel by channel. */
  ghost predicate HeardTogether(log: seq<Message>, ids: seq<int>, skip: nat, q: nat, chs: seq<seq<Byte>>) {
    |chs| == |ids|
    && forall i | 0 <= i < |ids| ::
         && (forall k | 0 <= k < |AudioTo(log, ids[i])| :: skip + q <= |AudioTo(log, ids[i])[k]|)
         && chs[i] == HeardBy(log, ids[i], skip, q)
  }

  /**
   Put together again frame by frame, what the speakers of all channels are sent is the first `p` bytes
   of every block pushed, in order. That is all that was pushed if and only if the format has one channel.
   */
  lemma ChannelsTogether(cmd: WaveCommand, w: WaveInfo, payload: seq<Byte>, st: Snapshot, conn: Connection,
                         buf: seq<Byte>, all: seq<Byte>, p: nat, q: nat, b: nat, ids: seq<int>, chs: seq<seq<Byte>>)
    requires cmd.Played(w, payload, st, conn, buf, all) && Sized(w, p, q, b) && Audience(cmd, w, st, ids)
    requires st.sent <= cmd.pusher.out.sent
    requires HeardTogether(cmd.pusher.out.sent[|st.sent|..], ids, |cmd.pusher.header|, q, chs)
    ensures var blocks := PushedBlocks(payload, w.chunk, buf, conn.segments);
            && chs != [] && Aligned(chs, b, |chs[0]|) && LongEnough(blocks, p)
            && Interleave(chs, b, |chs[0]|) == Flatten(Prefixes(blocks, p))
            && (blocks != [] ==> (Interleave(chs, b, |chs[0]|) == Flatten(blocks) <==> w.channels == 1))
  {
    var n, blocks := |w.list|, PushedBlocks(payload, w.chunk, buf, conn.segments);
    SizesAre(w, p, q, b);
    HeardIsChannel(cmd, w, payload, st, conn, buf, all, p, q, b, 0, ids[0]);
    var s := Flatten(Prefixes(blocks, p));
    forall i | 0 <= i < n
      ensures chs[i] == Channel(s, n, b, i)
    {
      HeardIsChannel(cmd, w, payload, st, conn, buf, all, p, q, b, i, ids[i]);
    }
    assert chs == Split(s, n, b);
    PushedIsStreamExactly(payload, w.chunk, buf, conn.segments);
    assert AllOf(blocks, w.chunk) && w.chunk / w.channels == p;
    hide *;
    TogetherIs(blocks, w.chunk, w.channels, p, n, b, chs);
  }

  lemma TogetherIs(blocks: seq<seq<Byte>>, chunk: nat, channels: nat, p: nat, n: nat, b: nat, chs: seq<seq<Byte>>)
    requires chunk > 0 && channels > 0 && AllOf(blocks, chunk) && p == chunk / channels && LongEnough(blocks, p)
    requires Shape(n, b, n * b) && Whole(p, n * b) && chs == Split(Flatten(Prefixes(blocks, p)), n, b)
    ensures chs != [] && Aligned(chs, b, |chs[0]|)
    ensures Interleave(chs, b, |chs[0]|) == Flatten(Prefixes(blocks, p))
    ensures blocks != [] ==> (Interleave(chs, b, |chs[0]|) == Flatten(blocks) <==> channels == 1)
  {
    var s := Flatten(Prefixes(blocks, p));
    PrefixesWhole(blocks, p, n * b);
    InterleaveSplit(s, n, b);
    ChannelLength(s, n, b, 0);
    assert |chs[0]| == |s| / n;
    if blocks != [] {
      CoverageExactly(blocks, chunk, channels);
    }
  }

  // ---------------------------------------------------------------- before the first packet

  /**
   Before the first push every listed speaker that is online and has a port is told the wave's rate and
   sample size and its own channel, once; nobody else is told anything, and the table is as it was.
   */
  lemma FormatComesFirst(cmd: WaveCommand, w: WaveInfo, id: int)
    requires cmd.Valid() && Playable(w, w.headerSize, cmd.pusher.header)
    ensures var st, reg := cmd.Begin(w), cmd.pusher.table.State();
            && st.reg == reg && cmd.pusher.out.sent <= st.sent
            && var told := st.sent[|cmd.pusher.out.sent|..];
               && OnlySamples(told)
               && SamplesTo(told, id)
               == if id in reg.recs && reg.recs[id].online && reg.recs[id].dport != 0
                  then [Sample(id, reg.recs[id].channel, w.rate, w.bits)] else []
  {
    var reg, sent := cmd.pusher.table.State(), cmd.pusher.out.sent;
    FormatExact(reg.recs, reg.order, w.rate, w.bits, id);
    assert cmd.Begin(w).sent == sent + FormatLog(reg.recs, reg.order, w.rate, w.bits);
    hide FormatLog, SamplesTo, OnlySamples, Playable;
    assert (sent + FormatLog(reg.recs, reg.order, w.rate, w.bits))[|sent|..]
        == FormatLog(reg.recs, reg.order, w.rate, w.bits);
    assert id in reg.recs <==> id in reg.order;
  }
}
