/** From the client's file to what a speaker is sent. */
module FileToSpeaker {
  import opened Arithmetic
  import opened Bytes
  import opened FanOut
  import opened Interleaving
  import opened PushWave
  import opened Registry
  import opened RegistryRuns
  import opened RegistryTiming
  import opened Sessions
  import opened SpeakerStreams
  import opened WaveRuns
  import opened WaveStreams

  /** The wave of a session, as the codec sees it. */
  ghost function Info(t: Transfer, inspect: seq<Byte> -> WaveInfo): (w: WaveInfo)
    requires Started(t, inspect)
    ensures w.headerSize == HeaderSize(t, inspect) && w.chunk == t.chunk
  {
    var _ := HeaderSize(t, inspect);
    inspect(t.first[12..t.taken])
  }

  /** The buffer the first receive finds: the residue, and behind it anything. */
  ghost predicate StartsWithResidue(t: Transfer, inspect: seq<Byte> -> WaveInfo, buf: seq<Byte>)
    requires Started(t, inspect)
  {
    && |buf| == t.chunk
    && buf[..|Residue(Payload(t, inspect), t.chunk)|] == Residue(Payload(t, inspect), t.chunk)
  }

  ghost predicate Delivered(t: Transfer, inspect: seq<Byte> -> WaveInfo, segs: seq<seq<Byte>>)
    requires Started(t, inspect)
  {
    Delivers(t.chunk, |Residue(Payload(t, inspect), t.chunk)|, segs, Stream(t))
  }

  /** All blocks the session pushes. */
  ghost function Blocks(t: Transfer, inspect: seq<Byte> -> WaveInfo, buf: seq<Byte>, segs: seq<seq<Byte>>)
    : (r: seq<seq<Byte>>)
    requires Started(t, inspect) && StartsWithResidue(t, inspect, buf) && Delivered(t, inspect, segs)
    ensures AllOf(r, t.chunk)
  {
    PushedIsStreamExactly(Payload(t, inspect), t.chunk, buf, segs);
    PushedBlocks(Payload(t, inspect), t.chunk, buf, segs)
  }

  /** What is pushed begins with the file behind its header. */
  lemma BlocksCarryFile(t: Transfer, inspect: seq<Byte> -> WaveInfo, buf: seq<Byte>, segs: seq<seq<Byte>>)
    requires Started(t, inspect) && StartsWithResidue(t, inspect, buf) && Delivered(t, inspect, segs)
    requires AllButLastFilled(t.chunk, |Residue(Payload(t, inspect), t.chunk)|, segs)
    ensures Behind(t.content, HeaderSize(t, inspect)) <= Flatten(Blocks(t, inspect, buf, segs))
       <==> EndIsPushed(t, inspect)
  {
    FilePushedExactly(t, inspect, buf, segs);
    StreamEmptyExactly(t, inspect, segs);
    if segs == [] {
      assert Blocks(t, inspect, buf, segs) == Pieces(Payload(t, inspect), t.chunk);
    } else {
      FileGoesThrough(t, inspect);
      OnlyTheTailIsStale(Payload(t, inspect), t.chunk, buf, segs);
      hide Behind, HeaderSize, Payload, Pieces, Buffers, Residue, BufferAfter, PushedNew, Fitting;
    }
  }

  /**
   One channel, and all windows but the last filled: what the speaker is sent begins with the whole
   file behind its header, if and only if the end of the file is pushed at all.
   */
  lemma MonoHearsFile(t: Transfer, inspect: seq<Byte> -> WaveInfo, header: seq<Byte>, buf: seq<Byte>,
                      segs: seq<seq<Byte>>, tail: seq<Byte>)
    requires Started(t, inspect) && StartsWithResidue(t, inspect, buf) && Delivered(t, inspect, segs)
    requires var w := Info(t, inspect);
             Playable(w, w.headerSize, header) && w.channels == 1 && |w.list| == 1
    requires AllButLastFilled(t.chunk, |Residue(Payload(t, inspect), t.chunk)|, segs)
    ensures var blocks := Blocks(t, inspect, buf, segs);
            && LongEnough(blocks, t.chunk)
            && var packets := ChannelPackets(header, blocks, t.chunk, 1, SampleBytes(Info(t, inspect)), 0, tail);
               && (forall k | 0 <= k < |packets| :: |header| + t.chunk <= |packets[k]|)
               && (Behind(t.content, HeaderSize(t, inspect)) <= Flatten(Payloads(packets, |header|, t.chunk))
                   <==> EndIsPushed(t, inspect))
  {
    BlocksCarryFile(t, inspect, buf, segs);
    assert Playable(Info(t, inspect), Info(t, inspect).headerSize, header);
    var blocks := Blocks(t, inspect, buf, segs);
    hide Blocks, Behind, EndIsPushed, Playable, AllButLastFilled, ChannelPackets, Payloads, Flatten;
    MonoHearsAll(Info(t, inspect), header, blocks, tail);
  }

  /**
   A whole song over a run: a ready speaker of channel `i` that is heard often enough is sent, in the
   fresh parts of its packets, its channel of the prefixes of all blocks pushed.
   */
  lemma FileReachesSpeaker(cfg: Config, s: Server, events: seq<Event>, line: int, t: Transfer,
                           inspect: seq<Byte> -> WaveInfo, header: seq<Byte>, buf: seq<Byte>,
                           segs: seq<seq<Byte>>, tail: seq<Byte>, i: nat, id: int)
    requires Started(t, inspect) && StartsWithResidue(t, inspect, buf) && Delivered(t, inspect, segs)
    requires var w := Info(t, inspect);
             && Playable(w, w.headerSize, header) && OnlyOn(s.reg, line, w.list, i, id)
             && PushesIn(events)
             == WaveEvents(line, w.list, header, Blocks(t, inspect, buf, segs), PushLength(w), SampleBytes(w), tail)
    requires Consistent(s.reg) && id in s.reg.recs && Ready(cfg, s.reg.recs[id])
    requires KeptAlive(cfg, events, id) && AlwaysSupported(cfg, events, id)
    ensures var w, blocks := Info(t, inspect), Blocks(t, inspect, buf, segs);
            && LongEnough(blocks, PushLength(w)) && 0 <= FreshLength(w)
            && var packets := ChannelPackets(header, blocks, PushLength(w), |w.list|, SampleBytes(w), i, tail);
               && AudioTo(Run(cfg, s, events).log, id) == AudioTo(s.log, id) + packets
               && (forall k | 0 <= k < |packets| :: |header| + FreshLength(w) <= |packets[k]|)
               && Flatten(Payloads(packets, |header|, FreshLength(w)))
               == Channel(Flatten(Prefixes(blocks, PushLength(w))), |w.list|, SampleBytes(w), i)
  {
    var w, blocks := Info(t, inspect), Blocks(t, inspect, buf, segs);
    assert Shape(|w.list|, SampleBytes(w), |w.list| * SampleBytes(w));
    assert Whole(PushLength(w), |w.list| * SampleBytes(w)) && LongEnough(blocks, PushLength(w));
    OnlyOnIndex(s.reg, line, w.list, i, id);
    WaveReachesSpeaker(cfg, s, events, line, w.list, header, blocks, PushLength(w), SampleBytes(w), tail, i, id);
    PayloadStream(header, blocks, PushLength(w), |w.list|, SampleBytes(w), i, tail);
    LengthFits(PushLength(w), |w.list|);
  }

  /** And with one channel, all windows but the last filled, that begins with the whole file. */
  lemma FileReachesMonoSpeaker(cfg: Config, s: Server, events: seq<Event>, line: int, t: Transfer,
                               inspect: seq<Byte> -> WaveInfo, header: seq<Byte>, buf: seq<Byte>,
                               segs: seq<seq<Byte>>, tail: seq<Byte>, id: int)
    requires Started(t, inspect) && StartsWithResidue(t, inspect, buf) && Delivered(t, inspect, segs)
    requires AllButLastFilled(t.chunk, |Residue(Payload(t, inspect), t.chunk)|, segs)
    requires var w := Info(t, inspect);
             && Playable(w, w.headerSize, header) && w.channels == 1 && |w.list| == 1
             && OnlyOn(s.reg, line, w.list, 0, id)
             && PushesIn(events)
             == WaveEvents(line, w.list, header, Blocks(t, inspect, buf, segs), t.chunk, SampleBytes(w), tail)
    requires Consistent(s.reg) && id in s.reg.recs && Ready(cfg, s.reg.recs[id])
    requires KeptAlive(cfg, events, id) && AlwaysSupported(cfg, events, id)
    ensures exists packets: seq<seq<Byte>> ::
              && AudioTo(Run(cfg, s, events).log, id) == AudioTo(s.log, id) + packets
              && (forall k | 0 <= k < |packets| :: |header| + t.chunk <= |packets[k]|)
              && (Behind(t.content, HeaderSize(t, inspect)) <= Flatten(Payloads(packets, |header|, t.chunk))
                  <==> EndIsPushed(t, inspect))
  {
    var w, blocks := Info(t, inspect), Blocks(t, inspect, buf, segs);
    MonoHearsFile(t, inspect, header, buf, segs, tail);
    WaveReachesSpeaker(cfg, s, events, line, w.list, header, blocks, t.chunk, SampleBytes(w), tail, 0, id);
  }
}
