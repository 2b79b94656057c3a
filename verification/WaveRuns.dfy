/**
 A wave command among everything else: it blocks in its own thread for as long as the client
 streams, so announcements, visits of the sweep and time requests come between its pushes. Here
 every push is one event of a run, and the command is the sequence of its pushes in it.
 */
module WaveRuns {
  import opened Bytes
  import opened FanOut
  import opened PushWave
  import opened Registry
  import opened RegistryRuns
  import opened RegistryTiming
  import opened SpeakerPusher
  import opened SpeakerStreams

  // ---------------------------------------------------------------- a speaker that is kept alive

  /** The packets of the speaker's turns in one event. */
  function TurnsIn(reg: Registry, e: Event, id: int): seq<seq<Byte>> {
    if e.Push? then PacketsOf(BlockTurns(reg, e.line, e.channels, e.packets), id) else []
  }

  /** The packets of all its turns along a run, each turn taken with the channel lists of that time. */
  function TurnsAlong(cfg: Config, s: Server, events: seq<Event>, id: int): seq<seq<Byte>>
    requires Consistent(s.reg)
    decreases |events|
  {
    if events == [] then [] else
      var init := events[..|events| - 1];
      TurnsAlong(cfg, s, init, id) + TurnsIn(Run(cfg, s, init).reg, events[|events| - 1], id)
  }

  /** It never announces a format the server does not play. */
  ghost predicate AlwaysSupported(cfg: Config, events: seq<Event>, id: int) {
    forall k | 0 <= k < |events| && AnnouncedBy(cfg, events[k], id) :: Supports(cfg, cfg.decode(events[k].package))
  }

  lemma StepSends(cfg: Config, reg: Registry, e: Event, id: int)
    requires Consistent(reg) && id in reg.recs && Passes(reg.recs[id])
    ensures AudioTo(StepLog(cfg, reg, e), id) == TurnsIn(reg, e, id)
  {
    match e
    case Push(line, channels, packets) =>
      BlockTurnsKnown(reg, line, channels, packets);
      ReadySpeakerGetsAll(cfg, reg.recs, BlockTurns(reg, line, channels, packets), id);
    case FormatChange(rate, bits) =>
      FormatSendsSamples(reg.recs, reg.order, rate, bits);
      NoAudioIn(StepLog(cfg, reg, e), id);
    case _ =>
      NoAudioIn(StepLog(cfg, reg, e), id);
  }

  lemma StepSupport(cfg: Config, reg: Registry, e: Event, id: int)
    requires Consistent(reg) && id in reg.recs && reg.recs[id].supported
    requires AnnouncedBy(cfg, e, id) ==> Supports(cfg, cfg.decode(e.package))
    ensures id in StepRecs(cfg, reg, e).recs && StepRecs(cfg, reg, e).recs[id].supported
  {
    StepOneSpeaker(cfg, reg, e, id);
    if e.Push? {
      GateTimesLiveness(cfg, reg.recs[id], Visits(BlockTurns(reg, e.line, e.channels, e.packets), id));
    }
  }

  lemma {:induction false} StaysSupported(cfg: Config, s: Server, events: seq<Event>, id: int)
    requires Consistent(s.reg) && id in s.reg.recs && s.reg.recs[id].supported
    requires AlwaysSupported(cfg, events, id)
    ensures id in Run(cfg, s, events).reg.recs && Run(cfg, s, events).reg.recs[id].supported
    decreases |events|
  {
    if events != [] {
      StaysSupported(cfg, s, events[..|events| - 1], id);
      hide StepRecs, StepLog, Consistent, AnnouncedBy, Supports;
      StepSupport(cfg, Run(cfg, s, events[..|events| - 1]).reg, events[|events| - 1], id);
    }
  }

  /** Fit for audio as its last announcement left it. */
  predicate Ready(cfg: Config, r: SpeakerRec) {
    JustHeard(cfg, r) && CanBeReached(r) && r.supported
  }

  /** A speaker heard often enough passes the gate at every point of the run. */
  lemma StaysReady(cfg: Config, s: Server, events: seq<Event>, id: int)
    requires Consistent(s.reg) && id in s.reg.recs && Ready(cfg, s.reg.recs[id])
    requires KeptAlive(cfg, events, id) && AlwaysSupported(cfg, events, id)
    ensures id in Run(cfg, s, events).reg.recs && Passes(Run(cfg, s, events).reg.recs[id])
  {
    StaysOnline(cfg, s, events, id);
    StaysSupported(cfg, s, events, id);
  }

  /**
   Whatever else happens, a ready speaker that is heard often enough is sent the packet of each of
   its turns, in order, and no other audio.
   */
  lemma {:induction false} KeptAliveHearsAll(cfg: Config, s: Server, events: seq<Event>, id: int)
    requires Consistent(s.reg) && id in s.reg.recs && Ready(cfg, s.reg.recs[id])
    requires KeptAlive(cfg, events, id) && AlwaysSupported(cfg, events, id)
    ensures AudioTo(Run(cfg, s, events).log, id) == AudioTo(s.log, id) + TurnsAlong(cfg, s, events, id)
    decreases |events|
  {
    if events != [] {
      var init, e := events[..|events| - 1], events[|events| - 1];
      KeptAlivePrefix(cfg, events, id);
      assert AlwaysSupported(cfg, init, id);
      var before := Run(cfg, s, init);
      assert Run(cfg, s, events).log == before.log + StepLog(cfg, before.reg, e);
      assert TurnsAlong(cfg, s, events, id) == TurnsAlong(cfg, s, init, id) + TurnsIn(before.reg, e, id);
      hide *;
      KeptAliveHearsAll(cfg, s, init, id);
      StaysReady(cfg, s, init, id);
      StepSends(cfg, before.reg, e, id);
      AudioToAppend(before.log, StepLog(cfg, before.reg, e), id);
      ConcatAssoc(AudioTo(s.log, id), TurnsAlong(cfg, s, init, id), TurnsIn(before.reg, e, id));
    }
  }

  // ---------------------------------------------------------------- a speaker that falls silent

  lemma {:induction false} OfflineGetsNothing(cfg: Config, recs: map<int, SpeakerRec>, turns: seq<Turn>, id: int)
    requires KnownTurns(recs, turns) && id in recs && !recs[id].online && NoRevival(cfg)
    ensures AudioTo(FanOutLog(cfg, recs, turns), id) == []
    decreases |turns|
  {
    if turns != [] {
      var last := |turns| - 1;
      var init := turns[..last];
      OfflineGetsNothing(cfg, recs, init, id);
      RecAfterVisits(cfg, recs, init, id);
      GateDoesNotRevive(cfg, recs[id], Visits(init, id));
      var r := FanOutRecs(cfg, recs, init)[turns[last].id];
      AudioToAppend(FanOutLog(cfg, recs, init), AudioIf(r, turns[last]), id);
      AudioToIf(r, turns[last], id);
    }
  }

  lemma StepSendsNothing(cfg: Config, reg: Registry, e: Event, id: int)
    requires Consistent(reg) && id in reg.recs && !reg.recs[id].online && NoRevival(cfg)
    ensures AudioTo(StepLog(cfg, reg, e), id) == []
  {
    match e
    case Push(line, channels, packets) =>
      BlockTurnsKnown(reg, line, channels, packets);
      OfflineGetsNothing(cfg, reg.recs, BlockTurns(reg, line, channels, packets), id);
    case FormatChange(rate, bits) =>
      FormatSendsSamples(reg.recs, reg.order, rate, bits);
      NoAudioIn(StepLog(cfg, reg, e), id);
    case _ =>
      NoAudioIn(StepLog(cfg, reg, e), id);
  }

  ghost predicate Silent(cfg: Config, events: seq<Event>, id: int) {
    forall k | 0 <= k < |events| :: !AnnouncedBy(cfg, events[k], id)
  }

  lemma {:induction false} SilentHearsNothing(cfg: Config, s: Server, events: seq<Event>, id: int)
    requires Consistent(s.reg) && id in s.reg.recs && !s.reg.recs[id].online && NoRevival(cfg)
    requires Silent(cfg, events, id)
    ensures AudioTo(Run(cfg, s, events).log, id) == AudioTo(s.log, id)
    decreases |events|
  {
    if events != [] {
      var init, e := events[..|events| - 1], events[|events| - 1];
      SilentHearsNothing(cfg, s, init, id);
      StaysOffline(cfg, s, init, id);
      var before := Run(cfg, s, init);
      StepSendsNothing(cfg, before.reg, e, id);
      hide StepLog, StepRecs, Consistent;
      AudioToAppend(before.log, StepLog(cfg, before.reg, e), id);
    }
  }

  /**
   A speaker that falls silent in the middle of a song is sent its packets up to the visit that
   finds its timeout used up, and none after it.
   */
  lemma SweptOffHearsNoMore(cfg: Config, s: Server, before: seq<Event>, after: seq<Event>, id: int)
    requires Consistent(s.reg) && id in s.reg.recs && Ready(cfg, s.reg.recs[id]) && NoRevival(cfg)
    requires KeptAlive(cfg, before, id) && AlwaysSupported(cfg, before, id)
    requires SweepsSince(cfg, before, id) == cfg.refresh && Silent(cfg, after, id)
    ensures AudioTo(Run(cfg, s, before + [Visit(id)] + after).log, id)
         == AudioTo(s.log, id) + TurnsAlong(cfg, s, before, id)
  {
    KeptAliveHearsAll(cfg, s, before, id);
    OfflineExactly(cfg, s, before, Visit(id), id);
    RunAppend(cfg, s, before, [Visit(id)]);
    RunOne(cfg, Run(cfg, s, before), Visit(id));
    RunAppend(cfg, s, before + [Visit(id)], after);
    assert Run(cfg, s, before + [Visit(id)]).log == Run(cfg, s, before).log;
    hide Run, Ready, KeptAlive, AlwaysSupported, TurnsAlong;
    SilentHearsNothing(cfg, Run(cfg, s, before + [Visit(id)]), after, id);
  }

  // ---------------------------------------------------------------- channel lists along a run

  lemma CountOther(ids: seq<int>, other: int, id: int)
    requires other != id
    ensures CountIn(ids + [other], id) == CountIn(ids, id)
  {
    assert (ids + [other])[..|ids|] == ids;
  }

  /** Lists only gain newcomers, so a listed speaker's memberships are settled. */
  lemma StepMemberships(cfg: Config, reg: Registry, e: Event, line: int, ch: int, id: int)
    requires Consistent(reg) && id in reg.recs
    ensures CountIn(Members(StepRecs(cfg, reg, e), line, ch), id) == CountIn(Members(reg, line, ch), id)
  {
    hide CountIn, Consistent;
    if Members(StepRecs(cfg, reg, e), line, ch) != Members(reg, line, ch) {
      CountOther(Members(reg, line, ch), cfg.decode(e.package).id, id);
    }
  }

  lemma {:induction false} MembershipsSettled(cfg: Config, s: Server, events: seq<Event>, line: int, ch: int, id: int)
    requires Consistent(s.reg) && id in s.reg.recs
    ensures CountIn(Members(Run(cfg, s, events).reg, line, ch), id) == CountIn(Members(s.reg, line, ch), id)
    decreases |events|
  {
    if events != [] {
      var init := events[..|events| - 1];
      MembershipsSettled(cfg, s, init, line, ch, id);
      IdentityIsSettled(cfg, s, init, id);
      hide StepRecs, StepLog, Consistent, CountIn, Members;
      StepMemberships(cfg, Run(cfg, s, init).reg, events[|events| - 1], line, ch, id);
    }
  }

  lemma OnlyOnStays(cfg: Config, s: Server, events: seq<Event>, line: int, list: seq<int>, i: nat, id: int)
    requires Consistent(s.reg) && id in s.reg.recs && OnlyOn(s.reg, line, list, i, id)
    ensures OnlyOn(Run(cfg, s, events).reg, line, list, i, id)
  {
    hide Run, Members, CountIn, Consistent;
    var reg := Run(cfg, s, events).reg;
    forall k | 0 <= k < |list|
      ensures CountIn(Members(reg, line, list[k]), id) == if k == i then 1 else 0
    {
      MembershipsSettled(cfg, s, events, line, list[k], id);
    }
  }

  // ---------------------------------------------------------------- the pushes of one wave command

  function PushEvent(line: int, list: seq<int>, header: seq<Byte>, block: seq<Byte>, len: nat, b: nat,
                     tail: seq<Byte>): Event
    requires b > 0 && len <= |block|
  {
    Push(line, list, Packets(header, block[..len], |list|, b, tail))
  }

  /** The pushes of the command, one per block. */
  function WaveEvents(line: int, list: seq<int>, header: seq<Byte>, blocks: seq<seq<Byte>>, len: nat, b: nat,
                      tail: seq<Byte>): (r: seq<Event>)
    requires b > 0 && LongEnough(blocks, len)
    ensures |r| == |blocks|
  {
    seq(|blocks|, k requires 0 <= k < |blocks| => PushEvent(line, list, header, blocks[k], len, b, tail))
  }

  /** The pushes among a run's events. */
  function PushesIn(events: seq<Event>): seq<Event> {
    if events == [] then [] else
      PushesIn(events[..|events| - 1]) + if events[|events| - 1].Push? then [events[|events| - 1]] else []
  }

  lemma WaveEventsLast(line: int, list: seq<int>, header: seq<Byte>, blocks: seq<seq<Byte>>, len: nat, b: nat,
                       tail: seq<Byte>)
    requires b > 0 && LongEnough(blocks, len) && blocks != []
    ensures var last := |blocks| - 1;
            && WaveEvents(line, list, header, blocks, len, b, tail)
            == WaveEvents(line, list, header, blocks[..last], len, b, tail)
               + [PushEvent(line, list, header, blocks[last], len, b, tail)]
  {
  }

  /** The turns of a command's pushes, whatever comes in between, are those of its blocks. */
  lemma {:induction false} WaveTurnsAlong(cfg: Config, s: Server, events: seq<Event>, line: int, list: seq<int>,
                                          header: seq<Byte>, blocks: seq<seq<Byte>>, len: nat, b: nat,
                                          tail: seq<Byte>, i: nat, id: int)
    requires Consistent(s.reg) && id in s.reg.recs && OnlyOn(s.reg, line, list, i, id)
    requires b > 0 && LongEnough(blocks, len)
    requires PushesIn(events) == WaveEvents(line, list, header, blocks, len, b, tail)
    ensures TurnsAlong(cfg, s, events, id) == ChannelPackets(header, blocks, len, |list|, b, i, tail)
    decreases |events|
  {
    if events == [] {
      assert blocks == [];
    } else {
      var init, e := events[..|events| - 1], events[|events| - 1];
      var reg := Run(cfg, s, init).reg;
      assert TurnsAlong(cfg, s, events, id) == TurnsAlong(cfg, s, init, id) + TurnsIn(reg, e, id);
      if e.Push? {
        var last := |blocks| - 1;
        assert PushesIn(init) + [e] == WaveEvents(line, list, header, blocks, len, b, tail);
        LastPush(init, e, line, list, header, blocks, len, b, tail);
        assert TurnsIn(reg, e, id) == PacketsOf(PushTurns(reg, line, list, header, blocks[last][..len], b, tail), id);
        assert LongEnough(blocks[..last], len);
        hide *;
        WaveTurnsAlong(cfg, s, init, line, list, header, blocks[..last], len, b, tail, i, id);
        OnlyOnStays(cfg, s, init, line, list, i, id);
        PushPackets(reg, line, list, header, blocks[last][..len], b, tail, i, id);
        OnlyOnIndex(reg, line, list, i, id);
        ChannelPacketsLast(header, blocks, len, |list|, b, i, tail);
      } else {
        assert PushesIn(events) == PushesIn(init);
        assert TurnsIn(reg, e, id) == [];
        hide *;
        WaveTurnsAlong(cfg, s, init, line, list, header, blocks, len, b, tail, i, id);
      }
    }
  }

  lemma OnlyOnIndex(reg: Registry, line: int, list: seq<int>, i: nat, id: int)
    requires OnlyOn(reg, line, list, i, id)
    ensures i < |list|
  {
  }

  lemma LastPush(init: seq<Event>, e: Event, line: int, list: seq<int>, header: seq<Byte>, blocks: seq<seq<Byte>>,
                 len: nat, b: nat, tail: seq<Byte>)
    requires b > 0 && LongEnough(blocks, len)
    requires PushesIn(init) + [e] == WaveEvents(line, list, header, blocks, len, b, tail)
    ensures blocks != [] && LongEnough(blocks[..|blocks| - 1], len) && len <= |blocks[|blocks| - 1]|
    ensures PushesIn(init) == WaveEvents(line, list, header, blocks[..|blocks| - 1], len, b, tail)
    ensures e == PushEvent(line, list, header, blocks[|blocks| - 1], len, b, tail)
  {
    var all := PushesIn(init) + [e];
    assert |all| == |blocks|;
    var last := |blocks| - 1;
    WaveEventsLast(line, list, header, blocks, len, b, tail);
    hide WaveEvents, PushEvent, PushesIn;
    assert all[..last] == PushesIn(init) && all[last] == e;
  }

  /**
   Over a whole song, with announcements, sweeps and requests in between: a ready speaker of one
   channel that is heard often enough is sent one packet per pushed block, with its channel's bytes.
   */
  lemma WaveReachesSpeaker(cfg: Config, s: Server, events: seq<Event>, line: int, list: seq<int>,
                           header: seq<Byte>, blocks: seq<seq<Byte>>, len: nat, b: nat,
                           tail: seq<Byte>, i: nat, id: int)
    requires Consistent(s.reg) && id in s.reg.recs && Ready(cfg, s.reg.recs[id])
    requires KeptAlive(cfg, events, id) && AlwaysSupported(cfg, events, id)
    requires OnlyOn(s.reg, line, list, i, id) && b > 0 && LongEnough(blocks, len)
    requires PushesIn(events) == WaveEvents(line, list, header, blocks, len, b, tail)
    ensures AudioTo(Run(cfg, s, events).log, id)
         == AudioTo(s.log, id) + ChannelPackets(header, blocks, len, |list|, b, i, tail)
  {
    KeptAliveHearsAll(cfg, s, events, id);
    WaveTurnsAlong(cfg, s, events, line, list, header, blocks, len, b, tail, i, id);
  }

  // ---------------------------------------------------------------- the command that nothing interrupts

  /** Pushes in direct succession are the turns of all their blocks. */
  lemma {:induction false} UninterruptedPushes(cfg: Config, s: Server, line: int, list: seq<int>,
                                               header: seq<Byte>, blocks: seq<seq<Byte>>, len: nat, b: nat,
                                               tail: seq<Byte>)
    requires Consistent(s.reg) && b > 0 && LongEnough(blocks, len)
    ensures var turns := RunTurns(s.reg, line, list, header, blocks, len, b, tail);
            && KnownTurns(s.reg.recs, turns)
            && Run(cfg, s, WaveEvents(line, list, header, blocks, len, b, tail))
            == Server(s.reg.(recs := FanOutRecs(cfg, s.reg.recs, turns)),
                      s.log + FanOutLog(cfg, s.reg.recs, turns))
    decreases |blocks|
  {
    if blocks != [] {
      var last := |blocks| - 1;
      var events := WaveEvents(line, list, header, blocks, len, b, tail);
      var init := WaveEvents(line, list, header, blocks[..last], len, b, tail);
      UninterruptedPushes(cfg, s, line, list, header, blocks[..last], len, b, tail);
      WaveEventsLast(line, list, header, blocks, len, b, tail);
      assert events[..last] == init && events[last] == PushEvent(line, list, header, blocks[last], len, b, tail);
      var before := RunTurns(s.reg, line, list, header, blocks[..last], len, b, tail);
      var mid := Run(cfg, s, init);
      OnePush(cfg, s, mid, before, line, list, Packets(header, blocks[last][..len], |list|, b, tail));
      hide StepRecs, StepLog, BlockTurns, FanOutRecs, FanOutLog, KnownTurns, Consistent, WaveEvents;
    }
  }

  lemma OnePush(cfg: Config, s: Server, mid: Server, before: seq<Turn>, line: int, list: seq<int>,
                packets: seq<seq<Byte>>)
    requires Consistent(s.reg) && Consistent(mid.reg) && KnownTurns(s.reg.recs, before) && |list| == |packets|
    requires mid == Server(s.reg.(recs := FanOutRecs(cfg, s.reg.recs, before)),
                           s.log + FanOutLog(cfg, s.reg.recs, before))
    ensures var e, turns := Push(line, list, packets), before + BlockTurns(s.reg, line, list, packets);
            && KnownTurns(s.reg.recs, turns)
            && Server(StepRecs(cfg, mid.reg, e), mid.log + StepLog(cfg, mid.reg, e))
            == Server(s.reg.(recs := FanOutRecs(cfg, s.reg.recs, turns)),
                      s.log + FanOutLog(cfg, s.reg.recs, turns))
  {
    var more := BlockTurns(s.reg, line, list, packets);
    TurnsByLists(s.reg, mid.reg, line, list, packets);
    BlockTurnsKnown(s.reg, line, list, packets);
    BlockTurnsKnown(mid.reg, line, list, packets);
    hide BlockTurns, FanOutRecs, FanOutLog, KnownTurns, Consistent;
    FanOutAppend(cfg, s.reg.recs, before, more);
    ConcatAssoc(s.log, FanOutLog(cfg, s.reg.recs, before), FanOutLog(cfg, mid.reg.recs, more));
  }

  /** What the command leaves behind is the run of its pushes, when nothing comes in between. */
  lemma CommandIsItsPushes(cmd: WaveCommand, w: WaveInfo, payload: seq<Byte>, st: Snapshot,
                           conn: Connection, buf: seq<Byte>, all: seq<Byte>)
    requires cmd.Played(w, payload, st, conn, buf, all) && Consistent(st.reg)
    ensures FreshLength(w) <= PushLength(w) && PushLength(w) - FreshLength(w) <= |st.back|
    ensures var blocks := PushedBlocks(payload, w.chunk, buf, conn.segments);
            && LongEnough(blocks, PushLength(w))
            && Run(cmd.pusher.table.cfg, Server(st.reg, st.sent),
                   WaveEvents(cmd.line, w.list, cmd.pusher.header, blocks, PushLength(w), SampleBytes(w),
                              st.back[..PushLength(w) - FreshLength(w)]))
            == Server(cmd.pusher.table.State(), cmd.pusher.out.sent)
  {
    var blocks := PushedBlocks(payload, w.chunk, buf, conn.segments);
    UninterruptedPushes(cmd.pusher.table.cfg, Server(st.reg, st.sent), cmd.line, w.list, cmd.pusher.header, blocks,
                        PushLength(w), SampleBytes(w), st.back[..PushLength(w) - FreshLength(w)]);
  }
}
