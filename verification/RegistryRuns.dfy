/**
 Whole runs of the server: any sequence of datagrams, visits of the sweep, block pushes, time
 requests and format changes, acting on one table. Each event is one atomic step, and its effect
 is the function the in-place method is proved against; a pass of the sweep is one event for each
 speaker it visits, so anything may happen in the middle of a pass.
 */
module RegistryRuns {
  import opened Bytes
  import opened FanOut
  import opened Registry
  import opened SpeakerControl

  datatype AnyEvent =
    | Datagram(src: Addr, package: seq<Byte>, env: Env)
    | Visit(id: int)
    | Push(line: int, channels: seq<int>, packets: seq<seq<Byte>>)
    | TimeRequest(id: int, now: nat)
    | FormatChange(rate: int, bits: int)

  type Event = e: AnyEvent | e.Push? ==> |e.channels| == |e.packets| witness Visit(0)

  datatype Server = Server(reg: Registry, log: seq<Message>)

  /** What one event does to the table. */
  function StepRecs(cfg: Config, reg: Registry, e: Event): Registry
    requires Consistent(reg)
  {
    match e
    case Datagram(src, package, env) => OnDatagram(cfg, reg, src, package, env).reg
    case Visit(id) => VisitOne(reg, id)
    case Push(line, channels, packets) =>
      BlockTurnsKnown(reg, line, channels, packets);
      reg.(recs := FanOutRecs(cfg, reg.recs, BlockTurns(reg, line, channels, packets)))
    case _ => reg
  }

  /** What one event sends. */
  function StepLog(cfg: Config, reg: Registry, e: Event): seq<Message>
    requires Consistent(reg)
  {
    match e
    case Datagram(src, package, env) => OnDatagram(cfg, reg, src, package, env).log
    case Visit(_) => []
    case Push(line, channels, packets) =>
      BlockTurnsKnown(reg, line, channels, packets);
      FanOutLog(cfg, reg.recs, BlockTurns(reg, line, channels, packets))
    case TimeRequest(id, now) => TimeReply(reg.recs, id, now)
    case FormatChange(rate, bits) => FormatLog(reg.recs, reg.order, rate, bits)
  }

  // ---------------------------------------------------------------- single events

  /** An announcement that gets as far as the table. */
  predicate Accepted(cfg: Config, e: Event) {
    && e.Datagram? && e.package != MUTEX_TAG && |e.package| == cfg.requestSize
    && cfg.decode(e.package).addr == e.src && GoodMasks(cfg.decode(e.package))
  }

  predicate AnnouncedBy(cfg: Config, e: Event, id: int) {
    Accepted(cfg, e) && cfg.decode(e.package).id == id
  }

  /** An announcement that would add its speaker, were it new. */
  predicate Introduces(cfg: Config, e: Event, id: int) {
    AnnouncedBy(cfg, e, id) && e.env.addOk
  }

  /** What an event does to one speaker already in the table. */
  function RecAfter(cfg: Config, reg: Registry, e: Event, id: int): SpeakerRec
    requires Consistent(reg) && id in reg.recs
  {
    match e
    case Datagram(_, package, _) =>
      if AnnouncedBy(cfg, e, id) then Announced(cfg, reg.recs[id], cfg.decode(package)) else reg.recs[id]
    case Visit(visited) => if visited == id then SweepRec(reg.recs[id]) else reg.recs[id]
    case Push(line, channels, packets) =>
      GateTimes(cfg, reg.recs[id], Visits(BlockTurns(reg, line, channels, packets), id))
    case _ => reg.recs[id]
  }

  lemma StepOneSpeaker(cfg: Config, reg: Registry, e: Event, id: int)
    requires Consistent(reg) && id in reg.recs
    ensures id in StepRecs(cfg, reg, e).recs
    ensures StepRecs(cfg, reg, e).recs[id] == RecAfter(cfg, reg, e, id)
  {
    if e.Push? {
      BlockTurnsKnown(reg, e.line, e.channels, e.packets);
      RecAfterVisits(cfg, reg.recs, BlockTurns(reg, e.line, e.channels, e.packets), id);
    }
  }

  lemma StepNewSpeaker(cfg: Config, reg: Registry, e: Event, id: int)
    requires Consistent(reg) && id !in reg.recs
    ensures id in StepRecs(cfg, reg, e).recs <==> Introduces(cfg, e, id)
    ensures Introduces(cfg, e, id) ==>
              StepRecs(cfg, reg, e).recs[id] == FirstRec(cfg, cfg.decode(e.package), e.env)
  {
    if e.Push? {
      BlockTurnsKnown(reg, e.line, e.channels, e.packets);
    }
  }

  /** The table order and every channel list only ever grow at their end. */
  ghost predicate Extends(reg: Registry, reg': Registry) {
    && reg.order <= reg'.order
    && forall key | key in reg.lists :: key in reg'.lists && reg.lists[key] <= reg'.lists[key]
  }

  lemma StepKeeps(cfg: Config, reg: Registry, e: Event)
    requires Consistent(reg)
    ensures Consistent(StepRecs(cfg, reg, e)) && Extends(reg, StepRecs(cfg, reg, e))
  {
    if e.Datagram? && Accepted(cfg, e) {
      var req := cfg.decode(e.package);
      if req.id !in reg.recs && e.env.addOk {
        AddStaysConsistent(reg, cfg.line, cfg.channel, req.id, FirstRec(cfg, req, e.env));
      }
    } else if e.Push? {
      BlockTurnsKnown(reg, e.line, e.channels, e.packets);
    }
  }

  // ---------------------------------------------------------------- runs

  /** The server after a sequence of events. */
  function Run(cfg: Config, s: Server, events: seq<Event>): (r: Server)
    requires Consistent(s.reg)
    ensures Consistent(r.reg)
    decreases |events|
  {
    if events == [] then s else
      var before := Run(cfg, s, events[..|events| - 1]);
      var e := events[|events| - 1];
      StepKeeps(cfg, before.reg, e);
      Server(StepRecs(cfg, before.reg, e), before.log + StepLog(cfg, before.reg, e))
  }

  /** Entries are never removed, reordered, or duplicated. */
  lemma {:induction false} RunKeepsEntries(cfg: Config, s: Server, events: seq<Event>)
    requires Consistent(s.reg)
    ensures Consistent(Run(cfg, s, events).reg)
    ensures Extends(s.reg, Run(cfg, s, events).reg)
    ensures s.reg.recs.Keys <= Run(cfg, s, events).reg.recs.Keys
    decreases |events|
  {
    if events != [] {
      var init, e := events[..|events| - 1], events[|events| - 1];
      RunKeepsEntries(cfg, s, init);
      var before := Run(cfg, s, init).reg;
      StepKeeps(cfg, before, e);
      forall id | id in before.recs
        ensures id in StepRecs(cfg, before, e).recs
      {
        StepOneSpeaker(cfg, before, e, id);
      }
      hide StepRecs, Consistent;
    }
  }

  ghost predicate Introduced(cfg: Config, events: seq<Event>, id: int) {
    exists k | 0 <= k < |events| :: Introduces(cfg, events[k], id)
  }

  lemma IntroducedSnoc(cfg: Config, events: seq<Event>, id: int)
    requires events != []
    ensures var last := |events| - 1;
            Introduced(cfg, events, id)
            <==> Introduced(cfg, events[..last], id) || Introduces(cfg, events[last], id)
  {
    hide Introduces;
    var last := |events| - 1;
    if k :| 0 <= k < |events| && Introduces(cfg, events[k], id) && k < last {
      assert Introduces(cfg, events[..last][k], id);
    }
    if k :| 0 <= k < last && Introduces(cfg, events[..last][k], id) {
      assert Introduces(cfg, events[k], id);
    }
  }

  lemma StepIds(cfg: Config, reg: Registry, e: Event, id: int)
    requires Consistent(reg)
    ensures id in StepRecs(cfg, reg, e).recs <==> id in reg.recs || Introduces(cfg, e, id)
  {
    if id in reg.recs {
      StepOneSpeaker(cfg, reg, e, id);
    } else {
      StepNewSpeaker(cfg, reg, e, id);
    }
  }

  /** The ids in the table are exactly those some event introduced, supported or not. */
  lemma {:induction false} IdsExact(cfg: Config, s: Server, events: seq<Event>, id: int)
    requires Consistent(s.reg)
    ensures id in Run(cfg, s, events).reg.recs <==> id in s.reg.recs || Introduced(cfg, events, id)
    decreases |events|
  {
    hide StepRecs, Introduces;
    if events != [] {
      var last := |events| - 1;
      IdsExact(cfg, s, events[..last], id);
      IntroducedSnoc(cfg, events, id);
      StepIds(cfg, Run(cfg, s, events[..last]).reg, events[last], id);
    }
  }

  /** Apart from support, online state and timeout, two records agree. */
  predicate SameIdentity(r: SpeakerRec, r': SpeakerRec) {
    r' == r.(supported := r'.supported, online := r'.online, timeout := r'.timeout)
  }

  lemma StepKeepsIdentity(cfg: Config, reg: Registry, e: Event, id: int)
    requires Consistent(reg) && id in reg.recs
    ensures id in StepRecs(cfg, reg, e).recs && SameIdentity(reg.recs[id], StepRecs(cfg, reg, e).recs[id])
  {
    StepOneSpeaker(cfg, reg, e, id);
    if e.Push? {
      GateTimesLiveness(cfg, reg.recs[id], Visits(BlockTurns(reg, e.line, e.channels, e.packets), id));
    }
  }

  /**
   Once a speaker is in the table, nothing changes its address, port, channel, descriptor or
   time base any more: in particular the time base is assigned at most once.
   */
  lemma {:induction false} IdentityIsSettled(cfg: Config, s: Server, events: seq<Event>, id: int)
    requires Consistent(s.reg) && id in s.reg.recs
    ensures id in Run(cfg, s, events).reg.recs
    ensures SameIdentity(s.reg.recs[id], Run(cfg, s, events).reg.recs[id])
    decreases |events|
  {
    if events != [] {
      IdentityIsSettled(cfg, s, events[..|events| - 1], id);
      StepKeepsIdentity(cfg, Run(cfg, s, events[..|events| - 1]).reg, events[|events| - 1], id);
    }
  }

  /** A known speaker's announcement changes its status, nothing else, and is answered. */
  lemma RepeatedAnnouncement(cfg: Config, reg: Registry, e: Event, id: int)
    requires Consistent(reg) && id in reg.recs && AnnouncedBy(cfg, e, id)
    ensures var r := reg.recs[id].(supported := Supports(cfg, cfg.decode(e.package)),
                                   online := true, timeout := cfg.refresh);
            StepRecs(cfg, reg, e) == reg.(recs := reg.recs[id := r])
    ensures StepLog(cfg, reg, e) == [ServerInfo(e.src, 0)]
  {
  }

  /**
   Announcing twice is announcing once, as far as the table goes, supported or not. But the second
   time is always answered, the first only if the format is supported.
   */
  lemma SecondAnnouncement(cfg: Config, reg: Registry, e: Event, again: Event, id: int)
    requires Consistent(reg) && AnnouncedBy(cfg, e, id) && AnnouncedBy(cfg, again, id)
    requires id in reg.recs || e.env.addOk
    requires cfg.decode(again.package) == cfg.decode(e.package)
    ensures var once := StepRecs(cfg, reg, e);
            && Consistent(once) && StepRecs(cfg, once, again) == once
            && StepLog(cfg, once, again) == [ServerInfo(again.src, 0)]
    ensures ServerInfo(e.src, 0) in StepLog(cfg, reg, e)
       <==> id in reg.recs || Supports(cfg, cfg.decode(e.package))
  {
    StepKeeps(cfg, reg, e);
    var once, req := StepRecs(cfg, reg, e), cfg.decode(e.package);
    if id in reg.recs {
      RepeatedAnnouncement(cfg, reg, e, id);
    } else {
      StepNewSpeaker(cfg, reg, e, id);
    }
    RepeatedAnnouncement(cfg, once, again, id);
    assert once.recs[id := once.recs[id]] == once.recs;
  }

  /** A run in two parts. */
  lemma {:induction false} RunAppend(cfg: Config, s: Server, a: seq<Event>, b: seq<Event>)
    requires Consistent(s.reg)
    ensures Run(cfg, s, a + b) == Run(cfg, Run(cfg, s, a), b)
    decreases |b|
  {
    hide StepRecs, StepLog, Consistent;
    if b == [] {
      assert a + b == a;
    } else {
      RunAppend(cfg, s, a, b[..|b| - 1]);
      assert (a + b)[..|a + b| - 1] == a + b[..|b| - 1];
    }
  }

  lemma RunOne(cfg: Config, s: Server, e: Event)
    requires Consistent(s.reg)
    ensures Run(cfg, s, [e]) == Server(StepRecs(cfg, s.reg, e), s.log + StepLog(cfg, s.reg, e))
  {
    hide StepRecs, StepLog;
    assert [e][..0] == [];
  }

  /** A format change tells each listed speaker that is online and has a port, once, and does nothing else. */
  lemma FormatChangeExactly(cfg: Config, s: Server, rate: int, bits: int, id: int)
    requires Consistent(s.reg)
    ensures var after := Run(cfg, s, [FormatChange(rate, bits)]);
            && after.reg == s.reg && s.log <= after.log && OnlySamples(after.log[|s.log|..])
            && SamplesTo(after.log[|s.log|..], id)
            == if id in s.reg.recs && s.reg.recs[id].online && s.reg.recs[id].dport != 0
               then [Sample(id, s.reg.recs[id].channel, rate, bits)] else []
  {
    RunOne(cfg, s, FormatChange(rate, bits));
    FormatExact(s.reg.recs, s.reg.order, rate, bits, id);
    var told := FormatLog(s.reg.recs, s.reg.order, rate, bits);
    assert id in s.reg.recs <==> id in s.reg.order;
    hide FormatLog, SamplesTo, OnlySamples, Run, StepRecs;
    assert (s.log + told)[|s.log|..] == told;
  }

  /** The visits of one undisturbed pass. */
  function VisitEvents(ids: seq<int>): (r: seq<Event>)
    ensures |r| == |ids|
  {
    seq(|ids|, k requires 0 <= k < |ids| => Visit(ids[k]))
  }

  lemma {:induction false} VisitsInTurn(cfg: Config, s: Server, ids: seq<int>)
    requires Consistent(s.reg) && Known(s.reg.recs, ids) && NoDuplicates(ids)
    ensures var r := Run(cfg, s, VisitEvents(ids));
            && r == Server(s.reg.(recs := r.reg.recs), s.log) && r.reg.recs.Keys == s.reg.recs.Keys
            && forall id | id in s.reg.recs ::
                 r.reg.recs[id] == if id in ids then SweepRec(s.reg.recs[id]) else s.reg.recs[id]
    decreases |ids|
  {
    if ids != [] {
      var init, last := ids[..|ids| - 1], ids[|ids| - 1];
      assert VisitEvents(ids)[..|ids| - 1] == VisitEvents(init);
      assert ids == init + [last] && last !in init;
      VisitsInTurn(cfg, s, init);
      hide SweepRec;
    }
  }

  /** Visiting the table in order, with nothing in between, is the pass of the sweep. */
  lemma PassIsVisits(cfg: Config, s: Server)
    requires Consistent(s.reg)
    ensures Run(cfg, s, VisitEvents(s.reg.order)) == Server(Sweep(s.reg), s.log)
  {
    VisitsInTurn(cfg, s, s.reg.order);
    var r := Run(cfg, s, VisitEvents(s.reg.order));
    var swept := Sweep(s.reg).recs;
    forall id | id in s.reg.recs
      ensures r.reg.recs[id] == swept[id]
    {
      assert id in s.reg.order;
    }
    assert r.reg.recs.Keys == swept.Keys;
    assert r.reg.recs == swept;
  }

  /** The event that brings a speaker in decides its time base and descriptor for good. */
  lemma FirstAnnouncementDecides(cfg: Config, s: Server, e: Event, later: seq<Event>, id: int)
    requires Consistent(s.reg) && id !in s.reg.recs && Introduces(cfg, e, id)
    ensures id in Run(cfg, s, [e] + later).reg.recs
    ensures SameIdentity(FirstRec(cfg, cfg.decode(e.package), e.env), Run(cfg, s, [e] + later).reg.recs[id])
  {
    StepNewSpeaker(cfg, s.reg, e, id);
    RunOne(cfg, s, e);
    RunAppend(cfg, s, [e], later);
    IdentityIsSettled(cfg, Run(cfg, s, [e]), later, id);
  }

  /** The time base of a supported newcomer is its arrival; an unsupported one never gets any. */
  lemma TimeBase(cfg: Config, s: Server, e: Event, later: seq<Event>, id: int)
    requires Consistent(s.reg) && id !in s.reg.recs && Introduces(cfg, e, id)
    ensures id in Run(cfg, s, [e] + later).reg.recs
    ensures Run(cfg, s, [e] + later).reg.recs[id].connTime
         == if Supports(cfg, cfg.decode(e.package)) then e.env.now else cfg.blank.connTime
  {
    FirstAnnouncementDecides(cfg, s, e, later, id);
  }

  // ---------------------------------------------------------------- time replies

  /** Server time minus offset, as the receiver computes it. */
  function BaseOf(m: Message): int
    requires m.Time?
  {
    (m.server - m.offset) % CLOCK
  }

  /** Every time reply in a log agrees with the table on its speaker's time base. */
  ghost predicate BasesAgree(recs: map<int, SpeakerRec>, log: seq<Message>) {
    forall k | 0 <= k < |log| && log[k].Time? ::
      log[k].to in recs && BaseOf(log[k]) == recs[log[k].to].connTime % CLOCK
  }

  lemma OffsetGivesBase(now: int, base: int)
    ensures (now - (now - base) % CLOCK) % CLOCK == base % CLOCK
  {
  }

  lemma {:induction false} FanOutSendsAudio(cfg: Config, recs: map<int, SpeakerRec>, turns: seq<Turn>)
    requires KnownTurns(recs, turns)
    ensures forall k | 0 <= k < |FanOutLog(cfg, recs, turns)| :: FanOutLog(cfg, recs, turns)[k].Audio?
    decreases |turns|
  {
    if turns != [] {
      FanOutSendsAudio(cfg, recs, turns[..|turns| - 1]);
    }
  }

  lemma {:induction false} FormatSendsSamples(recs: map<int, SpeakerRec>, ids: seq<int>, rate: int, bits: int)
    requires Known(recs, ids)
    ensures OnlySamples(FormatLog(recs, ids, rate, bits))
    decreases |ids|
  {
    if ids != [] {
      FormatSendsSamples(recs, ids[..|ids| - 1], rate, bits);
    }
  }

  /** Only a time request sends a time reply, one at most. */
  lemma StepSendsTime(cfg: Config, reg: Registry, e: Event, k: nat)
    requires Consistent(reg) && k < |StepLog(cfg, reg, e)| && StepLog(cfg, reg, e)[k].Time?
    ensures e.TimeRequest? && e.id in reg.recs && StepLog(cfg, reg, e)
         == [Time(e.id, e.now, (e.now - reg.recs[e.id].connTime) % CLOCK)]
  {
    match e
    case Push(line, channels, packets) =>
      BlockTurnsKnown(reg, line, channels, packets);
      FanOutSendsAudio(cfg, reg.recs, BlockTurns(reg, line, channels, packets));
    case FormatChange(rate, bits) =>
      FormatSendsSamples(reg.recs, reg.order, rate, bits);
    case _ =>
  }

  lemma BasesStay(recs: map<int, SpeakerRec>, recs': map<int, SpeakerRec>, log: seq<Message>)
    requires BasesAgree(recs, log)
    requires forall id | id in recs :: id in recs' && recs'[id].connTime == recs[id].connTime
    ensures BasesAgree(recs', log)
  {
  }

  lemma StepBasesAgree(cfg: Config, reg: Registry, e: Event)
    requires Consistent(reg)
    ensures BasesAgree(StepRecs(cfg, reg, e).recs, StepLog(cfg, reg, e))
  {
    var log := StepLog(cfg, reg, e);
    forall k | 0 <= k < |log| && log[k].Time?
      ensures log[k].to in StepRecs(cfg, reg, e).recs
      ensures BaseOf(log[k]) == StepRecs(cfg, reg, e).recs[log[k].to].connTime % CLOCK
    {
      StepSendsTime(cfg, reg, e, k);
      StepKeepsIdentity(cfg, reg, e, log[k].to);
      OffsetGivesBase(log[k].server, reg.recs[log[k].to].connTime);
    }
  }

  /** In any run, all replies to one speaker carry one value of server time minus offset: its base. */
  lemma {:induction false} StableTimeBase(cfg: Config, s: Server, events: seq<Event>)
    requires Consistent(s.reg) && BasesAgree(s.reg.recs, s.log)
    ensures BasesAgree(Run(cfg, s, events).reg.recs, Run(cfg, s, events).log)
    decreases |events|
  {
    if events != [] {
      var init, e := events[..|events| - 1], events[|events| - 1];
      StableTimeBase(cfg, s, init);
      var before := Run(cfg, s, init);
      forall id | id in before.reg.recs
        ensures id in StepRecs(cfg, before.reg, e).recs
        ensures StepRecs(cfg, before.reg, e).recs[id].connTime == before.reg.recs[id].connTime
      {
        StepKeepsIdentity(cfg, before.reg, e, id);
      }
      hide StepRecs, StepLog, Consistent;
      BasesStay(before.reg.recs, StepRecs(cfg, before.reg, e).recs, before.log);
      StepBasesAgree(cfg, before.reg, e);
    }
  }
}
