/** Runs against the clock: offsets of time replies, and when a speaker counts as gone. */
module RegistryTiming {
  import opened FanOut
  import opened Registry
  import opened RegistryRuns

  // ---------------------------------------------------------------- a clock that does not go back

  predicate ReadsClock(e: Event) {
    e.Datagram? || e.TimeRequest?
  }

  function Reading(e: Event): nat
    requires ReadsClock(e)
  {
    if e.Datagram? then e.env.now else e.now
  }

  function ClockAfterOne(t: nat, e: Event): nat {
    if ReadsClock(e) then Reading(e) else t
  }

  /** The last clock reading of a run. */
  function ClockAfter(t: nat, events: seq<Event>): nat {
    if events == [] then t else
      ClockAfterOne(ClockAfter(t, events[..|events| - 1]), events[|events| - 1])
  }

  predicate Forward(t: nat, e: Event) {
    ReadsClock(e) ==> t <= Reading(e) < CLOCK
  }

  /** No reading is below an earlier one, and all fit the 64-bit clock. */
  ghost predicate ClockRuns(t: nat, events: seq<Event>) {
    forall k | 0 <= k < |events| :: Forward(ClockAfter(t, events[..k]), events[k])
  }

  /** Replies are in clock order, and no offset has wrapped around. */
  ghost predicate Timely(recs: map<int, SpeakerRec>, log: seq<Message>, t: nat) {
    && (forall id | id in recs :: recs[id].connTime <= t)
    && (forall k | 0 <= k < |log| && log[k].Time? ::
          && log[k].server <= t && log[k].to in recs
          && log[k].offset == log[k].server - recs[log[k].to].connTime)
    && (forall j, k | 0 <= j < k < |log| && log[j].Time? && log[k].Time? :: log[j].server <= log[k].server)
  }

  lemma StepConnTimes(cfg: Config, reg: Registry, e: Event, t: nat, id: int)
    requires Consistent(reg) && id in StepRecs(cfg, reg, e).recs
    requires cfg.blank.connTime <= t && Forward(t, e)
    requires forall k | k in reg.recs :: reg.recs[k].connTime <= t
    ensures StepRecs(cfg, reg, e).recs[id].connTime <= ClockAfterOne(t, e)
    ensures id in reg.recs ==> StepRecs(cfg, reg, e).recs[id].connTime == reg.recs[id].connTime
  {
    if id in reg.recs {
      StepKeepsIdentity(cfg, reg, e, id);
    } else {
      StepNewSpeaker(cfg, reg, e, id);
    }
  }

  lemma OffsetInRange(server: nat, base: nat)
    requires base <= server < CLOCK
    ensures (server - base) % CLOCK == server - base
  {
  }

  lemma StepTimely(cfg: Config, s: Server, e: Event, t: nat)
    requires Consistent(s.reg) && Timely(s.reg.recs, s.log, t)
    requires cfg.blank.connTime <= t && Forward(t, e)
    ensures Timely(StepRecs(cfg, s.reg, e).recs, s.log + StepLog(cfg, s.reg, e), ClockAfterOne(t, e))
  {
    var recs, more := StepRecs(cfg, s.reg, e).recs, StepLog(cfg, s.reg, e);
    forall id | id in recs
      ensures recs[id].connTime <= ClockAfterOne(t, e)
      ensures id in s.reg.recs ==> recs[id].connTime == s.reg.recs[id].connTime
    {
      StepConnTimes(cfg, s.reg, e, t, id);
    }
    forall id | id in s.reg.recs
      ensures id in recs
    {
      StepOneSpeaker(cfg, s.reg, e, id);
    }
    forall k | 0 <= k < |more| && more[k].Time?
      ensures |more| == 1 && t <= more[k].server == ClockAfterOne(t, e) && more[k].to in s.reg.recs
      ensures more[k].offset == more[k].server - s.reg.recs[more[k].to].connTime
    {
      StepSendsTime(cfg, s.reg, e, k);
      OffsetInRange(e.now, s.reg.recs[e.id].connTime);
    }
    hide StepRecs, StepLog, Consistent;
    AppendTimely(s.reg.recs, recs, s.log, more, t, ClockAfterOne(t, e));
  }

  lemma AppendTimely(recs: map<int, SpeakerRec>, recs': map<int, SpeakerRec>,
                     log: seq<Message>, more: seq<Message>, t: nat, t': nat)
    requires Timely(recs, log, t) && t <= t'
    requires forall id | id in recs :: id in recs' && recs'[id].connTime == recs[id].connTime
    requires forall id | id in recs' :: recs'[id].connTime <= t'
    requires forall k | 0 <= k < |more| && more[k].Time? ::
               && |more| == 1 && t <= more[k].server == t' && more[k].to in recs
               && more[k].offset == more[k].server - recs[more[k].to].connTime
    ensures Timely(recs', log + more, t')
  {
  }

  /** As long as the clock does not go back, neither do the offsets sent to a speaker. */
  lemma {:induction false} OffsetsNeverDecrease(cfg: Config, s: Server, events: seq<Event>, t: nat)
    requires Consistent(s.reg) && Timely(s.reg.recs, s.log, t)
    requires cfg.blank.connTime <= t && ClockRuns(t, events)
    ensures t <= ClockAfter(t, events)
    ensures Timely(Run(cfg, s, events).reg.recs, Run(cfg, s, events).log, ClockAfter(t, events))
    ensures var log := Run(cfg, s, events).log;
            forall j, k | 0 <= j < k < |log| && log[j].Time? && log[k].Time? && log[j].to == log[k].to ::
              log[j].offset <= log[k].offset
    decreases |events|
  {
    if events != [] {
      var init, e := events[..|events| - 1], events[|events| - 1];
      ClockPrefix(t, events);
      OffsetsNeverDecrease(cfg, s, init, t);
      StepTimely(cfg, Run(cfg, s, init), e, ClockAfter(t, init));
    }
  }

  lemma ClockPrefix(t: nat, events: seq<Event>)
    requires events != [] && ClockRuns(t, events)
    ensures ClockRuns(t, events[..|events| - 1])
    ensures Forward(ClockAfter(t, events[..|events| - 1]), events[|events| - 1])
  {
    var init := events[..|events| - 1];
    forall k | 0 <= k < |init|
      ensures Forward(ClockAfter(t, init[..k]), init[k])
    {
      assert init[..k] == events[..k];
    }
  }

  // ---------------------------------------------------------------- liveness

  /** Visits of the sweep to `id` since its last announcement, or since the start. */
  function SweepsSince(cfg: Config, events: seq<Event>, id: int): nat {
    if events == [] then 0 else
      var e := events[|events| - 1];
      if AnnouncedBy(cfg, e, id) then 0
      else SweepsSince(cfg, events[..|events| - 1], id) + if e == Visit(id) then 1 else 0
  }

  /** Nowhere along the run did `id` miss more sweeps than its timeout allows. */
  ghost predicate KeptAlive(cfg: Config, events: seq<Event>, id: int) {
    forall p | 0 <= p <= |events| :: SweepsSince(cfg, events[..p], id) <= cfg.refresh
  }

  /** As an announcement leaves a speaker. */
  predicate JustHeard(cfg: Config, r: SpeakerRec) {
    r.online && r.timeout == cfg.refresh
  }

  /** Port and descriptor, which never change: with them the gate does not look further. */
  predicate CanBeReached(r: SpeakerRec) {
    r.dport != 0 && r.fd > 0
  }

  ghost predicate NoTurn(reg: Registry, e: Event, id: int) {
    e.Push? ==> Visits(BlockTurns(reg, e.line, e.channels, e.packets), id) == 0
  }

  /** No push along the run gives the speaker a turn. */
  ghost predicate TurnFree(cfg: Config, s: Server, events: seq<Event>, id: int)
    requires Consistent(s.reg)
    decreases |events|
  {
    events == [] ||
    var init := events[..|events| - 1];
    TurnFree(cfg, s, init, id) && NoTurn(Run(cfg, s, init).reg, events[|events| - 1], id)
  }

  lemma KeptAlivePrefix(cfg: Config, events: seq<Event>, id: int)
    requires events != [] && KeptAlive(cfg, events, id)
    ensures KeptAlive(cfg, events[..|events| - 1], id)
    ensures SweepsSince(cfg, events, id) <= cfg.refresh
  {
    var init := events[..|events| - 1];
    forall p | 0 <= p <= |init|
      ensures SweepsSince(cfg, init[..p], id) <= cfg.refresh
    {
      assert init[..p] == events[..p];
    }
    assert events[..|events|] == events;
  }

  /** One event, for an online speaker that can be reached or is not given a turn. */
  lemma StepStatus(cfg: Config, reg: Registry, e: Event, id: int)
    requires Consistent(reg) && id in reg.recs && reg.recs[id].online
    requires CanBeReached(reg.recs[id]) || NoTurn(reg, e, id)
    ensures id in StepRecs(cfg, reg, e).recs
    ensures var r, r' := reg.recs[id], StepRecs(cfg, reg, e).recs[id];
            && r'.dport == r.dport && r'.fd == r.fd
            && r'.timeout == (if AnnouncedBy(cfg, e, id) then cfg.refresh
                              else if e == Visit(id) then r.timeout - 1 else r.timeout)
            && r'.online == (if e == Visit(id) then r.timeout > 0 else true)
  {
    StepOneSpeaker(cfg, reg, e, id);
    if e.Push? {
      GateTimesLiveness(cfg, reg.recs[id], Visits(BlockTurns(reg, e.line, e.channels, e.packets), id));
    }
  }

  /**
   A speaker heard often enough is online throughout, its timeout counting the sweeps since;
   whatever other speakers, pushes or requests come in between. Without port or descriptor this
   holds as long as no push gives it a turn.
   */
  lemma {:induction false} StaysOnline(cfg: Config, s: Server, events: seq<Event>, id: int)
    requires Consistent(s.reg) && id in s.reg.recs && JustHeard(cfg, s.reg.recs[id])
    requires CanBeReached(s.reg.recs[id]) || TurnFree(cfg, s, events, id)
    requires KeptAlive(cfg, events, id)
    ensures id in Run(cfg, s, events).reg.recs
    ensures var r := Run(cfg, s, events).reg.recs[id];
            && r.online && r.timeout == cfg.refresh - SweepsSince(cfg, events, id)
            && r.dport == s.reg.recs[id].dport && r.fd == s.reg.recs[id].fd
    decreases |events|
  {
    if events != [] {
      var init := events[..|events| - 1];
      KeptAlivePrefix(cfg, events, id);
      StaysOnline(cfg, s, init, id);
      StepStatus(cfg, Run(cfg, s, init).reg, events[|events| - 1], id);
      hide StepRecs, Consistent, Announced, AnnouncedBy, NoTurn;
    }
  }

  /** The next event takes it offline exactly when it is the visit after `refresh` missed ones. */
  lemma OfflineExactly(cfg: Config, s: Server, events: seq<Event>, e: Event, id: int)
    requires Consistent(s.reg) && id in s.reg.recs && JustHeard(cfg, s.reg.recs[id])
    requires CanBeReached(s.reg.recs[id]) || TurnFree(cfg, s, events + [e], id)
    requires KeptAlive(cfg, events, id)
    ensures id in Run(cfg, s, events + [e]).reg.recs
    ensures !Run(cfg, s, events + [e]).reg.recs[id].online
       <==> e == Visit(id) && SweepsSince(cfg, events, id) == cfg.refresh
  {
    assert (events + [e])[..|events|] == events;
    StaysOnline(cfg, s, events, id);
    hide StepRecs, Consistent, AnnouncedBy, NoTurn, KeptAlive;
    StepStatus(cfg, Run(cfg, s, events).reg, e, id);
  }

  /** Re-checking an offline speaker at the push gate does not revive it. */
  ghost predicate NoRevival(cfg: Config) {
    forall timeout: int :: !cfg.recheck(false, timeout).0
  }

  lemma {:induction false} GateDoesNotRevive(cfg: Config, r: SpeakerRec, visits: nat)
    requires NoRevival(cfg) && !r.online
    ensures !GateTimes(cfg, r, visits).online
  {
    if visits > 0 {
      GateDoesNotRevive(cfg, r, visits - 1);
    }
  }

  /** Then, or while no push gives it a turn, only an announcement brings it back. */
  lemma {:induction false} StaysOffline(cfg: Config, s: Server, events: seq<Event>, id: int)
    requires Consistent(s.reg) && id in s.reg.recs && !s.reg.recs[id].online
    requires NoRevival(cfg) || TurnFree(cfg, s, events, id)
    requires forall k | 0 <= k < |events| :: !AnnouncedBy(cfg, events[k], id)
    ensures id in Run(cfg, s, events).reg.recs && !Run(cfg, s, events).reg.recs[id].online
    decreases |events|
  {
    if events != [] {
      var init, e := events[..|events| - 1], events[|events| - 1];
      StaysOffline(cfg, s, init, id);
      var before := Run(cfg, s, init).reg;
      StepOneSpeaker(cfg, before, e, id);
      if e.Push? && NoRevival(cfg) {
        GateDoesNotRevive(cfg, before.recs[id], Visits(BlockTurns(before, e.line, e.channels, e.packets), id));
      }
      hide StepRecs, Consistent;
    }
  }

  // ---------------------------------------------------------------- time requests

  /** The time replies of a log. */
  function TimesIn(log: seq<Message>): seq<Message> {
    if log == [] then [] else
      TimesIn(log[..|log| - 1]) + if log[|log| - 1].Time? then [log[|log| - 1]] else []
  }

  /**
   A time request is answered, once and to the one who asked, exactly if that speaker is listed,
   online and has a port; supported or not. Nothing else is sent, and the table stays as it is.
   */
  lemma AnsweredExactly(cfg: Config, s: Server, id: int, now: nat)
    requires Consistent(s.reg)
    ensures var after := Run(cfg, s, [TimeRequest(id, now)]);
            && after.reg == s.reg
            && after.log == s.log
                 + if id in s.reg.recs && s.reg.recs[id].online && s.reg.recs[id].dport != 0
                   then [Time(id, now, (now - s.reg.recs[id].connTime) % CLOCK)] else []
  {
    RunOne(cfg, s, TimeRequest(id, now));
  }

  /** No other event sends a time reply. */
  lemma OnlyRequestsAnswered(cfg: Config, reg: Registry, e: Event)
    requires Consistent(reg) && !e.TimeRequest?
    ensures TimesIn(StepLog(cfg, reg, e)) == []
  {
    forall k | 0 <= k < |StepLog(cfg, reg, e)|
      ensures !StepLog(cfg, reg, e)[k].Time?
    {
      if StepLog(cfg, reg, e)[k].Time? {
        StepSendsTime(cfg, reg, e, k);
        assert false;
      }
    }
    NoTimes(StepLog(cfg, reg, e));
  }

  lemma {:induction false} NoTimes(log: seq<Message>)
    requires forall k | 0 <= k < |log| :: !log[k].Time?
    ensures TimesIn(log) == []
  {
    if log != [] {
      NoTimes(log[..|log| - 1]);
    }
  }

  /** A speaker with a port that is heard often enough is answered at each of its requests, supported or not. */
  lemma KeptAliveIsAnswered(cfg: Config, s: Server, events: seq<Event>, id: int, now: nat)
    requires Consistent(s.reg) && id in s.reg.recs && JustHeard(cfg, s.reg.recs[id]) && s.reg.recs[id].dport != 0
    requires CanBeReached(s.reg.recs[id]) || TurnFree(cfg, s, events, id)
    requires KeptAlive(cfg, events, id)
    ensures Run(cfg, s, events + [TimeRequest(id, now)]).log
         == Run(cfg, s, events).log + [Time(id, now, (now - s.reg.recs[id].connTime) % CLOCK)]
  {
    StaysOnline(cfg, s, events, id);
    IdentityIsSettled(cfg, s, events, id);
    RunAppend(cfg, s, events, [TimeRequest(id, now)]);
    hide Run, KeptAlive, TurnFree, StepRecs, StepLog, Consistent;
    AnsweredExactly(cfg, Run(cfg, s, events), id, now);
  }

  // ---------------------------------------------------------------- a speaker's own history

  /** What can touch a speaker that is in the table. */
  datatype Own = Heard(supported: bool) | Swept | Turns(n: nat)

  function OwnEvent(cfg: Config, reg: Registry, e: Event, id: int): seq<Own> {
    if AnnouncedBy(cfg, e, id) then [Heard(Supports(cfg, cfg.decode(e.package)))]
    else if e == Visit(id) then [Swept]
    else if e.Push? then [Turns(Visits(BlockTurns(reg, e.line, e.channels, e.packets), id))]
    else []
  }

  /** All of it along a run; pushes count with the number of turns they give the speaker. */
  function OwnHistory(cfg: Config, s: Server, events: seq<Event>, id: int): seq<Own>
    requires Consistent(s.reg)
    decreases |events|
  {
    if events == [] then [] else
      var init := events[..|events| - 1];
      OwnHistory(cfg, s, init, id) + OwnEvent(cfg, Run(cfg, s, init).reg, events[|events| - 1], id)
  }

  function LiveOnce(cfg: Config, r: SpeakerRec, own: Own): SpeakerRec {
    match own
    case Heard(supported) => r.(supported := supported, online := true, timeout := cfg.refresh)
    case Swept => SweepRec(r)
    case Turns(n) => GateTimes(cfg, r, n)
  }

  function Live(cfg: Config, r: SpeakerRec, own: seq<Own>): SpeakerRec {
    if own == [] then r else LiveOnce(cfg, Live(cfg, r, own[..|own| - 1]), own[|own| - 1])
  }

  lemma LiveStep(cfg: Config, reg: Registry, e: Event, id: int, r: SpeakerRec, before: seq<Own>)
    requires Consistent(reg) && id in reg.recs && reg.recs[id] == Live(cfg, r, before)
    ensures id in StepRecs(cfg, reg, e).recs
    ensures StepRecs(cfg, reg, e).recs[id] == Live(cfg, r, before + OwnEvent(cfg, reg, e, id))
  {
    StepOneSpeaker(cfg, reg, e, id);
    var own := OwnEvent(cfg, reg, e, id);
    if own == [] {
      assert before + own == before;
    } else {
      assert (before + own)[..|before|] == before && (before + own)[|before|] == own[0];
    }
    hide StepRecs, Consistent, GateTimes;
  }

  /**
   A known speaker's record is made by its own history alone: announcements, visits and turns, in
   their order. This holds of any speaker, reachable or not, and whatever the online check does.
   */
  lemma {:induction false} OwnHistoryDecides(cfg: Config, s: Server, events: seq<Event>, id: int)
    requires Consistent(s.reg) && id in s.reg.recs
    ensures id in Run(cfg, s, events).reg.recs
    ensures Run(cfg, s, events).reg.recs[id] == Live(cfg, s.reg.recs[id], OwnHistory(cfg, s, events, id))
    decreases |events|
  {
    if events != [] {
      var init, e := events[..|events| - 1], events[|events| - 1];
      OwnHistoryDecides(cfg, s, init, id);
      hide StepRecs, StepLog, Consistent, Live, OwnEvent;
      LiveStep(cfg, Run(cfg, s, init).reg, e, id, s.reg.recs[id], OwnHistory(cfg, s, init, id));
    }
  }

  // ---------------------------------------------------------------- support that comes too late

  lemma StepAudio(cfg: Config, reg: Registry, e: Event, id: int)
    requires Consistent(reg) && id in reg.recs && reg.recs[id].fd <= 0
    ensures AudioTo(StepLog(cfg, reg, e), id) == []
  {
    match e
    case Push(line, channels, packets) =>
      BlockTurnsKnown(reg, line, channels, packets);
      UnfitSpeakerGetsNothing(cfg, reg.recs, BlockTurns(reg, line, channels, packets), id);
    case FormatChange(rate, bits) =>
      FormatSendsSamples(reg.recs, reg.order, rate, bits);
      NoAudioIn(StepLog(cfg, reg, e), id);
    case _ =>
      NoAudioIn(StepLog(cfg, reg, e), id);
  }

  lemma {:induction false} NoAudioIn(log: seq<Message>, id: int)
    requires forall k | 0 <= k < |log| :: !log[k].Audio?
    ensures AudioTo(log, id) == []
  {
    if log != [] {
      NoAudioIn(log[..|log| - 1], id);
    }
  }

  lemma {:induction false} WithoutDescriptorNoAudio(cfg: Config, s: Server, events: seq<Event>, id: int)
    requires Consistent(s.reg) && id in s.reg.recs && s.reg.recs[id].fd <= 0
    ensures AudioTo(Run(cfg, s, events).log, id) == AudioTo(s.log, id)
    decreases |events|
  {
    if events != [] {
      var init, e := events[..|events| - 1], events[|events| - 1];
      WithoutDescriptorNoAudio(cfg, s, init, id);
      IdentityIsSettled(cfg, s, init, id);
      var before := Run(cfg, s, init);
      StepAudio(cfg, before.reg, e, id);
      hide StepLog, StepRecs, Consistent;
      AudioToAppend(before.log, StepLog(cfg, before.reg, e), id);
    }
  }

  /**
   A speaker whose first announcement was unsupported is never connected, so no later
   announcement, supported or not, gets it any audio.
   */
  lemma LateSupportGetsNoAudio(cfg: Config, s: Server, e: Event, later: seq<Event>, id: int)
    requires Consistent(s.reg) && id !in s.reg.recs && Introduces(cfg, e, id)
    requires !Supports(cfg, cfg.decode(e.package)) && cfg.blank.fd <= 0
    ensures AudioTo(Run(cfg, s, [e] + later).log, id) == AudioTo(s.log, id)
  {
    StepNewSpeaker(cfg, s.reg, e, id);
    RunOne(cfg, s, e);
    RunAppend(cfg, s, [e], later);
    WithoutDescriptorNoAudio(cfg, Run(cfg, s, [e]), later, id);
    AudioToAppend(s.log, StepLog(cfg, s.reg, e), id);
    NoAudioIn(StepLog(cfg, s.reg, e), id);
  }
}
