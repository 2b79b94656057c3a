/**
 Which descriptors the server closes: at the sweep, the descriptor of whoever has run out of time; at
 a push, that of whoever the gate turns away.
 */
module Descriptors {
  import opened FanOut
  import opened Registry
  import opened RegistryRuns
  import opened RegistryTiming
  import opened WaveRuns

  /** Shut down and closed on account of speaker `id`. */
  datatype Closing = Closing(id: int, fd: int)

  function OnAccountOf(id: int, fds: seq<int>): (r: seq<Closing>)
    ensures |r| == |fds|
  {
    seq(|fds|, k requires 0 <= k < |fds| => Closing(id, fds[k]))
  }

  /** What a block's turns close, each speaker in its state on that turn. */
  function TurnsClose(cfg: Config, recs: map<int, SpeakerRec>, turns: seq<Turn>, readFd: int): seq<Closing>
    requires KnownTurns(recs, turns)
    decreases |turns|
  {
    if turns == [] then [] else
      var last := |turns| - 1;
      var r := FanOutRecs(cfg, recs, turns[..last])[turns[last].id];
      TurnsClose(cfg, recs, turns[..last], readFd) + OnAccountOf(turns[last].id, GateCloses(r, readFd))
  }

  /** What one event closes. */
  function StepCloses(cfg: Config, reg: Registry, e: Event, readFd: int): seq<Closing>
    requires Consistent(reg)
  {
    match e
    case Visit(id) => if id in reg.recs then OnAccountOf(id, VisitCloses(reg.recs[id], readFd)) else []
    case Push(line, channels, packets) =>
      BlockTurnsKnown(reg, line, channels, packets);
      TurnsClose(cfg, reg.recs, BlockTurns(reg, line, channels, packets), readFd)
    case _ => []
  }

  /** Everything closed along a run, oldest first. */
  function ClosedAlong(cfg: Config, s: Server, events: seq<Event>, readFd: int): seq<Closing>
    requires Consistent(s.reg)
    decreases |events|
  {
    if events == [] then [] else
      var init := events[..|events| - 1];
      ClosedAlong(cfg, s, init, readFd) + StepCloses(cfg, Run(cfg, s, init).reg, events[|events| - 1], readFd)
  }

  // ---------------------------------------------------------------- the sweep

  /** A visit that leaves its speaker online closes nothing; one that takes it offline closes its descriptor. */
  lemma VisitClosesExactly(cfg: Config, s: Server, id: int, readFd: int)
    requires Consistent(s.reg) && id in s.reg.recs
    ensures id in Run(cfg, s, [Visit(id)]).reg.recs
    ensures var was, now := s.reg.recs[id], Run(cfg, s, [Visit(id)]).reg.recs[id];
            var closed := ClosedAlong(cfg, s, [Visit(id)], readFd);
            && (now.online ==> closed == [])
            && (was.online && !now.online ==>
                  closed == if was.fd < 0 || was.fd == readFd then [] else [Closing(id, was.fd)])
            && (closed != [] <==> was.timeout <= 0 && was.fd >= 0 && was.fd != readFd)
  {
    RunOne(cfg, s, Visit(id));
    assert [Visit(id)][..0] == [];
    assert ClosedAlong(cfg, s, [], readFd) == [];
    assert ClosedAlong(cfg, s, [Visit(id)], readFd) == [] + StepCloses(cfg, s.reg, Visit(id), readFd);
  }

  function VisitsTo(id: int, n: nat): seq<Event> {
    seq(n, _ => Visit(id))
  }

  function Max(a: int, b: int): int {
    if a < b then b else a
  }

  /**
   `n` visits and nothing else: the timeout counts them all, below zero too; the speaker is online while
   it lasts, and every visit after that closes its descriptor once more.
   */
  lemma {:induction false} VisitsAlone(cfg: Config, s: Server, id: int, n: nat, readFd: int)
    requires Consistent(s.reg) && id in s.reg.recs
    ensures var was, after := s.reg.recs[id], Run(cfg, s, VisitsTo(id, n));
            && id in after.reg.recs && after.log == s.log
            && after.reg.recs[id]
            == was.(timeout := was.timeout - n, online := was.online && (n == 0 || n <= was.timeout))
            && |ClosedAlong(cfg, s, VisitsTo(id, n), readFd)|
            == if was.fd < 0 || was.fd == readFd then 0 else Max(0, n - Max(0, was.timeout))
    decreases n
  {
    if n > 0 {
      assert VisitsTo(id, n)[..n - 1] == VisitsTo(id, n - 1);
      VisitsAlone(cfg, s, id, n - 1, readFd);
      hide Consistent;
    }
  }

  /** The speaker heard often enough is left alone until the visit that takes it offline, which closes its descriptor. */
  lemma OfflineCloses(cfg: Config, s: Server, events: seq<Event>, id: int, readFd: int)
    requires Consistent(s.reg) && id in s.reg.recs && JustHeard(cfg, s.reg.recs[id]) && CanBeReached(s.reg.recs[id])
    requires KeptAlive(cfg, events, id)
    ensures id in Run(cfg, s, events).reg.recs
    ensures StepCloses(cfg, Run(cfg, s, events).reg, Visit(id), readFd)
         == if SweepsSince(cfg, events, id) == cfg.refresh && s.reg.recs[id].fd != readFd
            then [Closing(id, s.reg.recs[id].fd)] else []
  {
    StaysOnline(cfg, s, events, id);
    KeptAliveNow(cfg, events, id);
    hide Run, KeptAlive, SweepsSince;
  }

  lemma KeptAliveNow(cfg: Config, events: seq<Event>, id: int)
    requires KeptAlive(cfg, events, id)
    ensures SweepsSince(cfg, events, id) <= cfg.refresh
  {
    assert events[..|events|] == events;
  }

  /** The closings of an undisturbed pass are those of the sweep, in table order. */
  function Fds(closed: seq<Closing>): (r: seq<int>)
    ensures |r| == |closed|
  {
    seq(|closed|, k requires 0 <= k < |closed| => closed[k].fd)
  }

  lemma ClosedNext(cfg: Config, s: Server, events: seq<Event>, e: Event, readFd: int)
    requires Consistent(s.reg)
    ensures ClosedAlong(cfg, s, events + [e], readFd)
         == ClosedAlong(cfg, s, events, readFd) + StepCloses(cfg, Run(cfg, s, events).reg, e, readFd)
  {
    assert (events + [e])[..|events|] == events;
  }

  lemma VisitNext(cfg: Config, s: Server, ids: seq<int>, n: nat, readFd: int)
    requires Consistent(s.reg) && Known(s.reg.recs, ids) && NoDuplicates(ids) && 0 < n <= |ids|
    ensures ClosedAlong(cfg, s, VisitEvents(ids[..n]), readFd)
         == ClosedAlong(cfg, s, VisitEvents(ids[..n - 1]), readFd)
            + OnAccountOf(ids[n - 1], VisitCloses(s.reg.recs[ids[n - 1]], readFd))
  {
    var id, init := ids[n - 1], VisitEvents(ids[..n - 1]);
    assert id !in ids[..n - 1];
    assert VisitEvents(ids[..n]) == init + [Visit(id)];
    VisitsInTurn(cfg, s, ids[..n - 1]);
    hide ClosedAlong, Run, VisitEvents, NoDuplicates, Consistent, VisitCloses;
    ClosedNext(cfg, s, init, Visit(id), readFd);
  }

  lemma {:induction false} VisitsCloseInTurn(cfg: Config, s: Server, ids: seq<int>, n: nat, readFd: int)
    requires Consistent(s.reg) && Known(s.reg.recs, ids) && NoDuplicates(ids) && n <= |ids|
    ensures Fds(ClosedAlong(cfg, s, VisitEvents(ids[..n]), readFd)) == SweepCloses(s.reg.recs, ids, n, readFd)
  {
    if n == 0 {
      assert VisitEvents(ids[..0]) == [];
    } else {
      hide Run, Consistent, ClosedAlong, VisitEvents, VisitCloses, OnAccountOf, Fds, SweepCloses, NoDuplicates;
      VisitNext(cfg, s, ids, n, readFd);
      SweepClosesNext(s.reg.recs, ids, n - 1, readFd);
      VisitsCloseInTurn(cfg, s, ids, n - 1, readFd);
      FdsAppend(ClosedAlong(cfg, s, VisitEvents(ids[..n - 1]), readFd), ids[n - 1],
                VisitCloses(s.reg.recs[ids[n - 1]], readFd));
      assert Fds(ClosedAlong(cfg, s, VisitEvents(ids[..n]), readFd)) == SweepCloses(s.reg.recs, ids, n, readFd);
    }
  }

  lemma FdsAppend(closed: seq<Closing>, id: int, fds: seq<int>)
    ensures Fds(closed + OnAccountOf(id, fds)) == Fds(closed) + fds
  {
  }

  lemma PassCloses(cfg: Config, s: Server, readFd: int)
    requires Consistent(s.reg)
    ensures Fds(ClosedAlong(cfg, s, VisitEvents(s.reg.order), readFd))
         == SweepCloses(s.reg.recs, s.reg.order, |s.reg.order|, readFd)
  {
    assert s.reg.order[..|s.reg.order|] == s.reg.order;
    VisitsCloseInTurn(cfg, s, s.reg.order, |s.reg.order|, readFd);
  }

  // ---------------------------------------------------------------- the gate

  /** A turn closes the descriptor of a speaker that is not sent the packet, unless it has none of its own. */
  lemma TurnClosesExactly(cfg: Config, recs: map<int, SpeakerRec>, turn: Turn, readFd: int)
    requires turn.id in recs
    ensures KnownTurns(recs, [turn])
    ensures var r := recs[turn.id];
            TurnsClose(cfg, recs, [turn], readFd)
            == if (r.dport != 0 && r.online && r.fd > 0 && r.supported) || r.fd < 0 || r.fd == readFd then []
               else [Closing(turn.id, r.fd)]
  {
    assert [turn][..0] == [];
    assert TurnsClose(cfg, recs, [], readFd) == [];
  }

  // ---------------------------------------------------------------- a speaker kept alive

  ghost predicate NotOnAccountOf(closed: seq<Closing>, id: int) {
    forall k | 0 <= k < |closed| :: closed[k].id != id
  }

  lemma {:induction false} TurnsSpare(cfg: Config, recs: map<int, SpeakerRec>, turns: seq<Turn>, id: int, readFd: int)
    requires KnownTurns(recs, turns) && id in recs && Passes(recs[id])
    ensures NotOnAccountOf(TurnsClose(cfg, recs, turns, readFd), id)
    decreases |turns|
  {
    if turns != [] {
      TurnsSpare(cfg, recs, turns[..|turns| - 1], id, readFd);
      ReadySpeakerGetsAll(cfg, recs, turns[..|turns| - 1], id);
    }
  }

  lemma StepSpares(cfg: Config, reg: Registry, e: Event, id: int, readFd: int)
    requires Consistent(reg) && id in reg.recs && Passes(reg.recs[id])
    requires e == Visit(id) ==> reg.recs[id].timeout > 0
    ensures NotOnAccountOf(StepCloses(cfg, reg, e, readFd), id)
  {
    if e.Push? {
      BlockTurnsKnown(reg, e.line, e.channels, e.packets);
      TurnsSpare(cfg, reg.recs, BlockTurns(reg, e.line, e.channels, e.packets), id, readFd);
    }
  }

  /** Nothing is ever closed on account of a ready speaker that is heard often enough, by sweep or push. */
  lemma {:induction false} KeptAliveKeepsDescriptor(cfg: Config, s: Server, events: seq<Event>, id: int, readFd: int)
    requires Consistent(s.reg) && id in s.reg.recs && Ready(cfg, s.reg.recs[id])
    requires KeptAlive(cfg, events, id) && AlwaysSupported(cfg, events, id)
    ensures NotOnAccountOf(ClosedAlong(cfg, s, events, readFd), id)
    decreases |events|
  {
    if events != [] {
      var init, e := events[..|events| - 1], events[|events| - 1];
      KeptAlivePrefix(cfg, events, id);
      assert AlwaysSupported(cfg, init, id);
      StaysOnline(cfg, s, init, id);
      assert e == Visit(id) ==> SweepsSince(cfg, init, id) < cfg.refresh;
      KeptAliveKeepsDescriptor(cfg, s, init, id, readFd);
      StaysReady(cfg, s, init, id);
      hide StepCloses, KeptAlive, AlwaysSupported, SweepsSince, Run, Passes, AnnouncedBy;
      StepSpares(cfg, Run(cfg, s, init).reg, e, id, readFd);
    }
  }
}
