/** The detection socket and the periodic sweep. */
module ServerDetect {
  import opened Bytes
  import opened Registry
  import opened SpeakerTable
  import opened SpeakerControl
  import opened SpeakerPusher

  const FIRST_RUN: nat := 1
  const EXIT: nat := 2

  class Detector {
    const table: Table
    const out: Outbox
    const control: Control
    const pusher: Pusher
    const group: Addr
    /** `server_notify_resp.type` */
    var notifyKind: nat

    ghost predicate Valid()
      reads this, table, table.byId.Values
    {
      && table.Valid() && control.table == table && control.out == out
      && pusher.table == table && pusher.out == out
    }

    constructor (table: Table, out: Outbox, control: Control, pusher: Pusher, group: Addr)
      requires table.Valid() && control.table == table && control.out == out
      requires pusher.table == table && pusher.out == out
      modifies out
      ensures Valid() && this.table == table && this.out == out && this.control == control && this.pusher == pusher
      ensures out.sent == old(out.sent) + [ServerInfo(group, FIRST_RUN)] && notifyKind == 0
    {
      this.table, this.out, this.control, this.pusher, this.group := table, out, control, pusher, group;
      notifyKind := FIRST_RUN;
      new;
      Multicast();
    }

    /** Tell the group about this server; afterwards the kind is back to 0. */
    method Multicast()
      modifies this`notifyKind, out
      ensures out.sent == old(out.sent) + [ServerInfo(group, old(notifyKind))] && notifyKind == 0
    {
      out.Send(ServerInfo(group, notifyKind));
      notifyKind := 0;
    }

    /** Say goodbye to the group. */
    method Deinit()
      modifies this`notifyKind, out
      ensures out.sent == old(out.sent) + [ServerInfo(group, EXIT)] && notifyKind == 0
    {
      notifyKind := EXIT;
      Multicast();
    }

    method Update(sp: Speaker, support: bool)
      modifies sp
      ensures sp.Rec() == old(sp.Rec()).(supported := support, online := true, timeout := table.cfg.refresh)
    {
      sp.supported := support;
      table.CheckOnline(sp, true);
    }

    /** A speaker already in the table announces itself. */
    method Revisit(sp: Speaker, support: bool)
      requires Valid() && sp.id in table.byId && table.byId[sp.id] == sp
      modifies sp
      ensures Valid() && unchanged(table)
      ensures table.State() == old(table.State()).(recs := old(table.State().recs)[sp.id :=
                old(table.State().recs)[sp.id].(supported := support, online := true, timeout := table.cfg.refresh)])
    {
      ghost var before := table.State();
      Update(sp, support);
      Refile(table, before, sp.id);
    }

    /** Fill in a speaker just added, and send it its first command if its format is supported. */
    method Introduce(sp: Speaker, req: Request, support: bool, socketFd: int, now: nat)
      requires sp.Rec() == table.cfg.blank.(line := table.cfg.line, channel := table.cfg.channel)
      requires support == Supports(table.cfg, req) && control.out == out
      modifies sp, out, control`buffer
      ensures sp.Rec() == FirstRec(table.cfg, req, Env(true, socketFd, pusher.readFd, now))
      ensures out.sent == old(out.sent)
                + if support then SampleIf(sp.Rec(), sp.id, table.cfg.rate, table.cfg.bits) else []
    {
      sp.addr, sp.dport := req.addr, req.dport;
      Update(sp, support);
      var _ := pusher.Connect(sp, socketFd, true);
      if support {
        control.SetTime(sp, now);
        var _ := control.Command(sp, SamplePackage(sp.channel, table.cfg.rate, table.cfg.bits));
      }
    }

    method ValidSpeaker(req: Request, addOk: bool, socketFd: int, now: nat) returns (code: int)
      requires Valid()
      modifies table, table.byId.Values, out, control`buffer
      ensures Valid()
      ensures Outcome(table.State(), out.sent, code)
           == var o := OnAnnouncement(table.cfg, old(table.State()), req, Env(addOk, socketFd, pusher.readFd, now));
              o.(log := old(out.sent) + o.log)
    {
      var support := true;
      if req.bitsMask <= 0 {
        return 1;
      }
      if req.rateMask <= 0 {
        return 1;
      }
      if !MaskIsSet(req.bitsMask, table.cfg.bits) {
        support := false;
      }
      if !MaskIsSet(req.rateMask, table.cfg.rate) {
        support := false;
      }
      var sp := table.FindById(req.id);
      if sp != null {
        Revisit(sp, support);
        return 0;
      }
      code := AddNew(req, support, addOk, socketFd, now);
    }

    method AddNew(req: Request, support: bool, addOk: bool, socketFd: int, now: nat) returns (code: int)
      requires Valid() && req.id !in table.byId
      requires GoodMasks(req) && support == Supports(table.cfg, req)
      modifies table, out, control`buffer
      ensures Valid()
      ensures Outcome(table.State(), out.sent, code)
           == var o := OnAnnouncement(table.cfg, old(table.State()), req, Env(addOk, socketFd, pusher.readFd, now));
              o.(log := old(out.sent) + o.log)
    {
      var sp := table.Add(req.id, table.cfg.line, table.cfg.channel, addOk);
      if sp == null {
        return -1;
      }
      hide FirstRec, Supports, GoodMasks, Members, SampleIf, Consistent;
      ghost var added, blank := table.State(), sp.Rec();
      Introduce(sp, req, support, socketFd, now);
      Refile(table, added, req.id);
      hide AddRec;
      AddThenFill(old(table.State()), table.cfg.line, table.cfg.channel, req.id, blank, sp.Rec());
      FirstRecSupport(table.cfg, req, Env(addOk, socketFd, pusher.readFd, now));
      return if support then 0 else -1;
    }

    method OnRequest(src: Addr, req: Request, addOk: bool, socketFd: int, now: nat) returns (code: int)
      requires Valid()
      modifies this`notifyKind, table, table.byId.Values, out, control`buffer
      ensures Valid()
      ensures Outcome(table.State(), out.sent, code)
           == var o := OnDecoded(table.cfg, old(table.State()), src, req,
                                 Env(addOk, socketFd, pusher.readFd, now));
              o.(log := old(out.sent) + o.log)
    {
      hide OnAnnouncement, Table.Valid;
      if src != req.addr {
        return -1;
      }
      var r := ValidSpeaker(req, addOk, socketFd, now);
      if r != 0 {
        return -1;
      }
      notifyKind := 0;
      out.Send(ServerInfo(req.addr, notifyKind));
      return 0;
    }

    /** One datagram received from `src`. */
    method DetectRead(src: Addr, package: seq<Byte>, addOk: bool, socketFd: int, now: nat) returns (code: int)
      requires Valid()
      modifies this`notifyKind, table, table.byId.Values, out, control`buffer
      ensures Valid()
      ensures Outcome(table.State(), out.sent, code)
           == var o := OnDatagram(table.cfg, old(table.State()), src, package,
                                  Env(addOk, socketFd, pusher.readFd, now));
              o.(log := old(out.sent) + o.log)
    {
      if package == MUTEX_TAG {
        out.Send(MutexAnswer(src, MUTEX_RSP));
        return 0;
      }
      if |package| == table.cfg.requestSize {
        code := OnRequest(src, table.cfg.decode(package), addOk, socketFd, now);
        return;
      }
      return -1;
    }

    method Visit(sp: Speaker)
      requires pusher.out == out
      modifies sp, out`closed
      ensures sp.Rec() == SweepRec(old(sp.Rec()))
      ensures out.closed == old(out.closed) + VisitCloses(old(sp.Rec()), pusher.readFd)
    {
      var was := sp.timeout;
      sp.timeout := sp.timeout - 1;
      if was <= 0 {
        sp.online := false;
        pusher.Disconnect(sp);
      }
    }

    /** The first `i` speakers have been visited since the table was `reg`. */
    ghost predicate Sweeping(reg: Registry, closed: seq<int>, i: nat)
      reads this, pusher`readFd, table, table.byId.Values, out
    {
      && Valid() && Consistent(reg) && i <= |reg.order|
      && table.State() == reg.(recs := PartSweep(reg.recs, reg.order[..i]))
      && out.closed == closed + SweepCloses(reg.recs, reg.order, i, pusher.readFd)
    }

    method VisitNext(ghost reg: Registry, ghost closed: seq<int>, i: nat)
      requires Sweeping(reg, closed, i) && i < |table.order|
      modifies table.byId.Values, out`closed
      ensures Sweeping(reg, closed, i + 1) && unchanged(table)
    {
      ghost var before, id := table.State(), reg.order[i];
      assert id in reg.recs && id !in reg.order[..i] && before.recs[id] == reg.recs[id];
      PartSweepNext(reg, i);
      SweepClosesNext(reg.recs, reg.order, i, pusher.readFd);
      hide SweepRec, VisitCloses, PartSweep, SweepCloses;
      Visit(table.byId[table.order[i]]);
      Refile(table, before, id);
      hide Consistent;
      ConcatAssoc(closed, SweepCloses(reg.recs, reg.order, i, pusher.readFd),
                  VisitCloses(reg.recs[id], pusher.readFd));
    }

    /** One pass of the online monitor over the whole table. */
    method SweepOnce()
      requires Valid()
      modifies table.byId.Values, out`closed
      ensures Valid() && unchanged(table)
      ensures table.State() == Sweep(old(table.State()))
      ensures Known(old(table.State().recs), table.order)
      ensures out.closed == old(out.closed)
                + SweepCloses(old(table.State().recs), table.order, |table.order|, pusher.readFd)
    {
      ghost var reg, closed := table.State(), out.closed;
      assert PartSweep(reg.recs, reg.order[..0]) == reg.recs;
      assert Sweeping(reg, closed, 0) && table.order == reg.order;
      hide *;
      var i := 0;
      while i < |table.order|
        invariant 0 <= i <= |table.order| && Sweeping(reg, closed, i) && unchanged(table)
      {
        VisitNext(reg, closed, i);
        i := i + 1;
      }
      assert reg.order[..i] == reg.order;
      Swept(reg, closed, i);
    }

    lemma Swept(reg: Registry, closed: seq<int>, i: nat)
      requires Sweeping(reg, closed, i) && reg.order[..i] == reg.order && i == |reg.order|
      ensures Valid() && Known(reg.recs, reg.order) && table.State() == Sweep(reg)
      ensures out.closed == closed + SweepCloses(reg.recs, reg.order, |reg.order|, pusher.readFd)
    {
      PartSweepComplete(reg);
    }
  }

  lemma PartSweepComplete(reg: Registry)
    requires Consistent(reg)
    ensures reg.(recs := PartSweep(reg.recs, reg.order)) == Sweep(reg)
  {
    var part, all := PartSweep(reg.recs, reg.order), Sweep(reg).recs;
    forall id | id in reg.recs
      ensures part[id] == all[id]
    {
      assert id in reg.order;
    }
    assert part.Keys == all.Keys;
  }

  lemma PartSweepNext(reg: Registry, i: nat)
    requires Consistent(reg) && i < |reg.order|
    ensures reg.order[i] in reg.recs
    ensures var id := reg.order[i];
            PartSweep(reg.recs, reg.order[..i])[id := SweepRec(reg.recs[id])]
            == PartSweep(reg.recs, reg.order[..i + 1])
  {
    hide SweepRec;
    assert reg.order[..i + 1] == reg.order[..i] + [reg.order[i]];
  }

  /** Half of a sweep: the speakers in `visited` have had their turn. */
  function PartSweep(recs: map<int, SpeakerRec>, visited: seq<int>): map<int, SpeakerRec> {
    map id | id in recs :: if id in visited then SweepRec(recs[id]) else recs[id]
  }

  lemma FirstRecSupport(cfg: Config, req: Request, env: Env)
    ensures FirstRec(cfg, req, env).supported == Supports(cfg, req)
    ensures FirstRec(cfg, req, env) == FirstRec(cfg, req, env.(addOk := true))
  {
  }
}
