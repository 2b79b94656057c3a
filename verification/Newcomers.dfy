/**
 What detection makes of a datagram, told from the datagram: who is refused and with what answer,
 what a newcomer's entry holds for good, and that a fit newcomer hears the next song.
 */
module Newcomers {
  import opened Arithmetic
  import opened Bytes
  import opened FanOut
  import opened PushWave
  import opened Registry
  import opened RegistryRuns
  import opened RegistryTiming
  import opened SpeakerStreams
  import opened WaveRuns

  // ---------------------------------------------------------------- support

  /** `mask >> k` */
  function Shifted(mask: nat, k: nat): nat {
    if k == 0 then mask else Shifted(mask / 2, k - 1)
  }

  lemma HalvesThenDivides(mask: nat, p: nat)
    requires p > 0
    ensures mask / 2 / p == mask / (2 * p)
  {
    var q, r := mask / 2 / p, mask / 2 % p;
    assert mask / 2 == q * p + r;
    assert mask == 2 * (q * p + r) + mask % 2;
    assert 2 * (q * p) == q * (2 * p);
    DivModUnique(mask, 2 * p, q, 2 * r + mask % 2);
  }

  lemma {:induction false} MaskIsShift(mask: nat, k: nat)
    ensures MaskIsSet(mask, k) <==> Shifted(mask, k) % 2 == 1
  {
    if k == 0 {
      DivModUnique(mask, 1, mask, 0);
    } else {
      MaskIsShift(mask / 2, k - 1);
      HalvesThenDivides(mask, Power2(k - 1));
    }
  }

  /** A speaker is supported exactly if it announces both the configured sample size and the configured rate. */
  lemma SupportExactly(cfg: Config, req: Request)
    requires req.bitsMask >= 0 && req.rateMask >= 0
    ensures Supports(cfg, req)
       <==> Shifted(req.bitsMask, cfg.bits) % 2 == 1 && Shifted(req.rateMask, cfg.rate) % 2 == 1
  {
    MaskIsShift(req.bitsMask, cfg.bits);
    MaskIsShift(req.rateMask, cfg.rate);
  }

  // ---------------------------------------------------------------- every datagram

  /** A request of the right size, from the address it names, with two positive masks. */
  predicate WellAnnounced(cfg: Config, src: Addr, package: seq<Byte>) {
    && package != MUTEX_TAG && |package| == cfg.requestSize && cfg.decode(package).addr == src
    && cfg.decode(package).bitsMask > 0 && cfg.decode(package).rateMask > 0
  }

  /** Another server's probe is answered, noise is not; neither touches the table. */
  lemma NotAnnounced(cfg: Config, reg: Registry, src: Addr, package: seq<Byte>, env: Env)
    requires !WellAnnounced(cfg, src, package)
    ensures OnDatagram(cfg, reg, src, package, env)
         == if package == MUTEX_TAG then Outcome(reg, [MutexAnswer(src, MUTEX_RSP)], 0) else Outcome(reg, [], -1)
  {
  }

  /**
   An announcement is answered, with 0, if its speaker is known, or added and supported. A newcomer with
   a port is told the configured format first.
   */
  lemma AnnouncementAnswered(cfg: Config, reg: Registry, src: Addr, package: seq<Byte>, env: Env)
    requires WellAnnounced(cfg, src, package)
    ensures var req, out := cfg.decode(package), OnDatagram(cfg, reg, src, package, env);
            var greeted := req.id in reg.recs || (env.addOk && Supports(cfg, req));
            && out.code == (if greeted then 0 else -1)
            && out.log == (if req.id !in reg.recs && greeted && req.dport != 0
                           then [Sample(req.id, cfg.channel, cfg.rate, cfg.bits)] else [])
                          + (if greeted then [ServerInfo(src, 0)] else [])
            && (out.reg == reg <== req.id !in reg.recs && !env.addOk)
            && (req.id in out.reg.recs <==> req.id in reg.recs || env.addOk)
  {
  }

  /** The return code of the announcement itself: 1 for a bad mask, -1 if not added or not supported at first. */
  lemma AnnouncementCodes(cfg: Config, reg: Registry, req: Request, env: Env)
    ensures var code := OnAnnouncement(cfg, reg, req, env).code;
            && (code == 1 <==> req.bitsMask <= 0 || req.rateMask <= 0)
            && (code == -1 <==> req.bitsMask > 0 && req.rateMask > 0 && req.id !in reg.recs
                                && !(env.addOk && Supports(cfg, req)))
            && (code == 1 || code == -1 || code == 0)
    ensures OnAnnouncement(cfg, reg, req, env).code == 1 ==>
              OnAnnouncement(cfg, reg, req, env) == Outcome(reg, [], 1)
  {
  }

  /** A datagram touches one entry at most, and in a known entry support, online state and timeout. */
  lemma OnlyTheAnnounced(cfg: Config, reg: Registry, src: Addr, package: seq<Byte>, env: Env, other: int)
    requires other in reg.recs
    ensures var after := OnDatagram(cfg, reg, src, package, env).reg;
            && other in after.recs
            && after.recs[other]
            == if WellAnnounced(cfg, src, package) && cfg.decode(package).id == other
               then reg.recs[other].(supported := Supports(cfg, cfg.decode(package)), online := true, timeout := cfg.refresh)
               else reg.recs[other]
  {
  }

  // ---------------------------------------------------------------- the newcomer's entry

  /** The datagram that brings `id` in. */
  predicate BringsIn(cfg: Config, e: Event, id: int) {
    e.Datagram? && WellAnnounced(cfg, e.src, e.package) && cfg.decode(e.package).id == id && e.env.addOk
  }

  function DescriptorFor(env: Env): int {
    if env.socketFd < 0 then env.pushFd else env.socketFd
  }

  /**
   After its first announcement, and after any later run, a speaker's entry holds the address the
   datagram came from, the port announced in it, the configured line and channel, and, if supported
   then, the descriptor opened for it.
   */
  lemma NewcomerIs(cfg: Config, s: Server, e: Event, later: seq<Event>, id: int)
    requires Consistent(s.reg) && id !in s.reg.recs && BringsIn(cfg, e, id)
    ensures id in Run(cfg, s, [e] + later).reg.recs
    ensures var r, req := Run(cfg, s, [e] + later).reg.recs[id], cfg.decode(e.package);
            && r.addr == e.src && r.dport == req.dport && r.line == cfg.line && r.channel == cfg.channel
            && r.fd == (if Supports(cfg, req) then DescriptorFor(e.env) else cfg.blank.fd)
  {
    FirstAnnouncementDecides(cfg, s, e, later, id);
  }

  lemma {:induction false} UnlistedId(recs: map<int, SpeakerRec>, ids: seq<int>, id: int)
    requires Known(recs, ids) && id !in recs
    ensures CountIn(ids, id) == 0
    decreases |ids|
  {
    if ids != [] {
      UnlistedId(recs, ids[..|ids| - 1], id);
    }
  }

  /** The list of a line and channel, by its key. */
  function ListAt(reg: Registry, line: int, ch: int): seq<int> {
    if (line, ch) in reg.lists then reg.lists[(line, ch)] else []
  }

  lemma EntersOneList(cfg: Config, reg: Registry, e: Event, id: int, line: int, ch: int)
    requires Consistent(reg) && id !in reg.recs && BringsIn(cfg, e, id)
    ensures CountIn(ListAt(StepRecs(cfg, reg, e), line, ch), id)
         == if line == cfg.line && ch == cfg.channel then 1 else 0
  {
    var before, after := ListAt(reg, line, ch), ListAt(StepRecs(cfg, reg, e), line, ch);
    UnlistedId(reg.recs, before, id);
    if line == cfg.line && ch == cfg.channel {
      assert after == before + [id];
      assert after[..|before|] == before;
    } else {
      assert after == before;
    }
  }

  /** And it is, for good, a member of the configured channel's list, once, and of no other list. */
  lemma NewcomerIsListed(cfg: Config, s: Server, e: Event, later: seq<Event>, id: int, line: int, ch: int)
    requires Consistent(s.reg) && id !in s.reg.recs && BringsIn(cfg, e, id)
    ensures CountIn(ListAt(Run(cfg, s, [e] + later).reg, line, ch), id)
         == if line == cfg.line && ch == cfg.channel then 1 else 0
  {
    EntersOneList(cfg, s.reg, e, id, line, ch);
    StepNewSpeaker(cfg, s.reg, e, id);
    RunOne(cfg, s, e);
    RunAppend(cfg, s, [e], later);
    assert ListAt(Run(cfg, s, [e]).reg, line, ch) == Members(Run(cfg, s, [e]).reg, line, ch);
    hide CountIn, StepRecs, Run, Consistent;
    MembershipsSettled(cfg, Run(cfg, s, [e]), later, line, ch, id);
  }

  // ---------------------------------------------------------------- the newcomer hears the next song

  ghost predicate OnceAt(list: seq<int>, ch: int, i: nat) {
    i < |list| && forall k | 0 <= k < |list| :: list[k] == ch <==> k == i
  }

  /** A supported newcomer with a port and a descriptor is ready at once, and has been told the format. */
  lemma NewcomerIsReady(cfg: Config, s: Server, e: Event, id: int)
    requires Consistent(s.reg) && id !in s.reg.recs && BringsIn(cfg, e, id)
    requires Supports(cfg, cfg.decode(e.package)) && cfg.decode(e.package).dport != 0 && DescriptorFor(e.env) > 0
    ensures id in Run(cfg, s, [e]).reg.recs && Ready(cfg, Run(cfg, s, [e]).reg.recs[id])
    ensures Run(cfg, s, [e]).log == s.log + [Sample(id, cfg.channel, cfg.rate, cfg.bits), ServerInfo(e.src, 0)]
  {
    RunOne(cfg, s, e);
    StepNewSpeaker(cfg, s.reg, e, id);
    AnnouncementAnswered(cfg, s.reg, e.src, e.package, e.env);
  }

  /**
   Such a newcomer, if it goes on announcing itself often enough, is sent its part of every block of a
   wave command that follows on its line and has its channel once in the list.
   */
  lemma NewcomerHearsWave(cfg: Config, s: Server, e: Event, later: seq<Event>, list: seq<int>,
                          header: seq<Byte>, blocks: seq<seq<Byte>>, len: nat, b: nat,
                          tail: seq<Byte>, i: nat, id: int)
    requires Consistent(s.reg) && id !in s.reg.recs && BringsIn(cfg, e, id)
    requires Supports(cfg, cfg.decode(e.package)) && cfg.decode(e.package).dport != 0 && DescriptorFor(e.env) > 0
    requires KeptAlive(cfg, later, id) && AlwaysSupported(cfg, later, id)
    requires OnceAt(list, cfg.channel, i)
    requires b > 0 && LongEnough(blocks, len)
    requires PushesIn(later) == WaveEvents(cfg.line, list, header, blocks, len, b, tail)
    ensures AudioTo(Run(cfg, s, [e] + later).log, id)
         == AudioTo(s.log, id) + ChannelPackets(header, blocks, len, |list|, b, i, tail)
  {
    var told := [Sample(id, cfg.channel, cfg.rate, cfg.bits), ServerInfo(e.src, 0)];
    hide *;
    NewcomerIsReady(cfg, s, e, id);
    NewcomerIsOnlyOn(cfg, s, e, list, i, id);
    NoAudioIn(told, id);
    AudioToAppend(s.log, told, id);
    RunAppend(cfg, s, [e], later);
    assert AudioTo(Run(cfg, s, [e]).log, id) == AudioTo(s.log, id);
    WaveReachesSpeaker(cfg, Run(cfg, s, [e]), later, cfg.line, list, header, blocks, len, b, tail, i, id);
  }

  lemma NewcomerIsOnlyOn(cfg: Config, s: Server, e: Event, list: seq<int>, i: nat, id: int)
    requires Consistent(s.reg) && id !in s.reg.recs && BringsIn(cfg, e, id)
    requires OnceAt(list, cfg.channel, i)
    ensures OnlyOn(Run(cfg, s, [e]).reg, cfg.line, list, i, id)
  {
    var reg := Run(cfg, s, [e]).reg;
    hide CountIn, Run, Consistent, BringsIn;
    forall k | 0 <= k < |list|
      ensures CountIn(Members(reg, cfg.line, list[k]), id) == if k == i then 1 else 0
    {
      assert [e] + [] == [e];
      NewcomerIsListed(cfg, s, e, [], id, cfg.line, list[k]);
    }
  }
}
