/**
 The server's table of speakers as a value, what each server operation does to it, and the
 datagrams it sends. The classes of `SpeakerTable`, `SpeakerPusher`, `SpeakerControl` and
 `ServerDetect` update their fields in place and are proved against these functions.
 */
module Registry {
  import opened Bytes

  /** An address as the detection socket compares it. */
  type Addr = int

  datatype SpeakerRec = SpeakerRec(
    line: int, channel: int, addr: Addr, dport: nat,
    supported: bool, online: bool, timeout: int, connTime: nat, fd: int)

  /** The decoded announcement of a speaker. */
  datatype Request = Request(id: int, addr: Addr, dport: nat, bitsMask: int, rateMask: int)

  /**
   Configuration, and the parts of `common/` that are not part of this model:
   `blank` is what `add_speaker` hands out; `refresh` is the timeout an announcement restores;
   `recheck` is what `speaker_check_online` makes of (online, timeout) when the push gate calls
   it without an announcement: any function of these two, and of nothing else, such as the clock;
   `decode` reads a request datagram.
   */
  datatype Config = Config(
    bits: nat, rate: nat, line: int, channel: int, blank: SpeakerRec, refresh: nat,
    recheck: (bool, int) -> (bool, int), requestSize: nat, decode: seq<Byte> -> Request)

  datatype Message =
    | Audio(to: int, packet: seq<Byte>)
    | Sample(to: int, channel: int, rate: int, bits: int)
    | Time(to: int, server: nat, offset: nat)
    | ServerInfo(dest: Addr, kind: nat)
    | MutexAnswer(dest: Addr, text: seq<Byte>)

  /** Speakers by id, the order the table lists them in, and the members of each (line, channel). */
  datatype Registry = Registry(
    recs: map<int, SpeakerRec>, order: seq<int>, lists: map<(int, int), seq<int>>)

  ghost predicate Known(recs: map<int, SpeakerRec>, ids: seq<int>) {
    forall k | 0 <= k < |ids| :: ids[k] in recs
  }

  ghost predicate NoDuplicates(ids: seq<int>) {
    forall j, k | 0 <= j < k < |ids| :: ids[j] != ids[k]
  }

  /** Every listed id is in the table, and the table order lists each id once. */
  ghost predicate Consistent(reg: Registry) {
    && Known(reg.recs, reg.order)
    && NoDuplicates(reg.order)
    && (forall id | id in reg.recs :: id in reg.order)
    && (forall key | key in reg.lists :: Known(reg.recs, reg.lists[key]))
  }

  function Members(reg: Registry, line: int, ch: int): seq<int> {
    if (line, ch) in reg.lists then reg.lists[(line, ch)] else []
  }

  // ---------------------------------------------------------------- audio pushes

  /** The push gate's two tests, in the order the gate makes them. */
  predicate Reachable(r: SpeakerRec) {
    r.dport != 0 && r.online && r.fd > 0
  }

  predicate Passes(r: SpeakerRec) {
    Reachable(r) && r.supported
  }

  /** A turn at the gate touches only the online state and the timeout, and only on refusal. */
  function GateRec(cfg: Config, r: SpeakerRec): SpeakerRec {
    if Reachable(r) then r else
      var (online, timeout) := cfg.recheck(r.online, r.timeout);
      r.(online := online, timeout := timeout)
  }

  /** What a disconnect closes: the speaker's descriptor, unless it has none or shares the push connection's. */
  function Disconnected(r: SpeakerRec, readFd: int): seq<int> {
    if r.fd < 0 || r.fd == readFd then [] else [r.fd]
  }

  /** What the gate closes: the descriptor of a speaker it turns away. */
  function GateCloses(r: SpeakerRec, readFd: int): seq<int> {
    if Passes(r) then [] else Disconnected(r, readFd)
  }

  /** One speaker's turn to be sent one packet. */
  datatype Turn = Turn(id: int, packet: seq<Byte>)

  ghost predicate KnownTurns(recs: map<int, SpeakerRec>, turns: seq<Turn>) {
    forall k | 0 <= k < |turns| :: turns[k].id in recs
  }

  /** The records after all turns, taken one after the other. */
  function FanOutRecs(cfg: Config, recs: map<int, SpeakerRec>, turns: seq<Turn>): (r: map<int, SpeakerRec>)
    requires KnownTurns(recs, turns)
    ensures r.Keys == recs.Keys
    decreases |turns|
  {
    if turns == [] then recs else
      var last := |turns| - 1;
      var before := FanOutRecs(cfg, recs, turns[..last]);
      before[turns[last].id := GateRec(cfg, before[turns[last].id])]
  }

  /** The packets sent by all turns. */
  function FanOutLog(cfg: Config, recs: map<int, SpeakerRec>, turns: seq<Turn>): seq<Message>
    requires KnownTurns(recs, turns)
    decreases |turns|
  {
    if turns == [] then [] else
      var last := |turns| - 1;
      var before := FanOutRecs(cfg, recs, turns[..last]);
      FanOutLog(cfg, recs, turns[..last]) + AudioIf(before[turns[last].id], turns[last])
  }

  function AudioIf(r: SpeakerRec, turn: Turn): seq<Message> {
    if Passes(r) then [Audio(turn.id, turn.packet)] else []
  }

  function TurnsOf(ids: seq<int>, packet: seq<Byte>): (r: seq<Turn>)
    ensures |r| == |ids|
  {
    seq(|ids|, k requires 0 <= k < |ids| => Turn(ids[k], packet))
  }

  /** The turns of one block: channel after channel, and within a channel its members in order. */
  function BlockTurns(reg: Registry, line: int, channels: seq<int>, packets: seq<seq<Byte>>): seq<Turn>
    requires |channels| == |packets|
  {
    if channels == [] then [] else
      var last := |channels| - 1;
      BlockTurns(reg, line, channels[..last], packets[..last])
      + TurnsOf(Members(reg, line, channels[last]), packets[last])
  }

  /** `package_seq` as a 16-bit signed value. */
  function Short(x: int): int {
    (x + 0x8000) % 0x1_0000 - 0x8000
  }

  /** One `package_seq++` with its reset. */
  function NextSeq(x: int): int {
    if Short(x) == -1 then 1 else x + 1
  }

  function SeqAfter(x: int, pushes: nat): int {
    if pushes == 0 then x else NextSeq(SeqAfter(x, pushes - 1))
  }

  // ---------------------------------------------------------------- control messages

  const CLOCK := 0x1_0000_0000_0000_0000

  predicate Controllable(r: SpeakerRec) {
    r.dport != 0 && r.online
  }

  /** The answer to a time request; the offset is an unsigned 64-bit difference. */
  function TimeReply(recs: map<int, SpeakerRec>, id: int, now: nat): seq<Message> {
    if id in recs && Controllable(recs[id])
    then [Time(id, now, (now - recs[id].connTime) % CLOCK)] else []
  }

  function SampleIf(r: SpeakerRec, id: int, rate: int, bits: int): seq<Message> {
    if Controllable(r) then [Sample(id, r.channel, rate, bits)] else []
  }

  function FormatLog(recs: map<int, SpeakerRec>, ids: seq<int>, rate: int, bits: int): seq<Message>
    requires Known(recs, ids)
  {
    if ids == [] then [] else
      var last := |ids| - 1;
      FormatLog(recs, ids[..last], rate, bits) + SampleIf(recs[ids[last]], ids[last], rate, bits)
  }

  // ---------------------------------------------------------------- detection

  predicate MaskIsSet(mask: int, bit: nat) {
    mask / Power2(bit) % 2 == 1
  }

  function Power2(n: nat): (r: nat)
    ensures r > 0
  {
    if n == 0 then 1 else 2 * Power2(n - 1)
  }

  predicate Supports(cfg: Config, req: Request) {
    MaskIsSet(req.bitsMask, cfg.bits) && MaskIsSet(req.rateMask, cfg.rate)
  }

  predicate GoodMasks(req: Request) {
    req.bitsMask > 0 && req.rateMask > 0
  }

  /** What the surroundings decide while one datagram is handled. */
  datatype Env = Env(addOk: bool, socketFd: int, pushFd: int, now: nat)

  /** A known speaker announces itself again. */
  function Announced(cfg: Config, r: SpeakerRec, req: Request): SpeakerRec {
    r.(supported := Supports(cfg, req), online := true, timeout := cfg.refresh)
  }

  /** A speaker announces itself for the first time. */
  function FirstRec(cfg: Config, req: Request, env: Env): SpeakerRec {
    var r := Announced(cfg, cfg.blank.(line := cfg.line, channel := cfg.channel,
                                       addr := req.addr, dport := req.dport), req);
    if r.supported
    then r.(fd := if env.socketFd < 0 then env.pushFd else env.socketFd, connTime := env.now)
    else r
  }

  /** A new entry: filed under its id, at the end of the order and of its channel's list. */
  function AddRec(reg: Registry, line: int, channel: int, id: int, r: SpeakerRec): Registry {
    Registry(reg.recs[id := r], reg.order + [id],
             reg.lists[(line, channel) := Members(reg, line, channel) + [id]])
  }

  lemma AddStaysConsistent(before: Registry, line: int, channel: int, id: int, r: SpeakerRec)
    requires Consistent(before) && id !in before.recs
    ensures Consistent(AddRec(before, line, channel, id, r))
  {
    var after := AddRec(before, line, channel, id, r);
    forall other | other in after.recs
      ensures other in after.order
    {
      if other == id {
        assert after.order[|before.order|] == id;
      } else {
        assert other in before.order;
      }
    }
  }

  lemma AddThenFill(reg: Registry, line: int, channel: int, id: int, r: SpeakerRec, r': SpeakerRec)
    ensures var added := AddRec(reg, line, channel, id, r);
            added.(recs := added.recs[id := r']) == AddRec(reg, line, channel, id, r')
  {
    assert reg.recs[id := r][id := r'] == reg.recs[id := r'];
  }

  /** The outcome of handling an announcement: table, datagrams, return code. */
  datatype Outcome = Outcome(reg: Registry, log: seq<Message>, code: int)

  function OnAnnouncement(cfg: Config, reg: Registry, req: Request, env: Env): Outcome {
    if !GoodMasks(req) then Outcome(reg, [], 1)
    else if req.id in reg.recs then
      Outcome(reg.(recs := reg.recs[req.id := Announced(cfg, reg.recs[req.id], req)]), [], 0)
    else if !env.addOk then Outcome(reg, [], -1)
    else
      var r := FirstRec(cfg, req, env);
      Outcome(AddRec(reg, cfg.line, cfg.channel, req.id, r),
              if r.supported then SampleIf(r, req.id, cfg.rate, cfg.bits) else [],
              if r.supported then 0 else -1)
  }

  /** An announcement must come from the address it names; a good one is answered with kind 0. */
  function OnDecoded(cfg: Config, reg: Registry, src: Addr, req: Request, env: Env): Outcome {
    if req.addr != src then Outcome(reg, [], -1)
    else
      var out := OnAnnouncement(cfg, reg, req, env);
      if out.code != 0 then out.(code := -1)
      else out.(log := out.log + [ServerInfo(req.addr, 0)])
  }

  /** A datagram on the detection socket: another server's probe, an announcement, or noise. */
  function OnDatagram(cfg: Config, reg: Registry, src: Addr, package: seq<Byte>, env: Env): Outcome {
    if package == MUTEX_TAG then Outcome(reg, [MutexAnswer(src, MUTEX_RSP)], 0)
    else if |package| == cfg.requestSize then OnDecoded(cfg, reg, src, cfg.decode(package), env)
    else Outcome(reg, [], -1)
  }

  /** The 18 characters `castspeaker server`. */
  const MUTEX_TAG: seq<Byte> := [99, 97, 115, 116, 115, 112, 101, 97, 107, 101, 114, 32, 115, 101, 114, 118, 101, 114]

  /** The 18 characters `hey, kill yourself`. */
  const MUTEX_RSP: seq<Byte> := [104, 101, 121, 44, 32, 107, 105, 108, 108, 32, 121, 111, 117, 114, 115, 101, 108, 102]

  /** One visit of the periodic sweep. */
  function SweepRec(r: SpeakerRec): SpeakerRec {
    r.(timeout := r.timeout - 1, online := r.online && r.timeout > 0)
  }

  /** Whoever has no timeout left is disconnected when visited. */
  function VisitCloses(r: SpeakerRec, readFd: int): seq<int> {
    if r.timeout <= 0 then Disconnected(r, readFd) else []
  }

  /** What visiting the first `n` of `ids` closes. */
  function SweepCloses(recs: map<int, SpeakerRec>, ids: seq<int>, n: nat, readFd: int): seq<int>
    requires Known(recs, ids) && n <= |ids|
  {
    if n == 0 then [] else
      SweepCloses(recs, ids, n - 1, readFd) + VisitCloses(recs[ids[n - 1]], readFd)
  }

  lemma SweepClosesNext(recs: map<int, SpeakerRec>, ids: seq<int>, n: nat, readFd: int)
    requires Known(recs, ids) && n < |ids|
    ensures SweepCloses(recs, ids, n + 1, readFd) == SweepCloses(recs, ids, n, readFd) + VisitCloses(recs[ids[n]], readFd)
  {
  }

  /** One visit, as a change of the table; the sweep visits listed speakers only. */
  function VisitOne(reg: Registry, id: int): Registry {
    if id in reg.recs then reg.(recs := reg.recs[id := SweepRec(reg.recs[id])]) else reg
  }

  /** A whole pass. */
  function Sweep(reg: Registry): Registry {
    reg.(recs := map id | id in reg.recs :: SweepRec(reg.recs[id]))
  }
}
