/**
 The table of speakers shared by detection, control and audio push, with speakers as objects
 updated in place, and the datagrams sent so far. `find_speaker_by_id`, `add_speaker` and
 `speaker_check_online` live in `common/`, which is not part of this model; they are given
 here as the map operations their callers rely on.
 */
module SpeakerTable {
  import opened Registry

  class Speaker {
    const id: int
    var line: int
    var channel: int
    var addr: Addr
    var dport: nat
    var supported: bool
    var online: bool
    var timeout: int
    var connTime: nat
    var fd: int

    function Rec(): SpeakerRec
      reads this
    {
      SpeakerRec(line, channel, addr, dport, supported, online, timeout, connTime, fd)
    }

    constructor (id: int, r: SpeakerRec)
      ensures this.id == id && Rec() == r
    {
      this.id := id;
      line, channel, addr, dport := r.line, r.channel, r.addr, r.dport;
      supported, online, timeout := r.supported, r.online, r.timeout;
      connTime, fd := r.connTime, r.fd;
    }
  }

  /** Everything handed to `sendto`, oldest first, and every descriptor shut down and closed. */
  class Outbox {
    var sent: seq<Message>
    var closed: seq<int>

    constructor ()
      ensures sent == [] && closed == []
    {
      sent, closed := [], [];
    }

    method Close(fd: int)
      modifies this`closed
      ensures closed == old(closed) + [fd]
    {
      closed := closed + [fd];
    }

    method Send(m: Message)
      modifies this`sent
      ensures sent == old(sent) + [m]
    {
      sent := sent + [m];
    }
  }

  class Table {
    const cfg: Config
    var byId: map<int, Speaker>
    var order: seq<int>
    var lists: map<(int, int), seq<int>>

    /** The table as a value. */
    ghost function State(): Registry
      reads this, byId.Values
    {
      Registry(map id | id in byId :: byId[id].Rec(), order, lists)
    }

    ghost predicate Valid()
      reads this, byId.Values
    {
      (forall id | id in byId :: byId[id].id == id) && Consistent(State())
    }

    constructor (cfg: Config)
      ensures Valid() && this.cfg == cfg && State() == Registry(map[], [], map[])
    {
      this.cfg := cfg;
      byId, order, lists := map[], [], map[];
    }

    method FindById(id: int) returns (sp: Speaker?)
      ensures sp == null <==> id !in byId
      ensures sp != null ==> sp == byId[id]
    {
      sp := if id in byId then byId[id] else null;
    }

    /** `ok` says whether the allocation inside succeeds. */
    method Add(id: int, line: int, channel: int, ok: bool) returns (sp: Speaker?)
      requires Valid() && id !in byId
      modifies this
      ensures Valid()
      ensures !ok ==> sp == null && byId == old(byId) && State() == old(State())
      ensures ok ==> sp != null && fresh(sp) && sp.id == id && byId == old(byId)[id := sp]
      ensures ok ==> sp.Rec() == cfg.blank.(line := line, channel := channel)
      ensures ok ==> State() == AddRec(old(State()), line, channel, id, sp.Rec())
    {
      if !ok {
        return null;
      }
      ghost var before := State();
      var s := new Speaker(id, cfg.blank.(line := line, channel := channel));
      var key := (line, channel);
      byId := byId[id := s];
      order := order + [id];
      lists := lists[key := (if key in lists then lists[key] else []) + [id]];
      AddStaysConsistent(before, line, channel, id, s.Rec());
      hide Consistent;
      Filed(this, before, line, channel, id);
      sp := s;
    }

    /** `announced` tells a call on an announcement from one by the push gate. */
    method CheckOnline(sp: Speaker, announced: bool)
      modifies sp
      ensures announced ==> sp.Rec() == old(sp.Rec()).(online := true, timeout := cfg.refresh)
      ensures !announced ==>
                var (online, timeout) := cfg.recheck(old(sp.online), old(sp.timeout));
                sp.Rec() == old(sp.Rec()).(online := online, timeout := timeout)
    {
      if announced {
        sp.online, sp.timeout := true, cfg.refresh;
      } else {
        var r := cfg.recheck(sp.online, sp.timeout);
        sp.online, sp.timeout := r.0, r.1;
      }
    }
  }

  /** A new object under a new id is a new entry of the table. */
  lemma Filed(t: Table, before: Registry, line: int, channel: int, id: int)
    requires id in t.byId && t.byId.Keys == before.recs.Keys + {id}
    requires t.order == before.order + [id]
    requires t.lists == before.lists[(line, channel) := Members(before, line, channel) + [id]]
    requires forall k | k in t.byId && k != id :: t.byId[k].Rec() == before.recs[k]
    ensures t.State() == AddRec(before, line, channel, id, t.byId[id].Rec())
  {
    assert t.State().recs == before.recs[id := t.byId[id].Rec()];
  }

  /** One speaker changed in place is one entry of the table changed. */
  lemma Refile(t: Table, before: Registry, id: int)
    requires Consistent(before) && id in before.recs
    requires t.byId.Keys == before.recs.Keys && t.order == before.order && t.lists == before.lists
    requires forall k | k in t.byId :: t.byId[k].id == k
    requires forall k | k in t.byId && k != id :: t.byId[k].Rec() == before.recs[k]
    ensures t.Valid() && t.State() == before.(recs := before.recs[id := t.byId[id].Rec()])
  {
    assert t.State().recs == before.recs[id := t.byId[id].Rec()];
  }
}
