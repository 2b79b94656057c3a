/** Commands to speakers: the sample format broadcast and the answers to time requests. */
module SpeakerControl {
  import opened Bytes
  import opened Registry
  import opened SpeakerTable

  /** A control package before it is addressed. */
  datatype Package = TimePackage(server: nat, offset: nat) | SamplePackage(channel: int, rate: int, bits: int)

  function Addressed(id: int, p: Package): Message {
    match p
    case TimePackage(server, offset) => Time(id, server, offset)
    case SamplePackage(channel, rate, bits) => Sample(id, channel, rate, bits)
  }

  class Control {
    const table: Table
    const out: Outbox
    /** The package encoded last; every send goes out of this one buffer. */
    var buffer: Package
    var channelList: seq<int>

    constructor (table: Table, out: Outbox)
      ensures this.table == table && this.out == out
    {
      this.table, this.out := table, out;
      buffer, channelList := SamplePackage(0, 0, 0), [];
    }

    /** Send the buffer to one speaker, if it can be reached. */
    method SendToSpeaker(sp: Speaker) returns (r: int)
      modifies out
      ensures r == if Controllable(sp.Rec()) then 0 else 1
      ensures out.sent == old(out.sent) + if Controllable(sp.Rec()) then [Addressed(sp.id, buffer)] else []
    {
      if sp.dport == 0 || !sp.online {
        return 1;
      }
      out.Send(Addressed(sp.id, buffer));
      return 0;
    }

    method Command(sp: Speaker, hd: Package) returns (r: int)
      modifies out, this`buffer
      ensures buffer == hd
      ensures r == if Controllable(sp.Rec()) then 0 else 1
      ensures out.sent == old(out.sent) + if Controllable(sp.Rec()) then [Addressed(sp.id, hd)] else []
    {
      buffer := hd;
      r := SendToSpeaker(sp);
    }

    /** A time request of speaker `spid`, served when the clock shows `now`. */
    method TimeRequest(spid: int, now: nat)
      requires table.Valid()
      modifies out, this`buffer
      ensures out.sent == old(out.sent) + TimeReply(table.State().recs, spid, now)
    {
      var sp := table.FindById(spid);
      if sp == null {
        return;
      }
      var offset := (now - sp.connTime) % CLOCK;
      var _ := Command(sp, TimePackage(now, offset));
    }

    method SetTime(sp: Speaker, now: nat)
      modifies sp
      ensures sp.Rec() == old(sp.Rec()).(connTime := now)
    {
      sp.connTime := now;
    }

    method TellFormat(s: Speaker, package: Package) returns (hd: Package)
      requires package.SamplePackage?
      modifies out, this`buffer
      ensures hd.SamplePackage? && hd.rate == package.rate && hd.bits == package.bits
      ensures out.sent == old(out.sent) + SampleIf(s.Rec(), s.id, package.rate, package.bits)
    {
      hd := package;
      if s.online {
        hd := hd.(channel := s.channel);
        var _ := Command(s, hd);
      }
    }

    method TellNext(i: nat, package: Package, ghost recs: map<int, SpeakerRec>, ghost sent: seq<Message>)
      returns (hd: Package)
      requires table.Valid() && recs == table.State().recs && i < |table.order| && package.SamplePackage?
      requires out.sent == sent + FormatLog(recs, table.order[..i], package.rate, package.bits)
      modifies out, this`buffer
      ensures hd.SamplePackage? && hd.rate == package.rate && hd.bits == package.bits
      ensures Known(recs, table.order[..i + 1])
      ensures out.sent == sent + FormatLog(recs, table.order[..i + 1], package.rate, package.bits)
    {
      FormatLogNext(recs, table.order, package.rate, package.bits, i, sent);
      hide FormatLog, SampleIf;
      hd := TellFormat(table.byId[table.order[i]], package);
    }

    /** Tell every online speaker the format; one package serves all, its channel rewritten each time. */
    method Format(rate: int, bits: int)
      requires table.Valid()
      modifies out, this`buffer
      ensures out.sent == old(out.sent) + FormatLog(table.State().recs, table.order, rate, bits)
    {
      ghost var sent, recs := out.sent, table.State().recs;
      var hd := SamplePackage(0, rate, bits);
      assert FormatLog(recs, table.order[..0], rate, bits) == [];
      assert Known(recs, table.order);
      hide *;
      var i := 0;
      while i < |table.order|
        invariant 0 <= i <= |table.order|
        invariant hd.SamplePackage? && hd.rate == rate && hd.bits == bits
        invariant Known(recs, table.order[..i])
        invariant out.sent == sent + FormatLog(recs, table.order[..i], rate, bits)
      {
        hd := TellNext(i, hd, recs, sent);
        i := i + 1;
      }
      assert table.order[..i] == table.order;
    }

    method SetFormat(list: seq<int>, rate: int, bits: int)
      requires table.Valid()
      modifies out, this`buffer, this`channelList
      ensures channelList == list
      ensures out.sent == old(out.sent) + FormatLog(table.State().recs, table.order, rate, bits)
    {
      channelList := list;
      Format(rate, bits);
    }
  }

  lemma FormatLogNext(recs: map<int, SpeakerRec>, ids: seq<int>, rate: int, bits: int, i: nat, sent: seq<Message>)
    requires Known(recs, ids) && i < |ids|
    ensures sent + FormatLog(recs, ids[..i + 1], rate, bits)
         == (sent + FormatLog(recs, ids[..i], rate, bits)) + SampleIf(recs[ids[i]], ids[i], rate, bits)
  {
    assert ids[..i + 1][..i] == ids[..i];
    ConcatAssoc(sent, FormatLog(recs, ids[..i], rate, bits), SampleIf(recs[ids[i]], ids[i], rate, bits));
  }

  // ---------------------------------------------------------------- who is told what

  /** The format commands sent to one speaker. */
  function SamplesTo(log: seq<Message>, id: int): seq<Message> {
    if log == [] then [] else
      var last := |log| - 1;
      SamplesTo(log[..last], id) + if log[last].Sample? && log[last].to == id then [log[last]] else []
  }

  ghost predicate OnlySamples(log: seq<Message>) {
    forall k | 0 <= k < |log| :: log[k].Sample?
  }

  lemma SamplesToSnoc(log: seq<Message>, r: SpeakerRec, last: int, rate: int, bits: int, id: int)
    ensures SamplesTo(log + SampleIf(r, last, rate, bits), id)
         == SamplesTo(log, id) + if last == id then SampleIf(r, last, rate, bits) else []
    ensures OnlySamples(log) ==> OnlySamples(log + SampleIf(r, last, rate, bits))
  {
    if Controllable(r) {
      assert (log + SampleIf(r, last, rate, bits))[..|log|] == log;
    } else {
      assert log + SampleIf(r, last, rate, bits) == log;
    }
  }

  /** One command to each online speaker with a port, carrying its own channel; none to others. */
  lemma {:induction false} FormatExact(recs: map<int, SpeakerRec>, ids: seq<int>, rate: int, bits: int, id: int)
    requires Known(recs, ids) && NoDuplicates(ids)
    ensures OnlySamples(FormatLog(recs, ids, rate, bits))
    ensures SamplesTo(FormatLog(recs, ids, rate, bits), id)
         == if id in ids && recs[id].online && recs[id].dport != 0
            then [Sample(id, recs[id].channel, rate, bits)] else []
    decreases |ids|
  {
    if ids != [] {
      var init, last := ids[..|ids| - 1], ids[|ids| - 1];
      FormatExact(recs, init, rate, bits, id);
      SamplesToSnoc(FormatLog(recs, init, rate, bits), recs[last], last, rate, bits, id);
      hide FormatLog, SamplesTo;
      assert ids == init + [last] && last !in init;
    }
  }

  /** Of `ids`, those online with a port, in their order. */
  function Told(recs: map<int, SpeakerRec>, ids: seq<int>): seq<int>
    requires Known(recs, ids)
  {
    if ids == [] then [] else
      var last := |ids| - 1;
      Told(recs, ids[..last]) + if recs[ids[last]].online && recs[ids[last]].dport != 0 then [ids[last]] else []
  }

  function Recipients(log: seq<Message>): (r: seq<int>)
    requires OnlySamples(log)
    ensures |r| == |log|
  {
    seq(|log|, k requires 0 <= k < |log| => log[k].to)
  }

  /** The commands go out in table order. */
  lemma {:induction false} FormatOrder(recs: map<int, SpeakerRec>, ids: seq<int>, rate: int, bits: int)
    requires Known(recs, ids)
    ensures OnlySamples(FormatLog(recs, ids, rate, bits))
    ensures Recipients(FormatLog(recs, ids, rate, bits)) == Told(recs, ids)
    decreases |ids|
  {
    if ids != [] {
      FormatOrder(recs, ids[..|ids| - 1], rate, bits);
    }
  }
}
