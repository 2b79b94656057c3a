/** Audio push: de-interleave a block into the shared packet buffer, channel by channel, and fan out. */
module SpeakerPusher {
  import opened Arithmetic
  import opened Bytes
  import opened FanOut
  import opened Interleaving
  import opened Registry
  import opened SpeakerTable

  const BUFFER_SIZE := 1500

  /** How much of `len` pushed bytes ends up in each of `n` channels' packets. */
  function FreshSize(len: nat, n: nat): nat
    requires n > 0
  {
    len / n
  }

  /** One packet per channel: header, the channel's bytes, and `tail`, which is whatever was there. */
  function Packets(header: seq<Byte>, s: seq<Byte>, n: nat, b: nat, tail: seq<Byte>): (r: seq<seq<Byte>>)
    requires b > 0
    ensures |r| == n
  {
    seq(n, i requires 0 <= i < n => header + Channel(s, n, b, i) + tail)
  }

  /** The turns of one block pushed on `line`. */
  function PushTurns(reg: Registry, line: int, channels: seq<int>, header: seq<Byte>,
                     s: seq<Byte>, b: nat, tail: seq<Byte>): seq<Turn>
    requires b > 0
  {
    BlockTurns(reg, line, channels, Packets(header, s, |channels|, b, tail))
  }

  lemma KnownMembers(recs: map<int, SpeakerRec>, ids: seq<int>, packet: seq<Byte>)
    requires Known(recs, ids)
    ensures KnownTurns(recs, TurnsOf(ids, packet))
  {
  }

  lemma SliceOfSlice(t: seq<Byte>, lo: nat, hi: nat, i: nat, j: nat)
    requires i <= j <= hi - lo && lo <= hi <= |t|
    ensures t[lo..hi][i..j] == t[lo + i..lo + j]
  {
    var u, v := t[lo..hi][i..j], t[lo + i..lo + j];
    forall k | 0 <= k < |u|
      ensures u[k] == v[k]
    {
      assert u[k] == t[lo..hi][i + k] == t[lo + (i + k)];
    }
  }

  lemma TurnAt(ids: seq<int>, packet: seq<Byte>, i: nat)
    requires i < |ids|
    ensures TurnsOf(ids, packet)[i] == Turn(ids[i], packet)
  {
  }

  method BitsCpy(dst: array<Byte>, d: nat, src: array<Byte>, s: nat, bits: nat)
    requires dst != src && d + bits <= dst.Length && s + bits <= src.Length
    modifies dst
    ensures dst[..d + bits] == old(dst[..d]) + src[s..s + bits]
    ensures dst[d + bits..] == old(dst[d + bits..])
  {
    forall k | 0 <= k < bits {
      dst[d + k] := src[s + k];
    }
  }

  class Pusher {
    const table: Table
    const out: Outbox
    /** `pcm_head`, encoded; its length is the header size. */
    const header: seq<Byte>
    const channelBuffer: array<Byte>
    var packageSeq: int
    /** The descriptor of the push connection, used where no socket can be opened. */
    var readFd: int

    ghost predicate Valid()
      reads this, table, table.byId.Values
    {
      && table.Valid()
      && channelBuffer.Length == BUFFER_SIZE && |header| < BUFFER_SIZE
      && 1 <= packageSeq <= 0xFFFF
    }

    constructor (table: Table, out: Outbox, header: seq<Byte>, readFd: int)
      requires table.Valid() && |header| < BUFFER_SIZE
      ensures Valid() && this.table == table && this.out == out && this.header == header
      ensures packageSeq == 1 && this.readFd == readFd && fresh(channelBuffer)
    {
      this.table, this.out, this.header, this.readFd := table, out, header, readFd;
      packageSeq := 1;
      channelBuffer := new Byte[BUFFER_SIZE](_ => 0);
    }

    /** `connected` is the result of the final `connect`. */
    method Connect(sp: Speaker, socketFd: int, connected: bool) returns (ok: bool)
      modifies sp
      ensures ok == (old(sp.supported && sp.online) && connected)
      ensures sp.Rec() == if old(sp.supported && sp.online)
                          then old(sp.Rec()).(fd := if socketFd < 0 then readFd else socketFd)
                          else old(sp.Rec())
    {
      if !sp.supported {
        return false;
      }
      if !sp.online {
        return false;
      }
      sp.fd := socketFd;
      if sp.fd < 0 {
        sp.fd := readFd;
      }
      return connected;
    }

    method EncodeHeader(buf: array<Byte>)
      requires |header| <= buf.Length
      modifies buf
      ensures buf[..] == header + old(buf[|header|..])
    {
      forall k | 0 <= k < |header| {
        buf[k] := header[k];
      }
    }

    /** The descriptor is shut down and closed, but stays with the speaker. */
    method Disconnect(sp: Speaker)
      modifies out`closed
      ensures out.closed == old(out.closed) + Disconnected(sp.Rec(), readFd)
    {
      if sp.fd < 0 || sp.fd == readFd {
        return;
      }
      out.Close(sp.fd);
    }

    /** The send gate. */
    method SendToSpeaker(sp: Speaker, package: array<Byte>, len: nat) returns (r: int)
      requires len <= package.Length
      modifies sp, out
      ensures r == if Passes(old(sp.Rec())) then 0 else 1
      ensures sp.Rec() == GateRec(table.cfg, old(sp.Rec()))
      ensures out.sent == old(out.sent) + AudioIf(old(sp.Rec()), Turn(sp.id, package[..len]))
      ensures out.closed == old(out.closed) + GateCloses(old(sp.Rec()), readFd)
    {
      if sp.dport == 0 || !sp.online || sp.fd <= 0 {
        table.CheckOnline(sp, false);
        Disconnect(sp);
        return 1;
      }
      if !sp.supported {
        Disconnect(sp);
        return 1;
      }
      out.Send(Audio(sp.id, package[..len]));
      return 0;
    }

    method SendTo(id: int, package: array<Byte>, len: nat)
      requires table.Valid() && id in table.byId && len <= package.Length
      modifies out, table.byId.Values
      ensures table.Valid() && unchanged(table)
      ensures table.State() == old(table.State()).(recs :=
                old(table.State().recs)[id := GateRec(table.cfg, old(table.State().recs[id]))])
      ensures out.sent == old(out.sent) + AudioIf(old(table.State().recs[id]), Turn(id, package[..len]))
    {
      ghost var before := table.State();
      var _ := SendToSpeaker(table.byId[id], package, len);
      hide GateRec, AudioIf;
      forall other | other in table.byId && other != id
        ensures table.byId[other].Rec() == before.recs[other]
      {
        assert table.byId[other] != table.byId[id];
      }
      Refile(table, before, id);
    }

    /** One round of the fan-out loop: encode the header, then try one speaker. */
    method TakeTurn(id: int, buf: array<Byte>, len: nat)
      requires table.Valid() && id in table.byId && |header| <= len <= buf.Length
      modifies buf, out, table.byId.Values
      ensures table.Valid() && unchanged(table)
      ensures buf[|header|..] == old(buf[|header|..])
      ensures table.State() == old(table.State()).(recs :=
                old(table.State().recs)[id := GateRec(table.cfg, old(table.State().recs[id]))])
      ensures out.sent == old(out.sent)
                + AudioIf(old(table.State().recs[id]), Turn(id, header + old(buf[|header|..len])))
    {
      hide GateRec, AudioIf;
      EncodeHeader(buf);
      assert buf[..len] == header + old(buf[|header|..len]);
      SendTo(id, buf, len);
    }

    /** All of `turns` have been taken since the table was `recs` and the log `sent`. */
    ghost predicate Taken(recs: map<int, SpeakerRec>, sent: seq<Message>, turns: seq<Turn>)
      reads table, table.byId.Values, out
    {
      && table.Valid()
      && KnownTurns(recs, turns)
      && table.State().recs == FanOutRecs(table.cfg, recs, turns)
      && out.sent == sent + FanOutLog(table.cfg, recs, turns)
    }

    lemma NothingTaken()
      requires table.Valid()
      ensures Taken(table.State().recs, out.sent, [])
    {
    }

    /** Turns taken on top of turns taken. */
    lemma TakenOnTop(recs: map<int, SpeakerRec>, sent: seq<Message>, before: seq<Turn>,
                     mid: map<int, SpeakerRec>, midSent: seq<Message>, turns: seq<Turn>)
      requires KnownTurns(recs, before) && mid == FanOutRecs(table.cfg, recs, before)
      requires midSent == sent + FanOutLog(table.cfg, recs, before)
      requires Taken(mid, midSent, turns)
      ensures Taken(recs, sent, before + turns)
    {
      FanOutAppend(table.cfg, recs, before, turns);
      ConcatAssoc(sent, FanOutLog(table.cfg, recs, before), FanOutLog(table.cfg, mid, turns));
    }

    method NextMember(id: int, buf: array<Byte>, len: nat,
                      ghost recs: map<int, SpeakerRec>, ghost sent: seq<Message>, ghost turns: seq<Turn>, ghost i: nat)
      requires |header| <= len <= buf.Length
      requires KnownTurns(recs, turns) && i < |turns| && turns[i] == Turn(id, header + buf[|header|..len])
      requires Taken(recs, sent, turns[..i])
      modifies buf, out, table.byId.Values
      ensures Taken(recs, sent, turns[..i + 1]) && unchanged(table)
      ensures buf[|header|..] == old(buf[|header|..])
    {
      hide FanOutRecs, FanOutLog, Consistent, GateRec, AudioIf;
      NextTurn(table.cfg, recs, turns, i);
      ConcatAssoc(sent, FanOutLog(table.cfg, recs, turns[..i]), AudioIf(table.State().recs[id], turns[i]));
      TakeTurn(id, buf, len);
    }

    method TryAll(list: seq<int>, buf: array<Byte>, len: nat, ghost turns: seq<Turn>)
      requires table.Valid() && Known(table.State().recs, list) && |header| <= len <= buf.Length
      requires turns == TurnsOf(list, header + buf[|header|..len])
      modifies buf, out, table.byId.Values
      ensures Taken(old(table.State().recs), old(out.sent), turns) && unchanged(table)
      ensures buf[|header|..] == old(buf[|header|..])
    {
      ghost var recs, sent := table.State().recs, out.sent;
      KnownMembers(recs, list, header + buf[|header|..len]);
      NothingTaken();
      hide *;
      assert turns[..0] == [];
      TryLoop(list, buf, len, recs, sent, turns);
    }

    method TryLoop(list: seq<int>, buf: array<Byte>, len: nat,
                   ghost recs: map<int, SpeakerRec>, ghost sent: seq<Message>, ghost turns: seq<Turn>)
      requires |header| <= len <= buf.Length && KnownTurns(recs, turns)
      requires turns == TurnsOf(list, header + buf[|header|..len])
      requires Taken(recs, sent, turns[..0])
      modifies buf, out, table.byId.Values
      ensures Taken(recs, sent, turns) && unchanged(table)
      ensures buf[|header|..] == old(buf[|header|..])
    {
      hide *;
      ghost var payload, packet := buf[|header|..], header + buf[|header|..len];
      var i := 0;
      while i < |list|
        invariant 0 <= i <= |list|
        invariant Taken(recs, sent, turns[..i]) && unchanged(table)
        invariant buf[|header|..] == payload
      {
        TurnAt(list, packet, i);
        assert buf[|header|..len] == payload[..len - |header|];
        NextMember(list[i], buf, len, recs, sent, turns, i);
        i := i + 1;
      }
      assert turns[..i] == turns;
    }

    method BumpSequence()
      requires 1 <= packageSeq <= 0xFFFF
      modifies this`packageSeq
      ensures packageSeq == NextSeq(old(packageSeq)) && 1 <= packageSeq <= 0xFFFF
    {
      NextSeqInRange(packageSeq);
      var was := packageSeq;
      packageSeq := packageSeq + 1;
      if Short(was) == -1 {
        packageSeq := 1;
      }
    }

    /** Send the first `len` bytes of `buf`, under a new header, to every member of a channel. */
    method PushChannel(line: int, ch: int, buf: array<Byte>, len: nat, ghost turns: seq<Turn>) returns (r: int)
      requires Valid() && |header| <= len <= buf.Length
      requires turns == TurnsOf(Members(table.State(), line, ch), header + buf[|header|..len])
      modifies this`packageSeq, buf, out, table.byId.Values
      ensures Valid() && unchanged(table)
      ensures r == if (line, ch) in table.lists then 0 else 1
      ensures packageSeq == NextSeq(old(packageSeq))
      ensures buf[|header|..] == old(buf[|header|..])
      ensures Taken(old(table.State().recs), old(out.sent), turns)
    {
      BumpSequence();
      if (line, ch) !in table.lists {
        assert turns == [];
        return 1;
      }
      hide FanOutRecs, FanOutLog, KnownTurns, Taken;
      TryAll(table.lists[(line, ch)], buf, len, turns);
      return 0;
    }

    /** The strided inner loop: from `off` on, `bits` bytes out of every `step`. */
    method CopyStrided(samples: array<Byte>, start: nat, len: nat, step: nat, off: nat, bits: nat,
                       ghost all: seq<Byte>)
      requires samples != channelBuffer && start + len <= samples.Length
      requires bits > 0 && off + bits <= step && Whole(len, step)
      requires all == Strided(samples[start..start + len], step, off, bits)
      requires |header| + |all| <= channelBuffer.Length
      modifies channelBuffer
      ensures channelBuffer[..|header| + |all|] == old(channelBuffer[..|header|]) + all
      ensures channelBuffer[|header| + |all|..] == old(channelBuffer[|header| + |all|..])
    {
      ghost var s := samples[start..start + len];
      ghost var front, back := channelBuffer[..|header|], channelBuffer[|header| + |all|..];
      var src, dst, end := start + off, |header|, start + len - bits;
      ghost var base, copied := 0, [];
      CopyingStarts(s, step, off, bits, all);
      hide Copying;
      while src <= end
        invariant 0 <= base && src == start + off + base && dst == |header| + |copied|
        invariant Copying(s, step, off, bits, all, base, copied)
        invariant channelBuffer[..dst] == front + copied
        invariant channelBuffer[|header| + |all|..] == back
        decreases start + len - src
      {
        CopyNext(samples, start, len, step, off, bits, src, dst, all, base, front, copied, back);
        copied := copied + samples[src..src + bits];
        dst := dst + bits;
        src := src + step;
        base := base + step;
      }
      CopyingEnds(s, step, off, bits, all, base, copied);
    }

    /** The samples of channel `i`, packed behind the header: `m` bytes. */
    method CopyChannel(samples: array<Byte>, start: nat, len: nat, n: nat, bits: nat, i: nat, ghost m: nat)
      requires samples != channelBuffer && start + len <= samples.Length && i < n
      requires WholeFrames(samples[start..start + len], n, bits)
      requires m == |Channel(samples[start..start + len], n, bits, i)|
      requires |header| + m <= channelBuffer.Length
      modifies channelBuffer
      ensures channelBuffer[..|header| + m]
           == old(channelBuffer[..|header|]) + Channel(samples[start..start + len], n, bits, i)
      ensures channelBuffer[|header| + m..] == old(channelBuffer[|header| + m..])
    {
      ChannelFits(samples[start..start + len], n, bits, i);
      CopyStrided(samples, start, len, bits * n, i * bits, bits, Channel(samples[start..start + len], n, bits, i));
    }

    method CopyNext(samples: array<Byte>, start: nat, len: nat, step: nat, off: nat, bits: nat,
                    src: nat, dst: nat, ghost all: seq<Byte>, ghost base: nat,
                    ghost front: seq<Byte>, ghost copied: seq<Byte>, ghost back: seq<Byte>)
      requires samples != channelBuffer && start + len <= samples.Length
      requires Copying(samples[start..start + len], step, off, bits, all, base, copied)
      requires src == start + off + base && src + bits <= start + len
      requires dst == |header| + |copied| && |header| + |all| + |back| == channelBuffer.Length
      requires channelBuffer[..dst] == front + copied
      requires channelBuffer[|header| + |all|..] == back
      modifies channelBuffer
      ensures 0 < step && base + step <= len && |copied| + bits <= |all|
      ensures Copying(samples[start..start + len], step, off, bits, all, base + step,
                      copied + samples[src..src + bits])
      ensures channelBuffer[..dst + bits] == front + (copied + samples[src..src + bits])
      ensures channelBuffer[|header| + |all|..] == back
    {
      ghost var s := samples[start..start + len];
      CopyingStep(s, step, off, bits, all, base, copied);
      hide *;
      SliceOfSlice(samples[..], start, start + len, base + off, base + off + bits);
      assert samples[..][start..start + len] == s;
      assert samples[src..src + bits] == s[base + off..base + off + bits];
      CopySample(samples, src, dst, bits, front, copied, back);
    }

    method CopySample(samples: array<Byte>, src: nat, dst: nat, bits: nat,
                      ghost front: seq<Byte>, ghost copied: seq<Byte>, ghost back: seq<Byte>)
      requires samples != channelBuffer && src + bits <= samples.Length
      requires dst + bits + |back| <= channelBuffer.Length
      requires channelBuffer[..dst] == front + copied
      requires channelBuffer[channelBuffer.Length - |back|..] == back
      modifies channelBuffer
      ensures channelBuffer[..dst + bits] == front + (copied + samples[src..src + bits])
      ensures channelBuffer[channelBuffer.Length - |back|..] == back
    {
      ghost var rest := channelBuffer[dst + bits..];
      var k := channelBuffer.Length - |back|;
      assert rest[k - (dst + bits)..] == back;
      BitsCpy(channelBuffer, dst, samples, src, bits);
      ConcatAssoc(front, copied, samples[src..src + bits]);
      assert channelBuffer[dst + bits..] == rest;
      assert channelBuffer[k..] == channelBuffer[dst + bits..][k - (dst + bits)..];
    }

    /** One round of the channel loop. */
    method CopyAndPush(line: int, samples: array<Byte>, start: nat, len: nat, ch: int, n: nat, bits: nat, i: nat,
                       ghost m: nat, ghost packet: seq<Byte>)
      requires Valid() && samples != channelBuffer && start + len <= samples.Length && i < n
      requires WholeFrames(samples[start..start + len], n, bits)
      requires m == |Channel(samples[start..start + len], n, bits, i)| <= len && |header| + len < BUFFER_SIZE
      requires packet == header + Channel(samples[start..start + len], n, bits, i)
                         + channelBuffer[|header| + m..|header| + len]
      modifies this`packageSeq, channelBuffer, out, table.byId.Values
      ensures Valid() && unchanged(table)
      ensures packageSeq == NextSeq(old(packageSeq))
      ensures channelBuffer[|header| + m..] == old(channelBuffer[|header| + m..])
      ensures Taken(old(table.State().recs), old(out.sent),
                    TurnsOf(Members(old(table.State()), line, ch), packet))
    {
      ghost var own := Channel(samples[start..start + len], n, bits, i);
      ghost var ids, back := Members(table.State(), line, ch), channelBuffer[|header| + m..];
      assert packet == header + own + back[..len - m];
      hide *;
      CopyChannel(samples, start, len, n, bits, i, m);
      ghost var payload := channelBuffer[|header|..];
      FreshThenBack(channelBuffer[..], header, own, back, len);
      var _ := PushChannel(line, ch, channelBuffer, len + |header|, TurnsOf(ids, packet));
      assert channelBuffer[|header| + m..] == payload[m..];
    }

    lemma FreshThenBack(buf: seq<Byte>, head: seq<Byte>, own: seq<Byte>, back: seq<Byte>, len: nat)
      requires |head| + |own| <= |buf| && |own| <= len && |head| + len <= |buf|
      requires buf[..|head| + |own|][|head|..] == own && buf[|head| + |own|..] == back
      ensures head + own + back[..len - |own|] == head + buf[|head|..|head| + len]
    {
      assert buf[|head|..|head| + len] == buf[|head|..|head| + |own|] + buf[|head| + |own|..|head| + len];
      ConcatAssoc(head, own, back[..len - |own|]);
    }

    method PushOne(line: int, samples: array<Byte>, start: nat, len: nat, ch: int, n: nat, bits: nat, i: nat,
                   ghost m: nat, ghost packet: seq<Byte>,
                   ghost recs: map<int, SpeakerRec>, ghost sent: seq<Message>, ghost before: seq<Turn>)
      requires Valid() && samples != channelBuffer && start + len <= samples.Length && i < n
      requires WholeFrames(samples[start..start + len], n, bits)
      requires m == |Channel(samples[start..start + len], n, bits, i)| <= len && |header| + len < BUFFER_SIZE
      requires packet == header + Channel(samples[start..start + len], n, bits, i)
                         + channelBuffer[|header| + m..|header| + len]
      requires Taken(recs, sent, before)
      modifies this`packageSeq, channelBuffer, out, table.byId.Values
      ensures Valid() && unchanged(table)
      ensures packageSeq == NextSeq(old(packageSeq))
      ensures channelBuffer[|header| + m..] == old(channelBuffer[|header| + m..])
      ensures Taken(recs, sent, before + TurnsOf(Members(old(table.State()), line, ch), packet))
    {
      ghost var mid, midSent := table.State().recs, out.sent;
      ghost var turns := TurnsOf(Members(table.State(), line, ch), packet);
      assert KnownTurns(recs, before) && mid == FanOutRecs(table.cfg, recs, before);
      assert midSent == sent + FanOutLog(table.cfg, recs, before);
      hide *;
      CopyAndPush(line, samples, start, len, ch, n, bits, i, m, packet);
      TakenOnTop(recs, sent, before, mid, midSent, turns);
    }

    method NextChannel(line: int, samples: array<Byte>, start: nat, len: nat, channels: seq<int>, bits: nat, i: nat,
                       ghost m: nat, ghost packets: seq<seq<Byte>>,
                       ghost reg: Registry, ghost sent: seq<Message>, ghost back: seq<Byte>)
      requires Valid() && samples != channelBuffer && start + len <= samples.Length && i < |channels|
      requires WholeFrames(samples[start..start + len], |channels|, bits)
      requires m == FreshSize(len, |channels|) <= len && |header| + len < BUFFER_SIZE
      requires channelBuffer[|header| + m..] == back
      requires packets == Packets(header, samples[start..start + len], |channels|, bits, back[..len - m])
      requires table.State() == reg.(recs := table.State().recs)
      requires Taken(reg.recs, sent, BlockTurns(reg, line, channels[..i], packets[..i]))
      modifies this`packageSeq, channelBuffer, out, table.byId.Values
      ensures Valid() && unchanged(table)
      ensures packageSeq == NextSeq(old(packageSeq))
      ensures channelBuffer[|header| + m..] == back
      ensures table.State() == reg.(recs := table.State().recs)
      ensures Taken(reg.recs, sent, BlockTurns(reg, line, channels[..i + 1], packets[..i + 1]))
    {
      ghost var s := samples[start..start + len];
      ChannelFits(s, |channels|, bits, i);
      assert packets[i] == header + Channel(s, |channels|, bits, i) + back[..len - m];
      MembersByLists(table.State(), reg, line, channels[i]);
      BlockTurnsNext(reg, line, channels, packets, i);
      assert table.order == reg.order && table.lists == reg.lists;
      assert s == samples[start..start + len] && m == |Channel(s, |channels|, bits, i)|;
      hide *;
      assert channelBuffer[|header| + m..|header| + len] == back[..len - m];
      PushOne(line, samples, start, len, channels[i], |channels|, bits, i, m, packets[i],
              reg.recs, sent, BlockTurns(reg, line, channels[..i], packets[..i]));
      SameShape(reg);
    }

    lemma SameShape(reg: Registry)
      requires table.order == reg.order && table.lists == reg.lists
      ensures table.State() == reg.(recs := table.State().recs)
    {
    }

    /**
     Push one block. The requires are the assertions at the head of the function in C: whole
     frames (`WholeIff` says this is divisibility), and room in the buffer, from which the third,
     on the payload size, follows.
     */
    method Push(line: int, samples: array<Byte>, start: nat, len: nat, channels: seq<int>, bits: nat)
      requires Valid() && samples != channelBuffer && start + len <= samples.Length
      requires WholeFrames(samples[start..start + len], |channels|, bits) && |header| + len < BUFFER_SIZE
      modifies this`packageSeq, channelBuffer, out, table.byId.Values
      ensures Valid() && unchanged(table)
      ensures packageSeq == SeqAfter(old(packageSeq), |channels|)
      ensures FreshSize(len, |channels|) <= len
      ensures channelBuffer[|header| + FreshSize(len, |channels|)..]
           == old(channelBuffer[|header| + FreshSize(len, |channels|)..])
      ensures Taken(old(table.State().recs), old(out.sent),
                    PushTurns(old(table.State()), line, channels, header, old(samples[start..start + len]), bits,
                              old(channelBuffer[|header| + FreshSize(len, |channels|)..|header| + len])))
    {
      ghost var s := samples[start..start + len];
      ChannelFits(s, |channels|, bits, 0);
      ghost var m := FreshSize(len, |channels|);
      ghost var tail := channelBuffer[|header| + m..|header| + len];
      ghost var packets := Packets(header, s, |channels|, bits, tail);
      assert PushTurns(table.State(), line, channels, header, s, bits, tail)
          == BlockTurns(table.State(), line, channels, packets);
      hide *;
      SliceOfSlice(channelBuffer[..], |header| + m, channelBuffer.Length, 0, len - m);
      assert channelBuffer[|header| + m..][..len - m] == tail;
      PushAll(line, samples, start, len, channels, bits, m, packets);
    }

    method PushAll(line: int, samples: array<Byte>, start: nat, len: nat, channels: seq<int>, bits: nat,
                   ghost m: nat, ghost packets: seq<seq<Byte>>)
      requires Valid() && samples != channelBuffer && start + len <= samples.Length
      requires WholeFrames(samples[start..start + len], |channels|, bits)
      requires m == FreshSize(len, |channels|) <= len && |header| + len < BUFFER_SIZE
      requires packets == Packets(header, samples[start..start + len], |channels|, bits,
                                  channelBuffer[|header| + m..][..len - m])
      modifies this`packageSeq, channelBuffer, out, table.byId.Values
      ensures Valid() && unchanged(table)
      ensures packageSeq == SeqAfter(old(packageSeq), |channels|)
      ensures channelBuffer[|header| + m..] == old(channelBuffer[|header| + m..])
      ensures Taken(old(table.State().recs), old(out.sent),
                    BlockTurns(old(table.State()), line, channels, packets))
    {
      ghost var s := samples[start..start + len];
      ghost var reg, sent, back := table.State(), out.sent, channelBuffer[|header| + m..];
      assert Taken(reg.recs, sent, BlockTurns(reg, line, channels[..0], packets[..0]));
      hide FanOutRecs, FanOutLog, KnownTurns, Consistent, Channel, WholeFrames, TurnsOf, Members;
      hide BlockTurns, Packets, FreshSize, Taken;
      var i := 0;
      while i < |channels|
        invariant 0 <= i <= |channels| && Valid() && unchanged(table)
        invariant table.State() == reg.(recs := table.State().recs)
        invariant packageSeq == SeqAfter(old(packageSeq), i)
        invariant channelBuffer[|header| + m..] == back
        invariant Taken(reg.recs, sent, BlockTurns(reg, line, channels[..i], packets[..i]))
      {
        NextChannel(line, samples, start, len, channels, bits, i, m, packets, reg, sent, back);
        i := i + 1;
      }
      assert channels[..i] == channels && packets[..i] == packets;
    }
  }

  lemma MembersByLists(reg: Registry, reg': Registry, line: int, ch: int)
    requires reg.lists == reg'.lists
    ensures Members(reg, line, ch) == Members(reg', line, ch)
  {
  }

  lemma BlockTurnsNext(reg: Registry, line: int, channels: seq<int>, packets: seq<seq<Byte>>, i: nat)
    requires |channels| == |packets| && i < |channels|
    ensures BlockTurns(reg, line, channels[..i + 1], packets[..i + 1])
         == BlockTurns(reg, line, channels[..i], packets[..i])
            + TurnsOf(Members(reg, line, channels[i]), packets[i])
  {
    assert channels[..i + 1][..i] == channels[..i] && packets[..i + 1][..i] == packets[..i];
  }

  lemma ChannelFits(s: seq<Byte>, n: nat, b: nat, i: nat)
    requires WholeFrames(s, n, b) && i < n
    ensures 0 <= i * b && i * b + b <= n * b == b * n
    ensures |Channel(s, n, b, i)| == FreshSize(|s|, n) <= |s|
    ensures Channel(s, n, b, i) == Strided(s, b * n, i * b, b)
  {
    SlotInFrame(n, b, i);
    assert n * b == b * n;
    assert Channel(s, n, b, i) == Strided(s, b * n, i * b, b);
    ChannelLength(s, n, b, i);
    hide *;
    var m := |Channel(s, n, b, i)|;
    MulMonotone(1, n, m);
  }

  /** Where the strided loop stands: the first `base` bytes are done, `copied` came out of them. */
  ghost predicate Copying(s: seq<Byte>, step: nat, off: nat, b: nat, all: seq<Byte>,
                          base: nat, copied: seq<Byte>)
  {
    && b > 0 && off + b <= step && base <= |s| && Whole(|s| - base, step)
    && all == copied + Strided(s[base..], step, off, b)
  }

  lemma CopyingStarts(s: seq<Byte>, step: nat, off: nat, b: nat, all: seq<Byte>)
    requires b > 0 && off + b <= step && Whole(|s|, step) && all == Strided(s, step, off, b)
    ensures Copying(s, step, off, b, all, 0, [])
  {
    assert s[0..] == s;
  }

  lemma CopyingStep(s: seq<Byte>, step: nat, off: nat, b: nat, all: seq<Byte>, base: nat, copied: seq<Byte>)
    requires Copying(s, step, off, b, all, base, copied) && base + off + b <= |s|
    ensures |copied| + b <= |all| && 0 < step
    ensures base + step <= |s|
    ensures Copying(s, step, off, b, all, base + step, copied + s[base + off..base + off + b])
  {
    var rest := s[base..];
    assert rest[step..] == s[base + step..] && rest[off..off + b] == s[base + off..base + off + b];
    ConcatAssoc(copied, rest[off..off + b], Strided(rest[step..], step, off, b));
  }

  lemma CopyingEnds(s: seq<Byte>, step: nat, off: nat, b: nat, all: seq<Byte>, base: nat, copied: seq<Byte>)
    requires Copying(s, step, off, b, all, base, copied) && base + off + b > |s|
    ensures copied == all
  {
    assert base == |s|;
  }
}
