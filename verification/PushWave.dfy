/**
 The server's wave command: cut the first block into chunks, carry the rest over to the front of
 a chunk-sized buffer, refill the buffer from the connection, push it after every read.
 */
module PushWave {
  import opened Arithmetic
  import opened Bytes
  import opened FanOut
  import opened Interleaving
  import opened Registry
  import opened SpeakerControl
  import opened SpeakerPusher
  import opened WaveProtocol

  /**
   What the codec and the configuration make of the payload of the first block: `headerSize` from
   `header_check` (0 is no wave), the chunk size, the format, and the channel list. These
   functions live in `common/`.
   */
  datatype WaveInfo = WaveInfo(headerSize: nat, chunk: nat, channels: nat, rate: nat, bits: nat, list: seq<int>)

  function SampleBytes(w: WaveInfo): nat {
    w.bits / 8
  }

  /** The length handed to every push: a chunk divided by the number of channels. */
  function PushLength(w: WaveInfo): nat
    requires w.channels > 0
  {
    w.chunk / w.channels
  }

  /** The bytes of it that end up in each packet. */
  function FreshLength(w: WaveInfo): nat
    requires w.channels > 0 && w.list != []
  {
    FreshSize(PushLength(w), |w.list|)
  }

  /** What `cmd_wave` and the assertions of the push it calls rely on. */
  ghost predicate Playable(w: WaveInfo, length: nat, header: seq<Byte>) {
    && 0 < w.headerSize <= length && w.chunk > 0 && w.channels > 0
    && Shape(|w.list|, SampleBytes(w), |w.list| * SampleBytes(w))
    && Whole(PushLength(w), |w.list| * SampleBytes(w))
    && PushLength(w) <= w.chunk && |header| + PushLength(w) < BUFFER_SIZE
  }

  // ---------------------------------------------------------------- the blocks that are pushed

  /** The whole chunks of the first block's payload. */
  function Pieces(s: seq<Byte>, chunk: nat): seq<seq<Byte>>
    requires chunk > 0
    decreases |s|
  {
    if |s| < chunk then [] else [s[..chunk]] + Pieces(s[chunk..], chunk)
  }

  /** What is left of it. */
  function Residue(s: seq<Byte>, chunk: nat): (r: seq<Byte>)
    requires chunk > 0
    ensures |r| < chunk
    decreases |s|
  {
    if |s| < chunk then s else Residue(s[chunk..], chunk)
  }

  function Overwrite(buf: seq<Byte>, at: nat, seg: seq<Byte>): (r: seq<Byte>)
    requires at + |seg| <= |buf|
    ensures |r| == |buf|
  {
    buf[..at] + seg + buf[at + |seg|..]
  }

  function Sizes(segs: seq<seq<Byte>>): (r: seq<nat>)
    ensures |r| == |segs|
  {
    seq(|segs|, j requires 0 <= j < |segs| => |segs[j]|)
  }

  /** The first segment goes behind the residue, all others to the front. */
  function PlaceOf(residue: nat, j: nat): nat {
    if j == 0 then residue else 0
  }

  ghost predicate Fitting(chunk: nat, residue: nat, segs: seq<seq<Byte>>) {
    residue < chunk && ValidReads(chunk, residue, Sizes(segs))
  }

  lemma FittingPrefix(chunk: nat, residue: nat, segs: seq<seq<Byte>>)
    requires Fitting(chunk, residue, segs) && segs != []
    ensures Fitting(chunk, residue, segs[..|segs| - 1])
    ensures 1 <= |segs[|segs| - 1]| && PlaceOf(residue, |segs| - 1) + |segs[|segs| - 1]| <= chunk
  {
    var last := |segs| - 1;
    assert Sizes(segs)[last] == |segs[last]|;
    var init := Sizes(segs[..last]);
    forall j | 0 <= j < |init|
      ensures 1 <= init[j] <= chunk - if j == 0 then residue else 0
    {
      assert init[j] == Sizes(segs)[j];
    }
  }

  /** The buffer after the segments received so far. */
  function BufferAfter(buf: seq<Byte>, residue: nat, segs: seq<seq<Byte>>): (r: seq<Byte>)
    requires Fitting(|buf|, residue, segs)
    ensures |r| == |buf|
    decreases |segs|
  {
    if segs == [] then buf else
      FittingPrefix(|buf|, residue, segs);
      var last := |segs| - 1;
      Overwrite(BufferAfter(buf, residue, segs[..last]), PlaceOf(residue, last), segs[last])
  }

  /** The buffers pushed, one per segment. */
  function Buffers(buf: seq<Byte>, residue: nat, segs: seq<seq<Byte>>): (r: seq<seq<Byte>>)
    requires Fitting(|buf|, residue, segs)
    ensures |r| == |segs|
    decreases |segs|
  {
    if segs == [] then [] else
      FittingPrefix(|buf|, residue, segs);
      Buffers(buf, residue, segs[..|segs| - 1]) + [BufferAfter(buf, residue, segs)]
  }

  /** One more segment: it lands in its window, and one more buffer is pushed. */
  lemma OneMoreSegment(buf: seq<Byte>, residue: nat, segs: seq<seq<Byte>>, seg: seq<Byte>)
    requires Fitting(|buf|, residue, segs) && 1 <= |seg| <= |buf| - PlaceOf(residue, |segs|)
    ensures Fitting(|buf|, residue, segs + [seg])
    ensures BufferAfter(buf, residue, segs + [seg])
         == Overwrite(BufferAfter(buf, residue, segs), PlaceOf(residue, |segs|), seg)
    ensures Buffers(buf, residue, segs + [seg])
         == Buffers(buf, residue, segs) + [BufferAfter(buf, residue, segs + [seg])]
  {
    var more := segs + [seg];
    assert more[..|segs|] == segs;
    var sizes := Sizes(more);
    forall j | 0 <= j < |sizes|
      ensures 1 <= sizes[j] <= |buf| - if j == 0 then residue else 0
    {
      if j < |segs| {
        assert sizes[j] == Sizes(segs)[j];
      }
    }
  }

  // ---------------------------------------------------------------- the turns of a whole run

  ghost predicate LongEnough(blocks: seq<seq<Byte>>, len: nat) {
    forall j | 0 <= j < |blocks| :: len <= |blocks[j]|
  }

  /** All turns of all pushed blocks; of each block only the first `len` bytes are de-interleaved. */
  function RunTurns(reg: Registry, line: int, list: seq<int>, header: seq<Byte>, blocks: seq<seq<Byte>>,
                    len: nat, b: nat, tail: seq<Byte>): seq<Turn>
    requires b > 0 && LongEnough(blocks, len)
    decreases |blocks|
  {
    if blocks == [] then [] else
      var last := |blocks| - 1;
      RunTurns(reg, line, list, header, blocks[..last], len, b, tail)
      + PushTurns(reg, line, list, header, blocks[last][..len], b, tail)
  }

  lemma RunTurnsSnoc(reg: Registry, line: int, list: seq<int>, header: seq<Byte>, blocks: seq<seq<Byte>>,
                     block: seq<Byte>, len: nat, b: nat, tail: seq<Byte>)
    requires b > 0 && LongEnough(blocks, len) && len <= |block|
    ensures LongEnough(blocks + [block], len)
    ensures RunTurns(reg, line, list, header, blocks + [block], len, b, tail)
         == RunTurns(reg, line, list, header, blocks, len, b, tail)
            + PushTurns(reg, line, list, header, block[..len], b, tail)
  {
    assert (blocks + [block])[..|blocks|] == blocks;
  }

  /** Only the channel lists matter for who gets a turn. */
  lemma {:induction false} TurnsByLists(reg: Registry, reg': Registry, line: int,
                                        channels: seq<int>, packets: seq<seq<Byte>>)
    requires |channels| == |packets| && reg.lists == reg'.lists
    ensures BlockTurns(reg, line, channels, packets) == BlockTurns(reg', line, channels, packets)
    decreases |channels|
  {
    if channels != [] {
      TurnsByLists(reg, reg', line, channels[..|channels| - 1], packets[..|channels| - 1]);
    }
  }

  // ---------------------------------------------------------------- the connection

  /** A stream socket: what the peer still sends before it closes, what was delivered, and the calls made. */
  class Connection {
    var stream: seq<Byte>
    var segments: seq<seq<Byte>>
    var calls: seq<Call>

    constructor (stream: seq<Byte>)
      ensures this.stream == stream && segments == [] && calls == []
    {
      this.stream, segments, calls := stream, [], [];
    }

    /** Any part of what is there, up to the window; 0 at the end of the stream. */
    method Recv(buf: array<Byte>, at: nat, window: nat) returns (n: nat)
      requires window > 0 && at + window <= buf.Length
      modifies this`stream, this`segments, this`calls, buf
      ensures n == 0 <==> old(stream) == []
      ensures n <= window && n <= |old(stream)| && stream == old(stream)[n..]
      ensures calls == old(calls) + [Got(n)]
      ensures segments == if n == 0 then old(segments) else old(segments) + [old(stream)[..n]]
      ensures buf[..] == Overwrite(old(buf[..]), at, old(stream)[..n])
    {
      n := 0;
      if stream != [] {
        n :| 1 <= n <= window && n <= |stream|;
        forall k | 0 <= k < n {
          buf[at + k] := stream[k];
        }
        segments := segments + [stream[..n]];
        stream := stream[n..];
      }
      calls := calls + [Got(n)];
    }

    method SendAck()
      modifies this`calls
      ensures calls == old(calls) + [Acked]
    {
      calls := calls + [Acked];
    }
  }

  // ---------------------------------------------------------------- the command

  /** The server before the first push; `back` is the packet buffer behind the fresh payload. */
  datatype Snapshot = Snapshot(reg: Registry, sent: seq<Message>, packageSeq: int, back: seq<Byte>)

  class WaveCommand {
    const pusher: Pusher
    const control: Control
    const line: int
    /** The globals of the command: pointer into the first block, its remaining length, residue, last read. */
    var data: nat
    var length: nat
    var offset: nat
    var len: nat

    ghost predicate Valid()
      reads pusher, pusher.table, pusher.table.byId.Values
    {
      pusher.Valid() && control.table == pusher.table && control.out == pusher.out
    }

    constructor (pusher: Pusher, control: Control, line: int)
      requires pusher.Valid() && control.table == pusher.table && control.out == pusher.out
      ensures Valid() && this.pusher == pusher && this.control == control && this.line == line
    {
      this.pusher, this.control, this.line := pusher, control, line;
      data, length, offset, len := 0, 0, 0, 0;
    }

    /** Push one block after the turns `before`. */
    method PushAfter(samples: array<Byte>, start: nat, per: nat, list: seq<int>, b: nat, ghost m: nat,
                     ghost reg: Registry, ghost sent: seq<Message>, ghost before: seq<Turn>, ghost back: seq<Byte>)
      requires Valid() && samples != pusher.channelBuffer && start + per <= samples.Length
      requires WholeFrames(samples[start..start + per], |list|, b) && |pusher.header| + per < BUFFER_SIZE
      requires m == FreshSize(per, |list|) <= per && pusher.channelBuffer[|pusher.header| + m..] == back
      requires pusher.table.State() == reg.(recs := pusher.table.State().recs)
      requires pusher.Taken(reg.recs, sent, before)
      modifies pusher`packageSeq, pusher.channelBuffer, pusher.out, pusher.table.byId.Values
      ensures Valid() && pusher.table.State() == reg.(recs := pusher.table.State().recs)
      ensures unchanged(pusher.table)
      ensures pusher.packageSeq == SeqAfter(old(pusher.packageSeq), |list|)
      ensures pusher.channelBuffer[|pusher.header| + m..] == back
      ensures pusher.Taken(reg.recs, sent, before + PushTurns(reg, line, list, pusher.header,
                             old(samples[start..start + per]), b, back[..per - m]))
    {
      ghost var mid, midSent, header := pusher.table.State(), pusher.out.sent, pusher.header;
      ghost var s := samples[start..start + per];
      ghost var turns := PushTurns(mid, line, list, header, s, b, back[..per - m]);
      assert KnownTurns(reg.recs, before) && mid.recs == FanOutRecs(pusher.table.cfg, reg.recs, before);
      assert midSent == sent + FanOutLog(pusher.table.cfg, reg.recs, before);
      assert b > 0 && pusher.Valid() && |header| + per <= pusher.channelBuffer.Length;
      assert mid.lists == reg.lists && |s| == per;
      hide *;
      SameTurns(reg, mid, line, list, header, s, b, back[..per - m]);
      assert pusher.channelBuffer[|header| + m..|header| + per] == back[..per - m];
      pusher.Push(line, samples, start, per, list, b);
      pusher.TakenOnTop(reg.recs, sent, before, mid.recs, midSent, turns);
      StillTheTable(reg);
    }

    lemma SameTurns(reg: Registry, mid: Registry, line: int, list: seq<int>, header: seq<Byte>, s: seq<Byte>,
                    b: nat, tail: seq<Byte>)
      requires b > 0 && reg.lists == mid.lists
      ensures PushTurns(mid, line, list, header, s, b, tail) == PushTurns(reg, line, list, header, s, b, tail)
    {
      TurnsByLists(reg, mid, line, list, Packets(header, s, |list|, b, tail));
    }

    lemma StillTheTable(reg: Registry)
      requires pusher.Valid() && control.table == pusher.table && control.out == pusher.out
      requires pusher.table.order == reg.order && pusher.table.lists == reg.lists
      ensures Valid() && pusher.table.State() == reg.(recs := pusher.table.State().recs)
    {
    }

    /** `blocks` have been pushed since the server was in state `st`. */
    ghost predicate Pushed(w: WaveInfo, st: Snapshot, blocks: seq<seq<Byte>>)
      reads pusher, pusher.table, pusher.table.byId.Values, pusher.out, pusher.channelBuffer
    {
      && Valid() && Playable(w, w.headerSize, pusher.header) && LongEnough(blocks, PushLength(w))
      && pusher.table.State() == st.reg.(recs := pusher.table.State().recs)
      && pusher.packageSeq == SeqAfter(st.packageSeq, Times(|blocks|, |w.list|))
      && FreshLength(w) <= PushLength(w)
      && pusher.channelBuffer[|pusher.header| + FreshLength(w)..] == st.back
      && pusher.Taken(st.reg.recs, st.sent,
                      RunTurns(st.reg, line, w.list, pusher.header, blocks, PushLength(w), SampleBytes(w),
                               st.back[..PushLength(w) - FreshLength(w)]))
    }

    method PushBlock(w: WaveInfo, samples: array<Byte>, start: nat, ghost st: Snapshot, ghost blocks: seq<seq<Byte>>)
      requires Pushed(w, st, blocks) && samples != pusher.channelBuffer && start + w.chunk <= samples.Length
      modifies pusher`packageSeq, pusher.channelBuffer, pusher.out, pusher.table.byId.Values
      ensures Pushed(w, st, blocks + [old(samples[start..start + w.chunk])]) && unchanged(pusher.table)
    {
      var per, b := PushLength(w), SampleBytes(w);
      ghost var m, block := FreshLength(w), samples[start..start + w.chunk];
      ghost var tail := st.back[..per - m];
      ghost var before := RunTurns(st.reg, line, w.list, pusher.header, blocks, per, b, tail);
      assert block[..per] == samples[start..start + per];
      assert WholeFrames(samples[start..start + per], |w.list|, b);
      RunTurnsSnoc(st.reg, line, w.list, pusher.header, blocks, block, per, b, tail);
      assert pusher.packageSeq == SeqAfter(st.packageSeq, Times(|blocks|, |w.list|));
      hide *;
      PushAfter(samples, start, per, w.list, b, m, st.reg, st.sent, before, st.back);
      PushedMore(w, st, blocks, block, per, b, m, tail,
                 before + PushTurns(st.reg, line, w.list, pusher.header, block[..per], b, tail));
    }

    lemma PushedMore(w: WaveInfo, st: Snapshot, blocks: seq<seq<Byte>>, block: seq<Byte>,
                     per: nat, b: nat, m: nat, tail: seq<Byte>, turns: seq<Turn>)
      requires Valid() && Playable(w, w.headerSize, pusher.header)
      requires per == PushLength(w) && b == SampleBytes(w) && m == FreshLength(w) <= per && per - m <= |st.back|
      requires LongEnough(blocks + [block], per) && tail == st.back[..per - m]
      requires turns == RunTurns(st.reg, line, w.list, pusher.header, blocks + [block], per, b, tail)
      requires pusher.table.State() == st.reg.(recs := pusher.table.State().recs)
      requires pusher.packageSeq == SeqAfter(SeqAfter(st.packageSeq, Times(|blocks|, |w.list|)), |w.list|)
      requires pusher.channelBuffer[|pusher.header| + m..] == st.back
      requires pusher.Taken(st.reg.recs, st.sent, turns)
      ensures Pushed(w, st, blocks + [block])
    {
      assert |blocks + [block]| == |blocks| + 1;
      hide Valid, Playable, LongEnough, RunTurns, pusher.Taken, Consistent, SeqAfter;
      SeqAfterSum(st.packageSeq, Times(|blocks|, |w.list|), |w.list|);
    }

    /** The splitting loop stands at `data`, with `offset` bytes of payload ahead. */
    ghost predicate Splitting(w: WaveInfo, arg: array<Byte>, payload: seq<Byte>, blocks: seq<seq<Byte>>)
      reads this`data, this`length, this`offset, arg
    {
      && w.chunk > 0 && w.headerSize <= length && offset == length - w.headerSize
      && data + offset <= arg.Length
      && Pieces(payload, w.chunk) == blocks + Pieces(arg[data..data + offset], w.chunk)
      && Residue(payload, w.chunk) == Residue(arg[data..data + offset], w.chunk)
      && offset == |payload| - Times(|blocks|, w.chunk)
    }

    method Advance(w: WaveInfo, arg: array<Byte>, ghost payload: seq<Byte>, ghost blocks: seq<seq<Byte>>)
      requires Splitting(w, arg, payload, blocks) && offset >= w.chunk
      modifies this`data, this`length, this`offset
      ensures offset == old(offset) - w.chunk && data == old(data) + w.chunk
      ensures Splitting(w, arg, payload, blocks + [arg[old(data)..old(data) + w.chunk]])
    {
      ghost var rest := arg[data..data + offset];
      PieceStep(rest, w.chunk, blocks);
      assert rest[..w.chunk] == arg[data..data + w.chunk];
      assert rest[w.chunk..] == arg[data + w.chunk..data + offset];
      hide Pieces, Residue;
      length := length - w.chunk;
      data := data + w.chunk;
      offset := length - w.headerSize;
    }

    /** One round of the splitting loop. */
    method SplitOne(w: WaveInfo, arg: array<Byte>, ghost payload: seq<Byte>,
                    ghost st: Snapshot, ghost blocks: seq<seq<Byte>>)
      returns (ghost block: seq<Byte>)
      requires Splitting(w, arg, payload, blocks) && offset >= w.chunk && arg != pusher.channelBuffer
      requires data + offset <= arg.Length && Pushed(w, st, blocks)
      modifies this`data, this`length, this`offset
      modifies pusher`packageSeq, pusher.channelBuffer, pusher.out, pusher.table.byId.Values
      ensures offset == old(offset) - w.chunk && data == old(data) + w.chunk
      ensures Splitting(w, arg, payload, blocks + [block])
      ensures Pushed(w, st, blocks + [block]) && unchanged(pusher.table)
    {
      hide *;
      block := arg[data..data + w.chunk];
      PushBlock(w, arg, data, st, blocks);
      Advance(w, arg, payload, blocks);
    }

    /** Push the whole chunks of the first block; what is left starts at `data`. */
    method SplitFirst(w: WaveInfo, arg: array<Byte>, at: nat, size: nat, ghost payload: seq<Byte>, ghost st: Snapshot)
      returns (ghost blocks: seq<seq<Byte>>)
      requires Playable(w, size, pusher.header) && at + size <= arg.Length && arg != pusher.channelBuffer
      requires payload == arg[at + w.headerSize..at + size] && Pushed(w, st, [])
      modifies this`data, this`length, this`offset
      modifies pusher`packageSeq, pusher.channelBuffer, pusher.out, pusher.table.byId.Values
      ensures blocks == Pieces(payload, w.chunk)
      ensures offset < w.chunk && data + offset <= arg.Length
      ensures arg[data..data + offset] == Residue(payload, w.chunk)
      ensures data == at + w.headerSize + Times(|blocks|, w.chunk)
      ensures Pushed(w, st, blocks) && unchanged(pusher.table)
    {
      length := size;
      data := at + w.headerSize;
      offset := length - w.headerSize;
      hide Pushed, Pieces, Residue, Shape, Whole;
      assert Splitting(w, arg, payload, []);
      blocks := SplitLoop(w, arg, payload, st);
    }

    method SplitLoop(w: WaveInfo, arg: array<Byte>, ghost payload: seq<Byte>, ghost st: Snapshot)
      returns (ghost blocks: seq<seq<Byte>>)
      requires Splitting(w, arg, payload, []) && Pushed(w, st, []) && arg != pusher.channelBuffer && w.chunk > 0
      modifies this`data, this`length, this`offset
      modifies pusher`packageSeq, pusher.channelBuffer, pusher.out, pusher.table.byId.Values
      ensures blocks == Pieces(payload, w.chunk)
      ensures offset < w.chunk && data + offset <= arg.Length
      ensures arg[data..data + offset] == Residue(payload, w.chunk)
      ensures data == old(data) + Times(|blocks|, w.chunk)
      ensures Pushed(w, st, blocks) && unchanged(pusher.table)
    {
      blocks := [];
      hide Pushed, Splitting, Valid;
      while offset >= w.chunk
        invariant Splitting(w, arg, payload, blocks) && Pushed(w, st, blocks) && unchanged(pusher.table)
        invariant data == old(data) + Times(|blocks|, w.chunk)
        decreases offset
      {
        SplittingFits(w, arg, payload, blocks);
        ghost var block := SplitOne(w, arg, payload, st, blocks);
        blocks := blocks + [block];
      }
      SplittingEnds(w, arg, payload, blocks);
    }

    lemma SplittingFits(w: WaveInfo, arg: array<Byte>, payload: seq<Byte>, blocks: seq<seq<Byte>>)
      requires Splitting(w, arg, payload, blocks)
      ensures data + offset <= arg.Length
    {
    }

    lemma SplittingEnds(w: WaveInfo, arg: array<Byte>, payload: seq<Byte>, blocks: seq<seq<Byte>>)
      requires Splitting(w, arg, payload, blocks) && offset < w.chunk
      ensures data + offset <= arg.Length
      ensures blocks == Pieces(payload, w.chunk) && arg[data..data + offset] == Residue(payload, w.chunk)
    {
    }

    /** The buffer holds what the segments left in it, and no byte of the stream is lost. */
    ghost predicate Received(conn: Connection, buffer: array<Byte>, buf: seq<Byte>, residue: nat, all: seq<Byte>)
      reads conn`stream, conn`segments, buffer
    {
      && Fitting(|buf|, residue, conn.segments)
      && buffer[..] == BufferAfter(buf, residue, conn.segments)
      && Flatten(conn.segments) + conn.stream == all
    }

    /** The segments beyond `done`, all acknowledged: the one just received, or none. */
    ghost predicate Ahead(conn: Connection, done: seq<seq<Byte>>)
      reads this`len, conn`stream, conn`segments, conn`calls
    {
      && (len > 0 ==> conn.segments != [] && |conn.segments[|conn.segments| - 1]| == len)
      && done == conn.segments[..if len > 0 then |conn.segments| - 1 else |conn.segments|]
      && (len == 0 ==> conn.stream == [])
      && conn.calls == Served(Sizes(done)) + [Got(len)]
    }

    /** Refill the buffer from `offset` on. */
    method Receive(conn: Connection, buffer: array<Byte>, chunk: nat,
                   ghost buf: seq<Byte>, ghost residue: nat, ghost all: seq<Byte>)
      requires Received(conn, buffer, buf, residue, all) && buffer.Length == chunk == |buf|
      requires offset == PlaceOf(residue, |conn.segments|) && conn.calls == Served(Sizes(conn.segments))
      modifies this`len, conn`stream, conn`segments, conn`calls, buffer
      ensures Received(conn, buffer, buf, residue, all)
      ensures Ahead(conn, old(conn.segments)) && |conn.stream| + len == |old(conn.stream)|
    {
      ghost var segs, stream := conn.segments, conn.stream;
      assert offset < chunk && Fitting(|buf|, residue, segs);
      hide *;
      len := conn.Recv(buffer, offset, chunk - offset);
      AfterRecv(conn, buffer, buf, residue, all, segs, stream);
    }

    lemma AfterRecv(conn: Connection, buffer: array<Byte>, buf: seq<Byte>, residue: nat, all: seq<Byte>,
                    segs: seq<seq<Byte>>, stream: seq<Byte>)
      requires Fitting(|buf|, residue, segs) && Flatten(segs) + stream == all
      requires len <= |stream| && len <= |buf| - PlaceOf(residue, |segs|) && (len == 0 <==> stream == [])
      requires conn.stream == stream[len..]
      requires conn.segments == if len == 0 then segs else segs + [stream[..len]]
      requires conn.calls == Served(Sizes(segs)) + [Got(len)]
      requires buffer[..] == Overwrite(BufferAfter(buf, residue, segs), PlaceOf(residue, |segs|), stream[..len])
      ensures Received(conn, buffer, buf, residue, all) && Ahead(conn, segs)
      ensures |conn.stream| + len == |stream|
    {
      if len > 0 {
        ReceivedMore(buf, residue, segs, stream, len, all);
        assert conn.segments[..|segs|] == segs;
      }
      hide Fitting, BufferAfter, Flatten, Served, Sizes;
    }

    /** Push the buffer the last segment completed. */
    method PushBuffer(w: WaveInfo, buffer: array<Byte>, ghost st: Snapshot, ghost pieces: seq<seq<Byte>>,
                      ghost buf: seq<Byte>, ghost residue: nat, ghost segs: seq<seq<Byte>>, ghost done: seq<seq<Byte>>)
      requires buffer.Length == w.chunk == |buf| && buffer != pusher.channelBuffer
      requires Fitting(|buf|, residue, segs) && |segs| > 0 && done == segs[..|segs| - 1]
      requires buffer[..] == BufferAfter(buf, residue, segs)
      requires Fitting(|buf|, residue, done) && Pushed(w, st, pieces + Buffers(buf, residue, done))
      modifies pusher`packageSeq, pusher.channelBuffer, pusher.out, pusher.table.byId.Values
      ensures Pushed(w, st, pieces + Buffers(buf, residue, segs)) && unchanged(pusher.table)
    {
      ghost var blocks := pieces + Buffers(buf, residue, done);
      ConcatAssoc(pieces, Buffers(buf, residue, done), [buffer[..]]);
      assert blocks + [buffer[..]] == pieces + Buffers(buf, residue, segs);
      assert buffer[0..w.chunk] == buffer[..];
      hide *;
      PushBlock(w, buffer, 0, st, blocks);
    }

    /** One round of the receiving loop: push the buffer, ack, receive the next segment. */
    method ServeOne(w: WaveInfo, conn: Connection, buffer: array<Byte>,
                    ghost st: Snapshot, ghost pieces: seq<seq<Byte>>,
                    ghost buf: seq<Byte>, ghost residue: nat, ghost all: seq<Byte>, ghost done: seq<seq<Byte>>)
      requires buffer.Length == w.chunk == |buf| && buffer != pusher.channelBuffer
      requires Received(conn, buffer, buf, residue, all) && Ahead(conn, done) && len > 0
      requires Fitting(|buf|, residue, done)
      requires Pushed(w, st, pieces + Buffers(buf, residue, done))
      modifies this`len, this`offset, conn, buffer
      modifies pusher`packageSeq, pusher.channelBuffer, pusher.out, pusher.table.byId.Values
      ensures Received(conn, buffer, buf, residue, all) && Ahead(conn, old(conn.segments))
      ensures |conn.stream| + len == |old(conn.stream)|
      ensures Fitting(|buf|, residue, old(conn.segments))
      ensures Pushed(w, st, pieces + Buffers(buf, residue, old(conn.segments))) && unchanged(pusher.table)
    {
      hide Pushed, Buffers, BufferAfter, Served, Sizes;
      PushBuffer(w, buffer, st, pieces, buf, residue, conn.segments, done);
      offset := 0;
      conn.SendAck();
      RoundServed(done, conn.segments);
      Receive(conn, buffer, w.chunk, buf, residue, all);
    }

    /** Push and ack until the peer closes. */
    method Serve(w: WaveInfo, conn: Connection, buffer: array<Byte>,
                 ghost st: Snapshot, ghost pieces: seq<seq<Byte>>, ghost buf: seq<Byte>, ghost residue: nat)
      requires buffer.Length == w.chunk == |buf| && buffer != pusher.channelBuffer && buffer[..] == buf
      requires residue < w.chunk && offset == residue && conn.segments == [] && conn.calls == []
      requires Pushed(w, st, pieces)
      modifies this`len, this`offset, conn, buffer
      modifies pusher`packageSeq, pusher.channelBuffer, pusher.out, pusher.table.byId.Values
      ensures Fitting(|buf|, residue, conn.segments)
      ensures Flatten(conn.segments) == old(conn.stream) && conn.stream == []
      ensures conn.calls == ServedAll(Sizes(conn.segments))
      ensures Pushed(w, st, pieces + Buffers(buf, residue, conn.segments)) && unchanged(pusher.table)
    {
      ghost var all := conn.stream;
      assert Received(conn, buffer, buf, residue, all);
      assert Fitting(|buf|, residue, []) && pieces + Buffers(buf, residue, []) == pieces;
      assert Served(Sizes([])) == [];
      hide *;
      Receive(conn, buffer, w.chunk, buf, residue, all);
      ServeLoop(w, conn, buffer, st, pieces, buf, residue, all);
    }

    method ServeLoop(w: WaveInfo, conn: Connection, buffer: array<Byte>, ghost st: Snapshot,
                     ghost pieces: seq<seq<Byte>>, ghost buf: seq<Byte>, ghost residue: nat, ghost all: seq<Byte>)
      requires buffer.Length == w.chunk == |buf| && buffer != pusher.channelBuffer
      requires Received(conn, buffer, buf, residue, all) && Ahead(conn, [])
      requires Fitting(|buf|, residue, []) && Pushed(w, st, pieces + Buffers(buf, residue, []))
      modifies this`len, this`offset, conn, buffer
      modifies pusher`packageSeq, pusher.channelBuffer, pusher.out, pusher.table.byId.Values
      ensures Fitting(|buf|, residue, conn.segments)
      ensures Flatten(conn.segments) == all && conn.stream == [] && conn.calls == ServedAll(Sizes(conn.segments))
      ensures Pushed(w, st, pieces + Buffers(buf, residue, conn.segments)) && unchanged(pusher.table)
    {
      ghost var done := [];
      hide *;
      while len > 0
        invariant Received(conn, buffer, buf, residue, all) && Ahead(conn, done)
        invariant Fitting(|buf|, residue, done)
        invariant Pushed(w, st, pieces + Buffers(buf, residue, done)) && unchanged(pusher.table)
        decreases |conn.stream| + len
      {
        ghost var segs := conn.segments;
        ServeOne(w, conn, buffer, st, pieces, buf, residue, all, done);
        done := segs;
      }
      AllServed(conn, buffer, buf, residue, all, done);
    }

    lemma AllServed(conn: Connection, buffer: array<Byte>, buf: seq<Byte>, residue: nat, all: seq<Byte>,
                    done: seq<seq<Byte>>)
      requires Received(conn, buffer, buf, residue, all) && Ahead(conn, done) && len == 0
      ensures conn.segments == done && conn.stream == [] && Flatten(done) == all
      ensures conn.calls == ServedAll(Sizes(done))
    {
    }

    /** The server as the first push will find it, once speakers have been told the format. */
    ghost function Begin(w: WaveInfo): Snapshot
      requires Valid() && Playable(w, w.headerSize, pusher.header)
      reads pusher, pusher.table, pusher.table.byId.Values, pusher.out, pusher.channelBuffer
    {
      LengthFits(PushLength(w), |w.list|);
      var reg := pusher.table.State();
      Snapshot(reg, pusher.out.sent + FormatLog(reg.recs, reg.order, w.rate, w.bits), pusher.packageSeq,
               pusher.channelBuffer[|pusher.header| + FreshLength(w)..])
    }

    /** Announce the format; nothing is pushed yet. */
    method Announce(w: WaveInfo, ghost st: Snapshot)
      requires Valid() && Playable(w, w.headerSize, pusher.header) && st == Begin(w)
      modifies control`buffer, control`channelList, pusher.out
      ensures Pushed(w, st, [])
    {
      LengthFits(PushLength(w), |w.list|);
      control.SetFormat(w.list, w.rate, w.bits);
    }

    /**
     The outcome of a run: `buf` is the buffer before the first receive, the residue and behind it
     whatever the allocation contained; `all` is what the peer sends until it closes. The calls on
     the connection are those of the protocol's server: every receive acknowledged before the next.
     */
    ghost predicate Played(w: WaveInfo, payload: seq<Byte>, st: Snapshot, conn: Connection,
                           buf: seq<Byte>, all: seq<Byte>)
      reads pusher, pusher.table, pusher.table.byId.Values, pusher.out, pusher.channelBuffer, conn
    {
      && w.chunk > 0 && |buf| == w.chunk
      && var residue := Residue(payload, w.chunk);
         && buf[..|residue|] == residue
         && Fitting(|buf|, |residue|, conn.segments)
         && Flatten(conn.segments) == all && conn.stream == [] && conn.calls == ServedAll(Sizes(conn.segments))
         && Pushed(w, st, Pieces(payload, w.chunk) + Buffers(buf, |residue|, conn.segments))
    }

    method FillFront(w: WaveInfo, arg: array<Byte>) returns (buffer: array<Byte>)
      requires offset <= w.chunk && data + offset <= arg.Length
      ensures fresh(buffer) && buffer.Length == w.chunk && buffer[..offset] == arg[data..data + offset]
    {
      buffer := new Byte[w.chunk];
      forall k | 0 <= k < offset {
        buffer[k] := arg[data + k];
      }
    }

    method Play(w: WaveInfo, conn: Connection, arg: array<Byte>, at: nat, size: nat,
                ghost payload: seq<Byte>, ghost st: Snapshot, ghost all: seq<Byte>)
      returns (ghost buf: seq<Byte>)
      requires Valid() && conn.segments == [] && conn.calls == [] && conn.stream == all
      requires at + size <= arg.Length && arg != pusher.channelBuffer
      requires Playable(w, size, pusher.header) && payload == arg[at + w.headerSize..at + size]
      requires st == Begin(w)
      modifies this, control`buffer, control`channelList, conn
      modifies pusher`packageSeq, pusher.channelBuffer, pusher.out, pusher.table.byId.Values
      ensures Played(w, payload, st, conn, buf, all)
    {
      Announce(w, st);
      hide *;
      ghost var pieces := SplitFirst(w, arg, at, size, payload, st);
      buf := ServeRest(w, conn, arg, payload, st, all, pieces);
    }

    method ServeRest(w: WaveInfo, conn: Connection, arg: array<Byte>, ghost payload: seq<Byte>,
                     ghost st: Snapshot, ghost all: seq<Byte>, ghost pieces: seq<seq<Byte>>)
      returns (ghost buf: seq<Byte>)
      requires conn.segments == [] && conn.calls == [] && conn.stream == all && w.chunk > 0
      requires offset < w.chunk && data + offset <= arg.Length
      requires arg[data..data + offset] == Residue(payload, w.chunk)
      requires pieces == Pieces(payload, w.chunk) && Pushed(w, st, pieces)
      modifies this`len, this`offset, conn
      modifies pusher`packageSeq, pusher.channelBuffer, pusher.out, pusher.table.byId.Values
      ensures Played(w, payload, st, conn, buf, all)
    {
      hide *;
      var buffer := FillFront(w, arg);
      buf := buffer[..];
      ghost var residue := arg[data..data + offset];
      assert buf[..offset] == residue;
      Serve(w, conn, buffer, st, pieces, buf, offset);
      PlayedIs(w, payload, st, conn, buf, all, pieces, residue);
    }

    lemma PlayedIs(w: WaveInfo, payload: seq<Byte>, st: Snapshot, conn: Connection, buf: seq<Byte>, all: seq<Byte>,
                   pieces: seq<seq<Byte>>, residue: seq<Byte>)
      requires w.chunk > 0 && |buf| == w.chunk && |residue| <= |buf|
      requires pieces == Pieces(payload, w.chunk) && residue == Residue(payload, w.chunk)
      requires buf[..|residue|] == residue && Fitting(|buf|, |residue|, conn.segments)
      requires Flatten(conn.segments) == all && conn.stream == [] && conn.calls == ServedAll(Sizes(conn.segments))
      requires Pushed(w, st, pieces + Buffers(buf, |residue|, conn.segments))
      ensures Played(w, payload, st, conn, buf, all)
    {
    }

    /**
     The wave command. `arg` with `at` points at the payload of the first frame, of `size` bytes;
     `inspect` is the codec.
     */
    method CmdWave(conn: Connection, arg: array?<Byte>, at: nat, size: nat, inspect: seq<Byte> -> WaveInfo)
      returns (r: int, ghost buf: seq<Byte>)
      requires Valid() && conn.segments == [] && conn.calls == []
      requires arg != null ==> at + size <= arg.Length && arg != pusher.channelBuffer
      requires arg != null && inspect(arg[at..at + size]).headerSize != 0 ==>
                 Playable(inspect(arg[at..at + size]), size, pusher.header)
      modifies this, control`buffer, control`channelList, conn
      modifies pusher`packageSeq, pusher.channelBuffer, pusher.out, pusher.table.byId.Values
      ensures r == if arg == null || inspect(old(arg[at..at + size])).headerSize == 0 then 1 else 0
      ensures r == 1 ==> (pusher.out.sent == old(pusher.out.sent) && conn.segments == [] && conn.calls == []
                          && pusher.table.State() == old(pusher.table.State()))
      ensures r == 0 ==>
                var w := inspect(old(arg[at..at + size]));
                Played(w, old(arg[at..at + size])[w.headerSize..], old(Begin(w)), conn, buf, old(conn.stream))
    {
      buf := [];
      if arg == null {
        return 1, buf;
      }
      var w := inspect(arg[at..at + size]);
      if w.headerSize == 0 {
        return 1, buf;
      }
      assert arg[at..at + size][w.headerSize..] == arg[at + w.headerSize..at + size];
      ghost var payload, st := arg[at..at + size][w.headerSize..], Begin(w);
      hide *;
      buf := Play(w, conn, arg, at, size, payload, st, conn.stream);
      return 0, buf;
    }
  }

  lemma LengthFits(len: nat, n: nat)
    requires n > 0
    ensures 0 <= len / n <= len
  {
    MulMonotone(1, n, len / n);
    assert len == (len / n) * n + len % n;
  }

  lemma ReceivedMore(buf: seq<Byte>, residue: nat, segs: seq<seq<Byte>>, stream: seq<Byte>, n: nat, all: seq<Byte>)
    requires Fitting(|buf|, residue, segs) && Flatten(segs) + stream == all
    requires n <= |stream| && 1 <= n <= |buf| - PlaceOf(residue, |segs|)
    ensures Fitting(|buf|, residue, segs + [stream[..n]])
    ensures BufferAfter(buf, residue, segs + [stream[..n]])
         == Overwrite(BufferAfter(buf, residue, segs), PlaceOf(residue, |segs|), stream[..n])
    ensures Flatten(segs + [stream[..n]]) + stream[n..] == all
  {
    OneMoreSegment(buf, residue, segs, stream[..n]);
    FlattenSnoc(segs, stream[..n]);
    hide *;
    SplitAssoc(Flatten(segs), stream, n);
  }

  /** Receiving the last segment and acknowledging it is one more round. */
  lemma RoundServed(done: seq<seq<Byte>>, segs: seq<seq<Byte>>)
    requires segs != [] && done == segs[..|segs| - 1]
    ensures Served(Sizes(segs)) == (Served(Sizes(done)) + [Got(|segs[|segs| - 1]|)]) + [Acked]
  {
    assert Sizes(segs)[..|segs| - 1] == Sizes(done);
    AckIsCall(Sizes(segs));
  }

  lemma SplitAssoc(a: seq<Byte>, s: seq<Byte>, n: nat)
    requires n <= |s|
    ensures a + s == (a + s[..n]) + s[n..]
  {
  }

  lemma PieceStep(rest: seq<Byte>, chunk: nat, blocks: seq<seq<Byte>>)
    requires 0 < chunk <= |rest|
    ensures blocks + Pieces(rest, chunk) == (blocks + [rest[..chunk]]) + Pieces(rest[chunk..], chunk)
    ensures Residue(rest, chunk) == Residue(rest[chunk..], chunk)
  {
    ConcatAssoc(blocks, [rest[..chunk]], Pieces(rest[chunk..], chunk));
  }
}
