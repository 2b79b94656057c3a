/** The client: frame the head of a wave file, then stream the rest in chunks, ack by ack. */
module ClientPipe {
  import opened Bytes
  import opened CommandControl
  import opened WaveProtocol

  const PAYLOAD_SIZE := CONTROL_BUFFER_SIZE - 12

  /** A call on the client's socket. */
  datatype Io = Send(block: seq<Byte>) | Recv | Shut

  /** `fread`: short only at the end of the file. */
  class File {
    const content: seq<Byte>
    var pos: nat

    constructor (content: seq<Byte>)
      ensures this.content == content && pos == 0
    {
      this.content := content;
      pos := 0;
    }

    method Fread(buf: array<Byte>, at: nat, max: nat) returns (n: nat)
      requires at + max <= buf.Length && pos <= |content|
      modifies this`pos, buf
      ensures n == if |content| - old(pos) < max then |content| - old(pos) else max
      ensures pos == old(pos) + n <= |content|
      ensures buf[..at] == old(buf[..at]) && buf[at..at + n] == content[old(pos)..pos]
    {
      n := if |content| - pos < max then |content| - pos else max;
      forall k | 0 <= k < n {
        buf[at + k] := content[pos + k];
      }
      pos := pos + n;
    }
  }

  /** Chunk after chunk, each with its ack. */
  function Rounds(chunks: seq<seq<Byte>>): seq<Io> {
    if chunks == [] then [] else Rounds(chunks[..|chunks| - 1]) + [Send(chunks[|chunks| - 1]), Recv]
  }

  /** All calls after the first block. */
  function Session(chunks: seq<seq<Byte>>): seq<Io> {
    Rounds(chunks) + [Recv, Shut]
  }

  /** The calls of a client whose last send failed because the server is gone. */
  function BrokenOff(chunks: seq<seq<Byte>>): seq<Io>
    requires chunks != []
  {
    Rounds(chunks[..|chunks| - 1]) + [Send(chunks[|chunks| - 1]), Shut]
  }

  function OpOf(io: Io): Op {
    match io case Send(_) => SendChunk case Recv => RecvAck case Shut => Close
  }

  function Ops(log: seq<Io>): (r: seq<Op>)
    ensures |r| == |log|
  {
    seq(|log|, k requires 0 <= k < |log| => OpOf(log[k]))
  }

  /** What is sent of the file: all of it, in order, then less than a chunk of padding. */
  ghost predicate Carries(chunks: seq<seq<Byte>>, chunk: nat, data: seq<Byte>) {
    && (forall j | 0 <= j < |chunks| :: |chunks[j]| == chunk)
    && data <= Flatten(chunks)
    && (|Flatten(chunks)| - |data| < chunk || chunks == [])
  }

  /** What is handed over of the file, broken off or not: its beginning, or all of it and padding. */
  ghost predicate HandsOver(chunks: seq<seq<Byte>>, chunk: nat, data: seq<Byte>) {
    && (forall j | 0 <= j < |chunks| :: |chunks[j]| == chunk)
    && (Flatten(chunks) <= data || Carries(chunks, chunk, data))
  }

  lemma CarriesOneMore(chunks: seq<seq<Byte>>, chunk: nat, data: seq<Byte>, block: seq<Byte>, len: nat)
    requires Carries(chunks, chunk, data) && |Flatten(chunks)| == |data|
    requires |block| == chunk && 0 < len <= chunk
    ensures Carries(chunks + [block], chunk, data + block[..len])
    ensures |Flatten(chunks + [block])| == |data| + chunk
  {
    FlattenSnoc(chunks, block);
    assert data == Flatten(chunks);
    assert data + block[..len] <= data + block;
  }

  class Client {
    var log: seq<Io>

    constructor ()
      ensures log == []
    {
      log := [];
    }

    /**
     Send `file`, with `headerCheck` the codec's header test and `chunk` the agreed chunk size.
     `first` is the framed block, `chunks` the blocks after it; `broken` says that sending the last
     of them failed for good.
     */
    method PipeInit(file: File, headerCheck: seq<Byte> -> nat, chunk: nat)
      returns (ok: bool, broken: bool, first: seq<Byte>, ghost chunks: seq<seq<Byte>>)
      requires chunk > 0 && file.pos == 0
      modifies this, file
      ensures |first| == CONTROL_BUFFER_SIZE && first[..12] == CNTL + PUSHWAVE
      ensures var head := if |file.content| < PAYLOAD_SIZE then |file.content| else PAYLOAD_SIZE;
              && first[12..12 + head] == file.content[..head]
              && (ok && !broken ==> Carries(chunks, chunk, file.content[head..]))
              && (ok && broken ==> HandsOver(chunks, chunk, file.content[head..]))
      ensures ok <==> headerCheck(first[12..]) != 0
      ensures !ok ==> log == old(log)
      ensures ok && !broken ==> log == old(log) + [Send(first)] + Session(chunks)
      ensures ok && broken ==> chunks != [] && log == old(log) + [Send(first)] + BrokenOff(chunks)
    {
      chunks, broken := [], false;
      var sendBuf := new Byte[CONTROL_BUFFER_SIZE];
      FillHeader(sendBuf);
      var head := file.Fread(sendBuf, 12, CONTROL_BUFFER_SIZE - 12);
      first := sendBuf[..];
      assert first[..12] == sendBuf[..12] && first[12..12 + head] == sendBuf[12..12 + head];
      if headerCheck(first[12..]) == 0 {
        return false, broken, first, chunks;
      }
      log := log + [Send(first)];
      hide Carries, HandsOver, Rounds;
      broken, chunks := StreamRest(file, chunk);
      if !broken {
        log := log + [Recv];
      }
      log := log + [Shut];
      ok := true;
    }

    method FillHeader(sendBuf: array<Byte>)
      requires sendBuf.Length == CONTROL_BUFFER_SIZE
      modifies sendBuf
      ensures sendBuf[..12] == CNTL + PUSHWAVE
    {
      forall k | 0 <= k < 4 {
        sendBuf[k] := CNTL[k];
      }
      forall k | 0 <= k < 8 {
        sendBuf[4 + k] := PUSHWAVE[k];
      }
    }

    method StreamRest(file: File, chunk: nat) returns (broken: bool, ghost chunks: seq<seq<Byte>>)
      requires chunk > 0 && file.pos <= |file.content|
      modifies this, file
      ensures !broken ==> log == old(log) + Rounds(chunks)
      ensures !broken ==> Carries(chunks, chunk, file.content[old(file.pos)..])
      ensures broken ==> chunks != []
      ensures broken ==> log == old(log) + Rounds(chunks[..|chunks| - 1]) + [Send(chunks[|chunks| - 1])]
      ensures broken ==> HandsOver(chunks, chunk, file.content[old(file.pos)..])
    {
      ghost var start := file.pos;
      var sendBuf := new Byte[chunk];
      var len := file.Fread(sendBuf, 0, chunk);
      assert Carries([], chunk, file.content[start..start]);
      assert Streaming(file, sendBuf, len, chunk, [], start, start, log);
      hide *;
      broken, chunks := SendWhileRead(file, sendBuf, len, chunk, start, log);
    }

    method SendWhileRead(file: File, sendBuf: array<Byte>, first: nat, chunk: nat,
                         ghost start: nat, ghost before: seq<Io>)
      returns (broken: bool, ghost chunks: seq<seq<Byte>>)
      requires chunk > 0 && sendBuf.Length == chunk
      requires Streaming(file, sendBuf, first, chunk, [], start, start, before)
      modifies this, file`pos, sendBuf
      ensures start <= |file.content|
      ensures !broken ==> log == before + Rounds(chunks) && Carries(chunks, chunk, file.content[start..])
      ensures broken ==> chunks != [] && HandsOver(chunks, chunk, file.content[start..])
      ensures broken ==> log == before + Rounds(chunks[..|chunks| - 1]) + [Send(chunks[|chunks| - 1])]
    {
      ghost var sent: nat := start;
      var len: nat := first;
      chunks := [];
      hide *;
      StreamingBounds(file, sendBuf, len, chunk, chunks, start, sent, before);
      while len > 0
        invariant Streaming(file, sendBuf, len, chunk, chunks, start, sent, before)
        invariant start <= sent <= sent + len <= |file.content|
        decreases |file.content| - sent
      {
        var block, n, lost := SendNext(file, sendBuf, len, chunk, chunks, start, sent, before);
        if lost {
          assert (chunks + [block])[..|chunks|] == chunks;
          return true, chunks + [block];
        }
        chunks, sent, len := chunks + [block], sent + len, n;
        StreamingBounds(file, sendBuf, len, chunk, chunks, start, sent, before);
      }
      broken := false;
      AllStreamed(file, sendBuf, chunk, chunks, start, sent, before);
    }

    /** The loop has sent `chunks`, the file up to `sent`; the buffer holds the `len` bytes after that. */
    ghost predicate Streaming(file: File, sendBuf: array<Byte>, len: nat, chunk: nat, chunks: seq<seq<Byte>>,
                              start: nat, sent: nat, before: seq<Io>)
      reads this, file, sendBuf
    {
      && start <= sent && Buffered(file, sendBuf, len, sent)
      && Carries(chunks, chunk, file.content[start..sent])
      && (len > 0 ==> |Flatten(chunks)| == sent - start)
      && log == before + Rounds(chunks)
    }

    lemma StreamingBounds(file: File, sendBuf: array<Byte>, len: nat, chunk: nat, chunks: seq<seq<Byte>>,
                          start: nat, sent: nat, before: seq<Io>)
      requires Streaming(file, sendBuf, len, chunk, chunks, start, sent, before)
      ensures start <= sent <= sent + len <= |file.content|
    {
    }

    lemma AllStreamed(file: File, sendBuf: array<Byte>, chunk: nat, chunks: seq<seq<Byte>>,
                      start: nat, sent: nat, before: seq<Io>)
      requires sendBuf.Length > 0 && Streaming(file, sendBuf, 0, chunk, chunks, start, sent, before)
      ensures start <= |file.content| && Carries(chunks, chunk, file.content[start..])
      ensures log == before + Rounds(chunks)
    {
      assert file.content[start..sent] == file.content[start..];
    }

    /** `sendBuf` starts with the `len` bytes last read, those from `sent` on; short only at the end. */
    ghost predicate Buffered(file: File, sendBuf: array<Byte>, len: nat, sent: nat)
      reads file, sendBuf
    {
      && len <= sendBuf.Length && sent + len == file.pos <= |file.content|
      && (len < sendBuf.Length ==> file.pos == |file.content|)
      && sendBuf[..len] == file.content[sent..sent + len]
    }

    /** One chunk out, and, unless the connection is lost, one ack in and the next bytes read. */
    method SendNext(file: File, sendBuf: array<Byte>, len: nat, chunk: nat,
                    ghost chunks: seq<seq<Byte>>, ghost start: nat, ghost sent: nat, ghost before: seq<Io>)
      returns (block: seq<Byte>, n: nat, lost: bool)
      requires 0 < len && sendBuf.Length == chunk
      requires Streaming(file, sendBuf, len, chunk, chunks, start, sent, before)
      modifies this, file`pos, sendBuf
      ensures !lost ==> Streaming(file, sendBuf, n, chunk, chunks + [block], start, sent + len, before)
      ensures start <= |file.content|
      ensures lost ==> HandsOver(chunks + [block], chunk, file.content[start..])
      ensures lost ==> log == before + Rounds(chunks) + [Send(block)]
    {
      block := sendBuf[..];
      assert Buffered(file, sendBuf, len, sent) && block[..len] == sendBuf[..len];
      assert len < chunk ==> sent + len == |file.content|;
      ghost var rounds := Rounds(chunks);
      hide *;
      NextChunk(chunks, chunk, file.content, start, sent, block, len);
      lost := SendChunk(block);
      if lost {
        n := 0;
      } else {
        ConcatAssoc(before, rounds, [Send(block), Recv]);
        log := log + [Recv];
        n := ReadNext(file, sendBuf, chunk, sent + len);
      }
    }

    method ReadNext(file: File, sendBuf: array<Byte>, chunk: nat, ghost sent: nat) returns (n: nat)
      requires sendBuf.Length == chunk && sent == file.pos <= |file.content|
      modifies file`pos, sendBuf
      ensures Buffered(file, sendBuf, n, sent) && (n > 0 ==> old(file.pos) < |file.content|)
    {
      n := file.Fread(sendBuf, 0, chunk);
    }

    /** `lost`: the send failed and nobody will ever receive; other failures are only reported. */
    method SendChunk(block: seq<Byte>) returns (lost: bool)
      modifies this
      ensures log == old(log) + [Send(block)]
    {
      log := log + [Send(block)];
      lost := *;
    }
  }

  lemma NextChunk(chunks: seq<seq<Byte>>, chunk: nat, content: seq<Byte>, start: nat, sent: nat,
                  block: seq<Byte>, len: nat)
    requires start <= sent && sent + len <= |content| && 0 < len <= chunk == |block|
    requires block[..len] == content[sent..sent + len]
    requires Carries(chunks, chunk, content[start..sent]) && |Flatten(chunks)| == sent - start
    ensures Carries(chunks + [block], chunk, content[start..sent + len])
    ensures |Flatten(chunks + [block])| == sent - start + chunk
    ensures Rounds(chunks + [block]) == Rounds(chunks) + [Send(block), Recv]
  {
    CarriesOneMore(chunks, chunk, content[start..sent], block, len);
    assert content[start..sent] + content[sent..sent + len] == content[start..sent + len];
    assert (chunks + [block])[..|chunks|] == chunks;
  }

  lemma OpsAppend(a: seq<Io>, b: seq<Io>)
    ensures Ops(a + b) == Ops(a) + Ops(b)
  {
  }

  lemma {:induction false} RoundsFollowScript(chunks: seq<seq<Byte>>, more: nat)
    ensures Ops(Rounds(chunks)) + ClientScript(more) == ClientScript(|chunks| + more)
    decreases |chunks|
  {
    if chunks == [] {
      assert Ops(Rounds(chunks)) == [];
    } else {
      var init, round := Rounds(chunks[..|chunks| - 1]), [Send(chunks[|chunks| - 1]), Recv];
      RoundsFollowScript(chunks[..|chunks| - 1], more + 1);
      OpsAppend(init, round);
      ConcatAssoc(Ops(init), Ops(round), ClientScript(more));
    }
  }

  /** The calls the client makes are those the protocol's client steps through. */
  lemma SessionIsScript(chunks: seq<seq<Byte>>)
    ensures Ops(Session(chunks)) == ClientScript(|chunks|)
  {
    RoundsFollowScript(chunks, 0);
    OpsAppend(Rounds(chunks), [Recv, Shut]);
    hide Rounds;
    assert Ops([Recv, Shut]) == ClientScript(0);
  }

  lemma RoundsOps(chunks: seq<seq<Byte>>)
    ensures |ClientScript(|chunks|)| == 2 * |chunks| + 2
    ensures Ops(Rounds(chunks)) == ClientScript(|chunks|)[..2 * |chunks|]
  {
    RoundsFollowScript(chunks, 0);
    ScriptAt(|chunks|, 0);
    hide Rounds;
    assert |ClientScript(0)| == 2;
  }

  /** A client that loses the server makes the script's calls up to that send, then closes: no last receive. */
  lemma BrokenOffIsScript(chunks: seq<seq<Byte>>)
    requires chunks != []
    ensures var script := ClientScript(|chunks|);
            && |script| == 2 * |chunks| + 2
            && Ops(BrokenOff(chunks)) == script[..2 * |chunks| - 1] + [Close]
            && script[2 * |chunks| - 2] == SendChunk
  {
    var init, last := chunks[..|chunks| - 1], chunks[|chunks| - 1];
    RoundsOps(chunks);
    ScriptAt(|chunks|, 2 * |chunks| - 2);
    assert Rounds(chunks) == Rounds(init) + [Send(last), Recv];
    OpsAppend(Rounds(init), [Send(last), Recv]);
    OpsAppend(Rounds(init), [Send(last), Shut]);
    hide Rounds, ClientScript;
    var script, ops := ClientScript(|chunks|), Ops(Rounds(init));
    assert Ops([Send(last), Recv]) == [SendChunk, RecvAck] && Ops([Send(last), Shut]) == [SendChunk, Close];
    assert script[..2 * |chunks|] == ops + [SendChunk, RecvAck];
    assert |ops| == 2 * |chunks| - 2;
    assert script[..2 * |chunks| - 1] == script[..2 * |chunks|][..2 * |chunks| - 1] == ops + [SendChunk];
  }
}
