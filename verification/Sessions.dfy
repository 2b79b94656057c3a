/** End to end: what client and server make of one file, told from the file. */
module Sessions {
  import opened Arithmetic
  import opened Bytes
  import opened ClientPipe
  import opened CommandControl
  import opened PushWave
  import opened WaveProtocol
  import opened WaveSchedules
  import opened WaveStreams

  // ---------------------------------------------------------------- the first block

  /**
   The client's first block, however much of it the server's first receive takes: refused if it
   does not reach behind the command word, else dispatched to the wave command with the part of
   the file that was taken.
   */
  lemma FirstBlockDispatched(first: seq<Byte>, taken: nat)
    requires |first| == CONTROL_BUFFER_SIZE && first[..12] == CNTL + PUSHWAVE && taken <= |first|
    ensures COMMANDS[1] == PUSHWAVE
    ensures DispatchOf(COMMANDS, first[..taken])
         == if taken < 12 then Rejected else Called(1, ArgOf(first[12..taken]), taken - 12)
  {
    if taken >= 12 {
      CommandsRegistered();
      FrameRoundTrip(COMMANDS, PUSHWAVE, first[12..taken], 1);
      assert first[..taken] == first[..12] + first[12..taken];
    }
  }

  /** What was received reaches the wave command, and the codec takes its argument for a wave. */
  predicate Accepts(inspect: seq<Byte> -> WaveInfo, received: seq<Byte>) {
    match DispatchOf(COMMANDS, received)
    case Called(index, Some(arg), _) => COMMANDS[1] == PUSHWAVE && index == 1 && inspect(arg).headerSize != 0
    case _ => false
  }

  /** A file, the client's framed block, how much of it the server's first receive took, and the chunks. */
  datatype Transfer = Transfer(content: seq<Byte>, first: seq<Byte>, taken: nat, chunks: seq<seq<Byte>>, chunk: nat)

  /** How much of the file is in the first block. */
  function HeadLength(content: seq<Byte>): nat {
    if |content| < PAYLOAD_SIZE then |content| else PAYLOAD_SIZE
  }

  /**
   Block and chunks as `Client.PipeInit` makes them, any part of the block taken. Of the codec: a
   header is no longer than its input, and client and server use the same chunk size.
   */
  ghost predicate Valid(t: Transfer, inspect: seq<Byte> -> WaveInfo) {
    && t.chunk > 0 && |t.first| == CONTROL_BUFFER_SIZE && t.first[..12] == CNTL + PUSHWAVE
    && t.taken <= |t.first|
    && t.first[12..12 + HeadLength(t.content)] == t.content[..HeadLength(t.content)]
    && Carries(t.chunks, t.chunk, t.content[HeadLength(t.content)..])
    && (t.taken > 12 && inspect(t.first[12..t.taken]).headerSize != 0 ==>
          && inspect(t.first[12..t.taken]).headerSize <= t.taken - 12
          && inspect(t.first[12..t.taken]).chunk == t.chunk)
  }

  ghost predicate Started(t: Transfer, inspect: seq<Byte> -> WaveInfo) {
    Valid(t, inspect) && Accepts(inspect, t.first[..t.taken])
  }

  lemma StartedExactly(t: Transfer, inspect: seq<Byte> -> WaveInfo)
    requires Valid(t, inspect)
    ensures Started(t, inspect) <==> t.taken > 12 && inspect(t.first[12..t.taken]).headerSize != 0
  {
    FirstBlockDispatched(t.first, t.taken);
  }

  ghost function HeaderSize(t: Transfer, inspect: seq<Byte> -> WaveInfo): (h: nat)
    requires Started(t, inspect)
    ensures t.taken > 12 && 0 < h <= t.taken - 12
    ensures h == inspect(t.first[12..t.taken]).headerSize
  {
    StartedExactly(t, inspect);
    inspect(t.first[12..t.taken]).headerSize
  }

  /** What the wave command splits into chunks. */
  ghost function Payload(t: Transfer, inspect: seq<Byte> -> WaveInfo): (r: seq<Byte>)
    requires Started(t, inspect)
    ensures |r| == t.taken - 12 - HeaderSize(t, inspect)
  {
    t.first[12..t.taken][HeaderSize(t, inspect)..]
  }

  /** What it receives after that: late bytes of the first block, then the chunks. */
  function Stream(t: Transfer): seq<Byte>
    requires t.taken <= |t.first|
  {
    t.first[t.taken..] + Flatten(t.chunks)
  }

  lemma NoChunksExactly(chunks: seq<seq<Byte>>, chunk: nat, data: seq<Byte>)
    requires chunk > 0 && Carries(chunks, chunk, data)
    ensures chunks == [] <==> data == []
    ensures |Flatten(chunks)| - |data| < chunk
  {
    if chunks != [] {
      FlattenLength(chunks, chunk);
    }
  }

  // ---------------------------------------------------------------- when the client waits for ever

  /** The protocol instance a client and the server run on one file. */
  ghost function SessionParams(t: Transfer, inspect: seq<Byte> -> WaveInfo): (p: Params)
    requires Valid(t, inspect)
    ensures Sensible(p)
  {
    Params(|t.chunks|, t.chunk, if Started(t, inspect) then |Residue(Payload(t, inspect), t.chunk)| else 0,
           |t.first| - t.taken, Started(t, inspect))
  }

  /**
   Whether the client can end up waiting for ever, told from the file: the first receive took no
   byte of the file or too little of it for a wave; or it took the block in one piece, and either
   the file ends with it or its payload behind the wave header is a whole number of chunks.
   */
  lemma SessionHangsExactly(t: Transfer, inspect: seq<Byte> -> WaveInfo)
    requires Valid(t, inspect)
    ensures CanGetStuck(SessionParams(t, inspect))
       <==> t.taken <= 12 || inspect(t.first[12..t.taken]).headerSize == 0
            || (t.taken == CONTROL_BUFFER_SIZE
                && (|t.content| <= PAYLOAD_SIZE
                    || (PAYLOAD_SIZE - inspect(t.first[12..t.taken]).headerSize) % t.chunk == 0))
  {
    var p := SessionParams(t, inspect);
    StartedExactly(t, inspect);
    NoChunksExactly(t.chunks, t.chunk, t.content[HeadLength(t.content)..]);
    if Started(t, inspect) {
      PiecesAndResidue(Payload(t, inspect), t.chunk);
    }
    hide CanGetStuck, Started, Residue, Payload, Carries;
    StuckExactly(p);
  }

  // ---------------------------------------------------------------- what becomes of the file

  /** The file behind the wave header, empty if it ends before. */
  function Behind(content: seq<Byte>, headerSize: nat): seq<Byte> {
    if headerSize <= |content| then content[headerSize..] else []
  }

  lemma PayloadAndStream(t: Transfer, inspect: seq<Byte> -> WaveInfo)
    requires Started(t, inspect)
    ensures Payload(t, inspect) + Stream(t) == t.first[12 + HeaderSize(t, inspect)..] + Flatten(t.chunks)
    ensures |Payload(t, inspect)| + |Stream(t)| == PAYLOAD_SIZE - HeaderSize(t, inspect) + |Flatten(t.chunks)|
  {
    var h := HeaderSize(t, inspect);
    assert t.first[12..t.taken][h..] + t.first[t.taken..] == t.first[12 + h..];
    ConcatAssoc(Payload(t, inspect), t.first[t.taken..], Flatten(t.chunks));
  }

  /**
   Behind the wave header, payload and stream carry the file to its end and then padding: less than
   a chunk of it, or, for a file shorter than the first block, what is left of that block.
   */
  lemma FileGoesThrough(t: Transfer, inspect: seq<Byte> -> WaveInfo)
    requires Started(t, inspect)
    ensures var h, sent := HeaderSize(t, inspect), Payload(t, inspect) + Stream(t);
            && Behind(t.content, h) <= sent
            && if |t.content| < PAYLOAD_SIZE then |sent| == PAYLOAD_SIZE - h
               else |sent| - |Behind(t.content, h)| < t.chunk
  {
    var h, sent := HeaderSize(t, inspect), Payload(t, inspect) + Stream(t);
    var head := HeadLength(t.content);
    PayloadAndStream(t, inspect);
    NoChunksExactly(t.chunks, t.chunk, t.content[head..]);
    if h <= |t.content| {
      BehindHeader(t.content, t.first, head, h, Flatten(t.chunks));
    }
    assert |t.content| < PAYLOAD_SIZE ==> Flatten(t.chunks) == [];
  }

  lemma BehindHeader(content: seq<Byte>, first: seq<Byte>, head: nat, h: nat, rest: seq<Byte>)
    requires head <= |content| && h <= |content| && 12 + head <= |first| && 12 + h <= |first|
    requires first[12..12 + head] == content[..head] && content[head..] <= rest
    requires 12 + head == |first| || (head == |content| && rest == [])
    ensures content[h..] <= first[12 + h..] + rest
  {
    forall k | 0 <= k < |content| - h
      ensures content[h..][k] == (first[12 + h..] + rest)[k]
    {
      if h + k < head {
        assert first[12..12 + head][h + k] == content[..head][h + k];
      } else {
        assert content[head..][h + k - head] == rest[h + k - head];
      }
    }
    var whole := first[12 + h..] + rest;
    assert content[h..] == whole[..|content| - h];
  }

  /** What of all this is new in the blocks pushed. */
  ghost function PushedNew(t: Transfer, inspect: seq<Byte> -> WaveInfo, buf: seq<Byte>, segs: seq<seq<Byte>>): seq<Byte>
    requires Started(t, inspect) && |buf| == t.chunk
    requires Fitting(t.chunk, |Residue(Payload(t, inspect), t.chunk)|, segs)
  {
    Flatten(Pieces(Payload(t, inspect), t.chunk))
    + Flatten(FreshParts(buf, |Residue(Payload(t, inspect), t.chunk)|, segs))
  }

  /**
   Something follows the server's first receive, or the file ends before the last, incomplete chunk
   of the first block.
   */
  ghost predicate EndIsPushed(t: Transfer, inspect: seq<Byte> -> WaveInfo)
    requires Started(t, inspect)
  {
    t.taken < CONTROL_BUFFER_SIZE || |t.content| > PAYLOAD_SIZE
    || |t.content| + (PAYLOAD_SIZE - HeaderSize(t, inspect)) % t.chunk <= PAYLOAD_SIZE
  }

  /**
   Whether the file is pushed to its end, told from the file: unless it fits into a first block
   received in one piece, always; then, if it ends before the last, incomplete chunk of that block.
   */
  lemma FilePushedExactly(t: Transfer, inspect: seq<Byte> -> WaveInfo, buf: seq<Byte>, segs: seq<seq<Byte>>)
    requires Started(t, inspect) && |buf| == t.chunk
    requires Delivers(t.chunk, |Residue(Payload(t, inspect), t.chunk)|, segs, Stream(t))
    requires buf[..|Residue(Payload(t, inspect), t.chunk)|] == Residue(Payload(t, inspect), t.chunk)
    ensures var h := HeaderSize(t, inspect);
            Behind(t.content, h) <= PushedNew(t, inspect, buf, segs) <==> EndIsPushed(t, inspect)
  {
    var h, payload, stream := HeaderSize(t, inspect), Payload(t, inspect), Stream(t);
    var residue, pushed := |Residue(payload, t.chunk)|, PushedNew(t, inspect, buf, segs);
    assert Flatten(segs) == stream;
    FileGoesThrough(t, inspect);
    StreamConservation(payload, t.chunk, buf, segs);
    StreamEmptyExactly(t, inspect, segs);
    if segs == [] {
      assert stream == [] && pushed == payload[..|payload| - residue];
      hide *;
      EndInOnePiece(t, inspect);
    } else {
      assert pushed == payload + stream && EndIsPushed(t, inspect);
    }
  }

  /** Nothing is received after the first block: its last, incomplete chunk is never pushed. */
  lemma EndInOnePiece(t: Transfer, inspect: seq<Byte> -> WaveInfo)
    requires Started(t, inspect) && t.taken == CONTROL_BUFFER_SIZE && |t.content| <= PAYLOAD_SIZE && Stream(t) == []
    ensures var payload := Payload(t, inspect);
            Behind(t.content, HeaderSize(t, inspect)) <= payload[..|payload| - |Residue(payload, t.chunk)|]
            <==> EndIsPushed(t, inspect)
  {
    var h, payload := HeaderSize(t, inspect), Payload(t, inspect);
    var residue := |Residue(payload, t.chunk)|;
    FileGoesThrough(t, inspect);
    ResidueInOnePiece(t, inspect);
    assert payload + Stream(t) == payload;
    assert EndIsPushed(t, inspect) <==> |t.content| + residue <= PAYLOAD_SIZE;
    hide *;
    PrefixOfPrefix(Behind(t.content, h), payload, |payload| - residue);
    BehindLength(t.content, h, residue);
  }

  lemma ResidueInOnePiece(t: Transfer, inspect: seq<Byte> -> WaveInfo)
    requires Started(t, inspect) && t.taken == CONTROL_BUFFER_SIZE
    ensures var h, payload := HeaderSize(t, inspect), Payload(t, inspect);
            && |payload| == PAYLOAD_SIZE - h
            && |Residue(payload, t.chunk)| == (PAYLOAD_SIZE - h) % t.chunk <= |payload|
  {
    PiecesAndResidue(Payload(t, inspect), t.chunk);
  }

  lemma BehindLength(content: seq<Byte>, h: nat, residue: nat)
    requires h + residue <= PAYLOAD_SIZE
    ensures |Behind(content, h)| <= PAYLOAD_SIZE - h - residue <==> |content| + residue <= PAYLOAD_SIZE
  {
  }

  lemma PrefixOfPrefix(a: seq<Byte>, whole: seq<Byte>, n: nat)
    requires a <= whole && n <= |whole|
    ensures a <= whole[..n] <==> |a| <= n
  {
  }

  lemma StreamEmptyExactly(t: Transfer, inspect: seq<Byte> -> WaveInfo, segs: seq<seq<Byte>>)
    requires Started(t, inspect)
    requires Delivers(t.chunk, |Residue(Payload(t, inspect), t.chunk)|, segs, Stream(t))
    ensures segs == [] <==> t.taken == CONTROL_BUFFER_SIZE && |t.content| <= PAYLOAD_SIZE
  {
    NoChunksExactly(t.chunks, t.chunk, t.content[HeadLength(t.content)..]);
    if t.chunks != [] {
      FlattenLength(t.chunks, t.chunk);
    }
    if segs != [] {
      FittingPrefix(t.chunk, |Residue(Payload(t, inspect), t.chunk)|, segs);
      FlattenSnoc(segs[..|segs| - 1], segs[|segs| - 1]);
      assert segs == segs[..|segs| - 1] + [segs[|segs| - 1]];
    }
  }

  // ---------------------------------------------------------------- which files can be pushed exactly

  /** All that was sent is whole chunks exactly if the first block's payload would be, received in one piece. */
  lemma SentIsWholeExactly(t: Transfer, inspect: seq<Byte> -> WaveInfo)
    requires Started(t, inspect)
    ensures (|Payload(t, inspect)| + |Stream(t)|) % t.chunk == 0
       <==> (PAYLOAD_SIZE - HeaderSize(t, inspect)) % t.chunk == 0
  {
    var n := PAYLOAD_SIZE - HeaderSize(t, inspect);
    PayloadAndStream(t, inspect);
    FlattenLength(t.chunks, t.chunk);
    WholeIff(n, t.chunk);
    WholeIff(n + Times(|t.chunks|, t.chunk), t.chunk);
    hide *;
    WholeAndTimes(n, |t.chunks|, t.chunk);
  }

  lemma {:induction false} WholeAndTimes(n: nat, k: nat, d: nat)
    requires d > 0
    ensures Whole(n + Times(k, d), d) <==> Whole(n, d)
  {
    if k > 0 {
      WholeAndTimes(n, k - 1, d);
    }
  }

  /** Some delivery makes the pushes carry exactly what was sent: a condition on header and chunk size alone. */
  lemma FileCanBeExactly(t: Transfer, inspect: seq<Byte> -> WaveInfo, buf: seq<Byte>)
    requires Started(t, inspect) && |buf| == t.chunk
    requires buf[..|Residue(Payload(t, inspect), t.chunk)|] == Residue(Payload(t, inspect), t.chunk)
    ensures (exists segs: seq<seq<Byte>> | PushedExactly(Payload(t, inspect), t.chunk, buf, segs) ::
               Flatten(segs) == Stream(t))
       <==> (PAYLOAD_SIZE - HeaderSize(t, inspect)) % t.chunk == 0
  {
    SentIsWholeExactly(t, inspect);
    hide Payload, Stream, Residue, PushedExactly;
    ExactDeliveryExists(Payload(t, inspect), t.chunk, buf, Stream(t));
  }

  /**
   But the client must also get its last ack: a session that finishes can be such a delivery only if
   the first block did not arrive in one piece.
   */
  lemma SessionFillsExactly(t: Transfer, inspect: seq<Byte> -> WaveInfo)
    requires Started(t, inspect)
    ensures CanFillAll(SessionParams(t, inspect))
       <==> t.taken < CONTROL_BUFFER_SIZE && (PAYLOAD_SIZE - HeaderSize(t, inspect)) % t.chunk == 0
  {
    var p, payload := SessionParams(t, inspect), Payload(t, inspect);
    CanFillAllExactly(p);
    WholeResidue(payload, t.chunk, p.early);
    WholeIff(|Residue(payload, t.chunk)| + p.early, t.chunk);
    WholeIff(|payload| + p.early, t.chunk);
    assert |payload| + p.early == PAYLOAD_SIZE - HeaderSize(t, inspect);
  }

  /** Received in one piece, a finished session never pushes exactly what was sent. */
  lemma OnePieceIsNeverExact(t: Transfer, inspect: seq<Byte> -> WaveInfo, s: State, steps: nat,
                             buf: seq<Byte>, segs: seq<seq<Byte>>)
    requires Started(t, inspect) && t.taken == CONTROL_BUFFER_SIZE && |buf| == t.chunk
    requires buf[..|Residue(Payload(t, inspect), t.chunk)|] == Residue(Payload(t, inspect), t.chunk)
    requires Reachable(SessionParams(t, inspect), s, steps) && Complete(SessionParams(t, inspect), s)
    requires s.sizes == Sizes(segs)
    ensures Fitting(t.chunk, |Residue(Payload(t, inspect), t.chunk)|, segs)
    ensures !PushedExactly(Payload(t, inspect), t.chunk, buf, segs)
  {
    FinishedIsNotExact(SessionParams(t, inspect), s, steps, Payload(t, inspect), buf, segs);
  }

  // ---------------------------------------------------------------- which deliveries finish

  /** A way to deliver the stream is that of a session that finishes exactly if it takes more reads than chunks. */
  lemma DeliveryFinishesExactly(t: Transfer, inspect: seq<Byte> -> WaveInfo, segs: seq<seq<Byte>>)
    requires Started(t, inspect)
    requires Delivers(t.chunk, |Residue(Payload(t, inspect), t.chunk)|, segs, Stream(t))
    ensures FinishedWith(SessionParams(t, inspect), Sizes(segs)) <==> |segs| > |t.chunks|
  {
    var p := SessionParams(t, inspect);
    FinishedReadsExactly(p, Sizes(segs));
    SumOfSizes(segs);
    FlattenLength(t.chunks, t.chunk);
    hide FinishedWith, Flatten, Residue, Payload, Sum;
  }
}
