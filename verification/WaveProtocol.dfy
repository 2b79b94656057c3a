/**
 The streaming protocol between a client and the server's wave command, as interleaved steps.
 The client sends chunks and waits for one ack after each, then for one more; the server reads
 what is there, up to its window, and acks every read. Reads may be short. A server that has
 refused the first block reads nothing more and leaves the connection open.
 */
module WaveProtocol {
  import opened Arithmetic

  /** The socket calls of the client after its first block. */
  datatype Op = SendChunk | RecvAck | Close

  function ClientScript(k: nat): seq<Op> {
    if k == 0 then [RecvAck, Close] else [SendChunk, RecvAck] + ClientScript(k - 1)
  }

  /**
   `k` chunks follow the first block; `residue` bytes of the first block are left over by the
   splitter; `early` bytes of the first block were not taken by the server's first receive and
   are still in the stream; `accepted` says whether what was taken started the wave command.
   */
  datatype Params = Params(k: nat, chunk: nat, residue: nat, early: nat, accepted: bool)

  ghost predicate Sensible(p: Params) {
    p.residue < p.chunk
  }

  /** `Away`: the server has gone back to wait for other connections, this one left open. */
  datatype Phase = Receiving | Pushing | Finished | Away

  /** `done` counts the client's calls; `sizes` are those of the server's reads so far. */
  datatype State = State(done: nat, inFlight: nat, acks: nat, sizes: seq<nat>, phase: Phase)

  function Init(p: Params): State {
    State(0, p.early, 0, [], if p.accepted then Receiving else Away)
  }

  function Window(p: Params, sizes: seq<nat>): int {
    if sizes == [] then p.chunk - p.residue else p.chunk
  }

  ghost predicate ClientStep(p: Params, s: State, s': State) {
    s.done < |ClientScript(p.k)| &&
    match ClientScript(p.k)[s.done]
    case SendChunk => s' == s.(done := s.done + 1, inFlight := s.inFlight + p.chunk)
    case RecvAck => s.acks > 0 && s' == s.(done := s.done + 1, acks := s.acks - 1)
    case Close => s' == s.(done := s.done + 1)
  }

  ghost predicate Closed(p: Params, s: State) {
    s.done == |ClientScript(p.k)|
  }

  ghost predicate ServerRead(p: Params, s: State, s': State, n: nat) {
    && s.phase == Receiving && 1 <= n <= Window(p, s.sizes) && n <= s.inFlight
    && s' == s.(inFlight := s.inFlight - n, sizes := s.sizes + [n], phase := Pushing)
  }

  ghost predicate ServerStep(p: Params, s: State, s': State) {
    || (exists n: nat :: ServerRead(p, s, s', n))
    || (s.phase == Pushing && s' == s.(acks := s.acks + 1, phase := Receiving))
    || (s.phase == Receiving && s.inFlight == 0 && Closed(p, s) && s' == s.(phase := Finished))
  }

  ghost predicate Next(p: Params, s: State, s': State) {
    ClientStep(p, s, s') || ServerStep(p, s, s')
  }

  ghost predicate Reachable(p: Params, s: State, steps: nat)
    decreases steps
  {
    if steps == 0 then s == Init(p)
    else exists t :: Reachable(p, t, steps - 1) && Next(p, t, s)
  }

  lemma OneMoreStep(p: Params, t: State, s: State, steps: nat)
    requires Reachable(p, t, steps) && Next(p, t, s)
    ensures Reachable(p, s, steps + 1)
  {
    hide Next;
  }

  ghost predicate Terminal(p: Params, s: State) {
    forall s' :: !Next(p, s, s')
  }

  ghost predicate Complete(p: Params, s: State) {
    Closed(p, s) && s.phase == Finished
  }

  /** The client waits for an ack, and the server for bytes or not for this client at all. */
  ghost predicate Stuck(p: Params, s: State) {
    && s.done < |ClientScript(p.k)| && ClientScript(p.k)[s.done] == RecvAck && s.acks == 0
    && ((s.phase == Receiving && s.inFlight == 0) || s.phase == Away)
  }

  // ---------------------------------------------------------------- the client's position

  lemma {:induction false} ScriptAt(k: nat, i: nat)
    ensures |ClientScript(k)| == 2 * k + 2
    ensures i < 2 * k && i % 2 == 0 ==> ClientScript(k)[i] == SendChunk
    ensures i < 2 * k && i % 2 == 1 ==> ClientScript(k)[i] == RecvAck
    ensures i == 2 * k ==> ClientScript(k)[i] == RecvAck
    ensures i == 2 * k + 1 ==> ClientScript(k)[i] == Close
  {
    if k > 0 {
      ScriptAt(k - 1, if i < 2 then 0 else i - 2);
    }
  }

  /** Chunks sent and acks taken after `i` calls. */
  function Sent(p: Params, i: nat): nat {
    if i < 2 * p.k then (i + 1) / 2 else p.k
  }

  function Taken(p: Params, i: nat): nat {
    if i <= 2 * p.k then i / 2 else p.k + 1
  }

  // ---------------------------------------------------------------- the counting invariant

  function Sum(sizes: seq<nat>): nat {
    if sizes == [] then 0 else Sum(sizes[..|sizes| - 1]) + sizes[|sizes| - 1]
  }

  /** Every read got something and stayed inside its window. */
  ghost predicate ValidReads(chunk: nat, residue: nat, sizes: seq<nat>) {
    forall j | 0 <= j < |sizes| :: 1 <= sizes[j] <= chunk - (if j == 0 then residue else 0)
  }

  lemma {:induction false} ReadsBound(chunk: nat, residue: nat, sizes: seq<nat>)
    requires residue <= chunk && ValidReads(chunk, residue, sizes)
    ensures Sum(sizes) + (if sizes == [] then 0 else residue) <= Times(|sizes|, chunk)
    ensures |sizes| <= Sum(sizes)
    decreases |sizes|
  {
    if sizes != [] {
      ReadsBound(chunk, residue, sizes[..|sizes| - 1]);
    }
  }

  ghost predicate Invariant(p: Params, s: State) {
    && s.done <= 2 * p.k + 2
    && ValidReads(p.chunk, p.residue, s.sizes)
    && Sum(s.sizes) + s.inFlight == p.early + Times(Sent(p, s.done), p.chunk)
    && |s.sizes| == Taken(p, s.done) + s.acks + (if s.phase == Pushing then 1 else 0)
    && (s.phase == Finished ==> s.done == 2 * p.k + 2 && s.inFlight == 0)
    && (s.phase == Away <==> !p.accepted)
    && (s.phase == Away ==> s.sizes == [])
  }

  lemma ClientKeepsInvariant(p: Params, s: State, s': State)
    requires Invariant(p, s) && ClientStep(p, s, s')
    ensures Invariant(p, s')
  {
    ScriptAt(p.k, s.done);
    hide ClientScript, Sum, ValidReads;
  }

  lemma ServerKeepsInvariant(p: Params, s: State, s': State)
    requires Invariant(p, s) && ServerStep(p, s, s')
    ensures Invariant(p, s')
  {
    ScriptAt(p.k, s.done);
    hide ClientScript, Times, Sent, Taken;
    if n: nat :| ServerRead(p, s, s', n) {
      assert s'.sizes[..|s.sizes|] == s.sizes;
    }
  }

  lemma NextKeepsInvariant(p: Params, s: State, s': State)
    requires Invariant(p, s) && Next(p, s, s')
    ensures Invariant(p, s')
  {
    hide Invariant, ClientStep, ServerStep;
    if ClientStep(p, s, s') {
      ClientKeepsInvariant(p, s, s');
    } else {
      ServerKeepsInvariant(p, s, s');
    }
  }

  lemma {:induction false} AlwaysInvariant(p: Params, s: State, steps: nat)
    requires Reachable(p, s, steps)
    ensures Invariant(p, s)
    decreases steps
  {
    hide Next, Invariant;
    if steps == 0 {
      InitInvariant(p);
    } else {
      var t :| Reachable(p, t, steps - 1) && Next(p, t, s);
      AlwaysInvariant(p, t, steps - 1);
      NextKeepsInvariant(p, t, s);
    }
  }

  lemma InitInvariant(p: Params)
    ensures Invariant(p, Init(p))
  {
  }

  // ---------------------------------------------------------------- deadlock freedom

  /** While a chunk is unacknowledged and every ack is consumed, the server has bytes to read. */
  lemma StreamingNeverStuck(p: Params, s: State, steps: nat)
    requires Sensible(p) && p.accepted && Reachable(p, s, steps) && s.done < 2 * p.k
    ensures !Stuck(p, s)
  {
    AlwaysInvariant(p, s, steps);
    ScriptAt(p.k, s.done);
    if Stuck(p, s) {
      var j := s.done / 2;
      assert Sent(p, s.done) == j + 1 && |s.sizes| == j;
      ReadsBound(p.chunk, p.residue, s.sizes);
      assert false;
    }
  }

  ghost predicate CanGetStuck(p: Params) {
    exists s: State, steps: nat :: Reachable(p, s, steps) && Stuck(p, s)
  }

  /** The final receive is served if bytes are left over for one read more than chunks were sent. */
  lemma DrainIsServed(p: Params, s: State, steps: nat)
    requires Sensible(p) && p.accepted && Reachable(p, s, steps)
    requires p.early > 0 || (p.k > 0 && p.residue > 0)
    ensures !Stuck(p, s)
  {
    if s.done < 2 * p.k {
      StreamingNeverStuck(p, s, steps);
    } else {
      AlwaysInvariant(p, s, steps);
      ScriptAt(p.k, s.done);
      hide ClientScript, Reachable, ValidReads;
      ReadsBound(p.chunk, p.residue, s.sizes);
    }
  }

  function Copies(j: nat, n: nat): seq<nat> {
    if j == 0 then [] else Copies(j - 1, n) + [n]
  }

  function AfterRounds(p: Params, j: nat): State {
    State(2 * j, 0, 0, Copies(j, p.chunk), Receiving)
  }

  lemma FullRound(p: Params, j: nat) returns (s1: State, s2: State, s3: State)
    requires Sensible(p) && p.residue == 0 && j < p.k
    ensures Next(p, AfterRounds(p, j), s1) && Next(p, s1, s2) && Next(p, s2, s3)
    ensures Next(p, s3, AfterRounds(p, j + 1))
  {
    ScriptAt(p.k, 2 * j);
    ScriptAt(p.k, 2 * j + 1);
    hide ClientScript;
    var s0 := AfterRounds(p, j);
    s1 := s0.(done := s0.done + 1, inFlight := p.chunk);
    s2 := s1.(inFlight := 0, sizes := s1.sizes + [p.chunk], phase := Pushing);
    s3 := s2.(acks := 1, phase := Receiving);
    assert ServerRead(p, s1, s2, p.chunk);
  }

  lemma NoRounds(p: Params)
    requires p.early == 0 && p.accepted
    ensures Reachable(p, AfterRounds(p, 0), 0)
  {
  }

  /** With nothing left over, full reads bring both sides to a standstill after every chunk. */
  lemma {:induction false} FullReadsReach(p: Params, j: nat)
    requires Sensible(p) && p.accepted && p.early == 0 && p.residue == 0 && j <= p.k
    ensures Reachable(p, AfterRounds(p, j), 4 * j)
  {
    hide Reachable, Next, AfterRounds;
    if j == 0 {
      NoRounds(p);
    } else {
      FullReadsReach(p, j - 1);
      var s1, s2, s3 := FullRound(p, j - 1);
      OneMoreStep(p, AfterRounds(p, j - 1), s1, 4 * j - 4);
      OneMoreStep(p, s1, s2, 4 * j - 3);
      OneMoreStep(p, s2, s3, 4 * j - 2);
      OneMoreStep(p, s3, AfterRounds(p, j), 4 * j - 1);
    }
  }

  lemma RefusedGetsStuck(p: Params)
    requires !p.accepted
    ensures CanGetStuck(p)
  {
    ScriptAt(p.k, 0);
    ScriptAt(p.k, 1);
    var s0 := Init(p);
    assert Reachable(p, s0, 0);
    if p.k == 0 {
      assert Stuck(p, s0);
    } else {
      var s1 := s0.(done := 1, inFlight := p.early + p.chunk);
      assert ClientStep(p, s0, s1);
      OneMoreStep(p, s0, s1, 0);
      assert Stuck(p, s1);
    }
  }

  /**
   The client can end up waiting for ever exactly if its first block was refused, or nothing is
   left over for the final ack.
   */
  lemma StuckExactly(p: Params)
    requires Sensible(p)
    ensures CanGetStuck(p) <==> !p.accepted || (p.early == 0 && (p.k == 0 || p.residue == 0))
  {
    if !p.accepted {
      RefusedGetsStuck(p);
    } else if p.early == 0 && p.k == 0 {
      ScriptAt(0, 0);
      assert Reachable(p, Init(p), 0) && Stuck(p, Init(p));
    } else if p.early == 0 && p.residue == 0 {
      FullReadsReach(p, p.k);
      ScriptAt(p.k, 2 * p.k);
      assert Stuck(p, AfterRounds(p, p.k));
    } else {
      forall s: State, steps: nat | Reachable(p, s, steps)
        ensures !Stuck(p, s)
      {
        DrainIsServed(p, s, steps);
      }
    }
  }

  // ---------------------------------------------------------------- termination

  /** Bytes and calls still to come, each step of either side using some up. */
  function Measure(p: Params, s: State): int {
    2 * (p.early + Times(p.k, p.chunk) - Sum(s.sizes)) + (2 * p.k + 2 - s.done)
    + (match s.phase case Finished => 0 case Away => 0 case Receiving => 1 case Pushing => 2)
  }

  lemma {:induction false} TimesMonotone(a: nat, b: nat, d: nat)
    requires a <= b
    ensures Times(a, d) <= Times(b, d)
    decreases b
  {
    if a < b {
      TimesMonotone(a, b - 1, d);
    }
  }

  lemma NextDecreases(p: Params, s: State, s': State)
    requires Invariant(p, s) && Next(p, s, s')
    ensures 0 <= Measure(p, s') < Measure(p, s)
  {
    NextKeepsInvariant(p, s, s');
    TimesMonotone(Sent(p, s'.done), p.k, p.chunk);
    ScriptAt(p.k, s.done);
    if n: nat :| ServerRead(p, s, s', n) {
      assert s'.sizes[..|s.sizes|] == s.sizes;
    }
  }

  /** No run is longer than this. */
  lemma {:induction false} RunsAreBounded(p: Params, s: State, steps: nat)
    requires Reachable(p, s, steps)
    ensures 0 <= Measure(p, s) && steps + Measure(p, s) <= Measure(p, Init(p))
    decreases steps
  {
    hide Measure, Next, Invariant;
    if steps == 0 {
      InitMeasure(p);
    } else {
      var t :| Reachable(p, t, steps - 1) && Next(p, t, s);
      RunsAreBounded(p, t, steps - 1);
      AlwaysInvariant(p, t, steps - 1);
      NextDecreases(p, t, s);
    }
  }

  lemma InitMeasure(p: Params)
    ensures 0 <= Measure(p, Init(p))
  {
  }

  /** A run that can go no further is complete, or stuck in the final receive. */
  lemma TerminalStates(p: Params, s: State, steps: nat)
    requires Sensible(p) && Reachable(p, s, steps)
    ensures Terminal(p, s) <==> Complete(p, s) || Stuck(p, s)
  {
    AlwaysInvariant(p, s, steps);
    ScriptAt(p.k, s.done);
    if !Complete(p, s) && !Stuck(p, s) {
      SomeStep(p, s);
    }
  }

  lemma SomeStep(p: Params, s: State)
    requires Sensible(p) && Invariant(p, s) && !Complete(p, s) && !Stuck(p, s)
    ensures !Terminal(p, s)
  {
    ScriptAt(p.k, s.done);
    if s.phase == Pushing {
      assert Next(p, s, s.(acks := s.acks + 1, phase := Receiving));
    } else if s.inFlight > 0 && s.phase == Receiving {
      var s' := s.(inFlight := s.inFlight - 1, sizes := s.sizes + [1], phase := Pushing);
      assert ServerRead(p, s, s', 1);
      assert Next(p, s, s');
    } else if s.done == 2 * p.k + 2 {
      assert Next(p, s, s.(phase := Finished));
    } else if ClientScript(p.k)[s.done] == RecvAck {
      assert Next(p, s, s.(done := s.done + 1, acks := s.acks - 1));
    } else if ClientScript(p.k)[s.done] == SendChunk {
      assert Next(p, s, s.(done := s.done + 1, inFlight := s.inFlight + p.chunk));
    } else {
      assert Next(p, s, s.(done := s.done + 1));
    }
  }

  /** If bytes are left over, every run ends, and it ends with both sides done. */
  lemma EveryRunCompletes(p: Params, s: State, steps: nat)
    requires Sensible(p) && p.accepted && Reachable(p, s, steps)
    requires p.early > 0 || (p.k > 0 && p.residue > 0)
    ensures steps <= Measure(p, Init(p))
    ensures Terminal(p, s) <==> Complete(p, s)
  {
    RunsAreBounded(p, s, steps);
    TerminalStates(p, s, steps);
    DrainIsServed(p, s, steps);
  }

  /** A refused client gets nothing: every run ends, and it ends with the client waiting. */
  lemma RefusedAlwaysHangs(p: Params, s: State, steps: nat)
    requires Sensible(p) && !p.accepted && Reachable(p, s, steps)
    ensures steps <= Measure(p, Init(p))
    ensures s.acks == 0 && s.sizes == [] && !Complete(p, s)
    ensures Terminal(p, s) <==> Stuck(p, s)
  {
    RunsAreBounded(p, s, steps);
    TerminalStates(p, s, steps);
    AlwaysInvariant(p, s, steps);
  }

  // ---------------------------------------------------------------- the server's calls

  /** A receive with what it got, 0 at the end of the stream, or an ack. */
  datatype Call = Got(n: nat) | Acked

  /** Read after read, each acknowledged before the next. */
  function Served(sizes: seq<nat>): seq<Call> {
    if sizes == [] then [] else Served(sizes[..|sizes| - 1]) + [Got(sizes[|sizes| - 1]), Acked]
  }

  /** All calls of a server that has stopped at the end of the stream. */
  function ServedAll(sizes: seq<nat>): seq<Call> {
    Served(sizes) + [Got(0)]
  }

  /** The calls a server has made, told from where it stands. */
  function CallsSoFar(s: State): seq<Call> {
    match s.phase
    case Receiving => Served(s.sizes)
    case Away => Served(s.sizes)
    case Finished => ServedAll(s.sizes)
    case Pushing =>
      if s.sizes == [] then [] else Served(s.sizes[..|s.sizes| - 1]) + [Got(s.sizes[|s.sizes| - 1])]
  }

  /** The call a step of the server is. */
  function CallOf(s: State, s': State): Call {
    if s.phase == Pushing then Acked
    else if s'.phase == Pushing && s'.sizes != [] then Got(s'.sizes[|s'.sizes| - 1])
    else Got(0)
  }

  /** Every step of the server adds its call to the log; the client's steps add none. */
  lemma StepsAreCalls(p: Params, s: State, s': State, steps: nat)
    requires Reachable(p, s, steps) && Next(p, s, s')
    ensures CallsSoFar(s') == CallsSoFar(s) + if ServerStep(p, s, s') then [CallOf(s, s')] else []
  {
    AlwaysInvariant(p, s, steps);
    assert s.phase == Pushing ==> s.sizes != [];
    hide *;
    if ServerStep(p, s, s') {
      ServerStepIsCall(p, s, s');
    } else {
      ClientStepIsNoCall(p, s, s');
    }
  }

  lemma ClientStepIsNoCall(p: Params, s: State, s': State)
    requires Next(p, s, s') && !ServerStep(p, s, s')
    ensures CallsSoFar(s') == CallsSoFar(s)
  {
    hide Served, ServerStep, ClientScript;
    assert s'.phase == s.phase && s'.sizes == s.sizes;
  }

  lemma ServerStepIsCall(p: Params, s: State, s': State)
    requires ServerStep(p, s, s') && (s.phase == Pushing ==> s.sizes != [])
    ensures CallsSoFar(s') == CallsSoFar(s) + [CallOf(s, s')]
  {
    hide Served, ClientScript;
    if n: nat :| ServerRead(p, s, s', n) {
      ReadIsCall(p, s, s', n);
    } else if s.phase == Pushing {
      AckIsCall(s.sizes);
    }
  }

  lemma ReadIsCall(p: Params, s: State, s': State, n: nat)
    requires ServerRead(p, s, s', n)
    ensures CallsSoFar(s') == CallsSoFar(s) + [CallOf(s, s')]
  {
    assert s'.sizes[..|s.sizes|] == s.sizes;
  }

  lemma AckIsCall(sizes: seq<nat>)
    requires sizes != []
    ensures Served(sizes) == (Served(sizes[..|sizes| - 1]) + [Got(sizes[|sizes| - 1])]) + [Acked]
  {
  }
}
