/**
 Who is sent what, and in which state the gate sees each speaker: `FanOutLog` takes turns one
 after the other, each turn possibly changing what later turns see. The results here say what
 that amounts to in terms of the table as it was before the first turn.
 */
module FanOut {
  import opened Arithmetic
  import opened Bytes
  import opened Registry

  // ---------------------------------------------------------------- composition

  lemma FanOutSnoc(cfg: Config, recs: map<int, SpeakerRec>, init: seq<Turn>, turn: Turn)
    requires KnownTurns(recs, init) && turn.id in recs
    ensures KnownTurns(recs, init + [turn])
    ensures var before := FanOutRecs(cfg, recs, init);
            && FanOutRecs(cfg, recs, init + [turn]) == before[turn.id := GateRec(cfg, before[turn.id])]
            && FanOutLog(cfg, recs, init + [turn])
            == FanOutLog(cfg, recs, init) + AudioIf(before[turn.id], turn)
  {
    assert (init + [turn])[..|init|] == init;
  }

  lemma NextTurn(cfg: Config, recs: map<int, SpeakerRec>, turns: seq<Turn>, i: nat)
    requires KnownTurns(recs, turns) && i < |turns|
    ensures var before := FanOutRecs(cfg, recs, turns[..i]);
            && FanOutRecs(cfg, recs, turns[..i + 1])
            == before[turns[i].id := GateRec(cfg, before[turns[i].id])]
            && FanOutLog(cfg, recs, turns[..i + 1])
            == FanOutLog(cfg, recs, turns[..i]) + AudioIf(before[turns[i].id], turns[i])
  {
    assert turns[..i + 1] == turns[..i] + [turns[i]];
    FanOutSnoc(cfg, recs, turns[..i], turns[i]);
  }

  lemma {:induction false} FanOutRecsAppend(cfg: Config, recs: map<int, SpeakerRec>, a: seq<Turn>, b: seq<Turn>)
    requires KnownTurns(recs, a) && KnownTurns(recs, b)
    ensures KnownTurns(recs, a + b)
    ensures FanOutRecs(cfg, recs, a + b) == FanOutRecs(cfg, FanOutRecs(cfg, recs, a), b)
    decreases |b|
  {
    if b == [] {
      assert a + b == a;
    } else {
      var init, turn := b[..|b| - 1], b[|b| - 1];
      FanOutRecsAppend(cfg, recs, a, init);
      SnocAssoc(a, b);
      FanOutSnoc(cfg, recs, a + init, turn);
    }
  }

  lemma SnocAssoc<T>(a: seq<T>, b: seq<T>)
    requires b != []
    ensures a + b == (a + b[..|b| - 1]) + [b[|b| - 1]]
    ensures b == b[..|b| - 1] + [b[|b| - 1]]
  {
  }

  /** Two batches of turns, one after the other. */
  lemma {:induction false} FanOutAppend(cfg: Config, recs: map<int, SpeakerRec>, a: seq<Turn>, b: seq<Turn>)
    requires KnownTurns(recs, a) && KnownTurns(recs, b)
    ensures KnownTurns(recs, a + b)
    ensures FanOutRecs(cfg, recs, a + b) == FanOutRecs(cfg, FanOutRecs(cfg, recs, a), b)
    ensures FanOutLog(cfg, recs, a + b)
         == FanOutLog(cfg, recs, a) + FanOutLog(cfg, FanOutRecs(cfg, recs, a), b)
    decreases |b|
  {
    FanOutRecsAppend(cfg, recs, a, b);
    if b == [] {
      assert a + b == a;
    } else {
      var init, turn := b[..|b| - 1], b[|b| - 1];
      var mid := FanOutRecs(cfg, recs, a);
      FanOutAppend(cfg, recs, a, init);
      SnocAssoc(a, b);
      FanOutSnoc(cfg, recs, a + init, turn);
      ConcatAssoc(FanOutLog(cfg, recs, a), FanOutLog(cfg, mid, init),
                  AudioIf(FanOutRecs(cfg, mid, init)[turn.id], turn));
    }
  }

  // ---------------------------------------------------------------- the state on one's turn

  /** How many of the turns are this speaker's. */
  function Visits(turns: seq<Turn>, id: int): nat {
    if turns == [] then 0 else
      var last := |turns| - 1;
      Visits(turns[..last], id) + if turns[last].id == id then 1 else 0
  }

  function GateTimes(cfg: Config, r: SpeakerRec, visits: nat): SpeakerRec {
    if visits == 0 then r else GateRec(cfg, GateTimes(cfg, r, visits - 1))
  }

  /** A speaker's state depends on its own turns only: it has been through the gate once for each. */
  lemma {:induction false} RecAfterVisits(cfg: Config, recs: map<int, SpeakerRec>, turns: seq<Turn>, id: int)
    requires KnownTurns(recs, turns) && id in recs
    ensures FanOutRecs(cfg, recs, turns)[id] == GateTimes(cfg, recs[id], Visits(turns, id))
    decreases |turns|
  {
    if turns != [] {
      RecAfterVisits(cfg, recs, turns[..|turns| - 1], id);
    }
  }

  /** The gate's verdict on turn `k`, from the initial table alone. */
  predicate PassesOnTurn(cfg: Config, recs: map<int, SpeakerRec>, turns: seq<Turn>, k: nat)
    requires KnownTurns(recs, turns) && k < |turns|
  {
    Passes(GateTimes(cfg, recs[turns[k].id], Visits(turns[..k], turns[k].id)))
  }

  /** The packets of the first `n` turns that pass, in order. */
  function Selected(cfg: Config, recs: map<int, SpeakerRec>, turns: seq<Turn>, n: nat): seq<Message>
    requires KnownTurns(recs, turns) && n <= |turns|
  {
    if n == 0 then [] else
      Selected(cfg, recs, turns, n - 1)
      + if PassesOnTurn(cfg, recs, turns, n - 1)
        then [Audio(turns[n - 1].id, turns[n - 1].packet)] else []
  }

  lemma SelectedNext(cfg: Config, recs: map<int, SpeakerRec>, turns: seq<Turn>, n: nat)
    requires KnownTurns(recs, turns) && n < |turns|
    ensures Selected(cfg, recs, turns, n + 1) == Selected(cfg, recs, turns, n)
              + AudioIf(GateTimes(cfg, recs[turns[n].id], Visits(turns[..n], turns[n].id)), turns[n])
  {
    hide GateTimes, Visits, Passes;
  }

  /** The send log is exactly the turns that pass on their turn, in turn order. */
  lemma {:induction false} FanOutExact(cfg: Config, recs: map<int, SpeakerRec>, turns: seq<Turn>, n: nat)
    requires KnownTurns(recs, turns) && n <= |turns|
    ensures FanOutLog(cfg, recs, turns[..n]) == Selected(cfg, recs, turns, n)
  {
    if n == 0 {
      assert turns[..0] == [];
    } else {
      assert KnownTurns(recs, turns[..n - 1]) && KnownTurns(recs, turns[..n]);
      hide *;
      FanOutExact(cfg, recs, turns, n - 1);
      NextTurn(cfg, recs, turns, n - 1);
      RecAfterVisits(cfg, recs, turns[..n - 1], turns[n - 1].id);
      SelectedNext(cfg, recs, turns, n - 1);
    }
  }

  /** Where no speaker has two turns, the table before the first turn decides them all. */
  lemma SingleTurnsDecided(cfg: Config, recs: map<int, SpeakerRec>, turns: seq<Turn>, k: nat)
    requires KnownTurns(recs, turns) && k < |turns|
    requires forall i, j | 0 <= i < j < |turns| :: turns[i].id != turns[j].id
    ensures PassesOnTurn(cfg, recs, turns, k) <==> Passes(recs[turns[k].id])
  {
    NeverSeen(turns[..k], turns[k].id);
  }

  lemma {:induction false} NeverSeen(turns: seq<Turn>, id: int)
    requires forall j | 0 <= j < |turns| :: turns[j].id != id
    ensures Visits(turns, id) == 0
    decreases |turns|
  {
    if turns != [] {
      NeverSeen(turns[..|turns| - 1], id);
    }
  }

  // ---------------------------------------------------------------- one speaker's packets

  /** The audio packets sent to one speaker. */
  function AudioTo(log: seq<Message>, id: int): seq<seq<Byte>> {
    if log == [] then [] else
      var last := |log| - 1;
      AudioTo(log[..last], id)
      + if log[last].Audio? && log[last].to == id then [log[last].packet] else []
  }

  /** The packets of one speaker's turns. */
  function PacketsOf(turns: seq<Turn>, id: int): seq<seq<Byte>> {
    if turns == [] then [] else
      var last := |turns| - 1;
      PacketsOf(turns[..last], id) + if turns[last].id == id then [turns[last].packet] else []
  }

  lemma {:induction false} AudioToAppend(a: seq<Message>, b: seq<Message>, id: int)
    ensures AudioTo(a + b, id) == AudioTo(a, id) + AudioTo(b, id)
    decreases |b|
  {
    if b == [] {
      assert a + b == a;
    } else {
      AudioToAppend(a, b[..|b| - 1], id);
      assert (a + b)[..|a + b| - 1] == a + b[..|b| - 1];
    }
  }

  lemma AudioToIf(r: SpeakerRec, turn: Turn, id: int)
    ensures AudioTo(AudioIf(r, turn), id) == if Passes(r) && turn.id == id then [turn.packet] else []
  {
    if Passes(r) {
      var log := AudioIf(r, turn);
      assert log[..0] == [];
    }
  }

  lemma {:induction false} PassingStays(cfg: Config, r: SpeakerRec, visits: nat)
    requires Passes(r)
    ensures GateTimes(cfg, r, visits) == r
  {
    if visits > 0 {
      PassingStays(cfg, r, visits - 1);
    }
  }

  /** A speaker that passes the gate at the start is sent every packet of its turns, in order. */
  lemma {:induction false} ReadySpeakerGetsAll(cfg: Config, recs: map<int, SpeakerRec>, turns: seq<Turn>, id: int)
    requires KnownTurns(recs, turns) && id in recs && Passes(recs[id])
    ensures AudioTo(FanOutLog(cfg, recs, turns), id) == PacketsOf(turns, id)
    ensures FanOutRecs(cfg, recs, turns)[id] == recs[id]
    decreases |turns|
  {
    RecAfterVisits(cfg, recs, turns, id);
    PassingStays(cfg, recs[id], Visits(turns, id));
    if turns != [] {
      var last := |turns| - 1;
      var init := turns[..last];
      ReadySpeakerGetsAll(cfg, recs, init, id);
      var r := FanOutRecs(cfg, recs, init)[turns[last].id];
      AudioToAppend(FanOutLog(cfg, recs, init), AudioIf(r, turns[last]), id);
      AudioToIf(r, turns[last], id);
    }
  }

  /** What no turn at the gate can mend: no port, no descriptor, or an unsupported format. */
  predicate NeverPasses(r: SpeakerRec) {
    r.dport == 0 || r.fd <= 0 || !r.supported
  }

  lemma {:induction false} NeverPassesStays(cfg: Config, r: SpeakerRec, visits: nat)
    requires NeverPasses(r)
    ensures NeverPasses(GateTimes(cfg, r, visits))
  {
    if visits > 0 {
      NeverPassesStays(cfg, r, visits - 1);
    }
  }

  lemma {:induction false} UnfitSpeakerGetsNothing(cfg: Config, recs: map<int, SpeakerRec>, turns: seq<Turn>, id: int)
    requires KnownTurns(recs, turns) && id in recs && NeverPasses(recs[id])
    ensures AudioTo(FanOutLog(cfg, recs, turns), id) == []
    decreases |turns|
  {
    if turns != [] {
      var last := |turns| - 1;
      var init := turns[..last];
      UnfitSpeakerGetsNothing(cfg, recs, init, id);
      RecAfterVisits(cfg, recs, init, id);
      NeverPassesStays(cfg, recs[id], Visits(init, id));
      var r := FanOutRecs(cfg, recs, init)[turns[last].id];
      AudioToAppend(FanOutLog(cfg, recs, init), AudioIf(r, turns[last]), id);
      AudioToIf(r, turns[last], id);
    }
  }

  // ---------------------------------------------------------------- what a push leaves alone

  /** Apart from the online state and the timeout, a record is the same. */
  predicate SameButLiveness(r: SpeakerRec, r': SpeakerRec) {
    r' == r.(online := r'.online, timeout := r'.timeout)
  }

  lemma {:induction false} GateTimesLiveness(cfg: Config, r: SpeakerRec, visits: nat)
    ensures SameButLiveness(r, GateTimes(cfg, r, visits))
    ensures Reachable(r) ==> GateTimes(cfg, r, visits) == r
  {
    if visits > 0 {
      GateTimesLiveness(cfg, r, visits - 1);
    }
  }

  /** A push changes no more than online states and timeouts, and no reachable speaker at all. */
  lemma PushTouchesLivenessOnly(cfg: Config, recs: map<int, SpeakerRec>, turns: seq<Turn>, id: int)
    requires KnownTurns(recs, turns) && id in recs
    ensures SameButLiveness(recs[id], FanOutRecs(cfg, recs, turns)[id])
    ensures Reachable(recs[id]) ==> FanOutRecs(cfg, recs, turns)[id] == recs[id]
  {
    RecAfterVisits(cfg, recs, turns, id);
    GateTimesLiveness(cfg, recs[id], Visits(turns, id));
  }

  // ---------------------------------------------------------------- blocks

  lemma {:induction false} BlockTurnsKnown(reg: Registry, line: int, channels: seq<int>, packets: seq<seq<Byte>>)
    requires Consistent(reg) && |channels| == |packets|
    ensures KnownTurns(reg.recs, BlockTurns(reg, line, channels, packets))
    decreases |channels|
  {
    if channels != [] {
      BlockTurnsKnown(reg, line, channels[..|channels| - 1], packets[..|channels| - 1]);
    }
  }

  /** How many turns the first `c` channels have. */
  function TurnsBefore(reg: Registry, line: int, channels: seq<int>, c: nat): nat
    requires c <= |channels|
  {
    if c == 0 then 0 else TurnsBefore(reg, line, channels, c - 1) + |Members(reg, line, channels[c - 1])|
  }

  lemma {:induction false} TurnsBeforePrefix(reg: Registry, line: int, channels: seq<int>, m: nat, c: nat)
    requires c <= m <= |channels|
    ensures TurnsBefore(reg, line, channels[..m], c) == TurnsBefore(reg, line, channels, c)
  {
    if c > 0 {
      TurnsBeforePrefix(reg, line, channels, m, c - 1);
    }
  }

  /** Channel after channel, and within each its members in list order, each with the channel's packet. */
  lemma {:induction false} BlockTurnAt(reg: Registry, line: int, channels: seq<int>, packets: seq<seq<Byte>>,
                                       c: nat, m: nat)
    requires |channels| == |packets| && c < |channels| && m < |Members(reg, line, channels[c])|
    ensures |BlockTurns(reg, line, channels, packets)| == TurnsBefore(reg, line, channels, |channels|)
    ensures TurnsBefore(reg, line, channels, c) + m < |BlockTurns(reg, line, channels, packets)|
    ensures BlockTurns(reg, line, channels, packets)[TurnsBefore(reg, line, channels, c) + m]
         == Turn(Members(reg, line, channels[c])[m], packets[c])
    decreases |channels|
  {
    var last := |channels| - 1;
    var init, own := BlockTurns(reg, line, channels[..last], packets[..last]),
                     TurnsOf(Members(reg, line, channels[last]), packets[last]);
    assert BlockTurns(reg, line, channels, packets) == init + own;
    assert c == last ==> own[m] == Turn(Members(reg, line, channels[c])[m], packets[c]);
    assert |own| == |Members(reg, line, channels[last])|;
    assert c < last ==> channels[..last][c] == channels[c] && packets[..last][c] == packets[c];
    BlockTurnsLength(reg, line, channels, packets);
    hide *;
    BlockTurnsLength(reg, line, channels[..last], packets[..last]);
    TurnsBeforePrefix(reg, line, channels, last, last);
    TurnsBeforePrefix(reg, line, channels, last, c);
    if c < last {
      BlockTurnAt(reg, line, channels[..last], packets[..last], c, m);
    }
  }

  lemma {:induction false} BlockTurnsLength(reg: Registry, line: int, channels: seq<int>, packets: seq<seq<Byte>>)
    requires |channels| == |packets|
    ensures |BlockTurns(reg, line, channels, packets)| == TurnsBefore(reg, line, channels, |channels|)
    decreases |channels|
  {
    if channels != [] {
      var last := |channels| - 1;
      BlockTurnsLength(reg, line, channels[..last], packets[..last]);
      TurnsBeforePrefix(reg, line, channels, last, last);
    }
  }

  // ---------------------------------------------------------------- what the gate makes of a speaker

  /** State and timeout after `n` online checks without an announcement. */
  function Rechecked(cfg: Config, online: bool, timeout: int, n: nat): (bool, int) {
    if n == 0 then (online, timeout) else
      var (o, t) := Rechecked(cfg, online, timeout, n - 1);
      cfg.recheck(o, t)
  }

  /** A speaker without port or descriptor is checked once on each of its turns, and nothing else changes. */
  lemma {:induction false} EveryTurnRechecks(cfg: Config, recs: map<int, SpeakerRec>, turns: seq<Turn>, id: int)
    requires KnownTurns(recs, turns) && id in recs && (recs[id].dport == 0 || recs[id].fd <= 0)
    ensures var (online, timeout) := Rechecked(cfg, recs[id].online, recs[id].timeout, Visits(turns, id));
            FanOutRecs(cfg, recs, turns)[id] == recs[id].(online := online, timeout := timeout)
    decreases |turns|
  {
    if turns != [] {
      EveryTurnRechecks(cfg, recs, turns[..|turns| - 1], id);
    }
  }

  /** The gate changes a record only by the online check, and makes it exactly for a speaker not reachable. */
  lemma GateExactly(cfg: Config, recs: map<int, SpeakerRec>, turn: Turn)
    requires turn.id in recs
    ensures KnownTurns(recs, [turn])
    ensures var r := recs[turn.id];
            var (online, timeout) := cfg.recheck(r.online, r.timeout);
            FanOutRecs(cfg, recs, [turn])
            == recs[turn.id := if r.dport != 0 && r.online && r.fd > 0 then r
                               else r.(online := online, timeout := timeout)]
    ensures var r := recs[turn.id];
            FanOutLog(cfg, recs, [turn])
            == if r.dport != 0 && r.online && r.fd > 0 && r.supported then [Audio(turn.id, turn.packet)] else []
  {
    assert [turn][..0] == [];
  }

  // ---------------------------------------------------------------- the sequence counter

  lemma NextSeqInRange(x: int)
    requires 1 <= x <= 0xFFFF
    ensures NextSeq(x) == if x == 0xFFFF then 1 else x + 1
    ensures 1 <= NextSeq(x) <= 0xFFFF
  {
  }

  lemma NextRemainder(x: nat, d: nat)
    requires d > 1
    ensures (x + 1) % d == if x % d == d - 1 then 0 else x % d + 1
  {
    var q, r := x / d, x % d;
    assert x == q * d + r;
    if r == d - 1 {
      MulSucc(q, d);
      DivModUnique(x + 1, d, q + 1, 0);
    } else {
      DivModUnique(x + 1, d, q, r + 1);
    }
  }

  /** From its initial 1, the counter cycles through 1..65535 and is never 0. */
  lemma {:induction false} SequenceCounter(pushes: nat)
    ensures SeqAfter(1, pushes) == 1 + pushes % 0xFFFF
    ensures 1 <= SeqAfter(1, pushes) <= 0xFFFF
  {
    if pushes > 0 {
      SequenceCounter(pushes - 1);
      NextSeqInRange(SeqAfter(1, pushes - 1));
      NextRemainder(pushes - 1, 0xFFFF);
    }
  }

  lemma {:induction false} SeqAfterSum(x: int, a: nat, b: nat)
    ensures SeqAfter(SeqAfter(x, a), b) == SeqAfter(x, a + b)
  {
    if b > 0 {
      SeqAfterSum(x, a, b - 1);
    }
  }
}
