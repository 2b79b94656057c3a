/**
 Start-ups of any number of hosts on one network without loss: a starting server probes, exits
 if a running one answers, and otherwise installs its own responder.
 */
module Election {
  import opened Bytes
  import opened CText
  import opened Registry
  import opened ServerMutex

  /** A host not in the map has never started. `probe` and `install` are the times of those steps. */
  datatype Status =
    | Answered(probe: nat)
    | Cleared(probe: nat)
    | Running(probe: nat, install: nat)
    | Gone(probe: nat)
    | Stopped(probe: nat)

  /** The time a server that has been stopped was up. */
  datatype Life = Life(install: nat, stop: nat)

  /** `past` lists the servers stopped so far; the same host may be among them more than once. */
  datatype World = World(now: nat, hosts: map<int, Status>, past: seq<Life>)

  /** What the answer of a running server could depend on: its configuration, its table, its surroundings. */
  datatype Answerer = Answerer(cfg: Config, reg: Registry, src: Addr, env: Env)

  /** `who` is the state of whichever running server answers the probe, if one does. */
  datatype Action = Probe(h: int, who: Answerer) | Exit(h: int) | Install(h: int) | Stop(h: int)

  predicate IsRunning(w: World, h: int) {
    h in w.hosts && w.hosts[h].Running?
  }

  predicate IsCleared(w: World, h: int) {
    h in w.hosts && w.hosts[h].Cleared?
  }

  predicate CanStart(w: World, h: int) {
    h in w.hosts ==> w.hosts[h].Gone? || w.hosts[h].Stopped?
  }

  predicate SomeRunning(w: World) {
    exists h | h in w.hosts :: w.hosts[h].Running?
  }

  /** What a running server sends back for a probe: its detection socket's answer. */
  function AnswerTo(cfg: Config, reg: Registry, src: Addr, probe: seq<Byte>, env: Env): Option<seq<Byte>> {
    var log := OnDatagram(cfg, reg, src, probe, env).log;
    if |log| == 1 && log[0].MutexAnswer? then Some(log[0].text) else None
  }

  /** A probe makes any running server, whatever its table, send what makes the prober exit. */
  lemma ProbeIsFatal(cfg: Config, reg: Registry, src: Addr, env: Env)
    ensures AnswerTo(cfg, reg, src, MUTEX_TAG, env) == Some(MUTEX_RSP)
    ensures Exits(AnswerTo(cfg, reg, src, MUTEX_TAG, env))
    ensures OnDatagram(cfg, reg, src, MUTEX_TAG, env).reg == reg
  {
    MutexTextsHaveNoTerminator();
    assert MUTEX_RSP[..18] == MUTEX_RSP;
  }

  /** The reply a prober gets, with nothing lost: a running server's answer to the tag. */
  function ReplyIn(w: World, who: Answerer): Option<seq<Byte>> {
    if SomeRunning(w) then AnswerTo(who.cfg, who.reg, who.src, MUTEX_TAG, who.env) else None
  }

  ghost function Apply(w: World, a: Action): World {
    match a
    case Probe(h, who) =>
      if CanStart(w, h)
      then World(w.now + 1, w.hosts[h := if Exits(ReplyIn(w, who)) then Answered(w.now) else Cleared(w.now)], w.past)
      else w
    case Exit(h) =>
      if h in w.hosts && w.hosts[h].Answered?
      then World(w.now + 1, w.hosts[h := Gone(w.hosts[h].probe)], w.past) else w
    case Install(h) =>
      if h in w.hosts && w.hosts[h].Cleared?
      then World(w.now + 1, w.hosts[h := Running(w.hosts[h].probe, w.now)], w.past) else w
    case Stop(h) =>
      if h in w.hosts && w.hosts[h].Running?
      then World(w.now + 1, w.hosts[h := Stopped(w.hosts[h].probe)],
                 w.past + [Life(w.hosts[h].install, w.now)])
      else w
  }

  ghost function After(w: World, actions: seq<Action>): World
    decreases |actions|
  {
    if actions == [] then w else Apply(After(w, actions[..|actions| - 1]), actions[|actions| - 1])
  }

  const START := World(0, map[], [])

  /** Whoever answers, a prober exits exactly if some server is running. */
  lemma ProbeOutcome(w: World, who: Answerer)
    ensures Exits(ReplyIn(w, who)) <==> SomeRunning(w)
  {
    ProbeIsFatal(who.cfg, who.reg, who.src, who.env);
  }

  lemma ActionOutcome(w: World, a: Action)
    ensures a.Probe? ==> (Exits(ReplyIn(w, a.who)) <==> SomeRunning(w))
  {
    if a.Probe? {
      ProbeOutcome(w, a.who);
    }
  }

  /** A probe changes nobody but the prober: answering does not stop the one who answers. */
  lemma ActionTouchesOneHost(w: World, a: Action, other: int)
    requires other != a.h
    ensures other in Apply(w, a).hosts <==> other in w.hosts
    ensures other in w.hosts ==> Apply(w, a).hosts[other] == w.hosts[other]
  {
  }

  // ---------------------------------------------------------------- over all runs

  /** Its probe went unanswered. */
  predicate LetIn(s: Status) {
    s.Cleared? || s.Running? || s.Stopped?
  }

  predicate TurnedAway(s: Status) {
    s.Answered? || s.Gone?
  }

  /** Times lie in the past, and nobody was let in by a server installed before its probe. */
  ghost predicate Ordered(w: World) {
    && (forall h | h in w.hosts :: w.hosts[h].probe < w.now)
    && (forall h | h in w.hosts && w.hosts[h].Running? :: w.hosts[h].probe < w.hosts[h].install < w.now)
    && (forall a, b | IsRunning(w, b) && a in w.hosts && a != b && LetIn(w.hosts[a]) ::
          w.hosts[a].probe < w.hosts[b].install)
  }

  /** Whoever is in play after an action was so before, unchanged, or is the one that acted. */
  lemma WhoIsInPlay(w: World, a: Action, h: int)
    requires h in Apply(w, a).hosts && Apply(w, a) != w && h == a.h
    ensures Apply(w, a).now == w.now + 1
    ensures Apply(w, a).hosts[h].Cleared? ==> !SomeRunning(w) && Apply(w, a).hosts[h].probe == w.now
    ensures Apply(w, a).hosts[h].Running? ==>
              IsCleared(w, h) && Apply(w, a).hosts[h] == Running(w.hosts[h].probe, w.now)
    ensures Apply(w, a).hosts[h].Stopped? ==>
              IsRunning(w, h) && Apply(w, a).hosts[h] == Stopped(w.hosts[h].probe)
  {
    ActionOutcome(w, a);
    hide Exits;
  }

  lemma ApplyKeepsTimes(w: World, a: Action)
    requires Ordered(w)
    ensures forall h | h in Apply(w, a).hosts :: Apply(w, a).hosts[h].probe < Apply(w, a).now
    ensures forall h | h in Apply(w, a).hosts && Apply(w, a).hosts[h].Running? ::
              Apply(w, a).hosts[h].probe < Apply(w, a).hosts[h].install < Apply(w, a).now
  {
    hide Exits, SomeRunning;
  }

  lemma ApplyKeepsOrdered(w: World, a: Action)
    requires Ordered(w)
    ensures Ordered(Apply(w, a))
  {
    var w' := Apply(w, a);
    ApplyKeepsTimes(w, a);
    forall x, y | IsRunning(w', y) && x in w'.hosts && x != y && LetIn(w'.hosts[x])
      ensures w'.hosts[x].probe < w'.hosts[y].install
    {
      if w' != w {
        if x != a.h {
          ActionTouchesOneHost(w, a, x);
        } else {
          WhoIsInPlay(w, a, x);
        }
        if y != a.h {
          ActionTouchesOneHost(w, a, y);
        } else {
          WhoIsInPlay(w, a, y);
        }
        hide Apply;
      }
    }
  }

  lemma {:induction false} AlwaysOrdered(actions: seq<Action>)
    ensures Ordered(After(START, actions))
    decreases |actions|
  {
    if actions != [] {
      AlwaysOrdered(actions[..|actions| - 1]);
      ApplyKeepsOrdered(After(START, actions[..|actions| - 1]), actions[|actions| - 1]);
    }
  }

  /** Two servers run together only if each probed before the other was installed. */
  lemma TwoServersOverlapped(actions: seq<Action>, a: int, b: int)
    requires a != b && IsRunning(After(START, actions), a) && IsRunning(After(START, actions), b)
    ensures var hosts := After(START, actions).hosts;
            hosts[a].probe < hosts[b].install && hosts[b].probe < hosts[a].install
  {
    AlwaysOrdered(actions);
  }

  /** Some server was up at time `t`: one that still is, or one stopped since. */
  ghost predicate UpAt(w: World, t: nat) {
    || (exists b | b in w.hosts :: IsRunning(w, b) && w.hosts[b].install < t)
    || (exists k | 0 <= k < |w.past| :: w.past[k].install < t < w.past[k].stop)
  }

  /** Who was turned away, and who was not, is told by the servers up at its probe. */
  ghost predicate RightlyDecided(w: World) {
    && (forall k | 0 <= k < |w.past| :: w.past[k].stop < w.now)
    && (forall h | h in w.hosts && TurnedAway(w.hosts[h]) :: UpAt(w, w.hosts[h].probe))
    && (forall h, k | h in w.hosts && LetIn(w.hosts[h]) && 0 <= k < |w.past| ::
          !(w.past[k].install < w.hosts[h].probe < w.past[k].stop))
  }

  lemma RunningStaysUp(w: World, a: Action, b: int, t: nat)
    requires IsRunning(w, b) && w.hosts[b].install < t < w.now
    ensures UpAt(Apply(w, a), t)
  {
    hide Exits;
    var w' := Apply(w, a);
    if a == Stop(b) {
      assert w'.past[|w.past|] == Life(w.hosts[b].install, w.now);
    } else {
      assert IsRunning(w', b) && w'.hosts[b] == w.hosts[b];
    }
  }

  lemma PastStaysPast(w: World, a: Action, k: nat, t: nat)
    requires k < |w.past| && w.past[k].install < t < w.past[k].stop
    ensures UpAt(Apply(w, a), t)
  {
    hide Exits;
    assert Apply(w, a).past[k] == w.past[k];
  }

  /** Stopping a server does not change who was up when. */
  lemma UpAtStays(w: World, a: Action, t: nat)
    requires UpAt(w, t) && t < w.now
    ensures UpAt(Apply(w, a), t)
  {
    hide Apply;
    if k :| 0 <= k < |w.past| && w.past[k].install < t < w.past[k].stop {
      PastStaysPast(w, a, k, t);
    } else {
      var b :| b in w.hosts && IsRunning(w, b) && w.hosts[b].install < t;
      RunningStaysUp(w, a, b, t);
    }
  }

  /** Who is turned away after an action was so before, with the same probe, or probes just now. */
  lemma NewlyTurnedAway(w: World, a: Action, h: int)
    requires h in Apply(w, a).hosts && TurnedAway(Apply(w, a).hosts[h])
    ensures (h in w.hosts && TurnedAway(w.hosts[h]) && Apply(w, a).hosts[h].probe == w.hosts[h].probe)
         || (SomeRunning(w) && Apply(w, a).hosts[h].probe == w.now && Apply(w, a).now == w.now + 1)
  {
    ActionOutcome(w, a);
    hide Exits;
  }

  lemma RunningIsUp(w: World, a: Action)
    requires Ordered(w) && SomeRunning(w) && a.Probe?
    requires Apply(w, a) != w
    ensures UpAt(Apply(w, a), w.now)
  {
    hide Exits;
    var b :| b in w.hosts && w.hosts[b].Running?;
    assert IsRunning(Apply(w, a), b) && Apply(w, a).hosts[b] == w.hosts[b];
  }

  lemma ApplyKeepsTurnedAway(w: World, a: Action, h: int)
    requires Ordered(w) && RightlyDecided(w)
    requires h in Apply(w, a).hosts && TurnedAway(Apply(w, a).hosts[h])
    ensures UpAt(Apply(w, a), Apply(w, a).hosts[h].probe)
  {
    NewlyTurnedAway(w, a, h);
    if h in w.hosts && TurnedAway(w.hosts[h]) && Apply(w, a).hosts[h].probe == w.hosts[h].probe {
      UpAtStays(w, a, w.hosts[h].probe);
    } else {
      hide Exits, UpAt, RightlyDecided;
      RunningIsUp(w, a);
    }
  }

  lemma ApplyKeepsLetIn(w: World, a: Action, h: int, k: nat)
    requires Ordered(w) && RightlyDecided(w) && k < |Apply(w, a).past|
    requires h in Apply(w, a).hosts && LetIn(Apply(w, a).hosts[h])
    ensures var w' := Apply(w, a);
            w'.past[k].stop < w'.now && !(w'.past[k].install < w'.hosts[h].probe < w'.past[k].stop)
  {
    ActionOutcome(w, a);
    hide Exits, UpAt;
  }

  lemma ApplyKeepsPast(w: World, a: Action, k: nat)
    requires RightlyDecided(w) && k < |Apply(w, a).past|
    ensures Apply(w, a).past[k].stop < Apply(w, a).now
  {
    hide Exits, UpAt;
  }

  lemma ApplyKeepsRightlyDecided(w: World, a: Action)
    requires Ordered(w) && RightlyDecided(w)
    ensures RightlyDecided(Apply(w, a))
  {
    var w' := Apply(w, a);
    hide Apply, UpAt, Ordered, Exits;
    forall k | 0 <= k < |w'.past|
      ensures w'.past[k].stop < w'.now
    {
      ApplyKeepsPast(w, a, k);
    }
    forall h | h in w'.hosts && TurnedAway(w'.hosts[h])
      ensures UpAt(w', w'.hosts[h].probe)
    {
      ApplyKeepsTurnedAway(w, a, h);
    }
    forall h, k | h in w'.hosts && LetIn(w'.hosts[h]) && 0 <= k < |w'.past|
      ensures !(w'.past[k].install < w'.hosts[h].probe < w'.past[k].stop)
    {
      ApplyKeepsLetIn(w, a, h, k);
    }
  }

  lemma {:induction false} AlwaysRightlyDecided(actions: seq<Action>)
    ensures RightlyDecided(After(START, actions))
    decreases |actions|
  {
    if actions != [] {
      AlwaysOrdered(actions[..|actions| - 1]);
      AlwaysRightlyDecided(actions[..|actions| - 1]);
      ApplyKeepsRightlyDecided(After(START, actions[..|actions| - 1]), actions[|actions| - 1]);
    }
  }

  /** In any run, stops included, a host is turned away exactly if some server was up at its probe. */
  lemma TurnedAwayExactly(actions: seq<Action>, h: int)
    requires h in After(START, actions).hosts
    ensures var w := After(START, actions);
            TurnedAway(w.hosts[h]) <==> UpAt(w, w.hosts[h].probe)
  {
    var w := After(START, actions);
    AlwaysOrdered(actions);
    AlwaysRightlyDecided(actions);
  }

  // ---------------------------------------------------------------- when one server is enough

  /** Running, or let in and about to. */
  predicate Candidate(w: World, h: int) {
    IsCleared(w, h) || IsRunning(w, h)
  }

  /** At most one host is running or about to. */
  ghost predicate OneCandidate(w: World) {
    forall a, b | Candidate(w, a) && Candidate(w, b) :: a == b
  }

  ghost predicate OneServer(w: World) {
    forall a, b | IsRunning(w, a) && IsRunning(w, b) :: a == b
  }

  ghost predicate NobodyPending(w: World) {
    forall h | h in w.hosts :: !w.hosts[h].Cleared?
  }

  /** An action keeps one candidate at most, unless it is a probe that can go ahead while another is pending. */
  lemma ApplyKeepsOneCandidate(w: World, a: Action)
    requires OneCandidate(w)
    requires a.Probe? && CanStart(w, a.h) ==> NobodyPending(w)
    ensures OneCandidate(Apply(w, a))
  {
    ActionOutcome(w, a);
    hide Exits, AnswerTo;
    var w' := Apply(w, a);
    forall x, y | Candidate(w', x) && Candidate(w', y)
      ensures x == y
    {
      NewCandidate(w, a, x);
      NewCandidate(w, a, y);
      if Candidate(w, x) {
        NoCandidates(w, x);
      }
      if Candidate(w, y) {
        NoCandidates(w, y);
      }
    }
  }

  /** A candidate was one before, or has just been let in, with no server running. */
  lemma NewCandidate(w: World, a: Action, x: int)
    requires Candidate(Apply(w, a), x)
    ensures Candidate(w, x) || (a.Probe? && CanStart(w, x) && a.h == x && !SomeRunning(w))
    ensures Candidate(w, x) && a.Probe? && CanStart(w, a.h) ==> x != a.h
  {
    ActionOutcome(w, a);
    hide Exits, AnswerTo;
  }

  lemma NoCandidates(w: World, x: int)
    requires Candidate(w, x)
    ensures SomeRunning(w) || !NobodyPending(w)
  {
  }

  lemma OneServerOf(w: World)
    requires OneCandidate(w)
    ensures OneServer(w)
  {
    forall a, b | IsRunning(w, a) && IsRunning(w, b)
      ensures a == b
    {
      assert Candidate(w, a) && Candidate(w, b);
    }
  }

  lemma AfterSnoc(w: World, actions: seq<Action>, a: Action)
    ensures After(w, actions + [a]) == Apply(After(w, actions), a)
  {
    assert (actions + [a])[..|actions|] == actions;
  }

  /** Whatever hosts already probed do next, there is never more than one server. */
  ghost predicate OneServerFrom(w: World) {
    forall actions: seq<Action> | NoProbes(actions) :: OneServer(After(w, actions))
  }

  ghost predicate NoProbes(actions: seq<Action>) {
    forall k | 0 <= k < |actions| :: !actions[k].Probe?
  }

  lemma {:induction false} NoProbesKeepOneCandidate(w: World, actions: seq<Action>)
    requires OneCandidate(w) && NoProbes(actions)
    ensures OneCandidate(After(w, actions))
    decreases |actions|
  {
    if actions != [] {
      NoProbesKeepOneCandidate(w, actions[..|actions| - 1]);
      ApplyKeepsOneCandidate(After(w, actions[..|actions| - 1]), actions[|actions| - 1]);
    }
  }

  /** Two candidates, pending or running, end up running together once both are installed. */
  lemma TwoCandidatesGiveTwo(w: World, a: int, b: int)
    requires a != b && Candidate(w, a) && Candidate(w, b)
    ensures var w' := After(w, [Install(a), Install(b)]);
            IsRunning(w', a) && IsRunning(w', b)
  {
    AfterSnoc(w, [], Install(a));
    AfterSnoc(w, [Install(a)], Install(b));
    assert [] + [Install(a)] == [Install(a)] && [Install(a)] + [Install(b)] == [Install(a), Install(b)];
  }

  /** Two start-ups that overlap, one server already running: the other is installed all the same. */
  lemma OverlapGivesTwo(a: int, b: int, who: Answerer)
    requires a != b
    ensures var w := After(START, [Probe(a, who), Probe(b, who), Install(a)]);
            && IsRunning(w, a) && IsCleared(w, b) && OneServer(w)
            && IsRunning(Apply(w, Install(b)), a) && IsRunning(Apply(w, Install(b)), b)
  {
    var first, second := [Probe(a, who)], [Probe(a, who), Probe(b, who)];
    AfterSnoc(START, [], Probe(a, who));
    AfterSnoc(START, first, Probe(b, who));
    AfterSnoc(START, second, Install(a));
    assert [] + [Probe(a, who)] == first && first + [Probe(b, who)] == second;
    assert second + [Install(a)] == [Probe(a, who), Probe(b, who), Install(a)];
    ProbeOutcome(START, who);
    ProbeOutcome(Apply(START, Probe(a, who)), who);
    hide Exits, AnswerTo, After;
  }

  /** One server at most from here on means one candidate at most now. */
  lemma OneServerFromExactly(w: World)
    ensures OneServerFrom(w) <==> OneCandidate(w)
  {
    if OneCandidate(w) {
      forall actions: seq<Action> | NoProbes(actions)
        ensures OneServer(After(w, actions))
      {
        NoProbesKeepOneCandidate(w, actions);
        OneServerOf(After(w, actions));
      }
    } else {
      var a, b :| Candidate(w, a) && Candidate(w, b) && a != b;
      TwoCandidatesGiveTwo(w, a, b);
      assert NoProbes([Install(a), Install(b)]);
    }
  }

  lemma ProbeKeepsOneCandidateExactly(w: World, b: int, who: Answerer)
    requires CanStart(w, b)
    ensures OneCandidate(Apply(w, Probe(b, who))) <==> OneCandidate(w) && NobodyPending(w)
  {
    ProbeOutcome(w, who);
    hide Exits, AnswerTo;
    var w' := Apply(w, Probe(b, who));
    if OneCandidate(w) && NobodyPending(w) {
      ApplyKeepsOneCandidate(w, Probe(b, who));
    } else if !OneCandidate(w) {
      var x, y :| Candidate(w, x) && Candidate(w, y) && x != y;
      assert Candidate(w', x) && Candidate(w', y);
    } else {
      var a :| a in w.hosts && w.hosts[a].Cleared?;
      assert Candidate(w, a);
      assert forall r | r in w.hosts && w.hosts[r].Running? :: Candidate(w, r) && r == a;
      assert !SomeRunning(w);
      assert Candidate(w, a) && Candidate(w', a) && Candidate(w', b) && a != b;
    }
  }

  /**
   Whether a start-up that goes ahead can end in two servers, decided before its probe, in any state:
   it cannot if and only if at most one host is running or about to and nobody is about to. A running
   server is no protection while another start-up is pending.
   */
  lemma ProbeIsSafeExactly(w: World, b: int, who: Answerer)
    requires CanStart(w, b)
    ensures OneServerFrom(Apply(w, Probe(b, who))) <==> OneCandidate(w) && NobodyPending(w)
  {
    ProbeKeepsOneCandidateExactly(w, b, who);
    OneServerFromExactly(Apply(w, Probe(b, who)));
  }

  /** The start-up that goes ahead with its probe at step `k`. */
  ghost predicate Probes(actions: seq<Action>, k: nat)
    requires k < |actions|
  {
    actions[k].Probe? && CanStart(After(START, actions[..k]), actions[k].h)
  }

  /** No start-up begins while another one is between its probe and its installation. */
  ghost predicate StartsDoNotOverlap(actions: seq<Action>) {
    forall k | 0 <= k < |actions| && Probes(actions, k) :: NobodyPending(After(START, actions[..k]))
  }

  /** At no point of the run is there a way to two servers without a further probe. */
  ghost predicate AlwaysSafe(actions: seq<Action>) {
    forall k | 0 <= k <= |actions| :: OneServerFrom(After(START, actions[..k]))
  }

  lemma StartsPrefix(actions: seq<Action>)
    requires actions != [] && StartsDoNotOverlap(actions)
    ensures StartsDoNotOverlap(actions[..|actions| - 1])
  {
    var init := actions[..|actions| - 1];
    forall k | 0 <= k < |init| && Probes(init, k)
      ensures NobodyPending(After(START, init[..k]))
    {
      assert init[..k] == actions[..k];
      assert Probes(actions, k);
    }
  }

  /** Start-ups that do not overlap leave at most one server, running or about to. */
  lemma {:induction false} AtMostOneServer(actions: seq<Action>)
    requires StartsDoNotOverlap(actions)
    ensures OneCandidate(After(START, actions)) && OneServer(After(START, actions))
    decreases |actions|
  {
    if actions != [] {
      var last := |actions| - 1;
      StartsPrefix(actions);
      AtMostOneServer(actions[..last]);
      assert actions[last].Probe? && CanStart(After(START, actions[..last]), actions[last].h) ==> Probes(actions, last);
      ApplyKeepsOneCandidate(After(START, actions[..last]), actions[last]);
    }
    OneServerOf(After(START, actions));
  }

  lemma {:induction false} SafePrefix(actions: seq<Action>, k: nat)
    requires StartsDoNotOverlap(actions) && k <= |actions|
    ensures OneServerFrom(After(START, actions[..k]))
    decreases |actions|
  {
    if k == |actions| {
      assert actions[..k] == actions;
      AtMostOneServer(actions);
      OneServerFromExactly(After(START, actions));
    } else {
      StartsPrefix(actions);
      assert actions[..|actions| - 1][..k] == actions[..k];
      SafePrefix(actions[..|actions| - 1], k);
    }
  }

  /** A run is never on the way to two servers if and only if its start-ups do not overlap. */
  lemma SafeRunsExactly(actions: seq<Action>)
    ensures AlwaysSafe(actions) <==> StartsDoNotOverlap(actions)
  {
    if StartsDoNotOverlap(actions) {
      forall k | 0 <= k <= |actions|
        ensures OneServerFrom(After(START, actions[..k]))
      {
        SafePrefix(actions, k);
      }
    }
    if AlwaysSafe(actions) {
      forall k | 0 <= k < |actions| && Probes(actions, k)
        ensures NobodyPending(After(START, actions[..k]))
      {
        var w := After(START, actions[..k]);
        assert actions[..k + 1] == actions[..k] + [actions[k]];
        AfterSnoc(START, actions[..k], actions[k]);
        assert OneServerFrom(After(START, actions[..k + 1]));
        ProbeIsSafeExactly(w, actions[k].h, actions[k].who);
      }
    }
  }
}
