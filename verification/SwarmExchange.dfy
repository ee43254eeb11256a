/**
 A request and its response, end to end: exactly when the host that asked another module has
 its response once the queues are empty.
 */
module SwarmExchange {
  import opened Messages
  import opened Sequences
  import opened AgentTable
  import opened Routing
  import opened Swarm
  import opened SwarmInvariant
  import opened SwarmPipeline
  import opened SwarmDelivery
  import opened SwarmOrder
  import opened SwarmOnce
  import opened SwarmEarly
  import opened SwarmLosses
  import opened SwarmTheorems
  import opened SwarmResponses

  ghost predicate HasTag(q: seq<Message>, t: nat) {
    exists x :: 0 <= x < |q| && q[x].tag == t
  }

  /** Injection t is a request of host i to the module of station j. */
  predicate Asked(w: World, s: Swarm, i: nat, j: nat, t: nat) {
    && t < |s.injected| && s.injected[t].at == i && j < |w.ids|
    && IsRequest(s.injected[t].msg.body) && s.injected[t].msg.dst == w.ids[j]
  }

  // ---- what can become of it --------------------------------------------------------------------

  /** The request is lost on its way to the module. */
  predicate RequestLost(s: Swarm, j: nat, t: nat) { Loss(t, j) in s.lost }

  /** The module has handled it, but did not queue its answer. */
  ghost predicate Unanswered(s: Swarm, j: nat, t: nat)
    requires j < |s.stations|
  {
    AnsweredTag(s.stations[j], t) && !HasTag(s.stations[j].issued, t)
  }

  /** The answer was queued and is gone. */
  ghost predicate AnswerLost(w: World, s: Swarm, i: nat, j: nat, t: nat)
    requires i < |s.stations| && j < |s.stations|
  {
    HasTag(s.stations[j].issued, t) && !HasTag(Lane(w, s, j, i), t)
  }

  ghost predicate Failed(w: World, s: Swarm, i: nat, j: nat, t: nat)
    requires i < |s.stations| && j < |s.stations|
  {
    RequestLost(s, j, t) || Unanswered(s, j, t) || AnswerLost(w, s, i, j, t)
  }

  /** The module handles the request, but does not know the asker, or has no room for its answer. */
  predicate Mute(w: World, s: Swarm, a: Action, j: nat, t: nat) {
    && a == Receive(j) && Enabled(w, s, a)
    && var n, m := s.stations[j].node, s.stations[j].inbox[0];
       m.tag == t && Handles(n, m) && (!Known(n.agents, m.src) || Full(n.broadcast))
  }

  /** The action loses the request, leaves it unanswered, or loses the answer. */
  predicate Fails(w: World, s: Swarm, a: Action, i: nat, j: nat, t: nat) {
    || (Wastes(w, s, a, j) && Handled(w, s, a).value.tag == t)
    || Mute(w, s, a, j, t)
    || (Drops(w, s, a, j, i) && Handled(w, s, a).value.tag == t)
  }

  // ---- the response is there unless it failed -------------------------------------------------------

  lemma TagInAppend(a: seq<Message>, b: seq<Message>, t: nat)
    ensures HasTag(a + b, t) <==> HasTag(a, t) || HasTag(b, t)
  {
    if HasTag(a, t) {
      var x :| 0 <= x < |a| && a[x].tag == t;
      assert (a + b)[x].tag == t;
    }
    if HasTag(b, t) {
      var x :| 0 <= x < |b| && b[x].tag == t;
      assert (a + b)[|a| + x].tag == t;
    }
  }

  lemma TagInPart(w: World, i: nat, j: nat, q: seq<Message>, t: nat)
    ensures HasTag(Part(w, i, j, q), t) <==> exists m :: m in q && m.tag == t && HostBound(w, i, j, m)
  {
    var p := Part(w, i, j, q);
    if HasTag(p, t) {
      var x :| 0 <= x < |p| && p[x].tag == t;
      FilterMembers(Bound(w, i, j), q, p[x]);
    }
    if m: Message :| m in q && m.tag == t && HostBound(w, i, j, m) {
      FilterMembers(Bound(w, i, j), q, m);
      var x :| 0 <= x < |p| && p[x] == m;
    }
  }

  /** Station j's own messages of this injection are answers to the request. */
  lemma IssuedAnswers(w: World, s: Swarm, i: nat, j: nat, t: nat, r: Message)
    requires ValidWorld(w) && Inv(w, s) && i < |s.stations| && j < |s.stations| && i != j && Asked(w, s, i, j, t)
    requires Once(s, j) && r in s.stations[j].issued && r.tag == t
    ensures Answers(s.injected[t].msg, r) && HostBound(w, j, i, r) && AnsweredTag(s.stations[j], t)
  {
    assert Rightful(s, j, r) && InjectionOk(w, s.injected, t);
  }

  /** A message of this injection at host i is the answer, and has come all the way. */
  lemma ResponseCame(w: World, s: Swarm, i: nat, j: nat, t: nat)
    requires ValidWorld(w) && Inv(w, s) && i < |s.stations| && j < |s.stations| && i != j && Asked(w, s, i, j, t)
    requires Once(s, j) && Subsequence(Lane(w, s, j, i), s.stations[j].issued)
    requires HasTag(s.stations[i].host, t)
    ensures HasTag(Lane(w, s, j, i), t) && HasTag(s.stations[j].issued, t) && AnsweredTag(s.stations[j], t)
  {
    var q := s.stations[i].host;
    var x :| 0 <= x < |q| && q[x].tag == t;
    HeldOrigin(w, s, i, q[x]);
    if IsRequest(q[x].body) {
      HeldRequest(w, s, i, q[x]);
    }
    HeldBound(w, s, j, i, q[x]);
    TagInPart(w, j, i, q + s.stations[i].node.hivemind, t);
    assert q[x] in q + s.stations[i].node.hivemind;
    var lane := Lane(w, s, j, i);
    var tail := Part(w, j, i, s.stations[i].inbox) + Part(w, j, i, s.stations[j].node.broadcast);
    TagInAppend(Part(w, j, i, q + s.stations[i].node.hivemind), tail, t);
    var y :| 0 <= y < |lane| && lane[y].tag == t;
    SubsequenceMembers(lane, s.stations[j].issued);
    assert lane[y] in s.stations[j].issued;
    IssuedAnswers(w, s, i, j, t, lane[y]);
  }

  /** A handled request is not lost; one that is not lost is handled, or still under way. */
  lemma HandledOrLost(w: World, s: Swarm, i: nat, j: nat, t: nat)
    requires ValidWorld(w) && Inv(w, s) && i < |s.stations| && j < |s.stations| && i != j && Asked(w, s, i, j, t)
    requires Balanced(w, s, RequestKind, i, j)
    ensures AnsweredTag(s.stations[j], t) ==> !RequestLost(s, j, t)
    ensures !RequestLost(s, j, t) && s.stations[j].inbox == [] && s.stations[i].node.broadcast == [] ==>
      AnsweredTag(s.stations[j], t)
  {
    var q, st := s.injected[t].msg, s.stations[j];
    assert InjectionOk(w, s.injected, t);
    OwedMembers(w, s.injected, s.lost, RequestKind, i, j, q);
    FlowMembers(w, RequestKind, i, j, st.answered, q);
    if AnsweredTag(st, t) {
      var x :| 0 <= x < |st.answered| && st.answered[x].tag == t;
      assert StationOk(w, s, j, st) && AnsweredOk(w, s, j, st.answered[x]);
      assert q in st.answered && q in Pipe(w, s, RequestKind, i, j);
    }
    if q in st.answered {
      var x :| 0 <= x < |st.answered| && st.answered[x] == q;
    }
  }

  /** Once the queues are empty, the response is at the host unless something failed. */
  lemma ResponseUnlessFailed(w: World, s: Swarm, i: nat, j: nat, t: nat)
    requires ValidWorld(w) && Inv(w, s) && i < |s.stations| && j < |s.stations| && i != j && Asked(w, s, i, j, t)
    requires Once(s, j) && Subsequence(Lane(w, s, j, i), s.stations[j].issued)
    requires Balanced(w, s, RequestKind, i, j)
    requires s.stations[i].node.broadcast == s.stations[j].inbox == []
    requires s.stations[j].node.broadcast == s.stations[i].inbox == s.stations[i].node.hivemind == []
    ensures HasTag(s.stations[i].host, t) <==> !Failed(w, s, i, j, t)
  {
    HandledOrLost(w, s, i, j, t);
    if HasTag(s.stations[i].host, t) {
      ResponseCame(w, s, i, j, t);
    }
    if !Failed(w, s, i, j, t) {
      assert s.stations[i].host + [] == s.stations[i].host;
      assert Lane(w, s, j, i) == Part(w, j, i, s.stations[i].host) + ([] + []);
      TagInPart(w, j, i, s.stations[i].host, t);
      var m: Message :| m in s.stations[i].host && m.tag == t;
    }
  }

  // ---- one step -------------------------------------------------------------------------------------

  /** Injection t, if it has happened, is the request in question. */
  predicate Concerns(w: World, s: Swarm, i: nat, j: nat, t: nat) {
    t < |s.injected| ==> Asked(w, s, i, j, t)
  }

  /** A request of another host that was not handled here has no answer here. */
  lemma FreshIssue(s: Swarm, j: nat, t: nat)
    requires j < |s.stations| && Once(s, j) && t < |s.injected| && s.injected[t].at != j
    requires !AnsweredTag(s.stations[j], t)
    ensures !HasTag(s.stations[j].issued, t)
  {
    var q := s.stations[j].issued;
    forall x | 0 <= x < |q| ensures q[x].tag != t {
      assert q[x] in q && Rightful(s, j, q[x]);
    }
  }

  lemma TagInOne(a: seq<Message>, c: bool, m: Message, t: nat)
    ensures HasTag(a + If(c, m), t) <==> HasTag(a, t) || (c && m.tag == t)
  {
    TagInAppend(a, If(c, m), t);
    if c {
      assert If(c, m)[0] == m;
    }
  }

  /** An answer is queued exactly when the asker is known and there is room. */
  lemma AnswerQueuedIff(w: World, s: Swarm, j: nat, t: nat)
    requires ValidWorld(w) && Inv(w, s) && j < |s.stations| && s.stations[j].inbox != [] && Once(s, j)
    requires forall k :: 0 <= k < |w.ids| ==> Balanced(w, s, RequestKind, k, j)
    requires var m := s.stations[j].inbox[0]; Handles(s.stations[j].node, m) && m.tag == t && m.dst != 0
    ensures var st, st' := s.stations[j], DoReceive(w, s, j).stations[j];
      && !AnsweredTag(st, t) && AnsweredTag(st', t) && !HasTag(st.issued, t)
      && (HasTag(st'.issued, t) <==> Known(st.node.agents, st.inbox[0].src) && !Full(st.node.broadcast))
  {
    var st := s.stations[j];
    var m := st.inbox[0];
    FreshRequest(w, s, j);
    FreshIssue(s, j, t);
    AnsweredGrows(st, m, false, w.listMax, t);
    ReceivedPlaces(w, s, j);
    PassedSource(st.node, m, w.listMax);
    assert m in st.inbox;
    ArrivedSource(w, s, j, m);
    DispatchIssues(st, m, false, w.listMax);
    var r := PassedOn(st.node, m, w.listMax).value;
    TagInOne(st.issued, GoesOff(st.node, r, true), r, t);
  }

  /** Records that gain no entry with this tag say the same about it. */
  lemma SameRecords(st: Station, st': Station, t: nat)
    requires st.answered <= st'.answered && st.issued <= st'.issued
    requires forall x :: |st.answered| <= x < |st'.answered| ==> st'.answered[x].tag != t
    requires forall x :: |st.issued| <= x < |st'.issued| ==> st'.issued[x].tag != t
    ensures AnsweredTag(st', t) <==> AnsweredTag(st, t)
    ensures HasTag(st'.issued, t) <==> HasTag(st.issued, t)
  {
    if AnsweredTag(st, t) {
      var x :| 0 <= x < |st.answered| && st.answered[x].tag == t;
      assert st'.answered[x].tag == t;
    }
    if AnsweredTag(st', t) {
      var x :| 0 <= x < |st'.answered| && st'.answered[x].tag == t;
      assert st.answered[x].tag == t;
    }
    if HasTag(st.issued, t) {
      var x :| 0 <= x < |st.issued| && st.issued[x].tag == t;
      assert st'.issued[x].tag == t;
    }
    if HasTag(st'.issued, t) {
      var x :| 0 <= x < |st'.issued| && st'.issued[x].tag == t;
      assert st.issued[x].tag == t;
    }
  }

  lemma InjectUnanswered(w: World, s: Swarm, a: nat, m: Message, j: nat, t: nat)
    requires a < |s.stations| == |w.ids| && j < |s.stations| && (a == j ==> m.tag != t)
    ensures Unanswered(DoInject(w, s, a, m), j, t) <==> Unanswered(s, j, t)
  {
    InjectStationIs(w, s, a, m);
    DispatchRecords(s.stations[a], m, true, w.listMax);
    SameRecords(s.stations[j], DoInject(w, s, a, m).stations[j], t);
  }

  lemma ReceiveUnanswered(w: World, s: Swarm, a: nat, i: nat, j: nat, t: nat)
    requires ValidWorld(w) && Inv(w, s) && Enabled(w, s, Receive(a)) && j < |s.stations| && Once(s, j)
    requires forall k :: 0 <= k < |w.ids| ==> Balanced(w, s, RequestKind, k, j)
    requires Concerns(w, s, i, j, t)
    ensures Unanswered(DoReceive(w, s, a), j, t) <==> Unanswered(s, j, t) || Mute(w, s, Receive(a), j, t)
  {
    var st := s.stations[a];
    var m := st.inbox[0];
    ReceiveStation(w, s, a);
    DispatchRecords(st, m, false, w.listMax);
    if a == j && Handles(st.node, m) && m.tag == t {
      FreshRequest(w, s, j);
      AnswerQueuedIff(w, s, j, t);
    } else {
      SameRecords(s.stations[j], DoReceive(w, s, a).stations[j], t);
    }
  }

  lemma StepUnanswered(w: World, s: Swarm, a: Action, i: nat, j: nat, t: nat)
    requires ValidWorld(w) && Inv(w, s) && i != j && j < |s.stations| && Once(s, j)
    requires forall k :: 0 <= k < |w.ids| ==> Balanced(w, s, RequestKind, k, j)
    requires |Step(w, s, a).stations| == |s.stations| && Concerns(w, Step(w, s, a), i, j, t)
    ensures Unanswered(Step(w, s, a), j, t) <==> Unanswered(s, j, t) || Mute(w, s, a, j, t)
  {
    StepGrows(w, s, a);
    if Enabled(w, s, a) && a.Inject? {
      InjectUnanswered(w, s, a.i, Injected(w, s, a.i, a.dst, a.body), j, t);
    } else if Enabled(w, s, a) && a.Receive? {
      ReceiveUnanswered(w, s, a.i, i, j, t);
    } else if Enabled(w, s, a) {
      StepElsewhere(w, s, a, j);
      SameRecords(s.stations[j], Step(w, s, a).stations[j], t);
    }
  }

  lemma DistinctLane(w: World, s: Swarm, i: nat, j: nat)
    requires i < |s.stations| && j < |s.stations| && Once(s, j)
    requires Subsequence(Lane(w, s, j, i), s.stations[j].issued)
    ensures TagsDistinct(Lane(w, s, j, i))
  {
    SubsequencePairwise((a: Message, b: Message) => a.tag != b.tag, Lane(w, s, j, i), s.stations[j].issued);
  }

  /** The lane loses its only message with this tag, or one with another tag. */
  lemma LosesTag(lane: seq<Message>, lane': seq<Message>, m: Message, t: nat)
    requires Loses(lane, lane', m) && TagsDistinct(lane)
    ensures HasTag(lane, m.tag)
    ensures HasTag(lane', t) <==> HasTag(lane, t) && t != m.tag
  {
    var x, y :| lane == x + [m] + y && lane' == x + y;
    assert lane[|x|] == m;
    TagInAppend(x + [m], y, t);
    TagInAppend(x, [m], t);
    TagInAppend(x, y, t);
    if HasTag(lane', t) {
      var k :| 0 <= k < |lane'| && lane'[k].tag == t;
      assert lane[if k < |x| then k else k + 1] == lane'[k];
    }
    if HasTag([m], t) {
      assert t == m.tag;
    } else {
      assert [m][0].tag != t;
    }
  }

  lemma TagInLane(w: World, s: Swarm, i: nat, j: nat, t: nat)
    requires i < |s.stations| && j < |s.stations| && Subsequence(Lane(w, s, j, i), s.stations[j].issued)
    ensures HasTag(Lane(w, s, j, i), t) ==> HasTag(s.stations[j].issued, t)
  {
    var lane, q := Lane(w, s, j, i), s.stations[j].issued;
    if HasTag(lane, t) {
      var x :| 0 <= x < |lane| && lane[x].tag == t;
      SubsequenceMembers(lane, q);
      assert lane[x] in q;
      var y :| 0 <= y < |q| && q[y] == lane[x];
    }
  }

  lemma TagTwice(a: seq<Message>, b: seq<Message>, t: nat)
    ensures HasTag(a, t) && HasTag(b, t) ==> !TagsDistinct(a + b)
  {
    if HasTag(a, t) && HasTag(b, t) {
      var x :| 0 <= x < |a| && a[x].tag == t;
      var y :| 0 <= y < |b| && b[y].tag == t;
      assert (a + b)[x].tag == (a + b)[|a| + y].tag;
    }
  }

  lemma DropAnswer(w: World, s: Swarm, s': Swarm, i: nat, j: nat, t: nat, m: Message)
    requires i < |s.stations| == |s'.stations| && j < |s.stations| && Once(s, j) && Once(s', j)
    requires Subsequence(Lane(w, s, j, i), s.stations[j].issued) && LaneStep(w, s, s', j, i, Some(m))
    ensures AnswerLost(w, s', i, j, t) <==> AnswerLost(w, s, i, j, t) || m.tag == t
  {
    var lane, before, after := Lane(w, s, j, i), s.stations[j].issued, s'.stations[j].issued;
    DistinctLane(w, s, i, j);
    TagInLane(w, s, i, j, t);
    if after == before && Loses(lane, Lane(w, s', j, i), m) {
      LosesTag(lane, Lane(w, s', j, i), m, t);
    } else {
      TagInAppend(before, [m], t);
      assert [m][0].tag == m.tag;
      if HasTag(before, t) {
        var x :| 0 <= x < |before| && before[x].tag == t;
        assert after[x].tag == t && after[|before|].tag == m.tag;
      }
    }
  }

  lemma FlowAnswer(w: World, s: Swarm, s': Swarm, i: nat, j: nat, t: nat)
    requires ValidWorld(w) && Inv(w, s') && i < |s.stations| == |s'.stations| && j < |s.stations| && i != j
    requires Once(s, j) && Once(s', j) && Concerns(w, s', i, j, t)
    requires Subsequence(Lane(w, s, j, i), s.stations[j].issued) && LaneStep(w, s, s', j, i, None)
    ensures AnswerLost(w, s', i, j, t) <==> AnswerLost(w, s, i, j, t)
  {
    var lane, before, after := Lane(w, s, j, i), s.stations[j].issued, s'.stations[j].issued;
    var more := after[|before|..];
    assert after == before + more;
    TagInAppend(before, more, t);
    TagInAppend(lane, Part(w, j, i, more), t);
    TagInPart(w, j, i, more, t);
    TagInLane(w, s, i, j, t);
    if HasTag(more, t) {
      var x :| 0 <= x < |more| && more[x].tag == t;
      assert more[x] in after && Rightful(s', j, more[x]);
      IssuedAnswers(w, s', i, j, t, more[x]);
      assert more[x] in more;
      TagTwice(before, more, t);
    }
  }

  lemma StepFailed(w: World, s: Swarm, a: Action, i: nat, j: nat, t: nat)
    requires ValidWorld(w) && Inv(w, s) && i != j && i < |s.stations| && j < |s.stations|
    requires forall k :: 0 <= k < |w.ids| ==> Balanced(w, s, RequestKind, k, j)
    requires |Step(w, s, a).stations| == |s.stations| && Once(s, j) && Once(Step(w, s, a), j)
    requires Subsequence(Lane(w, s, j, i), s.stations[j].issued) && Concerns(w, Step(w, s, a), i, j, t)
    ensures Failed(w, Step(w, s, a), i, j, t) <==> Failed(w, s, i, j, t) || Fails(w, s, a, i, j, t)
  {
    LossIff(w, s, a, Loss(t, j));
    StepUnanswered(w, s, a, i, j, t);
    StepLane(w, s, a, j, i);
    StepKeeps(w, s, a);
    if Drops(w, s, a, j, i) {
      DropAnswer(w, s, Step(w, s, a), i, j, t, Handled(w, s, a).value);
    } else {
      FlowAnswer(w, s, Step(w, s, a), i, j, t);
    }
  }

  // ---- every run --------------------------------------------------------------------------------------

  predicate FailsAt(w: World, storage: Storage, acts: seq<Action>, i: nat, j: nat, t: nat, k: nat) {
    k < |acts| && Fails(w, Run(w, Start(w, storage), acts[..k]), acts[k], i, j, t)
  }

  /** Some action of the run loses the request, leaves it unanswered, or loses the answer. */
  ghost predicate SomeFails(w: World, storage: Storage, acts: seq<Action>, i: nat, j: nat, t: nat) {
    exists k: nat :: FailsAt(w, storage, acts, i, j, t, k)
  }

  lemma FailsInit(w: World, storage: Storage, acts: seq<Action>, i: nat, j: nat, t: nat, k: nat)
    requires k < |acts| - 1
    ensures FailsAt(w, storage, acts, i, j, t, k) <==> FailsAt(w, storage, acts[..|acts| - 1], i, j, t, k)
  {
    assert acts[..|acts| - 1][..k] == acts[..k];
  }

  lemma SomeFailsSnoc(w: World, storage: Storage, acts: seq<Action>, i: nat, j: nat, t: nat)
    requires acts != []
    ensures SomeFails(w, storage, acts, i, j, t) <==>
      SomeFails(w, storage, acts[..|acts| - 1], i, j, t) || FailsAt(w, storage, acts, i, j, t, |acts| - 1)
  {
    var before := acts[..|acts| - 1];
    if SomeFails(w, storage, acts, i, j, t) {
      var k: nat :| FailsAt(w, storage, acts, i, j, t, k);
      if k < |acts| - 1 {
        FailsInit(w, storage, acts, i, j, t, k);
      }
    }
    if SomeFails(w, storage, before, i, j, t) {
      var k: nat :| FailsAt(w, storage, before, i, j, t, k);
      FailsInit(w, storage, acts, i, j, t, k);
    }
  }

  lemma StartUnfailed(w: World, storage: Storage, i: nat, j: nat, t: nat)
    requires i < |w.ids| && j < |w.ids|
    ensures !Failed(w, Start(w, storage), i, j, t)
  {
  }

  lemma {:induction false} FailedIff(w: World, storage: Storage, acts: seq<Action>, i: nat, j: nat, t: nat)
    requires ValidWorld(w) && i < |w.ids| && j < |w.ids| && i != j
    requires Concerns(w, Run(w, Start(w, storage), acts), i, j, t)
    ensures var s := Run(w, Start(w, storage), acts);
      |s.stations| == |w.ids| && (Failed(w, s, i, j, t) <==> SomeFails(w, storage, acts, i, j, t))
  {
    if acts == [] {
      StartUnfailed(w, storage, i, j, t);
    } else {
      var before := acts[..|acts| - 1];
      var s, a := Run(w, Start(w, storage), before), acts[|acts| - 1];
      StepGrows(w, s, a);
      FailedIff(w, storage, before, i, j, t);
      AlwaysBalanced(w, storage, before);
      AlwaysOnce(w, storage, before, j);
      AlwaysOnce(w, storage, acts, j);
      LanesOrdered(w, storage, before, j, i);
      StepFailed(w, s, a, i, j, t);
      SomeFailsSnoc(w, storage, acts, i, j, t);
    }
  }

  /**
   A request and its response, exactly. Host i asked the module of another station j. Once the
   queues between them are empty both ways, host i has one response to this request, matching
   and from station j, if no action of the run lost the request, left it unanswered or lost the
   answer; and no response if some action did.
   */
  lemma OneResponse(w: World, storage: Storage, acts: seq<Action>, i: nat, j: nat, t: nat)
    requires ValidWorld(w) && i < |w.ids| && j < |w.ids| && i != j
    requires Asked(w, Run(w, Start(w, storage), acts), i, j, t)
    ensures var s := Run(w, Start(w, storage), acts);
      && |s.stations| == |w.ids|
      && (s.stations[i].node.broadcast == s.stations[j].inbox == []
          && s.stations[j].node.broadcast == s.stations[i].inbox == s.stations[i].node.hivemind == [] ==>
            Copies(t, s.stations[i].host) == if SomeFails(w, storage, acts, i, j, t) then 0 else 1)
      && forall m :: m in s.stations[i].host && m.tag == t ==> Answers(s.injected[t].msg, m) && m.src == w.ids[j]
  {
    var s := Run(w, Start(w, storage), acts);
    AlwaysBalanced(w, storage, acts);
    AlwaysOnce(w, storage, acts, j);
    LanesOrdered(w, storage, acts, j, i);
    FailedIff(w, storage, acts, i, j, t);
    ResponsesBounded(w, storage, acts, i, t);
    CopiesTag(t, s.stations[i].host);
    forall m | m in s.stations[i].host && m.tag == t ensures Answers(s.injected[t].msg, m) {
      HeldAnswer(w, s, i, j, t, m);
    }
    if s.stations[i].node.broadcast == s.stations[j].inbox == []
       && s.stations[j].node.broadcast == s.stations[i].inbox == s.stations[i].node.hivemind == [] {
      ResponseUnlessFailed(w, s, i, j, t);
    }
  }

  lemma HeldAnswer(w: World, s: Swarm, i: nat, j: nat, t: nat, m: Message)
    requires ValidWorld(w) && Inv(w, s) && i < |s.stations| && Asked(w, s, i, j, t)
    requires m in s.stations[i].host && m.tag == t
    ensures Answers(s.injected[t].msg, m)
  {
    HeldOrigin(w, s, i, m);
    if IsRequest(m.body) {
      HeldRequest(w, s, i, m);
    }
  }

  lemma CopiesTag(t: nat, q: seq<Message>)
    ensures Copies(t, q) > 0 <==> HasTag(q, t)
  {
    if Copies(t, q) > 0 {
      var x := FilterFinds(FromInjection(t), q);
    }
    if HasTag(q, t) {
      var x :| 0 <= x < |q| && q[x].tag == t;
      FilterMembers(FromInjection(t), q, q[x]);
    }
  }
}
