/** No broadcast storm: how many sends a run can cause, and why a swarm left alone comes to rest. */
module SwarmAccounting {
  import opened Messages
  import opened Sequences
  import opened Routing
  import opened Swarm
  import opened SwarmInvariant
  import opened SwarmDelivery
  import opened SwarmOnce
  import SwarmStorm

  // ---- sends are paid for ---------------------------------------------------------------

  function BusLoads(s: Swarm): (r: seq<nat>)
    ensures |r| == |s.stations|
  {
    seq(|s.stations|, k requires 0 <= k < |s.stations| => |s.stations[k].node.broadcast|)
  }

  function AnswerCounts(sts: seq<Station>): (r: seq<nat>)
    ensures |r| == |sts|
  {
    seq(|sts|, k requires 0 <= k < |sts| => |sts[k].answered|)
  }

  /** Every message sent or queued for sending is an announcement, an injection or an answer. */
  ghost predicate Paid(s: Swarm) {
    s.sends + Sum(BusLoads(s)) <= s.announcements + |s.injected| + Sum(AnswerCounts(s.stations))
  }

  lemma PaidAt(s: Swarm, s': Swarm, i: nat)
    requires i < |s.stations| == |s'.stations| && Paid(s)
    requires forall k :: 0 <= k < |s.stations| && k != i ==>
      |s'.stations[k].node.broadcast| == |s.stations[k].node.broadcast|
      && |s'.stations[k].answered| == |s.stations[k].answered|
    requires var st, st' := s.stations[i], s'.stations[i];
      s'.sends + |st'.node.broadcast| + s.announcements + |s.injected| + |st.answered|
      <= s.sends + |st.node.broadcast| + s'.announcements + |s'.injected| + |st'.answered|
    ensures Paid(s')
  {
    SumPoint(BusLoads(s), BusLoads(s'), i);
    SumPoint(AnswerCounts(s.stations), AnswerCounts(s'.stations), i);
  }

  /** From the network only an answered request leads to a send. */
  lemma ReceivedRelay(w: World, s: Swarm, i: nat)
    requires ValidWorld(w) && Inv(w, s) && i < |s.stations| && s.stations[i].inbox != []
    ensures var n, m := s.stations[i].node, s.stations[i].inbox[0];
      var n' := Dispatch(n, m, false, w.listMax).0;
      n'.broadcast != n.broadcast ==>
        && Handles(n, m) && n'.hivemind == n.hivemind
        && exists r :: n'.broadcast == n.broadcast + [r] && Answers(m, r)
  {
    var n, m := s.stations[i].node, s.stations[i].inbox[0];
    assert m in s.stations[i].inbox && FromOther(w, s, i, m);
    var k: nat :| k != i && Issued(w, s, k, m);
    SourceOf(w, s, k, m);
    NoRelay(n, m, w.listMax);
    DispatchQueues(n, m, false, w.listMax);
  }

  lemma InjectPaid(w: World, s: Swarm, i: nat, m: Message)
    requires i < |s.stations| && Paid(s)
    ensures Paid(DoInject(w, s, i, m))
  {
    DispatchQueues(s.stations[i].node, m, true, w.listMax);
    PaidAt(s, DoInject(w, s, i, m), i);
  }

  lemma ReceivePaid(w: World, s: Swarm, i: nat)
    requires ValidWorld(w) && Inv(w, s) && i < |s.stations| && s.stations[i].inbox != [] && Paid(s)
    ensures Paid(DoReceive(w, s, i))
  {
    ReceivedRelay(w, s, i);
    PaidAt(s, DoReceive(w, s, i), i);
  }

  lemma StepPaid(w: World, s: Swarm, a: Action)
    requires ValidWorld(w) && Inv(w, s) && Paid(s)
    ensures Paid(Step(w, s, a))
  {
    if Enabled(w, s, a) {
      var s' := Step(w, s, a);
      match a
      case Inject(i, dst, body) => InjectPaid(w, s, i, Injected(w, s, i, dst, body));
      case Receive(i) => ReceivePaid(w, s, i);
      case _ => PaidAt(s, s', a.i);
    }
  }

  lemma {:induction false} AlwaysPaid(w: World, storage: Storage, acts: seq<Action>)
    requires ValidWorld(w)
    ensures Paid(Run(w, Start(w, storage), acts))
  {
    if acts == [] {
      SumZero(BusLoads(Start(w, storage)));
    } else {
      AlwaysPaid(w, storage, acts[..|acts| - 1]);
      Reachable(w, storage, acts[..|acts| - 1]);
      StepPaid(w, Run(w, Start(w, storage), acts[..|acts| - 1]), acts[|acts| - 1]);
    }
  }

  // ---- answers are paid for --------------------------------------------------------------

  /** How many more than one station can answer it: those without an id at the time, less one. */
  function Over(inj: Injection): nat {
    if inj.ToAll() && inj.waiting != {} then |inj.waiting| - 1 else 0
  }

  function Excess(injected: seq<Injection>): nat {
    if injected == [] then 0 else Excess(injected[..|injected| - 1]) + Over(injected[|injected| - 1])
  }

  /** The stations that can answer an injection. */
  function Takers(w: World, inj: Injection): set<nat> {
    if !IsRequest(inj.msg.body) then {}
    else if inj.msg.dst != 0 then set j | j in Everyone(w) && j < |w.ids| && w.ids[j] == inj.msg.dst
    else if inj.Greeted() then inj.waiting
    else {inj.at}
  }

  lemma TakersCount(w: World, inj: Injection)
    requires ValidWorld(w)
    ensures |Takers(w, inj)| <= 1 + Over(inj)
  {
    var takers := Takers(w, inj);
    if IsRequest(inj.msg.body) && inj.msg.dst != 0 && takers != {} {
      var j :| j in takers;
      assert takers == {j};
    }
  }

  function Paired(t: nat, a: set<nat>): set<(nat, nat)> { set j | j in a :: (t, j) }

  /** A place for each answer: the injection and the station. */
  function Slots(w: World, injected: seq<Injection>): set<(nat, nat)> {
    if injected == [] then {}
    else
      var n := |injected| - 1;
      Slots(w, injected[..n]) + Paired(n, Takers(w, injected[n]))
  }

  lemma {:induction false} SlotsAre(w: World, injected: seq<Injection>, t: nat, j: nat)
    ensures (t, j) in Slots(w, injected) <==> t < |injected| && j in Takers(w, injected[t])
  {
    if injected == [] {
    } else {
      SlotsAre(w, injected[..|injected| - 1], t, j);
    }
  }

  lemma {:induction false} PairedCount(t: nat, a: set<nat>)
    ensures |Paired(t, a)| == |a|
  {
    if a == {} {
    } else {
      var x :| x in a;
      PairedCount(t, a - {x});
      assert Paired(t, a) == Paired(t, a - {x}) + {(t, x)};
    }
  }

  lemma {:induction false} SlotsCount(w: World, injected: seq<Injection>)
    requires ValidWorld(w)
    ensures |Slots(w, injected)| <= |injected| + Excess(injected)
  {
    if injected == [] {
    } else {
      var n := |injected| - 1;
      SlotsCount(w, injected[..n]);
      TakersCount(w, injected[n]);
      PairedCount(n, Takers(w, injected[n]));
      UnionCount(Slots(w, injected[..n]), Paired(n, Takers(w, injected[n])));
    }
  }

  lemma UnionCount<T>(a: set<T>, b: set<T>)
    ensures |a + b| <= |a| + |b|
  {
    assert a + b == a + (b - a);
    assert |b - a| <= |b| by {
      assert b == (b - a) + (b * a);
    }
  }

  function Tags(q: seq<Message>, j: nat): set<(nat, nat)> { set x | 0 <= x < |q| :: (q[x].tag, j) }

  /** The answers given: tag and station. */
  function Given(sts: seq<Station>): set<(nat, nat)> {
    if sts == [] then {}
    else
      var n := |sts| - 1;
      Given(sts[..n]) + Tags(sts[n].answered, n)
  }

  lemma {:induction false} TagsCount(q: seq<Message>, j: nat)
    requires TagsDistinct(q)
    ensures |Tags(q, j)| == |q|
  {
    if q == [] {
    } else {
      var init, last := q[..|q| - 1], q[|q| - 1];
      TagsCount(init, j);
      assert forall x :: 0 <= x < |init| ==> init[x] == q[x];
      assert (last.tag, j) !in Tags(init, j);
      assert Tags(q, j) == Tags(init, j) + {(last.tag, j)};
    }
  }

  lemma {:induction false} GivenAre(sts: seq<Station>, t: nat, j: nat)
    ensures (t, j) in Given(sts) <==> j < |sts| && AnsweredTag(sts[j], t)
  {
    if sts == [] {
    } else {
      GivenAre(sts[..|sts| - 1], t, j);
    }
  }

  lemma {:induction false} GivenCount(sts: seq<Station>)
    requires forall j :: 0 <= j < |sts| ==> TagsDistinct(sts[j].answered)
    ensures |Given(sts)| == Sum(AnswerCounts(sts))
  {
    if sts == [] {
    } else {
      var n := |sts| - 1;
      var init, last := sts[..n], sts[n].answered;
      GivenCount(init);
      TagsCount(last, n);
      var more := Tags(last, n);
      assert Given(init) !! more by {
        forall p | p in Given(init) && p in more ensures false {
          GivenAre(init, p.0, p.1);
        }
      }
      assert AnswerCounts(sts)[..n] == AnswerCounts(init);
    }
  }

  lemma {:induction false} BelowCount(n: nat)
    ensures |Below(n)| == n
  {
    if n == 0 {
    } else {
      BelowCount(n - 1);
    }
  }

  lemma SubsetCount<T>(a: set<T>, b: set<T>)
    requires a <= b
    ensures |a| <= |b|
  {
    assert b == a + (b - a);
  }

  lemma GivenHasSlot(w: World, s: Swarm, t: nat, j: nat)
    requires ValidWorld(w) && Inv(w, s) && (t, j) in Given(s.stations)
    ensures (t, j) in Slots(w, s.injected)
  {
    GivenAre(s.stations, t, j);
    SlotsAre(w, s.injected, t, j);
    var q := s.stations[j].answered;
    var x :| 0 <= x < |q| && q[x].tag == t;
    assert q[x] in q && AnsweredOk(w, s, j, q[x]);
  }

  /**
   In every run the answers given are at most one for each injection, and for each request to
   everyone one more for every further station without an id when it was injected.
   */
  lemma AnswersPaid(w: World, storage: Storage, acts: seq<Action>)
    requires ValidWorld(w)
    ensures var s := Run(w, Start(w, storage), acts);
      Sum(AnswerCounts(s.stations)) <= |s.injected| + Excess(s.injected)
  {
    var s := Run(w, Start(w, storage), acts);
    Reachable(w, storage, acts);
    forall j | 0 <= j < |s.stations| ensures TagsDistinct(s.stations[j].answered) {
      AlwaysOnce(w, storage, acts, j);
    }
    AnswersBounded(w, s);
  }

  lemma AnswersBounded(w: World, s: Swarm)
    requires ValidWorld(w) && Inv(w, s) && forall j :: 0 <= j < |s.stations| ==> TagsDistinct(s.stations[j].answered)
    ensures Sum(AnswerCounts(s.stations)) <= |s.injected| + Excess(s.injected)
  {
    GivenCount(s.stations);
    forall p | p in Given(s.stations) ensures p in Slots(w, s.injected) {
      GivenHasSlot(w, s, p.0, p.1);
    }
    SubsetCount(Given(s.stations), Slots(w, s.injected));
    SlotsCount(w, s.injected);
  }

  function Traffic(s: Swarm): nat { s.sends + Sum(BusLoads(s)) }

  /**
   No storm. In every run the messages sent or waiting to be sent are at most the
   announcements, twice the host injections, and for each request to everyone that left its
   module the number of stations without an id at that time, less one.
   */
  lemma NoStorm(w: World, storage: Storage, acts: seq<Action>)
    requires ValidWorld(w)
    ensures var s := Run(w, Start(w, storage), acts);
      Traffic(s) <= s.announcements + 2 * |s.injected| + Excess(s.injected)
  {
    AlwaysPaid(w, storage, acts);
    AnswersPaid(w, storage, acts);
  }

  /** At the end of the run, more than two messages for one injection are sent or waiting. */
  ghost predicate Storms(w: World, storage: Storage, acts: seq<Action>) {
    var s := Run(w, Start(w, storage), acts); Traffic(s) > s.announcements + 2 * |s.injected|
  }

  ghost predicate CanStorm(w: World, storage: Storage) { exists acts :: Storms(w, storage, acts) }

  /** Two stations wait and a third one asks. */
  lemma {:induction false} ExcessNeedsThree(w: World, injected: seq<Injection>)
    requires Excess(injected) > 0
    requires forall k :: 0 <= k < |injected| ==>
      injected[k].at < |w.ids| && forall x :: x in injected[k].waiting ==> x < |w.ids|
    ensures |w.ids| >= 3
  {
    var last := injected[|injected| - 1];
    if Over(last) == 0 {
      ExcessNeedsThree(w, injected[..|injected| - 1]);
    } else {
      BelowCount(|w.ids|);
      SubsetCount(last.waiting + {last.at}, Everyone(w));
    }
  }

  lemma StormNeeds(w: World, storage: Storage, acts: seq<Action>)
    requires ValidWorld(w) && Storms(w, storage, acts)
    ensures |w.ids| >= 3 && Excess(Run(w, Start(w, storage), acts).injected) > 0
  {
    NoStorm(w, storage, acts);
    Reachable(w, storage, acts);
    var s := Run(w, Start(w, storage), acts);
    forall k | 0 <= k < |s.injected|
      ensures s.injected[k].at < |w.ids| && forall x :: x in s.injected[k].waiting ==> x < |w.ids|
    {
      assert InjectionOk(w, s.injected, k);
    }
    ExcessNeedsThree(w, s.injected);
  }

  /** In every swarm of two stations or more the bound is attained, with an excess of n - 2. */
  lemma StormAttains(w: World, storage: Storage) returns (acts: seq<Action>)
    requires ValidWorld(w) && |w.ids| >= 2
    ensures var s := Run(w, Start(w, storage), acts);
      && Excess(s.injected) == |w.ids| - 2
      && Traffic(s) == s.announcements + 2 * |s.injected| + Excess(s.injected)
  {
    acts := SwarmStorm.Storm(w, storage);
    var s := Run(w, Start(w, storage), acts);
    SumOnes(BusLoads(s));
    var inj := s.injected[0];
    BelowCount(|w.ids|);
    assert inj.waiting == Everyone(w) - {0};
    assert s.injected[..0] == [];
  }

  /**
   The bound of two sends per injection, exactly. A swarm can exceed it if and only if it has
   at least three stations; and it does so only in runs in which a request to everyone left
   its module while two others had no id.
   */
  lemma StormsIff(w: World, storage: Storage, acts: seq<Action>)
    requires ValidWorld(w)
    ensures CanStorm(w, storage) <==> |w.ids| >= 3
    ensures Storms(w, storage, acts) ==> Excess(Run(w, Start(w, storage), acts).injected) > 0
  {
    if Storms(w, storage, acts) {
      StormNeeds(w, storage, acts);
    }
    if CanStorm(w, storage) {
      var some :| Storms(w, storage, some);
      StormNeeds(w, storage, some);
    }
    if |w.ids| >= 3 {
      var some := StormAttains(w, storage);
      assert Storms(w, storage, some);
    }
  }

  // ---- the swarm comes to rest -----------------------------------------------------------

  /** Steps a message in an inbox can still cause among n stations, itself included. */
  function InboxCost(n: nat, m: Message): nat { if IsRequest(m.body) then 3 + 2 * n else 2 }

  function BusCost(n: nat, m: Message): nat { 1 + n * InboxCost(n, m) }

  function InboxCosts(n: nat, q: seq<Message>): nat {
    if q == [] then 0 else InboxCosts(n, q[..|q| - 1]) + InboxCost(n, q[|q| - 1])
  }

  function BusCosts(n: nat, q: seq<Message>): nat {
    if q == [] then 0 else BusCosts(n, q[..|q| - 1]) + BusCost(n, q[|q| - 1])
  }

  function StationWork(n: nat, st: Station): nat {
    BusCosts(n, st.node.broadcast) + InboxCosts(n, st.inbox) + |st.node.hivemind|
  }

  function Works(s: Swarm): (r: seq<nat>)
    ensures |r| == |s.stations|
  {
    seq(|s.stations|, k requires 0 <= k < |s.stations| => StationWork(|s.stations|, s.stations[k]))
  }

  /** All the steps that can still happen without the hosts. */
  function Work(s: Swarm): nat { Sum(Works(s)) }

  lemma {:induction false} InboxCostsHead(n: nat, q: seq<Message>)
    requires q != []
    ensures InboxCosts(n, q) == InboxCost(n, q[0]) + InboxCosts(n, q[1..])
  {
    if |q| > 1 {
      assert q[1..][..|q| - 2] == q[..|q| - 1][1..];
      InboxCostsHead(n, q[..|q| - 1]);
    } else {
      assert q[..0] == [];
    }
  }

  lemma {:induction false} BusCostsHead(n: nat, q: seq<Message>)
    requires q != []
    ensures BusCosts(n, q) == BusCost(n, q[0]) + BusCosts(n, q[1..])
  {
    if |q| > 1 {
      assert q[1..][..|q| - 2] == q[..|q| - 1][1..];
      BusCostsHead(n, q[..|q| - 1]);
    } else {
      assert q[..0] == [];
    }
  }

  lemma CostsSnoc(n: nat, q: seq<Message>, m: Message)
    ensures InboxCosts(n, q + [m]) == InboxCosts(n, q) + InboxCost(n, m)
    ensures BusCosts(n, q + [m]) == BusCosts(n, q) + BusCost(n, m)
  {
    assert (q + [m])[..|q|] == q;
  }

  lemma WorkAt(s: Swarm, s': Swarm, i: nat)
    requires i < |s.stations| && |s'.stations| == |s.stations|
    requires forall k :: 0 <= k < |s.stations| && k != i ==> s'.stations[k] == s.stations[k]
    requires StationWork(|s.stations|, s'.stations[i]) < StationWork(|s.stations|, s.stations[i])
    ensures Work(s') < Work(s)
  {
    SumPoint(Works(s), Works(s'), i);
  }

  lemma ReceiveWorks(w: World, s: Swarm, i: nat)
    requires ValidWorld(w) && Inv(w, s) && i < |s.stations| && s.stations[i].inbox != []
    ensures Work(DoReceive(w, s, i)) < Work(s)
  {
    var n := |s.stations|;
    var st, s' := s.stations[i], DoReceive(w, s, i);
    var m := st.inbox[0];
    var d := Dispatch(st.node, m, false, w.listMax).0;
    ReceivedRelay(w, s, i);
    DispatchQueues(st.node, m, false, w.listMax);
    InboxCostsHead(n, st.inbox);
    if d.broadcast != st.node.broadcast {
      var r :| d.broadcast == st.node.broadcast + [r] && Answers(m, r);
      CostsSnoc(n, st.node.broadcast, r);
      assert BusCost(n, r) == 1 + n * 2;
    }
    WorkAt(s, s', i);
  }

  lemma DrainWorks(w: World, s: Swarm, i: nat, ok: bool, reach: set<nat>)
    requires i < |s.stations| == |w.ids| && s.stations[i].node.broadcast != []
    ensures Work(DoDrain(w, s, i, ok, reach)) < Work(s)
  {
    var n := |s.stations|;
    var s' := DoDrain(w, s, i, ok, reach);
    var m := s.stations[i].node.broadcast[0];
    BusCostsHead(n, s.stations[i].node.broadcast);
    var mid := Works(s)[i := Works(s)[i] - BusCost(n, m)];
    SumPoint(Works(s), mid, i);
    forall k | 0 <= k < n ensures Works(s')[k] <= mid[k] + InboxCost(n, m) {
      DrainStation(w, s, i, ok, reach, k);
      CostsSnoc(n, s.stations[k].inbox, m);
    }
    SumSlack(mid, Works(s'), InboxCost(n, m));
  }

  lemma DeliverWorks(w: World, s: Swarm, i: nat, ok: bool)
    requires i < |s.stations| && s.stations[i].node.hivemind != []
    ensures Work(DoDeliver(w, s, i, ok)) < Work(s)
  {
    WorkAt(s, DoDeliver(w, s, i, ok), i);
  }

  /** The swarm works on its own: it sends, dispatches or delivers a message. */
  predicate Progresses(w: World, s: Swarm, a: Action) {
    Enabled(w, s, a) && (a.Drain? || a.Receive? || a.Deliver?)
  }

  predicate FromHost(a: Action) { a.Inject? || a.Announce? }

  lemma StepWorks(w: World, s: Swarm, a: Action)
    requires ValidWorld(w) && Inv(w, s) && !FromHost(a)
    ensures Work(Step(w, s, a)) + (if Progresses(w, s, a) then 1 else 0) <= Work(s)
  {
    if Enabled(w, s, a) {
      match a
      case Drain(i, ok, reach) => DrainWorks(w, s, i, ok, reach);
      case Receive(i) => ReceiveWorks(w, s, i);
      case Deliver(i, ok) => DeliverWorks(w, s, i, ok);
      case Greet(_) => assert Works(Step(w, s, a)) == Works(s);
      case Forget(_, _) => assert Works(Step(w, s, a)) == Works(s);
      case Inject(_, _, _) =>
      case Announce(_) =>
    }
  }

  function StepsWorked(w: World, s: Swarm, acts: seq<Action>): nat {
    if acts == [] then 0
    else
      var n := |acts| - 1;
      StepsWorked(w, s, acts[..n]) + if Progresses(w, Run(w, s, acts[..n]), acts[n]) then 1 else 0
  }

  /**
   Quiescence. From any state satisfying the invariant, a run in which no host injects and no
   module announces makes at most `Work` sends, dispatches and deliveries, whatever their
   order and whatever is lost.
   */
  lemma {:induction false} Quiescence(w: World, s: Swarm, acts: seq<Action>)
    requires ValidWorld(w) && Inv(w, s) && forall k :: 0 <= k < |acts| ==> !FromHost(acts[k])
    ensures Inv(w, Run(w, s, acts)) && StepsWorked(w, s, acts) + Work(Run(w, s, acts)) <= Work(s)
  {
    if acts == [] {
    } else {
      var t := Run(w, s, acts[..|acts| - 1]);
      Quiescence(w, s, acts[..|acts| - 1]);
      StepKeeps(w, t, acts[|acts| - 1]);
      StepWorks(w, t, acts[|acts| - 1]);
    }
  }

  lemma CostsPositive(n: nat, q: seq<Message>)
    ensures q != [] ==> InboxCosts(n, q) > 0 && BusCosts(n, q) > 0
  {
  }

  /** Where no work is left, every queue is empty. */
  lemma AtRest(s: Swarm, i: nat)
    requires i < |s.stations| && Work(s) == 0
    ensures var st := s.stations[i]; st.inbox == [] && st.node.broadcast == [] && st.node.hivemind == []
  {
    SumMember(Works(s), i);
    CostsPositive(|s.stations|, s.stations[i].inbox);
    CostsPositive(|s.stations|, s.stations[i].node.broadcast);
  }
}
