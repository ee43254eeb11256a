/** No message is queued twice as a station's own, and so none is delivered twice. */
module SwarmOnce {
  import opened Bytes
  import opened Messages
  import opened Routing
  import opened Swarm
  import opened SwarmInvariant
  import opened SwarmPipeline
  import opened SwarmDelivery
  import opened SwarmOrder

  ghost predicate TagsDistinct(q: seq<Message>) {
    forall x, y :: 0 <= x < y < |q| ==> q[x].tag != q[y].tag
  }

  ghost predicate AnsweredTag(st: Station, t: nat) {
    exists x :: 0 <= x < |st.answered| && st.answered[x].tag == t
  }

  /** Host i wrote it, or it is the answer of station i to a request it handled. */
  ghost predicate Rightful(s: Swarm, i: nat, m: Message)
    requires i < |s.stations|
  {
    && m.tag < |s.injected|
    && (HostWrote(s, i, m) || (Answers(s.injected[m.tag].msg, m) && AnsweredTag(s.stations[i], m.tag)))
  }

  /** What host i wrote is queued in the order of injection. */
  ghost predicate WrittenInOrder(s: Swarm, i: nat, q: seq<Message>) {
    forall x, y :: 0 <= x < y < |q| && HostWrote(s, i, q[x]) && HostWrote(s, i, q[y]) ==> q[x].tag < q[y].tag
  }

  ghost predicate Once(s: Swarm, i: nat)
    requires i < |s.stations|
  {
    var st := s.stations[i];
    && TagsDistinct(st.answered) && TagsDistinct(st.issued) && WrittenInOrder(s, i, st.issued)
    && forall m :: m in st.issued ==> Rightful(s, i, m)
  }

  /** A request that reaches the head of an inbox has not been handled there before. */
  lemma FreshRequest(w: World, s: Swarm, a: nat)
    requires ValidWorld(w) && Inv(w, s) && a < |s.stations| && s.stations[a].inbox != []
    requires forall i :: 0 <= i < |w.ids| ==> Balanced(w, s, RequestKind, i, a)
    requires Handles(s.stations[a].node, s.stations[a].inbox[0])
    ensures var q := s.stations[a].inbox[0];
      && !AnsweredTag(s.stations[a], q.tag)
      && q.tag < |s.injected| && s.injected[q.tag].msg == q && s.injected[q.tag].at != a
  {
    var st := s.stations[a];
    var q := st.inbox[0];
    assert q in st.inbox && FromOther(w, s, a, q) && StationOk(w, s, a, st);
    var k: nat :| k != a && Issued(w, s, k, q);
    FollowedWrote(w, s, k, q);
    SourceOf(w, s, k, q);
    if AnsweredTag(st, q.tag) {
      var x :| 0 <= x < |st.answered| && st.answered[x].tag == q.tag;
      assert AnsweredOk(w, s, a, st.answered[x]);
      assert st.answered[x] == q;
      assert Rel(w, RequestKind, k, a, q) && Balanced(w, s, RequestKind, k, a);
      FlowMembers(w, RequestKind, k, a, st.answered, q);
      FlowHead(w, RequestKind, k, a, st.inbox);
      var f, p := Flow(w, RequestKind, k, a, st.answered), Pipe(w, s, RequestKind, k, a);
      var y :| 0 <= y < |f| && f[y] == q;
      assert p[y] == q && p[|f|] == q;
      OwedIncreasing(w, s.injected, s.lost, RequestKind, k, a);
    }
  }

  lemma OnceGrows(w: World, s: Swarm, s': Swarm, i: nat)
    requires i < |s.stations| == |s'.stations| && s.injected <= s'.injected && Once(s, i)
    requires s'.stations[i].answered == s.stations[i].answered && s'.stations[i].issued == s.stations[i].issued
    ensures Once(s', i)
  {
    forall m | m in s'.stations[i].issued ensures Rightful(s', i, m) && (HostWrote(s', i, m) <==> HostWrote(s, i, m)) {
      assert Rightful(s, i, m);
    }
  }

  /** One more of each, with a tag of its own. */
  lemma OnceMore(s: Swarm, s': Swarm, i: nat, t: nat, answered: seq<Message>, issued: seq<Message>)
    requires i < |s.stations| == |s'.stations| && s.injected <= s'.injected && Once(s, i)
    requires s'.stations[i].answered == s.stations[i].answered + answered && |answered| <= 1
    requires s'.stations[i].issued == s.stations[i].issued + issued && |issued| <= 1
    requires forall m :: m in answered + issued ==> m.tag == t
    requires !AnsweredTag(s.stations[i], t) && forall m :: m in s.stations[i].issued ==> m.tag != t
    requires forall m :: m in issued ==> Rightful(s', i, m)
    requires issued != [] && HostWrote(s', i, issued[0]) ==> forall m :: m in s.stations[i].issued ==> m.tag < t
    ensures Once(s', i)
  {
    var st, st' := s.stations[i], s'.stations[i];
    forall m | m in st'.issued ensures Rightful(s', i, m) {
      if m in st.issued {
        assert Rightful(s, i, m);
        if AnsweredTag(st, m.tag) {
          var x :| 0 <= x < |st.answered| && st.answered[x].tag == m.tag;
          assert st'.answered[x].tag == m.tag;
        }
      }
    }
    forall m | m in st.issued ensures HostWrote(s', i, m) <==> HostWrote(s, i, m) {
      assert Rightful(s, i, m);
    }
  }

  // ---- every action ---------------------------------------------------------------------------

  /** What one dispatch adds to the records of a station. */
  lemma DispatchRecords(st: Station, m: Message, fwd: bool, listMax: u8)
    ensures var st' := AfterDispatch(st, m, fwd, listMax); var out := PassedOn(st.node, m, listMax);
      && st'.answered == st.answered + If(Handles(st.node, m), m)
      && (st'.issued == st.issued ||
          (out.Some? && st'.issued == st.issued + [out.value] && out.value.tag == m.tag
           && (fwd || Handles(st.node, m))
           && if Handles(st.node, m) then Answers(m, out.value) else out.value == m))
  {
    PassedSource(st.node, m, listMax);
  }

  lemma InjectOnce(w: World, s: Swarm, a: nat, m: Message)
    requires ValidWorld(w) && Inv(w, s) && a < |s.stations| && m.tag == |s.injected| && Once(s, a)
    ensures Once(DoInject(w, s, a, m), a)
  {
    var st, s' := s.stations[a], DoInject(w, s, a, m);
    DispatchRecords(st, m, true, w.listMax);
    InjectStationIs(w, s, a, m);
    assert StationOk(w, s, a, st);
    var st' := s'.stations[a];
    assert forall x :: 0 <= x < |st.answered| ==> AnsweredOk(w, s, a, st.answered[x]);
    assert forall r :: r in st.issued ==> Rightful(s, a, r);
    assert HostWrote(s', a, m);
    if Handles(st.node, m) {
      assert st'.answered[|st.answered|].tag == m.tag;
    }
    OnceMore(s, s', a, m.tag, st'.answered[|st.answered|..], st'.issued[|st.issued|..]);
  }

  lemma ReceiveOnce(w: World, s: Swarm, a: nat)
    requires ValidWorld(w) && Inv(w, s) && a < |s.stations| && s.stations[a].inbox != [] && Once(s, a)
    requires forall i :: 0 <= i < |w.ids| ==> Balanced(w, s, RequestKind, i, a)
    ensures Once(DoReceive(w, s, a), a)
  {
    var st, s' := s.stations[a], DoReceive(w, s, a);
    var m := st.inbox[0];
    DispatchRecords(st, m, false, w.listMax);
    ReceiveStation(w, s, a);
    var st' := s'.stations[a];
    if Handles(st.node, m) {
      FreshRequest(w, s, a);
      assert forall r :: r in st.issued ==> Rightful(s, a, r);
      assert st'.answered[|st.answered|].tag == m.tag;
      OnceMore(s, s', a, m.tag, st'.answered[|st.answered|..], st'.issued[|st.issued|..]);
    } else {
      OnceGrows(w, s, s', a);
    }
  }

  /** The other actions leave the records alone, as every action does those of other stations. */
  lemma StepElsewhere(w: World, s: Swarm, a: Action, i: nat)
    requires i < |s.stations| && (a.i != i || !(a.Inject? || a.Receive?))
    ensures var s' := Step(w, s, a);
      && |s'.stations| == |s.stations| && s.injected <= s'.injected
      && s'.stations[i].answered == s.stations[i].answered && s'.stations[i].issued == s.stations[i].issued
  {
    if Enabled(w, s, a) {
      match a
      case Drain(k, ok, reach) => DrainStation(w, s, k, ok, reach, i);
      case _ =>
    }
  }

  lemma StepOnce(w: World, s: Swarm, a: Action, i: nat)
    requires ValidWorld(w) && Inv(w, s) && i < |s.stations| && Once(s, i)
    requires forall k :: 0 <= k < |w.ids| ==> Balanced(w, s, RequestKind, k, i)
    ensures |Step(w, s, a).stations| == |s.stations| && Once(Step(w, s, a), i)
  {
    if a.i == i && Enabled(w, s, a) && a.Inject? {
      InjectOnce(w, s, i, Injected(w, s, i, a.dst, a.body));
    } else if a.i == i && Enabled(w, s, a) && a.Receive? {
      ReceiveOnce(w, s, i);
    } else if Enabled(w, s, a) {
      StepElsewhere(w, s, a, i);
      OnceGrows(w, s, Step(w, s, a), i);
    }
  }

  lemma {:induction false} AlwaysOnce(w: World, storage: Storage, acts: seq<Action>, i: nat)
    requires ValidWorld(w) && i < |w.ids|
    ensures var s := Run(w, Start(w, storage), acts); |s.stations| == |w.ids| && Once(s, i)
  {
    if acts == [] {
    } else {
      AlwaysOnce(w, storage, acts[..|acts| - 1], i);
      AlwaysBalanced(w, storage, acts[..|acts| - 1]);
      StepOnce(w, Run(w, Start(w, storage), acts[..|acts| - 1]), acts[|acts| - 1], i);
    }
  }
}
