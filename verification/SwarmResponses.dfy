/** How many responses a request brings: one at most, one at least, or exactly when more. */
module SwarmResponses {
  import opened Messages
  import opened Sequences
  import opened Routing
  import opened Swarm
  import opened SwarmInvariant
  import opened SwarmOnce
  import opened SwarmEarly
  import opened SwarmTheorems
  import SwarmStorm

  function FromInjection(t: nat): Message -> bool {
    (m: Message) => m.tag == t
  }

  /** The messages in a queue that stem from one injection. */
  function Copies(t: nat, q: seq<Message>): nat { |Filter(FromInjection(t), q)| }

  /** Only stations that had no id when the request was injected give nameless answers. */
  lemma GiversWaiting(w: World, s: Swarm, j: nat, t: nat)
    requires ValidWorld(w) && Inv(w, s) && t < |s.injected| && s.injected[t].msg.dst == 0
    ensures Sum(Givers(s, j, t)) <= |s.injected[t].waiting|
  {
    var q := Givers(s, j, t);
    forall k | 0 <= k < |q| ensures q[k] <= 1 && (q[k] == 1 ==> k in s.injected[t].waiting) {
      if q[k] == 1 {
        AnsweredWaiting(w, s, k, t);
      }
    }
    SumBits(q, s.injected[t].waiting);
  }

  lemma AnsweredWaiting(w: World, s: Swarm, k: nat, t: nat)
    requires ValidWorld(w) && Inv(w, s) && k < |s.stations| && AnsweredTag(s.stations[k], t)
    ensures t < |s.injected| && IsRequest(s.injected[t].msg.body)
    ensures s.injected[t].msg.dst == 0 ==>
      k in s.injected[t].waiting && (s.injected[t].Greeted() <==> s.injected[t].at != k)
  {
    var x :| 0 <= x < |s.stations[k].answered| && s.stations[k].answered[x].tag == t;
    assert s.stations[k].answered[x] in s.stations[k].answered && StationOk(w, s, k, s.stations[k]);
    assert AnsweredOk(w, s, k, s.stations[k].answered[x]);
  }

  /** A host with two messages of one injection has nothing but nameless answers to it. */
  lemma AllNameless(w: World, storage: Storage, acts: seq<Action>, j: nat, t: nat)
    requires ValidWorld(w) && j < |w.ids|
    requires var s := Run(w, Start(w, storage), acts);
      j < |s.stations| && Copies(t, s.stations[j].host) >= 2
    ensures var s := Run(w, Start(w, storage), acts);
      && t < |s.injected| && s.injected[t].at == j && s.injected[t].msg.dst == 0
      && IsRequest(s.injected[t].msg.body)
      && Copies(t, s.stations[j].host) == Count(t, s.stations[j].host)
  {
    var s := Run(w, Start(w, storage), acts);
    var q := s.stations[j].host;
    var x, y := FilterFindsTwo(FromInjection(t), q);
    ResponsesDistinct(w, storage, acts, j, x, y);
    forall z | 0 <= z < |q| && q[z].tag == t ensures q[z].src == 0 {
      if z < x {
        ResponsesDistinct(w, storage, acts, j, z, x);
      } else if z > x {
        ResponsesDistinct(w, storage, acts, j, x, z);
      }
    }
    FilterSame(FromInjection(t), Nameless(t), q);
  }

  /**
   One request, so many responses. In every run, the messages at host j that stem from one
   injection are one at most; or that injection is a request of host j itself that left its
   module for everyone, and they are at most the stations that had no id at that time.
   */
  lemma ResponsesBounded(w: World, storage: Storage, acts: seq<Action>, j: nat, t: nat)
    requires ValidWorld(w) && j < |w.ids|
    ensures var s := Run(w, Start(w, storage), acts);
      && |s.stations| == |w.ids|
      && var n := Copies(t, s.stations[j].host);
         n <= 1 || (t < |s.injected| && s.injected[t].at == j && s.injected[t].ToAll() && n <= |s.injected[t].waiting|)
  {
    Reachable(w, storage, acts);
    var s := Run(w, Start(w, storage), acts);
    if Copies(t, s.stations[j].host) >= 2 {
      AllNameless(w, storage, acts, j, t);
      AlwaysCovered(w, storage, acts, j, t);
      SumMember(Helds(s, j, t), j);
      GiversWaiting(w, s, j, t);
      AskerGreeted(w, s, j, t);
    }
  }

  /** If another station has answered it, the request had left its module. */
  lemma AskerGreeted(w: World, s: Swarm, j: nat, t: nat)
    requires ValidWorld(w) && Inv(w, s) && t < |s.injected| && s.injected[t].at == j && s.injected[t].msg.dst == 0
    requires Sum(Givers(s, j, t)) > 0
    ensures s.injected[t].Greeted()
  {
    var q := Givers(s, j, t);
    if forall k :: 0 <= k < |q| ==> q[k] == 0 {
      SumZero(q);
    } else {
      var k :| 0 <= k < |q| && q[k] != 0;
      AnsweredWaiting(w, s, k, t);
    }
  }

  // ---- when a host can get two ---------------------------------------------------------------------

  /** At the end of the run some host holds two messages of one injection. */
  ghost predicate Twins(w: World, storage: Storage, acts: seq<Action>) {
    var s := Run(w, Start(w, storage), acts);
    exists j, t: nat :: 0 <= j < |s.stations| && Copies(t, s.stations[j].host) >= 2
  }

  ghost predicate CanTwin(w: World, storage: Storage) { exists acts :: Twins(w, storage, acts) }

  lemma TwinsNeedThree(w: World, storage: Storage, acts: seq<Action>)
    requires ValidWorld(w) && Twins(w, storage, acts)
    ensures |w.ids| >= 3
  {
    var s := Run(w, Start(w, storage), acts);
    Reachable(w, storage, acts);
    var j, t: nat :| 0 <= j < |s.stations| && Copies(t, s.stations[j].host) >= 2;
    ResponsesBounded(w, storage, acts, j, t);
    assert InjectionOk(w, s.injected, t);
    ThreeStations(|w.ids|, s.injected[t].waiting, j);
  }

  lemma ThreeStations(n: nat, waiting: set<nat>, j: nat)
    requires |waiting| >= 2 && j < n && j !in waiting && forall x :: x in waiting ==> x < n
    ensures n >= 3
  {
    var a :| a in waiting;
    assert waiting == {a} + (waiting - {a});
    var b :| b in waiting - {a};
  }

  lemma {:induction false} CopiesAll(t: nat, q: seq<Message>)
    requires forall m :: m in q ==> m.tag == t
    ensures Copies(t, q) == |q|
  {
    if q == [] {
    } else {
      CopiesAll(t, q[..|q| - 1]);
    }
  }

  /** In every swarm of two stations or more, one request can bring n - 1 responses: the bound is attained. */
  lemma ResponsesAttain(w: World, storage: Storage) returns (acts: seq<Action>)
    requires ValidWorld(w) && |w.ids| >= 2
    ensures var s := Run(w, Start(w, storage), acts);
      |s.stations| == |w.ids| && Copies(0, s.stations[0].host) == |w.ids| - 1
  {
    acts := SwarmStorm.AllAnswersArrive(w, storage);
    CopiesAll(0, Run(w, Start(w, storage), acts).stations[0].host);
  }

  /**
   Two responses to one request, exactly. A host can get two messages of one injection if and
   only if the swarm has at least three stations.
   */
  lemma TwinsIff(w: World, storage: Storage)
    requires ValidWorld(w)
    ensures CanTwin(w, storage) <==> |w.ids| >= 3
  {
    if CanTwin(w, storage) {
      var acts :| Twins(w, storage, acts);
      TwinsNeedThree(w, storage, acts);
    }
    if |w.ids| >= 3 {
      var acts := ResponsesAttain(w, storage);
      assert Twins(w, storage, acts);
    }
  }
}
