/** The broker's fan-out is what carries a drained broadcast to the inboxes of the swarm. */
module SwarmBroker {
  import opened Bytes
  import opened Routing
  import opened Swarm
  import opened SwarmInvariant
  import opened SwarmDelivery
  import opened Broker

  /** The inboxes, seen as the broker's input topics. */
  ghost function Inboxes(w: World, s: Swarm): (t: Topics)
    requires ValidWorld(w) && |s.stations| == |w.ids|
    ensures forall j :: 0 <= j < |w.ids| ==> w.ids[j] in t && t[w.ids[j]] == s.stations[j].inbox
    ensures forall id :: id in t ==> id in w.ids
  {
    map j | 0 <= j < |w.ids| :: w.ids[j] := s.stations[j].inbox
  }

  lemma FanOutAt(w: World, s: Swarm, i: nat, j: nat)
    requires ValidWorld(w) && i < |s.stations| == |w.ids| && j < |w.ids|
    requires s.stations[i].node.uuid == w.ids[i] && s.stations[i].node.broadcast != []
    ensures FanOut(Inboxes(w, s), w.ids[i], s.stations[i].node.broadcast[0])[w.ids[j]]
         == DoDrain(w, s, i, true, Everyone(w)).stations[j].inbox
  {
    DrainStation(w, s, i, true, Everyone(w), j);
    assert j != i ==> w.ids[j] != w.ids[i];
  }

  lemma SameTopics(a: Topics, b: Topics, ids: seq<u16>)
    requires forall id :: id in a || id in b ==> id in ids
    requires forall j :: 0 <= j < |ids| ==> ids[j] in a && ids[j] in b && a[ids[j]] == b[ids[j]]
    ensures a == b
  {
  }

  /**
   In every run, draining a broadcast with room everywhere does to all inboxes at once what
   the broker does to its topics when the robot whose id the module holds publishes it.
   */
  lemma DrainIsFanOut(w: World, storage: Storage, acts: seq<Action>, i: nat)
    requires ValidWorld(w)
    requires Enabled(w, Run(w, Start(w, storage), acts), Drain(i, true, Everyone(w)))
    ensures var s := Run(w, Start(w, storage), acts);
      && |s.stations| == |w.ids| && i < |w.ids| && s.stations[i].node.broadcast != []
      && Inboxes(w, DoDrain(w, s, i, true, Everyone(w)))
         == FanOut(Inboxes(w, s), s.stations[i].node.uuid, s.stations[i].node.broadcast[0])
  {
    Reachable(w, storage, acts);
    var s := Run(w, Start(w, storage), acts);
    FanOutAll(w, s, i);
    assert StationOk(w, s, i, s.stations[i]);
  }

  lemma FanOutAll(w: World, s: Swarm, i: nat)
    requires ValidWorld(w) && i < |s.stations| == |w.ids| && s.stations[i].node.broadcast != []
    ensures s.stations[i].node.uuid == w.ids[i] ==>
      Inboxes(w, DoDrain(w, s, i, true, Everyone(w)))
      == FanOut(Inboxes(w, s), w.ids[i], s.stations[i].node.broadcast[0])
  {
    if s.stations[i].node.uuid == w.ids[i] {
      var after := Inboxes(w, DoDrain(w, s, i, true, Everyone(w)));
      var all := FanOut(Inboxes(w, s), w.ids[i], s.stations[i].node.broadcast[0]);
      forall j | 0 <= j < |w.ids| ensures w.ids[j] in after && w.ids[j] in all && after[w.ids[j]] == all[w.ids[j]] {
        FanOutAt(w, s, i, j);
      }
      SameTopics(after, all, w.ids);
    }
  }
}
