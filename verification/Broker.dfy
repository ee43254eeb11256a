/** The ROS broker that joins the modules (src/network/src/ros/src/broker). */
module Broker {
  import opened Bytes
  import opened Messages

  type Topics = map<u16, seq<Message>>

  /** A message from robot `source` published on every input topic but its own. */
  function FanOut(topics: Topics, source: u16, m: Message): Topics {
    map id | id in topics :: if id == source then topics[id] else topics[id] + [m]
  }

  class CommunicationBroker {
    var topics: Topics            // what each robot's input topic has carried

    /** Subscribes to every configured robot; a repeated id keeps its one topic. */
    constructor (robotList: seq<u16>)
      ensures topics.Keys == set id | id in robotList
      ensures forall id :: id in topics ==> topics[id] == []
    {
      topics := map[];
      new;
      for k := 0 to |robotList|
        invariant topics.Keys == set id | id in robotList[..k]
        invariant forall id :: id in topics ==> topics[id] == []
      {
        assert robotList[..k + 1] == robotList[..k] + [robotList[k]];
        topics := topics[robotList[k] := []];
      }
      assert robotList[..|robotList|] == robotList;
    }

    method CommunicationCallback(sourceRobot: u16, m: Message)
      modifies this
      ensures topics == FanOut(old(topics), sourceRobot, m)
    {
      var rest := topics.Keys;
      while rest != {}
        invariant rest <= topics.Keys == old(topics).Keys
        invariant forall id :: id in topics ==>
          topics[id] == if id in rest then old(topics)[id] else FanOut(old(topics), sourceRobot, m)[id]
        decreases rest
      {
        var id :| id in rest;
        if id != sourceRobot {
          topics := topics[id := topics[id] + [m]];
        }
        rest := rest - {id};
      }
    }
  }
}
