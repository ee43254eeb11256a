/**
 The table of known agents (src/network/src/common/src/AbstractNetworkManager.cpp). The
 hash map under it is not in the repository; it is an association list whose order stands
 for the order `forEach` happens to use.
 */
module AgentTable {
  import opened Bytes
  import opened Messages

  /** Room in the hash map (src/network/src/esp/src/NetworkContainer.cpp:8). */
  const MAX_AGENTS: nat := 32

  datatype Entry = Entry(id: u16, ip: u32)
  type Table = seq<Entry>

  ghost predicate Unique(t: Table) {
    forall i, j :: 0 <= i < j < |t| ==> t[i].id != t[j].id
  }

  function Lookup(t: Table, id: u16): (r: Option<u32>)
    ensures r.Some? ==> Entry(id, r.value) in t
    ensures r.None? ==> forall ip :: Entry(id, ip) !in t
  {
    if t == [] then None
    else if t[0].id == id then Some(t[0].ip)
    else
      var r := Lookup(t[1..], id);
      assert t == [t[0]] + t[1..];
      r
  }

  predicate Known(t: Table, id: u16) { Lookup(t, id).Some? }

  /** Replaces the address of a known agent, adds an unknown one while there is room. */
  function Upsert(t: Table, id: u16, ip: u32): Table {
    if t == [] then [Entry(id, ip)]
    else if t[0].id == id then [Entry(id, ip)] + t[1..]
    else [t[0]] + Upsert(t[1..], id, ip)
  }

  predicate CanRegister(t: Table, id: u16) { Known(t, id) || |t| < MAX_AGENTS }

  function Remove(t: Table, id: u16): Table {
    if t == [] then []
    else if t[0].id == id then t[1..]
    else [t[0]] + Remove(t[1..], id)
  }

  function Ids(t: Table): (r: seq<u16>)
    ensures |r| == |t| && forall k :: 0 <= k < |t| ==> r[k] == t[k].id
  {
    seq(|t|, k requires 0 <= k < |t| => t[k].id)
  }

  /** The ids a bounded listing shows. */
  function Listing(t: Table, maxLength: nat): seq<u16> {
    if |t| <= maxLength then Ids(t) else Ids(t)[..maxLength]
  }

  /** Registration is a map update: `id` gets `ip`, every other agent keeps what it had. */
  lemma {:induction false} UpsertLooksUp(t: Table, id: u16, ip: u32, other: u16)
    ensures Lookup(Upsert(t, id, ip), other) == if other == id then Some(ip) else Lookup(t, other)
  {
    if t == [] || t[0].id == id {
    } else {
      UpsertLooksUp(t[1..], id, ip, other);
    }
  }

  lemma {:induction false} UpsertMembers(t: Table, id: u16, ip: u32, e: Entry)
    requires e in Upsert(t, id, ip)
    ensures e == Entry(id, ip) || e in t
  {
    if t == [] || t[0].id == id || e == t[0] {
    } else {
      UpsertMembers(t[1..], id, ip, e);
    }
  }

  lemma {:induction false} UpsertUnique(t: Table, id: u16, ip: u32)
    requires Unique(t)
    ensures Unique(Upsert(t, id, ip))
    ensures |Upsert(t, id, ip)| == if Known(t, id) then |t| else |t| + 1
  {
    if t == [] || t[0].id == id {
    } else {
      UpsertUnique(t[1..], id, ip);
      var rest := Upsert(t[1..], id, ip);
      forall k | 0 <= k < |rest| ensures rest[k].id != t[0].id {
        UpsertMembers(t[1..], id, ip, rest[k]);
      }
    }
  }

  /** In a table without repeated ids, removal takes out one agent and no other. */
  lemma {:induction false} RemoveLooksUp(t: Table, id: u16, other: u16)
    requires Unique(t)
    ensures Lookup(Remove(t, id), other) == if other == id then None else Lookup(t, other)
  {
    if t == [] {
    } else if t[0].id == id {
    } else {
      RemoveLooksUp(t[1..], id, other);
    }
  }

  lemma {:induction false} RemoveMembers(t: Table, id: u16, e: Entry)
    ensures e in Remove(t, id) ==> e in t
    ensures Unique(t) && e in Remove(t, id) ==> e.id != id
    ensures e in t && e.id != id ==> e in Remove(t, id)
  {
    if t == [] || t[0].id == id {
    } else {
      RemoveMembers(t[1..], id, e);
    }
  }

  lemma {:induction false} RemoveUnique(t: Table, id: u16)
    requires Unique(t)
    ensures Unique(Remove(t, id))
  {
    if t == [] || t[0].id == id {
    } else {
      RemoveUnique(t[1..], id);
      var rest := Remove(t[1..], id);
      forall k | 0 <= k < |rest| ensures rest[k].id != t[0].id {
        RemoveMembers(t[1..], id, rest[k]);
      }
    }
  }

  /** What a listing of at most `maxLength` agents shows: distinct ids, each with a known address. */
  lemma ListingSound(t: Table, maxLength: nat)
    requires Unique(t)
    ensures var l := Listing(t, maxLength);
      && |l| == (if |t| <= maxLength then |t| else maxLength)
      && (forall i, j :: 0 <= i < j < |l| ==> l[i] != l[j])
      && (forall k :: 0 <= k < |l| ==> Known(t, l[k]))
      && (|t| <= maxLength ==> forall id :: Known(t, id) ==> id in l)
  {
    var l := Listing(t, maxLength);
    forall k | 0 <= k < |l| ensures Known(t, l[k]) {
      assert Entry(l[k], t[k].ip) == t[k];
    }
    if |t| <= maxLength {
      forall id | Known(t, id) ensures id in l {
        var k :| 0 <= k < |t| && t[k] == Entry(id, Lookup(t, id).value);
        assert l[k] == id;
      }
    }
  }

  class NetworkManager {
    var agents: Table

    ghost predicate Valid()
      reads this
    {
      Unique(agents) && |agents| <= MAX_AGENTS
    }

    constructor ()
      ensures Valid() && agents == []
    {
      agents := [];
    }

    method GetIPFromAgentID(agentID: u16) returns (ip: Option<u32>)
      ensures ip == Lookup(agents, agentID)
    {
      ip := None;
      var k := 0;
      while k < |agents|
        invariant 0 <= k <= |agents|
        invariant ip == None && Lookup(agents, agentID) == Lookup(agents[k..], agentID)
      {
        if agents[k].id == agentID {
          return Some(agents[k].ip);
        }
        k := k + 1;
      }
    }

    /** False only for an unknown agent in a full table. */
    method RegisterAgent(agentID: u16, ip: u32) returns (ok: bool)
      requires Valid()
      modifies this
      ensures Valid()
      ensures ok <==> (exists known :: Entry(agentID, known) in old(agents)) || |old(agents)| < 32
      ensures ok ==> Lookup(agents, agentID) == Some(ip)
      ensures ok ==> forall other :: other != agentID ==> Lookup(agents, other) == Lookup(old(agents), other)
      ensures ok == CanRegister(old(agents), agentID)
      ensures agents == if ok then Upsert(old(agents), agentID, ip) else old(agents)
    {
      var known := GetIPFromAgentID(agentID);
      ok := known.Some? || |agents| < MAX_AGENTS;
      if ok {
        UpsertUnique(agents, agentID, ip);
        forall other ensures Lookup(Upsert(agents, agentID, ip), other)
                             == if other == agentID then Some(ip) else Lookup(agents, other) {
          UpsertLooksUp(agents, agentID, ip, other);
        }
        agents := Upsert(agents, agentID, ip);
      }
    }

    method UnregisterAgent(agentID: u16) returns (removed: bool)
      requires Valid()
      modifies this
      ensures Valid()
      ensures removed == Known(old(agents), agentID) && agents == Remove(old(agents), agentID)
      ensures forall other :: Lookup(agents, other) == if other == agentID then None else Lookup(old(agents), other)
    {
      var known := GetIPFromAgentID(agentID);
      removed := known.Some?;
      RemoveUnique(agents, agentID);
      RemoveLength(agents, agentID);
      forall other ensures Lookup(Remove(agents, agentID), other)
                           == if other == agentID then None else Lookup(agents, other) {
        RemoveLooksUp(agents, agentID, other);
      }
      agents := Remove(agents, agentID);
    }

    /** The callback handed to `forEach`: false stops the iteration. */
    method Callback(key: u16, agentList: array<u16>, index: nat, maxLength: u8) returns (more: bool, next: nat)
      requires maxLength as nat <= agentList.Length
      modifies agentList
      ensures more == (index < maxLength as nat)
      ensures next == if more then index + 1 else index
      ensures forall x :: 0 <= x < agentList.Length ==>
        agentList[x] == if more && x == index then key else old(agentList[x])
    {
      if index >= maxLength {
        return false, index;
      }
      agentList[index] := key;
      return true, index + 1;
    }

    /** Fills the list from its start; `warned` reports the "too many" log line. */
    method GetAgentList(agentList: array<u16>, maxLength: u8) returns (count: nat, warned: bool)
      requires maxLength as nat <= agentList.Length
      modifies agentList
      ensures count == |Listing(agents, maxLength)| <= agentList.Length
      ensures agentList[..count] == Listing(agents, maxLength)
      ensures agentList[count..] == old(agentList[..])[count..]
      ensures warned <==> |agents| > maxLength as nat
    {
      count := 0;
      var k, more := 0, true;
      while k < |agents| && more
        invariant 0 <= count <= k <= |agents| && count <= maxLength as nat
        invariant more ==> count == k
        invariant !more ==> count == maxLength as nat < |agents|
        invariant forall x :: 0 <= x < count ==> agentList[x] == agents[x].id
        invariant forall x :: count <= x < agentList.Length ==> agentList[x] == old(agentList[x])
      {
        more, count := Callback(agents[k].id, agentList, count, maxLength);
        k := k + 1;
      }
      warned := !more;
    }
  }

  lemma {:induction false} RemoveLength(t: Table, id: u16)
    ensures |Remove(t, id)| <= |t|
  {
    if t == [] || t[0].id == id {
    } else {
      RemoveLength(t[1..], id);
    }
  }
}
