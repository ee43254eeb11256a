/**
 The pipeline between two stations: what became of every message that host i injected for
 station j. In every run it is exactly what was injected, in order, minus what was lost.
 */
module SwarmPipeline {
  import opened Messages
  import opened Sequences
  import opened Swarm
  import opened SwarmInvariant

  /** Plain messages end at the host; requests end where they are handled. */
  datatype Kind = PlainKind | RequestKind

  predicate OfKind(kind: Kind, b: Body) {
    match kind case PlainKind => b.Plain? case RequestKind => IsRequest(b)
  }

  /** `m` is from host i for station j: addressed to it, or to every other one. */
  predicate Rel(w: World, kind: Kind, i: nat, j: nat, m: Message) {
    && i < |w.ids| && j < |w.ids|
    && OfKind(kind, m.body) && m.src == w.ids[i]
    && (m.dst == w.ids[j] || (m.dst == 0 && i != j))
  }

  function Line(w: World, kind: Kind, i: nat, j: nat): Message -> bool {
    m => Rel(w, kind, i, j, m)
  }

  /** The part of a queue that is from host i for station j. */
  function Flow(w: World, kind: Kind, i: nat, j: nat, q: seq<Message>): seq<Message> {
    Filter(Line(w, kind, i, j), q)
  }

  function End(kind: Kind, st: Station): seq<Message> {
    match kind case PlainKind => st.host + st.node.hivemind case RequestKind => st.answered
  }

  /** Everything under way from host i to station j, the furthest first. */
  function Pipe(w: World, s: Swarm, kind: Kind, i: nat, j: nat): seq<Message>
    requires i < |s.stations| && j < |s.stations|
  {
    Flow(w, kind, i, j, End(kind, s.stations[j]))
    + Flow(w, kind, i, j, s.stations[j].inbox)
    + Flow(w, kind, i, j, s.stations[i].node.broadcast)
  }

  /** What host i injected for station j and is not lost, in the order of injection. */
  function Owed(w: World, injected: seq<Injection>, lost: set<Loss>, kind: Kind, i: nat, j: nat): seq<Message> {
    if injected == [] then []
    else
      var inj := injected[|injected| - 1];
      Owed(w, injected[..|injected| - 1], lost, kind, i, j)
      + if inj.at == i && Rel(w, kind, i, j, inj.msg) && Loss(inj.msg.tag, j) !in lost then [inj.msg] else []
  }

  // ---- sequences ----------------------------------------------------------------------

  lemma FlowAppend(w: World, kind: Kind, i: nat, j: nat, a: seq<Message>, b: seq<Message>)
    ensures Flow(w, kind, i, j, a + b) == Flow(w, kind, i, j, a) + Flow(w, kind, i, j, b)
  {
    FilterAppend(Line(w, kind, i, j), a, b);
  }

  lemma FlowSnoc(w: World, kind: Kind, i: nat, j: nat, q: seq<Message>, m: Message)
    ensures Flow(w, kind, i, j, q + [m]) == Flow(w, kind, i, j, q) + if Rel(w, kind, i, j, m) then [m] else []
  {
    FilterSnoc(Line(w, kind, i, j), q, m);
  }

  lemma FlowHead(w: World, kind: Kind, i: nat, j: nat, q: seq<Message>)
    requires q != []
    ensures Flow(w, kind, i, j, q) == (if Rel(w, kind, i, j, q[0]) then [q[0]] else []) + Flow(w, kind, i, j, q[1..])
  {
    FilterHead(Line(w, kind, i, j), q);
  }

  lemma FlowEmpty(w: World, kind: Kind, i: nat, j: nat, q: seq<Message>)
    requires forall m :: m in q ==> !Rel(w, kind, i, j, m)
    ensures Flow(w, kind, i, j, q) == []
  {
    FilterNone(Line(w, kind, i, j), q);
  }

  lemma FlowMembers(w: World, kind: Kind, i: nat, j: nat, q: seq<Message>, m: Message)
    ensures m in Flow(w, kind, i, j, q) <==> m in q && Rel(w, kind, i, j, m)
  {
    FilterMembers(Line(w, kind, i, j), q, m);
  }

  ghost predicate Increasing(q: seq<Message>) {
    forall a, b :: 0 <= a < b < |q| ==> q[a].tag < q[b].tag
  }

  function Without(q: seq<Message>, t: nat): seq<Message> {
    if q == [] then []
    else Without(q[..|q| - 1], t) + if q[|q| - 1].tag == t then [] else [q[|q| - 1]]
  }

  lemma {:induction false} WithoutAbsent(q: seq<Message>, t: nat)
    requires forall k :: 0 <= k < |q| ==> q[k].tag != t
    ensures Without(q, t) == q
  {
    if q == [] {
    } else {
      WithoutAbsent(q[..|q| - 1], t);
    }
  }

  lemma {:induction false} WithoutMiddle(x: seq<Message>, m: Message, y: seq<Message>)
    requires Increasing(x + [m] + y)
    ensures Without(x + [m] + y, m.tag) == x + y
  {
    var q := x + [m] + y;
    assert q[|x|] == m;
    assert forall k :: 0 <= k < |x| ==> q[k] == x[k];
    if y == [] {
      assert q[..|q| - 1] == x && x + y == x;
      WithoutAbsent(x, m.tag);
    } else {
      var y' := y[..|y| - 1];
      assert q[..|q| - 1] == x + [m] + y';
      assert q[|q| - 1] == y[|y| - 1];
      WithoutMiddle(x, m, y');
      assert x + y == x + y' + [y[|y| - 1]];
    }
  }

  // ---- what is owed -----------------------------------------------------------------

  ghost predicate Tagged(w: World, injected: seq<Injection>) {
    forall k :: 0 <= k < |injected| ==> InjectionOk(w, injected, k)
  }

  lemma {:induction false} OwedIncreasing(w: World, injected: seq<Injection>, lost: set<Loss>,
                                         kind: Kind, i: nat, j: nat)
    requires Tagged(w, injected)
    ensures var o := Owed(w, injected, lost, kind, i, j);
      && Increasing(o)
      && forall k :: 0 <= k < |o| ==>
           (o[k].tag < |injected| && injected[o[k].tag].msg == o[k] && injected[o[k].tag].at == i
            && Rel(w, kind, i, j, o[k]))
  {
    if injected == [] {
    } else {
      var n := |injected| - 1;
      assert forall k :: 0 <= k < n ==> InjectionOk(w, injected, k) ==> InjectionOk(w, injected[..n], k);
      OwedIncreasing(w, injected[..n], lost, kind, i, j);
      assert InjectionOk(w, injected, n);
    }
  }

  lemma {:induction false} OwedAfterLoss(w: World, injected: seq<Injection>, lost: set<Loss>, lost': set<Loss>,
                                         kind: Kind, i: nat, j: nat, t: nat)
    requires forall x :: Loss(x, j) in lost' <==> Loss(x, j) in lost || x == t
    ensures Owed(w, injected, lost', kind, i, j) == Without(Owed(w, injected, lost, kind, i, j), t)
  {
    if injected == [] {
    } else {
      var inj := injected[|injected| - 1];
      var before := Owed(w, injected[..|injected| - 1], lost, kind, i, j);
      OwedAfterLoss(w, injected[..|injected| - 1], lost, lost', kind, i, j, t);
      if inj.at == i && Rel(w, kind, i, j, inj.msg) && Loss(inj.msg.tag, j) !in lost {
        var all := before + [inj.msg];
        assert all[..|all| - 1] == before && all[|all| - 1] == inj.msg;
      } else {
        assert before + [] == before;
      }
    }
  }

  lemma {:induction false} OwedSame(w: World, injected: seq<Injection>, lost: set<Loss>, lost': set<Loss>,
                                    kind: Kind, i: nat, j: nat)
    requires forall k :: 0 <= k < |injected| ==>
      (Loss(injected[k].msg.tag, j) in lost' <==> Loss(injected[k].msg.tag, j) in lost)
    ensures Owed(w, injected, lost', kind, i, j) == Owed(w, injected, lost, kind, i, j)
  {
    if injected == [] {
    } else {
      OwedSame(w, injected[..|injected| - 1], lost, lost', kind, i, j);
    }
  }

  /** Losing a message that is not from host i for station j changes nothing between them. */
  lemma OwedUnrelated(w: World, injected: seq<Injection>, lost: set<Loss>, lost': set<Loss>,
                      kind: Kind, i: nat, j: nat, m: Message)
    requires Tagged(w, injected)
    requires forall x :: Loss(x, j) in lost' ==> Loss(x, j) in lost || x == m.tag
    requires forall x :: Loss(x, j) in lost ==> Loss(x, j) in lost'
    requires m.tag < |injected| && injected[m.tag].msg == m && !Rel(w, kind, i, j, m)
    ensures Owed(w, injected, lost', kind, i, j) == Owed(w, injected, lost, kind, i, j)
  {
    if Loss(m.tag, j) in lost' {
      OwedAfterLoss(w, injected, lost, lost', kind, i, j, m.tag);
      OwedIncreasing(w, injected, lost, kind, i, j);
      WithoutAbsent(Owed(w, injected, lost, kind, i, j), m.tag);
    } else {
      OwedSame(w, injected, lost, lost', kind, i, j);
    }
  }

  /** Losing the message in the middle of the pipeline takes exactly it out of what is owed. */
  lemma OwedMiddle(w: World, injected: seq<Injection>, lost: set<Loss>, lost': set<Loss>,
                   kind: Kind, i: nat, j: nat, x: seq<Message>, m: Message, y: seq<Message>)
    requires Tagged(w, injected)
    requires Owed(w, injected, lost, kind, i, j) == x + [m] + y
    requires forall t :: Loss(t, j) in lost' <==> Loss(t, j) in lost || t == m.tag
    ensures Owed(w, injected, lost', kind, i, j) == x + y
  {
    OwedAfterLoss(w, injected, lost, lost', kind, i, j, m.tag);
    OwedIncreasing(w, injected, lost, kind, i, j);
    WithoutMiddle(x, m, y);
  }

  /** One more injection. */
  lemma OwedSnoc(w: World, injected: seq<Injection>, inj: Injection, lost: set<Loss>, lost': set<Loss>,
                 kind: Kind, i: nat, j: nat)
    requires Tagged(w, injected) && inj.msg.tag == |injected|
    requires forall x :: Loss(x, j) in lost' ==> Loss(x, j) in lost || x == |injected|
    requires lost <= lost'
    ensures Owed(w, injected + [inj], lost', kind, i, j) == Owed(w, injected, lost, kind, i, j)
      + if inj.at == i && Rel(w, kind, i, j, inj.msg) && Loss(inj.msg.tag, j) !in lost' then [inj.msg] else []
  {
    assert (injected + [inj])[..|injected|] == injected;
    forall k | 0 <= k < |injected|
      ensures Loss(injected[k].msg.tag, j) in lost' <==> Loss(injected[k].msg.tag, j) in lost
    {
      assert InjectionOk(w, injected, k);
    }
    OwedSame(w, injected, lost, lost', kind, i, j);
  }

  // ---- one message passing one point ----------------------------------------------------

  /** For station j, either nothing was lost, or only `m` was, and then `m` did not stay. */
  ghost predicate LossStep(w: World, lost: set<Loss>, lost': set<Loss>, j: nat, m: Message, stays: bool) {
    && (forall t :: Loss(t, j) in lost ==> Loss(t, j) in lost')
    && (forall t :: Loss(t, j) in lost' ==> Loss(t, j) in lost || (t == m.tag && Followed(m) && !stays))
    && (Followed(m) && !stays && j < |w.ids| && Addressed(w, j, m) ==> Loss(m.tag, j) in lost')
  }

  /** A followed message is the one injected under its tag. */
  ghost predicate Genuine(injected: seq<Injection>, m: Message) {
    Followed(m) ==> m.tag < |injected| && injected[m.tag].msg == m
  }

  function IfRel(w: World, kind: Kind, i: nat, j: nat, m: Message): seq<Message> {
    if Rel(w, kind, i, j, m) then [m] else []
  }

  /** A message inside the pipeline moves on, or is recorded as lost: the books stay balanced. */
  lemma PassOne(w: World, injected: seq<Injection>, lost: set<Loss>, lost': set<Loss>,
                kind: Kind, i: nat, j: nat, x: seq<Message>, m: Message, y: seq<Message>, stays: bool)
    requires Tagged(w, injected) && Genuine(injected, m) && LossStep(w, lost, lost', j, m, stays)
    requires x + IfRel(w, kind, i, j, m) + y == Owed(w, injected, lost, kind, i, j)
    ensures x + (if stays then IfRel(w, kind, i, j, m) else []) + y == Owed(w, injected, lost', kind, i, j)
  {
    var rel := Rel(w, kind, i, j, m);
    if !Followed(m) || stays {
      OwedSame(w, injected, lost, lost', kind, i, j);
      assert !Followed(m) ==> !rel;
    } else if rel {
      OwedMiddle(w, injected, lost, lost', kind, i, j, x, m, y);
      assert x + [] + y == x + y;
    } else {
      OwedUnrelated(w, injected, lost, lost', kind, i, j, m);
    }
  }

  /** The head of one stage moves to the end of the stage before it, or is lost. */
  lemma Shift(w: World, injected: seq<Injection>, lost: set<Loss>, lost': set<Loss>, kind: Kind, i: nat, j: nat,
              e: seq<Message>, q: seq<Message>, b: seq<Message>, m: Message, stays: bool,
              e': seq<Message>, q': seq<Message>)
    requires Tagged(w, injected) && Genuine(injected, m) && LossStep(w, lost, lost', j, m, stays)
    requires e + q + b == Owed(w, injected, lost, kind, i, j)
    requires q == IfRel(w, kind, i, j, m) + q'
    requires e' == if stays then e + IfRel(w, kind, i, j, m) else e
    ensures e' + q' + b == Owed(w, injected, lost', kind, i, j)
  {
    var r := IfRel(w, kind, i, j, m);
    assert e + r + (q' + b) == e + (r + q') + b;
    PassOne(w, injected, lost, lost', kind, i, j, e, m, q' + b, stays);
    assert e' + q' + b == e + (if stays then r else []) + (q' + b);
  }

  /** The same between the last two stages. */
  lemma ShiftLast(w: World, injected: seq<Injection>, lost: set<Loss>, lost': set<Loss>, kind: Kind, i: nat, j: nat,
                  e: seq<Message>, q: seq<Message>, b: seq<Message>, m: Message, stays: bool,
                  q': seq<Message>, b': seq<Message>)
    requires Tagged(w, injected) && Genuine(injected, m) && LossStep(w, lost, lost', j, m, stays)
    requires e + q + b == Owed(w, injected, lost, kind, i, j)
    requires b == IfRel(w, kind, i, j, m) + b'
    requires q' == if stays then q + IfRel(w, kind, i, j, m) else q
    ensures e + q' + b' == Owed(w, injected, lost', kind, i, j)
  {
    assert e + q + b + [] == e + q + b;
    assert e + q' == if stays then e + q + IfRel(w, kind, i, j, m) else e + q;
    Shift(w, injected, lost, lost', kind, i, j, e + q, b, [], m, stays, e + q', b');
    assert e + q' + b' + [] == e + q' + b';
  }

  /** The same inside the first stage, which is a queue and what has left it. */
  lemma ShiftFirst(w: World, injected: seq<Injection>, lost: set<Loss>, lost': set<Loss>, kind: Kind, i: nat, j: nat,
                   h: seq<Message>, t: seq<Message>, q: seq<Message>, b: seq<Message>, m: Message, stays: bool,
                   h': seq<Message>, t': seq<Message>)
    requires Tagged(w, injected) && Genuine(injected, m) && LossStep(w, lost, lost', j, m, stays)
    requires (h + t) + q + b == Owed(w, injected, lost, kind, i, j)
    requires t == IfRel(w, kind, i, j, m) + t'
    requires h' == if stays then h + IfRel(w, kind, i, j, m) else h
    ensures (h' + t') + q + b == Owed(w, injected, lost', kind, i, j)
  {
    assert (h + t) + q + b == h + t + (q + b);
    Shift(w, injected, lost, lost', kind, i, j, h, t, q + b, m, stays, h', t');
    assert (h' + t') + q + b == h' + t' + (q + b);
  }
}
