/** Filtered sequences and subsequences. */
module Sequences {
  function Filter<T>(p: T -> bool, q: seq<T>): seq<T> {
    if q == [] then []
    else Filter(p, q[..|q| - 1]) + if p(q[|q| - 1]) then [q[|q| - 1]] else []
  }

  lemma {:induction false} FilterAppend<T>(p: T -> bool, a: seq<T>, b: seq<T>)
    ensures Filter(p, a + b) == Filter(p, a) + Filter(p, b)
  {
    if b == [] {
      assert a + b == a;
    } else {
      assert (a + b)[..|a + b| - 1] == a + b[..|b| - 1];
      FilterAppend(p, a, b[..|b| - 1]);
    }
  }

  lemma FilterOne<T>(p: T -> bool, x: T)
    ensures Filter(p, [x]) == if p(x) then [x] else []
  {
    assert [x][..0] == [];
  }

  lemma FilterSnoc<T>(p: T -> bool, q: seq<T>, x: T)
    ensures Filter(p, q + [x]) == Filter(p, q) + if p(x) then [x] else []
  {
    FilterAppend(p, q, [x]);
    FilterOne(p, x);
  }

  lemma FilterHead<T>(p: T -> bool, q: seq<T>)
    requires q != []
    ensures Filter(p, q) == (if p(q[0]) then [q[0]] else []) + Filter(p, q[1..])
  {
    assert q == [q[0]] + q[1..];
    FilterAppend(p, [q[0]], q[1..]);
    FilterOne(p, q[0]);
  }

  lemma {:induction false} FilterNone<T>(p: T -> bool, q: seq<T>)
    requires forall x :: x in q ==> !p(x)
    ensures Filter(p, q) == []
  {
    if q == [] {
    } else {
      FilterNone(p, q[..|q| - 1]);
    }
  }

  lemma {:induction false} FilterMembers<T>(p: T -> bool, q: seq<T>, x: T)
    ensures x in Filter(p, q) <==> x in q && p(x)
  {
    if q == [] {
    } else {
      FilterMembers(p, q[..|q| - 1], x);
      assert q == q[..|q| - 1] + [q[|q| - 1]];
    }
  }

  lemma {:induction false} FilterSame<T>(p: T -> bool, p': T -> bool, q: seq<T>)
    requires forall x :: x in q ==> p(x) == p'(x)
    ensures Filter(p, q) == Filter(p', q)
  {
    if q == [] {
    } else {
      FilterSame(p, p', q[..|q| - 1]);
    }
  }

  /** Where a filter keeps one element, it is somewhere. */
  lemma {:induction false} FilterFinds<T>(p: T -> bool, q: seq<T>) returns (x: nat)
    requires Filter(p, q) != []
    ensures x < |q| && p(q[x])
  {
    if p(q[|q| - 1]) {
      x := |q| - 1;
    } else {
      x := FilterFinds(p, q[..|q| - 1]);
    }
  }

  lemma {:induction false} FilterFindsTwo<T>(p: T -> bool, q: seq<T>) returns (x: nat, y: nat)
    requires |Filter(p, q)| >= 2
    ensures x < y < |q| && p(q[x]) && p(q[y])
  {
    if p(q[|q| - 1]) {
      x := FilterFinds(p, q[..|q| - 1]);
      y := |q| - 1;
    } else {
      x, y := FilterFindsTwo(p, q[..|q| - 1]);
    }
  }

  ghost predicate Subsequence<T(!new)>(a: seq<T>, b: seq<T>) {
    a == [] || (b != [] &&
      (Subsequence(a, b[..|b| - 1]) || (a[|a| - 1] == b[|b| - 1] && Subsequence(a[..|a| - 1], b[..|b| - 1]))))
  }

  lemma SubsequenceSnoc<T(!new)>(a: seq<T>, b: seq<T>, x: T)
    requires Subsequence(a, b)
    ensures Subsequence(a, b + [x]) && Subsequence(a + [x], b + [x])
  {
    assert (b + [x])[..|b|] == b && (a + [x])[..|a|] == a;
  }

  lemma {:induction false} SubsequenceInit<T(!new)>(a: seq<T>, x: T, b: seq<T>)
    requires Subsequence(a + [x], b)
    ensures Subsequence(a, b)
  {
    var init := b[..|b| - 1];
    assert (a + [x])[..|a|] == a;
    if Subsequence(a + [x], init) {
      SubsequenceInit(a, x, init);
    }
  }

  lemma {:induction false} SubsequencePrefix<T(!new)>(a: seq<T>, all: seq<T>, b: seq<T>)
    requires a <= all && Subsequence(all, b)
    ensures Subsequence(a, b)
  {
    if |all| == |a| {
      assert all == a;
    } else {
      var init := all[..|all| - 1];
      assert all == init + [all[|all| - 1]];
      SubsequenceInit(init, all[|all| - 1], b);
      SubsequencePrefix(a, init, b);
    }
  }

  /** One element less. */
  lemma {:induction false} SubsequenceDrop<T(!new)>(a: seq<T>, x: T, c: seq<T>, b: seq<T>)
    requires Subsequence(a + [x] + c, b)
    ensures Subsequence(a + c, b)
  {
    if c == [] {
      assert a + [x] + c == a + [x] && a + c == a;
      SubsequenceInit(a, x, b);
    } else {
      var init, c', last := b[..|b| - 1], c[..|c| - 1], c[|c| - 1];
      assert (a + [x] + c)[..|a + [x] + c| - 1] == a + [x] + c';
      assert (a + c)[..|a + c| - 1] == a + c';
      if Subsequence(a + [x] + c, init) {
        SubsequenceDrop(a, x, c, init);
      } else {
        SubsequenceDrop(a, x, c', init);
      }
    }
  }

  lemma {:induction false} SubsequenceMembers<T(!new)>(a: seq<T>, b: seq<T>)
    requires Subsequence(a, b)
    ensures forall x :: x in a ==> x in b
  {
    if a == [] {
    } else {
      var init := b[..|b| - 1];
      if Subsequence(a, init) {
        SubsequenceMembers(a, init);
      } else {
        SubsequenceMembers(a[..|a| - 1], init);
        assert a == a[..|a| - 1] + [a[|a| - 1]];
      }
    }
  }

  ghost predicate Pairwise<T(!new)>(r: (T, T) -> bool, q: seq<T>) {
    forall x, y :: 0 <= x < y < |q| ==> r(q[x], q[y])
  }

  /** What holds of every two elements in order holds of every two elements of a subsequence. */
  lemma {:induction false} SubsequencePairwise<T(!new)>(r: (T, T) -> bool, a: seq<T>, b: seq<T>)
    requires Subsequence(a, b) && Pairwise(r, b)
    ensures Pairwise(r, a)
  {
    if a == [] {
    } else {
      var init := b[..|b| - 1];
      if Subsequence(a, init) {
        SubsequencePairwise(r, a, init);
      } else {
        var a' := a[..|a| - 1];
        SubsequencePairwise(r, a', init);
        SubsequenceMembers(a', init);
        forall x | 0 <= x < |a'| ensures r(a[x], a[|a| - 1]) {
          assert a'[x] in init;
        }
      }
    }
  }

  // ---- sums -----------------------------------------------------------------------------------

  function Sum(q: seq<nat>): nat {
    if q == [] then 0 else Sum(q[..|q| - 1]) + q[|q| - 1]
  }

  lemma {:induction false} SumPoint(a: seq<nat>, b: seq<nat>, i: nat)
    requires i < |a| == |b| && forall k :: 0 <= k < |a| && k != i ==> b[k] == a[k]
    ensures Sum(b) + a[i] == Sum(a) + b[i]
  {
    var n := |a| - 1;
    if i < n {
      SumPoint(a[..n], b[..n], i);
    } else {
      assert a[..n] == b[..n];
    }
  }

  lemma {:induction false} SumMember(q: seq<nat>, k: nat)
    requires k < |q|
    ensures q[k] <= Sum(q)
  {
    if k == |q| - 1 {
    } else {
      SumMember(q[..|q| - 1], k);
    }
  }

  lemma {:induction false} SumSlack(a: seq<nat>, b: seq<nat>, c: nat)
    requires |a| == |b| && forall k :: 0 <= k < |a| ==> b[k] <= a[k] + c
    ensures Sum(b) <= Sum(a) + |a| * c
  {
    if a == [] {
    } else {
      var n := |a| - 1;
      SumSlack(a[..n], b[..n], c);
      assert |a| * c == n * c + c;
    }
  }

  lemma {:induction false} SumZero(q: seq<nat>)
    requires forall k :: 0 <= k < |q| ==> q[k] == 0
    ensures Sum(q) == 0
  {
    if q == [] {
    } else {
      SumZero(q[..|q| - 1]);
    }
  }

  lemma {:induction false} SumOnes(q: seq<nat>)
    requires q != [] && q[0] == 0 && forall k :: 0 < k < |q| ==> q[k] == 1
    ensures Sum(q) == |q| - 1
  {
    if |q| == 1 {
      assert q[..0] == [];
    } else {
      SumOnes(q[..|q| - 1]);
    }
  }

  /** Bits set only at members of a set sum up to its size at most. */
  lemma {:induction false} SumBits(q: seq<nat>, a: set<nat>)
    requires forall k :: 0 <= k < |q| ==> q[k] <= 1 && (q[k] == 1 ==> k in a)
    ensures Sum(q) <= |a|
  {
    if q == [] {
    } else {
      var n := |q| - 1;
      if q[n] == 1 {
        SumBits(q[..n], a - {n});
      } else {
        SumBits(q[..n], a);
      }
    }
  }
}
