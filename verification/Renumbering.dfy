/** Deleting by number from a list that renumbers itself after every delete
    (internal/openport/openport.go, internal/resetvm/resetvm.go, internal/destroy/destroy.go). */
module Renumbering {
  import opened Allowlist

  /** `delete n`: the entries after the n-th move up. Numbers start at one. */
  function DeleteAt<T>(s: seq<T>, n: nat): seq<T>
    requires 1 <= n <= |s|
  {
    s[..n - 1] + s[n..]
  }

  /** The entries whose original number is not in `gone`. */
  function Without<T>(s: seq<T>, gone: set<nat>): seq<T> {
    if s == [] then []
    else Without(s[..|s| - 1], gone) + if |s| in gone then [] else [s[|s| - 1]]
  }

  /** Deleting an entry before all those already gone still hits the entry that
      had the number at the start. */
  lemma {:induction false} DeleteNext<T>(s: seq<T>, gone: set<nat>, n: nat)
    requires 1 <= n <= |s| && forall m | m in gone :: m > n
    ensures n <= |Without(s, gone)|
    ensures DeleteAt(Without(s, gone), n) == Without(s, gone + {n})
  {
    var front, last := s[..|s| - 1], [s[|s| - 1]];
    if n == |s| {
      WithoutLater(front, gone);
      WithoutLater(front, gone + {n});
    } else {
      DeleteNext(front, gone, n);
      assert |s| in gone + {n} <==> |s| in gone;
      var w := Without(front, gone);
      assert DeleteAt(w + last, n) == DeleteAt(w, n) + last;
    }
  }

  lemma {:induction false} WithoutLater<T>(s: seq<T>, gone: set<nat>)
    requires forall m | m in gone :: m > |s|
    ensures Without(s, gone) == s
  {
    if s == [] {
    } else {
      WithoutLater(s[..|s| - 1], gone);
    }
  }

  /** Only the numbers up to the length matter. */
  lemma {:induction false} WithoutSame<T>(s: seq<T>, a: set<nat>, b: set<nat>)
    requires forall n | 1 <= n <= |s| :: n in a <==> n in b
    ensures Without(s, a) == Without(s, b)
  {
    if s == [] {
    } else {
      WithoutSame(s[..|s| - 1], a, b);
    }
  }

  function Elems(ns: seq<nat>): set<nat> { set n | n in ns }

  lemma ElemsAppend(a: seq<nat>, b: seq<nat>)
    ensures Elems(a + b) == Elems(a) + Elems(b)
  {
    assert forall n :: n in a + b <==> n in a || n in b;
  }

  lemma ElemsStep(ns: seq<nat>, i: nat)
    requires i < |ns|
    ensures Elems(ns[..i + 1]) == Elems(ns[..i]) + {ns[i]}
  {
    assert ns[..i + 1] == ns[..i] + [ns[i]];
  }

  predicate StrictlyDescending(ns: seq<nat>) { forall i, j | 0 <= i < j < |ns| :: ns[i] > ns[j] }

  predicate Within(ns: seq<nat>, len: nat) { forall i | 0 <= i < |ns| :: 1 <= ns[i] <= len }

  /** The next number of a descending plan deletes the entry it was planned for. */
  lemma {:induction false} DeletePlanned<T>(s: seq<T>, plan: seq<nat>, done: nat)
    requires StrictlyDescending(plan) && Within(plan, |s|) && done < |plan|
    ensures plan[done] <= |Without(s, Elems(plan[..done]))|
    ensures DeleteAt(Without(s, Elems(plan[..done])), plan[done]) == Without(s, Elems(plan[..done + 1]))
  {
    forall m | m in Elems(plan[..done])
      ensures m > plan[done]
    {
      var i :| 0 <= i < done && plan[..done][i] == m;
    }
    DeleteNext(s, Elems(plan[..done]), plan[done]);
    ElemsStep(plan, done);
  }

  // ---------- plans ----------

  /** The numbers of the flagged entries, ascending. */
  function Numbers(flags: seq<bool>): seq<nat> {
    if flags == [] then []
    else Numbers(flags[..|flags| - 1]) + if flags[|flags| - 1] then [|flags|] else []
  }

  /** The entries that are not flagged. */
  function Unflagged<T>(s: seq<T>, flags: seq<bool>): seq<T>
    requires |s| == |flags|
  {
    if s == [] then []
    else
      Unflagged(s[..|s| - 1], flags[..|s| - 1]) + if flags[|s| - 1] then [] else [s[|s| - 1]]
  }

  lemma {:induction false} InsertLeast(s: seq<nat>, x: nat)
    requires forall i | 0 <= i < |s| :: x < s[i]
    ensures InsertDescending(s, x) == s + [x]
  {
    if s == [] {
    } else {
      InsertLeast(s[1..], x);
    }
  }

  lemma {:induction false} SortAscending(ns: seq<nat>)
    requires forall i, j | 0 <= i < j < |ns| :: ns[i] < ns[j]
    ensures StrictlyDescending(SortDescending(ns)) && Elems(SortDescending(ns)) == Elems(ns)
    ensures |SortDescending(ns)| == |ns|
  {
    if ns == [] {
    } else {
      var rest := SortDescending(ns[1..]);
      SortAscending(ns[1..]);
      forall i | 0 <= i < |rest|
        ensures ns[0] < rest[i]
      {
        assert rest[i] in Elems(ns[1..]);
      }
      InsertLeast(rest, ns[0]);
      calc {
        Elems(ns);
        { assert ns == [ns[0]] + ns[1..]; ElemsAppend([ns[0]], ns[1..]); }
        Elems([ns[0]]) + Elems(ns[1..]);
        { ElemsAppend(rest, [ns[0]]); }
        Elems(rest + [ns[0]]);
      }
    }
  }

  lemma {:induction false} NumbersAscend(flags: seq<bool>)
    ensures forall i, j | 0 <= i < j < |Numbers(flags)| :: Numbers(flags)[i] < Numbers(flags)[j]
    ensures Within(Numbers(flags), |flags|)
    ensures forall n | 1 <= n <= |flags| :: n in Numbers(flags) <==> flags[n - 1]
  {
    if flags == [] {
    } else {
      var front := flags[..|flags| - 1];
      NumbersAscend(front);
      AscendOne(Numbers(front), |front|, if flags[|front|] then [|flags|] else []);
      NumbersOfFront(flags);
    }
  }

  lemma AscendOne(ns: seq<nat>, len: nat, more: seq<nat>)
    requires (forall i, j | 0 <= i < j < |ns| :: ns[i] < ns[j]) && Within(ns, len) && more in {[], [len + 1]}
    ensures forall i, j | 0 <= i < j < |ns + more| :: (ns + more)[i] < (ns + more)[j]
    ensures Within(ns + more, len + 1)
  {}

  lemma NumbersOfFront(flags: seq<bool>)
    requires flags != []
    requires var front := flags[..|flags| - 1];
             Within(Numbers(front), |front|) && forall n | 1 <= n <= |front| :: n in Numbers(front) <==> front[n - 1]
    ensures forall n | 1 <= n <= |flags| :: n in Numbers(flags) <==> flags[n - 1]
  {
    var front := flags[..|flags| - 1];
    var a, b := Numbers(front), if flags[|front|] then [|flags|] else [];
    forall n | 1 <= n <= |flags|
      ensures n in Numbers(flags) <==> flags[n - 1]
    {
      assert n in a + b <==> n in a || n in b;
      if n < |flags| {
        assert flags[n - 1] == front[n - 1];
      } else {
        assert n !in a;
      }
    }
  }

  /** A plan sorted the way the agent sorts it can be carried out one by one. */
  lemma {:induction false} PlanIsDescending(flags: seq<bool>)
    ensures var plan := SortDescending(Numbers(flags));
            StrictlyDescending(plan) && Within(plan, |flags|) && Elems(plan) == Elems(Numbers(flags))
  {
    NumbersAscend(flags);
    SortAscending(Numbers(flags));
    var plan := SortDescending(Numbers(flags));
    forall i | 0 <= i < |plan|
      ensures 1 <= plan[i] <= |flags|
    {
      assert plan[i] in Elems(Numbers(flags));
    }
  }

  lemma {:induction false} WithoutPlan<T>(s: seq<T>, flags: seq<bool>)
    requires |s| == |flags|
    ensures Without(s, Elems(Numbers(flags))) == Unflagged(s, flags)
  {
    if s == [] {
    } else {
      var front := flags[..|s| - 1];
      WithoutPlan(s[..|s| - 1], front);
      NumbersAscend(flags);
      NumbersAscend(front);
      WithoutSame(s[..|s| - 1], Elems(Numbers(flags)), Elems(Numbers(front)));
    }
  }

  /** However few of a plan's deletes were done, the entries outside the plan are
      all still there, in order. */
  lemma {:induction false} WithoutKeeps<T>(s: seq<T>, gone: set<nat>, keep: T -> bool)
    requires forall n | n in gone && 1 <= n <= |s| :: !keep(s[n - 1])
    ensures Filter(Without(s, gone), keep) == Filter(s, keep)
  {
    if s == [] {
    } else {
      var front := s[..|s| - 1];
      assert forall n | n in gone && 1 <= n <= |front| :: !keep(front[n - 1]);
      WithoutKeeps(front, gone, keep);
      FilterAppend(Without(front, gone), if |s| in gone then [] else [s[|s| - 1]], keep);
      FilterOne(s[|s| - 1], keep);
      assert Filter([], keep) == [];
    }
  }

  function Filter<T>(s: seq<T>, keep: T -> bool): seq<T> {
    if s == [] then []
    else Filter(s[..|s| - 1], keep) + if keep(s[|s| - 1]) then [s[|s| - 1]] else []
  }

  lemma {:induction false} FilterOne<T>(x: T, keep: T -> bool)
    ensures Filter([x], keep) == if keep(x) then [x] else []
  {
    assert [x][..0] == [];
  }

  lemma {:induction false} FilterAppend<T>(a: seq<T>, b: seq<T>, keep: T -> bool)
    ensures Filter(a + b, keep) == Filter(a, keep) + Filter(b, keep)
  {
    if b == [] {
      assert a + b == a;
    } else {
      assert (a + b)[..|a + b| - 1] == a + b[..|b| - 1];
      FilterAppend(a, b[..|b| - 1], keep);
    }
  }
}
