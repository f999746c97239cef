/**
  The keeper's observable effects. Each contract call (`.transact()`) and each
  sleep is one `Action`; a run of the keeper is the sequence of actions it
  issues, in order.
*/
module Trace {
  import opened Dss

  datatype Action =
    | Drip(ilk: string)                // Jug.drip(ilk)
    | YankFlap(id: nat)                // Flapper.yank(id)
    | YankFlop(id: nat)                // Flopper.yank(id)
    | Cage(ilk: string)                // End.cage(ilk)
    | Skip(ilk: string, id: nat)       // End.skip(ilk, id)
    | Skim(ilk: string, urn: Address)  // End.skim(ilk, urn)
    | Sleep(seconds: nat)              // time.sleep(seconds)
    | Heal(rad: nat)                   // Vow.heal(rad)
    | Thaw                             // End.thaw()
    | Flow(ilk: string)                // End.flow(ilk)

  /** The step of `facilitate_cage` that issues an action of this kind. */
  function Phase(a: Action): nat {
    match a
    case Drip(_) => 0
    case YankFlap(_) => 1
    case YankFlop(_) => 2
    case Cage(_) => 3
    case Skip(_, _) => 4
    case Skim(_, _) => 5
    case Sleep(_) => 6
    case Heal(_) => 7
    case Thaw => 8
    case Flow(_) => 9
  }

  /** One action per element, in order: what a `for x in xs: call(x)` loop issues. */
  function Each<T>(xs: seq<T>, f: T -> Action): (r: seq<Action>)
    ensures |r| == |xs|
    ensures forall i :: 0 <= i < |xs| ==> r[i] == f(xs[i])
  {
    if xs == [] then [] else Each(xs[..|xs| - 1], f) + [f(xs[|xs| - 1])]
  }

  lemma {:induction false} EachStep<T>(xs: seq<T>, i: nat, f: T -> Action)
    requires i < |xs|
    ensures Each(xs[..i + 1], f) == Each(xs[..i], f) + [f(xs[i])]
  {
    assert xs[..i + 1][..i] == xs[..i];
  }

  /** How many times `a` occurs in `s`. */
  function Count(s: seq<Action>, a: Action): nat {
    multiset(s)[a]
  }

  lemma {:induction false} CountAppend(s: seq<Action>, t: seq<Action>, a: Action)
    ensures Count(s + t, a) == Count(s, a) + Count(t, a)
  {
    assert multiset(s + t) == multiset(s) + multiset(t);
  }

  lemma {:induction false} DistinctCount(s: seq<Action>, a: Action)
    requires Distinct(s)
    ensures Count(s, a) == if a in s then 1 else 0
  {
    if s != [] {
      var p, last := s[..|s| - 1], s[|s| - 1];
      assert s == p + [last];
      assert Distinct(p);
      DistinctCount(p, a);
      if a == last {
        assert a !in p by {
          forall k | 0 <= k < |p| ensures p[k] != a {
            assert s[k] == p[k];
          }
        }
      }
    }
  }

  /** `Each` issues `a` exactly when some element maps to it. */
  lemma {:induction false} EachMember<T>(xs: seq<T>, f: T -> Action, a: Action)
    ensures a in Each(xs, f) <==> exists i :: 0 <= i < |xs| && f(xs[i]) == a
  {
    var r := Each(xs, f);
    if a in r {
      var k :| 0 <= k < |r| && r[k] == a;
      assert f(xs[k]) == a;
    }
    if exists i :: 0 <= i < |xs| && f(xs[i]) == a {
      var i :| 0 <= i < |xs| && f(xs[i]) == a;
      assert r[i] == a;
    }
  }

  /** Every action of `s` belongs to step `p`. */
  predicate InPhase(s: seq<Action>, p: nat) {
    forall i :: 0 <= i < |s| ==> Phase(s[i]) == p
  }

  /** Every action of `s` belongs to a step before `p`. */
  predicate Before(s: seq<Action>, p: nat) {
    forall i :: 0 <= i < |s| ==> Phase(s[i]) < p
  }

  /** Actions are issued step by step: no action of a later step precedes one of an earlier step. */
  predicate Ordered(s: seq<Action>) {
    forall i, j :: 0 <= i < j < |s| ==> Phase(s[i]) <= Phase(s[j])
  }

  lemma {:induction false} EachInPhase<T>(xs: seq<T>, f: T -> Action, p: nat)
    requires forall x :: Phase(f(x)) == p
    ensures InPhase(Each(xs, f), p)
  {
  }

  lemma {:induction false} AbsentOutsidePhase(s: seq<Action>, p: nat, a: Action)
    requires InPhase(s, p) && Phase(a) != p
    ensures Count(s, a) == 0
  {
    forall k | 0 <= k < |s| ensures s[k] != a {
      assert Phase(s[k]) == p;
    }
  }

  lemma {:induction false} AbsentBefore(s: seq<Action>, p: nat, a: Action)
    requires Before(s, p) && Phase(a) >= p
    ensures Count(s, a) == 0
  {
    forall k | 0 <= k < |s| ensures s[k] != a {
      assert Phase(s[k]) < p;
    }
  }

  lemma {:induction false} OrderedAppend(s: seq<Action>, t: seq<Action>, p: nat)
    requires Ordered(s) && Before(s, p) && InPhase(t, p)
    ensures Ordered(s + t) && Before(s + t, p + 1)
  {
    forall i, j | 0 <= i < j < |s + t| ensures Phase((s + t)[i]) <= Phase((s + t)[j]) {
      if j < |s| {
        assert (s + t)[i] == s[i] && (s + t)[j] == s[j];
      } else if i < |s| {
        assert (s + t)[i] == s[i] && (s + t)[j] == t[j - |s|];
      } else {
        assert (s + t)[i] == t[i - |s|] && (s + t)[j] == t[j - |s|];
      }
    }
    forall i | 0 <= i < |s + t| ensures Phase((s + t)[i]) < p + 1 {
      if i < |s| {
        assert (s + t)[i] == s[i];
      } else {
        assert (s + t)[i] == t[i - |s|];
      }
    }
  }

  /** The actions of several steps, one step after the other. */
  function Flatten(steps: seq<seq<Action>>): seq<Action> {
    if steps == [] then [] else Flatten(steps[..|steps| - 1]) + steps[|steps| - 1]
  }

  lemma {:induction false} FlattenStep(steps: seq<seq<Action>>, k: nat)
    requires k < |steps|
    ensures Flatten(steps[..k + 1]) == Flatten(steps[..k]) + steps[k]
  {
    assert steps[..k + 1][..k] == steps[..k];
  }

  /** Ten steps, flattened, are the ten steps one after the other. */
  lemma {:induction false} FlattenTen(steps: seq<seq<Action>>)
    requires |steps| == 10
    ensures Flatten(steps) == steps[0] + steps[1] + steps[2] + steps[3] + steps[4] +
                              steps[5] + steps[6] + steps[7] + steps[8] + steps[9]
  {
    assert Flatten(steps[..1]) == steps[0] by {
      FlattenStep(steps, 0);
      assert steps[..0] == [];
    }
    FlattenStep(steps, 1);
    FlattenStep(steps, 2);
    FlattenStep(steps, 3);
    FlattenStep(steps, 4);
    FlattenStep(steps, 5);
    FlattenStep(steps, 6);
    FlattenStep(steps, 7);
    FlattenStep(steps, 8);
    FlattenStep(steps, 9);
    assert steps[..10] == steps;
  }

  lemma {:induction false} AppendAssoc(s: seq<Action>, t: seq<Action>, u: seq<Action>)
    ensures s + t + u == s + (t + u)
  {
  }

  /** Issuing ten steps after `t` extends `t` by their concatenation. */
  lemma {:induction false} AppendTen(t: seq<Action>, s0: seq<Action>, s1: seq<Action>, s2: seq<Action>,
                                     s3: seq<Action>, s4: seq<Action>, s5: seq<Action>, s6: seq<Action>,
                                     s7: seq<Action>, s8: seq<Action>, s9: seq<Action>)
    ensures t + s0 + s1 + s2 + s3 + s4 + s5 + s6 + s7 + s8 + s9 ==
            t + (s0 + s1 + s2 + s3 + s4 + s5 + s6 + s7 + s8 + s9)
  {
  }

  /** Every action of the first steps precedes the step that follows them. */
  lemma {:induction false} FlattenBefore(steps: seq<seq<Action>>)
    requires forall k :: 0 <= k < |steps| ==> InPhase(steps[k], k)
    ensures Before(Flatten(steps), |steps|)
  {
    if steps != [] {
      var n := |steps| - 1;
      var init := steps[..n];
      assert forall k :: 0 <= k < |init| ==> InPhase(init[k], k) by {
        forall k | 0 <= k < |init| ensures InPhase(init[k], k) {
          assert init[k] == steps[k];
        }
      }
      FlattenBefore(init);
      var prev, last := Flatten(init), steps[n];
      assert InPhase(last, n);
      forall i | 0 <= i < |prev + last| ensures Phase((prev + last)[i]) < n + 1 {
        if i < |prev| {
          assert (prev + last)[i] == prev[i];
        } else {
          assert (prev + last)[i] == last[i - |prev|];
        }
      }
    }
  }

  /** When step `k` issues only actions of kind `k`, the steps are issued in order. */
  lemma {:induction false} FlattenOrdered(steps: seq<seq<Action>>)
    requires forall k :: 0 <= k < |steps| ==> InPhase(steps[k], k)
    ensures Ordered(Flatten(steps)) && Before(Flatten(steps), |steps|)
  {
    if steps != [] {
      var n := |steps| - 1;
      var init := steps[..n];
      assert forall k :: 0 <= k < |init| ==> InPhase(init[k], k) by {
        forall k | 0 <= k < |init| ensures InPhase(init[k], k) {
          assert init[k] == steps[k];
        }
      }
      FlattenOrdered(init);
      OrderedAppend(Flatten(init), steps[n], n);
    }
  }

  /** When step `k` issues only actions of kind `k`, each action occurs as
      often as in the step of its kind. */
  lemma {:induction false} FlattenCount(steps: seq<seq<Action>>, a: Action)
    requires forall k :: 0 <= k < |steps| ==> InPhase(steps[k], k)
    ensures Count(Flatten(steps), a) == if Phase(a) < |steps| then Count(steps[Phase(a)], a) else 0
  {
    if steps != [] {
      var n := |steps| - 1;
      var init := steps[..n];
      assert forall k :: 0 <= k < |init| ==> InPhase(init[k], k) by {
        forall k | 0 <= k < |init| ensures InPhase(init[k], k) {
          assert init[k] == steps[k];
        }
      }
      FlattenCount(init, a);
      var prev, last := Flatten(init), steps[n];
      CountAppend(prev, last, a);
      var ph := Phase(a);
      if ph < n {
        assert InPhase(last, n);
        AbsentOutsidePhase(last, n, a);
        assert init[ph] == steps[ph];
      } else {
        FlattenBefore(init);
        AbsentBefore(prev, n, a);
        if ph > n {
          assert InPhase(last, n);
          AbsentOutsidePhase(last, n, a);
        }
      }
    }
  }

  // The contract call each keeper loop issues for one element.

  function DripOf(ilk: Ilk): Action { Drip(ilk.name) }
  function CageOf(ilk: Ilk): Action { Cage(ilk.name) }
  function FlowOf(ilk: Ilk): Action { Flow(ilk.name) }
  function SkimOf(u: Urn): Action { Skim(u.ilk.name, u.address) }
}
