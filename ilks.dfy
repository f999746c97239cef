/**
  Which collateral types the keeper works on: `get_ilks` (the ilks that have
  ever been frobbed) and `check_ilks` (the deployment's ilks, with a warning
  when the two disagree).
*/
module Ilks {
  import opened Dss

  /** The position of the first occurrence of `x` in `s`. */
  function FirstIndex(s: seq<string>, x: string): (k: nat)
    requires x in s
    ensures k < |s| && s[k] == x && x !in s[..k]
  {
    if s[0] == x then 0
    else
      assert x in s[1..];
      var k := 1 + FirstIndex(s[1..], x);
      assert s[..k] == [s[0]] + s[1..][..k - 1];
      k
  }

  lemma {:induction false} FirstIndexUnique(s: seq<string>, x: string, k: nat)
    requires k < |s| && s[k] == x && x !in s[..k]
    ensures FirstIndex(s, x) == k
  {
  }

  /** Appending an element does not move the first occurrence of anything already present. */
  lemma {:induction false} FirstIndexAppend(p: seq<string>, x: string, y: string)
    requires y in p
    ensures FirstIndex(p + [x], y) == FirstIndex(p, y)
  {
    var k := FirstIndex(p, y);
    assert (p + [x])[..k] == p[..k];
    FirstIndexUnique(p + [x], y, k);
  }

  /** `list(dict.fromkeys(names))`: each name once, kept where it first occurs. */
  function Dedup(names: seq<string>): seq<string> {
    if names == [] then []
    else
      var seen := Dedup(names[..|names| - 1]);
      var x := names[|names| - 1];
      if x in seen then seen else seen + [x]
  }

  lemma {:induction false} DedupSpec(names: seq<string>)
    ensures Distinct(Dedup(names))
    ensures forall x :: x in Dedup(names) <==> x in names
    ensures forall i, j :: 0 <= i < j < |Dedup(names)| ==>
              FirstIndex(names, Dedup(names)[i]) < FirstIndex(names, Dedup(names)[j])
  {
    if names != [] {
      var p, x := names[..|names| - 1], names[|names| - 1];
      assert names == p + [x];
      DedupSpec(p);
      var seen := Dedup(p);
      var r := Dedup(names);
      forall y | y in seen ensures FirstIndex(names, y) == FirstIndex(p, y) {
        FirstIndexAppend(p, x, y);
      }
      if x !in seen {
        assert r == seen + [x];
        assert x !in p;
        assert FirstIndex(names, x) == |p| by {
          assert names[..|p|] == p;
          FirstIndexUnique(names, x, |p|);
        }
        forall i, j | 0 <= i < j < |r| ensures FirstIndex(names, r[i]) < FirstIndex(names, r[j]) {
          assert r[i] == seen[i];
          if j < |seen| {
            assert r[j] == seen[j];
          }
        }
      }
    }
  }

  /** Names that are already distinct are kept as they are. */
  lemma {:induction false} DedupOfDistinct(names: seq<string>)
    requires Distinct(names)
    ensures Dedup(names) == names
  {
    if names != [] {
      var p, x := names[..|names| - 1], names[|names| - 1];
      assert Distinct(p);
      DedupOfDistinct(p);
      assert x !in p by {
        forall i | 0 <= i < |p| ensures p[i] != x {
          assert names[i] == p[i];
        }
      }
      assert names == p + [x];
    }
  }

  /** `get_ilks`: a fresh `Ilk` object for every frobbed ilk name. */
  function GetIlks(c: Chain): (r: seq<Ilk>)
    ensures Distinct(Names(r))
    ensures forall n :: n in Names(r) <==> n in c.frobIlks
    ensures forall i, j :: 0 <= i < j < |r| ==>
              FirstIndex(c.frobIlks, r[i].name) < FirstIndex(c.frobIlks, r[j].name)
    ensures forall i :: 0 <= i < |r| ==> r[i] == VatIlk(c, r[i].name)
  {
    var names := Dedup(c.frobIlks);
    DedupSpec(c.frobIlks);
    var r := seq(|names|, i requires 0 <= i < |names| => VatIlk(c, names[i]));
    assert Names(r) == names;
    r
  }

  function SetOf(s: seq<string>): set<string> {
    set x | x in s
  }

  /** What `check_ilks` returns and whether it logs the discrepancy warning. */
  datatype CheckedIlks = CheckedIlks(ilks: seq<Ilk>, warned: bool)

  /** `check_ilks`: always the deployment's ilks; the frobbed ilks only decide the warning. */
  function CheckIlks(c: Chain): (r: CheckedIlks)
    ensures r.ilks == DeploymentIlks(c)
    ensures r.warned <==> SetOf(c.frobIlks) != SetOf(DeploymentNames(c))
  {
    var frobbed := Names(GetIlks(c));
    assert SetOf(frobbed) == SetOf(c.frobIlks);
    CheckedIlks(DeploymentIlks(c), SetOf(frobbed) != SetOf(DeploymentNames(c)))
  }
}
