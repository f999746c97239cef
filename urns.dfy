/**
  Underwater vault discovery (`get_underwater_urns`): every urn is compared
  against the parameters of its ilk as the Vat holds them now.
*/
module Urns {
  import opened Dss
  import opened Trace

  /** `urn.art * ilk.rate > urn.ink * ilk.spot`, strictly, on exact products. */
  predicate Underwater(u: Urn) {
    u.art * u.ilk.rate > u.ink * u.ilk.spot
  }

  /** The urn with its `ilk` replaced by a fresh `Vat.ilk(name)` read. */
  function Refreshed(c: Chain, u: Urn): Urn {
    u.(ilk := VatIlk(c, u.ilk.name))
  }

  /** Every urn of the snapshot, each with its ilk re-read. */
  function RefreshedUrns(c: Chain): (r: seq<Urn>)
    ensures |r| == |c.urns|
    ensures forall i :: 0 <= i < |r| ==> r[i] == Refreshed(c, c.urns[i])
  {
    seq(|c.urns|, i requires 0 <= i < |c.urns| => Refreshed(c, c.urns[i]))
  }

  /** The underwater urns of `us`, in order. */
  function Underwaters(us: seq<Urn>): seq<Urn> {
    if us == [] then []
    else
      var u := us[|us| - 1];
      Underwaters(us[..|us| - 1]) + (if Underwater(u) then [u] else [])
  }

  function UnderwaterUrns(c: Chain): seq<Urn> {
    Underwaters(RefreshedUrns(c))
  }

  lemma {:induction false} UnderwatersStep(us: seq<Urn>, k: nat)
    requires k < |us|
    ensures Underwaters(us[..k + 1]) == Underwaters(us[..k]) + (if Underwater(us[k]) then [us[k]] else [])
  {
    assert us[..k + 1][..k] == us[..k];
  }

  lemma {:induction false} UnderwatersSpec(us: seq<Urn>)
    ensures forall u :: u in Underwaters(us) <==> u in us && Underwater(u)
  {
    if us != [] {
      var p := us[..|us| - 1];
      assert us == p + [us[|us| - 1]];
      UnderwatersSpec(p);
    }
  }

  /** `get_underwater_urns`: every urn, re-read ilk first, kept iff `art * rate > ink * spot`. */
  method GetUnderwaterUrns(c: Chain) returns (underwater: seq<Urn>)
    ensures underwater == UnderwaterUrns(c)
    ensures forall u :: u in underwater <==> u in RefreshedUrns(c) && Underwater(u)
  {
    ghost var all := RefreshedUrns(c);
    underwater := [];
    for k := 0 to |c.urns|
      invariant underwater == Underwaters(all[..k])
    {
      var urn := c.urns[k];
      urn := urn.(ilk := VatIlk(c, urn.ilk.name));
      UnderwatersStep(all, k);
      if urn.art * urn.ilk.rate > urn.ink * urn.ilk.spot {
        underwater := underwater + [urn];
      }
    }
    assert all[..|c.urns|] == all;
    UnderwatersSpec(all);
  }

  /** An urn whose debt exactly equals its collateral value is never selected. */
  lemma {:induction false} EqualityIsNotUnderwater(c: Chain, i: nat)
    requires i < |c.urns|
    requires c.urns[i].art * VatIlk(c, c.urns[i].ilk.name).rate == c.urns[i].ink * VatIlk(c, c.urns[i].ilk.name).spot
    ensures Refreshed(c, c.urns[i]) !in UnderwaterUrns(c)
  {
    UnderwatersSpec(RefreshedUrns(c));
  }

  /** Only the urn's ilk name, address, art and ink matter: the rate and spot
      the urn was read with are replaced by the Vat's current ones. */
  lemma {:induction false} StaleParamsIgnored(c: Chain, d: Chain)
    requires |c.urns| == |d.urns| && c.ilks == d.ilks
    requires forall i :: 0 <= i < |c.urns| ==>
               c.urns[i].ilk.name == d.urns[i].ilk.name && c.urns[i].address == d.urns[i].address &&
               c.urns[i].art == d.urns[i].art && c.urns[i].ink == d.urns[i].ink
    ensures UnderwaterUrns(c) == UnderwaterUrns(d)
  {
    var rc, rd := RefreshedUrns(c), RefreshedUrns(d);
    forall i | 0 <= i < |rc| ensures rc[i] == rd[i] {
      assert rc[i] == Refreshed(c, c.urns[i]) && rd[i] == Refreshed(d, d.urns[i]);
    }
    assert rc == rd;
  }

  /** No two urns of `us` are skimmed with the same arguments. */
  predicate DistinctSkims(us: seq<Urn>) {
    forall i, j :: 0 <= i < j < |us| ==> SkimOf(us[i]) != SkimOf(us[j])
  }

  /** The snapshot's urn keys are distinct, and a re-read keeps the ilk name
      and the address, so the refreshed urns are skimmed with distinct arguments. */
  lemma {:induction false} RefreshedSkimsDistinct(c: Chain)
    requires WellFormed(c)
    ensures DistinctSkims(RefreshedUrns(c))
  {
    var all := RefreshedUrns(c);
    forall i, j | 0 <= i < j < |all| ensures SkimOf(all[i]) != SkimOf(all[j]) {
      assert SkimOf(all[i]) == Skim(c.urns[i].ilk.name, c.urns[i].address);
      assert SkimOf(all[j]) == Skim(c.urns[j].ilk.name, c.urns[j].address);
    }
  }

  /** Selecting the underwater urns keeps skims distinct. */
  lemma {:induction false} UnderwatersSkimsDistinct(us: seq<Urn>)
    requires DistinctSkims(us)
    ensures DistinctSkims(Underwaters(us))
  {
    if us != [] {
      var p, u := us[..|us| - 1], us[|us| - 1];
      assert DistinctSkims(p) by {
        forall i, j | 0 <= i < j < |p| ensures SkimOf(p[i]) != SkimOf(p[j]) {
          assert p[i] == us[i] && p[j] == us[j];
        }
      }
      UnderwatersSkimsDistinct(p);
      var q := Underwaters(p);
      if Underwater(u) {
        UnderwatersSpec(p);
        forall k | 0 <= k < |q| ensures SkimOf(q[k]) != SkimOf(u) {
          assert q[k] in p;
          var i :| 0 <= i < |p| && p[i] == q[k];
          assert us[i] == q[k];
        }
        var r := q + [u];
        forall i, j | 0 <= i < j < |r| ensures SkimOf(r[i]) != SkimOf(r[j]) {
          assert r[i] == q[i];
          if j < |q| {
            assert r[j] == q[j];
          }
        }
      }
    }
  }

  /** Some urn with this ilk name and address is underwater at the Vat's current parameters. */
  predicate UnderwaterUrn(c: Chain, n: string, addr: Address) {
    exists i :: 0 <= i < |c.urns| && c.urns[i].ilk.name == n && c.urns[i].address == addr &&
                Underwater(Refreshed(c, c.urns[i]))
  }

  /** The urn `(n, addr)` is among the selected urns iff it is underwater now. */
  lemma {:induction false} UnderwaterSkim(c: Chain, n: string, addr: Address)
    ensures (exists k :: 0 <= k < |UnderwaterUrns(c)| && SkimOf(UnderwaterUrns(c)[k]) == Skim(n, addr)) <==>
            UnderwaterUrn(c, n, addr)
  {
    var all, uw := RefreshedUrns(c), UnderwaterUrns(c);
    UnderwatersSpec(all);
    if UnderwaterUrn(c, n, addr) {
      var i :| 0 <= i < |c.urns| && c.urns[i].ilk.name == n && c.urns[i].address == addr &&
               Underwater(Refreshed(c, c.urns[i]));
      assert all[i] in all;
      var k :| 0 <= k < |uw| && uw[k] == all[i];
      assert SkimOf(uw[k]) == Skim(n, addr);
    }
    if exists k :: 0 <= k < |uw| && SkimOf(uw[k]) == Skim(n, addr) {
      var k :| 0 <= k < |uw| && SkimOf(uw[k]) == Skim(n, addr);
      assert uw[k] in uw;
      var i :| 0 <= i < |all| && all[i] == uw[k];
      assert c.urns[i].ilk.name == n && c.urns[i].address == addr;
    }
  }
}
