/**
  The part of the on-chain Maker deployment ("dss") that the cage keeper reads,
  as one immutable snapshot. Every read the keeper performs during a tick is a
  field of `Chain`; the value of the field is what that read returns at the
  moment the keeper performs it.
*/
module Dss {

  /** An Ethereum address; the all-zero address is the "nobody" sentinel. */
  type Address = nat

  const NOBODY: Address := 0

  /** The risk parameters `Vat.ilks(name)` returns for a registered ilk. */
  datatype IlkParams = IlkParams(rate: nat, spot: nat)

  /** A collateral type as pymaker's `Ilk` object carries it: its name and the
      rate and spot that were current when the object was read. */
  datatype Ilk = Ilk(name: string, rate: nat, spot: nat)

  /** A vault: normalised debt `art` and locked collateral `ink`, together with
      the (possibly stale) `Ilk` object it was read with. */
  datatype Urn = Urn(ilk: Ilk, address: Address, art: nat, ink: nat)

  /** One entry of an auction house's `bids` table. */
  datatype Bid = Bid(guy: Address, bid: nat, tab: nat)

  /** The three auction contracts: collateral (Flipper), surplus (Flapper) and
      debt (Flopper) auctions. */
  datatype HouseKind = Flipper | Flapper | Flopper

  /** An auction house: `bids[id - 1]` is what `_bids(id)` returns, so
      `kicks()` is `|bids|`. */
  datatype AuctionHouse = AuctionHouse(kind: HouseKind, bids: seq<Bid>) {
    function Kicks(): nat { |bids| }
  }

  /** A collateral of the deployment file: its ilk and its own Flipper. */
  datatype Collateral = Collateral(ilk: Ilk, flipper: AuctionHouse)

  /** Everything the keeper reads during one block. */
  datatype Chain = Chain(
    live: bool,                       // End.live()
    wait: nat,                        // End.wait(), in seconds
    ilks: map<string, IlkParams>,     // Vat.ilks, re-read by name
    frobIlks: seq<string>,            // ilk names of Vat.past_frobs, in log order
    collaterals: seq<Collateral>,     // DssDeployment.collaterals, in dict order
    flapper: AuctionHouse,
    flopper: AuctionHouse,
    urns: seq<Urn>,                   // Vat.urns(from_block), flattened in dict order
    vowDai: nat                       // Vat.dai(Vow), in rad
  )

  /** `Vat.ilk(name)`: a fresh `Ilk` object; an unregistered name reads as all zero. */
  function VatIlk(c: Chain, name: string): (r: Ilk)
    ensures r.name == name
    ensures name in c.ilks ==> r.rate == c.ilks[name].rate && r.spot == c.ilks[name].spot
    ensures name !in c.ilks ==> r.rate == 0 && r.spot == 0
  {
    if name in c.ilks then Ilk(name, c.ilks[name].rate, c.ilks[name].spot)
    else Ilk(name, 0, 0)
  }

  /** The ilks of the deployment's collaterals, in dict order. */
  function DeploymentIlks(c: Chain): (r: seq<Ilk>)
    ensures |r| == |c.collaterals|
    ensures forall i :: 0 <= i < |r| ==> r[i] == c.collaterals[i].ilk
  {
    seq(|c.collaterals|, i requires 0 <= i < |c.collaterals| => c.collaterals[i].ilk)
  }

  function Names(ilks: seq<Ilk>): (r: seq<string>)
    ensures |r| == |ilks|
    ensures forall i :: 0 <= i < |r| ==> r[i] == ilks[i].name
  {
    seq(|ilks|, i requires 0 <= i < |ilks| => ilks[i].name)
  }

  function DeploymentNames(c: Chain): seq<string> {
    Names(DeploymentIlks(c))
  }

  predicate Distinct<T(==)>(s: seq<T>) {
    forall i, j :: 0 <= i < j < |s| ==> s[i] != s[j]
  }

  /** The shapes the deployment guarantees: `collaterals` is keyed by ilk name,
      `Vat.urns` by ilk name and then urn address, every collateral's auction
      house is a Flipper, and `flapper` and `flopper` are what they are named. */
  predicate WellFormed(c: Chain) {
    && Distinct(DeploymentNames(c))
    && (forall i :: 0 <= i < |c.collaterals| ==> c.collaterals[i].flipper.kind == Flipper)
    && c.flapper.kind == Flapper && c.flopper.kind == Flopper
    && forall i, j :: 0 <= i < j < |c.urns| ==>
         (c.urns[i].ilk.name, c.urns[i].address) != (c.urns[j].ilk.name, c.urns[j].address)
  }
}
