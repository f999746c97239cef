/**
  The auction inventory: `cage_active_auctions` (the bids of one house that the
  shutdown must close) and `all_active_auctions` (those of every Flipper, of
  the Flapper and of the Flopper).
*/
module Auctions {
  import opened Dss
  import opened Ilks

  /** A pymaker `Bid` object as `_bids(id)` returns it: the bid and its id. */
  datatype Auction = Auction(id: nat, bid: Bid)

  /** The test each branch of `cage_active_auctions` applies to one bid: a real
      high bidder, and for a collateral auction a bid still below the tab. */
  predicate CageActive(kind: HouseKind, b: Bid) {
    match kind
    case Flipper => b.guy != NOBODY && b.bid < b.tab
    case Flapper => b.guy != NOBODY
    case Flopper => b.guy != NOBODY
  }

  /** The active bids among ids `1..n`, in ascending id order. */
  function ScanUpTo(h: AuctionHouse, n: nat): seq<Auction>
    requires n <= h.Kicks()
  {
    if n == 0 then []
    else
      var b := h.bids[n - 1];
      ScanUpTo(h, n - 1) + (if CageActive(h.kind, b) then [Auction(n, b)] else [])
  }

  function ActiveAuctions(h: AuctionHouse): seq<Auction> {
    ScanUpTo(h, h.Kicks())
  }

  predicate IdsIncreasing(s: seq<Auction>) {
    forall i, j :: 0 <= i < j < |s| ==> s[i].id < s[j].id
  }

  /** The bid an auction carries is the one the house holds under its id, and the id is real. */
  predicate Selected(h: AuctionHouse, n: nat, a: Auction) {
    1 <= a.id <= n && n <= h.Kicks() && a.bid == h.bids[a.id - 1] && CageActive(h.kind, a.bid)
  }

  lemma {:induction false} ScanUpToSpec(h: AuctionHouse, n: nat)
    requires n <= h.Kicks()
    ensures forall a :: a in ScanUpTo(h, n) <==> Selected(h, n, a)
    ensures IdsIncreasing(ScanUpTo(h, n))
  {
    if n > 0 {
      ScanUpToSpec(h, n - 1);
      var p := ScanUpTo(h, n - 1);
      forall i | 0 <= i < |p| ensures p[i].id < n {
        assert p[i] in p;
      }
    }
  }

  /** `cage_active_auctions(house)`: ids `1..kicks` in ascending order, each kept
      iff it has a high bidder and, on a Flipper, its bid is below its tab. */
  method CageActiveAuctions(h: AuctionHouse) returns (active: seq<Auction>)
    ensures active == ActiveAuctions(h)
    ensures forall a :: a in active <==>
              1 <= a.id <= h.Kicks() && a.bid == h.bids[a.id - 1] && CageActive(h.kind, a.bid)
    ensures IdsIncreasing(active)
  {
    active := [];
    var auctionCount := h.Kicks() + 1;
    // Python's `index += 1` inside `for index in range(...)` has no effect on
    // the iteration, so both loops visit every id from 1 to kicks exactly once.
    if h.kind.Flipper? {
      for index := 1 to auctionCount
        invariant active == ScanUpTo(h, index - 1)
      {
        var bid := h.bids[index - 1];
        if bid.guy != NOBODY {
          if bid.bid < bid.tab {
            active := active + [Auction(index, bid)];
          }
        }
      }
    } else {
      for index := 1 to auctionCount
        invariant active == ScanUpTo(h, index - 1)
      {
        var bid := h.bids[index - 1];
        if bid.guy != NOBODY {
          active := active + [Auction(index, bid)];
        }
      }
    }
    ScanUpToSpec(h, h.Kicks());
  }

  lemma {:induction false} ActiveIdsIncreasing(h: AuctionHouse)
    ensures IdsIncreasing(ActiveAuctions(h))
  {
    ScanUpToSpec(h, h.Kicks());
  }

  /** Whether one of `s` carries the id `id`. */
  predicate HasId(s: seq<Auction>, id: nat) {
    exists j :: 0 <= j < |s| && s[j].id == id
  }

  lemma {:induction false} HasIdAppend(s: seq<Auction>, t: seq<Auction>, id: nat)
    ensures HasId(s + t, id) <==> HasId(s, id) || HasId(t, id)
  {
    if HasId(s + t, id) {
      var j :| 0 <= j < |s + t| && (s + t)[j].id == id;
      if j < |s| {
        assert s[j] == (s + t)[j];
      } else {
        assert t[j - |s|] == (s + t)[j];
      }
    }
    if HasId(s, id) {
      var j :| 0 <= j < |s| && s[j].id == id;
      assert (s + t)[j] == s[j];
    }
    if HasId(t, id) {
      var j :| 0 <= j < |t| && t[j].id == id;
      assert (s + t)[|s| + j] == t[j];
    }
  }

  lemma {:induction false} ScanHasId(h: AuctionHouse, n: nat, id: nat)
    requires n <= h.Kicks()
    ensures HasId(ScanUpTo(h, n), id) <==> 1 <= id <= n && CageActive(h.kind, h.bids[id - 1])
  {
    if n > 0 {
      ScanHasId(h, n - 1, id);
      var b := h.bids[n - 1];
      var tail := if CageActive(h.kind, b) then [Auction(n, b)] else [];
      assert ScanUpTo(h, n) == ScanUpTo(h, n - 1) + tail;
      HasIdAppend(ScanUpTo(h, n - 1), tail, id);
      if HasId(tail, id) {
        var j :| 0 <= j < |tail| && tail[j].id == id;
      }
      if id == n && CageActive(h.kind, b) {
        assert tail[0].id == id;
      }
    }
  }

  lemma {:induction false} ActiveHasId(h: AuctionHouse, id: nat)
    ensures HasId(ActiveAuctions(h), id) <==>
              1 <= id <= h.Kicks() && CageActive(h.kind, h.bids[id - 1])
  {
    ScanHasId(h, h.Kicks(), id);
  }

  /** The `flips` dictionary of `all_active_auctions`: ilk name to active bids,
      keys in insertion order as a Python dict keeps them. */
  datatype FlipDict = FlipDict(keys: seq<string>, values: map<string, seq<Auction>>) {
    ghost predicate Valid() {
      Distinct(keys) && forall k :: k in values <==> k in keys
    }
  }

  /** `flips[name] = v`: an existing key keeps its place, a new key goes last. */
  function Put(d: FlipDict, name: string, v: seq<Auction>): (r: FlipDict)
    requires d.Valid()
    ensures r.Valid()
    ensures name in r.values && r.values[name] == v
    ensures name in d.values ==> r.keys == d.keys
    ensures name !in d.values ==> r.keys == d.keys + [name]
    ensures forall k :: k != name && k in d.values ==> k in r.values && r.values[k] == d.values[k]
  {
    if name in d.values then FlipDict(d.keys, d.values[name := v])
    else
      var r := FlipDict(d.keys + [name], d.values[name := v]);
      assert forall i :: 0 <= i < |d.keys| ==> r.keys[i] == d.keys[i] && d.keys[i] in d.values;
      r
  }

  /** The `flips` dictionary after the first `n` collaterals. */
  function FlipsUpTo(cols: seq<Collateral>, n: nat): (r: FlipDict)
    requires n <= |cols|
    ensures r.Valid()
  {
    if n == 0 then FlipDict([], map[])
    else Put(FlipsUpTo(cols, n - 1), cols[n - 1].ilk.name, ActiveAuctions(cols[n - 1].flipper))
  }

  /** True iff no collateral after the `i`-th among the first `n` has the same ilk name. */
  predicate LastNamed(cols: seq<Collateral>, n: nat, i: nat)
    requires i < n <= |cols|
  {
    forall j :: i < j < n ==> cols[j].ilk.name != cols[i].ilk.name
  }

  /** The ilk names of the collaterals, in order. */
  function CollateralNames(cols: seq<Collateral>): (r: seq<string>)
    ensures |r| == |cols|
    ensures forall i :: 0 <= i < |r| ==> r[i] == cols[i].ilk.name
  {
    seq(|cols|, i requires 0 <= i < |cols| => cols[i].ilk.name)
  }

  /** The keys are the names of the collaterals written so far, each once, in
      the order of its first write. */
  lemma {:induction false} FlipsUpToKeys(cols: seq<Collateral>, n: nat)
    requires n <= |cols|
    ensures FlipsUpTo(cols, n).keys == Dedup(CollateralNames(cols)[..n])
  {
    if n > 0 {
      FlipsUpToKeys(cols, n - 1);
      var ns := CollateralNames(cols);
      assert ns[..n][..n - 1] == ns[..n - 1];
      assert ns[..n][n - 1] == cols[n - 1].ilk.name;
    }
  }

  /** Under each name stand the active bids of the last collateral written
      with it (a later `flips[name] = ...` overwrites an earlier one). */
  lemma {:induction false} FlipsUpToValues(cols: seq<Collateral>, n: nat)
    requires n <= |cols|
    ensures forall i :: 0 <= i < n && LastNamed(cols, n, i) ==>
              cols[i].ilk.name in FlipsUpTo(cols, n).values &&
              FlipsUpTo(cols, n).values[cols[i].ilk.name] == ActiveAuctions(cols[i].flipper)
  {
    if n > 0 {
      FlipsUpToValues(cols, n - 1);
      var prev, r := FlipsUpTo(cols, n - 1), FlipsUpTo(cols, n);
      var name := cols[n - 1].ilk.name;
      assert r.values == prev.values[name := ActiveAuctions(cols[n - 1].flipper)];
      forall i | 0 <= i < n && LastNamed(cols, n, i)
        ensures cols[i].ilk.name in r.values && r.values[cols[i].ilk.name] == ActiveAuctions(cols[i].flipper)
      {
        if i < n - 1 {
          assert cols[i].ilk.name != name;
          assert LastNamed(cols, n - 1, i);
        }
      }
    }
  }

  /** With distinct collateral names, the flips dictionary has one key per
      collateral, in order. */
  lemma {:induction false} FlipsKeysInOrder(cols: seq<Collateral>)
    requires Distinct(CollateralNames(cols))
    ensures FlipsUpTo(cols, |cols|).keys == CollateralNames(cols)
  {
    var ns := CollateralNames(cols);
    assert FlipsUpTo(cols, |cols|).keys == Dedup(ns) by {
      FlipsUpToKeys(cols, |cols|);
      assert ns[..|cols|] == ns;
    }
    DedupOfDistinct(ns);
  }

  /** With distinct collateral names, each collateral's name holds its active bids. */
  lemma {:induction false} FlipsValuesByCollateral(cols: seq<Collateral>)
    requires Distinct(CollateralNames(cols))
    ensures forall i :: 0 <= i < |cols| ==>
              cols[i].ilk.name in FlipsUpTo(cols, |cols|).values &&
              FlipsUpTo(cols, |cols|).values[cols[i].ilk.name] == ActiveAuctions(cols[i].flipper)
  {
    var ns := CollateralNames(cols);
    FlipsUpToValues(cols, |cols|);
    forall i | 0 <= i < |cols| ensures LastNamed(cols, |cols|, i) {
      forall j | i < j < |cols| ensures cols[j].ilk.name != cols[i].ilk.name {
        assert ns[i] != ns[j];
      }
    }
  }

  /** The dictionary `all_active_auctions` returns. */
  datatype ActiveSet = ActiveSet(flips: FlipDict, flaps: seq<Auction>, flops: seq<Auction>)

  function AllAuctions(c: Chain): ActiveSet {
    ActiveSet(FlipsUpTo(c.collaterals, |c.collaterals|), ActiveAuctions(c.flapper), ActiveAuctions(c.flopper))
  }

  /** `all_active_auctions`: one scan per collateral's Flipper, then the Flapper and the Flopper. */
  method AllActiveAuctions(c: Chain) returns (r: ActiveSet)
    ensures r == AllAuctions(c)
  {
    var flips := FlipDict([], map[]);
    for i := 0 to |c.collaterals|
      invariant flips == FlipsUpTo(c.collaterals, i)
    {
      var collateral := c.collaterals[i];
      var active := CageActiveAuctions(collateral.flipper);
      flips := Put(flips, collateral.ilk.name, active);
    }
    var flaps := CageActiveAuctions(c.flapper);
    var flops := CageActiveAuctions(c.flopper);
    r := ActiveSet(flips, flaps, flops);
  }
}
