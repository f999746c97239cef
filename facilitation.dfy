/**
  What `facilitate_cage` issues, as a function of the snapshot: its ten steps
  in their fixed order, and the coverage each step guarantees.
*/
module Facilitation {
  import opened Dss
  import opened Trace
  import opened Ilks
  import opened Auctions
  import opened Urns

  function YankFlapOf(a: Auction): Action { YankFlap(a.id) }
  function YankFlopOf(a: Auction): Action { YankFlop(a.id) }
  function SkipOf(ilk: string): Auction -> Action { (a: Auction) => Skip(ilk, a.id) }

  /** The skips for the first `m` keys of the flips dictionary: for each key, each of its bids. */
  function SkipsUpTo(d: FlipDict, m: nat): seq<Action>
    requires d.Valid() && m <= |d.keys|
  {
    if m == 0 then []
    else
      var key := d.keys[m - 1];
      assert key in d.values;
      SkipsUpTo(d, m - 1) + Each(d.values[key], SkipOf(key))
  }

  lemma {:induction false} SkipsUpToStep(d: FlipDict, m: nat)
    requires d.Valid() && m < |d.keys|
    ensures d.keys[m] in d.values
    ensures SkipsUpTo(d, m + 1) == SkipsUpTo(d, m) + Each(d.values[d.keys[m]], SkipOf(d.keys[m]))
  {
  }

  function AllSkips(d: FlipDict): seq<Action>
    requires d.Valid()
  {
    SkipsUpTo(d, |d.keys|)
  }

  /** What `facilitate_cage` has read before it issues its calls: `End.wait()`,
      the ilks of `check_ilks`, the result of `all_active_auctions`, the result
      of `get_underwater_urns` and the Vow's dai. */
  datatype Reads = Reads(wait: nat, ilks: seq<Ilk>, auctions: ActiveSet, underwater: seq<Urn>, dai: nat)

  function ReadsOf(c: Chain): (r: Reads)
    ensures r.auctions.flips.Valid()
  {
    Reads(c.wait, CheckIlks(c).ilks, AllAuctions(c), UnderwaterUrns(c), c.vowDai)
  }

  /** The actions of step `k` of `facilitate_cage`. */
  function Step(r: Reads, k: nat): seq<Action>
    requires r.auctions.flips.Valid() && k < 10
  {
    if k == 0 then Each(r.ilks, DripOf)                     // drip every ilk
    else if k == 1 then Each(r.auctions.flaps, YankFlapOf)  // yank the flap auctions
    else if k == 2 then Each(r.auctions.flops, YankFlopOf)  // then the flop auctions
    else if k == 3 then Each(r.ilks, CageOf)                // cage every ilk
    else if k == 4 then AllSkips(r.auctions.flips)          // skip every flip auction
    else if k == 5 then Each(r.underwater, SkimOf)          // skim every underwater urn
    else if k == 6 then [Sleep(r.wait)]                     // sit out the processing period
    else if k == 7 then (if r.dai > 0 then [Heal(r.dai)] else [])  // heal the Vow's dai, if any
    else if k == 8 then [Thaw]
    else Each(r.ilks, FlowOf)                               // flow every ilk
  }

  /** The ten steps of `facilitate_cage`, in the order it takes them. */
  function Steps(r: Reads): (steps: seq<seq<Action>>)
    requires r.auctions.flips.Valid()
    ensures |steps| == 10
    ensures forall k :: 0 <= k < 10 ==> steps[k] == Step(r, k)
  {
    seq(10, k requires 0 <= k < 10 => Step(r, k))
  }

  /** Everything one `facilitate_cage` call issues, given what it has read:
      the ten steps one after the other. */
  function ScriptOf(r: Reads): seq<Action>
    requires r.auctions.flips.Valid()
  {
    Each(r.ilks, DripOf) + Each(r.auctions.flaps, YankFlapOf) + Each(r.auctions.flops, YankFlopOf) +
    Each(r.ilks, CageOf) + AllSkips(r.auctions.flips) + Each(r.underwater, SkimOf) +
    [Sleep(r.wait)] + (if r.dai > 0 then [Heal(r.dai)] else []) + [Thaw] + Each(r.ilks, FlowOf)
  }

  /** Everything one `facilitate_cage` call issues against snapshot `c`. */
  function Script(c: Chain): seq<Action> {
    ScriptOf(ReadsOf(c))
  }

  /** The script is its steps, flattened. */
  lemma {:induction false} ScriptSteps(r: Reads)
    requires r.auctions.flips.Valid()
    ensures ScriptOf(r) == Flatten(Steps(r))
  {
    var steps := Steps(r);
    FlattenTen(steps);
    assert steps[0] == Each(r.ilks, DripOf) && steps[1] == Each(r.auctions.flaps, YankFlapOf);
    assert steps[2] == Each(r.auctions.flops, YankFlopOf) && steps[3] == Each(r.ilks, CageOf);
    assert steps[4] == AllSkips(r.auctions.flips) && steps[5] == Each(r.underwater, SkimOf);
    assert steps[6] == [Sleep(r.wait)] && steps[7] == (if r.dai > 0 then [Heal(r.dai)] else []);
    assert steps[8] == [Thaw] && steps[9] == Each(r.ilks, FlowOf);
  }

  lemma {:induction false} SkipsInPhase(d: FlipDict, m: nat)
    requires d.Valid() && m <= |d.keys|
    ensures InPhase(SkipsUpTo(d, m), 4)
  {
    if m > 0 {
      SkipsInPhase(d, m - 1);
      var key := d.keys[m - 1];
      var s, t := SkipsUpTo(d, m - 1), Each(d.values[key], SkipOf(key));
      forall i | 0 <= i < |s + t| ensures Phase((s + t)[i]) == 4 {
        if i < |s| {
          assert (s + t)[i] == s[i];
        } else {
          assert (s + t)[i] == t[i - |s|];
        }
      }
    }
  }

  /** Step `k` issues only actions of kind `k`. */
  lemma {:induction false} StepsInPhase(r: Reads)
    requires r.auctions.flips.Valid()
    ensures |Steps(r)| == 10
    ensures forall k :: 0 <= k < |Steps(r)| ==> InPhase(Steps(r)[k], k)
  {
    forall k | 0 <= k < 10 ensures InPhase(Step(r, k), k) {
      if k == 0 {
        EachInPhase(r.ilks, DripOf, 0);
      } else if k == 1 {
        EachInPhase(r.auctions.flaps, YankFlapOf, 1);
      } else if k == 2 {
        EachInPhase(r.auctions.flops, YankFlopOf, 2);
      } else if k == 3 {
        EachInPhase(r.ilks, CageOf, 3);
      } else if k == 4 {
        SkipsInPhase(r.auctions.flips, |r.auctions.flips.keys|);
      } else if k == 5 {
        EachInPhase(r.underwater, SkimOf, 5);
      } else if k == 9 {
        EachInPhase(r.ilks, FlowOf, 9);
      }
    }
  }

  /** `facilitate_cage` issues drips, then flap yanks, flop yanks, cages, skips,
      skims, the processing-period sleep, the heal, the thaw and the flows:
      no action of a later step comes before one of an earlier step. */
  lemma {:induction false} ScriptOrdered(c: Chain)
    ensures Ordered(Script(c))
  {
    StepsInPhase(ReadsOf(c));
    FlattenOrdered(Steps(ReadsOf(c)));
    ScriptSteps(ReadsOf(c));
  }

  /** An action occurs in the script exactly as often as in the one step that issues its kind. */
  lemma {:induction false} StepCount(r: Reads, a: Action)
    requires r.auctions.flips.Valid()
    ensures Phase(a) < 10
    ensures Count(Flatten(Steps(r)), a) == Count(Step(r, Phase(a)), a)
  {
    StepsInPhase(r);
    FlattenCount(Steps(r), a);
  }

  lemma {:induction false} IlkSegmentCount(ilks: seq<Ilk>, f: Ilk -> Action, a: Action, n: string)
    requires Distinct(Names(ilks))
    requires forall x, y :: f(x) == f(y) ==> x.name == y.name
    requires forall x :: f(x) == a <==> x.name == n
    ensures Count(Each(ilks, f), a) == if n in Names(ilks) then 1 else 0
  {
    var e := Each(ilks, f);
    forall i, j | 0 <= i < j < |e| ensures e[i] != e[j] {
      assert Names(ilks)[i] != Names(ilks)[j];
    }
    DistinctCount(e, a);
    EachMember(ilks, f, a);
    if n in Names(ilks) {
      var i :| 0 <= i < |ilks| && Names(ilks)[i] == n;
      assert f(ilks[i]) == a;
    }
  }

  /** Every deployment ilk is dripped, caged and flowed exactly once, and no other ilk is. */
  lemma {:induction false} IlkCoverage(c: Chain, n: string)
    requires WellFormed(c)
    ensures Count(Script(c), Drip(n)) == if n in DeploymentNames(c) then 1 else 0
    ensures Count(Script(c), Cage(n)) == if n in DeploymentNames(c) then 1 else 0
    ensures Count(Script(c), Flow(n)) == if n in DeploymentNames(c) then 1 else 0
  {
    var r := ReadsOf(c);
    assert Names(r.ilks) == DeploymentNames(c);
    ScriptSteps(r);
    assert Script(c) == Flatten(Steps(r));
    DripCount(r, n);
    CageCount(r, n);
    FlowCount(r, n);
  }

  lemma {:induction false} DripCount(r: Reads, n: string)
    requires r.auctions.flips.Valid() && Distinct(Names(r.ilks))
    ensures Count(Flatten(Steps(r)), Drip(n)) == if n in Names(r.ilks) then 1 else 0
  {
    StepCount(r, Drip(n));
    assert Step(r, 0) == Each(r.ilks, DripOf);
    IlkSegmentCount(r.ilks, DripOf, Drip(n), n);
  }

  lemma {:induction false} CageCount(r: Reads, n: string)
    requires r.auctions.flips.Valid() && Distinct(Names(r.ilks))
    ensures Count(Flatten(Steps(r)), Cage(n)) == if n in Names(r.ilks) then 1 else 0
  {
    StepCount(r, Cage(n));
    assert Step(r, 3) == Each(r.ilks, CageOf);
    IlkSegmentCount(r.ilks, CageOf, Cage(n), n);
  }

  lemma {:induction false} FlowCount(r: Reads, n: string)
    requires r.auctions.flips.Valid() && Distinct(Names(r.ilks))
    ensures Count(Flatten(Steps(r)), Flow(n)) == if n in Names(r.ilks) then 1 else 0
  {
    StepCount(r, Flow(n));
    assert Step(r, 9) == Each(r.ilks, FlowOf);
    IlkSegmentCount(r.ilks, FlowOf, Flow(n), n);
  }

  /** The bid with id `id` of house `h` is one the shutdown must close. */
  predicate ActiveId(h: AuctionHouse, id: nat) {
    1 <= id <= h.Kicks() && CageActive(h.kind, h.bids[id - 1])
  }

  lemma {:induction false} YankSegmentCount(h: AuctionHouse, f: Auction -> Action, a: Action, id: nat)
    requires forall x :: f(x) == a <==> x.id == id
    requires forall x, y :: f(x) == f(y) ==> x.id == y.id
    ensures Count(Each(ActiveAuctions(h), f), a) == if ActiveId(h, id) then 1 else 0
  {
    var s := ActiveAuctions(h);
    var e := Each(s, f);
    ScanUpToSpec(h, h.Kicks());
    forall i, j | 0 <= i < j < |e| ensures e[i] != e[j] {
      assert s[i].id < s[j].id;
    }
    DistinctCount(e, a);
    EachMember(s, f, a);
    ActiveHasId(h, id);
    if HasId(s, id) {
      var j :| 0 <= j < |s| && s[j].id == id;
      assert f(s[j]) == a;
    }
  }

  /** Every active flap and flop auction is yanked exactly once, and nothing else is yanked. */
  lemma {:induction false} YankCoverage(c: Chain, id: nat)
    ensures Count(Script(c), YankFlap(id)) == if ActiveId(c.flapper, id) then 1 else 0
    ensures Count(Script(c), YankFlop(id)) == if ActiveId(c.flopper, id) then 1 else 0
  {
    var r := ReadsOf(c);
    ScriptSteps(r);
    assert Script(c) == Flatten(Steps(r));
    assert r.auctions.flaps == ActiveAuctions(c.flapper) && r.auctions.flops == ActiveAuctions(c.flopper);
    YankCounts(r, id);
    YankSegmentCount(c.flapper, YankFlapOf, YankFlap(id), id);
    YankSegmentCount(c.flopper, YankFlopOf, YankFlop(id), id);
  }

  lemma {:induction false} YankCounts(r: Reads, id: nat)
    requires r.auctions.flips.Valid()
    ensures Count(Flatten(Steps(r)), YankFlap(id)) == Count(Each(r.auctions.flaps, YankFlapOf), YankFlap(id))
    ensures Count(Flatten(Steps(r)), YankFlop(id)) == Count(Each(r.auctions.flops, YankFlopOf), YankFlop(id))
  {
    StepCount(r, YankFlap(id));
    assert Step(r, 1) == Each(r.auctions.flaps, YankFlapOf);
    StepCount(r, YankFlop(id));
    assert Step(r, 2) == Each(r.auctions.flops, YankFlopOf);
  }

  /** The skips for one key: one per bid, each with its own id. */
  lemma {:induction false} KeySkipsCount(key: string, s: seq<Auction>, n: string, id: nat)
    requires IdsIncreasing(s)
    ensures Count(Each(s, SkipOf(key)), Skip(n, id)) == if key == n && HasId(s, id) then 1 else 0
  {
    var seg := Each(s, SkipOf(key));
    if key == n {
      forall i, j | 0 <= i < j < |seg| ensures seg[i] != seg[j] {
        assert s[i].id < s[j].id;
      }
      DistinctCount(seg, Skip(n, id));
      EachMember(s, SkipOf(key), Skip(n, id));
      if HasId(s, id) {
        var j :| 0 <= j < |s| && s[j].id == id;
        assert SkipOf(key)(s[j]) == Skip(n, id);
      }
    } else {
      forall i | 0 <= i < |seg| ensures seg[i] != Skip(n, id) {
        assert seg[i] == Skip(key, s[i].id);
      }
    }
  }

  lemma {:induction false} PrefixMember<T>(s: seq<T>, m: nat, x: T)
    requires 0 < m <= |s|
    ensures x in s[..m] <==> x in s[..m - 1] || x == s[m - 1]
  {
    assert s[..m] == s[..m - 1] + [s[m - 1]];
  }

  lemma {:induction false} SkipsCount(d: FlipDict, m: nat, n: string, id: nat)
    requires d.Valid() && m <= |d.keys|
    requires forall k :: k in d.values ==> IdsIncreasing(d.values[k])
    ensures Count(SkipsUpTo(d, m), Skip(n, id)) ==
              if n in d.keys[..m] && n in d.values && HasId(d.values[n], id) then 1 else 0
  {
    if m > 0 {
      SkipsCount(d, m - 1, n, id);
      var key := d.keys[m - 1];
      assert key in d.values;
      var bids := d.values[key];
      assert IdsIncreasing(bids);
      var prev, seg := SkipsUpTo(d, m - 1), Each(bids, SkipOf(key));
      assert SkipsUpTo(d, m) == prev + seg;
      CountAppend(prev, seg, Skip(n, id));
      PrefixMember(d.keys, m, n);
      KeySkipsCount(key, bids, n, id);
      if key == n {
        assert n !in d.keys[..m - 1];
      }
    }
  }

  /** Some collateral named `n` has an active flip auction with id `id`. */
  predicate ActiveFlip(cols: seq<Collateral>, n: string, id: nat) {
    exists i :: 0 <= i < |cols| && cols[i].ilk.name == n && ActiveId(cols[i].flipper, id)
  }

  /** In a well-formed deployment, an active flip auction is one with a real
      high bidder whose bid is still below its tab. */
  lemma {:induction false} ActiveFlipBid(c: Chain, n: string, id: nat)
    requires WellFormed(c)
    ensures ActiveFlip(c.collaterals, n, id) <==>
              exists i :: 0 <= i < |c.collaterals| && c.collaterals[i].ilk.name == n &&
                          1 <= id <= c.collaterals[i].flipper.Kicks() &&
                          c.collaterals[i].flipper.bids[id - 1].guy != NOBODY &&
                          c.collaterals[i].flipper.bids[id - 1].bid < c.collaterals[i].flipper.bids[id - 1].tab
  {
    var cols := c.collaterals;
    if ActiveFlip(cols, n, id) {
      var i :| 0 <= i < |cols| && cols[i].ilk.name == n && ActiveId(cols[i].flipper, id);
      assert cols[i].flipper.kind == Flipper;
    }
    if exists i :: 0 <= i < |cols| && cols[i].ilk.name == n && 1 <= id <= cols[i].flipper.Kicks() &&
                   cols[i].flipper.bids[id - 1].guy != NOBODY &&
                   cols[i].flipper.bids[id - 1].bid < cols[i].flipper.bids[id - 1].tab {
      var i :| 0 <= i < |cols| && cols[i].ilk.name == n && 1 <= id <= cols[i].flipper.Kicks() &&
               cols[i].flipper.bids[id - 1].guy != NOBODY &&
               cols[i].flipper.bids[id - 1].bid < cols[i].flipper.bids[id - 1].tab;
      assert cols[i].flipper.kind == Flipper;
      assert ActiveId(cols[i].flipper, id);
    }
  }

  /** Every value of the flips dictionary lists its bids in ascending id order. */
  lemma {:induction false} FlipsIdsIncreasing(cols: seq<Collateral>)
    requires Distinct(CollateralNames(cols))
    ensures forall k :: k in FlipsUpTo(cols, |cols|).values ==> IdsIncreasing(FlipsUpTo(cols, |cols|).values[k])
  {
    var d, ns := FlipsUpTo(cols, |cols|), CollateralNames(cols);
    FlipsKeysInOrder(cols);
    FlipsValuesByCollateral(cols);
    forall i | 0 <= i < |cols| ensures IdsIncreasing(d.values[cols[i].ilk.name]) {
      ActiveIdsIncreasing(cols[i].flipper);
    }
    forall k | k in d.values ensures IdsIncreasing(d.values[k]) {
      assert k in ns;
      var i :| 0 <= i < |ns| && ns[i] == k;
      assert cols[i].ilk.name == k;
    }
  }

  lemma {:induction false} AllSkipsCount(d: FlipDict, n: string, id: nat)
    requires d.Valid()
    requires forall k :: k in d.values ==> IdsIncreasing(d.values[k])
    ensures Count(AllSkips(d), Skip(n, id)) == if n in d.values && HasId(d.values[n], id) then 1 else 0
  {
    SkipsCount(d, |d.keys|, n, id);
    assert d.keys[..|d.keys|] == d.keys;
  }

  lemma {:induction false} FlipsSkipCount(cols: seq<Collateral>, n: string, id: nat)
    requires Distinct(CollateralNames(cols))
    ensures Count(AllSkips(FlipsUpTo(cols, |cols|)), Skip(n, id)) == if ActiveFlip(cols, n, id) then 1 else 0
  {
    var d, ns := FlipsUpTo(cols, |cols|), CollateralNames(cols);
    FlipsIdsIncreasing(cols);
    AllSkipsCount(d, n, id);
    FlipsValuesByCollateral(cols);
    if n in d.values {
      var i: nat :| i < |ns| && ns[i] == n by {
        FlipsKeysInOrder(cols);
        assert n in d.keys;
      }
      assert cols[i].ilk.name == n;
      ActiveHasId(cols[i].flipper, id);
      assert HasId(d.values[n], id) <==> ActiveId(cols[i].flipper, id);
      assert ActiveFlip(cols, n, id) <==> ActiveId(cols[i].flipper, id) by {
        if ActiveFlip(cols, n, id) {
          var j :| 0 <= j < |cols| && cols[j].ilk.name == n && ActiveId(cols[j].flipper, id);
          assert ns[j] == ns[i];
          assert j == i;
        }
        if ActiveId(cols[i].flipper, id) {
          assert 0 <= i < |cols| && cols[i].ilk.name == n && ActiveId(cols[i].flipper, id);
        }
      }
    } else {
      assert !ActiveFlip(cols, n, id) by {
        forall i | 0 <= i < |cols| ensures cols[i].ilk.name != n {
          assert cols[i].ilk.name in d.values;
        }
      }
    }
  }

  /** Every active flip auction of every collateral is skipped exactly once, and nothing else is skipped. */
  lemma {:induction false} SkipCoverage(c: Chain, n: string, id: nat)
    requires WellFormed(c)
    ensures Count(Script(c), Skip(n, id)) == if ActiveFlip(c.collaterals, n, id) then 1 else 0
  {
    var cols := c.collaterals;
    assert Distinct(CollateralNames(cols)) by {
      var ns, ds := CollateralNames(cols), DeploymentNames(c);
      forall i, j | 0 <= i < j < |ns| ensures ns[i] != ns[j] {
        assert ns[i] == ds[i] && ns[j] == ds[j];
      }
    }
    var flips := FlipsUpTo(cols, |cols|);
    assert Count(Script(c), Skip(n, id)) == Count(AllSkips(flips), Skip(n, id)) by {
      var r := ReadsOf(c);
      ScriptSteps(r);
      assert Script(c) == Flatten(Steps(r)) && r.auctions.flips == flips;
      SkipCount(r, n, id);
    }
    FlipsSkipCount(cols, n, id);
  }

  /** Every underwater urn is skimmed exactly once, and no other urn is skimmed. */
  lemma {:induction false} SkimCoverage(c: Chain, n: string, addr: Address)
    requires WellFormed(c)
    ensures Count(Script(c), Skim(n, addr)) == if UnderwaterUrn(c, n, addr) then 1 else 0
  {
    var uw := UnderwaterUrns(c);
    var a := Skim(n, addr);
    assert Count(Script(c), a) == Count(Each(uw, SkimOf), a) by {
      var r := ReadsOf(c);
      ScriptSteps(r);
      assert Script(c) == Flatten(Steps(r)) && r.underwater == uw;
      SkimCount(r, n, addr);
    }
    RefreshedSkimsDistinct(c);
    UnderwatersSkimsDistinct(RefreshedUrns(c));
    var e := Each(uw, SkimOf);
    assert Distinct(e) by {
      forall i, j | 0 <= i < j < |e| ensures e[i] != e[j] {
        assert e[i] == SkimOf(uw[i]) && e[j] == SkimOf(uw[j]);
      }
    }
    DistinctCount(e, a);
    EachMember(uw, SkimOf, a);
    UnderwaterSkim(c, n, addr);
  }

  /** One sleep of `wait` seconds, one heal (only when the Vow holds dai, and of
      exactly that amount) and one thaw. */
  lemma {:induction false} FinalCalls(c: Chain, seconds: nat, rad: nat)
    ensures Count(Script(c), Sleep(seconds)) == if seconds == c.wait then 1 else 0
    ensures Count(Script(c), Heal(rad)) == if c.vowDai > 0 && rad == c.vowDai then 1 else 0
    ensures Count(Script(c), Thaw) == 1
  {
    var r := ReadsOf(c);
    ScriptSteps(r);
    assert Script(c) == Flatten(Steps(r)) && r.wait == c.wait && r.dai == c.vowDai;
    SleepCount(r, seconds);
    HealCount(r, rad);
    ThawCount(r);
  }

  lemma {:induction false} SleepCount(r: Reads, seconds: nat)
    requires r.auctions.flips.Valid()
    ensures Count(Flatten(Steps(r)), Sleep(seconds)) == if seconds == r.wait then 1 else 0
  {
    StepCount(r, Sleep(seconds));
    assert Step(r, 6) == [Sleep(r.wait)];
  }

  lemma {:induction false} HealCount(r: Reads, rad: nat)
    requires r.auctions.flips.Valid()
    ensures Count(Flatten(Steps(r)), Heal(rad)) == if r.dai > 0 && rad == r.dai then 1 else 0
  {
    StepCount(r, Heal(rad));
    var heal := Step(r, 7);
    if r.dai > 0 {
      assert heal == [Heal(r.dai)];
      assert multiset(heal) == multiset{Heal(r.dai)};
    } else {
      assert heal == [];
    }
  }

  lemma {:induction false} ThawCount(r: Reads)
    requires r.auctions.flips.Valid()
    ensures Count(Flatten(Steps(r)), Thaw) == 1
  {
    StepCount(r, Thaw);
    assert Step(r, 8) == [Thaw];
  }

  lemma {:induction false} SkipCount(r: Reads, n: string, id: nat)
    requires r.auctions.flips.Valid()
    ensures Count(Flatten(Steps(r)), Skip(n, id)) == Count(AllSkips(r.auctions.flips), Skip(n, id))
  {
    StepCount(r, Skip(n, id));
    assert Step(r, 4) == AllSkips(r.auctions.flips);
  }

  lemma {:induction false} SkimCount(r: Reads, n: string, addr: Address)
    requires r.auctions.flips.Valid()
    ensures Count(Flatten(Steps(r)), Skim(n, addr)) == Count(Each(r.underwater, SkimOf), Skim(n, addr))
  {
    StepCount(r, Skim(n, addr));
    assert Step(r, 5) == Each(r.underwater, SkimOf);
  }
}
