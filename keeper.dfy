/**
  The `CageKeeper` object: its per-block callback (`process_block`), the
  shutdown check (`check_cage`) and the shutdown run itself
  (`facilitate_cage`, `yank_auctions`). The keeper's fields are the
  error budget, the "already facilitated" flag (and the misspelt attribute
  the source writes instead of it), the termination flag and the trace of
  actions it has issued.
*/
module Keeper {
  import opened Dss
  import opened Trace
  import opened Ilks
  import opened Auctions
  import opened Urns
  import opened Facilitation

  /** The default of the `--max-errors` argument. */
  const DEFAULT_MAX_ERRORS: int := 100

  /** The fields of a keeper, as a value. */
  datatype KeeperState = KeeperState(
    errors: int,          // self.errors
    maxErrors: int,       // self.max_errors
    cageActions: bool,    // self.cage_actions
    cageAuctions: bool,   // self.cage_auctions, which check_cage writes instead of cage_actions
    terminated: bool,     // lifecycle.terminate() was called
    trace: seq<Action>    // every call and sleep issued so far
  )

  /** A keeper just constructed with the given error budget. */
  function Initial(maxErrors: int): KeeperState {
    KeeperState(0, maxErrors, false, false, false, [])
  }

  /** `check_cage` with the flag write the source evidently intends
      (`self.cage_actions = True`): once shutdown is seen, the keeper sleeps
      one second, marks itself done and facilitates. */
  function CheckCageStep(k: KeeperState, c: Chain): KeeperState {
    if !c.live && !k.cageActions then k.(cageActions := true, trace := k.trace + [Sleep(1)] + Script(c))
    else k
  }

  /** `process_block`: terminate once the error budget is spent, else check for shutdown. */
  function ProcessBlockStep(k: KeeperState, c: Chain): KeeperState {
    if k.errors >= k.maxErrors then k.(terminated := true) else CheckCageStep(k, c)
  }

  /** The state after the keeper has handled `cs`, one block after the other. */
  function RunBlocks(k: KeeperState, cs: seq<Chain>): KeeperState
    decreases |cs|
  {
    if cs == [] then k else RunBlocks(ProcessBlockStep(k, cs[0]), cs[1..])
  }

  /** The index of the first block on which `End.live()` is false, or `|cs|` if there is none. */
  function FirstShutdown(cs: seq<Chain>): (i: nat)
    ensures i <= |cs|
    ensures forall j :: 0 <= j < i ==> cs[j].live
    ensures i < |cs| ==> !cs[i].live
    decreases |cs|
  {
    if cs == [] || !cs[0].live then 0 else 1 + FirstShutdown(cs[1..])
  }

  /** No call of the keeper ever changes its error counter or its budget. */
  lemma {:induction false} BudgetConstant(k: KeeperState, cs: seq<Chain>)
    ensures RunBlocks(k, cs).errors == k.errors
    ensures RunBlocks(k, cs).maxErrors == k.maxErrors
    decreases |cs|
  {
    if cs != [] {
      BudgetConstant(ProcessBlockStep(k, cs[0]), cs[1..]);
    }
  }

  /** Every block of `cs` is before shutdown. */
  predicate AllLive(cs: seq<Chain>) {
    forall j :: 0 <= j < |cs| ==> cs[j].live
  }

  /** While `End.live()` holds, the keeper issues nothing and its flag stays as it was. */
  lemma {:induction false} LiveBlocksIssueNothing(k: KeeperState, cs: seq<Chain>)
    requires AllLive(cs)
    ensures RunBlocks(k, cs).trace == k.trace
    ensures RunBlocks(k, cs).cageActions == k.cageActions
    decreases |cs|
  {
    if cs != [] {
      var rest := cs[1..];
      assert AllLive(rest) by {
        forall j | 0 <= j < |rest| ensures rest[j].live {
          assert rest[j] == cs[j + 1];
        }
      }
      LiveBlocksIssueNothing(ProcessBlockStep(k, cs[0]), rest);
    }
  }

  /** With the budget spent, every block only terminates the keeper: nothing is issued. */
  lemma {:induction false} SpentBudgetTerminates(k: KeeperState, cs: seq<Chain>)
    requires k.errors >= k.maxErrors && cs != []
    ensures RunBlocks(k, cs) == k.(terminated := true)
    decreases |cs|
  {
    var k1 := ProcessBlockStep(k, cs[0]);
    if |cs| > 1 {
      SpentBudgetTerminates(k1, cs[1..]);
    } else {
      assert RunBlocks(k1, cs[1..]) == k1;
    }
  }

  /** A keeper with budget left that has not yet facilitated issues exactly one
      shutdown run, against the first non-live block, and nothing on the blocks
      before it or after it; it never terminates. */
  lemma {:induction false} FacilitatesFirstShutdown(k: KeeperState, cs: seq<Chain>)
    requires k.errors < k.maxErrors && !k.cageActions
    ensures var i := FirstShutdown(cs);
            RunBlocks(k, cs) ==
              if i < |cs| then k.(cageActions := true, trace := k.trace + [Sleep(1)] + Script(cs[i]))
              else k
    decreases |cs|
  {
    if cs != [] {
      if cs[0].live {
        assert ProcessBlockStep(k, cs[0]) == k;
        FacilitatesFirstShutdown(k, cs[1..]);
      } else {
        var k1 := ProcessBlockStep(k, cs[0]);
        FacilitatedStaysIdle(k1, cs[1..]);
      }
    }
  }

  /** Once the keeper has facilitated, later blocks change nothing. */
  lemma {:induction false} FacilitatedStaysIdle(k: KeeperState, cs: seq<Chain>)
    requires k.errors < k.maxErrors && k.cageActions
    ensures RunBlocks(k, cs) == k
    decreases |cs|
  {
    if cs != [] {
      assert ProcessBlockStep(k, cs[0]) == k;
      FacilitatedStaysIdle(k, cs[1..]);
    }
  }

  /** One shutdown run, with the sleep before it, thaws once. */
  lemma {:induction false} RunThawsOnce(t: seq<Action>, c: Chain)
    ensures Count(t + [Sleep(1)] + Script(c), Thaw) == Count(t, Thaw) + 1
  {
    var run := Script(c);
    FinalCalls(c, 0, 0);
    CountAppend([Sleep(1)], run, Thaw);
    AppendAssoc(t, [Sleep(1)], run);
    CountAppend(t, [Sleep(1)] + run, Thaw);
  }

  /** From construction with a positive budget, `End.thaw` is called once if
      some block is past shutdown, and never otherwise. */
  lemma {:induction false} ThawAtMostOnce(maxErrors: int, cs: seq<Chain>)
    requires maxErrors > 0
    ensures Count(RunBlocks(Initial(maxErrors), cs).trace, Thaw) ==
            if FirstShutdown(cs) < |cs| then 1 else 0
  {
    var i := FirstShutdown(cs);
    FacilitatesFirstShutdown(Initial(maxErrors), cs);
    if i < |cs| {
      RunThawsOnce([], cs[i]);
    }
  }

  /** `check_cage` as written: the flag is stored under the misspelt
      attribute `cage_auctions`, which nothing reads, so `cage_actions` stays
      false. */
  function CheckCageStepAsWritten(k: KeeperState, c: Chain): KeeperState {
    if !c.live && !k.cageActions then k.(cageAuctions := true, trace := k.trace + [Sleep(1)] + Script(c))
    else k
  }

  function ProcessBlockStepAsWritten(k: KeeperState, c: Chain): KeeperState {
    if k.errors >= k.maxErrors then k.(terminated := true) else CheckCageStepAsWritten(k, c)
  }

  function RunBlocksAsWritten(k: KeeperState, cs: seq<Chain>): KeeperState
    decreases |cs|
  {
    if cs == [] then k else RunBlocksAsWritten(ProcessBlockStepAsWritten(k, cs[0]), cs[1..])
  }

  /** As written, a non-live block with budget left facilitates and still leaves the flag unset. */
  lemma {:induction false} AsWrittenStep(k: KeeperState, c: Chain)
    requires k.errors < k.maxErrors && !k.cageActions && !c.live
    ensures var k1 := ProcessBlockStepAsWritten(k, c);
            k1.errors == k.errors && k1.maxErrors == k.maxErrors && !k1.cageActions &&
            Count(k1.trace, Thaw) == Count(k.trace, Thaw) + 1
  {
    RunThawsOnce(k.trace, c);
  }

  /** Every block of `cs` is past shutdown. */
  predicate AllShutdown(cs: seq<Chain>) {
    forall j :: 0 <= j < |cs| ==> !cs[j].live
  }

  /** As written, every non-live block facilitates the shutdown again: `End.thaw`
      is called once per block. */
  lemma {:induction false} AsWrittenThawsEveryBlock(k: KeeperState, cs: seq<Chain>)
    requires k.errors < k.maxErrors && !k.cageActions && AllShutdown(cs)
    ensures !RunBlocksAsWritten(k, cs).cageActions
    ensures Count(RunBlocksAsWritten(k, cs).trace, Thaw) == Count(k.trace, Thaw) + |cs|
  {
    AllShutdownNonLive(cs);
    AsWrittenThawsPerShutdownBlock(k, cs);
  }

  /** How many blocks of `cs` are past shutdown. */
  function NonLive(cs: seq<Chain>): (n: nat)
    ensures n <= |cs|
    decreases |cs|
  {
    if cs == [] then 0 else (if cs[0].live then 0 else 1) + NonLive(cs[1..])
  }

  /** When every block is past shutdown, every block counts. */
  lemma {:induction false} AllShutdownNonLive(cs: seq<Chain>)
    requires AllShutdown(cs)
    ensures NonLive(cs) == |cs|
    decreases |cs|
  {
    if cs != [] {
      var rest := cs[1..];
      assert AllShutdown(rest) by {
        forall j | 0 <= j < |rest| ensures !rest[j].live {
          assert rest[j] == cs[j + 1];
        }
      }
      AllShutdownNonLive(rest);
    }
  }

  /** As written, too, no block changes the error counter or the budget. */
  lemma {:induction false} BudgetConstantAsWritten(k: KeeperState, cs: seq<Chain>)
    ensures RunBlocksAsWritten(k, cs).errors == k.errors
    ensures RunBlocksAsWritten(k, cs).maxErrors == k.maxErrors
    decreases |cs|
  {
    if cs != [] {
      BudgetConstantAsWritten(ProcessBlockStepAsWritten(k, cs[0]), cs[1..]);
    }
  }

  /** As written, too, with the budget spent every block only terminates the keeper. */
  lemma {:induction false} SpentBudgetTerminatesAsWritten(k: KeeperState, cs: seq<Chain>)
    requires k.errors >= k.maxErrors && cs != []
    ensures RunBlocksAsWritten(k, cs) == k.(terminated := true)
    decreases |cs|
  {
    var k1 := ProcessBlockStepAsWritten(k, cs[0]);
    if |cs| > 1 {
      SpentBudgetTerminatesAsWritten(k1, cs[1..]);
    } else {
      assert RunBlocksAsWritten(k1, cs[1..]) == k1;
    }
  }

  /** What the keeper as written issues over `cs`: nothing on a live block, and
      the one-second sleep followed by a whole shutdown run on every other
      block, in block order. */
  function AsWrittenIssued(cs: seq<Chain>): seq<Action>
    decreases |cs|
  {
    if cs == [] then []
    else (if cs[0].live then [] else [Sleep(1)] + Script(cs[0])) + AsWrittenIssued(cs[1..])
  }

  /** One block of the keeper as written, with budget left and the flag unset. */
  lemma {:induction false} AsWrittenOne(k: KeeperState, c: Chain)
    requires k.errors < k.maxErrors && !k.cageActions
    ensures ProcessBlockStepAsWritten(k, c) ==
              if c.live then k
              else k.(cageAuctions := true, trace := k.trace + ([Sleep(1)] + Script(c)))
  {
    if !c.live {
      AppendAssoc(k.trace, [Sleep(1)], Script(c));
    }
  }

  /** The exact final state of the keeper as written over any blocks with budget
      left: it never terminates, `cage_actions` stays false, `cage_auctions` is
      set iff some block is past shutdown, and the trace grows by exactly
      `AsWrittenIssued(cs)`, so live blocks add nothing and every other block a
      whole shutdown run. */
  lemma {:induction false} AsWrittenRun(k: KeeperState, cs: seq<Chain>)
    requires k.errors < k.maxErrors && !k.cageActions
    ensures RunBlocksAsWritten(k, cs) ==
              k.(cageAuctions := k.cageAuctions || NonLive(cs) > 0, trace := k.trace + AsWrittenIssued(cs))
    decreases |cs|
  {
    if cs == [] {
      assert k.trace + [] == k.trace;
    } else {
      var c, rest := cs[0], cs[1..];
      var head := if c.live then [] else [Sleep(1)] + Script(c);
      var k1 := ProcessBlockStepAsWritten(k, c);
      AsWrittenOne(k, c);
      assert k1 == k.(cageAuctions := k.cageAuctions || !c.live, trace := k.trace + head);
      AsWrittenRun(k1, rest);
      assert AsWrittenIssued(cs) == head + AsWrittenIssued(rest);
      AppendAssoc(k.trace, head, AsWrittenIssued(rest));
    }
  }

  /** What the keeper as written issues holds one `End.thaw` per non-live block. */
  lemma {:induction false} AsWrittenIssuedThaws(cs: seq<Chain>)
    ensures Count(AsWrittenIssued(cs), Thaw) == NonLive(cs)
  {
    var k := Initial(1);
    AsWrittenRun(k, cs);
    AsWrittenThawsPerShutdownBlock(k, cs);
    assert k.trace + AsWrittenIssued(cs) == AsWrittenIssued(cs);
  }

  /** As written, too, blocks before shutdown issue nothing and leave both flags as they were. */
  lemma {:induction false} AsWrittenLiveIssueNothing(k: KeeperState, cs: seq<Chain>)
    requires AllLive(cs)
    ensures RunBlocksAsWritten(k, cs).trace == k.trace
    ensures RunBlocksAsWritten(k, cs).cageActions == k.cageActions
    ensures RunBlocksAsWritten(k, cs).cageAuctions == k.cageAuctions
    decreases |cs|
  {
    if cs != [] {
      var rest := cs[1..];
      assert AllLive(rest) by {
        forall j | 0 <= j < |rest| ensures rest[j].live {
          assert rest[j] == cs[j + 1];
        }
      }
      AsWrittenLiveIssueNothing(ProcessBlockStepAsWritten(k, cs[0]), rest);
    }
  }

  /** As written, over any sequence of blocks with budget left, the flag never
      closes and `End.thaw` is called once per non-live block. */
  lemma {:induction false} AsWrittenThawsPerShutdownBlock(k: KeeperState, cs: seq<Chain>)
    requires k.errors < k.maxErrors && !k.cageActions
    ensures !RunBlocksAsWritten(k, cs).cageActions
    ensures Count(RunBlocksAsWritten(k, cs).trace, Thaw) == Count(k.trace, Thaw) + NonLive(cs)
    decreases |cs|
  {
    if cs != [] {
      var c := cs[0];
      if c.live {
        assert ProcessBlockStepAsWritten(k, c) == k;
      } else {
        AsWrittenStep(k, c);
      }
      AsWrittenThawsPerShutdownBlock(ProcessBlockStepAsWritten(k, c), cs[1..]);
    }
  }

  /** Two blocks after shutdown, from construction with the default budget:
      the keeper as written thaws twice, as intended once. */
  lemma {:induction false} AsWrittenDoubleThaw(c: Chain)
    requires !c.live
    ensures Count(RunBlocksAsWritten(Initial(DEFAULT_MAX_ERRORS), [c, c]).trace, Thaw) == 2
    ensures Count(RunBlocks(Initial(DEFAULT_MAX_ERRORS), [c, c]).trace, Thaw) == 1
  {
    var cs := [c, c];
    assert AllShutdown(cs);
    AsWrittenThawsEveryBlock(Initial(DEFAULT_MAX_ERRORS), cs);
    assert FirstShutdown(cs) == 0;
    ThawAtMostOnce(DEFAULT_MAX_ERRORS, cs);
  }

  class CageKeeper {
    var errors: int
    var maxErrors: int
    var cageActions: bool
    var cageAuctions: bool
    var terminated: bool
    var trace: seq<Action>

    function State(): KeeperState
      reads this
    {
      KeeperState(errors, maxErrors, cageActions, cageAuctions, terminated, trace)
    }

    constructor(maxErrors: int)
      ensures State() == Initial(maxErrors)
    {
      this.maxErrors := maxErrors;
      errors := 0;
      cageActions := false;
      cageAuctions := false;
      terminated := false;
      trace := [];
    }

    /** `yank_auctions`: `Flapper.yank` for every flap bid, then `Flopper.yank` for every flop bid. */
    method YankAuctions(flapBids: seq<Auction>, flopBids: seq<Auction>)
      modifies this`trace
      ensures trace == old(trace) + Each(flapBids, YankFlapOf) + Each(flopBids, YankFlopOf)
    {
      for i := 0 to |flapBids|
        invariant trace == old(trace) + Each(flapBids[..i], YankFlapOf)
      {
        EachStep(flapBids, i, YankFlapOf);
        trace := trace + [YankFlap(flapBids[i].id)];
      }
      assert flapBids[..|flapBids|] == flapBids;
      ghost var t := trace;
      for i := 0 to |flopBids|
        invariant trace == t + Each(flopBids[..i], YankFlopOf)
      {
        EachStep(flopBids, i, YankFlopOf);
        trace := trace + [YankFlop(flopBids[i].id)];
      }
      assert flopBids[..|flopBids|] == flopBids;
    }

    /** One `transact()` per element, in order: a `for x in xs: contract.call(x)` loop. */
    method TransactEach<T>(xs: seq<T>, f: T -> Action)
      modifies this`trace
      ensures trace == old(trace) + Each(xs, f)
    {
      for i := 0 to |xs|
        invariant trace == old(trace) + Each(xs[..i], f)
      {
        EachStep(xs, i, f);
        trace := trace + [f(xs[i])];
      }
      assert xs[..|xs|] == xs;
    }

    /** `End.skip(ilk, bid.id)` for each auction of one collateral. */
    method SkipBids(ilk: Ilk, bids: seq<Auction>)
      modifies this`trace
      ensures trace == old(trace) + Each(bids, SkipOf(ilk.name))
    {
      for b := 0 to |bids|
        invariant trace == old(trace) + Each(bids[..b], SkipOf(ilk.name))
      {
        EachStep(bids, b, SkipOf(ilk.name));
        trace := trace + [Skip(ilk.name, bids[b].id)];
      }
      assert bids[..|bids|] == bids;
    }

    /** The skip loop of `facilitate_cage`: for each key of `flips`, re-read
        the ilk and skip each of its auctions. */
    method SkipFlips(c: Chain, flips: FlipDict)
      requires flips.Valid()
      modifies this`trace
      ensures trace == old(trace) + AllSkips(flips)
    {
      ghost var t0 := trace;
      for j := 0 to |flips.keys|
        invariant trace == t0 + SkipsUpTo(flips, j)
      {
        var key := flips.keys[j];
        var ilk := VatIlk(c, key);
        SkipsUpToStep(flips, j);
        AppendAssoc(t0, SkipsUpTo(flips, j), Each(flips.values[key], SkipOf(key)));
        SkipBids(ilk, flips.values[key]);
      }
    }

    /** `facilitate_cage`: the whole shutdown run against snapshot `c`. */
    method FacilitateCage(c: Chain)
      modifies this`trace
      ensures trace == old(trace) + Script(c)
    {
      var wait := c.wait;
      var ilks := CheckIlks(c).ilks;
      TransactEach(ilks, DripOf);
      var auctions := AllActiveAuctions(c);
      YankAuctions(auctions.flaps, auctions.flops);
      TransactEach(ilks, CageOf);
      SkipFlips(c, auctions.flips);
      var urns := GetUnderwaterUrns(c);
      TransactEach(urns, SkimOf);
      ghost var beforeHeal := trace + [Sleep(wait)];
      trace := trace + [Sleep(wait)];
      var dai := c.vowDai;
      if dai > 0 {
        trace := trace + [Heal(dai)];
      }
      ghost var heal := if dai > 0 then [Heal(dai)] else [];
      assert trace == beforeHeal + heal;
      trace := trace + [Thaw];
      TransactEach(ilks, FlowOf);
      AppendTen(old(trace), Each(ilks, DripOf), Each(auctions.flaps, YankFlapOf), Each(auctions.flops, YankFlopOf),
                Each(ilks, CageOf), AllSkips(auctions.flips), Each(urns, SkimOf), [Sleep(wait)], heal, [Thaw],
                Each(ilks, FlowOf));
    }

    /** `check_cage`: on the first block where `End.live()` is false, sleep,
        mark the shutdown as handled and facilitate it. */
    method CheckCage(c: Chain)
      modifies this`trace, this`cageActions
      ensures State() == CheckCageStep(old(State()), c)
    {
      var live := c.live;
      if !live && !cageActions {
        trace := trace + [Sleep(1)];
        if !live {
          cageActions := true;
          FacilitateCage(c);
        }
      }
    }

    /** `check_cage` exactly as written: the flag goes to `cage_auctions`. */
    method CheckCageAsWritten(c: Chain)
      modifies this`trace, this`cageAuctions
      ensures State() == CheckCageStepAsWritten(old(State()), c)
    {
      var live := c.live;
      if !live && !cageActions {
        trace := trace + [Sleep(1)];
        if !live {
          cageAuctions := true;
          FacilitateCage(c);
        }
      }
    }

    /** `process_block` over `check_cage` as written. */
    method ProcessBlockAsWritten(c: Chain)
      modifies this`trace, this`cageAuctions, this`terminated
      ensures State() == ProcessBlockStepAsWritten(old(State()), c)
    {
      if errors >= maxErrors {
        terminated := true;
      } else {
        CheckCageAsWritten(c);
      }
    }

    /** `process_block`: the keeper's callback for each new block. */
    method ProcessBlock(c: Chain)
      modifies this`trace, this`cageActions, this`terminated
      ensures State() == ProcessBlockStep(old(State()), c)
    {
      if errors >= maxErrors {
        terminated := true;
      } else {
        CheckCage(c);
      }
    }
  }
}
