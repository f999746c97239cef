# cage-keeper, modelled in Dafny

The cage keeper is a MakerDAO bot that watches the `End` contract of a
multi-collateral Dai deployment. It runs one callback per block. As long as
`End.live()` holds, the callback does nothing. Once emergency shutdown
("cage") has happened, it facilitates the shutdown: it drips every
collateral type (ilk), yanks the live surplus and debt auctions, cages every
ilk, skips the live collateral auctions, skims the underwater vaults (urns),
sits out the processing period, heals the Vow's Dai, calls `thaw` and flows
every ilk.

The model follows `src/cage_keeper.py`:

- Every chain read becomes a field of one immutable snapshot, `Dss.Chain`.
  Each field holds what that read returns at that point of a block.
- Every contract call and every sleep becomes a `Trace.Action`. It is
  appended to the keeper's `trace`.
- The keeper object is the class `Keeper.CageKeeper`. Its fields are
  `errors`, `maxErrors`, `cageActions`, `cageAuctions` (the misspelt
  attribute the source writes), `terminated` and `trace`.
- The list-building loops are methods with loop invariants, each proved
  equal to a specification function:
  - `cage_active_auctions` is `Auctions.CageActiveAuctions`;
  - `get_underwater_urns` is `Urns.GetUnderwaterUrns`;
  - `all_active_auctions` is `Auctions.AllActiveAuctions`.
- The call-issuing loops of `facilitate_cage` and `yank_auctions` are
  methods on the class. Their contracts state every action they append.
- `get_ilks` and `check_ilks` are comprehensions, so they are functions.
- `Facilitation.Script(c)` is everything one `facilitate_cage` issues against
  snapshot `c`. The coverage lemmas count each kind of action in it.
- A run of the keeper over a sequence of blocks comes in two versions:
  - `Keeper.RunBlocksAsWritten` is the source's `process_block` as written.
    Its shutdown check stores the flag under the misspelt `cage_auctions`
    (see Findings).
  - `Keeper.RunBlocks` is the corrected keeper. It stores the flag in
    `cage_actions`, as the comment at `src/cage_keeper.py:157` intends.
  - The class methods `ProcessBlock` and `CheckCage` follow the corrected
    keeper. `ProcessBlockAsWritten` and `CheckCageAsWritten` follow the
    source.
  - Lemmas tagged "(corrected keeper)" below are proved for `RunBlocks`.

Modules:

- `dss.dfy`: the snapshot.
- `trace.dfy`: actions, counting and step ordering.
- `ilks.dfy`: `get_ilks` and `check_ilks`.
- `auctions.dfy`: the auction scans.
- `urns.dfy`: the underwater filter.
- `facilitation.dfy`: the shutdown script and its coverage.
- `keeper.dfy`: the keeper object and its per-block behaviour.

The code has no confirmation-depth counter, no gate on the thaw time and no
reconciliation pass, so the model has none either. The only waits
are the one-second sleep in `check_cage` (`src/cage_keeper.py:154`) and the
sleep of `End.wait` seconds at `src/cage_keeper.py:201`.

## Model

| member | source | states |
|---|---|---|
| Auctions.CageActiveAuctions | src/cage_keeper.py:282-305 | the result holds a bid exactly when its id is in `1..kicks` and it is cage-active, carries the house's bid for that id, and has strictly increasing ids; so id 0 never appears |
| Auctions.ScanUpToSpec | src/cage_keeper.py:288-302 | the scan of ids `1..n` returns exactly the selected bids, with increasing ids |
| Auctions.ScanHasId | src/cage_keeper.py:288-302 | an id appears in the scan iff it is in `1..n` and its bid is cage-active: a non-zero high bidder, plus `bid < tab` for a Flipper |
| Auctions.ActiveHasId | src/cage_keeper.py:282-305 | an id is returned iff it is in `1..kicks` and its bid is cage-active |
| Auctions.ActiveIdsIncreasing | src/cage_keeper.py:285-302 | the returned ids are strictly increasing |
| Auctions.Put | src/cage_keeper.py:273 | a dictionary store keeps an existing key in place, appends a new one, and changes no other key |
| Auctions.FlipsUpToKeys | src/cage_keeper.py:270-273 | the flips dictionary's keys are the collateral ilk names, deduplicated in first-insertion order |
| Auctions.FlipsUpToValues | src/cage_keeper.py:270-273 | the last collateral of each name wins: its Flipper's active auctions are the value under its name |
| Auctions.FlipsKeysInOrder | src/cage_keeper.py:270-273 | with distinct collateral names, the keys are the names in collateral order |
| Auctions.FlipsValuesByCollateral | src/cage_keeper.py:270-273 | with distinct collateral names, each collateral's name maps to its Flipper's active auctions |
| Auctions.AllActiveAuctions | src/cage_keeper.py:267-279 | the loop builds exactly the flips dictionary, the flap list and the flop list of the specification |
| Ilks.DedupSpec | src/cage_keeper.py:224 | `dict.fromkeys` deduplication has no repeats, keeps exactly the names it was given, and keeps them in first-occurrence order |
| Ilks.DedupOfDistinct | src/cage_keeper.py:224 | deduplicating a list without repeats returns it unchanged |
| Ilks.GetIlks | src/cage_keeper.py:218-227 | `get_ilks`: no repeated names; a name is present iff it was frobbed; ordered by first frob; each ilk freshly read from the Vat |
| Ilks.CheckIlks | src/cage_keeper.py:231-245 | `check_ilks` always returns the deployment's ilks, whatever was frobbed; it warns iff the frobbed name set differs from the deployment's |
| Urns.UnderwatersSpec | src/cage_keeper.py:256-260 | an urn is kept iff it is in the input and `art * rate > ink * spot` |
| Urns.GetUnderwaterUrns | src/cage_keeper.py:249-262 | the loop returns the underwater urns in order; an urn is in the result iff it is one of the snapshot's urns, with its ilk re-read, and is underwater |
| Urns.EqualityIsNotUnderwater | src/cage_keeper.py:259 | an urn whose debt equals its collateral value exactly is never selected |
| Urns.StaleParamsIgnored | src/cage_keeper.py:258 | only the urn's ilk name, address, art and ink matter, because rate and spot are re-read from the Vat |
| Urns.UnderwatersSkimsDistinct | src/cage_keeper.py:252-260 | selecting urns keeps distinct (ilk, address) keys distinct |
| Urns.UnderwaterSkim | src/cage_keeper.py:252-260 | an urn `(ilk, address)` is returned iff some snapshot urn with that key is underwater at the current parameters |
| Facilitation.ScriptSteps | src/cage_keeper.py:162-213 | the script is its ten steps, issued one after the other |
| Facilitation.StepsInPhase | src/cage_keeper.py:162-213 | each step issues only calls of its own kind |
| Facilitation.ScriptOrdered | src/cage_keeper.py:162-213 | no call of a later step precedes a call of an earlier step: drips, flap yanks, flop yanks, cages, skips, skims, sleep, heal, thaw, flows |
| Facilitation.IlkCoverage | src/cage_keeper.py:172-213 | every deployment ilk is dripped, caged and flowed exactly once; no other ilk is |
| Facilitation.YankCoverage | src/cage_keeper.py:177-180 | each active flap or flop auction id is yanked exactly once; no other id is yanked |
| Facilitation.SkipCoverage | src/cage_keeper.py:186-190 | `End.skip(ilk, id)` is called exactly once when some collateral of that ilk has an active Flipper auction `id`; otherwise it is never called |
| Facilitation.ActiveFlipBid | src/cage_keeper.py:288-294 | in a well-formed deployment, a flip auction is active iff its high bidder is not the zero address and its bid is below its tab |
| Facilitation.SkimCoverage | src/cage_keeper.py:192-197 | `End.skim(ilk, urn)` is called exactly once when that urn is underwater; otherwise it is never called |
| Facilitation.FinalCalls | src/cage_keeper.py:199-209 | the run sleeps exactly `End.wait` seconds once, heals exactly the Vow's dai once if it is positive and never otherwise, and thaws exactly once |
| Trace.FlattenOrdered | src/cage_keeper.py:162-213 | steps that each hold one kind of call, issued in kind order, give an ordered trace |
| Trace.FlattenCount | src/cage_keeper.py:162-213 | in such a trace, each call occurs as often as in the step of its kind |
| Keeper.CageKeeper.constructor | src/cage_keeper.py:99-102 | a new keeper has no errors, the given budget, no flags set and an empty trace |
| Keeper.CageKeeper.YankAuctions | src/cage_keeper.py:308-314 | appends one flap yank per flap bid, then one flop yank per flop bid, in order |
| Keeper.CageKeeper.SkipFlips | src/cage_keeper.py:186-190 | appends, key by key, one skip per auction under that key |
| Keeper.CageKeeper.FacilitateCage | src/cage_keeper.py:162-213 | appends exactly the shutdown script of the snapshot |
| Keeper.CageKeeper.CheckCage | src/cage_keeper.py:147-158 | if not live and not yet facilitated: sets the flag, sleeps one second and facilitates; otherwise changes nothing (the corrected flag write) |
| Keeper.CageKeeper.ProcessBlock | src/cage_keeper.py:137-142 | terminates once `errors >= max_errors`; otherwise runs the shutdown check (corrected keeper) |
| Keeper.CageKeeper.CheckCageAsWritten | src/cage_keeper.py:147-158 | `check_cage` as written: the flag goes to `cage_auctions` and `cage_actions` stays unchanged |
| Keeper.CageKeeper.ProcessBlockAsWritten | src/cage_keeper.py:137-158 | `process_block` over the as-written check |
| Keeper.FirstShutdown | src/cage_keeper.py:150-152 | gives the first block whose `End.live()` is false; every block before it is live |
| Keeper.BudgetConstant | src/cage_keeper.py:137-158 | no block changes `errors` or `max_errors` (corrected keeper) |
| Keeper.LiveBlocksIssueNothing | src/cage_keeper.py:150-152 | while the system is live, the keeper issues nothing and its flag stays as it was (corrected keeper) |
| Keeper.SpentBudgetTerminates | src/cage_keeper.py:139-140 | with the budget spent, every block only terminates the keeper and no call is issued (corrected keeper) |
| Keeper.BudgetConstantAsWritten | src/cage_keeper.py:137-158 | as written, too, no block changes `errors` or `max_errors` |
| Keeper.SpentBudgetTerminatesAsWritten | src/cage_keeper.py:139-140 | as written, too, with the budget spent every block only terminates the keeper and no call is issued |
| Keeper.FacilitatesFirstShutdown | src/cage_keeper.py:137-158 | with budget left, the keeper runs exactly one sleep and shutdown script, against the first non-live block, and does nothing on any other block (corrected keeper) |
| Keeper.FacilitatedStaysIdle | src/cage_keeper.py:152 | once facilitated, later blocks change nothing (corrected keeper) |
| Keeper.ThawAtMostOnce | src/cage_keeper.py:147-209 | from construction with a positive budget, `End.thaw` is called once if some block is past shutdown and never otherwise (corrected keeper) |
| Keeper.AsWrittenThawsEveryBlock | src/cage_keeper.py:152-158 | as written, each non-live block facilitates again and thaws once more |
| Keeper.NonLive | src/cage_keeper.py:150-152 | counts the blocks on which `End.live()` is false; at most the number of blocks |
| Keeper.AsWrittenRun | src/cage_keeper.py:137-158 | the exact final state of the keeper as written over any blocks with budget left: it never terminates, `cage_actions` stays false, `cage_auctions` is set iff some block is non-live, and the trace grows by exactly a sleep and a shutdown run per non-live block, in block order, and by nothing on live blocks |
| Keeper.AsWrittenLiveIssueNothing | src/cage_keeper.py:150-152 | as written, blocks before shutdown issue nothing and leave both flags as they were |
| Keeper.AsWrittenThawsPerShutdownBlock | src/cage_keeper.py:137-158 | as written, over any blocks with budget left, `cage_actions` never becomes true and `End.thaw` is called once per non-live block |
| Keeper.AsWrittenIssuedThaws | src/cage_keeper.py:152-158 | what the keeper as written issues over a run holds exactly one `End.thaw` per non-live block |
| Keeper.AsWrittenDoubleThaw | src/cage_keeper.py:152-158 | two non-live blocks after construction: as written the keeper thaws twice, as intended once |

## Left out

- Gas pricing (`gas_price` and `src/gas_factory.py`) is left out. It is float arithmetic over an external price feed; calls carry no gas price here.
- Bootstrap is left out because it is I/O: argument parsing, the web3 provider, key registration, reading the deployment file and logging configuration. `--max-errors` appears only as the constructor's argument and its default `DEFAULT_MAX_ERRORS`.
- `checkDeployment` is left out because it only logs.
- The `Lifecycle` block loop and its signal handling are left out. `Keeper.RunBlocksAsWritten` stands for calling `process_block` once per block, and `Keeper.RunBlocks` for the same loop over the corrected keeper.
- Log messages are left out, and so is `print(wait)`. The only effect recorded for `check_ilks`'s warning is the `warned` flag.
- Time is not modelled. A sleep is recorded as a `Sleep(seconds)` action and does not pass.
- What the contract calls do on chain (drip, yank, cage, skip, skim, heal, thaw, flow) is not modelled; each is an opaque action. Consequently the snapshot does not change during a tick. Each read returns the snapshot's value, even one that an earlier call in the same run would have changed on chain.
- pymaker's `Wad`/`Ray`/`Rad` fixed-point types are treated as natural numbers, and the underwater test compares exact products.
- Event-log replay is taken as input: `Vat.past_frobs` is the `frobIlks` list and `Vat.urns` is the flattened `urns` list. The block-number arithmetic that picks the replay window is left out.
- Failed transactions and exceptions are not modelled. `Keeper.BudgetConstant` is stated as the source has it: nothing in `src/cage_keeper.py` increments `errors`.
- Urns.StaleParamsIgnored: stated over two snapshots that agree on the Vat's parameters and on each urn's key, art and ink; it does not cover a reordering of the urns.
- Facilitation.IlkCoverage, Facilitation.SkipCoverage, Facilitation.SkimCoverage: they require `Dss.WellFormed`, which holds for the source's dictionaries. It gives distinct collateral names and distinct (ilk, address) urn keys. It also makes every collateral's auction house a Flipper and `flapper`/`flopper` the houses they are named.

## Findings

| source | as written | input that shows it | evidently intended | confidence | as-written member | corrected member |
|---|---|---|---|---|---|---|
| src/cage_keeper.py:157 | `self.cage_auctions = True` writes a misspelt attribute, so `cage_actions` stays false and the guard at line 152 never trips | a freshly constructed keeper given two blocks with `End.live()` false: it sleeps, facilitates and calls `End.thaw` on both | `self.cage_actions = True`, which the trailing comment says is there so that facilitation is not run again | high, not executed | Keeper.AsWrittenRun | Keeper.FacilitatesFirstShutdown |
