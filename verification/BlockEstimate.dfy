/** Block-wise estimates of the per-message campaign and the cell means they stand for. */
module BlockEstimate {
  import opened Prelude
  import opened Ordering
  import opened SignFlip

  /** One accepted run; the outcome is missing when it could not be estimated. */
  datatype Run = Run(block: int, qos: Qos, loss: int, outcome: Option<real>)

  datatype Cells = Cells(reliable: seq<real>, bestEffort: seq<real>)

  datatype Estimate =
    | Estimate(observed: real, p: real, effects: seq<real>)
    | IncompleteBlocks
    | UnbalancedBlock(block: int)

  // ---------- which outcomes belong where ----------

  /** What a run adds to a cell. */
  function Contribution(run: Run, qos: Qos, loss: int): seq<real> {
    if run.qos == qos && run.loss == loss && run.outcome.Some? then [run.outcome.value] else []
  }

  function BlockContribution(run: Run, block: int, qos: Qos, loss: int): seq<real> {
    if run.block == block then Contribution(run, qos, loss) else []
  }

  /** The outcomes of one cell, in run order. */
  function CellValues(runs: seq<Run>, qos: Qos, loss: int): seq<real> {
    if runs == [] then []
    else
      var n := |runs| - 1;
      CellValues(runs[..n], qos, loss) + Contribution(runs[n], qos, loss)
  }

  /** The outcomes of one cell within one block, in run order. */
  function BlockValues(runs: seq<Run>, block: int, qos: Qos, loss: int): seq<real> {
    if runs == [] then []
    else
      var n := |runs| - 1;
      BlockValues(runs[..n], block, qos, loss) + BlockContribution(runs[n], block, qos, loss)
  }

  function Outcome(): Run -> real {
    (run: Run) => if run.outcome.Some? then run.outcome.value else 0.0
  }

  function InCell(qos: Qos, loss: int): Run -> bool {
    (run: Run) => run.qos == qos && run.loss == loss && run.outcome.Some?
  }

  function InBlockCell(block: int, qos: Qos, loss: int): Run -> bool {
    (run: Run) => run.block == block && run.qos == qos && run.loss == loss && run.outcome.Some?
  }

  /** A cell's values are the outcomes, in run order, of the runs with its QoS and loss that could be estimated. */
  lemma {:induction false} CellValuesAre(runs: seq<Run>, qos: Qos, loss: int)
    ensures CellValues(runs, qos, loss) == Map(Filter(runs, InCell(qos, loss)), Outcome())
  {
    if runs != [] {
      var n := |runs| - 1;
      CellValuesAre(runs[..n], qos, loss);
      assert runs == runs[..n] + [runs[n]];
      FilterSnoc(runs[..n], runs[n], InCell(qos, loss));
      MapConcat(Filter(runs[..n], InCell(qos, loss)), if InCell(qos, loss)(runs[n]) then [runs[n]] else [], Outcome());
    }
  }

  /** Those of one block are the outcomes of the runs that are in that block as well. */
  lemma {:induction false} BlockValuesAre(runs: seq<Run>, block: int, qos: Qos, loss: int)
    ensures BlockValues(runs, block, qos, loss) == Map(Filter(runs, InBlockCell(block, qos, loss)), Outcome())
  {
    if runs != [] {
      var n := |runs| - 1;
      var p := InBlockCell(block, qos, loss);
      BlockValuesAre(runs[..n], block, qos, loss);
      assert runs == runs[..n] + [runs[n]];
      FilterSnoc(runs[..n], runs[n], p);
      MapConcat(Filter(runs[..n], p), if p(runs[n]) then [runs[n]] else [], Outcome());
    }
  }

  lemma {:induction false} BlockValuesSnoc(runs: seq<Run>, run: Run, block: int, qos: Qos, loss: int)
    ensures BlockValues(runs + [run], block, qos, loss)
         == BlockValues(runs, block, qos, loss) + BlockContribution(run, block, qos, loss)
  {
  }

  function SeenBlocks(runs: seq<Run>, loss: int): set<int> {
    set run | run in runs && run.loss == loss && run.outcome.Some? :: run.block
  }

  predicate Balanced(runs: seq<Run>, block: int, loss: int, perBlock: nat) {
    && |BlockValues(runs, block, Reliable, loss)| == perBlock
    && |BlockValues(runs, block, BestEffort, loss)| == perBlock
  }

  function BlockEffect(runs: seq<Run>, block: int, loss: int): real
    requires BlockValues(runs, block, Reliable, loss) != [] && BlockValues(runs, block, BestEffort, loss) != []
  {
    Mean(BlockValues(runs, block, Reliable, loss)) - Mean(BlockValues(runs, block, BestEffort, loss))
  }

  /** range(1, blocks + 1) as a set. */
  function BlockNumbers(blocks: nat): (numbers: set<int>)
    ensures forall b :: b in numbers <==> 1 <= b <= blocks
  {
    if blocks == 0 then {} else BlockNumbers(blocks - 1) + {blocks}
  }

  /** Every block is balanced and the effects are its differences of cell means. */
  predicate EffectsOf(runs: seq<Run>, loss: int, blocks: nat, perBlock: nat, effects: seq<real>)
    requires perBlock > 0
  {
    && |effects| == blocks
    && forall b :: 1 <= b <= blocks ==>
      Balanced(runs, b, loss, perBlock) && effects[b - 1] == BlockEffect(runs, b, loss)
  }

  // ---------- the block-wise analysis ----------

  method GroupByBlock(runs: seq<Run>, loss: int) returns (byBlock: map<int, Cells>)
    ensures byBlock.Keys == SeenBlocks(runs, loss)
    ensures forall b :: b in byBlock ==>
      byBlock[b] == Cells(BlockValues(runs, b, Reliable, loss), BlockValues(runs, b, BestEffort, loss))
  {
    hide BlockValues, SeenBlocks;
    byBlock := map[];
    NothingSeen(loss);
    for i := 0 to |runs|
      invariant byBlock.Keys == SeenBlocks(runs[..i], loss)
      invariant forall b :: b in byBlock ==>
        byBlock[b] == Cells(BlockValues(runs[..i], b, Reliable, loss), BlockValues(runs[..i], b, BestEffort, loss))
    {
      var run := runs[i];
      assert runs[..i + 1] == runs[..i] + [run];
      SeenBlocksSnoc(runs[..i], run, loss);
      forall b ensures
        && BlockValues(runs[..i + 1], b, Reliable, loss)
           == BlockValues(runs[..i], b, Reliable, loss) + BlockContribution(run, b, Reliable, loss)
        && BlockValues(runs[..i + 1], b, BestEffort, loss)
           == BlockValues(runs[..i], b, BestEffort, loss) + BlockContribution(run, b, BestEffort, loss)
      {
        BlockValuesSnoc(runs[..i], run, b, Reliable, loss);
        BlockValuesSnoc(runs[..i], run, b, BestEffort, loss);
      }
      if run.block !in byBlock {
        UnseenBlockIsEmpty(runs[..i], run.block, Reliable, loss);
        UnseenBlockIsEmpty(runs[..i], run.block, BestEffort, loss);
      }
      if run.loss == loss && run.outcome.Some? {
        var cells := if run.block in byBlock then byBlock[run.block] else Cells([], []);
        cells := match run.qos
          case Reliable => cells.(reliable := cells.reliable + [run.outcome.value])
          case BestEffort => cells.(bestEffort := cells.bestEffort + [run.outcome.value]);
        byBlock := byBlock[run.block := cells];
      }
    }
    assert runs[..|runs|] == runs;
  }

  lemma NothingSeen(loss: int)
    ensures SeenBlocks([], loss) == {}
  {
  }

  lemma SeenBlocksSnoc(runs: seq<Run>, run: Run, loss: int)
    ensures SeenBlocks(runs + [run], loss)
         == SeenBlocks(runs, loss) + if run.loss == loss && run.outcome.Some? then {run.block} else {}
  {
  }

  lemma {:induction false} UnseenBlockIsEmpty(runs: seq<Run>, block: int, qos: Qos, loss: int)
    requires block !in SeenBlocks(runs, loss)
    ensures BlockValues(runs, block, qos, loss) == []
  {
    if runs != [] {
      var n := |runs| - 1;
      assert runs[n] in runs;
      assert forall run :: run in runs[..n] ==> run in runs;
      UnseenBlockIsEmpty(runs[..n], block, qos, loss);
    }
  }

  /**
   * Estimate, exact p-value and block effects at one target loss, for a design of the
   * given number of blocks and runs per block and cell.
   */
  method ExactBlockSignFlip(runs: seq<Run>, loss: int, blocks: nat, perBlock: nat, tolerance: real)
    returns (r: Estimate)
    requires blocks > 0 && perBlock > 0
    ensures r == IncompleteBlocks <==> SeenBlocks(runs, loss) != BlockNumbers(blocks)
    ensures r.UnbalancedBlock? ==> 1 <= r.block <= blocks && !Balanced(runs, r.block, loss, perBlock)
    ensures r.UnbalancedBlock? ==> forall b :: 1 <= b < r.block ==> Balanced(runs, b, loss, perBlock)
    ensures r.Estimate? ==> EffectsOf(runs, loss, blocks, perBlock, r.effects)
    ensures r.Estimate? ==> r.effects != [] && r.observed == Mean(r.effects) && r.p == PValue(r.effects, tolerance)
  {
    hide Mean, PValue;
    var byBlock := GroupByBlock(runs, loss);
    if byBlock.Keys != BlockNumbers(blocks) {
      return IncompleteBlocks;
    }
    var effects: seq<real> := [];
    for block := 1 to blocks + 1
      invariant EffectsOf(runs, loss, block - 1, perBlock, effects)
    {
      assert block in BlockNumbers(blocks);
      var cells := byBlock[block];
      if |cells.reliable| != perBlock || |cells.bestEffort| != perBlock {
        return UnbalancedBlock(block);
      }
      effects := effects + [Mean(cells.reliable) - Mean(cells.bestEffort)];
    }
    var observed, p := BlockedSignFlip(effects, tolerance);
    r := Estimate(observed.value, p, effects);
  }

  // ---------- agreement with the cell means ----------

  /** The outcomes of one cell, block after block. */
  function Regrouped(runs: seq<Run>, blocks: nat, qos: Qos, loss: int): seq<real> {
    if blocks == 0 then []
    else Regrouped(runs, blocks - 1, qos, loss) + BlockValues(runs, blocks, qos, loss)
  }

  lemma {:induction false} RegroupedStep(runs: seq<Run>, run: Run, blocks: nat, qos: Qos, loss: int)
    ensures multiset(Regrouped(runs + [run], blocks, qos, loss))
         == multiset(Regrouped(runs, blocks, qos, loss))
          + if 1 <= run.block <= blocks then multiset(Contribution(run, qos, loss)) else multiset{}
  {
    hide BlockValues;
    if blocks > 0 {
      hide Contribution;
      RegroupedStep(runs, run, blocks - 1, qos, loss);
      BlockValuesSnoc(runs, run, blocks, qos, loss);
      var before, after := Regrouped(runs, blocks - 1, qos, loss), Regrouped(runs + [run], blocks - 1, qos, loss);
      assert Regrouped(runs + [run], blocks, qos, loss)
          == after + (BlockValues(runs, blocks, qos, loss) + BlockContribution(run, blocks, qos, loss));
    }
  }

  /** Walking the runs block by block meets every outcome of the cell exactly once. */
  lemma {:induction false} RegroupedIsCell(runs: seq<Run>, blocks: nat, qos: Qos, loss: int)
    requires SeenBlocks(runs, loss) <= BlockNumbers(blocks)
    ensures multiset(Regrouped(runs, blocks, qos, loss)) == multiset(CellValues(runs, qos, loss))
  {
    if runs == [] {
      RegroupedNothing(blocks, qos, loss);
    } else {
      hide Regrouped, SeenBlocks;
      var n := |runs| - 1;
      assert runs == runs[..n] + [runs[n]];
      SeenBlocksSnoc(runs[..n], runs[n], loss);
      RegroupedIsCell(runs[..n], blocks, qos, loss);
      RegroupedStep(runs[..n], runs[n], blocks, qos, loss);
    }
  }

  lemma {:induction false} RegroupedNothing(blocks: nat, qos: Qos, loss: int)
    ensures Regrouped([], blocks, qos, loss) == []
  {
    if blocks > 0 {
      RegroupedNothing(blocks - 1, qos, loss);
    }
  }

  function Product(a: real, b: real): real {
    a * b
  }

  lemma {:induction false} MeanTimesLength(xs: seq<real>)
    requires xs != []
    ensures Sum(xs) == Product(|xs| as real, Mean(xs))
  {
  }

  lemma {:induction false} RegroupedSum(runs: seq<Run>, blocks: nat, perBlock: nat, loss: int, effects: seq<real>)
    requires perBlock > 0 && EffectsOf(runs, loss, blocks, perBlock, effects)
    ensures Sum(Regrouped(runs, blocks, Reliable, loss)) - Sum(Regrouped(runs, blocks, BestEffort, loss))
         == Product(perBlock as real, Sum(effects))
    ensures |Regrouped(runs, blocks, Reliable, loss)| == blocks * perBlock ==
        |Regrouped(runs, blocks, BestEffort, loss)|
  {
    hide Mean, Sum, Product, BlockValues;
    if blocks == 0 {
      EmptySums(perBlock as real);
      assert effects == [] && Sum(effects) == 0.0;
      assert Regrouped(runs, 0, Reliable, loss) == [] == Regrouped(runs, 0, BestEffort, loss);
      assert blocks * perBlock == 0;
    } else {
      var front := effects[..blocks - 1];
      RegroupedSum(runs, blocks - 1, perBlock, loss, front);
      var reliable := BlockValues(runs, blocks, Reliable, loss);
      var bestEffort := BlockValues(runs, blocks, BestEffort, loss);
      assert Balanced(runs, blocks, loss, perBlock);
      SumConcat(Regrouped(runs, blocks - 1, Reliable, loss), reliable);
      SumConcat(Regrouped(runs, blocks - 1, BestEffort, loss), bestEffort);
      assert effects == front + [effects[blocks - 1]];
      SumSnoc(front, effects[blocks - 1]);
      MeanTimesLength(reliable);
      MeanTimesLength(bestEffort);
      Distribute(perBlock as real, Sum(front), Mean(reliable), Mean(bestEffort));
      assert blocks * perBlock == (blocks - 1) * perBlock + perBlock;
    }
  }

  lemma EmptySums(m: real)
    ensures Sum([]) == 0.0 && Product(m, 0.0) == 0.0
  {
  }

  lemma Distribute(m: real, total: real, a: real, b: real)
    ensures Product(m, total + (a - b)) == Product(m, total) + Product(m, a) - Product(m, b)
  {
  }

  lemma DivideThrough(total: real, right: real, left: real, blocks: nat, perBlock: nat)
    requires blocks > 0 && perBlock > 0
    requires left - right == Product(perBlock as real, total)
    ensures total / blocks as real == left / (blocks * perBlock) as real - right / (blocks * perBlock) as real
  {
  }

  /**
   * For a balanced design of any size the mean block effect is the difference of the two
   * cell means, so the randomization estimate is the centre of the bootstrap contrast.
   */
  lemma {:induction false} EstimateIsMeanDifference(runs: seq<Run>, loss: int, blocks: nat, perBlock: nat,
                                                    effects: seq<real>)
    requires blocks > 0 && perBlock > 0 && EffectsOf(runs, loss, blocks, perBlock, effects)
    requires SeenBlocks(runs, loss) == BlockNumbers(blocks)
    ensures |CellValues(runs, Reliable, loss)| == blocks * perBlock == |CellValues(runs, BestEffort, loss)|
    ensures CellValues(runs, Reliable, loss) != [] && CellValues(runs, BestEffort, loss) != []
    ensures Mean(effects) == Mean(CellValues(runs, Reliable, loss)) - Mean(CellValues(runs, BestEffort, loss))
  {
    hide Product, Sum, CellValues, Regrouped;
    var reliable, bestEffort := CellValues(runs, Reliable, loss), CellValues(runs, BestEffort, loss);
    RegroupedIsCell(runs, blocks, Reliable, loss);
    RegroupedIsCell(runs, blocks, BestEffort, loss);
    RegroupedSum(runs, blocks, perBlock, loss, effects);
    SumOfMultiset(Regrouped(runs, blocks, Reliable, loss), reliable);
    SumOfMultiset(Regrouped(runs, blocks, BestEffort, loss), bestEffort);
    assert blocks * perBlock > 0;
    DivideThrough(Sum(effects), Sum(bestEffort), Sum(reliable), blocks, perBlock);
  }

  // ---------- the bootstrap's own grouping ----------

  datatype Grouping = Groups(cells: map<(Qos, int), seq<real>>) | NotEstimable(qos: Qos, loss: int)

  /** Every cell with an estimable outcome, with its outcomes in run order. */
  ghost predicate IsGrouping(grouped: map<(Qos, int), seq<real>>, runs: seq<Run>) {
    && (forall c :: c in grouped ==> grouped[c] == CellValues(runs, c.0, c.1))
    && (forall qos, loss :: (qos, loss) in grouped <==> CellValues(runs, qos, loss) != [])
  }

  lemma GroupingSnoc(grouped: map<(Qos, int), seq<real>>, runs: seq<Run>, run: Run)
    requires IsGrouping(grouped, runs)
    ensures run.outcome == None ==> IsGrouping(grouped, runs + [run])
    ensures run.outcome.Some? ==>
      var cell := (run.qos, run.loss);
      var values := if cell in grouped then grouped[cell] else [];
      IsGrouping(grouped[cell := values + [run.outcome.value]], runs + [run])
  {
    assert (runs + [run])[..|runs|] == runs;
  }

  /** Some cell whose number of outcomes is not the expected one, if there is any. */
  method FindUnbalanced(grouped: map<(Qos, int), seq<real>>, perCell: nat) returns (bad: Option<(Qos, int)>)
    ensures bad.None? <==> forall c :: c in grouped ==> |grouped[c]| == perCell
    ensures bad.Some? ==> bad.value in grouped && |grouped[bad.value]| != perCell
  {
    var pending := grouped.Keys;
    while pending != {}
      invariant pending <= grouped.Keys
      invariant forall c :: c in grouped.Keys - pending ==> |grouped[c]| == perCell
      decreases |pending|
    {
      var cell :| cell in pending;
      if |grouped[cell]| != perCell { return Some(cell); }
      pending := pending - {cell};
    }
    return None;
  }

  /** Group the estimable outcomes by cell and insist on the same number in every cell. */
  method GroupCells(runs: seq<Run>, perCell: nat) returns (r: Grouping)
    ensures r.Groups? ==> IsGrouping(r.cells, runs) && forall c :: c in r.cells ==> |r.cells[c]| == perCell
    ensures r.NotEstimable? ==> var values := CellValues(runs, r.qos, r.loss); values != [] && |values| != perCell
  {
    var grouped: map<(Qos, int), seq<real>> := map[];
    assert IsGrouping(grouped, runs[..0]);
    hide IsGrouping, CellValues;
    for i := 0 to |runs|
      invariant IsGrouping(grouped, runs[..i])
    {
      var run := runs[i];
      GroupingSnoc(grouped, runs[..i], run);
      assert runs[..i + 1] == runs[..i] + [run];
      if run.outcome.Some? {
        var cell := (run.qos, run.loss);
        grouped := grouped[cell := (if cell in grouped then grouped[cell] else []) + [run.outcome.value]];
      }
    }
    assert runs[..|runs|] == runs;
    var bad := FindUnbalanced(grouped, perCell);
    if bad.Some? {
      GroupedCell(grouped, runs, bad.value);
      return NotEstimable(bad.value.0, bad.value.1);
    }
    r := Groups(grouped);
  }

  lemma {:induction false} GroupedCell(grouped: map<(Qos, int), seq<real>>, runs: seq<Run>, cell: (Qos, int))
    requires IsGrouping(grouped, runs) && cell in grouped
    ensures grouped[cell] == CellValues(runs, cell.0, cell.1) != []
  {
  }
}
