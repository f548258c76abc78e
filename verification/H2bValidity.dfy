/** What the schedule check accepts, said without sorting and block by block. */
module H2bValidity {
  import opened Prelude
  import opened Ordering
  import opened H2bDesign

  /** No two rows of the list are related this way. */
  ghost predicate NoTwo(rows: seq<Row>, same: (Row, Row) -> bool) {
    forall i, j :: 0 <= i < j < |rows| ==> !same(rows[i], rows[j])
  }

  function SameVisit(): (Row, Row) -> bool {
    (r: Row, s: Row) => r.block == s.block && r.visit == s.visit
  }

  function SameCell(): (Row, Row) -> bool {
    (r: Row, s: Row) => r.block == s.block && r.id == s.id
  }

  /** A row that the design may hold: its block and visit in range, a known cell, and the three runs of its block. */
  predicate IsProper(r: Row) {
    && 1 <= r.block <= 10 && 1 <= r.visit <= 10 && r.id.loss in {0, 1, 5, 10, 15}
    && r.runStart == 3 * r.block - 2 && r.runEnd == 3 * r.block
  }

  /** Two blocks have different cells at the same visit. */
  ghost predicate SomeOrdersDiffer(schedule: seq<Row>) {
    exists r, s :: r in schedule && s in schedule && r.visit == s.visit && r.id != s.id
  }

  /** A hundred proper rows, no visit and no cell twice in a block, and not all blocks in the same order. */
  ghost predicate IsDesign(schedule: seq<Row>) {
    && |schedule| == 100
    && (forall r :: r in schedule ==> IsProper(r))
    && NoTwo(schedule, SameVisit()) && NoTwo(schedule, SameCell())
    && SomeOrdersDiffer(schedule)
  }

  /** The cells are both delivery modes at each of the five losses. */
  lemma CellsAre(c: Cell)
    ensures c in CELLS <==> c.loss in {0, 1, 5, 10, 15}
  {
    if c.loss in {0, 1, 5, 10, 15} {
      assert CELLS[Place(c)] == c;
    }
  }

  // ---------- valid schedules are designs ----------

  lemma BlockRowsHold(schedule: seq<Row>, block: int)
    ensures forall r :: r in BlockRows(schedule, block) <==> r in schedule && r.block == block
  {
    hide SortBy;
    SameElements(BlockRows(schedule, block), Filter(schedule, InBlock(block)));
  }

  lemma ValidRowIsProper(schedule: seq<Row>, r: Row)
    requires IsValid(schedule) && r in schedule
    ensures IsProper(r)
    ensures var rows := BlockRows(schedule, r.block); 1 <= r.visit <= |rows| && rows[r.visit - 1] == r
  {
    hide BlockRows, CELLS;
    ValidRowsAreInBlocks(schedule);
    assert ValidBlock(schedule, r.block);
    var rows := BlockRows(schedule, r.block);
    BlockRowsHold(schedule, r.block);
    var k :| 0 <= k < |rows| && rows[k] == r;
    assert Ids(rows)[k] in Elements(Ids(rows));
    CellsAre(r.id);
  }

  function HasVisit(visit: int): Row -> bool {
    (r: Row) => r.visit == visit
  }

  lemma {:induction false} NumberedOnce(rows: seq<Row>, visit: int)
    requires NumberedFromOne(rows)
    ensures Count(rows, HasVisit(visit)) == if 1 <= visit <= |rows| then 1 else 0
  {
    if rows != [] {
      var n := |rows| - 1;
      NumberedOnce(rows[..n], visit);
      assert rows == rows[..n] + [rows[n]];
      FilterSnoc(rows[..n], rows[n], HasVisit(visit));
    }
  }

  lemma ValidVisitOnce(schedule: seq<Row>, i: nat, j: nat)
    requires IsValid(schedule) && i < j < |schedule|
    ensures !SameVisit()(schedule[i], schedule[j])
  {
    hide Filter, SortBy, CELLS, IsValid;
    var b, v := schedule[i].block, schedule[i].visit;
    if schedule[j].block == b && schedule[j].visit == v {
      ValidRowsAreInBlocks(schedule);
      ValidIsNumbered(schedule, b);
      CountTwice(schedule, Both(HasVisit(v), b), i, j);
      CountOfFiltered(schedule, HasVisit(v), b);
      CountRearranged(BlockRows(schedule, b), Filter(schedule, InBlock(b)), HasVisit(v));
      NumberedOnce(BlockRows(schedule, b), v);
    }
  }

  lemma ValidIsNumbered(schedule: seq<Row>, block: int)
    requires IsValid(schedule) && 1 <= block <= BLOCKS
    ensures NumberedFromOne(BlockRows(schedule, block)) && |BlockRows(schedule, block)| == CELL_COUNT
  {
    hide BlockRows, CELLS;
    assert ValidBlock(schedule, block);
  }

  lemma ValidOrdersDiffer(schedule: seq<Row>)
    requires IsValid(schedule)
    ensures SomeOrdersDiffer(schedule)
  {
    hide BlockRows, CELLS;
    var block :| 1 <= block <= BLOCKS && Ids(BlockRows(schedule, block)) != Ids(BlockRows(schedule, 1));
    ValidIsNumbered(schedule, block);
    ValidIsNumbered(schedule, 1);
    var rows, first := BlockRows(schedule, block), BlockRows(schedule, 1);
    var k :| 0 <= k < CELL_COUNT && rows[k].id != first[k].id;
    BlockRowsHold(schedule, block);
    BlockRowsHold(schedule, 1);
    assert rows[k] in rows && first[k] in first;
  }

  lemma ValidIsDesign(schedule: seq<Row>)
    requires IsValid(schedule)
    ensures IsDesign(schedule)
  {
    ValidLength(schedule);
    hide IsValid, IsProper, SomeOrdersDiffer;
    forall r | r in schedule ensures IsProper(r) {
      ValidRowIsProper(schedule, r);
    }
    forall i, j | 0 <= i < j < |schedule|
      ensures !SameVisit()(schedule[i], schedule[j]) && !SameCell()(schedule[i], schedule[j])
    {
      ValidVisitOnce(schedule, i, j);
      ValidVisitsAreDistinct(schedule, i, j);
    }
    ValidOrdersDiffer(schedule);
  }

  lemma ValidLength(schedule: seq<Row>)
    requires IsValid(schedule)
    ensures |schedule| == 100
  {
  }

  // ---------- designs are valid schedules ----------

  lemma {:induction false} NoTwoFiltered(rows: seq<Row>, p: Row -> bool, same: (Row, Row) -> bool)
    requires NoTwo(rows, same)
    ensures NoTwo(Filter(rows, p), same)
  {
    if rows != [] {
      var rest := Filter(rows[1..], p);
      NoTwoFiltered(rows[1..], p, same);
      forall j | 0 <= j < |rest| ensures !same(rows[0], rest[j]) {
        assert rest[j] in rest && rest[j] in rows[1..];
        var k :| 0 <= k < |rows[1..]| && rows[1..][k] == rest[j];
      }
    }
  }

  function VisitOf(): Row -> int {
    (r: Row) => r.visit
  }

  /** The rows of one block, in file order: different visits and different cells. */
  lemma {:induction false} BlockDiffers(schedule: seq<Row>, block: int)
    requires IsDesign(schedule)
    ensures var rows := Filter(schedule, InBlock(block));
      Distinct(Map(rows, VisitOf())) && Distinct(Map(rows, IdOf()))
  {
    hide Filter, IsProper, SomeOrdersDiffer;
    NoTwoFiltered(schedule, InBlock(block), SameVisit());
    NoTwoFiltered(schedule, InBlock(block), SameCell());
    var rows := Filter(schedule, InBlock(block));
    forall i, j | 0 <= i < j < |rows| ensures rows[i].visit != rows[j].visit && rows[i].id != rows[j].id {
      assert !SameVisit()(rows[i], rows[j]) && !SameCell()(rows[i], rows[j]);
      assert rows[i] in rows && rows[j] in rows;
    }
  }

  lemma {:induction false} DistinctWithin(xs: seq<int>, n: nat)
    requires Distinct(xs) && forall x :: x in xs ==> 1 <= x <= n
    ensures |xs| <= n
  {
    FullSetIsDistinct(xs);
    CountBelow(n);
    forall x | x in Elements(xs) ensures Before(x) in Below(n) {
    }
    CountInjection(Elements(xs), Below(n), Before);
  }

  function Before(x: int): nat {
    if x >= 1 then x - 1 else 0
  }

  lemma {:induction false} BlockIsSmall(schedule: seq<Row>, block: int)
    requires IsDesign(schedule)
    ensures Count(schedule, Both(Any(), block)) == |Filter(schedule, InBlock(block))| <= CELL_COUNT
  {
    hide Filter, SomeOrdersDiffer, NoTwo, CELLS;
    CountOfFiltered(schedule, Any(), block);
    CountEverything(Filter(schedule, InBlock(block)));
    BlockDiffers(schedule, block);
    var visits := Map(Filter(schedule, InBlock(block)), VisitOf());
    forall x | x in visits ensures 1 <= x <= CELL_COUNT {
      var k :| 0 <= k < |visits| && visits[k] == x;
      assert Filter(schedule, InBlock(block))[k] in schedule;
    }
    DistinctWithin(visits, CELL_COUNT);
  }

  /** Shares of at most a number each that add up to the whole are that number each. */
  lemma {:induction false} FullShares(xs: seq<Row>, p: Row -> bool, blocks: nat, share: nat)
    requires forall b :: 1 <= b <= blocks ==> Count(xs, Both(p, b)) <= share
    ensures Count(xs, Within(p, blocks)) <= share * blocks
    ensures Count(xs, Within(p, blocks)) == share * blocks ==>
      forall b :: 1 <= b <= blocks ==> Count(xs, Both(p, b)) == share
  {
    hide Filter;
    if blocks > 0 {
      FullShares(xs, p, blocks - 1, share);
      CountUpToSplits(xs, p, blocks);
      assert share * blocks == share * (blocks - 1) + share;
    } else {
      CountNone(xs, Within(p, 0));
    }
  }

  lemma {:induction false} BlocksAreFull(schedule: seq<Row>)
    requires IsDesign(schedule)
    ensures forall b :: 1 <= b <= BLOCKS ==> |Filter(schedule, InBlock(b))| == CELL_COUNT
  {
    hide Filter, SomeOrdersDiffer, NoTwo, CELLS, Count;
    forall b ensures Count(schedule, Both(Any(), b)) == |Filter(schedule, InBlock(b))| <= CELL_COUNT {
      BlockIsSmall(schedule, b);
    }
    FullShares(schedule, Any(), BLOCKS, CELL_COUNT);
    EveryRowWithin(schedule);
  }

  lemma {:induction false} EveryRowWithin(schedule: seq<Row>)
    requires forall r :: r in schedule ==> 1 <= r.block <= BLOCKS
    ensures Count(schedule, Within(Any(), BLOCKS)) == |schedule|
  {
    FilterEverything(schedule, Within(Any(), BLOCKS));
  }

  lemma {:induction false} IncreasingFrom(xs: seq<int>, i: nat)
    requires i < |xs| && xs[0] >= 1 && forall k :: 0 < k < |xs| ==> xs[k - 1] < xs[k]
    ensures xs[i] >= i + 1 && xs[|xs| - 1] >= xs[i] + |xs| - 1 - i
  {
    StepsUp(xs, 0, i);
    StepsUp(xs, i, |xs| - 1);
  }

  lemma {:induction false} StepsUp(xs: seq<int>, i: nat, j: nat)
    requires i <= j < |xs| && forall k :: 0 < k < |xs| ==> xs[k - 1] < xs[k]
    ensures xs[j] >= xs[i] + j - i
  {
    if i < j {
      StepsUp(xs, i, j - 1);
    }
  }

  /** Sorting ten rows with different visits from 1 to 10 numbers them from one. */
  lemma SortedIsNumbered(rows: seq<Row>)
    requires IsSorted(rows, VisitKey()) && Distinct(Map(rows, VisitOf()))
    requires forall r :: r in rows ==> 1 <= r.visit <= |rows|
    ensures NumberedFromOne(rows)
  {
    var visits := Map(rows, VisitOf());
    forall k | 0 < k < |visits| ensures visits[k - 1] < visits[k] {
      assert VisitKey()(rows[k - 1]) <= VisitKey()(rows[k]);
      assert visits[k - 1] != visits[k];
    }
    forall i | 0 <= i < |rows| ensures rows[i].visit == i + 1 {
      assert rows[0] in rows && rows[|rows| - 1] in rows;
      IncreasingFrom(visits, i);
    }
  }

  lemma {:induction false} SameSize<T>(a: set<T>, b: set<T>)
    requires a <= b && |a| == |b|
    ensures a == b
  {
    assert b == a + (b - a) && |b| == |a| + |b - a|;
  }

  lemma AllCells(rows: seq<Row>)
    requires |rows| == CELL_COUNT && Distinct(Ids(rows)) && forall r :: r in rows ==> r.id in CELLS
    ensures Elements(Ids(rows)) == Elements(CELLS)
  {
    hide CELLS;
    CellsAreTen();
    FullSetIsDistinct(Ids(rows));
    forall c | c in Elements(Ids(rows)) ensures c in Elements(CELLS) {
      var k :| 0 <= k < |rows| && Ids(rows)[k] == c;
      assert rows[k] in rows;
    }
    SameSize(Elements(Ids(rows)), Elements(CELLS));
  }

  lemma DesignBlockIsValid(schedule: seq<Row>, block: int)
    requires IsDesign(schedule) && 1 <= block <= BLOCKS
    ensures ValidBlock(schedule, block)
  {
    hide Filter, SomeOrdersDiffer, NoTwo, CELLS, SortBy;
    var rows, inBlock := BlockRows(schedule, block), Filter(schedule, InBlock(block));
    BlocksAreFull(schedule);
    BlockDiffers(schedule, block);
    MapRearranged(rows, inBlock, VisitOf());
    MapRearranged(rows, inBlock, IdOf());
    DistinctRearranged(Map(rows, VisitOf()), Map(inBlock, VisitOf()));
    DistinctRearranged(Map(rows, IdOf()), Map(inBlock, IdOf()));
    BlockRowsHold(schedule, block);
    forall r | r in rows ensures IsProper(r) && r.block == block && r.id in CELLS {
      assert r in schedule;
      CellsAre(r.id);
    }
    assert |rows| == CELL_COUNT && IsSorted(rows, VisitKey());
    SortedIsNumbered(rows);
    AllCells(rows);
    forall i | 0 <= i < |rows| ensures rows[i].runStart == FirstRun(block) && rows[i].runEnd == FirstRun(block) + 2 {
      assert rows[i] in rows;
    }
  }

  lemma DesignIsRandomized(schedule: seq<Row>)
    requires SomeOrdersDiffer(schedule) && forall r :: r in schedule ==> 1 <= r.block <= BLOCKS && 1 <= r.visit
    requires forall b :: 1 <= b <= BLOCKS ==> ValidBlock(schedule, b)
    ensures Randomized(schedule)
  {
    hide BlockRows, ValidBlock;
    var r, s :| r in schedule && s in schedule && r.visit == s.visit && r.id != s.id;
    RowAtVisit(schedule, r);
    RowAtVisit(schedule, s);
    var rIds, sIds := Ids(BlockRows(schedule, r.block)), Ids(BlockRows(schedule, s.block));
    assert rIds[r.visit - 1] != sIds[r.visit - 1];
    if rIds == Ids(BlockRows(schedule, 1)) {
      assert sIds != Ids(BlockRows(schedule, 1));
    }
  }

  lemma RowAtVisit(schedule: seq<Row>, r: Row)
    requires r in schedule && ValidBlock(schedule, r.block)
    ensures var rows := BlockRows(schedule, r.block); 1 <= r.visit <= |rows| && rows[r.visit - 1] == r
  {
    hide BlockRows, CELLS;
    BlockRowsHold(schedule, r.block);
    var rows := BlockRows(schedule, r.block);
    var k :| 0 <= k < |rows| && rows[k] == r;
  }

  /** The check, with its sorting and comparing per block, accepts exactly the designs. */
  lemma ValidExactlyDesigns(schedule: seq<Row>)
    ensures IsValid(schedule) <==> IsDesign(schedule)
  {
    if IsValid(schedule) {
      ValidIsDesign(schedule);
    }
    if IsDesign(schedule) {
      DesignIsValid(schedule);
    }
  }

  lemma DesignIsValid(schedule: seq<Row>)
    requires IsDesign(schedule)
    ensures IsValid(schedule)
  {
    hide ValidBlock, NoTwo, SomeOrdersDiffer, CELLS, Randomized;
    forall b | 1 <= b <= BLOCKS ensures ValidBlock(schedule, b) {
      DesignBlockIsValid(schedule, b);
    }
    DesignIsRandomized(schedule);
  }
}
