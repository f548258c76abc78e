/** The randomized block schedule of the per-message campaign and the check it must pass. */
module H2bDesign {
  import opened Prelude
  import opened Ordering

  const BLOCKS := 10
  const CELL_COUNT := 10
  const EXPECTED_VISITS := 100
  const RUNS_PER_VISIT := 3

  datatype Cell = Cell(qos: Qos, loss: int)

  const LOSS_TARGETS: seq<int> := [0, 1, 5, 10, 15]

  const CELLS: seq<Cell> := [
    Cell(Reliable, 0), Cell(Reliable, 1), Cell(Reliable, 5), Cell(Reliable, 10), Cell(Reliable, 15),
    Cell(BestEffort, 0), Cell(BestEffort, 1), Cell(BestEffort, 5), Cell(BestEffort, 10), Cell(BestEffort, 15)]

  /** A scheduled visit; `id` is the cell its name spells, `cell` what its other columns say. */
  datatype Row = Row(block: int, visit: int, id: Cell, cell: Cell, runStart: int, runEnd: int)

  function InBlock(block: int): Row -> bool {
    (r: Row) => r.block == block
  }

  function VisitKey(): Row -> real {
    (r: Row) => r.visit as real
  }

  function IdOf(): Row -> Cell {
    (r: Row) => r.id
  }

  /** The rows of one block in visit order. */
  function BlockRows(schedule: seq<Row>, block: int): seq<Row> {
    SortBy(Filter(schedule, InBlock(block)), VisitKey())
  }

  function Ids(rows: seq<Row>): seq<Cell> {
    Map(rows, IdOf())
  }

  function Elements<T>(xs: seq<T>): set<T> {
    set x | x in xs
  }

  function FirstRun(block: int): int {
    (block - 1) * RUNS_PER_VISIT + 1
  }

  // ---------- the check ----------

  datatype Defect =
    | WrongLength
    | WrongVisitCount(b: int) | WrongCells(b: int) | WrongNumbering(b: int) | WrongRuns(b: int)
    | NotRandomized

  predicate NumberedFromOne(rows: seq<Row>) {
    forall i :: 0 <= i < |rows| ==> rows[i].visit == i + 1
  }

  predicate RunsAre(rows: seq<Row>, first: int) {
    forall i :: 0 <= i < |rows| ==> rows[i].runStart == first && rows[i].runEnd == first + 2
  }

  predicate ValidBlock(schedule: seq<Row>, block: int) {
    var rows := BlockRows(schedule, block);
    && |rows| == CELL_COUNT && Elements(Ids(rows)) == Elements(CELLS)
    && NumberedFromOne(rows) && RunsAre(rows, FirstRun(block))
  }

  predicate Randomized(schedule: seq<Row>) {
    exists block :: 1 <= block <= BLOCKS && Ids(BlockRows(schedule, block)) != Ids(BlockRows(schedule, 1))
  }

  predicate IsValid(schedule: seq<Row>) {
    && |schedule| == EXPECTED_VISITS
    && (forall block :: 1 <= block <= BLOCKS ==> ValidBlock(schedule, block))
    && Randomized(schedule)
  }

  /** What each complaint means. */
  predicate HasDefect(schedule: seq<Row>, defect: Defect) {
    match defect
    case WrongLength => |schedule| != EXPECTED_VISITS
    case WrongVisitCount(b) => 1 <= b <= BLOCKS && |BlockRows(schedule, b)| != CELL_COUNT
    case WrongCells(b) => 1 <= b <= BLOCKS && Elements(Ids(BlockRows(schedule, b))) != Elements(CELLS)
    case WrongNumbering(b) => 1 <= b <= BLOCKS && !NumberedFromOne(BlockRows(schedule, b))
    case WrongRuns(b) => 1 <= b <= BLOCKS && !RunsAre(BlockRows(schedule, b), FirstRun(b))
    case NotRandomized => !Randomized(schedule)
  }

  method ValidateSchedule(schedule: seq<Row>) returns (defect: Option<Defect>)
    ensures defect == None <==> IsValid(schedule)
    ensures defect.Some? ==> HasDefect(schedule, defect.value)
  {
    hide BlockRows, Ids, Elements;
    if |schedule| != EXPECTED_VISITS { return Some(WrongLength); }
    var seenOrders: seq<seq<Cell>> := [];
    for block := 1 to BLOCKS + 1
      invariant |seenOrders| == block - 1
      invariant forall b :: 1 <= b < block ==> ValidBlock(schedule, b)
      invariant forall b :: 1 <= b < block ==> seenOrders[b - 1] == Ids(BlockRows(schedule, b))
    {
      var rows := BlockRows(schedule, block);
      assert IsValid(schedule) ==> ValidBlock(schedule, block);
      if |rows| != CELL_COUNT { return Some(WrongVisitCount(block)); }
      if Elements(Ids(rows)) != Elements(CELLS) { return Some(WrongCells(block)); }
      if !NumberedFromOne(rows) { return Some(WrongNumbering(block)); }
      if !RunsAre(rows, FirstRun(block)) { return Some(WrongRuns(block)); }
      seenOrders := seenOrders + [Ids(rows)];
    }
    var allEqual := forall i :: 0 <= i < |seenOrders| ==> seenOrders[i] == seenOrders[0];
    if allEqual {
      forall block | 1 <= block <= BLOCKS ensures Ids(BlockRows(schedule, block)) == Ids(BlockRows(schedule, 1)) {
        assert seenOrders[block - 1] == seenOrders[0];
      }
      return Some(NotRandomized);
    }
    var i :| 0 <= i < |seenOrders| && seenOrders[i] != seenOrders[0];
    assert Ids(BlockRows(schedule, i + 1)) != Ids(BlockRows(schedule, 1));
    return None;
  }

  // ---------- what a valid schedule holds ----------

  function Count<T>(xs: seq<T>, p: T -> bool): nat {
    |Filter(xs, p)|
  }

  function HasId(c: Cell): Row -> bool {
    (r: Row) => r.id == c
  }

  function Within(p: Row -> bool, blocks: nat): Row -> bool {
    (r: Row) => p(r) && 1 <= r.block <= blocks
  }

  function Both(p: Row -> bool, block: int): Row -> bool {
    (r: Row) => p(r) && r.block == block
  }

  lemma {:induction false} CountUpToSplits(xs: seq<Row>, p: Row -> bool, blocks: nat)
    requires blocks > 0
    ensures Count(xs, Within(p, blocks)) == Count(xs, Within(p, blocks - 1)) + Count(xs, Both(p, blocks))
  {
    if xs != [] {
      CountUpToSplits(xs[1..], p, blocks);
    }
  }

  /** Equal shares in every block add up. */
  lemma {:induction false} CountUpTo(xs: seq<Row>, p: Row -> bool, blocks: nat, share: nat)
    requires forall b :: 1 <= b <= blocks ==> Count(xs, Both(p, b)) == share
    ensures Count(xs, Within(p, blocks)) == share * blocks
  {
    if blocks > 0 {
      CountUpTo(xs, p, blocks - 1, share);
      CountUpToSplits(xs, p, blocks);
    } else {
      CountNone(xs, Within(p, 0));
    }
  }

  lemma {:induction false} CountNone<T>(xs: seq<T>, p: T -> bool)
    requires forall x :: x in xs ==> !p(x)
    ensures Count(xs, p) == 0
  {
    if xs != [] {
      CountNone(xs[1..], p);
    }
  }

  lemma {:induction false} CountSame<T>(xs: seq<T>, p: T -> bool, q: T -> bool)
    requires forall x :: x in xs ==> p(x) == q(x)
    ensures Filter(xs, p) == Filter(xs, q)
  {
    if xs != [] {
      CountSame(xs[1..], p, q);
    }
  }

  /** If every element is counted, every element satisfies the predicate. */
  lemma {:induction false} CountAll<T>(xs: seq<T>, p: T -> bool)
    ensures Count(xs, p) <= |xs|
    ensures Count(xs, p) == |xs| ==> forall x :: x in xs ==> p(x)
  {
    if xs != [] {
      CountAll(xs[1..], p);
      assert xs == [xs[0]] + xs[1..];
    }
  }

  lemma {:induction false} CountOfFiltered(xs: seq<Row>, p: Row -> bool, block: int)
    ensures Count(xs, Both(p, block)) == Count(Filter(xs, InBlock(block)), p)
  {
    if xs != [] {
      CountOfFiltered(xs[1..], p, block);
      var head := if xs[0].block == block then [xs[0]] else [];
      FilterConcat(head, Filter(xs[1..], InBlock(block)), p);
    }
  }

  lemma {:induction false} CountRearranged<T>(xs: seq<T>, ys: seq<T>, p: T -> bool)
    requires multiset(xs) == multiset(ys)
    ensures Count(xs, p) == Count(ys, p)
  {
    hide Filter;
    assert |multiset(xs)| == |xs| && |multiset(ys)| == |ys|;
    if xs != [] {
      assert xs[0] in multiset(ys);
      var i :| 0 <= i < |ys| && ys[i] == xs[0];
      RemoveFront(xs, ys, i);
      CountRearranged(xs[1..], ys[..i] + ys[i + 1..], p);
      assert xs == [xs[0]] + xs[1..] && ys == ys[..i] + ([xs[0]] + ys[i + 1..]);
      FilterConcat([xs[0]], xs[1..], p);
      FilterConcat(ys[..i], ys[i + 1..], p);
      FilterConcat(ys[..i], [xs[0]] + ys[i + 1..], p);
      FilterConcat([xs[0]], ys[i + 1..], p);
    }
  }

  /** A list with as many different elements as elements repeats none. */
  lemma {:induction false} FullSetIsDistinct<T>(xs: seq<T>)
    ensures |Elements(xs)| <= |xs|
    ensures |Elements(xs)| == |xs| <==> Distinct(xs)
  {
    if xs != [] {
      var n := |xs| - 1;
      FullSetIsDistinct(xs[..n]);
      assert xs == xs[..n] + [xs[n]];
      assert Elements(xs) == Elements(xs[..n]) + {xs[n]};
      if |Elements(xs)| == |xs| {
        assert xs[n] !in Elements(xs[..n]);
        assert forall i :: 0 <= i < n ==> xs[i] == xs[..n][i];
      }
    }
  }

  lemma {:induction false} CountIdIsMultiplicity(rows: seq<Row>, c: Cell)
    ensures Count(rows, HasId(c)) == multiset(Ids(rows))[c]
  {
    if rows != [] {
      CountIdIsMultiplicity(rows[1..], c);
      assert Ids(rows) == [rows[0].id] + Ids(rows[1..]);
    } else {
      assert Ids(rows) == [];
    }
  }

  /** Where a cell stands in CELLS. */
  function Place(c: Cell): int {
    (if c.qos == Reliable then 0 else 5)
    + (if c.loss == 0 then 0 else if c.loss == 1 then 1 else if c.loss == 5 then 2 else if c.loss == 10 then 3 else 4)
  }

  lemma CellsAreTen()
    ensures |CELLS| == |Elements(CELLS)| == CELL_COUNT && Distinct(CELLS)
  {
    assert forall i :: 0 <= i < CELL_COUNT ==> Place(CELLS[i]) == i;
    FullSetIsDistinct(CELLS);
  }

  lemma ValidBlockHasEachOnce(schedule: seq<Row>, block: int, c: Cell)
    requires ValidBlock(schedule, block)
    ensures Count(schedule, Both(HasId(c), block)) == if c in CELLS then 1 else 0
  {
    hide SortBy, Filter, CELLS;
    var rows := BlockRows(schedule, block);
    var ids := Ids(rows);
    CellsAreTen();
    FullSetIsDistinct(ids);
    OccursAtMostOnce(ids, c);
    assert c in ids <==> c in CELLS by {
      assert c in Elements(ids) <==> c in Elements(CELLS);
    }
    CountIdIsMultiplicity(rows, c);
    CountRearranged(rows, Filter(schedule, InBlock(block)), HasId(c));
    CountOfFiltered(schedule, HasId(c), block);
  }

  function Any(): Row -> bool {
    (r: Row) => true
  }

  lemma ValidRowsAreInBlocks(schedule: seq<Row>)
    requires IsValid(schedule)
    ensures forall r :: r in schedule ==> 1 <= r.block <= BLOCKS
  {
    hide Filter, SortBy;
    forall block | 1 <= block <= BLOCKS ensures Count(schedule, Both(Any(), block)) == CELL_COUNT {
      assert ValidBlock(schedule, block);
      CountOfFiltered(schedule, Any(), block);
      CountEverything(Filter(schedule, InBlock(block)));
    }
    CountUpTo(schedule, Any(), BLOCKS, CELL_COUNT);
    CountAll(schedule, Within(Any(), BLOCKS));
    forall r | r in schedule ensures 1 <= r.block <= BLOCKS {
      assert Within(Any(), BLOCKS)(r);
    }
  }

  lemma {:induction false} CountEverything(xs: seq<Row>)
    ensures Count(xs, Any()) == |xs|
  {
    if xs != [] {
      CountEverything(xs[1..]);
    }
  }

  /** A valid schedule visits every cell exactly once in each of the ten blocks, and nothing else. */
  lemma ValidVisitsEachCellOnce(schedule: seq<Row>)
    requires IsValid(schedule)
    ensures forall r :: r in schedule ==> 1 <= r.block <= BLOCKS && r.id in CELLS
    ensures forall b, c :: 1 <= b <= BLOCKS && c in CELLS ==> Count(schedule, Both(HasId(c), b)) == 1
    ensures forall c :: c in CELLS ==> Count(schedule, HasId(c)) == BLOCKS
  {
    hide Filter, SortBy, ValidBlock, CELLS;
    ValidRowsAreInBlocks(schedule);
    forall b, c | 1 <= b <= BLOCKS ensures Count(schedule, Both(HasId(c), b)) == if c in CELLS then 1 else 0 {
      ValidBlockHasEachOnce(schedule, b, c);
    }
    forall c | c in CELLS ensures Count(schedule, HasId(c)) == BLOCKS {
      CountUpTo(schedule, HasId(c), BLOCKS, 1);
      CountSame(schedule, HasId(c), Within(HasId(c), BLOCKS));
    }
    forall r | r in schedule ensures r.id in CELLS {
      assert Count(schedule, Both(HasId(r.id), r.block)) == if r.id in CELLS then 1 else 0;
    }
  }

  lemma {:induction false} CountTwice<T>(xs: seq<T>, p: T -> bool, i: nat, j: nat)
    requires i < j < |xs| && p(xs[i]) && p(xs[j])
    ensures Count(xs, p) >= 2
  {
    assert xs == xs[..j] + xs[j..];
    FilterConcat(xs[..j], xs[j..], p);
    assert xs[..j][i] == xs[i] && xs[j..][0] == xs[j];
    assert xs[i] in Filter(xs[..j], p) && xs[j] in Filter(xs[j..], p);
  }

  /** No two rows of a valid schedule are the same visit. */
  lemma ValidVisitsAreDistinct(schedule: seq<Row>, i: nat, j: nat)
    requires IsValid(schedule) && i < j < |schedule|
    ensures schedule[i].block != schedule[j].block || schedule[i].id != schedule[j].id
  {
    hide Filter, IsValid, CELLS;
    ValidVisitsEachCellOnce(schedule);
    var r := schedule[i];
    if r.block == schedule[j].block && r.id == schedule[j].id {
      CountTwice(schedule, Both(HasId(r.id), r.block), i, j);
    }
  }

  // ---------- the build ----------

  /** The ten visits of one block, in the shuffled order. */
  function BlockOf(block: int, order: seq<Cell>): (rows: seq<Row>)
    ensures |rows| == |order|
    ensures forall i :: 0 <= i < |order| ==>
      rows[i] == Row(block, i + 1, order[i], order[i], FirstRun(block), FirstRun(block) + RUNS_PER_VISIT - 1)
  {
    seq(|order|, i requires 0 <= i < |order| =>
      Row(block, i + 1, order[i], order[i], FirstRun(block), FirstRun(block) + RUNS_PER_VISIT - 1))
  }

  /** All the visits, block after block. */
  function Built(shuffles: seq<seq<Cell>>): seq<Row> {
    if shuffles == [] then []
    else Built(shuffles[..|shuffles| - 1]) + BlockOf(|shuffles|, shuffles[|shuffles| - 1])
  }

  ghost predicate AreShuffles(shuffles: seq<seq<Cell>>) {
    |shuffles| == BLOCKS && forall b :: 0 <= b < BLOCKS ==> multiset(shuffles[b]) == multiset(CELLS)
  }

  lemma {:induction false} SortedIsFixed(rows: seq<Row>)
    requires NumberedFromOne(rows)
    ensures SortBy(rows, VisitKey()) == rows
  {
    if rows != [] {
      var n := |rows| - 1;
      SortedIsFixed(rows[..n]);
      assert rows == rows[..n] + [rows[n]];
    }
  }

  lemma {:induction false} FilterOfBuilt(shuffles: seq<seq<Cell>>, block: int)
    requires 1 <= block
    ensures Filter(Built(shuffles), InBlock(block)) ==
        if block <= |shuffles| then BlockOf(block, shuffles[block - 1]) else []
  {
    hide Filter, BlockOf;
    var n := |shuffles|;
    if n == 0 {
      CountNone(Built(shuffles), InBlock(block));
    } else {
      var front, last := shuffles[..n - 1], BlockOf(n, shuffles[n - 1]);
      FilterOfBuilt(front, block);
      FilterConcat(Built(front), last, InBlock(block));
      if block == n {
        FilterEverything(last, InBlock(block));
      } else {
        CountNone(last, InBlock(block));
      }
    }
  }

  lemma {:induction false} FilterEverything<T>(xs: seq<T>, p: T -> bool)
    requires forall x :: x in xs ==> p(x)
    ensures Filter(xs, p) == xs
  {
    if xs != [] {
      FilterEverything(xs[1..], p);
    }
  }

  lemma {:induction false} BuiltBlock(shuffles: seq<seq<Cell>>, block: int)
    requires AreShuffles(shuffles) && 1 <= block <= BLOCKS
    ensures ValidBlock(Built(shuffles), block) && Ids(BlockRows(Built(shuffles), block)) == shuffles[block - 1]
  {
    hide Built, Filter, SortBy, CELLS;
    var order := shuffles[block - 1];
    var rows := BlockOf(block, order);
    FilterOfBuilt(shuffles, block);
    SortedIsFixed(rows);
    assert Ids(rows) == order;
    SameElements(order, CELLS);
    CellsAreTen();
    assert |multiset(order)| == |multiset(CELLS)|;
  }

  lemma {:induction false} BuiltLength(shuffles: seq<seq<Cell>>)
    requires forall b :: 0 <= b < |shuffles| ==> |shuffles[b]| == CELL_COUNT
    ensures |Built(shuffles)| == |shuffles| * CELL_COUNT
  {
    if shuffles != [] {
      BuiltLength(shuffles[..|shuffles| - 1]);
    }
  }

  /** A built schedule passes the check exactly when its ten shuffles are not all the same. */
  lemma {:induction false} BuiltIsValid(shuffles: seq<seq<Cell>>)
    requires AreShuffles(shuffles)
    ensures IsValid(Built(shuffles)) <==> exists b :: 0 <= b < BLOCKS && shuffles[b] != shuffles[0]
  {
    hide Built, BlockRows, ValidBlock, CELLS;
    var schedule := Built(shuffles);
    forall block | 1 <= block <= BLOCKS
      ensures ValidBlock(schedule, block) && Ids(BlockRows(schedule, block)) == shuffles[block - 1]
    {
      BuiltBlock(shuffles, block);
    }
    ShufflesAreTen(shuffles);
    BuiltLength(shuffles);
    if b :| 0 <= b < BLOCKS && shuffles[b] != shuffles[0] {
      assert Ids(BlockRows(schedule, b + 1)) != Ids(BlockRows(schedule, 1));
    }
  }

  lemma {:induction false} BuiltDefect(shuffles: seq<seq<Cell>>, defect: Defect)
    requires AreShuffles(shuffles) && HasDefect(Built(shuffles), defect)
    ensures defect == NotRandomized
  {
    hide Built, BlockRows, CELLS;
    if defect == WrongLength {
      ShufflesAreTen(shuffles);
      BuiltLength(shuffles);
    } else if defect != NotRandomized {
      BuiltBlock(shuffles, defect.b);
    }
  }

  lemma ShufflesAreTen(shuffles: seq<seq<Cell>>)
    requires AreShuffles(shuffles)
    ensures forall b :: 0 <= b < |shuffles| ==> |shuffles[b]| == CELL_COUNT
  {
  }

  lemma BuiltStep(shuffles: seq<seq<Cell>>, n: nat)
    requires n < |shuffles|
    ensures Built(shuffles[..n + 1]) == Built(shuffles[..n]) + BlockOf(n + 1, shuffles[n])
  {
    assert shuffles[..n + 1][..n] == shuffles[..n];
  }

  method AppendBlock(rows: seq<Row>, block: int, order: seq<Cell>) returns (longer: seq<Row>)
    ensures longer == rows + BlockOf(block, order)
  {
    longer := rows;
    var start := (block - 1) * RUNS_PER_VISIT + 1;
    for visit := 1 to |order| + 1
      invariant longer == rows + BlockOf(block, order)[..visit - 1]
    {
      var cell := order[visit - 1];
      longer := longer + [Row(block, visit, cell, cell, start, start + RUNS_PER_VISIT - 1)];
    }
  }

  /** Lays out ten shuffled blocks and validates the result, which fails only without any shuffling. */
  method BuildSchedule(shuffles: seq<seq<Cell>>) returns (rows: seq<Row>, defect: Option<Defect>)
    requires AreShuffles(shuffles)
    ensures rows == Built(shuffles)
    ensures defect == if exists b :: 0 <= b < BLOCKS && shuffles[b] != shuffles[0] then None else Some(NotRandomized)
  {
    assert Built(shuffles[..0]) == [];
    hide Built, BlockOf, IsValid, HasDefect, CELLS;
    rows := [];
    for block := 1 to BLOCKS + 1
      invariant rows == Built(shuffles[..block - 1])
    {
      rows := AppendBlock(rows, block, shuffles[block - 1]);
      BuiltStep(shuffles, block - 1);
    }
    assert shuffles[..BLOCKS] == shuffles;
    BuiltIsValid(shuffles);
    defect := ValidateSchedule(rows);
    if defect.Some? {
      BuiltDefect(shuffles, defect.value);
    }
  }

  // ---------- what the check does not see ----------

  function Recolumned(columns: Row -> Cell): Row -> Row {
    (r: Row) => r.(cell := columns(r))
  }

  /** The schedule with other qos and loss columns. */
  function WithColumns(schedule: seq<Row>, columns: Row -> Cell): seq<Row> {
    Map(schedule, Recolumned(columns))
  }

  lemma {:induction false} InsertRecolumned(sorted: seq<Row>, x: Row, columns: Row -> Cell)
    ensures Insert(WithColumns(sorted, columns), Recolumned(columns)(x), VisitKey())
      == WithColumns(Insert(sorted, x, VisitKey()), columns)
  {
    hide VisitKey, Map;
    var n, f := |sorted|, Recolumned(columns);
    KeyKept(x, columns);
    if n == 0 || VisitKey()(sorted[n - 1]) <= VisitKey()(x) {
      MapConcat(sorted, [x], f);
      MapOne(x, f);
      if n > 0 { KeyKept(sorted[n - 1], columns); }
    } else {
      var front, last := sorted[..n - 1], sorted[n - 1];
      KeyKept(last, columns);
      InsertRecolumned(front, x, columns);
      MapConcat(front, [last], f);
      MapConcat(Insert(front, x, VisitKey()), [last], f);
      MapOne(last, f);
      assert sorted == front + [last];
      assert WithColumns(sorted, columns)[..n - 1] == WithColumns(front, columns);
    }
  }

  lemma KeyKept(r: Row, columns: Row -> Cell)
    ensures VisitKey()(Recolumned(columns)(r)) == VisitKey()(r)
  {
  }

  lemma MapOne<T, U>(x: T, f: T -> U)
    ensures Map([x], f) == [f(x)]
  {
  }

  lemma {:induction false} SortRecolumned(rows: seq<Row>, columns: Row -> Cell)
    ensures SortBy(WithColumns(rows, columns), VisitKey()) == WithColumns(SortBy(rows, VisitKey()), columns)
  {
    if rows == [] {
      assert WithColumns(rows, columns) == [];
    } else {
      var n := |rows| - 1;
      assert WithColumns(rows, columns)[..n] == WithColumns(rows[..n], columns);
      hide Insert;
      SortRecolumned(rows[..n], columns);
      InsertRecolumned(SortBy(rows[..n], VisitKey()), rows[n], columns);
    }
  }

  lemma {:induction false} FilterRecolumned(rows: seq<Row>, block: int, columns: Row -> Cell)
    ensures Filter(WithColumns(rows, columns), InBlock(block)) == WithColumns(Filter(rows, InBlock(block)), columns)
  {
    if rows != [] {
      FilterRecolumned(rows[1..], block, columns);
      assert WithColumns(rows, columns)[1..] == WithColumns(rows[1..], columns);
    }
  }

  lemma BlockRecolumned(schedule: seq<Row>, block: int, columns: Row -> Cell)
    ensures BlockRows(WithColumns(schedule, columns), block) == WithColumns(BlockRows(schedule, block), columns)
    ensures Ids(BlockRows(WithColumns(schedule, columns), block)) == Ids(BlockRows(schedule, block))
    ensures ValidBlock(WithColumns(schedule, columns), block) <==> ValidBlock(schedule, block)
  {
    hide Filter, SortBy, CELLS;
    FilterRecolumned(schedule, block, columns);
    SortRecolumned(Filter(schedule, InBlock(block)), columns);
    var before, after := BlockRows(schedule, block), BlockRows(WithColumns(schedule, columns), block);
    assert Ids(after) == Ids(before);
    assert forall i :: 0 <= i < |before| ==>
      after[i].visit == before[i].visit && after[i].runStart == before[i].runStart &&
        after[i].runEnd == before[i].runEnd;
  }

  /** The check does not look at the qos and loss columns. */
  lemma ValidityIgnoresColumns(schedule: seq<Row>, columns: Row -> Cell)
    ensures IsValid(WithColumns(schedule, columns)) <==> IsValid(schedule)
  {
    hide BlockRows, ValidBlock, Ids;
    forall block
      ensures Ids(BlockRows(WithColumns(schedule, columns), block)) == Ids(BlockRows(schedule, block))
      ensures ValidBlock(WithColumns(schedule, columns), block) <==> ValidBlock(schedule, block)
    {
      BlockRecolumned(schedule, block, columns);
    }
  }

  /** The file with its first n rows moved to the end. */
  function Rotated(schedule: seq<Row>, n: nat): seq<Row>
    requires n <= |schedule|
  {
    schedule[n..] + schedule[..n]
  }

  /** The check does not look at the order of blocks in the file. */
  lemma ValidityIgnoresBlockOrder(schedule: seq<Row>, n: nat)
    requires n <= |schedule|
    requires forall i, j :: 0 <= i < n <= j < |schedule| ==> schedule[i].block != schedule[j].block
    ensures IsValid(Rotated(schedule, n)) <==> IsValid(schedule)
  {
    hide Filter, ValidBlock, Ids, SortBy;
    forall block
      ensures BlockRows(Rotated(schedule, n), block) == BlockRows(schedule, block)
      ensures ValidBlock(Rotated(schedule, n), block) <==> ValidBlock(schedule, block)
    {
      RotatedBlock(schedule, n, block);
    }
  }

  lemma RotatedBlock(schedule: seq<Row>, n: nat, block: int)
    requires n <= |schedule|
    requires forall i, j :: 0 <= i < n <= j < |schedule| ==> schedule[i].block != schedule[j].block
    ensures BlockRows(Rotated(schedule, n), block) == BlockRows(schedule, block)
    ensures ValidBlock(Rotated(schedule, n), block) <==> ValidBlock(schedule, block)
  {
    hide Filter, SortBy;
    var first, second, p := schedule[..n], schedule[n..], InBlock(block);
    assert schedule == first + second;
    FilterConcat(first, second, p);
    FilterConcat(second, first, p);
    if exists i :: 0 <= i < n && schedule[i].block == block {
      CountNone(second, p);
      assert Filter(second, p) == [];
    } else {
      CountNone(first, p);
      assert Filter(first, p) == [];
    }
    assert Filter(Rotated(schedule, n), p) == Filter(schedule, p);
  }

  /** The list with its first two elements exchanged. */
  function Swapped<T>(xs: seq<T>): seq<T>
    requires |xs| >= 2
  {
    xs[0 := xs[1]][1 := xs[0]]
  }

  /** A shuffle that exchanges the first two cells, and nine that change nothing. */
  function SomeShuffles(): (shuffles: seq<seq<Cell>>)
    ensures |shuffles| == BLOCKS
  {
    var plain := CELLS;
    [Swapped(plain), plain, plain, plain, plain, plain, plain, plain, plain, plain]
  }

  lemma SomeShufflesDiffer()
    ensures AreShuffles(SomeShuffles()) && SomeShuffles()[1] != SomeShuffles()[0]
    ensures IsValid(Built(SomeShuffles()))
  {
    hide IsValid, Built, CELLS;
    CellsAreTen();
    SwapFirstTwo(CELLS);
    var shuffles := SomeShuffles();
    assert shuffles[0][0] == CELLS[1] != CELLS[0] == shuffles[1][0];
    BuiltIsValid(SomeShuffles());
  }

  lemma SwapFirstTwo<T>(xs: seq<T>)
    requires |xs| >= 2
    ensures multiset(Swapped(xs)) == multiset(xs)
  {
    assert xs == [xs[0], xs[1]] + xs[2..];
    assert Swapped(xs) == [xs[1], xs[0]] + xs[2..];
  }
}
