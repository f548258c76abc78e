/** The separately written audit of a finished per-message campaign: its checks of the accepted rows. */
module H2bAudit {
  import opened Prelude
  import opened Ordering
  import opened H2bDesign
  import opened H2bRunner
  import opened H2bHistory

  const EXPECTED_ACCEPTED_RUNS := 300
  const RUNS_PER_CELL := 30

  function CellOf(): LedgerRow -> Cell {
    (r: LedgerRow) => r.cell
  }

  function BlockCellOf(): LedgerRow -> (int, Cell) {
    (r: LedgerRow) => (r.block, r.cell)
  }

  function WithCell(c: Cell): LedgerRow -> bool {
    (r: LedgerRow) => r.cell == c
  }

  function AsReal(): int -> real {
    (n: int) => n as real
  }

  function CountingTo(n: nat): (xs: seq<int>)
    ensures |xs| == n && CountsFromOne(xs)
  {
    seq(n, (i: nat) => i + 1)
  }

  function BlockCells(blocks: nat): (keys: set<(int, Cell)>)
    ensures forall b, c :: (b, c) in keys <==> 1 <= b <= blocks && c in CELLS
  {
    if blocks == 0 then {} else BlockCells(blocks - 1) + set c | c in CELLS :: (blocks as int, c)
  }

  datatype Complaint =
    | WrongTotal | WrongCellKeys | WrongCellCounts | WrongBlockCellKeys | WrongBlockCellCounts | WrongOrdinals

  /** The keys are exactly the expected ones, and each occurs as often as expected. */
  ghost predicate KeysAre<K>(keys: seq<K>, expected: set<K>) {
    Elements(keys) == expected
  }

  ghost predicate EachOccurs<K>(keys: seq<K>, times: nat) {
    forall k :: k in keys ==> multiset(keys)[k] == times
  }

  /** The ordinals of every cell that occurs are 1..30, each once, in any order. */
  ghost predicate OrdinalsCount(accepted: seq<LedgerRow>) {
    forall c :: c in Map(accepted, CellOf()) ==>
        multiset(OrdinalsIn(accepted, c)) == multiset(CountingTo(RUNS_PER_CELL))
  }

  /** What each check asks of the accepted rows. */
  ghost predicate Meets(accepted: seq<LedgerRow>, check: Complaint) {
    match check
    case WrongTotal => |accepted| == EXPECTED_ACCEPTED_RUNS
    case WrongCellKeys => KeysAre(Map(accepted, CellOf()), Elements(CELLS))
    case WrongCellCounts => EachOccurs(Map(accepted, CellOf()), RUNS_PER_CELL)
    case WrongBlockCellKeys => KeysAre(Map(accepted, BlockCellOf()), BlockCells(BLOCKS))
    case WrongBlockCellCounts => EachOccurs(Map(accepted, BlockCellOf()), RUNS_PER_VISIT)
    case WrongOrdinals => OrdinalsCount(accepted)
  }

  function OrdinalsIn(accepted: seq<LedgerRow>, c: Cell): seq<int> {
    Map(Filter(accepted, WithCell(c)), OrdinalOf())
  }

  // ---------- the audit ----------

  /** A Counter: how often each key occurs. */
  method Tally<K(==)>(keys: seq<K>) returns (counts: map<K, nat>)
    ensures counts.Keys == Elements(keys)
    ensures forall k :: k in counts ==> counts[k] == multiset(keys)[k]
  {
    counts := map[];
    assert keys[..|keys|] == keys;
    for i := 0 to |keys|
      invariant counts.Keys == Elements(keys[..i])
      invariant forall k :: k in counts ==> counts[k] == multiset(keys[..i])[k]
    {
      assert keys[..i + 1] == keys[..i] + [keys[i]];
      var before := if keys[i] in counts then counts[keys[i]] else 0;
      assert before == multiset(keys[..i])[keys[i]];
      counts := counts[keys[i] := before + 1];
    }
  }

  /** The accepted ordinals by cell. */
  ghost predicate IsGrouped(ordinals: map<Cell, seq<int>>, accepted: seq<LedgerRow>) {
    && ordinals.Keys == Elements(Map(accepted, CellOf()))
    && forall c :: c in ordinals ==> ordinals[c] == OrdinalsIn(accepted, c)
  }

  lemma GroupOneMore(ordinals: map<Cell, seq<int>>, accepted: seq<LedgerRow>, row: LedgerRow)
    requires IsGrouped(ordinals, accepted)
    ensures var before := if row.cell in ordinals then ordinals[row.cell] else [];
      IsGrouped(ordinals[row.cell := before + [row.ordinal]], accepted + [row])
  {
    hide Filter;
    assert Map(accepted + [row], CellOf()) == Map(accepted, CellOf()) + [row.cell];
    if row.cell !in ordinals {
      forall r | r in accepted ensures r.cell != row.cell {
        var k :| 0 <= k < |accepted| && accepted[k] == r;
        assert Map(accepted, CellOf())[k] == r.cell;
      }
      CountNone(accepted, WithCell(row.cell));
    }
    forall c ensures OrdinalsIn(accepted + [row], c) == OrdinalsIn(accepted, c) +
        if c == row.cell then [row.ordinal] else [] {
      FilterSnoc(accepted, row, WithCell(c));
    }
  }

  method GroupOrdinals(accepted: seq<LedgerRow>) returns (ordinals: map<Cell, seq<int>>)
    ensures IsGrouped(ordinals, accepted)
  {
    ordinals := map[];
    assert IsGrouped(ordinals, accepted[..0]);
    hide IsGrouped;
    for i := 0 to |accepted|
      invariant IsGrouped(ordinals, accepted[..i])
    {
      var row := accepted[i];
      GroupOneMore(ordinals, accepted[..i], row);
      assert accepted[..i + 1] == accepted[..i] + [row];
      ordinals := ordinals[row.cell := (if row.cell in ordinals then ordinals[row.cell] else []) + [row.ordinal]];
    }
    assert accepted[..|accepted|] == accepted;
  }

  lemma LastIsLargest(xs: seq<int>, x: int)
    requires IsSorted(xs, AsReal()) && x in xs
    ensures x <= xs[|xs| - 1]
  {
  }

  lemma DropLast(xs: seq<int>)
    requires xs != []
    ensures multiset(xs[..|xs| - 1]) == multiset(xs) - multiset{xs[|xs| - 1]}
  {
    assert xs == xs[..|xs| - 1] + [xs[|xs| - 1]];
  }

  lemma SameLast(xs: seq<int>, ys: seq<int>)
    requires IsSorted(xs, AsReal()) && IsSorted(ys, AsReal()) && multiset(xs) == multiset(ys) && xs != []
    ensures |xs| == |ys| && xs[|xs| - 1] == ys[|ys| - 1]
    ensures multiset(xs[..|xs| - 1]) == multiset(ys[..|ys| - 1])
    ensures IsSorted(xs[..|xs| - 1], AsReal()) && IsSorted(ys[..|ys| - 1], AsReal())
  {
    assert IsSorted(xs[..|xs| - 1], AsReal());
    assert |multiset(xs)| == |xs| && |multiset(ys)| == |ys|;
    assert IsSorted(ys[..|ys| - 1], AsReal());
    hide IsSorted;
    SameElements(xs, ys);
    LastIsLargest(xs, ys[|ys| - 1]);
    LastIsLargest(ys, xs[|xs| - 1]);
    DropLast(xs);
    DropLast(ys);
  }

  lemma {:induction false} SortedIsUnique(xs: seq<int>, ys: seq<int>)
    requires IsSorted(xs, AsReal()) && IsSorted(ys, AsReal()) && multiset(xs) == multiset(ys)
    ensures xs == ys
  {
    hide IsSorted;
    if xs == [] {
      assert |multiset(ys)| == |ys|;
    } else {
      var n := |xs| - 1;
      SameLast(xs, ys);
      SortedIsUnique(xs[..n], ys[..n]);
      assert xs == xs[..n] + [xs[n]] && ys == ys[..n] + [ys[n]];
    }
  }

  /** Sorting gives 1..n exactly when the values are 1..n in some order. */
  lemma {:induction false} SortedCheck(values: seq<int>, n: nat)
    ensures SortBy(values, AsReal()) == CountingTo(n) <==> multiset(values) == multiset(CountingTo(n))
  {
    if multiset(values) == multiset(CountingTo(n)) {
      SortedIsUnique(SortBy(values, AsReal()), CountingTo(n));
    }
  }

  function Report(errors: seq<Complaint>, failed: bool, check: Complaint): seq<Complaint> {
    if failed then errors + [check] else errors
  }

  function CheckNumber(check: Complaint): nat {
    match check
    case WrongTotal => 0
    case WrongCellKeys => 1
    case WrongCellCounts => 2
    case WrongBlockCellKeys => 3
    case WrongBlockCellCounts => 4
    case WrongOrdinals => 5
  }

  /** The errors so far are the failures among the first checks. */
  ghost predicate Covers(errors: seq<Complaint>, accepted: seq<LedgerRow>, turns: nat) {
    forall check :: check in errors <==> CheckNumber(check) < turns && !Meets(accepted, check)
  }

  lemma ReportCovers(errors: seq<Complaint>, accepted: seq<LedgerRow>, failed: bool, check: Complaint)
    requires Covers(errors, accepted, CheckNumber(check)) && failed == !Meets(accepted, check)
    ensures Covers(Report(errors, failed, check), accepted, CheckNumber(check) + 1)
  {
  }

  lemma OrdinalCheck(accepted: seq<LedgerRow>, ordinals: map<Cell, seq<int>>)
    requires IsGrouped(ordinals, accepted)
    ensures (exists c :: c in ordinals && SortBy(ordinals[c], AsReal()) != CountingTo(RUNS_PER_CELL))
      <==> !OrdinalsCount(accepted)
  {
    hide OrdinalsIn, Map, SortBy;
    forall c | c in ordinals
      ensures SortBy(ordinals[c], AsReal()) == CountingTo(RUNS_PER_CELL) <==>
          multiset(ordinals[c]) == multiset(CountingTo(RUNS_PER_CELL))
    {
      SortedCheck(ordinals[c], RUNS_PER_CELL);
    }
    assert forall c :: c in Map(accepted, CellOf()) <==> c in ordinals.Keys;
  }

  lemma CountCheck<K>(keys: seq<K>, counts: map<K, nat>, expected: nat)
    requires counts.Keys == Elements(keys) && forall k :: k in counts ==> counts[k] == multiset(keys)[k]
    ensures (exists k :: k in counts && counts[k] != expected) <==> !EachOccurs(keys, expected)
  {
  }

  method CheckCells(accepted: seq<LedgerRow>) returns (keysFailed: bool, countsFailed: bool)
    ensures keysFailed == !Meets(accepted, WrongCellKeys) && countsFailed == !Meets(accepted, WrongCellCounts)
  {
    hide Elements, Map, CELLS, EachOccurs;
    var cellCounts := Tally(Map(accepted, CellOf()));
    CountCheck(Map(accepted, CellOf()), cellCounts, RUNS_PER_CELL);
    keysFailed := cellCounts.Keys != Elements(CELLS);
    countsFailed := exists c :: c in cellCounts && cellCounts[c] != RUNS_PER_CELL;
  }

  method CheckBlockCells(accepted: seq<LedgerRow>) returns (keysFailed: bool, countsFailed: bool)
    ensures keysFailed == !Meets(accepted, WrongBlockCellKeys) && countsFailed == !Meets(accepted, WrongBlockCellCounts)
  {
    hide Elements, Map, BlockCells, EachOccurs;
    var blockCounts := Tally(Map(accepted, BlockCellOf()));
    CountCheck(Map(accepted, BlockCellOf()), blockCounts, RUNS_PER_VISIT);
    keysFailed := blockCounts.Keys != BlockCells(BLOCKS);
    countsFailed := exists k :: k in blockCounts && blockCounts[k] != RUNS_PER_VISIT;
  }

  method CheckOrdinals(accepted: seq<LedgerRow>) returns (failed: bool)
    ensures failed == !Meets(accepted, WrongOrdinals)
  {
    hide IsGrouped, OrdinalsCount, SortBy, CountingTo;
    var ordinals := GroupOrdinals(accepted);
    OrdinalCheck(accepted, ordinals);
    failed := exists c :: c in ordinals && SortBy(ordinals[c], AsReal()) != CountingTo(RUNS_PER_CELL);
  }

  /** The audit complains of a check exactly when the accepted rows do not meet it. */
  method AuditAccepted(ledger: seq<LedgerRow>) returns (errors: seq<Complaint>)
    ensures forall check :: check in errors <==> !Meets(AcceptedRows(ledger), check)
  {
    hide AcceptedRows, Meets, Covers, Report;
    var accepted := AcceptedRows(ledger);
    errors := [];
    CoversNone(accepted);
    var totalFailed := CheckTotal(accepted);
    ReportCovers(errors, accepted, totalFailed, WrongTotal);
    errors := Report(errors, totalFailed, WrongTotal);
    var keysFailed, countsFailed := CheckCells(accepted);
    ReportCovers(errors, accepted, keysFailed, WrongCellKeys);
    errors := Report(errors, keysFailed, WrongCellKeys);
    ReportCovers(errors, accepted, countsFailed, WrongCellCounts);
    errors := Report(errors, countsFailed, WrongCellCounts);
    keysFailed, countsFailed := CheckBlockCells(accepted);
    ReportCovers(errors, accepted, keysFailed, WrongBlockCellKeys);
    errors := Report(errors, keysFailed, WrongBlockCellKeys);
    ReportCovers(errors, accepted, countsFailed, WrongBlockCellCounts);
    errors := Report(errors, countsFailed, WrongBlockCellCounts);
    var ordinalsFailed := CheckOrdinals(accepted);
    ReportCovers(errors, accepted, ordinalsFailed, WrongOrdinals);
    errors := Report(errors, ordinalsFailed, WrongOrdinals);
    CoversAll(errors, accepted);
  }

  method CheckTotal(accepted: seq<LedgerRow>) returns (failed: bool)
    ensures failed == !Meets(accepted, WrongTotal)
  {
    failed := |accepted| != EXPECTED_ACCEPTED_RUNS;
  }

  lemma CoversNone(accepted: seq<LedgerRow>)
    ensures Covers([], accepted, 0)
  {
  }

  lemma CoversAll(errors: seq<Complaint>, accepted: seq<LedgerRow>)
    requires Covers(errors, accepted, 6)
    ensures forall check :: check in errors <==> !Meets(accepted, check)
  {
  }

  // ---------- what the runner guarantees the audit ----------

  lemma {:induction false} ExpectedLength(schedule: seq<Row>)
    ensures |Expected(schedule)| == RUNS_PER_VISIT * |schedule|
  {
    if schedule != [] {
      ExpectedLength(schedule[..|schedule| - 1]);
    }
  }

  lemma {:induction false} CountIsMultiplicity<T, U>(xs: seq<T>, f: T -> U, k: U, p: T -> bool)
    requires forall x :: x in xs ==> p(x) == (f(x) == k)
    ensures Count(xs, p) == multiset(Map(xs, f))[k]
  {
    if xs != [] {
      CountIsMultiplicity(xs[1..], f, k, p);
      assert Map(xs, f) == [f(xs[0])] + Map(xs[1..], f);
    } else {
      assert Map(xs, f) == [];
    }
  }

  function WithBlockCell(b: int, c: Cell): LedgerRow -> bool {
    (r: LedgerRow) => r.block == b && r.cell == c
  }

  function WithCellOrdinal(c: Cell, n: int): LedgerRow -> bool {
    (r: LedgerRow) => r.cell == c && r.ordinal == n
  }

  function HasColumns(c: Cell): Row -> bool {
    (r: Row) => r.cell == c
  }

  /** The qos and loss columns of every block name each cell exactly once, and no other block or cell occurs. */
  ghost predicate ColumnsCoverCells(schedule: seq<Row>) {
    forall b, c :: Count(schedule, Both(HasColumns(c), b)) == ColumnShare(b, c)
  }

  function ColumnShare(b: int, c: Cell): nat {
    if 1 <= b <= BLOCKS && c in CELLS then 1 else 0
  }

  lemma {:induction false} CellMultiplicity(schedule: seq<Row>, c: Cell)
    ensures multiset(Map(Expected(schedule), CellOf()))[c] == RUNS_PER_VISIT * Count(schedule, HasColumns(c))
  {
    hide Expected, Count;
    CountExpected(schedule, WithCell(c), HasColumns(c));
    CountIsMultiplicity(Expected(schedule), CellOf(), c, WithCell(c));
  }

  lemma {:induction false} BlockCellMultiplicity(schedule: seq<Row>, b: int, c: Cell)
    ensures multiset(Map(Expected(schedule), BlockCellOf()))[(b, c)]
      == RUNS_PER_VISIT * Count(schedule, Both(HasColumns(c), b))
  {
    hide Expected, Count;
    CountExpected(schedule, WithBlockCell(b, c), Both(HasColumns(c), b));
    CountIsMultiplicity(Expected(schedule), BlockCellOf(), (b, c), WithBlockCell(b, c));
  }

  lemma CoveredCellCount(schedule: seq<Row>, c: Cell)
    requires IsValid(schedule) && ColumnsCoverCells(schedule)
    ensures Count(schedule, HasColumns(c)) == if c in CELLS then BLOCKS else 0
  {
    hide Filter, IsValid, CELLS;
    ValidRowsAreInBlocks(schedule);
    CountUpTo(schedule, HasColumns(c), BLOCKS, if c in CELLS then 1 else 0);
    CountSame(schedule, HasColumns(c), Within(HasColumns(c), BLOCKS));
  }

  /** A list whose multiplicities are all 0 or `times` has exactly the keys with a positive one, and conversely. */
  lemma MultiplicitiesDecide<K>(keys: seq<K>, expected: set<K>, times: nat)
    requires times > 0
    ensures KeysAre(keys, expected) && EachOccurs(keys, times)
      <==> forall k :: multiset(keys)[k] == if k in expected then times else 0
  {
    assert forall k :: k in keys <==> k in multiset(keys);
    assert forall k :: k in keys <==> k in Elements(keys);
  }

  lemma {:induction false} CoveredMeetsCellChecks(schedule: seq<Row>)
    requires IsValid(schedule) && ColumnsCoverCells(schedule)
    ensures Meets(Expected(schedule), WrongCellKeys) && Meets(Expected(schedule), WrongCellCounts)
  {
    hide Expected, IsValid, Count, CELLS, Map, ColumnsCoverCells, KeysAre, EachOccurs;
    forall c ensures multiset(Map(Expected(schedule), CellOf()))[c] ==
        if c in Elements(CELLS) then RUNS_PER_CELL else 0 {
      CellMultiplicity(schedule, c);
      CoveredCellCount(schedule, c);
    }
    MultiplicitiesDecide(Map(Expected(schedule), CellOf()), Elements(CELLS), RUNS_PER_CELL);
  }

  /** The two block-cell checks hold exactly when the columns cover the cells. */
  lemma {:induction false} BlockCellChecksDecide(schedule: seq<Row>)
    ensures Meets(Expected(schedule), WrongBlockCellKeys) && Meets(Expected(schedule), WrongBlockCellCounts)
      <==> ColumnsCoverCells(schedule)
  {
    hide Expected, Count, CELLS, Map, KeysAre, EachOccurs, BlockCells, ColumnShare;
    var keys := Map(Expected(schedule), BlockCellOf());
    MultiplicitiesDecide(keys, BlockCells(BLOCKS), RUNS_PER_VISIT);
    if ColumnsCoverCells(schedule) {
      forall k: (int, Cell) ensures multiset(keys)[k] == if k in BlockCells(BLOCKS) then RUNS_PER_VISIT else 0 {
        InBlockCells(k);
        BlockCellMultiplicity(schedule, k.0, k.1);
      }
    }
    if KeysAre(keys, BlockCells(BLOCKS)) && EachOccurs(keys, RUNS_PER_VISIT) {
      forall b, c ensures Count(schedule, Both(HasColumns(c), b)) == ColumnShare(b, c) {
        InBlockCells((b, c));
        BlockCellMultiplicity(schedule, b, c);
        assert multiset(keys)[(b, c)] == if (b, c) in BlockCells(BLOCKS) then RUNS_PER_VISIT else 0;
      }
    }
  }

  lemma InBlockCells(k: (int, Cell))
    ensures k == (k.0, k.1) && 0 <= ColumnShare(k.0, k.1) <= 1
    ensures k in BlockCells(BLOCKS) <==> ColumnShare(k.0, k.1) == 1
  {
    assert k == (k.0, k.1);
  }

  lemma {:induction false} ExpectedMeetsTotal(schedule: seq<Row>)
    requires IsValid(schedule)
    ensures Meets(Expected(schedule), WrongTotal)
  {
    hide ValidBlock, Randomized, Expected;
    ExpectedLength(schedule);
  }

  // ---------- ordinals ----------

  /** Of the three runs of a visit, only run g is counted. */
  lemma {:induction false} CountOneRun(schedule: seq<Row>, p: LedgerRow -> bool, q: Row -> bool)
    requires forall row :: row in schedule ==> Count(Runs(row), p) == if q(row) then 1 else 0
    ensures Count(Expected(schedule), p) == Count(schedule, q)
  {
    if schedule != [] {
      var n := |schedule| - 1;
      var front, row := schedule[..n], schedule[n];
      CountOneRun(front, p, q);
      assert schedule == front + [row];
      FilterSnoc(front, row, q);
      FilterConcat(Expected(front), Runs(row), p);
    }
  }

  /** The block whose runs include ordinal n. */
  function BlockOfOrdinal(n: int): int {
    (n - 1) / RUNS_PER_VISIT + 1
  }

  lemma OrdinalsOfRow(row: Row, c: Cell, n: int)
    requires row.runStart == FirstRun(row.block)
    ensures Count(Runs(row), WithCellOrdinal(c, n)) == if Both(HasColumns(c), BlockOfOrdinal(n))(row) then 1 else 0
  {
    var p, first := WithCellOrdinal(c, n), row.runStart;
    CountThree(Record(row, true, 0), Record(row, true, 1), Record(row, true, 2), p);
    assert BlockOfOrdinal(n) == row.block <==> first <= n < first + RUNS_PER_VISIT;
  }

  lemma CountThree<T>(x: T, y: T, z: T, p: T -> bool)
    ensures Count([x, y, z], p) == (if p(x) then 1 else 0) + (if p(y) then 1 else 0) + (if p(z) then 1 else 0)
  {
    assert [x, y, z] == [x] + [y] + [z];
    FilterSnoc([x] + [y], z, p);
    FilterSnoc([x], y, p);
    assert Filter([x], p) == if p(x) then [x] else [];
  }

  lemma {:induction false} OrdinalMultiplicity(schedule: seq<Row>, c: Cell, n: int)
    requires IsValid(schedule)
    ensures multiset(OrdinalsIn(Expected(schedule), c))[n] == Count(schedule, Both(HasColumns(c), BlockOfOrdinal(n)))
  {
    hide Filter, IsValid, Expected, Runs;
    var expected := Expected(schedule);
    forall row | row in schedule
      ensures Count(Runs(row), WithCellOrdinal(c, n)) == if Both(HasColumns(c), BlockOfOrdinal(n))(row) then 1 else 0
    {
      var i :| 0 <= i < |schedule| && schedule[i] == row;
      ValidRunStart(schedule, i);
      OrdinalsOfRow(row, c, n);
    }
    CountOneRun(schedule, WithCellOrdinal(c, n), Both(HasColumns(c), BlockOfOrdinal(n)));
    FilterTwice(expected, c, n);
    CountIsMultiplicity(Filter(expected, WithCell(c)), OrdinalOf(), n, WithOrdinal(n));
  }

  function WithOrdinal(n: int): LedgerRow -> bool {
    (r: LedgerRow) => r.ordinal == n
  }

  lemma {:induction false} FilterTwice(rows: seq<LedgerRow>, c: Cell, n: int)
    ensures Count(Filter(rows, WithCell(c)), WithOrdinal(n)) == Count(rows, WithCellOrdinal(c, n))
  {
    if rows != [] {
      FilterTwice(rows[1..], c, n);
      FilterConcat(if rows[0].cell == c then [rows[0]] else [], Filter(rows[1..], WithCell(c)), WithOrdinal(n));
    }
  }

  lemma {:induction false} CountingOnce(n: nat, k: int)
    ensures multiset(CountingTo(n))[k] == if 1 <= k <= n then 1 else 0
  {
    if n > 0 {
      CountingOnce(n - 1, k);
      assert CountingTo(n) == CountingTo(n - 1) + [n];
    } else {
      assert CountingTo(0) == [];
    }
  }

  lemma {:induction false} CoveredMeetsOrdinals(schedule: seq<Row>)
    requires IsValid(schedule) && ColumnsCoverCells(schedule)
    ensures Meets(Expected(schedule), WrongOrdinals)
  {
    var accepted := Expected(schedule);
    CoveredMeetsCellChecks(schedule);
    forall c | c in Map(accepted, CellOf())
      ensures multiset(OrdinalsIn(accepted, c)) == multiset(CountingTo(RUNS_PER_CELL))
    {
      assert c in Elements(Map(accepted, CellOf()));
      CoveredOrdinals(schedule, c);
    }
  }

  lemma {:induction false} CoveredOrdinals(schedule: seq<Row>, c: Cell)
    requires IsValid(schedule) && ColumnsCoverCells(schedule) && c in CELLS
    ensures multiset(OrdinalsIn(Expected(schedule), c)) == multiset(CountingTo(RUNS_PER_CELL))
  {
    hide IsValid, Expected, OrdinalsIn, CountingTo, CELLS, Count;
    forall n: int ensures multiset(OrdinalsIn(Expected(schedule), c))[n] == multiset(CountingTo(RUNS_PER_CELL))[n] {
      OrdinalMultiplicity(schedule, c, n);
      CountingOnce(RUNS_PER_CELL, n);
      assert ColumnShare(BlockOfOrdinal(n), c) == if 1 <= n <= RUNS_PER_CELL then 1 else 0;
    }
  }

  // ---------- the runner and the audit together ----------

  /**
   * Whatever crashes and restarts came before, a campaign marked complete passes all checks of its
   * accepted rows exactly when the columns of its schedule cover the cells in every block.
   */
  lemma {:induction false} CompleteCampaignPassesAudit(schedule: seq<Row>, launches: seq<Launch>)
    requires AllUse(launches, schedule) && History(launches).complete
    ensures (forall check :: Meets(AcceptedRows(History(launches).ledger), check)) <==> ColumnsCoverCells(schedule)
  {
    hide History, Expected, IsValid, AllUse, AcceptedRows, ColumnsCoverCells, Meets;
    CompleteScheduleIsValid(schedule, launches);
    CompleteLedgerIsExpected(schedule, launches);
    BlockCellChecksDecide(schedule);
    if ColumnsCoverCells(schedule) {
      CoveredMeetsEvery(schedule);
    }
  }

  lemma {:induction false} CoveredMeetsEvery(schedule: seq<Row>)
    requires IsValid(schedule) && ColumnsCoverCells(schedule)
    ensures forall check :: Meets(Expected(schedule), check)
  {
    hide Expected, IsValid, ColumnsCoverCells, Meets;
    ExpectedMeetsTotal(schedule);
    CoveredMeetsCellChecks(schedule);
    BlockCellChecksDecide(schedule);
    CoveredMeetsOrdinals(schedule);
    forall check ensures Meets(Expected(schedule), check) {
      match check {
        case WrongTotal =>
        case WrongCellKeys =>
        case WrongCellCounts =>
        case WrongBlockCellKeys =>
        case WrongBlockCellCounts =>
        case WrongOrdinals =>
      }
    }
  }

  /** Columns that spell the row's own id cover the cells. */
  lemma NamedCovers(schedule: seq<Row>)
    requires IsValid(schedule) && Named(schedule)
    ensures ColumnsCoverCells(schedule)
  {
    hide Filter, IsValid, CELLS;
    ValidVisitsEachCellOnce(schedule);
    forall b, c ensures Count(schedule, Both(HasColumns(c), b)) == ColumnShare(b, c) {
      CountSame(schedule, Both(HasColumns(c), b), Both(HasId(c), b));
      if ColumnShare(b, c) == 0 { CountNone(schedule, Both(HasId(c), b)); }
    }
  }

  /** Every completed campaign over a built schedule passes the audit. */
  lemma {:induction false} BuiltCampaignPassesAudit(shuffles: seq<seq<Cell>>, launches: seq<Launch>, check: Complaint)
    requires AllUse(launches, Built(shuffles)) && History(launches).complete
    ensures Meets(AcceptedRows(History(launches).ledger), check)
  {
    hide History, Built, IsValid, AllUse, AcceptedRows, ColumnsCoverCells, Meets, Named;
    CompleteScheduleIsValid(Built(shuffles), launches);
    BuiltBlocksGrow(shuffles);
    NamedCovers(Built(shuffles));
    CompleteCampaignPassesAudit(Built(shuffles), launches);
  }

  // ---------- a completed campaign that the audit refuses ----------

  function OneCell(): Row -> Cell {
    (r: Row) => Cell(Reliable, 0)
  }

  /** A built schedule whose columns all say the same cell. */
  function Mislabelled(shuffles: seq<seq<Cell>>): seq<Row> {
    WithColumns(Built(shuffles), OneCell())
  }

  lemma {:induction false} MislabelledCompletes(shuffles: seq<seq<Cell>>)
    requires IsValid(Built(shuffles))
    ensures var session := Process(EMPTY, Arguments(Mislabelled(shuffles), None, RUNS_PER_VISIT), Delivering());
      session.disks != [] && session.disks[|session.disks| - 1].complete
  {
    hide Built, IsValid, Process, Succeeds;
    var schedule := Mislabelled(shuffles);
    ValidityIgnoresColumns(Built(shuffles), OneCell());
    BuiltInBlockOrder(shuffles);
    assert CellsInBlockOrder(schedule);
    assert forall row :: row in schedule ==> KnownLoss(row) by {
      assert LOSS_TARGETS[0] == 0;
    }
    DeliveringSucceeds(schedule, RUNS_PER_VISIT);
    CompletesExactlyInBlockOrder(schedule, RUNS_PER_VISIT, Delivering());
  }

  lemma MislabelledDoesNotCover(schedule: seq<Row>)
    ensures !ColumnsCoverCells(WithColumns(schedule, OneCell()))
  {
    var c := Cell(BestEffort, 0);
    assert c == CELLS[5];
    CountNone(WithColumns(schedule, OneCell()), Both(HasColumns(c), 1));
    assert ColumnShare(1, c) == 1;
  }

  /** A history over a valid schedule that reaches COMPLETE and fails a check of the audit. */
  ghost predicate CompleteButRefused(schedule: seq<Row>, launches: seq<Launch>, check: Complaint) {
    && IsValid(schedule) && AllUse(launches, schedule) && History(launches).complete
    && !Meets(AcceptedRows(History(launches).ledger), check)
  }

  lemma MislabelledIsRefused(shuffles: seq<seq<Cell>>) returns (launches: seq<Launch>, check: Complaint)
    requires IsValid(Built(shuffles))
    ensures CompleteButRefused(Mislabelled(shuffles), launches, check)
  {
    hide Built, IsValid, Process, Meets, ColumnsCoverCells, AcceptedRows, WithColumns, History;
    var schedule := Mislabelled(shuffles);
    var a := Arguments(schedule, None, RUNS_PER_VISIT);
    MislabelledCompletes(shuffles);
    MislabelledDoesNotCover(Built(shuffles));
    ValidityIgnoresColumns(Built(shuffles), OneCell());
    var launch := Launch(a, Delivering(), |Process(EMPTY, a, Delivering()).disks|);
    launches := [launch];
    OneLaunch(launch);
    CompleteCampaignPassesAudit(schedule, launches);
    check :| !Meets(AcceptedRows(History(launches).ledger), check);
  }

  /** The schedule check lets a schedule through whose campaign completes and then fails the audit. */
  lemma CompletedCampaignCanFailAudit()
    ensures exists schedule, launches, check :: CompleteButRefused(schedule, launches, check)
  {
    hide Built, IsValid, CompleteButRefused, SomeShuffles, Mislabelled, AreShuffles;
    SomeShufflesDiffer();
    var launches, check := MislabelledIsRefused(SomeShuffles());
  }

  lemma OneLaunch(launch: Launch)
    requires launch.survives == |Process(EMPTY, launch.arguments, launch.world).disks|
    ensures History([launch]) == LastOf(Process(EMPTY, launch.arguments, launch.world).disks, EMPTY)
  {
    hide Process;
    assert [launch][..0] == [];
    assert History([]) == EMPTY;
  }
}
