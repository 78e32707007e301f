/** `_check_information`: turns the scraped rows of one day into spot
    records. A loop over the commodity column keeps the commodity rows and
    resolves their symbols and spot units (basis.py:140-154); column-wise
    transforms then build the contract codes and the basis figures
    (basis.py:156-178). */
module CheckInfo {

  import opened Wrappers
  import opened Text
  import opened Dates
  import opened Symbols

  /** One scraped row: the six columns kept at basis.py:137. A price cell is
      None when its text is not a number `float()` accepts. */
  datatype RawRow = RawRow(
    commodity: string,
    spot: Option<real>,
    nearContract: string,
    nearPrice: Option<real>,
    domContract: string,
    domPrice: Option<real>)

  /** One output row: the columns var, sp, near_symbol, near_price,
      dom_symbol, dom_price, near_basis, dom_basis, near_basis_rate,
      dom_basis_rate and date. */
  datatype SpotRecord = SpotRecord(
    symbol: string,
    spot: real,
    nearContract: string,
    nearPrice: real,
    domContract: string,
    domPrice: real,
    nearBasis: real,
    domBasis: real,
    nearRate: Rate,
    domRate: Rate,
    date: string)

  /** The reference data the pipeline reads: the trading calendar as
      `YYYYMMDD` texts, the Chinese-name-to-symbol map and the exchange lists. */
  datatype Reference = Reference(calendar: set<string>, names: map<string, string>, exchanges: Exchanges)

  /** Why building the records raised. */
  datatype Failure =
    | UnknownCommodity(key: string)  // the name map has no entry for a kept label
    | NotANumber                     // a price cell `float()` rejects
    | NotAScalar                     // `float()` of an egg or glass spot column of several rows
    | NoRecords                      // no row was kept, so the price columns do not exist
    | BadContract(cell: string)      // the contract digits do not read as an `int64`

  /** `df_data[df_data['symbol'] == name]`: the rows whose commodity cell is `name`, in order. */
  function Matching(table: seq<RawRow>, name: string): (r: seq<RawRow>)
    ensures forall g :: g in r <==> g in table && g.commodity == name
  {
    if table == [] then []
    else (if table[0].commodity == name then [table[0]] else []) + Matching(table[1..], name)
  }

  /** The filter keeps every row named `name` as often as the table has it,
      and no other row. */
  lemma {:induction false} MatchingCounts(table: seq<RawRow>, name: string)
    ensures forall g :: multiset(Matching(table, name))[g]
                        == (if g.commodity == name then multiset(table)[g] else 0)
  {
    if table != [] {
      MatchingCounts(table[1..], name);
      assert table == [table[0]] + table[1..];
    }
  }

  /** A kept row after the row loop: its symbol and its unit-corrected spot price. */
  datatype Staged = Staged(symbol: string, spot: real, row: RawRow)

  predicate SpotsNumeric(group: seq<RawRow>) {
    forall g :: g in group ==> g.spot.Some?
  }

  function StageGroup(symbol: string, group: seq<RawRow>): (r: seq<Staged>)
    requires SpotsNumeric(group)
    ensures |r| == |group|
    ensures forall k :: 0 <= k < |r| ==>
      r[k] == Staged(symbol, NormalizeSpot(symbol, group[k].spot.value), group[k])
  {
    seq(|group|, k requires 0 <= k < |group| => Staged(symbol, NormalizeSpot(symbol, group[k].spot.value), group[k]))
  }

  /** One turn of the row loop (basis.py:141-154) for the row `row` of `table`:
      a skipped label adds nothing; a kept one adds every row with the same
      label, with the symbol the name map gives and the spot price unit-corrected. */
  function StageRow(row: RawRow, table: seq<RawRow>, names: map<string, string>): Result<seq<Staged>, Failure>
  {
    match LabelKey(row.commodity)
    case None => Ok([])
    case Some(key) =>
      if key !in names then Err(UnknownCommodity(key))
      else
        var symbol := names[key];
        var group := Matching(table, row.commodity);
        if !SpotsNumeric(group) then Err(NotANumber)
        else if (symbol == "JD" || symbol == "FG") && |group| != 1 then Err(NotAScalar)
        else Ok(StageGroup(symbol, group))
  }

  /** The row loop over `rows` (a prefix of `table`): what `records` holds
      after it, or the first failure. */
  function Stage(rows: seq<RawRow>, table: seq<RawRow>, names: map<string, string>): Result<seq<Staged>, Failure>
  {
    if rows == [] then Ok([])
    else
      var prev := Stage(rows[..|rows| - 1], table, names);
      if prev.Err? then prev
      else
        match StageRow(rows[|rows| - 1], table, names)
        case Err(e) => Err(e)
        case Ok(group) => Ok(prev.value + group)
  }

  /** A failure in the row loop is final: later rows do not change it. */
  lemma {:induction false} StageFailurePersists(rows: seq<RawRow>, k: nat, table: seq<RawRow>, names: map<string, string>)
    requires k <= |rows| && Stage(rows[..k], table, names).Err?
    ensures Stage(rows, table, names) == Stage(rows[..k], table, names)
    decreases |rows| - k
  {
    if k < |rows| {
      assert rows[..k + 1][..k] == rows[..k];
      assert Stage(rows[..k + 1], table, names) == Stage(rows[..k], table, names);
      StageFailurePersists(rows, k + 1, table, names);
    } else {
      assert rows[..k] == rows;
    }
  }

  /** The cells the column transforms convert read: both prices are numbers
      `float()` accepts (basis.py:156-157) and both contract labels leave
      digits that `int()` accepts (basis.py:159-163). */
  predicate CellsRead(row: RawRow) {
    && row.nearPrice.Some? && row.domPrice.Some?
    && ContractReads(row.nearContract) && ContractReads(row.domContract)
  }

  /** Lines 156-178 for one kept row: the prices are converted, the contract
      codes derived and the basis figures computed; `day` is the date column. */
  function Finish(st: Staged, day: string, ex: Exchanges): (r: Result<SpotRecord, Failure>)
    ensures r.Ok? ==> FromStaged(st, r.value, day, ex)
    ensures r.Ok? <==> CellsRead(st.row)
    ensures r.Err? ==> (r.error == NotANumber <==> st.row.nearPrice.None? || st.row.domPrice.None?)
    ensures r.Err? ==> r.error.NotANumber? || r.error.BadContract?
  {
    var row := st.row;
    if row.nearPrice.None? || row.domPrice.None? then Err(NotANumber)
    else
      match ContractCode(st.symbol, row.nearContract, ex)
      case None => Err(BadContract(row.nearContract))
      case Some(near) =>
        match ContractCode(st.symbol, row.domContract, ex)
        case None => Err(BadContract(row.domContract))
        case Some(dom) =>
          var np := row.nearPrice.value;
          var dp := row.domPrice.value;
          Ok(SpotRecord(st.symbol, st.spot, near, np, dom, dp,
            Basis(np, st.spot), Basis(dp, st.spot), RateOf(np, st.spot), RateOf(dp, st.spot), day))
  }

  /** What a record says about the kept row it was built from: same symbol and
      spot, the scraped prices, the derived contract codes, the basis figures
      against that spot, and the requested date. */
  ghost predicate FromStaged(st: Staged, rec: SpotRecord, day: string, ex: Exchanges) {
    && rec.symbol == st.symbol
    && rec.spot == st.spot
    && st.row.nearPrice == Some(rec.nearPrice)
    && st.row.domPrice == Some(rec.domPrice)
    && ContractCode(st.symbol, st.row.nearContract, ex) == Some(rec.nearContract)
    && ContractCode(st.symbol, st.row.domContract, ex) == Some(rec.domContract)
    && rec.nearBasis == rec.nearPrice - rec.spot
    && rec.domBasis == rec.domPrice - rec.spot
    && (rec.spot != 0.0 ==> rec.nearRate == Finite(rec.nearPrice / rec.spot - 1.0))
    && (rec.spot != 0.0 ==> rec.domRate == Finite(rec.domPrice / rec.spot - 1.0))
    && (rec.spot == 0.0 ==> rec.nearRate == NonFinite && rec.domRate == NonFinite)
    && rec.date == day
  }

  /** `FromStaged` for the date column `day`, as a relation. */
  ghost function BuiltFrom(day: string, ex: Exchanges): (Staged, SpotRecord) -> bool {
    (st: Staged, rec: SpotRecord) => FromStaged(st, rec, day, ex)
  }

  /** Place by place, each record is in relation `built` with the kept row at the same place. */
  ghost predicate Paired(staged: seq<Staged>, recs: seq<SpotRecord>, built: (Staged, SpotRecord) -> bool)
    decreases |staged|
  {
    && |staged| == |recs|
    && (staged != [] ==> built(staged[0], recs[0]) && Paired(staged[1..], recs[1..], built))
  }

  /** The record at place `k` is paired with the kept row at place `k`. */
  lemma {:induction false} PairedAt(staged: seq<Staged>, recs: seq<SpotRecord>, built: (Staged, SpotRecord) -> bool, k: nat)
    requires Paired(staged, recs, built) && k < |staged|
    ensures |recs| == |staged| && built(staged[k], recs[k])
  {
    if k > 0 {
      PairedAt(staged[1..], recs[1..], built, k - 1);
      assert staged[1..][k - 1] == staged[k] && recs[1..][k - 1] == recs[k];
    }
  }

  /** The column transforms over all kept rows: one record per kept row, in
      order, or the failure of the first row that has one. */
  function FinishAll(staged: seq<Staged>, day: string, ex: Exchanges): (r: Result<seq<SpotRecord>, Failure>)
    ensures r.Ok? ==> Paired(staged, r.value, BuiltFrom(day, ex))
    ensures r.Ok? <==> forall st :: st in staged ==> CellsRead(st.row)
  {
    if staged == [] then Ok([])
    else
      assert forall st :: st in staged <==> st == staged[0] || st in staged[1..];
      match Finish(staged[0], day, ex)
      case Err(e) => Err(e)
      case Ok(rec) =>
        match FinishAll(staged[1..], day, ex)
        case Err(e) => Err(e)
        case Ok(rest) =>
          assert ([rec] + rest)[1..] == rest;
          Ok([rec] + rest)
  }

  /** The row loop gets past a row: its label is skipped, or the name map
      knows it, every row with that label has a numeric spot, and an egg or
      glass label has a single row. */
  predicate RowAccepted(row: RawRow, table: seq<RawRow>, names: map<string, string>) {
    match LabelKey(row.commodity)
    case None => true
    case Some(key) =>
      && key in names
      && SpotsNumeric(Matching(table, row.commodity))
      && ((names[key] == "JD" || names[key] == "FG") ==> |Matching(table, row.commodity)| == 1)
  }

  /** One turn of the row loop raises exactly when its row is not accepted. */
  lemma StageRowOk(row: RawRow, table: seq<RawRow>, names: map<string, string>)
    ensures StageRow(row, table, names).Ok? <==> RowAccepted(row, table, names)
  {
  }

  /** The row loop raises exactly when some row is not accepted. */
  lemma {:induction false} StageOk(rows: seq<RawRow>, table: seq<RawRow>, names: map<string, string>)
    ensures Stage(rows, table, names).Ok? <==> forall row :: row in rows ==> RowAccepted(row, table, names)
  {
    if rows != [] {
      var init := rows[..|rows| - 1];
      var last := rows[|rows| - 1];
      StageOk(init, table, names);
      assert rows == init + [last];
      StageRowOk(last, table, names);
    }
  }

  /** `_check_information(df_data, date)`: the records of one day, or the
      failure that makes it raise. */
  function Checked(table: seq<RawRow>, date: Date, ref: Reference): Result<seq<SpotRecord>, Failure>
    requires Valid(date)
  {
    match Stage(table, table, ref.names)
    case Err(e) => Err(e)
    case Ok(staged) =>
      if staged == [] then Err(NoRecords)
      else FinishAll(staged, Yyyymmdd(date), ref.exchanges)
  }

  /** The row loop of basis.py:140-154 followed by the column transforms. */
  method CheckInformation(table: seq<RawRow>, date: Date, ref: Reference) returns (r: Result<seq<SpotRecord>, Failure>)
    requires Valid(date)
    ensures r == Checked(table, date, ref)
  {
    var records: seq<Staged> := [];
    var i := 0;
    while i < |table|
      invariant 0 <= i <= |table|
      invariant Stage(table[..i], table, ref.names) == Ok(records)
    {
      assert table[..i + 1][..i] == table[..i];
      var added := StageRow(table[i], table, ref.names);
      if added.Err? {
        StageFailurePersists(table, i + 1, table, ref.names);
        assert table[..|table|] == table;
        return Err(added.error);
      }
      records := records + added.value;
      i := i + 1;
    }
    assert table[..i] == table;
    if records == [] {
      return Err(NoRecords);
    }
    r := FinishAll(records, Yyyymmdd(date), ref.exchanges);
  }

  // ---- What the records are ----

  /** A row is kept, and its label resolves to `symbol`. */
  ghost predicate KeptAs(row: RawRow, names: map<string, string>, symbol: string) {
    var key := LabelKey(row.commodity);
    key.Some? && key.value in names && names[key.value] == symbol
  }

  /** A record comes from a scraped row: a kept row whose label resolves to the
      record's symbol, whose spot cell is the record's spot before the unit
      correction, and whose prices and contract labels give the rest. */
  ghost predicate FromRow(row: RawRow, rec: SpotRecord, day: string, ref: Reference) {
    && KeptAs(row, ref.names, rec.symbol)
    && row.spot.Some?
    && FromStaged(Staged(rec.symbol, NormalizeSpot(rec.symbol, row.spot.value), row), rec, day, ref.exchanges)
  }

  /** Every staged row is a row of the table, kept under its symbol, with its spot corrected. */
  lemma {:induction false} StagedFromTable(rows: seq<RawRow>, table: seq<RawRow>, names: map<string, string>)
    requires Stage(rows, table, names).Ok?
    ensures forall st :: st in Stage(rows, table, names).value ==>
      st.row in table && KeptAs(st.row, names, st.symbol) && st.row.spot.Some?
      && st.spot == NormalizeSpot(st.symbol, st.row.spot.value)
  {
    if rows != [] {
      var last := rows[|rows| - 1];
      StagedFromTable(rows[..|rows| - 1], table, names);
      var group := StageRow(last, table, names);
      if group.Ok? && LabelKey(last.commodity).Some? {
        var symbol := names[LabelKey(last.commodity).value];
        forall st | st in group.value
          ensures st.row in table && KeptAs(st.row, names, st.symbol)
        {
          var g := Matching(table, last.commodity);
          var k :| 0 <= k < |group.value| && group.value[k] == st;
          assert st.row == g[k] && g[k] in g;
        }
      }
    }
  }

  /** Every kept row of `rows` that is a row of the table is staged. */
  lemma {:induction false} KeptRowsStaged(rows: seq<RawRow>, table: seq<RawRow>, names: map<string, string>)
    requires Stage(rows, table, names).Ok?
    ensures forall row :: row in rows && row in table && LabelKey(row.commodity).Some? ==>
      exists st :: st in Stage(rows, table, names).value && st.row == row
  {
    if rows != [] {
      var init := rows[..|rows| - 1];
      var last := rows[|rows| - 1];
      KeptRowsStaged(init, table, names);
      var staged := Stage(rows, table, names).value;
      var group := StageRow(last, table, names).value;
      assert staged == Stage(init, table, names).value + group;
      forall row | row in rows && row in table && LabelKey(row.commodity).Some?
        ensures exists st :: st in staged && st.row == row
      {
        if row in init {
          var st :| st in Stage(init, table, names).value && st.row == row;
          assert st in staged;
        } else {
          assert row == last;
          var g := Matching(table, last.commodity);
          assert row in g;
          var k :| 0 <= k < |g| && g[k] == row;
          assert group[k] in staged && group[k].row == row;
        }
      }
    }
  }

  /** A record built from a staged row comes from that row. */
  lemma StagedGivesFromRow(st: Staged, rec: SpotRecord, day: string, ref: Reference)
    requires KeptAs(st.row, ref.names, st.symbol) && st.row.spot.Some?
    requires st.spot == NormalizeSpot(st.symbol, st.row.spot.value)
    requires BuiltFrom(day, ref.exchanges)(st, rec)
    ensures FromRow(st.row, rec, day, ref)
  {
  }

  /** Each record comes from a kept row of the table. */
  lemma RecordsFromRows(table: seq<RawRow>, staged: seq<Staged>, recs: seq<SpotRecord>, day: string, ref: Reference)
    requires Stage(table, table, ref.names) == Ok(staged)
    requires FinishAll(staged, day, ref.exchanges) == Ok(recs)
    ensures forall rec :: rec in recs ==> exists row :: row in table && FromRow(row, rec, day, ref)
  {
    StagedFromTable(table, table, ref.names);
    forall rec | rec in recs
      ensures exists row :: row in table && FromRow(row, rec, day, ref)
    {
      var k :| 0 <= k < |recs| && recs[k] == rec;
      PairedAt(staged, recs, BuiltFrom(day, ref.exchanges), k);
      assert staged[k] in staged;
      StagedGivesFromRow(staged[k], rec, day, ref);
    }
  }

  /** Each kept row of the table gives a record. */
  lemma RowsGiveRecords(table: seq<RawRow>, staged: seq<Staged>, recs: seq<SpotRecord>, day: string, ref: Reference)
    requires Stage(table, table, ref.names) == Ok(staged)
    requires FinishAll(staged, day, ref.exchanges) == Ok(recs)
    ensures forall row :: row in table && LabelKey(row.commodity).Some? ==>
      exists rec :: rec in recs && FromRow(row, rec, day, ref)
  {
    StagedFromTable(table, table, ref.names);
    KeptRowsStaged(table, table, ref.names);
    forall row | row in table && LabelKey(row.commodity).Some?
      ensures exists rec :: rec in recs && FromRow(row, rec, day, ref)
    {
      var st :| st in staged && st.row == row;
      var k :| 0 <= k < |staged| && staged[k] == st;
      PairedAt(staged, recs, BuiltFrom(day, ref.exchanges), k);
      assert recs[k] in recs;
      StagedGivesFromRow(st, recs[k], day, ref);
    }
  }

  /** The records of a day are exactly what the kept rows give: each record
      comes from a kept row of the table, and each kept row gives a record.
      A skipped label contributes nothing. */
  lemma RecordsFromKeptRows(table: seq<RawRow>, date: Date, ref: Reference)
    requires Valid(date) && Checked(table, date, ref).Ok?
    ensures var recs := Checked(table, date, ref).value;
      && recs != []
      && (forall rec :: rec in recs ==> exists row :: row in table && FromRow(row, rec, Yyyymmdd(date), ref))
      && (forall row :: row in table && LabelKey(row.commodity).Some? ==>
            exists rec :: rec in recs && FromRow(row, rec, Yyyymmdd(date), ref))
  {
    var staged := Stage(table, table, ref.names).value;
    var day := Yyyymmdd(date);
    var recs := Checked(table, date, ref).value;
    assert FinishAll(staged, day, ref.exchanges) == Ok(recs);
    RecordsFromRows(table, staged, recs, day, ref);
    RowsGiveRecords(table, staged, recs, day, ref);
  }

  /** `_check_information` returns exactly when every row is accepted by the
      row loop, at least one row is kept, and every kept row's prices and
      contract labels read. */
  lemma CheckedOk(table: seq<RawRow>, date: Date, ref: Reference)
    requires Valid(date)
    ensures Checked(table, date, ref).Ok? <==>
      && (forall row :: row in table ==> RowAccepted(row, table, ref.names))
      && (exists row :: row in table && LabelKey(row.commodity).Some?)
      && (forall row :: row in table && LabelKey(row.commodity).Some? ==> CellsRead(row))
  {
    StageOk(table, table, ref.names);
    var stage := Stage(table, table, ref.names);
    if stage.Ok? {
      var staged := stage.value;
      StagedFromTable(table, table, ref.names);
      KeptRowsStaged(table, table, ref.names);
      if staged != [] {
        assert staged[0] in staged;
        assert staged[0].row in table && LabelKey(staged[0].row.commodity).Some?;
      }
      assert (forall st :: st in staged ==> CellsRead(st.row))
         <==> (forall row :: row in table && LabelKey(row.commodity).Some? ==> CellsRead(row));
    }
  }
}
