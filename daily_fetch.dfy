/** `get_spot_price`: one day's records. The date is checked against the
    first day of data and the trading calendar; then the dated and the latest
    page are fetched in turn until a page echoes the requested date and its
    table reads, or until the fifth fetch that raises. */
module DailyFetch {

  import opened Wrappers
  import opened Text
  import opened Dates
  import opened Symbols
  import opened CheckInfo

  /** The two pages tried in each round: the page for the requested date
      (`SYS_SPOT_PRICE_URL`), then the latest page (`SYS_SPOT_PRICE_LATEST_URL`). */
  datatype Url = Dated | Latest

  /** What fetching and parsing a page gave: it raised, or it gave the text
      of the cell that echoes the page's date and the rows of the price table. */
  datatype Response = Raises | Page(echo: string, table: seq<RawRow>)

  /** The outcome of `get_spot_price`: a table, None for a day that is not a
      trading day, False once the retries are used up, the exception for a
      date before the first day of data, or a fetch loop that has not ended
      within the rounds the model allows. */
  datatype DailyResult = Rows(records: seq<SpotRecord>) | NoData | Exhausted | OutOfRange | Spinning

  /** What one fetch does to the retry loop. */
  datatype Step = Accepted(records: seq<SpotRecord>) | Mismatch | Failed

  /** The fetch that raises for the fifth time ends the loop. */
  const MaxFailures := 5

  /** The fetcher: the response of the `k`-th fetch (from 0) made for `date`, at `url`. */
  type Fetcher = (Date, nat, Url) -> Response

  /** The records of `records` whose symbol is `v`, in order. */
  function BySymbol(records: seq<SpotRecord>, v: string): (r: seq<SpotRecord>)
    ensures forall rec :: rec in r <==> rec in records && rec.symbol == v
  {
    if records == [] then []
    else (if records[0].symbol == v then [records[0]] else []) + BySymbol(records[1..], v)
  }

  /** `records.loc[[v for v in vars_list if v in records.index], :]` with the
      records indexed by symbol: for each requested symbol in turn, the
      records of that symbol. */
  function SelectVars(records: seq<SpotRecord>, vars: seq<string>): (r: seq<SpotRecord>)
    ensures forall rec :: rec in r <==> rec in records && rec.symbol in vars
  {
    if vars == [] then [] else BySymbol(records, vars[0]) + SelectVars(records, vars[1..])
  }

  /** `news[3:11] == date.strftime('%Y%m%d')` with `news` the digits of the echo cell. */
  predicate DateEchoed(echo: string, date: Date)
    requires Valid(date)
  {
    Slice(DigitsOnly(echo), 3, 11) == Yyyymmdd(date)
  }

  /** The page the `k`-th fetch of a day asks for: the dated page first in
      each round, then the latest one. */
  function UrlOf(k: nat): Url {
    if k % 2 == 0 then Dated else Latest
  }

  /** One pass of the `try` block: a page for another date is a mismatch;
      a page for the date whose table reads gives the selected records; a
      raise, in the fetch or in reading the table, is a failure. */
  function StepOf(resp: Response, date: Date, vars: seq<string>, ref: Reference): (s: Step)
    requires Valid(date)
    ensures s.Mismatch? <==> resp.Page? && !DateEchoed(resp.echo, date)
    ensures s.Accepted? <==> resp.Page? && DateEchoed(resp.echo, date) && Checked(resp.table, date, ref).Ok?
    ensures s.Accepted? ==> s.records == SelectVars(Checked(resp.table, date, ref).value, vars)
  {
    match resp
    case Raises => Failed
    case Page(echo, table) =>
      if DateEchoed(echo, date) then
        match Checked(table, date, ref)
        case Err(_) => Failed
        case Ok(records) => Accepted(SelectVars(records, vars))
      else Mismatch
  }

  /** What the `k`-th fetch of a day does to the retry loop. */
  function StepsOf(date: Date, vars: seq<string>, ref: Reference, fetch: Fetcher): nat -> Step
    requires Valid(date)
  {
    (k: nat) => StepOf(fetch(date, k, UrlOf(k)), date, vars, ref)
  }

  /** The retry loop from fetch `k` on, with counter `i`, when the `j`-th
      fetch has step `step(j)` and the loop may make `limit` fetches. A
      mismatch leaves the counter as it is; a failure increments it, and
      ends the loop once it exceeds five. */
  function Retry(step: nat -> Step, limit: nat, k: nat, i: nat): (r: DailyResult)
    ensures r.Rows? || r.Exhausted? || r.Spinning?
    decreases limit - k
  {
    if k >= limit then Spinning
    else
      match step(k)
      case Accepted(records) => Rows(records)
      case Mismatch => Retry(step, limit, k + 1, i)
      case Failed =>
        if i + 1 > MaxFailures then Exhausted
        else Retry(step, limit, k + 1, i + 1)
  }

  /** `get_spot_price(date, vars_list)` when the loop may run `rounds` rounds of two fetches. */
  function Daily(date: Date, vars: seq<string>, ref: Reference, fetch: Fetcher, rounds: nat): DailyResult
    requires Valid(date)
  {
    if Before(date, FirstDataDate) then OutOfRange
    else if Yyyymmdd(date) !in ref.calendar then NoData
    else Retry(StepsOf(date, vars, ref, fetch), 2 * rounds, 0, 1)
  }

  /** The body of the `try` block (basis.py:97-106) for one fetched page. */
  method TryPage(resp: Response, date: Date, vars: seq<string>, ref: Reference) returns (step: Step)
    requires Valid(date)
    ensures step == StepOf(resp, date, vars, ref)
  {
    match resp {
      case Raises =>
        return Failed;
      case Page(echo, table) =>
        var news := DigitsOnly(echo);
        if Slice(news, 3, 11) != Yyyymmdd(date) {
          return Mismatch;
        }
        var records := CheckInformation(table, date, ref);
        match records {
          case Err(_) =>
            return Failed;
          case Ok(recs) =>
            return Accepted(SelectVars(recs, vars));
        }
    }
  }

  /** One step of the retry loop. */
  lemma RetryAt(step: nat -> Step, limit: nat, k: nat, i: nat)
    requires k < limit
    ensures step(k).Accepted? ==> Retry(step, limit, k, i) == Rows(step(k).records)
    ensures step(k).Mismatch? ==> Retry(step, limit, k, i) == Retry(step, limit, k + 1, i)
    ensures step(k).Failed? && i + 1 > MaxFailures ==> Retry(step, limit, k, i) == Exhausted
    ensures step(k).Failed? && i + 1 <= MaxFailures ==> Retry(step, limit, k, i) == Retry(step, limit, k + 1, i + 1)
  {
  }

  /** One pass of the loop body: fetch the `k`-th page and run the `try` block on it. */
  method FetchStep(date: Date, vars: seq<string>, ref: Reference, fetch: Fetcher, k: nat)
    returns (step: Step)
    requires Valid(date)
    ensures step == StepsOf(date, vars, ref, fetch)(k)
  {
    var url := UrlOf(k);
    var resp := fetch(date, k, url);
    step := TryPage(resp, date, vars, ref);
  }

  /** basis.py:85-114, with `while True` cut after `rounds` rounds. */
  method GetSpotPrice(date: Date, vars: seq<string>, ref: Reference, fetch: Fetcher, rounds: nat)
    returns (r: DailyResult)
    requires Valid(date)
    ensures r == Daily(date, vars, ref, fetch, rounds)
  {
    if Before(date, FirstDataDate) {
      return OutOfRange;
    }
    if Yyyymmdd(date) !in ref.calendar {
      return NoData;
    }
    r := FetchLoop(date, vars, ref, fetch, rounds);
  }

  /** The `while True` loop of basis.py:91-114, cut after `rounds` rounds. */
  method FetchLoop(date: Date, vars: seq<string>, ref: Reference, fetch: Fetcher, rounds: nat)
    returns (r: DailyResult)
    requires Valid(date)
    ensures r == Retry(StepsOf(date, vars, ref, fetch), 2 * rounds, 0, 1)
  {
    ghost var steps := StepsOf(date, vars, ref, fetch);
    ghost var outcome := Retry(steps, 2 * rounds, 0, 1);
    var i := 1;
    var k := 0;
    var round := 0;
    while round < rounds
      invariant 0 <= round <= rounds && k == 2 * round
      invariant 1 <= i <= MaxFailures
      invariant k <= 2 * rounds && Retry(steps, 2 * rounds, k, i) == outcome
    {
      for j := 0 to 2
        invariant k == 2 * round + j
        invariant 1 <= i <= MaxFailures
        invariant k <= 2 * rounds && Retry(steps, 2 * rounds, k, i) == outcome
      {
        var step := FetchStep(date, vars, ref, fetch, k);
        RetryAt(steps, 2 * rounds, k, i);
        if step.Accepted? {
          return Rows(step.records);
        } else if step.Failed? {
          i := i + 1;
          if i > MaxFailures {
            return Exhausted;
          }
        }
        k := k + 1;
      }
      round := round + 1;
    }
    return Spinning;
  }

  // ---- The retry budget ----

  /** The number of fetches among `k .. n-1` that fail. */
  function Failures(step: nat -> Step, k: nat, n: nat): nat
    decreases n - k
  {
    if k >= n then 0
    else (if step(k).Failed? then 1 else 0) + Failures(step, k + 1, n)
  }

  /** No fetch among `k .. n-1` gives an accepted page. */
  predicate NoneAccepted(step: nat -> Step, k: nat, n: nat) {
    forall j :: k <= j < n ==> !step(j).Accepted?
  }

  /** The failure that brings the counter from `i` past five ends the loop with False. */
  lemma {:induction false} FifthFailureExhausts(step: nat -> Step, limit: nat, k: nat, i: nat, n: nat)
    requires 1 <= i <= MaxFailures && k <= n < limit
    requires step(n).Failed?
    requires i + Failures(step, k, n) == MaxFailures
    requires NoneAccepted(step, k, n)
    ensures Retry(step, limit, k, i) == Exhausted
    decreases n - k
  {
    if k < n {
      if step(k).Failed? {
        FifthFailureExhausts(step, limit, k + 1, i + 1, n);
      } else {
        FifthFailureExhausts(step, limit, k + 1, i, n);
      }
    }
  }

  /** False is returned only at a failure met with the counter at five and no
      accepted page before it: a sixth failing fetch never happens. */
  lemma {:induction false} ExhaustedOnlyAtFifthFailure(step: nat -> Step, limit: nat, k: nat, i: nat)
    requires 1 <= i <= MaxFailures
    requires Retry(step, limit, k, i) == Exhausted
    ensures exists n ::
              && k <= n < limit
              && step(n).Failed?
              && i + Failures(step, k, n) == MaxFailures
              && NoneAccepted(step, k, n)
    decreases limit - k
  {
    if step(k).Failed? && i + 1 > MaxFailures {
      assert Failures(step, k, k) == 0;
      assert NoneAccepted(step, k, k);
    } else {
      var i' := if step(k).Failed? then i + 1 else i;
      ExhaustedOnlyAtFifthFailure(step, limit, k + 1, i');
      var n :| && k + 1 <= n < limit
               && step(n).Failed?
               && i' + Failures(step, k + 1, n) == MaxFailures
               && NoneAccepted(step, k + 1, n);
      assert NoneAccepted(step, k, n);
    }
  }

  /** The table returned is the one of an accepted page, reached with at most
      four failures before it and no accepted page earlier. */
  lemma {:induction false} RowsFromAcceptedPage(step: nat -> Step, limit: nat, k: nat, i: nat, records: seq<SpotRecord>)
    requires 1 <= i <= MaxFailures
    requires Retry(step, limit, k, i) == Rows(records)
    ensures exists n ::
              && k <= n < limit
              && step(n) == Accepted(records)
              && i + Failures(step, k, n) <= MaxFailures
              && NoneAccepted(step, k, n)
    decreases limit - k
  {
    if step(k).Accepted? {
      assert Failures(step, k, k) == 0;
      assert NoneAccepted(step, k, k);
    } else {
      var i' := if step(k).Failed? then i + 1 else i;
      RowsFromAcceptedPage(step, limit, k + 1, i', records);
      var n :| && k + 1 <= n < limit
               && step(n) == Accepted(records)
               && i' + Failures(step, k + 1, n) <= MaxFailures
               && NoneAccepted(step, k + 1, n);
      assert NoneAccepted(step, k, n);
    }
  }

  /** Conversely, the first accepted page, reached before the fifth failure, gives the table. */
  lemma {:induction false} AcceptedPageGivesRows(step: nat -> Step, limit: nat, k: nat, i: nat, n: nat)
    requires 1 <= i <= MaxFailures && k <= n < limit
    requires step(n).Accepted?
    requires i + Failures(step, k, n) <= MaxFailures
    requires NoneAccepted(step, k, n)
    ensures Retry(step, limit, k, i) == Rows(step(n).records)
    decreases n - k
  {
    if k < n {
      if step(k).Failed? {
        AcceptedPageGivesRows(step, limit, k + 1, i + 1, n);
      } else {
        AcceptedPageGivesRows(step, limit, k + 1, i, n);
      }
    }
  }

  /** Pages that echo another date never move the counter: if every fetch
      from `k` on gives one, the loop never ends. */
  lemma {:induction false} MismatchesSpin(step: nat -> Step, limit: nat, k: nat, i: nat)
    requires forall j :: k <= j < limit ==> step(j).Mismatch?
    ensures Retry(step, limit, k, i) == Spinning
    decreases limit - k
  {
    if k < limit {
      MismatchesSpin(step, limit, k + 1, i);
    }
  }

  /** The two gates: a date before 2011-01-04 raises, and a date the calendar
      does not list gives None; the fetch loop gives neither. */
  lemma DailyGates(date: Date, vars: seq<string>, ref: Reference, fetch: Fetcher, rounds: nat)
    requires Valid(date)
    ensures Daily(date, vars, ref, fetch, rounds) == OutOfRange <==> Before(date, FirstDataDate)
    ensures Daily(date, vars, ref, fetch, rounds) == NoData
        <==> !Before(date, FirstDataDate) && Yyyymmdd(date) !in ref.calendar
  {
    if !Before(date, FirstDataDate) && Yyyymmdd(date) in ref.calendar {
      var r := Retry(StepsOf(date, vars, ref, fetch), 2 * rounds, 0, 1);
      assert Daily(date, vars, ref, fetch, rounds) == r;
      assert r.Rows? || r.Exhausted? || r.Spinning?;
    }
  }

  // ---- The selected table ----

  function SymbolColumn(records: seq<SpotRecord>): (r: seq<string>)
    ensures |r| == |records|
    ensures forall k :: 0 <= k < |r| ==> r[k] == records[k].symbol
  {
    seq(|records|, k requires 0 <= k < |records| => records[k].symbol)
  }

  /** The requested symbols that occur in `present`, in request order. */
  function Present(vars: seq<string>, present: seq<string>): (r: seq<string>)
    ensures forall v :: v in r <==> v in vars && v in present
  {
    if vars == [] then []
    else (if vars[0] in present then [vars[0]] else []) + Present(vars[1..], present)
  }

  predicate DistinctSymbols(records: seq<SpotRecord>) {
    forall a, b :: 0 <= a < b < |records| ==> records[a].symbol != records[b].symbol
  }

  lemma SymbolColumnAppend(a: seq<SpotRecord>, b: seq<SpotRecord>)
    ensures SymbolColumn(a + b) == SymbolColumn(a) + SymbolColumn(b)
  {
    assert |SymbolColumn(a + b)| == |SymbolColumn(a) + SymbolColumn(b)|;
  }

  /** With distinct symbols, the tail has distinct symbols and lacks the head's symbol. */
  lemma DistinctTail(records: seq<SpotRecord>)
    requires records != [] && DistinctSymbols(records)
    ensures DistinctSymbols(records[1..])
    ensures records[0].symbol !in SymbolColumn(records[1..])
  {
    var rest := records[1..];
    forall a, b | 0 <= a < b < |rest|
      ensures rest[a].symbol != rest[b].symbol
    {
      assert rest[a] == records[a + 1] && rest[b] == records[b + 1];
    }
  }

  lemma {:induction false} BySymbolDistinct(records: seq<SpotRecord>, v: string)
    requires DistinctSymbols(records)
    ensures SymbolColumn(BySymbol(records, v)) == if v in SymbolColumn(records) then [v] else []
  {
    if records != [] {
      var rest := records[1..];
      DistinctTail(records);
      BySymbolDistinct(rest, v);
      var head := if records[0].symbol == v then [records[0]] else [];
      assert BySymbol(records, v) == head + BySymbol(rest, v);
      SymbolColumnAppend(head, BySymbol(rest, v));
      assert records == [records[0]] + rest;
      SymbolColumnAppend([records[0]], rest);
      assert SymbolColumn([records[0]]) == [records[0].symbol];
    }
  }

  /** When every commodity has one record, the selected table holds exactly
      the requested symbols that have a record, in the order requested. */
  lemma {:induction false} SelectedInRequestOrder(records: seq<SpotRecord>, vars: seq<string>)
    requires DistinctSymbols(records)
    ensures SymbolColumn(SelectVars(records, vars)) == Present(vars, SymbolColumn(records))
  {
    if vars != [] {
      SelectedInRequestOrder(records, vars[1..]);
      BySymbolDistinct(records, vars[0]);
      var a := BySymbol(records, vars[0]);
      var b := SelectVars(records, vars[1..]);
      assert SymbolColumn(a + b) == SymbolColumn(a) + SymbolColumn(b);
    }
  }
}
