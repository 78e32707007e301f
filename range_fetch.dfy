/** `get_spot_price_daily`: the day-by-day loop from a start date to an end
    date, inclusive, that gathers the daily tables of `get_spot_price`. */
module RangeFetch {

  import opened Dates
  import opened Symbols
  import opened CheckInfo
  import opened DailyFetch

  /** Why the range fetch raises: the exception of a day before the first
      day of data, or `pd.concat([])` when the loop stops before any table. */
  datatype RangeFailure = BeforeFirstData | NothingToConcatenate

  /** The outcome of `get_spot_price_daily`: the concatenated table, None
      when no day gave a table, an exception, or a day whose fetch loop did
      not end within the rounds the model allows. */
  datatype RangeResult = Table(rows: seq<SpotRecord>) | NoTable | Raised(reason: RangeFailure) | Unfinished

  /** `pd.concat(frames)`: the rows of the frames, frame after frame. */
  function Concat(frames: seq<seq<SpotRecord>>): seq<SpotRecord> {
    if frames == [] then [] else frames[0] + Concat(frames[1..])
  }

  /** The final `if len(df_list) > 0` of basis.py:61-63. */
  function Gathered(frames: seq<seq<SpotRecord>>): RangeResult {
    if frames == [] then NoTable else Table(Concat(frames))
  }

  /** A day outcome that ends the range loop. */
  predicate Stops(o: DailyResult) {
    o.Exhausted? || o.OutOfRange? || o.Spinning?
  }

  /** What the range loop returns when the day outcome `o` stops it, with the
      tables `frames` gathered so far: False returns the gathered tables
      (and `pd.concat([])` raises when there are none). */
  function Stopped(o: DailyResult, frames: seq<seq<SpotRecord>>): RangeResult
    requires Stops(o)
  {
    match o
    case OutOfRange => Raised(BeforeFirstData)
    case Spinning => Unfinished
    case Exhausted => if frames == [] then Raised(NothingToConcatenate) else Table(Concat(frames))
  }

  /** The range loop from `day` on, with the tables `frames` gathered so far. */
  function Range(day: Date, end: Date, frames: seq<seq<SpotRecord>>,
                 vars: seq<string>, ref: Reference, fetch: Fetcher, rounds: nat): RangeResult
    requires Valid(day)
    decreases end.year - day.year, 12 - day.month, 31 - day.day
  {
    if Before(end, day) then Gathered(frames)
    else
      var o := Daily(day, vars, ref, fetch, rounds);
      if Stops(o) then Stopped(o, frames)
      else if o.NoData? then Range(NextDay(day), end, frames, vars, ref, fetch, rounds)
      else Range(NextDay(day), end, frames + [o.records], vars, ref, fetch, rounds)
  }

  /** basis.py:48-63 from `start_day` to `end_day`, each day fetched with at
      most `rounds` rounds. */
  method GetSpotPriceDaily(start: Date, end: Date, vars: seq<string>, ref: Reference, fetch: Fetcher, rounds: nat)
    returns (r: RangeResult)
    requires Valid(start)
    ensures r == Range(start, end, [], vars, ref, fetch, rounds)
  {
    var frames: seq<seq<SpotRecord>> := [];
    var day := start;
    while AtMost(day, end)
      invariant Valid(day)
      invariant Range(day, end, frames, vars, ref, fetch, rounds) == Range(start, end, [], vars, ref, fetch, rounds)
      decreases end.year - day.year, 12 - day.month, 31 - day.day
    {
      var o := GetSpotPrice(day, vars, ref, fetch, rounds);
      if o.OutOfRange? {
        return Raised(BeforeFirstData);
      } else if o.Spinning? {
        return Unfinished;
      } else if o.Exhausted? {
        if frames == [] {
          return Raised(NothingToConcatenate);
        }
        return Table(Concat(frames));
      } else if o.Rows? {
        frames := frames + [o.records];
      }
      day := NextDay(day);
    }
    if frames != [] {
      return Table(Concat(frames));
    }
    return NoTable;
  }

  // ---- The days visited ----

  /** The days from `day` to `end`, inclusive, one calendar day apart. */
  function Days(day: Date, end: Date): (ds: seq<Date>)
    requires Valid(day)
    decreases end.year - day.year, 12 - day.month, 31 - day.day
  {
    if Before(end, day) then [] else [day] + Days(NextDay(day), end)
  }

  /** The loop visits exactly the calendar days from `day` to `end`: each of
      them lies in the range, the first is `day`, each is the day after the
      one before, and every valid date of the range is among them. */
  lemma {:induction false} DaysCovered(day: Date, end: Date)
    requires Valid(day)
    ensures var ds := Days(day, end);
      && (forall k :: 0 <= k < |ds| ==> Valid(ds[k]) && AtMost(day, ds[k]) && AtMost(ds[k], end))
      && (AtMost(day, end) ==> ds != [] && ds[0] == day)
      && (forall k :: 0 < k < |ds| ==> ds[k] == NextDay(ds[k - 1]))
      && (forall x :: Valid(x) && AtMost(day, x) && AtMost(x, end) ==> x in ds)
    decreases end.year - day.year, 12 - day.month, 31 - day.day
  {
    if !Before(end, day) {
      var next := NextDay(day);
      DaysCovered(next, end);
      var ds := Days(day, end);
      var rest := Days(next, end);
      assert ds == [day] + rest;
      forall x | Valid(x) && AtMost(day, x) && AtMost(x, end)
        ensures x in ds
      {
        if x != day {
          NextDayImmediate(day, x);
          assert x in rest;
        }
      }
    }
  }

  // ---- The loop as a fold over the day outcomes ----

  /** The outcomes of `get_spot_price` for the days from `day` to `end`. */
  function Outcomes(day: Date, end: Date, vars: seq<string>, ref: Reference, fetch: Fetcher, rounds: nat)
    : (os: seq<DailyResult>)
    requires Valid(day)
    ensures |os| == |Days(day, end)|
    decreases end.year - day.year, 12 - day.month, 31 - day.day
  {
    if Before(end, day) then []
    else [Daily(day, vars, ref, fetch, rounds)] + Outcomes(NextDay(day), end, vars, ref, fetch, rounds)
  }

  /** The `k`-th outcome is the outcome of the `k`-th day. */
  lemma {:induction false} OutcomeOfDay(day: Date, end: Date, vars: seq<string>, ref: Reference, fetch: Fetcher,
                                        rounds: nat, k: nat)
    requires Valid(day) && k < |Days(day, end)|
    ensures Valid(Days(day, end)[k])
    ensures Outcomes(day, end, vars, ref, fetch, rounds)[k] == Daily(Days(day, end)[k], vars, ref, fetch, rounds)
    decreases end.year - day.year, 12 - day.month, 31 - day.day
  {
    if k > 0 {
      var next := NextDay(day);
      OutcomeOfDay(next, end, vars, ref, fetch, rounds, k - 1);
      assert Days(day, end)[k] == Days(next, end)[k - 1];
      assert Outcomes(day, end, vars, ref, fetch, rounds)[k] == Outcomes(next, end, vars, ref, fetch, rounds)[k - 1];
    }
  }

  /** The loop over a list of day outcomes, with the tables `frames` gathered so far. */
  function Collect(os: seq<DailyResult>, frames: seq<seq<SpotRecord>>): RangeResult {
    if os == [] then Gathered(frames)
    else if Stops(os[0]) then Stopped(os[0], frames)
    else if os[0].NoData? then Collect(os[1..], frames)
    else Collect(os[1..], frames + [os[0].records])
  }

  /** The range loop is the fold over the outcomes of its days. */
  lemma {:induction false} RangeIsCollect(day: Date, end: Date, frames: seq<seq<SpotRecord>>,
                                          vars: seq<string>, ref: Reference, fetch: Fetcher, rounds: nat)
    requires Valid(day)
    ensures Range(day, end, frames, vars, ref, fetch, rounds)
         == Collect(Outcomes(day, end, vars, ref, fetch, rounds), frames)
    decreases end.year - day.year, 12 - day.month, 31 - day.day
  {
    if !Before(end, day) {
      var o := Daily(day, vars, ref, fetch, rounds);
      var os := Outcomes(day, end, vars, ref, fetch, rounds);
      assert os[0] == o && os[1..] == Outcomes(NextDay(day), end, vars, ref, fetch, rounds);
      if !Stops(o) {
        var frames' := if o.NoData? then frames else frames + [o.records];
        RangeIsCollect(NextDay(day), end, frames', vars, ref, fetch, rounds);
      }
    }
  }

  /** The tables of the days that gave one, in day order; days without data give none. */
  function Tables(os: seq<DailyResult>): (ts: seq<seq<SpotRecord>>)
    ensures |ts| <= |os|
  {
    if os == [] then []
    else (if os[0].Rows? then [os[0].records] else []) + Tables(os[1..])
  }

  /** When no day stops the loop, the result is the table of every day that
      gave one, appended in day order, or None when no day did. */
  lemma {:induction false} CollectWithoutStop(os: seq<DailyResult>, frames: seq<seq<SpotRecord>>)
    requires forall k :: 0 <= k < |os| ==> !Stops(os[k])
    ensures Collect(os, frames) == Gathered(frames + Tables(os))
  {
    if os == [] {
      assert frames + Tables(os) == frames;
    } else if os[0].NoData? {
      assert Tables(os) == Tables(os[1..]);
      CollectWithoutStop(os[1..], frames);
    } else {
      assert Tables(os) == [os[0].records] + Tables(os[1..]);
      CollectWithoutStop(os[1..], frames + [os[0].records]);
      assert frames + [os[0].records] + Tables(os[1..]) == frames + Tables(os);
    }
  }

  /** When the `n`-th day is the first to stop the loop, only the tables of
      the days before it are returned; the later days are never fetched. */
  lemma {:induction false} CollectUpToStop(os: seq<DailyResult>, frames: seq<seq<SpotRecord>>, n: nat)
    requires n < |os| && Stops(os[n])
    requires forall k :: 0 <= k < n ==> !Stops(os[k])
    ensures Collect(os, frames) == Stopped(os[n], frames + Tables(os[..n]))
  {
    if n == 0 {
      assert frames + Tables(os[..n]) == frames;
    } else {
      var rest := os[1..];
      assert rest[n - 1] == os[n];
      assert os[..n] == [os[0]] + rest[..n - 1];
      var frames' := if os[0].NoData? then frames else frames + [os[0].records];
      CollectUpToStop(rest, frames', n - 1);
      assert Tables(os[..n]) == (if os[0].Rows? then [os[0].records] else []) + Tables(rest[..n - 1]);
      assert frames' + Tables(rest[..n - 1]) == frames + Tables(os[..n]);
    }
  }

  /** `pd.concat` keeps every row of every frame, frame after frame. */
  lemma {:induction false} ConcatAppend(a: seq<seq<SpotRecord>>, b: seq<seq<SpotRecord>>)
    ensures Concat(a + b) == Concat(a) + Concat(b)
  {
    if a == [] {
      assert a + b == b;
    } else {
      assert (a + b)[0] == a[0] && (a + b)[1..] == a[1..] + b;
      ConcatAppend(a[1..], b);
    }
  }

  /** The range fetch from `start` to `end` when no day stops it: the tables
      of the days that gave one, in day order, or None. */
  lemma RangeWithoutStop(start: Date, end: Date, vars: seq<string>, ref: Reference, fetch: Fetcher, rounds: nat)
    requires Valid(start)
    requires var os := Outcomes(start, end, vars, ref, fetch, rounds);
      forall k :: 0 <= k < |os| ==> !Stops(os[k])
    ensures Range(start, end, [], vars, ref, fetch, rounds)
         == Gathered(Tables(Outcomes(start, end, vars, ref, fetch, rounds)))
  {
    var os := Outcomes(start, end, vars, ref, fetch, rounds);
    RangeIsCollect(start, end, [], vars, ref, fetch, rounds);
    CollectWithoutStop(os, []);
    assert [] + Tables(os) == Tables(os);
  }

  /** The range fetch from `start` to `end` when the `n`-th day is the first
      to stop it: what that day's outcome makes of the earlier days' tables. */
  lemma RangeUpToStop(start: Date, end: Date, vars: seq<string>, ref: Reference, fetch: Fetcher, rounds: nat, n: nat)
    requires Valid(start)
    requires var os := Outcomes(start, end, vars, ref, fetch, rounds);
      n < |os| && Stops(os[n]) && forall k :: 0 <= k < n ==> !Stops(os[k])
    ensures var os := Outcomes(start, end, vars, ref, fetch, rounds);
      Range(start, end, [], vars, ref, fetch, rounds) == Stopped(os[n], Tables(os[..n]))
  {
    var os := Outcomes(start, end, vars, ref, fetch, rounds);
    RangeIsCollect(start, end, [], vars, ref, fetch, rounds);
    CollectUpToStop(os, [], n);
    assert [] + Tables(os[..n]) == Tables(os[..n]);
  }
}
