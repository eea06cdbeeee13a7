/** Tables as the loader sees them: a header row and rows of cells. Covers the
    split of a fetched grid into header and rows, the safe read that turns any
    failure into an empty table, column lookup and assignment, renaming, and
    the date pass (parser selection by failure rate, unparsed rows dropped). */
module Frames {
  import opened Values
  import opened Normalize

  /** What the spreadsheet service returns: rows of text cells. */
  type Grid = seq<seq<string>>

  /** A loaded table (a pandas DataFrame): column names and rows of cells. */
  datatype Frame = Frame(columns: seq<string>, rows: seq<seq<Value>>)

  predicate WellFormed(f: Frame)
  {
    forall i :: 0 <= i < |f.rows| ==> |f.rows[i]| == |f.columns|
  }

  /** A well-formed table: every row has one cell per column. */
  type Table = f: Frame | WellFormed(f) witness Frame([], [])

  /** pandas' `df.empty`: no rows or no columns. */
  predicate IsEmpty(f: Frame)
  {
    |f.rows| == 0 || |f.columns| == 0
  }

  function EmptyFrame(): (f: Frame)
    ensures WellFormed(f) && IsEmpty(f)
  {
    Frame([], [])
  }

  /** Every data row is as wide as the header. */
  predicate Rectangular(g: Grid)
  {
    forall i :: 0 <= i < |g| ==> |g[i]| == |g[0]|
  }

  /** Lines 116-125 of the read: an empty grid gives an empty table, a grid
      with only a header gives those columns and no rows, otherwise the first
      row is the header and the rest are the rows. A grid whose rows are not
      all as wide as the header makes the table constructor raise, which the
      read turns into an empty table. */
  function SplitGrid(g: Grid): (f: Frame)
    ensures WellFormed(f)
    ensures |g| == 0 ==> f == EmptyFrame()
    ensures |g| == 1 ==> f == Frame(g[0], [])
    ensures |g| > 0 && !Rectangular(g) ==> f == EmptyFrame()
    ensures |g| > 0 && Rectangular(g) ==>
      f.columns == g[0] && |f.rows| == |g| - 1
      && forall i, j :: 0 <= i < |f.rows| && 0 <= j < |g[0]| ==> f.rows[i][j] == Text(g[i + 1][j])
  {
    if |g| == 0 then EmptyFrame()
    else if |g| == 1 then Frame(g[0], [])
    else if !Rectangular(g) then EmptyFrame()
    else
      Frame(g[0], seq(|g| - 1, i requires 0 <= i < |g| - 1 =>
                        seq(|g[0]|, j requires 0 <= j < |g[0]| => Text(g[i + 1][j]))))
  }

  /** The table printed back as a grid of text. */
  function ToGrid(f: Frame): Grid
  {
    [f.columns] + seq(|f.rows|, i requires 0 <= i < |f.rows| =>
                        seq(|f.rows[i]|, j requires 0 <= j < |f.rows[i]| => AsText(f.rows[i][j])))
  }

  /** A rectangular, non-empty grid is recovered from the table it loads into. */
  lemma GridRoundTrip(g: Grid)
    requires |g| > 0 && Rectangular(g)
    ensures ToGrid(SplitGrid(g)) == g
  {
    var f := SplitGrid(g);
    var h := ToGrid(f);
    assert |h| == |g|;
    forall i | 0 <= i < |g| ensures h[i] == g[i] {
      if i > 0 {
        assert |h[i]| == |g[i]|;
        forall j | 0 <= j < |g[i]| ensures h[i][j] == g[i][j] {
          assert f.rows[i - 1][j] == Text(g[i][j]);
        }
      }
    }
  }

  /** `safe_read`: the sheet id is looked up by file key; a missing or empty
      id, or a failed fetch (`None`), gives an empty table; otherwise the
      fetched grid is split. The fetch is the spreadsheet service, a parameter. */
  function SafeRead(ids: map<string, string>, fetch: (string, string) -> Option<Grid>,
                    fileKey: string, sheet: string): (f: Frame)
    ensures WellFormed(f)
    ensures fileKey !in ids || ids[fileKey] == "" ==> f == EmptyFrame()
    ensures fileKey in ids && ids[fileKey] != "" && fetch(ids[fileKey], sheet).None? ==> f == EmptyFrame()
    ensures fileKey in ids && ids[fileKey] != "" && fetch(ids[fileKey], sheet).Some? ==>
      f == SplitGrid(fetch(ids[fileKey], sheet).value)
  {
    if fileKey !in ids || ids[fileKey] == "" then EmptyFrame()
    else match fetch(ids[fileKey], sheet)
      case None => EmptyFrame()
      case Some(g) => SplitGrid(g)
  }

  /** A sheet holding only its header loads as a table with those columns and
      no rows, which counts as empty. */
  lemma HeaderOnlyLoads(ids: map<string, string>, fetch: (string, string) -> Option<Grid>,
                        fileKey: string, sheet: string, header: seq<string>)
    requires fileKey in ids && ids[fileKey] != "" && fetch(ids[fileKey], sheet) == Some([header])
    ensures SafeRead(ids, fetch, fileKey, sheet) == Frame(header, [])
    ensures IsEmpty(SafeRead(ids, fetch, fileKey, sheet))
  {
  }

  // ---------------------------------------------------------------------------
  // Columns

  /** The position of the first column with this name. */
  function IndexOf(cols: seq<string>, name: string): (k: nat)
    requires name in cols
    ensures k < |cols| && cols[k] == name
    ensures forall j :: 0 <= j < k ==> cols[j] != name
  {
    if cols[0] == name then 0 else 1 + IndexOf(cols[1..], name)
  }

  /** `df[name]`: the cells of the first column with this name. */
  function Column(f: Frame, name: string): (c: seq<Value>)
    requires WellFormed(f) && name in f.columns
    ensures |c| == |f.rows|
    ensures forall i :: 0 <= i < |c| ==> c[i] == f.rows[i][IndexOf(f.columns, name)]
  {
    var k := IndexOf(f.columns, name);
    seq(|f.rows|, i requires 0 <= i < |f.rows| => f.rows[i][k])
  }

  /** `df[name] = vals`: overwrite the column in place when it exists,
      otherwise append it as the last column. */
  function SetColumn(f: Frame, name: string, vals: seq<Value>): (g: Frame)
    requires WellFormed(f) && |vals| == |f.rows|
    ensures WellFormed(g) && |g.rows| == |f.rows|
    ensures g.columns == if name in f.columns then f.columns else f.columns + [name]
    ensures Column(g, name) == vals
    ensures forall c :: c in f.columns && c != name ==> Column(g, c) == Column(f, c)
  {
    if name in f.columns then
      var k := IndexOf(f.columns, name);
      Frame(f.columns, seq(|f.rows|, i requires 0 <= i < |f.rows| => f.rows[i][k := vals[i]]))
    else
      var g := Frame(f.columns + [name], seq(|f.rows|, i requires 0 <= i < |f.rows| => f.rows[i] + [vals[i]]));
      assert forall c :: c in f.columns ==> IndexOf(g.columns, c) == IndexOf(f.columns, c) by {
        forall c | c in f.columns ensures IndexOf(g.columns, c) == IndexOf(f.columns, c) {
          IndexOfExtend(f.columns, name, c);
        }
      }
      assert IndexOf(g.columns, name) == |f.columns|;
      g
  }

  lemma {:induction false} IndexOfExtend(cols: seq<string>, extra: string, c: string)
    requires c in cols
    ensures IndexOf(cols + [extra], c) == IndexOf(cols, c)
  {
    if cols[0] != c {
      assert (cols + [extra])[1..] == cols[1..] + [extra];
      IndexOfExtend(cols[1..], extra, c);
    }
  }

  /** The value `v` in every row: pandas broadcasting a scalar. */
  function Fill(f: Frame, v: Value): (c: seq<Value>)
    ensures |c| == |f.rows| && forall i :: 0 <= i < |c| ==> c[i] == v
  {
    seq(|f.rows|, i requires 0 <= i < |f.rows| => v)
  }

  /** `df[src].apply(fn)`. */
  function MapColumn(f: Frame, src: string, fn: Value -> Value): (c: seq<Value>)
    requires WellFormed(f) && src in f.columns
    ensures |c| == |f.rows| && forall i :: 0 <= i < |c| ==> c[i] == fn(Column(f, src)[i])
  {
    var col := Column(f, src);
    seq(|col|, i requires 0 <= i < |col| => fn(col[i]))
  }

  /** `df.rename(columns=m)`: each column named by a key of `m` takes the
      mapped name; rows are untouched. */
  function Rename(f: Frame, m: map<string, string>): (g: Frame)
    ensures g.rows == f.rows && |g.columns| == |f.columns|
    ensures forall i :: 0 <= i < |f.columns| ==>
      g.columns[i] == if f.columns[i] in m then m[f.columns[i]] else f.columns[i]
  {
    Frame(seq(|f.columns|, i requires 0 <= i < |f.columns| =>
                if f.columns[i] in m then m[f.columns[i]] else f.columns[i]), f.rows)
  }

  // ---------------------------------------------------------------------------
  // The date pass

  /** Candidate date columns, in priority order. */
  const DateColumns: seq<string> :=
    ["Fecha", "Fecha_dt", "ds", "Marca temporal", "Fecha_Vencimiento",
     "Fecha_Operacion", "Fecha_Cierre", "fecha", "Date"]

  /** The derived event-date column. */
  const EventDate: string := "Fecha_dt"

  /** A date parser (day-first or mixed format) applied to a whole column:
      the day number of each text, or None where pandas would give NaT. It
      sees the batch at once, since pandas infers one format from the column,
      so one cell's result may depend on the others. The parsers themselves
      are foreign; all the model assumes is one result per text. */
  type Parser = p: seq<string> -> seq<Option<int>> | forall t :: |p(t)| == |t|
    witness (t: seq<string>) => seq(|t|, i => None)

  function Failures(ps: seq<Option<int>>): (n: nat)
    ensures n <= |ps|
  {
    if |ps| == 0 then 0 else Failures(ps[..|ps| - 1]) + (if ps[|ps| - 1].None? then 1 else 0)
  }

  /** More than 80% failures: the integer form of `isna().mean() > 0.8`. */
  function MostlyFailed(ps: seq<Option<int>>): (b: bool)
    ensures |ps| > 0 ==> (b <==> (Failures(ps) as real) / (|ps| as real) > 0.8)
    ensures |ps| == 0 ==> !b
  {
    MeanAbove(Failures(ps), |ps|);
    5 * Failures(ps) > 4 * |ps|
  }

  lemma MeanAbove(f: nat, n: nat)
    ensures n > 0 ==> ((f as real) / (n as real) > 0.8 <==> 5 * f > 4 * n)
  {
    if n > 0 {
      var x, m := f as real, n as real;
      var q := x / m;
      DivTimes(x, m);
      assert (q - 0.8) * m == q * m - 0.8 * m;
      PositiveProduct(q - 0.8, m);
      assert q > 0.8 <==> x - 0.8 * m > 0.0;
      assert 5 * f > 4 * n <==> x - 0.8 * m > 0.0;
    }
  }


  /** The batch rule: parse day-first; if more than 80% of the batch fails,
      parse the whole batch again in mixed format. */
  function ChooseDates(texts: seq<string>, dayFirst: Parser, mixed: Parser): (r: seq<Option<int>>)
    ensures |r| == |texts|
    ensures !MostlyFailed(dayFirst(texts)) ==> r == dayFirst(texts)
    ensures MostlyFailed(dayFirst(texts)) ==> r == mixed(texts)
  {
    var first := dayFirst(texts);
    if MostlyFailed(first) then mixed(texts) else first
  }

  function DateCell(o: Option<int>): (v: Value)
    ensures v.Date? <==> o.Some?
    ensures v.Null? <==> o.None?
  {
    match o
    case Some(d) => Date(d)
    case None => Null
  }

  /** The positions whose flag is set, in ascending order. */
  function Kept(flags: seq<bool>): (r: seq<nat>)
    ensures forall j :: 0 <= j < |r| ==> r[j] < |flags| && flags[r[j]]
    ensures forall a, b :: 0 <= a < b < |r| ==> r[a] < r[b]
    ensures forall i :: 0 <= i < |flags| && flags[i] ==> i in r
  {
    if |flags| == 0 then []
    else
      var init := Kept(flags[..|flags| - 1]);
      if flags[|flags| - 1] then init + [|flags| - 1] else init
  }

  /** Which rows have a present cell at `k`. */
  function PresentFlags(rows: seq<seq<Value>>, k: nat): (b: seq<bool>)
    requires forall i :: 0 <= i < |rows| ==> k < |rows[i]|
    ensures |b| == |rows| && forall i :: 0 <= i < |rows| ==> (b[i] <==> !rows[i][k].Null?)
  {
    seq(|rows|, i requires 0 <= i < |rows| => !rows[i][k].Null?)
  }

  /** Which parses succeeded. */
  function ParsedFlags(ps: seq<Option<int>>): (b: seq<bool>)
    ensures |b| == |ps| && forall i :: 0 <= i < |ps| ==> (b[i] <==> ps[i].Some?)
  {
    seq(|ps|, i requires 0 <= i < |ps| => ps[i].Some?)
  }

  /** Every failed parse removes exactly one position. */
  lemma {:induction false} KeptParsed(ps: seq<Option<int>>)
    ensures |Kept(ParsedFlags(ps))| == |ps| - Failures(ps)
  {
    if |ps| > 0 {
      var init := ps[..|ps| - 1];
      KeptParsed(init);
      assert ParsedFlags(ps)[..|ps| - 1] == ParsedFlags(init);
    }
  }

  /** `r` lists the elements of `xs` at the positions `idx`, in that order. */
  predicate Picks<T(==)>(xs: seq<T>, idx: seq<nat>, r: seq<T>)
  {
    |r| == |idx| && forall j :: 0 <= j < |r| ==> idx[j] < |xs| && r[j] == xs[idx[j]]
  }

  /** Appending an element, and its position when it is picked, extends the
      picks. */
  lemma PicksSnoc<T>(xs: seq<T>, idx: seq<nat>, r: seq<T>, picked: bool)
    requires |xs| > 0 && Picks(xs[..|xs| - 1], idx, r)
    ensures Picks(xs, if picked then idx + [|xs| - 1] else idx, if picked then r + [xs[|xs| - 1]] else r)
  {
  }

  /** The rows whose cell at `k` is not missing, in their original order:
      row `j` of the result is the row at the `j`-th present position. */
  function KeepPresent(rows: seq<seq<Value>>, k: nat): (r: seq<seq<Value>>)
    requires forall i :: 0 <= i < |rows| ==> k < |rows[i]|
    ensures Picks(rows, Kept(PresentFlags(rows, k)), r)
  {
    if |rows| == 0 then []
    else
      var last := rows[|rows| - 1];
      var init := KeepPresent(rows[..|rows| - 1], k);
      KeptSnoc(rows, k);
      PicksSnoc(rows, Kept(PresentFlags(rows[..|rows| - 1], k)), init, !last[k].Null?);
      if last[k].Null? then init else init + [last]
  }

  /** Adding a row adds its position to the kept ones exactly when its cell
      at `k` is present. */
  lemma KeptSnoc(rows: seq<seq<Value>>, k: nat)
    requires |rows| > 0 && forall i :: 0 <= i < |rows| ==> k < |rows[i]|
    ensures var front := Kept(PresentFlags(rows[..|rows| - 1], k));
      Kept(PresentFlags(rows, k)) == if rows[|rows| - 1][k].Null? then front else front + [|rows| - 1]
  {
    assert PresentFlags(rows, k)[..|rows| - 1] == PresentFlags(rows[..|rows| - 1], k);
  }

  /** `df.dropna(subset=[name])`. */
  function DropMissing(f: Frame, name: string): (g: Frame)
    requires WellFormed(f) && name in f.columns
    ensures WellFormed(g) && g.columns == f.columns
    ensures g.rows == KeepPresent(f.rows, IndexOf(f.columns, name))
  {
    Frame(f.columns, KeepPresent(f.rows, IndexOf(f.columns, name)))
  }

  /** The dates column `col` yields under the batch rule. */
  function ParsedDates(f: Frame, col: string, dayFirst: Parser, mixed: Parser): (r: seq<Option<int>>)
    requires WellFormed(f) && col in f.columns
    ensures |r| == |f.rows|
  {
    var c := Column(f, col);
    ChooseDates(seq(|c|, i requires 0 <= i < |c| => AsText(c[i])), dayFirst, mixed)
  }

  /** Lines 162-166 for the chosen column: the event date is set from the
      parsed dates (overwriting an old event-date column), then the rows whose
      date did not parse are dropped. Row `j` of the result is the `j`-th row
      whose date parsed, with that date and every other cell as before. */
  function ParseDateColumn(f: Frame, col: string, dayFirst: Parser, mixed: Parser): (g: Frame)
    requires WellFormed(f) && col in f.columns
    ensures WellFormed(g) && EventDate in g.columns
    ensures g.columns == if EventDate in f.columns then f.columns else f.columns + [EventDate]
    ensures |g.rows| == |f.rows| - Failures(ParsedDates(f, col, dayFirst, mixed))
    ensures forall j :: 0 <= j < |g.rows| ==> g.rows[j][IndexOf(g.columns, EventDate)].Date?
    ensures DatedFrom(f, g, ParsedDates(f, col, dayFirst, mixed))
  {
    var ps := ParsedDates(f, col, dayFirst, mixed);
    DroppedDated(f, ps);
    KeptParsed(ps);
    DropMissing(Dated(f, ps), EventDate)
  }

  /** `g` is `f` with the rows whose date did not parse dropped: row `j` of
      `g` is the `j`-th row of `f` whose date parsed, its event date is that
      parsed date, and every other cell is the original row's. */
  predicate DatedFrom(f: Frame, g: Frame, ps: seq<Option<int>>)
  {
    var idx := Kept(ParsedFlags(ps));
    WellFormed(f) && WellFormed(g) && EventDate in g.columns && |ps| == |f.rows| && |g.rows| == |idx|
    && (forall j :: 0 <= j < |g.rows| ==>
          ps[idx[j]].Some? && g.rows[j][IndexOf(g.columns, EventDate)] == Date(ps[idx[j]].value))
    && (forall j, c :: 0 <= j < |g.rows| && c in f.columns && c in g.columns && c != EventDate ==>
          g.rows[j][IndexOf(g.columns, c)] == f.rows[idx[j]][IndexOf(f.columns, c)])
  }

  lemma DroppedDated(f: Frame, ps: seq<Option<int>>)
    requires WellFormed(f) && |ps| == |f.rows|
    ensures DatedFrom(f, DropMissing(Dated(f, ps), EventDate), ps)
  {
    DroppedRows(f, ps);
  }

  /** Dropping the rows whose event date is missing keeps exactly the rows
      whose date parsed, in order. */
  lemma DroppedRows(f: Frame, ps: seq<Option<int>>)
    requires WellFormed(f) && |ps| == |f.rows|
    ensures var d := Dated(f, ps);
      var g := DropMissing(d, EventDate);
      var idx := Kept(ParsedFlags(ps));
      g.columns == d.columns && |g.rows| == |idx|
      && forall j :: 0 <= j < |g.rows| ==> ps[idx[j]].Some? && g.rows[j] == d.rows[idx[j]]
  {
    var d := Dated(f, ps);
    assert PresentFlags(d.rows, IndexOf(d.columns, EventDate)) == ParsedFlags(ps);
  }

  /** The table with its event-date column set from the parsed dates; every
      other column is unchanged. */
  function Dated(f: Frame, ps: seq<Option<int>>): (g: Frame)
    requires WellFormed(f) && |ps| == |f.rows|
    ensures WellFormed(g) && |g.rows| == |f.rows| && EventDate in g.columns
    ensures g.columns == if EventDate in f.columns then f.columns else f.columns + [EventDate]
    ensures forall i :: 0 <= i < |g.rows| ==> g.rows[i][IndexOf(g.columns, EventDate)] == DateCell(ps[i])
    ensures forall i, c :: 0 <= i < |g.rows| && c in f.columns && c != EventDate ==>
      g.rows[i][IndexOf(g.columns, c)] == f.rows[i][IndexOf(f.columns, c)]
  {
    var vals := seq(|ps|, i requires 0 <= i < |ps| => DateCell(ps[i]));
    SetColumnCells(f, EventDate, vals);
    SetColumn(f, EventDate, vals)
  }

  /** `SetColumn` cell by cell: row `i` holds `vals[i]` under the new
      column and its old cell under every other column. */
  lemma SetColumnCells(f: Frame, name: string, vals: seq<Value>)
    requires WellFormed(f) && |vals| == |f.rows|
    ensures var g := SetColumn(f, name, vals);
      (forall i :: 0 <= i < |g.rows| ==> g.rows[i][IndexOf(g.columns, name)] == vals[i])
      && forall i, c :: 0 <= i < |g.rows| && c in f.columns && c != name ==>
        g.rows[i][IndexOf(g.columns, c)] == f.rows[i][IndexOf(f.columns, c)]
  {
    var g := SetColumn(f, name, vals);
    assert forall i :: 0 <= i < |g.rows| ==> g.rows[i][IndexOf(g.columns, name)] == Column(g, name)[i];
    assert forall i, c :: 0 <= i < |g.rows| && c in f.columns && c != name ==>
      g.rows[i][IndexOf(g.columns, c)] == Column(g, c)[i] && f.rows[i][IndexOf(f.columns, c)] == Column(f, c)[i];
  }

  /** Lines 157-167 for one table: a non-empty table with a candidate date
      column gets its event date from the FIRST such column only; an empty
      table and a table without one are left as they are. */
  function CleanFrameDates(f: Frame, dayFirst: Parser, mixed: Parser): (g: Frame)
    requires WellFormed(f)
    ensures WellFormed(g) && |g.rows| <= |f.rows|
    ensures IsEmpty(f) || (forall i :: 0 <= i < |DateColumns| ==> DateColumns[i] !in f.columns) ==> g == f
    ensures !IsEmpty(f) && (exists i :: 0 <= i < |DateColumns| && DateColumns[i] in f.columns) ==>
      EventDate in g.columns && forall i :: 0 <= i < |g.rows| ==> g.rows[i][IndexOf(g.columns, EventDate)].Date?
    ensures !IsEmpty(f) && FirstPresent(DateColumns, f.columns).Some? ==>
      g == ParseDateColumn(f, FirstPresent(DateColumns, f.columns).value, dayFirst, mixed)
  {
    if IsEmpty(f) then f
    else
      var fp := FirstPresent(DateColumns, f.columns);
      if fp.None? then f
      else ParseDateColumn(f, fp.value, dayFirst, mixed)
  }

  // ---------------------------------------------------------------------------
  // The parser-selection rule on batches of ten

  /** Nine of ten day-first parses succeed: the day-first result is kept. */
  lemma DayFirstKept(texts: seq<string>, dayFirst: Parser, mixed: Parser)
    requires |texts| == 10 && Failures(dayFirst(texts)) <= 1
    ensures ChooseDates(texts, dayFirst, mixed) == dayFirst(texts)
  {
  }

  /** Exactly 80% failures is not "more than 80%": day-first is still kept. */
  lemma EightyPercentKeepsDayFirst(texts: seq<string>, dayFirst: Parser, mixed: Parser)
    requires |texts| == 10 && Failures(dayFirst(texts)) == 8
    ensures ChooseDates(texts, dayFirst, mixed) == dayFirst(texts)
  {
  }

  /** Nine or more of ten day-first parses fail: the mixed parse is used. */
  lemma MixedFallback(texts: seq<string>, dayFirst: Parser, mixed: Parser)
    requires |texts| == 10 && Failures(dayFirst(texts)) >= 9
    ensures ChooseDates(texts, dayFirst, mixed) == mixed(texts)
  {
  }

  /** The fallback parse replaces the day-first one wholesale: a row that
      parsed day-first but fails mixed is dropped. */
  lemma FallbackIsWholesale(texts: seq<string>, dayFirst: Parser, mixed: Parser, i: nat)
    requires i < |texts| && MostlyFailed(dayFirst(texts))
    requires dayFirst(texts)[i].Some? && mixed(texts)[i].None?
    ensures ChooseDates(texts, dayFirst, mixed)[i].None?
  {
  }
}
