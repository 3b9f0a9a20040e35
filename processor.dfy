/**
 * `DataProcessor`: holds the loaded table in `df`, derives `valor_numerico`
 * while loading, resolves columns by name and assembles the dashboard payload.
 */
module Processor {
  import opened Wrappers
  import opened PyStr
  import opened Currency
  import opened Columns
  import opened Ranking
  import opened Frames
  import opened Aggregation

  /** With `j` the first index satisfying `p`, the search finds `j`. */
  lemma FirstWhereAt(columns: seq<string>, p: string -> bool, j: int)
    requires 0 <= j < |columns| && p(columns[j])
    requires forall k :: 0 <= k < j ==> !p(columns[k])
    ensures FirstWhere(columns, p) == Some(j)
  {
  }

  /** `Matches` compares normalised names with `Overlaps`. */
  lemma MatchesByOverlap()
    ensures forall a, b :: Matches(a, b) == Overlaps(Normalize(b), Normalize(a))
  {
  }

  /** The `iterrows` loop of `get_full_data`: one process entry per top row, in order. */
  method DescribeProcesses(t: Table, top: seq<Record>, cols: TableColumns, show: real -> string)
    returns (processes: seq<ProcessRow>)
    ensures processes == ProcessesOf(t, top, cols, show)
  {
    processes := [];
    var i := 0;
    while i < |top|
      invariant 0 <= i <= |top|
      invariant processes == ProcessesOf(t, top[..i], cols, show)
    {
      assert ProcessesOf(t, top[..i + 1], cols, show) == ProcessesOf(t, top[..i], cols, show) + [ProcessOf(t, top[i], cols, show)];
      processes := processes + [ProcessOf(t, top[i], cols, show)];
      i := i + 1;
    }
    assert top[..i] == top;
  }

  /** The inner loop of `_get_column`: the first normalised column that overlaps `possible`. */
  method ScanColumns(lowered: seq<string>, possible: string) returns (r: Option<nat>)
    ensures r.Some? ==> r.value < |lowered| && Overlaps(lowered[r.value], possible)
    ensures r.Some? ==> forall k :: 0 <= k < r.value ==> !Overlaps(lowered[k], possible)
    ensures r.None? ==> forall k :: 0 <= k < |lowered| ==> !Overlaps(lowered[k], possible)
  {
    var idx := 0;
    while idx < |lowered|
      invariant 0 <= idx <= |lowered|
      invariant forall k :: 0 <= k < idx ==> !Overlaps(lowered[k], possible)
    {
      if Contains(lowered[idx], possible) || Contains(possible, lowered[idx]) {
        return Some(idx);
      }
      idx := idx + 1;
    }
    return None;
  }

  /**
   * A search over precomputed normalised names finds the first column the
   * candidate matches, for any match test built from a normaliser `norm` and
   * a comparison `overlaps` of normalised names.
   */
  lemma ScanIsFirstMatch(columns: seq<string>, lowered: seq<string>, candidate: string, r: Option<nat>,
                         m: (string, string) -> bool, norm: string -> string, overlaps: (string, string) -> bool)
    requires forall a, b :: m(a, b) == overlaps(norm(b), norm(a))
    requires |lowered| == |columns|
    requires forall k :: 0 <= k < |columns| ==> lowered[k] == norm(columns[k])
    requires r.Some? ==> r.value < |lowered| && overlaps(lowered[r.value], norm(candidate))
    requires r.Some? ==> forall k :: 0 <= k < r.value ==> !overlaps(lowered[k], norm(candidate))
    requires r.None? ==> forall k :: 0 <= k < |lowered| ==> !overlaps(lowered[k], norm(candidate))
    ensures r == FirstMatch(columns, candidate, m)
  {
    if r.Some? {
      assert m(candidate, columns[r.value]);
    }
  }

  /** One pass of the inner loop of `_get_column` decides candidate `p` or moves on to the next. */
  lemma ScanResolves(columns: seq<string>, lowered: seq<string>, names: seq<string>, p: int, hit: Option<nat>)
    requires 0 <= p < |names|
    requires |lowered| == |columns|
    requires forall k :: 0 <= k < |columns| ==> lowered[k] == Normalize(columns[k])
    requires hit.Some? ==> hit.value < |lowered| && Overlaps(lowered[hit.value], Normalize(names[p]))
    requires hit.Some? ==> forall k :: 0 <= k < hit.value ==> !Overlaps(lowered[k], Normalize(names[p]))
    requires hit.None? ==> forall k :: 0 <= k < |lowered| ==> !Overlaps(lowered[k], Normalize(names[p]))
    ensures hit.Some? ==> hit.value < |columns| && ResolveWith(columns, names[p..], Matches) == Some(columns[hit.value])
    ensures hit.None? ==> ResolveWith(columns, names[p..], Matches) == ResolveWith(columns, names[p + 1..], Matches)
  {
    MatchesByOverlap();
    ScanIsFirstMatch(columns, lowered, names[p], hit, Matches, Normalize, Overlaps);
    ResolveStep(columns, names, Matches, p);
  }

  class DataProcessor {
    /** `self.df`: `None` until a table has been read. */
    var df: Option<Table>

    /**
     * `DataProcessor(file_path)`. `source` is the table read from the file,
     * `None` when the file is missing or cannot be read.
     */
    constructor(source: Option<Frame>)
      ensures df == Load(source)
    {
      df := None;
      new;
      LoadData(source);
    }

    /**
     * `_load_data`: keeps the table as read and, when it is not empty,
     * adds `valor_numerico` cleaned from the cause-value column.
     */
    method LoadData(source: Option<Frame>)
      modifies this
      ensures df == Load(source)
    {
      if source.None? {
        df := None;
        return;
      }
      var f := source.value;
      df := Some(Table(f.columns, WithAmounts(f.rows, None)));
      if |f.rows| == 0 || |f.columns| == 0 {
        return;
      }

      var valorCol: Option<string> := None;
      var i := 0;
      while i < |f.columns|
        invariant 0 <= i <= |f.columns|
        invariant forall k :: 0 <= k < i ==> !IsCurrentCauseValue(f.columns[k])
      {
        if IsCurrentCauseValue(f.columns[i]) {
          FirstWhereAt(f.columns, IsCurrentCauseValue, i);
          valorCol := Some(f.columns[i]);
          break;
        }
        i := i + 1;
      }

      if valorCol.None? {
        i := 0;
        while i < |f.columns|
          invariant 0 <= i <= |f.columns|
          invariant forall k :: 0 <= k < i ==> !IsPlainCauseValue(f.columns[k])
        {
          if IsPlainCauseValue(f.columns[i]) {
            FirstWhereAt(f.columns, IsPlainCauseValue, i);
            valorCol := Some(f.columns[i]);
            break;
          }
          i := i + 1;
        }
      }
      assert valorCol == CauseColumn(f.columns);

      var records;
      if valorCol.Some? && valorCol.value != "" {
        records := WithAmounts(f.rows, valorCol);
      } else if CurrentHeader in f.columns {
        records := WithAmounts(f.rows, Some(CurrentHeader));
      } else if PlainHeader in f.columns {
        records := WithAmounts(f.rows, Some(PlainHeader));
      } else {
        records := WithAmounts(f.rows, None);
      }
      df := Some(Table(WithColumn(f.columns, ValueColumn), records));
    }

    /**
     * `_get_column`: candidates in order, columns in order, both normalised;
     * the first column one of them contains, or that contains one of them.
     */
    method GetColumn(names: seq<string>) returns (r: Option<string>)
      ensures df.None? ==> r.None?
      ensures df.Some? ==> r == Resolve(df.value.columns, names)
    {
      if df.None? {
        return None;
      }
      var columns := df.value.columns;
      var lowered := NormalizeAll(columns);
      var p := 0;
      while p < |names|
        invariant 0 <= p <= |names|
        invariant Resolve(columns, names) == ResolveWith(columns, names[p..], Matches)
      {
        var hit := ScanColumns(lowered, Normalize(names[p]));
        ScanResolves(columns, lowered, names, p, hit);
        if hit.Some? {
          return Some(columns[hit.value]);
        }
        p := p + 1;
      }
      return None;
    }

    /**
     * `get_full_data`. `show` renders a float as Python's `str` does; it is
     * read only where a resolver lands on `valor_numerico`.
     */
    method GetFullData(show: real -> string) returns (r: Option<Dashboard>)
      ensures df.None? ==> r.None?
      ensures df.Some? ==> r == FullData(df.value, show)
    {
      if df.None? || Empty(df.value) {
        return None;
      }
      var t := df.value;
      var statusCol := GetColumn(StatusNames);
      if statusCol.None? {
        return None;
      }
      var parts := Split(t, statusCol.value, show);

      var valorCol := GetColumn(PaidNames);
      var saving := 0.0;
      if Truthy(valorCol) && |parts.closed| > 0 {
        var valorPago := PaidSum(parts.closed, valorCol.value, show);
        var valorCausa := ValueSum(t, parts.closed);
        saving := valorCausa - valorPago;
      }
      assert saving == RawSaving(t, parts.closed, show);

      var processCol := GetColumn(ProcessNames);
      var typeCol := GetColumn(TypeNames);
      var ownerCol := GetColumn(OwnerNames);

      var top10 := TopCauses(t, parts.inProgress, processCol, show);
      var byType := GroupChart(t, parts.inProgress, typeCol, 5, show);
      var byOwner := GroupChart(t, parts.inProgress, ownerCol, 10, show);

      var processes: seq<ProcessRow> := [];
      var dataCol := Resolve(t.columns, DateNames);
      if Charted(t, processCol, parts.inProgress) {
        var top := TopK(parts.inProgress, AmountOf, 50);
        dataCol := GetColumn(DateNames);
        processes := DescribeProcesses(t, top, TableColumns(processCol, typeCol, dataCol, ownerCol), show);
      }
      assert processes == Processes(t, parts.inProgress, TableColumns(processCol, typeCol, dataCol, ownerCol), show);

      var kpis := Kpis(ValueSum(t, parts.inProgress), |parts.intake|, Max(0.0, saving), |parts.closed|);
      assert kpis == MakeKpis(t, parts, show);
      r := Some(Dashboard(kpis, Charts(top10, byType, byOwner), processes));
      assert r == Some(Build(t, statusCol.value, show));
    }
  }
}
