/**
 * What `DataProcessor.get_full_data` computes from a loaded table: the status
 * subsets, the KPIs, the three charts and the top-50 process table.
 */
module Aggregation {
  import opened Wrappers
  import opened PyStr
  import opened Currency
  import opened Columns
  import opened Ranking
  import opened Frames

  // ---------------------------------------------------------------------
  // Candidate header lists, in the order the resolver tries them.

  const StatusNames: seq<string> := ["Status", "status", "STATUS"]
  const PaidNames: seq<string> := ["Valor", "valor"]
  const ProcessNames: seq<string> := ["Número do Processo", "Numero do Processo", "Processo", "Número do Processo "]
  const TypeNames: seq<string> := ["Descricao do Tipo de Ação", "Tipo de Ação", "Descricao do Tipo de Acao"]
  const OwnerNames: seq<string> := ["Usuario de Inclusao", "Usuário de Inclusão", "Responsavel", "Usuario de Inclusao"]
  const DateNames: seq<string> := ["Data de Entrada", "Data de Distribuição", "Data de distribuicao", "Data de entrada"]

  /** The text standing in for an unresolved column or a missing cell in the process table. */
  const Placeholder: string := "Não Informado"

  // ---------------------------------------------------------------------
  // Output payload.

  datatype Kpis = Kpis(valorAndamento: real, totalEntradas: nat, saving: real, totalEncerrados: nat)

  /** A chart: labels and values of equal length. */
  datatype Series = Series(labels: seq<string>, values: seq<real>)

  datatype Charts = Charts(top10Causas: Series, valorPorTipo: Series, valorPorResponsavel: Series)

  datatype ProcessRow = ProcessRow(processo: string, valor: real, tipo: string, data: string, responsavel: string)

  datatype Dashboard = Dashboard(kpis: Kpis, charts: Charts, processes: seq<ProcessRow>)

  // ---------------------------------------------------------------------
  // Helpers mirroring Python and pandas idioms.

  /** `if col:` on a resolved column name. */
  predicate Truthy(column: Option<string>) {
    column.Some? && column.value != ""
  }

  /** `astype(str)`: a missing cell renders as "nan". */
  function AsStr(cell: Option<string>): string {
    match cell
    case Some(s) => s
    case None => "nan"
  }

  /** `df[status].astype(str).str.contains(word, case=False)` for one record; `word` is given lowercased. */
  predicate StatusHas(r: Record, status: string, show: real -> string, word: string) {
    Contains(Lower(AsStr(Field(r, status, show))), word)
  }

  // ---------------------------------------------------------------------
  // Status subsets.

  datatype Subsets = Subsets(inProgress: seq<Record>, closed: seq<Record>, intake: seq<Record>)

  /** The in-progress, closed and intake rows, each a filter of the table in row order. */
  function Split(t: Table, status: string, show: real -> string): Subsets {
    Subsets(
      Filter(t.records, r => StatusHas(r, status, show, "andamento")),
      Filter(t.records, r => StatusHas(r, status, show, "encerrado")),
      Filter(t.records, r => StatusHas(r, status, show, "entrada")))
  }

  /**
   * A row is in each subset exactly when its status text contains the
   * subset's word in any case; the subsets are not exclusive.
   */
  lemma SplitMembership(t: Table, status: string, show: real -> string, r: Record)
    ensures r in Split(t, status, show).inProgress <==> r in t.records && StatusHas(r, status, show, "andamento")
    ensures r in Split(t, status, show).closed <==> r in t.records && StatusHas(r, status, show, "encerrado")
    ensures r in Split(t, status, show).intake <==> r in t.records && StatusHas(r, status, show, "entrada")
  {
    FilterMembership(t.records, r => StatusHas(r, status, show, "andamento"), r);
    FilterMembership(t.records, r => StatusHas(r, status, show, "encerrado"), r);
    FilterMembership(t.records, r => StatusHas(r, status, show, "entrada"), r);
  }

  // ---------------------------------------------------------------------
  // KPIs.

  /** `df_encerrados[col].apply(_clean_currency)` for one record. */
  function PaidAmount(r: Record, paid: string, show: real -> string): real {
    CleanCurrency(Field(r, paid, show))
  }

  /** The sum of `valor_numerico` over `rows`, 0 when the table has no such column. */
  function ValueSum(t: Table, rows: seq<Record>): real {
    if ValueColumn in t.columns then SumBy(rows, AmountOf) else 0.0
  }

  /** `df_encerrados[col].apply(_clean_currency).sum()` */
  function PaidSum(closed: seq<Record>, paid: string, show: real -> string): real {
    SumBy(closed, r => PaidAmount(r, paid, show))
  }

  /** The saving before flooring: cause value minus paid value over the closed rows. */
  function RawSaving(t: Table, closed: seq<Record>, show: real -> string): real {
    var paid := Resolve(t.columns, PaidNames);
    if Truthy(paid) && |closed| > 0 then ValueSum(t, closed) - PaidSum(closed, paid.value, show)
    else 0.0
  }

  function Max(a: real, b: real): real {
    if a >= b then a else b
  }

  function MakeKpis(t: Table, parts: Subsets, show: real -> string): Kpis {
    Kpis(ValueSum(t, parts.inProgress), |parts.intake|, Max(0.0, RawSaving(t, parts.closed, show)), |parts.closed|)
  }

  /**
   * The counts are the sizes of the intake and closed subsets, the in-progress
   * value is the sum over the in-progress rows, and the saving is the closed
   * rows' cause value minus their paid value, floored at 0, or 0 when no paid
   * column resolves or nothing is closed.
   */
  lemma KpisSpec(t: Table, parts: Subsets, show: real -> string)
    ensures MakeKpis(t, parts, show).totalEntradas == |parts.intake|
    ensures MakeKpis(t, parts, show).totalEncerrados == |parts.closed|
    ensures MakeKpis(t, parts, show).valorAndamento ==
              (if ValueColumn in t.columns then SumBy(parts.inProgress, AmountOf) else 0.0)
    ensures MakeKpis(t, parts, show).saving >= 0.0
    ensures MakeKpis(t, parts, show).saving >= RawSaving(t, parts.closed, show)
    ensures MakeKpis(t, parts, show).saving == 0.0 || MakeKpis(t, parts, show).saving == RawSaving(t, parts.closed, show)
    ensures !Truthy(Resolve(t.columns, PaidNames)) || |parts.closed| == 0 ==> MakeKpis(t, parts, show).saving == 0.0
  {
  }

  // ---------------------------------------------------------------------
  // Charts.

  /** Whether a chart or the process table is built at all. */
  predicate Charted(t: Table, column: Option<string>, inProgress: seq<Record>) {
    Truthy(column) && ValueColumn in t.columns && |inProgress| > 0
  }

  /** `top10_causas`: the ten in-progress rows with the largest value, labelled by process number. */
  function TopCauses(t: Table, inProgress: seq<Record>, processCol: Option<string>, show: real -> string): Series {
    if Charted(t, processCol, inProgress) then
      var top := TopK(inProgress, AmountOf, 10);
      Series(
        seq(|top|, i requires 0 <= i < |top| => AsStr(Field(top[i], processCol.value, show))),
        Amounts(top))
    else Series([], [])
  }

  /** The `valor_numerico` column of some rows, in row order. */
  function Amounts(rows: seq<Record>): (r: seq<real>)
    ensures |r| == |rows|
    ensures forall i :: 0 <= i < |rows| ==> r[i] == rows[i].amount
  {
    seq(|rows|, i requires 0 <= i < |rows| => rows[i].amount)
  }

  /** The (group key, value) pairs of the in-progress rows for `groupby(column)`. */
  function KeyedAmounts(rows: seq<Record>, column: string, show: real -> string): (r: seq<(Option<string>, real)>)
    ensures |r| == |rows|
  {
    seq(|rows|, i requires 0 <= i < |rows| => (Field(rows[i], column, show), rows[i].amount))
  }

  function TotalKey(g: Group): real {
    g.total
  }

  /** `groupby(column)['valor_numerico'].sum().nlargest(k)` over the in-progress rows. */
  function GroupChart(t: Table, inProgress: seq<Record>, column: Option<string>, k: nat, show: real -> string): Series {
    if Charted(t, column, inProgress) then
      var groups := TopK(GroupSums(KeyedAmounts(inProgress, column.value, show)), TotalKey, k);
      Series(Names(groups), Totals(groups))
    else Series([], [])
  }

  predicate NonIncreasing(xs: seq<real>) {
    forall i, j :: 0 <= i < j < |xs| ==> xs[i] >= xs[j]
  }

  /** Rows ranked by value give a non-increasing value column. */
  lemma RankedAmounts(rows: seq<Record>)
    requires DescendingBy(rows, AmountOf)
    ensures NonIncreasing(Amounts(rows))
  {
    forall i, j | 0 <= i < j < |rows| ensures Amounts(rows)[i] >= Amounts(rows)[j] {
      assert AmountOf(rows[i]) >= AmountOf(rows[j]);
    }
  }

  /**
   * `top10_causas` has at most ten entries, as many labels as values, and
   * values in descending order; with a chart it shows min(10, n) in-progress
   * rows, each as its process cell and its value.
   */
  lemma TopCausesSpec(t: Table, inProgress: seq<Record>, processCol: Option<string>, show: real -> string)
    ensures var s := TopCauses(t, inProgress, processCol, show);
      && |s.labels| == |s.values| <= 10
      && NonIncreasing(s.values)
      && (Charted(t, processCol, inProgress) ==> |s.values| == Min(10, |inProgress|))
      && (!Charted(t, processCol, inProgress) ==> s.values == [])
    ensures Charted(t, processCol, inProgress) ==>
      var top := TopK(inProgress, AmountOf, 10);
      var s := TopCauses(t, inProgress, processCol, show);
      forall i :: 0 <= i < |top| ==>
        && top[i] in inProgress
        && s.values[i] == top[i].amount
        && s.labels[i] == AsStr(Field(top[i], processCol.value, show))
  {
    if Charted(t, processCol, inProgress) {
      var top := TopK(inProgress, AmountOf, 10);
      TopKSpec(inProgress, AmountOf, 10);
      RankedAmounts(top);
      assert TopCauses(t, inProgress, processCol, show).values == Amounts(top);
      forall i | 0 <= i < |top| ensures top[i] in inProgress {
        assert top[i] in multiset(top);
      }
    }
  }

  /** Every in-progress row left out of `top10_causas` is worth no more than any row shown. */
  lemma TopCausesLeftOut(t: Table, inProgress: seq<Record>, processCol: Option<string>, show: real -> string)
    requires Charted(t, processCol, inProgress)
    ensures var top := TopK(inProgress, AmountOf, 10);
      forall x, i :: x in multiset(inProgress) - multiset(top) && 0 <= i < |top| ==>
        x.amount <= TopCauses(t, inProgress, processCol, show).values[i]
  {
    var top := TopK(inProgress, AmountOf, 10);
    var values := TopCauses(t, inProgress, processCol, show).values;
    assert values == Amounts(top);
    TopKSpec(inProgress, AmountOf, 10);
    forall x, i | x in multiset(inProgress) - multiset(top) && 0 <= i < |top| ensures x.amount <= values[i] {
      assert AmountOf(x) <= AmountOf(top[i]);
    }
  }

  /**
   * The `k` largest group sums: `min(k, #groups)` of them, totals in descending
   * order, distinct names, each a key of `pairs` carrying the sum of its values.
   */
  lemma TopGroups(pairs: seq<(Option<string>, real)>, k: nat)
    ensures var groups := TopK(GroupSums(pairs), TotalKey, k);
      && |groups| == Min(k, |GroupSums(pairs)|)
      && NonIncreasing(Totals(groups))
      && (forall i :: 0 <= i < |groups| ==>
            Some(groups[i].name) in Keys(pairs) && groups[i].total == GroupTotal(pairs, groups[i].name))
      && (forall i, j :: 0 <= i < j < |groups| ==> groups[i].name != groups[j].name)
  {
    var all := GroupSums(pairs);
    var groups := TopK(all, TotalKey, k);
    GroupSumsSpec(pairs);
    TopKSpec(all, TotalKey, k);
    forall i, j | 0 <= i < j < |groups| ensures Totals(groups)[i] >= Totals(groups)[j] {
      assert TotalKey(groups[i]) >= TotalKey(groups[j]);
    }
    forall i | 0 <= i < |groups|
      ensures Some(groups[i].name) in Keys(pairs) && groups[i].total == GroupTotal(pairs, groups[i].name)
    {
      assert groups[i] in multiset(groups);
      var j :| 0 <= j < |all| && all[j] == groups[i];
      assert all[j].name in Names(all);
    }
    forall i, j | 0 <= i < j < |groups| ensures groups[i].name != groups[j].name {
      GroupsFromDistinct(all, groups, i, j);
    }
  }

  /**
   * No key left out of the `k` largest group sums has a larger total than a
   * group that is kept.
   */
  lemma TopGroupsLeftOut(pairs: seq<(Option<string>, real)>, k: nat)
    ensures var groups := TopK(GroupSums(pairs), TotalKey, k);
      forall n, i :: Some(n) in Keys(pairs) && n !in Names(groups) && 0 <= i < |groups| ==>
        GroupTotal(pairs, n) <= groups[i].total
  {
    var all := GroupSums(pairs);
    var groups := TopK(all, TotalKey, k);
    GroupSumsSpec(pairs);
    TopKSpec(all, TotalKey, k);
    forall n, i | Some(n) in Keys(pairs) && n !in Names(groups) && 0 <= i < |groups|
      ensures GroupTotal(pairs, n) <= groups[i].total
    {
      assert n in Names(all);
      var j :| 0 <= j < |all| && Names(all)[j] == n;
      var g := all[j];
      NameOfMember(groups, g);
      assert g in multiset(all) - multiset(groups);
      assert TotalKey(g) <= TotalKey(groups[i]);
    }
  }

  /** The name of a group in the list is among the listed names. */
  lemma NameOfMember(groups: seq<Group>, g: Group)
    ensures g in groups ==> g.name in Names(groups)
  {
    if g in groups {
      var m :| 0 <= m < |groups| && groups[m] == g;
      assert Names(groups)[m] == g.name;
    }
  }

  /**
   * A group chart shows the `min(k, #keys)` largest group sums of the
   * in-progress rows: as many labels as values, values in descending order,
   * each entry a distinct key with the sum of its rows' values, and no key
   * left out with a larger sum than one shown.
   */
  lemma GroupChartSpec(t: Table, inProgress: seq<Record>, column: Option<string>, k: nat, show: real -> string)
    ensures var s := GroupChart(t, inProgress, column, k, show);
      && |s.labels| == |s.values| <= k
      && NonIncreasing(s.values)
      && (!Charted(t, column, inProgress) ==> s.values == [])
    ensures Charted(t, column, inProgress) ==>
      var pairs := KeyedAmounts(inProgress, column.value, show);
      var s := GroupChart(t, inProgress, column, k, show);
      forall i :: 0 <= i < |s.labels| ==>
        Some(s.labels[i]) in Keys(pairs) && s.values[i] == GroupTotal(pairs, s.labels[i])
    ensures Charted(t, column, inProgress) ==>
      var s := GroupChart(t, inProgress, column, k, show);
      forall i, j :: 0 <= i < j < |s.labels| ==> s.labels[i] != s.labels[j]
    ensures Charted(t, column, inProgress) ==>
      var pairs := KeyedAmounts(inProgress, column.value, show);
      var s := GroupChart(t, inProgress, column, k, show);
      && |s.labels| == Min(k, |GroupSums(pairs)|)
      && forall n, i :: Some(n) in Keys(pairs) && n !in s.labels && 0 <= i < |s.values| ==>
           GroupTotal(pairs, n) <= s.values[i]
  {
    if Charted(t, column, inProgress) {
      TopGroups(KeyedAmounts(inProgress, column.value, show), k);
      TopGroupsLeftOut(KeyedAmounts(inProgress, column.value, show), k);
    }
  }

  /** A sub-multiset of groups with distinct names has distinct names. */
  lemma GroupsFromDistinct(all: seq<Group>, groups: seq<Group>, i: int, j: int)
    requires DistinctNames(all)
    requires multiset(groups) <= multiset(all)
    requires 0 <= i < j < |groups|
    ensures groups[i].name != groups[j].name
  {
    if groups[i].name == groups[j].name {
      assert groups[i] in multiset(all) && groups[j] in multiset(all);
      var a :| 0 <= a < |all| && all[a] == groups[i];
      var b :| 0 <= b < |all| && all[b] == groups[j];
      assert a == b;
      CountTwice(groups, i, j);
      CountDistinct(all, a);
      assert false;
    }
  }

  /** An element at two positions is counted at least twice. */
  lemma CountTwice<T>(s: seq<T>, i: int, j: int)
    requires 0 <= i < j < |s| && s[i] == s[j]
    ensures multiset(s)[s[i]] >= 2
  {
    assert s == s[..i] + [s[i]] + s[i + 1..j] + [s[j]] + s[j + 1..];
  }

  /** In a sequence with distinct names each group occurs once. */
  lemma {:induction false} CountDistinct(all: seq<Group>, a: int)
    requires DistinctNames(all)
    requires 0 <= a < |all|
    ensures multiset(all)[all[a]] == 1
    decreases |all|
  {
    assert all == [all[0]] + all[1..];
    if a == 0 {
      assert forall b :: 0 <= b < |all[1..]| ==> all[1..][b] != all[0];
      assert all[0] !in all[1..];
    } else {
      CountDistinct(all[1..], a - 1);
      assert all[0].name != all[a].name;
    }
  }

  // ---------------------------------------------------------------------
  // The process table.

  /** A process-table field: the cell text, or the placeholder for an unresolved column or missing cell. */
  function Describe(r: Record, column: Option<string>, show: real -> string): string {
    if Truthy(column) && Field(r, column.value, show).Some? then Field(r, column.value, show).value else Placeholder
  }

  /** The columns the process table reads. */
  datatype TableColumns = TableColumns(processo: Option<string>, tipo: Option<string>, data: Option<string>, responsavel: Option<string>)

  /** One entry of `processes`. */
  function ProcessOf(t: Table, r: Record, cols: TableColumns, show: real -> string): ProcessRow {
    ProcessRow(
      Describe(r, cols.processo, show),
      if ValueColumn in t.columns then r.amount else 0.0,
      Describe(r, cols.tipo, show),
      Describe(r, cols.data, show),
      Describe(r, cols.responsavel, show))
  }

  /** The entries for a sequence of top rows, in order. */
  function ProcessesOf(t: Table, top: seq<Record>, cols: TableColumns, show: real -> string): (r: seq<ProcessRow>)
    ensures |r| == |top|
  {
    seq(|top|, i requires 0 <= i < |top| => ProcessOf(t, top[i], cols, show))
  }

  /** `processes`: the fifty most valuable in-progress rows, described. */
  function Processes(t: Table, inProgress: seq<Record>, cols: TableColumns, show: real -> string): seq<ProcessRow> {
    if Charted(t, cols.processo, inProgress) then ProcessesOf(t, TopK(inProgress, AmountOf, 50), cols, show)
    else []
  }

  /**
   * The process table describes the min(50, n) most valuable in-progress rows
   * in descending order of value, each by its value and the four described
   * fields, and is empty when no chart is drawn.
   */
  lemma ProcessesSpec(t: Table, inProgress: seq<Record>, cols: TableColumns, show: real -> string)
    ensures |Processes(t, inProgress, cols, show)| <= 50
    ensures forall i, j :: 0 <= i < j < |Processes(t, inProgress, cols, show)| ==>
              Processes(t, inProgress, cols, show)[i].valor >= Processes(t, inProgress, cols, show)[j].valor
    ensures Charted(t, cols.processo, inProgress) ==>
              |Processes(t, inProgress, cols, show)| == Min(50, |inProgress|)
    ensures !Charted(t, cols.processo, inProgress) ==> Processes(t, inProgress, cols, show) == []
    ensures Charted(t, cols.processo, inProgress) ==>
              var top := TopK(inProgress, AmountOf, 50);
              forall i :: 0 <= i < |top| ==>
                var p := Processes(t, inProgress, cols, show)[i];
                && top[i] in inProgress
                && p.valor == top[i].amount
                && p.processo == Describe(top[i], cols.processo, show)
                && p.tipo == Describe(top[i], cols.tipo, show)
                && p.data == Describe(top[i], cols.data, show)
                && p.responsavel == Describe(top[i], cols.responsavel, show)
  {
    if Charted(t, cols.processo, inProgress) {
      var top := TopK(inProgress, AmountOf, 50);
      TopKSpec(inProgress, AmountOf, 50);
      forall i | 0 <= i < |top| ensures top[i] in inProgress {
        assert top[i] in multiset(top);
      }
    }
  }

  /**
   * A process-table field is "Não Informado" when its column did not resolve
   * to a non-empty name or the row's cell is missing, and the cell text otherwise.
   */
  lemma DescribeSpec(r: Record, column: Option<string>, show: real -> string)
    ensures !Truthy(column) || Field(r, column.value, show).None? ==> Describe(r, column, show) == Placeholder
    ensures Truthy(column) && Field(r, column.value, show).Some? ==>
              Describe(r, column, show) == Field(r, column.value, show).value
  {
  }

  // ---------------------------------------------------------------------
  // The whole payload.

  /** The charts and process table of a table with status column `status`. */
  function Build(t: Table, status: string, show: real -> string): Dashboard {
    var parts := Split(t, status, show);
    var processCol := Resolve(t.columns, ProcessNames);
    var typeCol := Resolve(t.columns, TypeNames);
    var ownerCol := Resolve(t.columns, OwnerNames);
    var cols := TableColumns(processCol, typeCol, Resolve(t.columns, DateNames), ownerCol);
    Dashboard(
      MakeKpis(t, parts, show),
      Charts(
        TopCauses(t, parts.inProgress, processCol, show),
        GroupChart(t, parts.inProgress, typeCol, 5, show),
        GroupChart(t, parts.inProgress, ownerCol, 10, show)),
      Processes(t, parts.inProgress, cols, show))
  }

  /** `get_full_data`: none for an empty table or one without a status column. */
  function FullData(t: Table, show: real -> string): Option<Dashboard> {
    if Empty(t) then None
    else match Resolve(t.columns, StatusNames)
      case None => None
      case Some(status) => Some(Build(t, status, show))
  }

  /**
   * `get_full_data` gives no payload exactly when the table is empty or no
   * column matches "status"; otherwise every output is bounded as promised.
   */
  lemma FullDataSpec(t: Table, show: real -> string)
    ensures FullData(t, show).None? <==> Empty(t) || forall q, k :: 0 <= q < |StatusNames| && 0 <= k < |t.columns| ==>
              !Matches(StatusNames[q], t.columns[k])
    ensures FullData(t, show).Some? ==>
      var d := FullData(t, show).value;
      && d.kpis.saving >= 0.0
      && |d.charts.top10Causas.labels| == |d.charts.top10Causas.values| <= 10
      && |d.charts.valorPorTipo.labels| == |d.charts.valorPorTipo.values| <= 5
      && |d.charts.valorPorResponsavel.labels| == |d.charts.valorPorResponsavel.values| <= 10
      && |d.processes| <= 50
  {
    ResolveSpec(t.columns, StatusNames);
    if FullData(t, show).Some? {
      var status := Resolve(t.columns, StatusNames).value;
      var parts := Split(t, status, show);
      TopCausesSpec(t, parts.inProgress, Resolve(t.columns, ProcessNames), show);
      GroupChartSpec(t, parts.inProgress, Resolve(t.columns, TypeNames), 5, show);
      GroupChartSpec(t, parts.inProgress, Resolve(t.columns, OwnerNames), 10, show);
      ProcessesSpec(t, parts.inProgress,
        TableColumns(Resolve(t.columns, ProcessNames), Resolve(t.columns, TypeNames),
                     Resolve(t.columns, DateNames), Resolve(t.columns, OwnerNames)), show);
    }
  }

  // ---------------------------------------------------------------------
  // Consequences of appending `valor_numerico` before resolving.

  /** "Valor" normalises to "valor". */
  lemma NormalizePaidName(name: string)
    requires name == "Valor"
    ensures Normalize(name) == "valor"
  {
    assert Lower(name) == "valor";
    StripUnchanged(Lower(name));
  }

  /** "valor_numerico" is already normalised. */
  lemma NormalizeValueColumn(name: string)
    requires name == "valor_numerico"
    ensures Lower(name) == name
    ensures Normalize(name) == name
  {
    assert Lower(name) == name;
    StripUnchanged(name);
  }

  /** The paid-value candidate "Valor" matches the derived column. */
  lemma PaidNameMatchesValueColumn()
    ensures Matches(PaidNames[0], ValueColumn)
  {
    NormalizePaidName(PaidNames[0]);
    NormalizeValueColumn(ValueColumn);
    ValueColumnStartsWithValor(ValueColumn, "valor");
  }

  /** "valor" is a prefix of "valor_numerico". */
  lemma ValueColumnStartsWithValor(column: string, paid: string)
    requires column == "valor_numerico" && paid == "valor"
    ensures Contains(column, paid)
  {
    assert column[..|paid|] == paid;
    assert StartsWith(column, paid);
  }

  /**
   * When no column of the spreadsheet matches "Valor" or "valor" (neither
   * normalised name contains the other), the paid-value resolver lands on the
   * derived `valor_numerico` column.
   */
  lemma PaidResolvesToValueColumn(f: Frame)
    requires |f.rows| > 0 && |f.columns| > 0
    requires ValueColumn !in f.columns
    requires forall q, k :: 0 <= q < |PaidNames| && 0 <= k < |f.columns| ==> !Matches(PaidNames[q], f.columns[k])
    ensures Load(Some(f)).Some?
    ensures Resolve(Load(Some(f)).value.columns, PaidNames) == Some(ValueColumn)
  {
    var columns := Load(Some(f)).value.columns;
    assert columns == f.columns + [ValueColumn];
    PaidNameMatchesValueColumn();
    forall k | 0 <= k < |f.columns| ensures !Matches(PaidNames[0], columns[k]) {
      assert columns[k] == f.columns[k];
    }
    assert FirstHit(columns, PaidNames, Matches, 0, |f.columns|);
    ResolveSpec(columns, PaidNames);
  }

  /** The chosen cause-value column has a space in its lowercased name. */
  lemma CauseColumnHasSpace(columns: seq<string>)
    requires CauseColumn(columns).Some?
    ensures ' ' in Lower(CauseColumn(columns).value)
  {
    match FirstWhere(columns, IsCurrentCauseValue)
    case Some(j) =>
      ContainsChar(Lower(columns[j]), "valor da causa atual", 5);
    case None =>
      var j := FirstWhere(columns, IsPlainCauseValue).value;
      ContainsChar(Lower(columns[j]), "valor da causa", 5);
  }

  /** The chosen cause-value column is never the derived column. */
  lemma CauseColumnIsNotDerived(columns: seq<string>)
    requires CauseColumn(columns).Some?
    ensures CauseColumn(columns).value != ValueColumn
  {
    CauseColumnHasSpace(columns);
    NormalizeValueColumn(ValueColumn);
    NoSpaceInValueColumn(ValueColumn);
  }

  /** Lowercasing never introduces a space. */
  lemma LowerAddsNoSpace(column: string)
    requires ' ' !in column
    ensures ' ' !in Lower(column)
  {
    forall i | 0 <= i < |column| ensures Lower(column)[i] != ' ' {
      assert column[i] != ' ';
    }
  }

  /**
   * A spreadsheet none of whose headers holds a space (snake_case headers such
   * as "valor_causa") has no cause-value column, so `valor_numerico` is 0 in
   * every row.
   */
  lemma HeadersWithoutSpaceGiveZero(f: Frame)
    requires |f.rows| > 0 && |f.columns| > 0
    requires forall k :: 0 <= k < |f.columns| ==> ' ' !in f.columns[k]
    ensures CauseColumn(f.columns).None?
    ensures forall i :: 0 <= i < |f.rows| ==> Load(Some(f)).value.records[i].amount == 0.0
  {
    if CauseColumn(f.columns).Some? {
      CauseColumnChoice(f.columns);
      CauseColumnHasSpace(f.columns);
      var c := CauseColumn(f.columns).value;
      var k :| 0 <= k < |f.columns| && f.columns[k] == c;
      LowerAddsNoSpace(c);
      assert false;
    }
    LoadSpec(f);
  }

  /** "valor_numerico" has no space. */
  lemma NoSpaceInValueColumn(name: string)
    requires name == "valor_numerico"
    ensures ' ' !in name
  {
    assert forall i :: 0 <= i < |name| ==> name[i] != ' ';
  }

  /** Equal terms give equal sums. */
  lemma {:induction false} SumByPointwise<T>(s: seq<T>, f: T -> real, g: T -> real)
    requires forall i :: 0 <= i < |s| ==> f(s[i]) == g(s[i])
    ensures SumBy(s, f) == SumBy(s, g)
    decreases |s|
  {
    if s != [] {
      SumByPointwise(s[..|s| - 1], f, g);
    }
  }

  /**
   * When the paid-value resolver lands on the cause-value column itself (the
   * first header matching "valor" is "Valor da Causa", say), the paid and
   * cause sums coincide and the reported saving is 0 whatever the data.
   */
  lemma SavingZeroWhenPaidIsCause(f: Frame, status: string, show: real -> string)
    requires |f.rows| > 0 && |f.columns| > 0
    requires CauseColumn(f.columns).Some?
    requires Resolve(Load(Some(f)).value.columns, PaidNames) == CauseColumn(f.columns)
    ensures var t := Load(Some(f)).value;
      MakeKpis(t, Split(t, status, show), show).saving == 0.0
  {
    LoadSpec(f);
    var t := Load(Some(f)).value;
    var c := CauseColumn(f.columns).value;
    CauseColumnIsNotDerived(f.columns);
    var closed := Split(t, status, show).closed;
    forall i | 0 <= i < |closed| ensures AmountOf(closed[i]) == PaidAmount(closed[i], c, show) {
      SplitMembership(t, status, show, closed[i]);
      var j :| 0 <= j < |t.records| && t.records[j] == closed[i];
    }
    SumByPointwise(closed, AmountOf, r => PaidAmount(r, c, show));
  }
}
