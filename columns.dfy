/**
 * Column inference over inconsistently named headers: `DataProcessor._get_column`
 * and the choice of the cause-value column made while loading.
 */
module Columns {
  import opened Wrappers
  import opened PyStr

  /** `str(name).lower().strip()` */
  function Normalize(name: string): string {
    Strip(Lower(name))
  }

  /** `possible_lower in col_lower or col_lower in possible_lower` */
  predicate Overlaps(columnLower: string, possibleLower: string) {
    Contains(columnLower, possibleLower) || Contains(possibleLower, columnLower)
  }

  /** The two-way containment test `_get_column` applies to a candidate and a column name. */
  predicate Matches(candidate: string, column: string) {
    Overlaps(Normalize(column), Normalize(candidate))
  }

  /** The index of the first column that `candidate` matches under `m`. */
  function FirstMatch(columns: seq<string>, candidate: string, m: (string, string) -> bool): (r: Option<nat>)
    ensures r.Some? ==> r.value < |columns| && m(candidate, columns[r.value])
    ensures r.Some? ==> forall j :: 0 <= j < r.value ==> !m(candidate, columns[j])
    ensures r.None? ==> forall j :: 0 <= j < |columns| ==> !m(candidate, columns[j])
  {
    FirstWhere(columns, column => m(candidate, column))
  }

  /**
   * The nested search of `_get_column` under a match test `m`: candidates in
   * order, and for each candidate the columns in order; the first hit wins.
   */
  function ResolveWith(columns: seq<string>, candidates: seq<string>, m: (string, string) -> bool): Option<string>
    decreases |candidates|
  {
    if candidates == [] then None
    else match FirstMatch(columns, candidates[0], m)
      case Some(j) => Some(columns[j])
      case None => ResolveWith(columns, candidates[1..], m)
  }

  /** The column `_get_column(candidates)` returns. */
  function Resolve(columns: seq<string>, candidates: seq<string>): Option<string> {
    ResolveWith(columns, candidates, Matches)
  }

  /** No column matches any of the first `p` candidates. */
  predicate NoneBefore(columns: seq<string>, candidates: seq<string>, m: (string, string) -> bool, p: int)
    requires p <= |candidates|
  {
    forall q, k :: 0 <= q < p && 0 <= k < |columns| ==> !m(candidates[q], columns[k])
  }

  /** (p, j) is the first matching pair in candidate-major, column-minor order. */
  predicate FirstHit(columns: seq<string>, candidates: seq<string>, m: (string, string) -> bool, p: int, j: int) {
    && 0 <= p < |candidates| && 0 <= j < |columns|
    && m(candidates[p], columns[j])
    && NoneBefore(columns, candidates, m, p)
    && forall k :: 0 <= k < j ==> !m(candidates[p], columns[k])
  }

  /**
   * The nested search returns `None` exactly when no candidate matches any
   * column, and otherwise the column of the first matching pair.
   */
  lemma {:induction false} ResolveWithSpec(columns: seq<string>, candidates: seq<string>, m: (string, string) -> bool)
    ensures ResolveWith(columns, candidates, m).None? <==> NoneBefore(columns, candidates, m, |candidates|)
    ensures forall p, j :: FirstHit(columns, candidates, m, p, j) ==> ResolveWith(columns, candidates, m) == Some(columns[j])
    decreases |candidates|
  {
    if candidates != [] {
      ResolveWithSpec(columns, candidates[1..], m);
      var rest := candidates[1..];
      match FirstMatch(columns, candidates[0], m)
      case Some(j0) =>
        forall p, j | FirstHit(columns, candidates, m, p, j)
          ensures ResolveWith(columns, candidates, m) == Some(columns[j])
        {
          assert p == 0 && j == j0;
        }
      case None =>
        forall p, j | FirstHit(columns, candidates, m, p, j)
          ensures FirstHit(columns, rest, m, p - 1, j)
        {
          assert p > 0 by { assert !m(candidates[0], columns[j]); }
          forall q, k | 0 <= q < p - 1 && 0 <= k < |columns| ensures !m(rest[q], columns[k]) {
            assert rest[q] == candidates[q + 1];
          }
        }
        if NoneBefore(columns, rest, m, |rest|) {
          forall q, k | 0 <= q < |candidates| && 0 <= k < |columns|
            ensures !m(candidates[q], columns[k])
          {
            if q > 0 { assert candidates[q] == rest[q - 1]; }
          }
        }
        if NoneBefore(columns, candidates, m, |candidates|) {
          forall q, k | 0 <= q < |rest| && 0 <= k < |columns| ensures !m(rest[q], columns[k]) {
            assert rest[q] == candidates[q + 1];
          }
        }
    }
  }

  /** Every column name normalised, in order. */
  function NormalizeAll(columns: seq<string>): (r: seq<string>)
    ensures |r| == |columns|
    ensures forall k :: 0 <= k < |columns| ==> r[k] == Normalize(columns[k])
  {
    seq(|columns|, k requires 0 <= k < |columns| => Normalize(columns[k]))
  }

  /** One step over the candidates: a hit for candidate `p` decides, a miss moves on to `p + 1`. */
  lemma ResolveStep(columns: seq<string>, candidates: seq<string>, m: (string, string) -> bool, p: int)
    requires 0 <= p < |candidates|
    ensures FirstMatch(columns, candidates[p], m).Some? ==>
              ResolveWith(columns, candidates[p..], m) == Some(columns[FirstMatch(columns, candidates[p], m).value])
    ensures FirstMatch(columns, candidates[p], m).None? ==>
              ResolveWith(columns, candidates[p..], m) == ResolveWith(columns, candidates[p + 1..], m)
  {
    assert candidates[p..][0] == candidates[p];
    assert candidates[p..][1..] == candidates[p + 1..];
  }

  /**
   * `_get_column` returns `None` exactly when no candidate matches any column,
   * and otherwise the column of the first matching pair.
   */
  lemma ResolveSpec(columns: seq<string>, candidates: seq<string>)
    ensures Resolve(columns, candidates).None? <==>
              forall q, k :: 0 <= q < |candidates| && 0 <= k < |columns| ==> !Matches(candidates[q], columns[k])
    ensures forall p, j :: FirstHit(columns, candidates, Matches, p, j) ==> Resolve(columns, candidates) == Some(columns[j])
  {
    ResolveWithSpec(columns, candidates, Matches);
  }

  /** Whatever `_get_column` returns is one of the table's columns. */
  lemma {:induction false} ResolveIsColumn(columns: seq<string>, candidates: seq<string>, m: (string, string) -> bool)
    ensures ResolveWith(columns, candidates, m).Some? ==> ResolveWith(columns, candidates, m).value in columns
    decreases |candidates|
  {
    if candidates != [] {
      ResolveIsColumn(columns, candidates[1..], m);
    }
  }

  /** A column whose name strips to "" matches every candidate. */
  lemma BlankColumnMatchesAll(candidate: string, column: string)
    requires Normalize(column) == ""
    ensures Matches(candidate, column)
  {
    EmptyInEverything(Normalize(candidate));
  }

  // ---------------------------------------------------------------------
  // The cause-value column chosen while loading (data_processor.py:45-58).

  /** `'valor da causa atual' in str(col).lower()` */
  predicate IsCurrentCauseValue(column: string) {
    Contains(Lower(column), "valor da causa atual")
  }

  /** `'valor da causa' in str(col).lower() and 'atual' not in str(col).lower()` */
  predicate IsPlainCauseValue(column: string) {
    Contains(Lower(column), "valor da causa") && !Contains(Lower(column), "atual")
  }

  /** The index of the first column satisfying `p`: a search loop that breaks at its first hit. */
  function FirstWhere(columns: seq<string>, p: string -> bool): (r: Option<nat>)
    ensures r.Some? ==> r.value < |columns| && p(columns[r.value])
    ensures r.Some? ==> forall j :: 0 <= j < r.value ==> !p(columns[j])
    ensures r.None? ==> forall j :: 0 <= j < |columns| ==> !p(columns[j])
    decreases |columns|
  {
    if columns == [] then None
    else if p(columns[0]) then Some(0)
    else match FirstWhere(columns[1..], p)
      case None => None
      case Some(j) => Some(j + 1)
  }

  /**
   * The cause-value column: the first whose name holds "valor da causa atual";
   * failing that, the first holding "valor da causa" but not "atual".
   */
  function CauseColumn(columns: seq<string>): Option<string> {
    match FirstWhere(columns, IsCurrentCauseValue)
    case Some(j) => Some(columns[j])
    case None =>
      match FirstWhere(columns, IsPlainCauseValue)
      case Some(j) => Some(columns[j])
      case None => None
  }

  /**
   * The cause-value column is a column of the table; a "valor da causa atual"
   * column always wins over a plain "valor da causa" one; among columns of the
   * winning kind the first is taken; and there is none only when neither kind
   * occurs.
   */
  lemma CauseColumnChoice(columns: seq<string>)
    ensures CauseColumn(columns).Some? ==> CauseColumn(columns).value in columns
    ensures forall j :: 0 <= j < |columns| && IsCurrentCauseValue(columns[j]) ==>
              CauseColumn(columns).Some? && IsCurrentCauseValue(CauseColumn(columns).value)
    ensures forall j :: 0 <= j < |columns| && IsCurrentCauseValue(columns[j]) &&
              (forall k :: 0 <= k < j ==> !IsCurrentCauseValue(columns[k]))
              ==> CauseColumn(columns) == Some(columns[j])
    ensures forall j :: 0 <= j < |columns| && IsPlainCauseValue(columns[j]) &&
              (forall k :: 0 <= k < |columns| ==> !IsCurrentCauseValue(columns[k])) &&
              (forall k :: 0 <= k < j ==> !IsPlainCauseValue(columns[k]))
              ==> CauseColumn(columns) == Some(columns[j])
    ensures CauseColumn(columns).None? <==>
              forall j :: 0 <= j < |columns| ==> !IsCurrentCauseValue(columns[j]) && !IsPlainCauseValue(columns[j])
  {
  }

  /** The header "Valor da Causa Atual" lowercases to the text the first loop looks for. */
  lemma LowerCurrentHeader(header: string)
    requires header == "Valor da Causa Atual"
    ensures Lower(header) == "valor da causa atual"
  {
  }

  /** The header "Valor da Causa" lowercases to the text the second loop looks for. */
  lemma LowerPlainHeader(header: string)
    requires header == "Valor da Causa"
    ensures Lower(header) == "valor da causa"
  {
  }

  /** A column headed exactly "Valor da Causa Atual" is one the first loop picks. */
  lemma CurrentHeaderIsCurrent(header: string)
    requires header == "Valor da Causa Atual"
    ensures IsCurrentCauseValue(header)
  {
    LowerCurrentHeader(header);
    ContainsSelf(Lower(header));
  }

  /** "valor da causa" has no letter 't', so it cannot contain "atual". */
  lemma NoTInPlainHeader(lowered: string)
    requires lowered == "valor da causa"
    ensures 't' !in lowered
  {
    assert forall i :: 0 <= i < |lowered| ==> lowered[i] != 't';
  }

  /** A column headed exactly "Valor da Causa" is one the second loop picks. */
  lemma PlainHeaderIsPlain(header: string)
    requires header == "Valor da Causa"
    ensures IsPlainCauseValue(header)
  {
    LowerPlainHeader(header);
    ContainsSelf(Lower(header));
    if Contains(Lower(header), "atual") {
      ContainsChar(Lower(header), "atual", 1);
      NoTInPlainHeader(Lower(header));
      assert false;
    }
  }

  /**
   * The fallbacks `'Valor da Causa Atual' in df.columns` and `'Valor da Causa' in
   * df.columns` can never fire: whenever either header is present the search
   * loops have already chosen a cause-value column.
   */
  lemma ExactCauseHeadersFound(columns: seq<string>, current: string, plain: string)
    requires current == "Valor da Causa Atual" && plain == "Valor da Causa"
    requires current in columns || plain in columns
    ensures CauseColumn(columns).Some?
  {
    CauseColumnChoice(columns);
    if current in columns {
      CurrentHeaderIsCurrent(current);
      var j :| 0 <= j < |columns| && columns[j] == current;
      assert IsCurrentCauseValue(columns[j]);
    } else {
      PlainHeaderIsPlain(plain);
      var j :| 0 <= j < |columns| && columns[j] == plain;
      assert IsPlainCauseValue(columns[j]);
    }
  }
}
