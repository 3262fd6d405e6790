/**
 * The correlation tab (frontend/components/analysis/correlation-analysis.tsx): which declared
 * columns it counts as numeric, how it reads a cell of the matrix the route returned, and
 * the "Strong Correlations" list, the five strongest pairs above 0.7 in absolute value.
 */
module CorrelationInsights {
  import opened Options
  import opened JsValues
  import opened Records
  import opened Dataset
  import opened Sorting
  import opened VisualizationAnalyzer

  /** `columns.filter(col => ...)`: a declared column is numeric when its first cell that is
      neither `null` nor `""` converts with `Number`. */
  function NumericDeclared(data: seq<Row>, columns: seq<Column>): (numeric: seq<Column>)
    ensures |numeric| <= |columns|
  {
    if |columns| == 0 then []
    else
      (if IsNumericColumn(data, columns[0].name) then [columns[0]] else [])
        + NumericDeclared(data, columns[1..])
  }

  /** The declared columns kept are exactly the numeric ones, in declaration order. */
  lemma {:induction false} NumericDeclaredAre(data: seq<Row>, columns: seq<Column>, c: Column)
    ensures c in NumericDeclared(data, columns) <==> c in columns && IsNumericColumn(data, c.name)
  {
    if |columns| > 0 {
      NumericDeclaredAre(data, columns[1..], c);
      assert c in columns <==> c == columns[0] || c in columns[1..];
    }
  }

  /** `typeof value === 'number' ? value : parseFloat(String(value))`; `None` is NaN, which
      the heatmap shows as "-". A coefficient the route could not compute arrives as `null`. */
  function CellValue(c: Cell): Option<real> {
    ParseFloat(c)
  }

  /** JavaScript's `<` on strings: code-unit order, a proper prefix first. */
  predicate StringLess(a: string, b: string) {
    if |a| == 0 then |b| > 0
    else if |b| == 0 then false
    else if a[0] != b[0] then a[0] < b[0]
    else StringLess(a[1..], b[1..])
  }

  lemma {:induction false} StringLessIrreflexive(a: string)
    ensures !StringLess(a, a)
  {
    if |a| > 0 {
      StringLessIrreflexive(a[1..]);
    }
  }

  lemma {:induction false} StringLessAsymmetric(a: string, b: string)
    requires StringLess(a, b)
    ensures !StringLess(b, a)
  {
    if |a| > 0 && |b| > 0 && a[0] == b[0] {
      StringLessAsymmetric(a[1..], b[1..]);
    }
  }

  function Abs(v: real): real {
    if v < 0.0 then -v else v
  }

  /** One entry of the list: the two columns and the coefficient. */
  datatype StrongPair = StrongPair(col1: string, col2: string, value: real)

  /** The sort key of `sort((a, b) => Math.abs(b.value) - Math.abs(a.value))`. */
  function Strength(p: StrongPair): real {
    Abs(p.value)
  }

  /** The filter on an entry `[col2, value]` of row `col1`. */
  predicate Kept(col1: string, e: Entry<Cell>) {
    StringLess(col1, e.key) && CellValue(e.value).Some? && Abs(CellValue(e.value).value) > 0.7
  }

  /** The filtered and mapped entries of row `col1`. */
  function RowPairs(col1: string, values: Record<Cell>): seq<StrongPair> {
    if |values| == 0 then []
    else
      (if Kept(col1, values[0]) then [StrongPair(col1, values[0].key, CellValue(values[0].value).value)]
       else [])
        + RowPairs(col1, values[1..])
  }

  /** The `flatMap` over the rows. */
  function Candidates(matrix: Record<Record<Cell>>): seq<StrongPair> {
    if |matrix| == 0 then [] else RowPairs(matrix[0].key, matrix[0].value) + Candidates(matrix[1..])
  }

  /** The list shown: the candidates, strongest first, at most five. */
  function StrongCorrelations(matrix: Record<Record<Cell>>): seq<StrongPair> {
    var sorted := SortBy(Candidates(matrix), Strength);
    if |sorted| <= 5 then sorted else sorted[..5]
  }

  /** The entries of a row that pass the filter, each with its value as read. */
  lemma {:induction false} RowPairsAre(col1: string, values: Record<Cell>, p: StrongPair)
    ensures p in RowPairs(col1, values) <==>
              exists j :: 0 <= j < |values| && p.col1 == col1 && values[j].key == p.col2
                && Kept(col1, values[j]) && CellValue(values[j].value) == Some(p.value)
  {
    if |values| > 0 {
      RowPairsAre(col1, values[1..], p);
      var head := if Kept(col1, values[0]) then [StrongPair(col1, values[0].key, CellValue(values[0].value).value)]
                  else [];
      assert RowPairs(col1, values) == head + RowPairs(col1, values[1..]);
      if exists j :: 0 <= j < |values| && p.col1 == col1 && values[j].key == p.col2
                      && Kept(col1, values[j]) && CellValue(values[j].value) == Some(p.value) {
        var j :| 0 <= j < |values| && p.col1 == col1 && values[j].key == p.col2
                 && Kept(col1, values[j]) && CellValue(values[j].value) == Some(p.value);
        if j > 0 {
          assert values[1..][j - 1] == values[j];
        }
      }
      if p in RowPairs(col1, values[1..]) {
        var j :| 0 <= j < |values[1..]| && p.col1 == col1 && values[1..][j].key == p.col2
                 && Kept(col1, values[1..][j]) && CellValue(values[1..][j].value) == Some(p.value);
        assert values[j + 1] == values[1..][j];
      }
    }
  }

  /** A pair is a candidate iff some row `col1` holds, under `col2`, a cell that reads as a
      number above 0.7 in absolute value, with `col1 < col2`; the value is that cell's. */
  lemma {:induction false} CandidatesAre(matrix: Record<Record<Cell>>, p: StrongPair)
    ensures p in Candidates(matrix) <==>
              exists i, j :: 0 <= i < |matrix| && 0 <= j < |matrix[i].value|
                && matrix[i].key == p.col1 && matrix[i].value[j].key == p.col2
                && Kept(p.col1, matrix[i].value[j]) && CellValue(matrix[i].value[j].value) == Some(p.value)
  {
    if |matrix| > 0 {
      CandidatesAre(matrix[1..], p);
      RowPairsAre(matrix[0].key, matrix[0].value, p);
      if exists i, j :: 0 <= i < |matrix| && 0 <= j < |matrix[i].value|
                && matrix[i].key == p.col1 && matrix[i].value[j].key == p.col2
                && Kept(p.col1, matrix[i].value[j]) && CellValue(matrix[i].value[j].value) == Some(p.value) {
        var i, j :| 0 <= i < |matrix| && 0 <= j < |matrix[i].value|
                && matrix[i].key == p.col1 && matrix[i].value[j].key == p.col2
                && Kept(p.col1, matrix[i].value[j]) && CellValue(matrix[i].value[j].value) == Some(p.value);
        if i > 0 {
          assert matrix[1..][i - 1] == matrix[i];
        }
      }
      if p in Candidates(matrix[1..]) {
        var i, j :| 0 <= i < |matrix[1..]| && 0 <= j < |matrix[1..][i].value|
                && matrix[1..][i].key == p.col1 && matrix[1..][i].value[j].key == p.col2
                && Kept(p.col1, matrix[1..][i].value[j])
                && CellValue(matrix[1..][i].value[j].value) == Some(p.value);
        assert matrix[i + 1] == matrix[1..][i];
      }
    }
  }

  /** No two entries of a list name the same pair of columns. */
  predicate PairsDistinct(s: seq<StrongPair>) {
    forall i, j :: 0 <= i < j < |s| ==> (s[i].col1, s[i].col2) != (s[j].col1, s[j].col2)
  }

  lemma PairsDistinctConcat(a: seq<StrongPair>, b: seq<StrongPair>)
    requires PairsDistinct(a) && PairsDistinct(b)
    requires forall p, q :: p in a && q in b ==> (p.col1, p.col2) != (q.col1, q.col2)
    ensures PairsDistinct(a + b)
  {
    var s := a + b;
    forall i, j | 0 <= i < j < |s| ensures (s[i].col1, s[i].col2) != (s[j].col1, s[j].col2) {
      if i >= |a| {
        assert s[i] == b[i - |a|] && s[j] == b[j - |a|];
      } else if j >= |a| {
        assert s[i] in a && s[j] == b[j - |a|];
      }
    }
  }

  /** A row whose keys are distinct yields each pair at most once. */
  lemma {:induction false} RowPairsDistinct(col1: string, values: Record<Cell>)
    requires DistinctKeys(values)
    ensures PairsDistinct(RowPairs(col1, values))
  {
    if |values| > 0 {
      var tail := values[1..];
      RowPairsDistinct(col1, tail);
      HeadNotInTail(values);
      var head := if Kept(col1, values[0]) then [StrongPair(col1, values[0].key, CellValue(values[0].value).value)]
                  else [];
      forall p, q | p in head && q in RowPairs(col1, tail) ensures (p.col1, p.col2) != (q.col1, q.col2) {
        RowPairsAre(col1, tail, q);
        KeySetIndex(tail, q.col2);
      }
      PairsDistinctConcat(head, RowPairs(col1, tail));
    }
  }

  /** A matrix whose row keys, and the keys of each row, are distinct (as those of a JSON
      object are) yields each pair at most once. */
  lemma {:induction false} CandidatesDistinct(matrix: Record<Record<Cell>>)
    requires DistinctKeys(matrix)
    requires forall i :: 0 <= i < |matrix| ==> DistinctKeys(matrix[i].value)
    ensures PairsDistinct(Candidates(matrix))
  {
    if |matrix| > 0 {
      var tail := matrix[1..];
      assert forall i :: 0 <= i < |tail| ==> tail[i] == matrix[i + 1];
      CandidatesDistinct(tail);
      RowPairsDistinct(matrix[0].key, matrix[0].value);
      HeadNotInTail(matrix);
      forall p, q | p in RowPairs(matrix[0].key, matrix[0].value) && q in Candidates(tail)
        ensures (p.col1, p.col2) != (q.col1, q.col2)
      {
        RowPairsAre(matrix[0].key, matrix[0].value, p);
        CandidatesAre(tail, q);
        KeySetIndex(tail, q.col1);
      }
      PairsDistinctConcat(RowPairs(matrix[0].key, matrix[0].value), Candidates(tail));
    }
  }

  /** In a list without a repeated pair, no entry occurs twice. */
  lemma {:induction false} OccursOnce(s: seq<StrongPair>)
    requires PairsDistinct(s)
    ensures forall x :: multiset(s)[x] <= 1
  {
    if |s| > 0 {
      var tail := s[1..];
      assert forall i :: 0 <= i < |tail| ==> tail[i] == s[i + 1];
      OccursOnce(tail);
      assert s == [s[0]] + tail;
      assert s[0] !in tail;
    }
  }

  /** An entry at two positions occurs at least twice. */
  lemma Repeated(s: seq<StrongPair>, i: nat, j: nat)
    requires i < j < |s| && s[i] == s[j]
    ensures multiset(s)[s[i]] >= 2
  {
    assert s == s[..j] + s[j..];
    assert s[i] in s[..j] && s[j] in s[j..];
  }

  /** At most five entries (every candidate when there are no more), strongest first, each a
      candidate: a pair of different columns in string order, whose value is its matrix cell
      as read and exceeds 0.7 in absolute value. The mirrored pair of a listed pair is never
      listed, and for a matrix read from JSON objects (distinct keys) no pair is listed twice. */
  lemma StrongCorrelationsFacts(matrix: Record<Record<Cell>>)
    ensures var shown := StrongCorrelations(matrix);
            && |shown| == (if |Candidates(matrix)| < 5 then |Candidates(matrix)| else 5)
            && (|Candidates(matrix)| <= 5 ==> multiset(shown) == multiset(Candidates(matrix)))
            && SortedDesc(shown, Strength)
            && (forall p :: p in shown ==> p in Candidates(matrix))
            && (forall p :: p in shown ==>
                  StringLess(p.col1, p.col2) && p.col1 != p.col2 && Abs(p.value) > 0.7)
            && (forall p, q :: p in shown && q in shown ==> !(q.col1 == p.col2 && q.col2 == p.col1))
  {
    var candidates := Candidates(matrix);
    var sorted := SortBy(candidates, Strength);
    var shown := StrongCorrelations(matrix);
    forall p | p in shown ensures p in candidates {
      assert p in multiset(sorted);
    }
    forall p | p in shown ensures StringLess(p.col1, p.col2) && p.col1 != p.col2 && Abs(p.value) > 0.7 {
      CandidatesAre(matrix, p);
      if p.col1 == p.col2 {
        StringLessIrreflexive(p.col1);
      }
    }
    forall p, q | p in shown && q in shown ensures !(q.col1 == p.col2 && q.col2 == p.col1) {
      if q.col1 == p.col2 && q.col2 == p.col1 {
        StringLessAsymmetric(p.col1, p.col2);
      }
    }
  }

  /** For a matrix read from JSON objects, whose keys are distinct, the list never names the
      same pair of columns twice. */
  lemma StrongCorrelationsDistinct(matrix: Record<Record<Cell>>)
    requires DistinctKeys(matrix)
    requires forall i :: 0 <= i < |matrix| ==> DistinctKeys(matrix[i].value)
    ensures PairsDistinct(StrongCorrelations(matrix))
  {
    var candidates := Candidates(matrix);
    var sorted := SortBy(candidates, Strength);
    var shown := StrongCorrelations(matrix);
    CandidatesDistinct(matrix);
    OccursOnce(candidates);
    forall i, j | 0 <= i < j < |shown|
      ensures (shown[i].col1, shown[i].col2) != (shown[j].col1, shown[j].col2)
    {
      assert shown[i] == sorted[i] && shown[j] == sorted[j];
      if shown[i] == shown[j] {
        Repeated(sorted, i, j);
      } else {
        assert sorted[i] in multiset(candidates) && sorted[j] in multiset(candidates);
      }
    }
  }

  /** The list is the top five: a candidate left out is no stronger than any listed pair. */
  lemma StrongestKept(matrix: Record<Record<Cell>>, p: StrongPair)
    requires |Candidates(matrix)| > 5
    requires p in multiset(Candidates(matrix)) - multiset(StrongCorrelations(matrix))
    ensures forall q :: q in StrongCorrelations(matrix) ==> Strength(q) >= Strength(p)
  {
    var sorted := SortBy(Candidates(matrix), Strength);
    var shown, rest := sorted[..5], sorted[5..];
    assert StrongCorrelations(matrix) == shown;
    assert sorted == shown + rest;
    assert multiset(sorted) == multiset(shown) + multiset(rest);
    assert p in rest;
    PrefixNotWeaker(sorted, Strength, 5, p);
  }

  /** A cell the route sent as `null` (a 0/0 coefficient) is shown as "-" and never listed;
      so is a boolean, which `parseFloat(String(v))` reads as NaN. */
  lemma NullNeverListed(col1: string, e: Entry<Cell>)
    requires e.value == Null || e.value.Bool?
    ensures CellValue(e.value) == None && !Kept(col1, e)
  {
  }
}
