/**
 The line diff shown before a mod configuration file is overwritten.

 The diff is a longest-common-subsequence table filled from the bottom right corner, followed by
 a greedy walk from the top left one.  The module proves that the walk produces a correct edit
 script with the right line numbers, and that no edit script changes fewer lines.
 */
module LineDiff {
  import opened Text

  newtype uint32 = x: int | 0 <= x < 0x1_0000_0000

  datatype Kind = Same | Add | Remove

  datatype Row = Row(kind: Kind, line: nat, text: string)

  const CELL_LIMIT := 250000

  const LARGE_REMOVED := "Large file: original content replaced. Compare editor content carefully."
  const LARGE_ADDED := "Large file: proposed content appears in editor below."

  // ---------- Edit scripts ----------

  /** The file a script starts from: its kept and removed lines. */
  function OldText(rows: seq<Row>): seq<string> {
    if rows == [] then [] else (if rows[0].kind == Add then [] else [rows[0].text]) + OldText(rows[1..])
  }

  /** The file a script ends with: its kept and added lines. */
  function NewText(rows: seq<Row>): seq<string> {
    if rows == [] then [] else (if rows[0].kind == Remove then [] else [rows[0].text]) + NewText(rows[1..])
  }

  function KeptText(rows: seq<Row>): seq<string> {
    if rows == [] then [] else (if rows[0].kind == Same then [rows[0].text] else []) + KeptText(rows[1..])
  }

  ghost predicate IsScript(rows: seq<Row>, a: seq<string>, b: seq<string>) {
    OldText(rows) == a && NewText(rows) == b
  }

  /** The line a row shows and its one-based number: in the new file for an added row, in the old file otherwise. */
  ghost predicate RowFits(row: Row, a: seq<string>, b: seq<string>, i: nat, j: nat) {
    && (row.kind != Add ==> i < |a| && row.text == a[i] && row.line == i + 1)
    && (row.kind != Remove ==> j < |b| && row.text == b[j])
    && (row.kind == Add ==> row.line == j + 1)
  }

  /** The rows list the old file from line i and the new file from line j, each line once and correctly numbered. */
  ghost predicate Lists(rows: seq<Row>, a: seq<string>, b: seq<string>, i: nat, j: nat) {
    if rows == [] then i == |a| && j == |b|
    else
      && RowFits(rows[0], a, b, i, j)
      && Lists(rows[1..], a, b, if rows[0].kind == Add then i else i + 1, if rows[0].kind == Remove then j else j + 1)
  }

  /** A listing is an edit script between the two rests. */
  lemma {:induction false} ListingIsScript(rows: seq<Row>, a: seq<string>, b: seq<string>, i: nat, j: nat)
    requires i <= |a| && j <= |b| && Lists(rows, a, b, i, j)
    ensures IsScript(rows, a[i..], b[j..])
  {
    if rows != [] {
      var p, q := if rows[0].kind == Add then i else i + 1, if rows[0].kind == Remove then j else j + 1;
      ListingIsScript(rows[1..], a, b, p, q);
      assert rows[0].kind != Add ==> a[i..] == [a[i]] + a[p..];
      assert rows[0].kind != Remove ==> b[j..] == [b[j]] + b[q..];
    }
  }

  ghost function Changed(rows: seq<Row>): int {
    |rows| - |KeptText(rows)|
  }

  lemma ConsRow(row: Row, rest: seq<Row>)
    ensures OldText([row] + rest) == if row.kind == Add then OldText(rest) else [row.text] + OldText(rest)
    ensures NewText([row] + rest) == if row.kind == Remove then NewText(rest) else [row.text] + NewText(rest)
    ensures KeptText([row] + rest) == if row.kind == Same then [row.text] + KeptText(rest) else KeptText(rest)
  {
    assert ([row] + rest)[1..] == rest;
  }

  /** Each kept row serves both files, every other row serves one of them. */
  lemma {:induction false} ScriptLength(rows: seq<Row>)
    ensures |OldText(rows)| + |NewText(rows)| == |rows| + |KeptText(rows)|
  {
    if rows != [] {
      ScriptLength(rows[1..]);
    }
  }

  // ---------- The table ----------

  function Lcs(a: seq<string>, b: seq<string>, i: nat, j: nat): (n: nat)
    requires i <= |a| && j <= |b|
    ensures n <= |a| - i && n <= |b| - j
    decreases |a| - i + |b| - j
  {
    if i == |a| || j == |b| then 0
    else if a[i] == b[j] then Lcs(a, b, i + 1, j + 1) + 1
    else Max(Lcs(a, b, i + 1, j), Lcs(a, b, i, j + 1))
  }

  function Max(x: nat, y: nat): nat {
    if x >= y then x else y
  }

  /** Neighbouring cells differ by at most one. */
  lemma {:induction false} LcsNeighbours(a: seq<string>, b: seq<string>, i: nat, j: nat)
    requires i <= |a| && j <= |b|
    ensures i < |a| ==> Lcs(a, b, i + 1, j) <= Lcs(a, b, i, j) <= Lcs(a, b, i + 1, j) + 1
    ensures j < |b| ==> Lcs(a, b, i, j + 1) <= Lcs(a, b, i, j) <= Lcs(a, b, i, j + 1) + 1
    decreases |a| - i + |b| - j
  {
    if i < |a| && j < |b| {
      LcsNeighbours(a, b, i + 1, j);
      LcsNeighbours(a, b, i, j + 1);
    }
  }

  /** No edit script between the remaining lines keeps more than the table promises. */
  lemma {:induction false} NoScriptKeepsMore(rows: seq<Row>, a: seq<string>, b: seq<string>, i: nat, j: nat)
    requires i <= |a| && j <= |b|
    requires IsScript(rows, a[i..], b[j..])
    ensures |KeptText(rows)| <= Lcs(a, b, i, j)
    decreases |rows|
  {
    if rows != [] {
      LcsNeighbours(a, b, i, j);
      match rows[0].kind {
        case Same =>
          assert rows[0].text == a[i..][0] == b[j..][0];
          assert a[i + 1..] == a[i..][1..] && b[j + 1..] == b[j..][1..];
          NoScriptKeepsMore(rows[1..], a, b, i + 1, j + 1);
        case Add =>
          assert rows[0].text == b[j..][0];
          assert b[j + 1..] == b[j..][1..];
          NoScriptKeepsMore(rows[1..], a, b, i, j + 1);
        case Remove =>
          assert rows[0].text == a[i..][0];
          assert a[i + 1..] == a[i..][1..];
          NoScriptKeepsMore(rows[1..], a, b, i + 1, j);
      }
    }
  }

  // ---------- The walk ----------

  /** The greedy choice: matching lines are kept, and on a tie additions come before removals. */
  function Choose(a: seq<string>, b: seq<string>, i: nat, j: nat): (kind: Kind)
    requires i <= |a| && j <= |b| && (i < |a| || j < |b|)
    ensures kind != Add ==> i < |a|
    ensures kind != Remove ==> j < |b|
    ensures kind == Same ==> a[i] == b[j]
  {
    if i < |a| && j < |b| && a[i] == b[j] then Same
    else if j < |b| && (i == |a| || Lcs(a, b, i, j + 1) >= Lcs(a, b, i + 1, j)) then Add
    else Remove
  }

  function RowAt(a: seq<string>, b: seq<string>, i: nat, j: nat, kind: Kind): (row: Row)
    requires kind != Add ==> i < |a|
    requires kind != Remove ==> j < |b|
    requires kind == Same ==> a[i] == b[j]
    ensures row.kind == kind && RowFits(row, a, b, i, j)
  {
    if kind == Add then Row(Add, j + 1, b[j]) else Row(kind, i + 1, a[i])
  }

  function Walk(a: seq<string>, b: seq<string>, i: nat, j: nat): seq<Row>
    requires i <= |a| && j <= |b|
    decreases |a| - i + |b| - j
  {
    if i == |a| && j == |b| then []
    else
      var kind := Choose(a, b, i, j);
      [RowAt(a, b, i, j, kind)] + Walk(a, b, if kind == Add then i else i + 1, if kind == Remove then j else j + 1)
  }

  /** The walk lists the rest of both files. */
  lemma {:induction false} WalkLists(a: seq<string>, b: seq<string>, i: nat, j: nat)
    requires i <= |a| && j <= |b|
    ensures Lists(Walk(a, b, i, j), a, b, i, j)
    decreases |a| - i + |b| - j
  {
    if i < |a| || j < |b| {
      var kind := Choose(a, b, i, j);
      var p, q := if kind == Add then i else i + 1, if kind == Remove then j else j + 1;
      WalkLists(a, b, p, q);
      assert Walk(a, b, i, j)[1..] == Walk(a, b, p, q);
    }
  }

  /** The walk keeps exactly as many rows as the table promises. */
  lemma {:induction false} WalkKeepsTable(a: seq<string>, b: seq<string>, i: nat, j: nat)
    requires i <= |a| && j <= |b|
    ensures |KeptText(Walk(a, b, i, j))| == Lcs(a, b, i, j)
    decreases |a| - i + |b| - j
  {
    if i < |a| || j < |b| {
      var kind := Choose(a, b, i, j);
      var p, q := if kind == Add then i else i + 1, if kind == Remove then j else j + 1;
      WalkKeepsTable(a, b, p, q);
      assert Walk(a, b, i, j)[1..] == Walk(a, b, p, q);
      assert Lcs(a, b, i, j) == Lcs(a, b, p, q) + if kind == Same then 1 else 0;
    }
  }

  /** Correct rows that together form an edit script no other edit script beats. */
  ghost predicate OptimalDiff(rows: seq<Row>, a: seq<string>, b: seq<string>) {
    && Lists(rows, a, b, 0, 0)
    && IsScript(rows, a, b)
    && forall other :: IsScript(other, a, b) ==> Changed(rows) <= Changed(other)
  }

  /** The walk over two whole files is an edit script, and no edit script changes fewer rows. */
  lemma WalkIsOptimal(a: seq<string>, b: seq<string>)
    ensures OptimalDiff(Walk(a, b, 0, 0), a, b)
  {
    WalkLists(a, b, 0, 0);
    ListingIsScript(Walk(a, b, 0, 0), a, b, 0, 0);
    WalkKeepsTable(a, b, 0, 0);
    assert a[0..] == a && b[0..] == b;
    forall other | IsScript(other, a, b)
      ensures Changed(Walk(a, b, 0, 0)) <= Changed(other)
    {
      NoScriptKeepsMore(other, a, b, 0, 0);
      ScriptLength(other);
      ScriptLength(Walk(a, b, 0, 0));
    }
  }

  // ---------- The order of the rows ----------

  function Rank(kind: Kind): nat {
    match kind
    case Same => 0
    case Add => 1
    case Remove => 2
  }

  /** Where two listings part, the first one keeps a line or adds one before the other removes one. */
  predicate ComesFirst(rows: seq<Row>, other: seq<Row>) {
    || rows == [] || other == []
    || Rank(rows[0].kind) < Rank(other[0].kind)
    || (rows[0].kind == other[0].kind && ComesFirst(rows[1..], other[1..]))
  }

  /** The rows that are left still keep as many lines as the table promises. */
  lemma RestStaysOptimal(rows: seq<Row>, a: seq<string>, b: seq<string>, i: nat, j: nat)
    requires i <= |a| && j <= |b| && rows != [] && Lists(rows, a, b, i, j) && |KeptText(rows)| == Lcs(a, b, i, j)
    ensures var p, q := if rows[0].kind == Add then i else i + 1, if rows[0].kind == Remove then j else j + 1;
            && p <= |a| && q <= |b| && Lists(rows[1..], a, b, p, q) && |KeptText(rows[1..])| == Lcs(a, b, p, q)
            && Lcs(a, b, i, j) == Lcs(a, b, p, q) + if rows[0].kind == Same then 1 else 0
  {
    var p, q := if rows[0].kind == Add then i else i + 1, if rows[0].kind == Remove then j else j + 1;
    ListingIsScript(rows[1..], a, b, p, q);
    NoScriptKeepsMore(rows[1..], a, b, p, q);
    LcsNeighbours(a, b, i, j);
  }

  lemma {:induction false} WalkComesFirst(other: seq<Row>, a: seq<string>, b: seq<string>, i: nat, j: nat)
    requires i <= |a| && j <= |b| && Lists(other, a, b, i, j) && |KeptText(other)| == Lcs(a, b, i, j)
    ensures ComesFirst(Walk(a, b, i, j), other)
    decreases |other|
  {
    if other != [] && (i < |a| || j < |b|) {
      var walk, kind := Walk(a, b, i, j), Choose(a, b, i, j);
      RestStaysOptimal(other, a, b, i, j);
      assert walk[0].kind == kind;
      if other[0].kind == kind {
        var p, q := if kind == Add then i else i + 1, if kind == Remove then j else j + 1;
        assert walk[1..] == Walk(a, b, p, q);
        WalkComesFirst(other[1..], a, b, p, q);
      } else {
        LcsNeighbours(a, b, i, j);
      }
    }
  }

  /** Of all listings that change as few rows, the walk is the one that keeps and adds before it removes. */
  lemma WalkAddsBeforeRemoving(other: seq<Row>, a: seq<string>, b: seq<string>)
    requires Lists(other, a, b, 0, 0) && Changed(other) == Changed(Walk(a, b, 0, 0))
    ensures ComesFirst(Walk(a, b, 0, 0), other)
  {
    WalkLists(a, b, 0, 0);
    ListingIsScript(Walk(a, b, 0, 0), a, b, 0, 0);
    ListingIsScript(other, a, b, 0, 0);
    ScriptLength(other);
    ScriptLength(Walk(a, b, 0, 0));
    WalkKeepsTable(a, b, 0, 0);
    WalkComesFirst(other, a, b, 0, 0);
  }

  // ---------- Longest common subsequence ----------

  ghost predicate IsSubsequence(c: seq<string>, s: seq<string>) {
    c == [] || (s != [] && ((c[0] == s[0] && IsSubsequence(c[1..], s[1..])) || IsSubsequence(c, s[1..])))
  }

  /** Every common subsequence is what some edit script keeps. */
  lemma {:induction false} SubsequenceHasScript(c: seq<string>, a: seq<string>, b: seq<string>) returns (rows: seq<Row>)
    requires IsSubsequence(c, a) && IsSubsequence(c, b)
    ensures IsScript(rows, a, b) && KeptText(rows) == c
    decreases |a| + |b|
  {
    if a != [] && (c == [] || !(c[0] == a[0] && IsSubsequence(c[1..], a[1..]))) {
      var rest := SubsequenceHasScript(c, a[1..], b);
      rows := [Row(Remove, 0, a[0])] + rest;
      assert rows[1..] == rest;
    } else if b != [] && (c == [] || !(c[0] == b[0] && IsSubsequence(c[1..], b[1..]))) {
      var rest := SubsequenceHasScript(c, a, b[1..]);
      rows := [Row(Add, 0, b[0])] + rest;
      assert rows[1..] == rest;
    } else if c != [] {
      var rest := SubsequenceHasScript(c[1..], a[1..], b[1..]);
      rows := [Row(Same, 0, c[0])] + rest;
      assert rows[1..] == rest;
    } else {
      rows := [];
    }
  }

  lemma SubsequenceCons(x: seq<string>, c: seq<string>, s: seq<string>)
    requires |x| == 1 && IsSubsequence(c, s)
    ensures IsSubsequence(x + c, x + s)
  {
    assert (x + c)[1..] == c && (x + s)[1..] == s;
  }

  lemma SubsequenceSkip(x: seq<string>, c: seq<string>, s: seq<string>)
    requires |x| == 1 && IsSubsequence(c, s)
    ensures IsSubsequence(c, x + s)
  {
    assert (x + s)[1..] == s;
  }

  /** What a script keeps is a common subsequence of the two files. */
  lemma {:induction false} KeptIsSubsequence(rows: seq<Row>)
    ensures IsSubsequence(KeptText(rows), OldText(rows))
    ensures IsSubsequence(KeptText(rows), NewText(rows))
  {
    if rows != [] {
      KeptIsSubsequence(rows[1..]);
      assert [rows[0]] + rows[1..] == rows;
      ConsRow(rows[0], rows[1..]);
      if rows[0].kind == Same {
        var text := [rows[0].text];
        SubsequenceCons(text, KeptText(rows[1..]), OldText(rows[1..]));
        SubsequenceCons(text, KeptText(rows[1..]), NewText(rows[1..]));
      } else if rows[0].kind == Add {
        SubsequenceSkip([rows[0].text], KeptText(rows), NewText(rows[1..]));
      } else {
        SubsequenceSkip([rows[0].text], KeptText(rows), OldText(rows[1..]));
      }
    }
  }

  /** The kept rows of the walk are a longest common subsequence of the two files. */
  lemma WalkKeepsLongestCommonSubsequence(a: seq<string>, b: seq<string>)
    ensures var kept := KeptText(Walk(a, b, 0, 0));
            && IsSubsequence(kept, a) && IsSubsequence(kept, b)
            && forall c :: IsSubsequence(c, a) && IsSubsequence(c, b) ==> |c| <= |kept|
  {
    WalkLists(a, b, 0, 0);
    ListingIsScript(Walk(a, b, 0, 0), a, b, 0, 0);
    WalkKeepsTable(a, b, 0, 0);
    assert a[0..] == a && b[0..] == b;
    KeptIsSubsequence(Walk(a, b, 0, 0));
    forall c | IsSubsequence(c, a) && IsSubsequence(c, b)
      ensures |c| <= |KeptText(Walk(a, b, 0, 0))|
    {
      var rows := SubsequenceHasScript(c, a, b);
      NoScriptKeepsMore(rows, a, b, 0, 0);
    }
  }

  // ---------- The algorithm ----------

  /** Row p of the table holds its final values from column q on. */
  ghost predicate RowFilled(matrix: array2<uint32>, a: seq<string>, b: seq<string>, p: nat, q: nat)
    requires matrix.Length0 == |a| + 1 && matrix.Length1 == |b| + 1 && p <= |a|
    reads matrix
  {
    forall k :: q <= k <= |b| ==> matrix[p, k] as int == Lcs(a, b, p, k)
  }

  method FillRow(matrix: array2<uint32>, a: seq<string>, b: seq<string>, i: nat)
    requires |a| <= CELL_LIMIT
    requires matrix.Length0 == |a| + 1 && matrix.Length1 == |b| + 1 && i < |a|
    requires RowFilled(matrix, a, b, i + 1, 0)
    requires matrix[i, |b|] == 0
    modifies matrix
    ensures RowFilled(matrix, a, b, i, 0)
    ensures forall p, q :: 0 <= p <= |a| && 0 <= q <= |b| && p != i ==> matrix[p, q] == old(matrix[p, q])
  {
    var j := |b| - 1;
    while j >= 0
      invariant -1 <= j < |b|
      invariant RowFilled(matrix, a, b, i, j + 1)
      invariant forall p, q :: 0 <= p <= |a| && 0 <= q <= |b| && p != i ==> matrix[p, q] == old(matrix[p, q])
    {
      assert matrix[i + 1, j] as int == Lcs(a, b, i + 1, j);
      assert matrix[i + 1, j + 1] as int == Lcs(a, b, i + 1, j + 1);
      if a[i] == b[j] {
        matrix[i, j] := matrix[i + 1, j + 1] + 1;
      } else {
        matrix[i, j] := if matrix[i + 1, j] >= matrix[i, j + 1] then matrix[i + 1, j] else matrix[i, j + 1];
      }
      j := j - 1;
    }
  }

  method FillMatrix(a: seq<string>, b: seq<string>) returns (matrix: array2<uint32>)
    requires |a| <= CELL_LIMIT
    ensures matrix.Length0 == |a| + 1 && matrix.Length1 == |b| + 1
    ensures forall p :: 0 <= p <= |a| ==> RowFilled(matrix, a, b, p, 0)
  {
    matrix := new uint32[|a| + 1, |b| + 1]((_, _) => 0);
    var i := |a| - 1;
    while i >= 0
      invariant -1 <= i < |a|
      invariant forall p :: i < p <= |a| ==> RowFilled(matrix, a, b, p, 0)
      invariant forall p :: 0 <= p <= i ==> matrix[p, |b|] == 0
    {
      label before:
      FillRow(matrix, a, b, i);
      forall p | i < p <= |a| ensures RowFilled(matrix, a, b, p, 0) {
        assert old@before(RowFilled(matrix, a, b, p, 0));
        assert forall k :: 0 <= k <= |b| ==> matrix[p, k] == old@before(matrix[p, k]);
      }
      i := i - 1;
    }
  }

  /** The table decides each step of the walk. */
  method Decide(a: seq<string>, b: seq<string>, matrix: array2<uint32>, i: nat, j: nat) returns (kind: Kind)
    requires matrix.Length0 == |a| + 1 && matrix.Length1 == |b| + 1
    requires forall p :: 0 <= p <= |a| ==> RowFilled(matrix, a, b, p, 0)
    requires i <= |a| && j <= |b| && (i < |a| || j < |b|)
    ensures kind == Choose(a, b, i, j)
  {
    assert RowFilled(matrix, a, b, i, 0) && (i < |a| ==> RowFilled(matrix, a, b, i + 1, 0));
    if i < |a| && j < |b| && a[i] == b[j] {
      kind := Same;
    } else if j < |b| && (i == |a| || matrix[i, j + 1] >= matrix[i + 1, j]) {
      kind := Add;
    } else {
      kind := Remove;
    }
  }

  method WalkMatrix(a: seq<string>, b: seq<string>, matrix: array2<uint32>) returns (rows: seq<Row>)
    requires matrix.Length0 == |a| + 1 && matrix.Length1 == |b| + 1
    requires forall p :: 0 <= p <= |a| ==> RowFilled(matrix, a, b, p, 0)
    ensures rows == Walk(a, b, 0, 0)
  {
    rows := [];
    ghost var walk := Walk(a, b, 0, 0);
    var i, j := 0, 0;
    while i < |a| || j < |b|
      invariant 0 <= i <= |a| && 0 <= j <= |b|
      invariant |rows| <= |walk| && rows == walk[..|rows|] && walk[|rows|..] == Walk(a, b, i, j)
      decreases |a| - i + |b| - j
    {
      var kind := Decide(a, b, matrix, i, j);
      ghost var rest := walk[|rows|..];
      assert rest[0] == RowAt(a, b, i, j, kind) && walk[|rows|] == rest[0];
      assert walk[|rows| + 1..] == rest[1..];
      rows := rows + [RowAt(a, b, i, j, kind)];
      if kind == Same {
        i, j := i + 1, j + 1;
      } else if kind == Add {
        j := j + 1;
      } else {
        i := i + 1;
      }
    }
  }

  method DiffLines(a: seq<string>, b: seq<string>) returns (rows: seq<Row>)
    requires |a| <= CELL_LIMIT
    ensures rows == Walk(a, b, 0, 0) && OptimalDiff(rows, a, b)
  {
    var matrix := FillMatrix(a, b);
    rows := WalkMatrix(a, b, matrix);
    WalkIsOptimal(a, b);
  }

  lemma CellsBoundRows(rows: nat, columns: nat)
    requires columns > 0 && rows * columns <= CELL_LIMIT
    ensures rows <= CELL_LIMIT
  {
    assert rows * columns == rows + rows * (columns - 1);
  }

  /** Two files are compared line by line unless the table would have more than 250000 cells. */
  method MakeDiff(before: string, after: string) returns (rows: seq<Row>)
    ensures var a, b := Split(before), Split(after);
            if |a| * |b| > 250000 then rows == [Row(Remove, 1, LARGE_REMOVED), Row(Add, 1, LARGE_ADDED)]
            else rows == Walk(a, b, 0, 0) && OptimalDiff(rows, a, b)
  {
    var a, b := Split(before), Split(after);
    if |a| * |b| > CELL_LIMIT {
      return [Row(Remove, 1, LARGE_REMOVED), Row(Add, 1, LARGE_ADDED)];
    }
    CellsBoundRows(|a|, |b|);
    rows := DiffLines(a, b);
  }
}
