/** The tableau: a header row naming the constraints, then one row per input
    form or candidate, each with a name, a winner flag and one violation cell
    per constraint. This module also holds the winner and loser violation
    profiles that one demotion step compares. */
module Tableau {
  import opened Cells
  import opened Positions

  /** One line of the tableau: column 0, column 1, and the constraint cells. */
  datatype Row = Row(name: string, flag: string, cells: seq<string>)

  /** Column 1 holds "1" for a winner. */
  predicate IsWinner(r: Row) {
    r.flag == "1"
  }

  /** The tableau. The header row is kept in its own fields: its first two
      cells (corner, flag) and the constraint names (its remaining cells). */
  datatype Grid = Grid(corner: string, flag: string, names: seq<string>, rows: seq<Row>) {
    /** The header as the row it is in the file. */
    function Header(): Row {
      Row(corner, flag, names)
    }

    /** Every row of the tableau, the header first. */
    function AllRows(): seq<Row> {
      [Header()] + rows
    }
  }

  /** Every row has one cell per constraint (the tableau is rectangular). */
  predicate WellFormed(g: Grid) {
    forall r :: r in g.rows ==> |r.cells| == |g.names|
  }

  /** The fields of one line of the input file, empty ones replaced. */
  function NormalizeFields(fields: seq<string>): (r: seq<string>)
    ensures |r| == |fields|
    ensures forall j :: 0 <= j < |r| ==> r[j] != [] && CountStars(r[j]) == CountStars(fields[j])
    ensures forall j :: 0 <= j < |r| ==> fields[j] != [] ==> r[j] == fields[j]
  {
    seq(|fields|, j requires 0 <= j < |fields| => Normalize(fields[j]))
  }

  /** One line of the file as a row, empty fields replaced: column 0 is the
      name, column 1 the flag, the rest are the cells. Replacing an empty
      field changes neither the slash test, nor the winner test, nor any
      count of marks. */
  function LoadRow(fields: seq<string>): (r: Row)
    requires |fields| >= 2
    ensures |r.cells| == |fields| - 2
    ensures forall j :: 0 <= j < |r.cells| ==>
              r.cells[j] != [] && CountStars(r.cells[j]) == CountStars(fields[j + 2])
    ensures IsInput(r.name) <==> IsInput(fields[0])
    ensures IsWinner(r) <==> fields[1] == "1"
  {
    var n := NormalizeFields(fields);
    Row(n[0], n[1], n[2..])
  }

  /** Builds the tableau from the fields of the file's lines: line 0 is the
      header, whose cells from column 2 on are the constraint names. */
  function FromTable(table: seq<seq<string>>): (g: Grid)
    requires |table| >= 1 && |table[0]| >= 2
    requires forall i :: 0 <= i < |table| ==> |table[i]| == |table[0]|
    ensures WellFormed(g)
    ensures |g.names| == |table[0]| - 2 && |g.rows| == |table| - 1
    ensures g.Header() == LoadRow(table[0])
    ensures forall i :: 0 <= i < |g.rows| ==> g.rows[i] == LoadRow(table[i + 1])
  {
    var head := LoadRow(table[0]);
    var rows := seq(|table| - 1, i requires 0 <= i < |table| - 1 => LoadRow(table[i + 1]));
    Grid(head.name, head.flag, head.cells, rows)
  }

  /** The rows that take part in the competition: every row, the header
      included, whose name holds no slash. */
  function Competitors(rows: seq<Row>): (df: seq<Row>)
    ensures forall r :: r in df <==> r in rows && !IsInput(r.name)
  {
    if rows == [] then []
    else
      assert rows == [rows[0]] + rows[1..];
      (if IsInput(rows[0].name) then [] else [rows[0]]) + Competitors(rows[1..])
  }

  /** The rows flagged as winners. */
  function Winners(rows: seq<Row>): (w: seq<Row>)
    ensures forall r :: r in w <==> r in rows && IsWinner(r)
  {
    if rows == [] then []
    else
      assert rows == [rows[0]] + rows[1..];
      (if IsWinner(rows[0]) then [rows[0]] else []) + Winners(rows[1..])
  }

  /** The rows not flagged as winners. */
  function Losers(rows: seq<Row>): (l: seq<Row>)
    ensures forall r :: r in l <==> r in rows && !IsWinner(r)
  {
    if rows == [] then []
    else
      assert rows == [rows[0]] + rows[1..];
      (if IsWinner(rows[0]) then [] else [rows[0]]) + Losers(rows[1..])
  }

  /** Dropping input rows is done piecewise, so it keeps the order of rows. */
  lemma {:induction false} CompetitorsAppend(a: seq<Row>, b: seq<Row>)
    ensures Competitors(a + b) == Competitors(a) + Competitors(b)
  {
    if a == [] {
      assert a + b == b;
    } else {
      assert (a + b)[0] == a[0];
      assert (a + b)[1..] == a[1..] + b;
      CompetitorsAppend(a[1..], b);
    }
  }

  /** Each filter on one row and the rest: the row is kept or dropped as
      its own test says. */
  lemma CompetitorsCons(r: Row, rest: seq<Row>)
    ensures Competitors([r] + rest) == (if IsInput(r.name) then [] else [r]) + Competitors(rest)
  {
    assert ([r] + rest)[1..] == rest;
  }

  lemma WinnersCons(r: Row, rest: seq<Row>)
    ensures Winners([r] + rest) == (if IsWinner(r) then [r] else []) + Winners(rest)
  {
    assert ([r] + rest)[1..] == rest;
  }

  lemma LosersCons(r: Row, rest: seq<Row>)
    ensures Losers([r] + rest) == (if IsWinner(r) then [] else [r]) + Losers(rest)
  {
    assert ([r] + rest)[1..] == rest;
  }

  /** Splitting by the flag is done piecewise as well. */
  lemma {:induction false} WinnersAppend(a: seq<Row>, b: seq<Row>)
    ensures Winners(a + b) == Winners(a) + Winners(b)
  {
    if a == [] {
      assert a + b == b;
    } else {
      assert (a + b)[0] == a[0];
      assert (a + b)[1..] == a[1..] + b;
      WinnersAppend(a[1..], b);
    }
  }

  lemma {:induction false} LosersAppend(a: seq<Row>, b: seq<Row>)
    ensures Losers(a + b) == Losers(a) + Losers(b)
  {
    if a == [] {
      assert a + b == b;
    } else {
      assert (a + b)[0] == a[0];
      assert (a + b)[1..] == a[1..] + b;
      LosersAppend(a[1..], b);
    }
  }

  /** The competing winners and losers of a tableau. */
  function WinnerRows(g: Grid): seq<Row> {
    Winners(Competitors(g.AllRows()))
  }

  function LoserRows(g: Grid): seq<Row> {
    Losers(Competitors(g.AllRows()))
  }

  /** Some row without a slash is flagged as a winner. */
  predicate HasWinner(g: Grid) {
    exists r :: r in g.AllRows() && !IsInput(r.name) && IsWinner(r)
  }

  /** Some row without a slash is not flagged as a winner. */
  predicate HasLoser(g: Grid) {
    exists r :: r in g.AllRows() && !IsInput(r.name) && !IsWinner(r)
  }

  lemma WinnerRowsNonEmpty(g: Grid)
    ensures WinnerRows(g) != [] <==> HasWinner(g)
    ensures LoserRows(g) != [] <==> HasLoser(g)
  {
    var df := Competitors(g.AllRows());
    if HasWinner(g) {
      var r :| r in g.AllRows() && !IsInput(r.name) && IsWinner(r);
      assert r in WinnerRows(g);
    }
    if WinnerRows(g) != [] {
      assert WinnerRows(g)[0] in WinnerRows(g);
    }
    if HasLoser(g) {
      var r :| r in g.AllRows() && !IsInput(r.name) && !IsWinner(r);
      assert r in LoserRows(g);
    }
    if LoserRows(g) != [] {
      assert LoserRows(g)[0] in LoserRows(g);
    }
  }

  /** The largest number of marks any of the rows has in column j. */
  function ColumnMax(rows: seq<Row>, j: nat): (m: nat)
    requires forall r :: r in rows ==> j < |r.cells|
    ensures forall r :: r in rows ==> CountStars(r.cells[j]) <= m
    ensures rows != [] ==> exists r :: r in rows && CountStars(r.cells[j]) == m
    ensures rows == [] ==> m == 0
  {
    if rows == [] then 0
    else
      assert rows == [rows[0]] + rows[1..];
      var here := CountStars(rows[0].cells[j]);
      var rest := ColumnMax(rows[1..], j);
      if here >= rest then here else rest
  }

  /** The column-wise maximum of the rows' violation counts: in every
      column, no row has more marks than the profile, and some row has as
      many, unless there are no rows and the profile is all zero. */
  function Profile(rows: seq<Row>, n: nat): (p: seq<nat>)
    requires forall r :: r in rows ==> |r.cells| == n
    ensures |p| == n
    ensures forall j, r :: 0 <= j < n && r in rows ==> CountStars(r.cells[j]) <= p[j]
    ensures forall j :: 0 <= j < n ==>
              if rows == [] then p[j] == 0
              else exists r :: r in rows && CountStars(r.cells[j]) == p[j]
  {
    seq(n, j requires 0 <= j < n => ColumnMax(rows, j))
  }

  /** Competing rows come from the tableau, so they are as wide as it is. */
  lemma CompetingWidth(g: Grid)
    requires WellFormed(g)
    ensures forall r :: r in WinnerRows(g) ==> |r.cells| == |g.names|
    ensures forall r :: r in LoserRows(g) ==> |r.cells| == |g.names|
  {
  }

  /** The winner profile: for each constraint, the most marks any competing
      winner has. */
  function WinnerProfile(g: Grid): (p: seq<nat>)
    requires WellFormed(g)
    ensures |p| == |g.names|
    ensures forall j, r :: 0 <= j < |p| && r in WinnerRows(g) && j < |r.cells| ==>
              CountStars(r.cells[j]) <= p[j]
    ensures HasWinner(g) ==> forall j :: 0 <= j < |p| ==>
              exists r :: r in WinnerRows(g) && j < |r.cells| && CountStars(r.cells[j]) == p[j]
  {
    CompetingWidth(g);
    WinnerRowsNonEmpty(g);
    Profile(WinnerRows(g), |g.names|)
  }

  /** The loser profile: for each constraint, the most marks any competing
      loser has. */
  function LoserProfile(g: Grid): (p: seq<nat>)
    requires WellFormed(g)
    ensures |p| == |g.names|
    ensures forall j, r :: 0 <= j < |p| && r in LoserRows(g) && j < |r.cells| ==>
              CountStars(r.cells[j]) <= p[j]
    ensures HasLoser(g) ==> forall j :: 0 <= j < |p| ==>
              exists r :: r in LoserRows(g) && j < |r.cells| && CountStars(r.cells[j]) == p[j]
  {
    CompetingWidth(g);
    WinnerRowsNonEmpty(g);
    Profile(LoserRows(g), |g.names|)
  }

  /** An input row placed anywhere among the rows leaves the competitors as
      they were. */
  lemma {:induction false} InputRowNotCompeting(front: seq<Row>, x: Row, after: seq<Row>)
    requires IsInput(x.name)
    ensures Competitors(front + ([x] + after)) == Competitors(front + after)
  {
    assert Competitors([x]) == [] by {
      assert [x][1..] == [];
    }
    calc {
      Competitors(front + ([x] + after));
      { CompetitorsAppend(front, [x] + after); }
      Competitors(front) + Competitors([x] + after);
      { CompetitorsAppend([x], after); }
      Competitors(front) + ([] + Competitors(after));
      { assert [] + Competitors(after) == Competitors(after); }
      Competitors(front) + Competitors(after);
      { CompetitorsAppend(front, after); }
      Competitors(front + after);
    }
  }

  /** An input row placed anywhere among the rows changes neither profile. */
  lemma InputRowInvisible(g: Grid, before: seq<Row>, x: Row, after: seq<Row>)
    requires WellFormed(g) && g.rows == before + after
    requires IsInput(x.name) && |x.cells| == |g.names|
    ensures WellFormed(g.(rows := before + [x] + after))
    ensures WinnerProfile(g.(rows := before + [x] + after)) == WinnerProfile(g)
    ensures LoserProfile(g.(rows := before + [x] + after)) == LoserProfile(g)
  {
    var g' := g.(rows := before + [x] + after);
    var front := [g.Header()] + before;
    assert g'.AllRows() == front + ([x] + after);
    assert g.AllRows() == front + after;
    InputRowNotCompeting(front, x, after);
    assert WinnerRows(g') == WinnerRows(g);
    assert LoserRows(g') == LoserRows(g);
  }
}
