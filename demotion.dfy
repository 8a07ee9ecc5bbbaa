/** One step of Recursive Constraint Demotion: compare the winner and loser
    profiles, rank the constraints that prefer the winners, delete the
    candidates they explain together with their columns, prune
    competitions that are left with a single row, and hand the reduced
    tableau to the next step. */
module Demotion {
  import opened Cells
  import opened Positions
  import opened Tableau

  /** The columns of the comparative tableau (loser profile minus winner
      profile) that are positive. */
  function Selected(w: seq<nat>, l: seq<nat>): (s: set<int>)
    requires |w| == |l|
    ensures forall j :: j in s ==> 0 <= j < |w|
  {
    set j | 0 <= j < |w| && l[j] > w[j]
  }

  /** The columns ranked by a step on g. */
  function Ranked(g: Grid): (d: set<int>)
    requires WellFormed(g)
    ensures forall j :: j in d ==> 0 <= j < |g.names|
  {
    Selected(WinnerProfile(g), LoserProfile(g))
  }

  /** A constraint is ranked exactly when some competing loser has more
      marks on it than every competing winner. */
  lemma RankedMeaning(g: Grid, j: int)
    requires WellFormed(g) && HasWinner(g)
    ensures j in Ranked(g) <==>
              0 <= j < |g.names| &&
              exists l :: l in LoserRows(g) &&
                forall w :: w in WinnerRows(g) ==> CountStars(w.cells[j]) < CountStars(l.cells[j])
  {
    CompetingWidth(g);
    WinnerRowsNonEmpty(g);
    if 0 <= j < |g.names| {
      var wmax := ColumnMax(WinnerRows(g), j);
      var lmax := ColumnMax(LoserRows(g), j);
      assert j in Ranked(g) <==> lmax > wmax;
      if lmax > wmax {
        assert LoserRows(g) != [];
        var l :| l in LoserRows(g) && CountStars(l.cells[j]) == lmax;
        assert forall w :: w in WinnerRows(g) ==> CountStars(w.cells[j]) < CountStars(l.cells[j]);
      }
      if l :| l in LoserRows(g) &&
              forall w :: w in WinnerRows(g) ==> CountStars(w.cells[j]) < CountStars(l.cells[j]) {
        if WinnerRows(g) != [] {
          var w :| w in WinnerRows(g) && CountStars(w.cells[j]) == wmax;
          assert CountStars(l.cells[j]) <= lmax;
        }
      }
    }
  }

  /** A row is explained by the ranked columns d when one of its cells in
      those columns ends with a mark. */
  predicate Explained(r: Row, d: set<int>) {
    exists j :: j in d && 0 <= j < |r.cells| && EndsWithStar(r.cells[j])
  }

  /** The rows that no ranked column explains, in their order. */
  function Survivors(rows: seq<Row>, d: set<int>): (s: seq<Row>)
    ensures forall r :: r in s <==> r in rows && !Explained(r, d)
  {
    if rows == [] then []
    else
      assert rows == [rows[0]] + rows[1..];
      (if Explained(rows[0], d) then [] else [rows[0]]) + Survivors(rows[1..], d)
  }

  /** Removing explained rows is done piecewise: the rows that stay keep
      their relative order. */
  lemma {:induction false} SurvivorsAppend(a: seq<Row>, b: seq<Row>, d: set<int>)
    ensures Survivors(a + b, d) == Survivors(a, d) + Survivors(b, d)
  {
    if a == [] {
      assert a + b == b;
    } else {
      assert (a + b)[0] == a[0];
      assert (a + b)[1..] == a[1..] + b;
      SurvivorsAppend(a[1..], b, d);
    }
  }

  /** Survivors on one row and the rest. */
  lemma SurvivorsCons(r: Row, rest: seq<Row>, d: set<int>)
    ensures Survivors([r] + rest, d) == (if Explained(r, d) then [] else [r]) + Survivors(rest, d)
  {
    assert ([r] + rest)[1..] == rest;
  }

  /** When no row is explained, every row stays. */
  lemma {:induction false} SurvivorsAll(rows: seq<Row>, d: set<int>)
    requires forall r :: r in rows ==> !Explained(r, d)
    ensures Survivors(rows, d) == rows
  {
    if rows != [] {
      assert rows == [rows[0]] + rows[1..];
      SurvivorsAll(rows[1..], d);
    }
  }

  /** The rows with the columns in d deleted. Deleting columns keeps every
      row and every name, so pruning may look at the names before or after
      the deletion alike. */
  function Trim(rows: seq<Row>, d: set<int>): (t: seq<Row>)
    ensures |t| == |rows|
    ensures Names(t) == Names(rows)
  {
    seq(|rows|, i requires 0 <= i < |rows| => rows[i].(cells := Keep(rows[i].cells, d)))
  }

  /** Column 0 of the rows. */
  function Names(rows: seq<Row>): (c: seq<string>)
    ensures |c| == |rows|
  {
    seq(|rows|, i requires 0 <= i < |rows| => rows[i].name)
  }

  /** Row i of the candidate rows c (header excluded) is a lone leftover:
      the row before it is an input row, and it is the last row or the row
      after it is an input row too. At i = 0 the row "before" is the last
      row, because a negative index counts from the end of the list. */
  predicate Squeezed(c: seq<string>, i: int) {
    0 <= i < |c| &&
    IsInput(c[if i == 0 then |c| - 1 else i - 1]) &&
    (i == |c| - 1 || IsInput(c[i + 1]))
  }

  /** The rows deleted by pruning, in candidate positions. For a lone
      leftover at candidate row i the loop records tableau rows i and i + 1;
      the tableau's row 0 is the header, so these are the leftover and the
      row before it, and for i = 0 the row before it is the header
      (position -1). */
  function Pruned(c: seq<string>): (p: set<int>)
    ensures forall k :: k in p ==> -1 <= k < |c|
  {
    set k | -1 <= k < |c| && PrunedAt(c, k)
  }

  /** Row k is a lone leftover or the row just before one. */
  predicate PrunedAt(c: seq<string>, k: int) {
    Squeezed(c, k) || Squeezed(c, k + 1)
  }

  /** Row k is pruned for one of the first i rows the loop has looked at. */
  predicate PrunedBefore(c: seq<string>, i: int, k: int) {
    (k < i && Squeezed(c, k)) || (k + 1 < i && Squeezed(c, k + 1))
  }

  /** The last row is an input row, and the first row is the only one or is
      followed by an input row. This is Squeezed(c, 0) written out: the
      same pruning rule, stated for the header in the terms of the rows
      around it. */
  predicate WrapsToHeader(c: seq<string>) {
    |c| > 0 && IsInput(c[|c| - 1]) && (|c| == 1 || IsInput(c[1]))
  }

  /** The header is pruned exactly when the rows wrap around to it. Close to
      the definitions; it restates the pruning rule for position -1 in the
      source's terms, so that StepCases can name the condition. */
  lemma PrunedHeader(c: seq<string>)
    ensures -1 in Pruned(c) <==> WrapsToHeader(c)
  {
    assert -1 in Pruned(c) <==> Squeezed(c, 0);
  }

  /** Pruning deletes only two kinds of row: a lone leftover, and the input
      row just before a lone leftover. Close to the definitions; it restates
      the pruning rule row by row, and adds that the row before a lone
      leftover is always an input row. */
  lemma PrunedKinds(c: seq<string>, k: int)
    requires k in Pruned(c) && 0 <= k
    ensures Squeezed(c, k) || (IsInput(c[k]) && Squeezed(c, k + 1))
  {
  }

  /** A candidate row next to another candidate row is never pruned: a
      competition that still has two candidates keeps both. */
  lemma CompetingNeighboursSurvive(c: seq<string>, k: int)
    requires 0 <= k < |c| && !IsInput(c[k])
    requires (k + 1 < |c| && !IsInput(c[k + 1])) || (k >= 1 && !IsInput(c[k - 1]))
    ensures k !in Pruned(c)
  {
    if k + 1 < |c| && !IsInput(c[k + 1]) {
      assert !Squeezed(c, k) && !Squeezed(c, k + 1);
    }
  }

  /** The pruning loop: walks the candidate rows once and collects, for
      every lone leftover, its position and the position before it. */
  method PruneIndices(c: seq<string>) returns (satisfied: seq<int>)
    ensures forall k :: k in satisfied <==> k in Pruned(c)
  {
    satisfied := [];
    var i := 0;
    while i < |c|
      invariant 0 <= i <= |c|
      invariant forall k :: k in satisfied <==> PrunedBefore(c, i, k)
    {
      ghost var was := satisfied;
      var before := if i == 0 then c[|c| - 1] else c[i - 1];
      if i == |c| - 1 {
        if IsInput(before) {
          satisfied := satisfied + [i - 1, i];
        }
      } else {
        if IsInput(before) && IsInput(c[i + 1]) {
          satisfied := satisfied + [i - 1, i];
        }
      }
      assert satisfied == if Squeezed(c, i) then was + [i - 1, i] else was;
      i := i + 1;
    }
    assert forall k :: PrunedBefore(c, |c|, k) <==> k in Pruned(c);
  }

  datatype Error =
    | NoWinner    // no competing row is a winner: the winner maximum is taken over nothing
    | Unrankable  // losers remain but no constraint prefers the winners

  datatype StepResult =
    | Next(stratum: seq<string>, next: Grid)   // a stratum, and the tableau to continue with
    | Final(stratum: seq<string>)              // no losers were left: the last stratum
    | HeaderDeleted(stratum: seq<string>)      // a stratum, after which the header row is deleted
    | Fail(error: Error)

  /** The tableau the next step works on: explained rows deleted, ranked
      columns deleted, lone leftovers pruned. */
  function Reduce(g: Grid, d: set<int>): (h: Grid)
    requires WellFormed(g)
  {
    var kept := Survivors(g.rows, d);
    Grid(g.corner, g.flag, Keep(g.names, d), Keep(Trim(kept, d), Pruned(Names(kept))))
  }

  /** The rows of h are rows of g that d does not explain, with the columns
      in d deleted; the header keeps its first two cells. */
  predicate RowsFrom(g: Grid, h: Grid, d: set<int>) {
    h.corner == g.corner && h.flag == g.flag && |h.rows| <= |g.rows| &&
    forall x :: x in h.rows ==>
      exists y :: y in g.rows && !Explained(y, d) && x == y.(cells := Keep(y.cells, d))
  }

  /** What Reduce keeps: the header minus the deleted columns, and rows of g
      that are not explained, with exactly those columns deleted. */
  lemma ReduceFacts(g: Grid, d: set<int>)
    requires WellFormed(g)
    ensures WellFormed(Reduce(g, d))
    ensures RowsFrom(g, Reduce(g, d), d)
  {
    var kept := Survivors(g.rows, d);
    var trimmed := Trim(kept, d);
    var h := Reduce(g, d);
    forall x | x in h.rows
      ensures |x.cells| == |h.names|
      ensures exists y :: y in g.rows && !Explained(y, d) && x == y.(cells := Keep(y.cells, d))
    {
      KeepMembers(trimmed, Pruned(Names(kept)), x);
      var j :| 0 <= j < |trimmed| && trimmed[j] == x;
      assert kept[j] in kept;
      KeepLength(kept[j].cells, g.names, d);
    }
    assert |Survivors(g.rows, d)| <= |g.rows| by {
      SurvivorsShorter(g.rows, d);
    }
  }

  lemma {:induction false} SurvivorsShorter(rows: seq<Row>, d: set<int>)
    ensures |Survivors(rows, d)| <= |rows|
  {
    if rows != [] {
      SurvivorsShorter(rows[1..], d);
    }
  }

  /** A non-empty ranked set yields a non-empty stratum and a narrower
      tableau. */
  lemma RankedShrinks(g: Grid)
    requires WellFormed(g) && Ranked(g) != {}
    ensures Pick(g.names, Ranked(g)) != []
    ensures |Keep(g.names, Ranked(g))| < |g.names|
  {
    var j :| j in Ranked(g);
    DeletionShrinks(g.names, Ranked(g), j);
  }

  /** One demotion step. A step that goes on ranks a non-empty stratum, in
      column order, and leaves a narrower tableau whose columns are the
      others, in their order; a final step ranks every column left. */
  function Step(g: Grid): (r: StepResult)
    requires WellFormed(g)
    ensures r.Final? ==> r.stratum == g.names
    ensures r.Next? || r.HeaderDeleted? ==>
              r.stratum == Pick(g.names, Ranked(g)) && r.stratum != []
    ensures r.Next? ==>
              r.next.names == Keep(g.names, Ranked(g)) && |r.next.names| < |g.names| && WellFormed(r.next)
  {
    WinnerRowsNonEmpty(g);
    if WinnerRows(g) == [] then Fail(NoWinner)
    else if LoserRows(g) == [] then Final(g.names)
    else
      var ranked := Ranked(g);
      if ranked == {} then Fail(Unrankable)
      else
        RankedShrinks(g);
        var stratum := Pick(g.names, ranked);
        if Explained(g.Header(), ranked) then HeaderDeleted(stratum)
        else
          var c := Names(Survivors(g.rows, ranked));
          PrunedHeader(c);
          if -1 in Pruned(c) then HeaderDeleted(stratum)
          else
            ReduceFacts(g, ranked);
            Next(stratum, Reduce(g, ranked))
  }

  /** How a step ends, by the rows and profiles of the tableau: the winner
      maximum fails with no competing winner; with no competing loser the
      step is final; with no ranked column it fails; the header is deleted
      when a ranked header cell ends with a mark or pruning wraps around to
      it; otherwise the step goes on with rows taken from g. */
  lemma StepCases(g: Grid)
    requires WellFormed(g)
    ensures Step(g) == Fail(NoWinner) <==> !HasWinner(g)
    ensures Step(g).Final? <==> HasWinner(g) && !HasLoser(g)
    ensures Step(g) == Fail(Unrankable) <==> HasWinner(g) && HasLoser(g) && Ranked(g) == {}
    ensures Step(g).HeaderDeleted? <==>
              HasWinner(g) && HasLoser(g) && Ranked(g) != {} &&
              (Explained(g.Header(), Ranked(g)) || WrapsToHeader(Names(Survivors(g.rows, Ranked(g)))))
    ensures Step(g).Next? ==> RowsFrom(g, Step(g).next, Ranked(g))
  {
    WinnerRowsNonEmpty(g);
    if WinnerRows(g) != [] && LoserRows(g) != [] && Ranked(g) != {} {
      var c := Names(Survivors(g.rows, Ranked(g)));
      PrunedHeader(c);
      if !Explained(g.Header(), Ranked(g)) && -1 !in Pruned(c) {
        ReduceFacts(g, Ranked(g));
        assert Step(g) == Next(Pick(g.names, Ranked(g)), Reduce(g, Ranked(g)));
      }
    }
  }
}
