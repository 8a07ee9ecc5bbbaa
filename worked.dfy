/** A worked tableau with two competitions, /a/ and /b/. In /a/ the winner
    violates C1 once and the loser violates C2 once; in /b/ winner and loser
    tie on C1 and only the loser violates C2. C2 prefers the winners and C1
    does not, so C2 is ranked first; the explained losers go, pruning then
    empties the tableau, and what happens next depends on the header row,
    which competes like any other row unless its first cell holds a slash. */
module Worked {
  import opened Cells
  import opened Positions
  import opened Tableau
  import opened Demotion
  import opened Driver

  function Rows(): seq<Row> {
    [ Row("/a/", "-", ["-", "-"]),
      Row("[a1]", "1", ["*", "-"]),
      Row("[a2]", "-", ["-", "*"]),
      Row("/b/", "-", ["-", "-"]),
      Row("[b1]", "1", ["*", "-"]),
      Row("[b2]", "-", ["*", "*"]) ]
  }

  /** The tableau with the given first two header cells. */
  function Example(corner: string, flag: string): (g: Grid)
    ensures WellFormed(g)
  {
    Grid(corner, flag, ["C1", "C2"], Rows())
  }

  /** A competition as it is laid out here: an input row, its winner, and
      one loser that C2 explains. */
  predicate Competition(a: Row, b: Row, c: Row) {
    IsInput(a.name) && !IsInput(b.name) && !IsInput(c.name) && IsWinner(b) && !IsWinner(c) &&
    !Explained(a, {1}) && !Explained(b, {1}) && Explained(c, {1})
  }

  lemma CompetitionCompetitors(a: Row, b: Row, c: Row)
    requires IsInput(a.name) && !IsInput(b.name) && !IsInput(c.name)
    ensures Competitors([a, b, c]) == [b, c]
  {
    CompetitorsCons(c, []);
    assert [c] + [] == [c];
    CompetitorsCons(b, [c]);
    CompetitorsCons(a, [b, c]);
    assert [a] + [b, c] == [a, b, c];
  }

  lemma CompetitionSurvivors(a: Row, b: Row, c: Row)
    requires !Explained(a, {1}) && !Explained(b, {1}) && Explained(c, {1})
    ensures Survivors([a, b, c], {1}) == [a, b]
  {
    SurvivorsCons(c, [], {1});
    assert [c] + [] == [c];
    SurvivorsCons(b, [c], {1});
    SurvivorsCons(a, [b, c], {1});
    assert [a] + [b, c] == [a, b, c];
  }

  lemma CompetitionSides(b: Row, c: Row)
    requires IsWinner(b) && !IsWinner(c)
    ensures Winners([b, c]) == [b]
    ensures Losers([b, c]) == [c]
  {
    WinnersCons(c, []);
    LosersCons(c, []);
    assert [c] + [] == [c];
    WinnersCons(b, [c]);
    LosersCons(b, [c]);
  }

  /** The two competitions of the example are laid out alike. */
  lemma RowsAreCompetitions()
    ensures Rows() == [Rows()[0], Rows()[1], Rows()[2]] + [Rows()[3], Rows()[4], Rows()[5]]
    ensures Competition(Rows()[0], Rows()[1], Rows()[2])
    ensures Competition(Rows()[3], Rows()[4], Rows()[5])
  {
    var rs := Rows();
    assert !IsInput("[a1]") && !IsInput("[a2]") && !IsInput("[b1]") && !IsInput("[b2]");
    assert IsInput("/a/") && IsInput("/b/");
    assert !EndsWithStar("-") && EndsWithStar("*");
    assert Explained(rs[2], {1}) by { assert EndsWithStar(rs[2].cells[1]); }
    assert Explained(rs[5], {1}) by { assert EndsWithStar(rs[5].cells[1]); }
  }

  /** Rows a1, a2, b1 and b2 compete; /a/ and /b/ are input rows. */
  lemma RowsCompete()
    ensures Competitors(Rows()) == [Rows()[1], Rows()[2], Rows()[4], Rows()[5]]
  {
    var rs := Rows();
    RowsAreCompetitions();
    CompetitionCompetitors(rs[0], rs[1], rs[2]);
    CompetitionCompetitors(rs[3], rs[4], rs[5]);
    CompetitorsAppend([rs[0], rs[1], rs[2]], [rs[3], rs[4], rs[5]]);
  }

  /** C2 explains the losers a2 and b2 and nothing else. */
  lemma RowsExplained()
    ensures Survivors(Rows(), {1}) == [Rows()[0], Rows()[1], Rows()[3], Rows()[4]]
  {
    var rs := Rows();
    RowsAreCompetitions();
    CompetitionSurvivors(rs[0], rs[1], rs[2]);
    CompetitionSurvivors(rs[3], rs[4], rs[5]);
    SurvivorsAppend([rs[0], rs[1], rs[2]], [rs[3], rs[4], rs[5]], {1});
  }

  /** Among the competing rows, a1 and b1 win and a2 and b2 lose. */
  lemma RowsSides()
    ensures Winners([Rows()[1], Rows()[2], Rows()[4], Rows()[5]]) == [Rows()[1], Rows()[4]]
    ensures Losers([Rows()[1], Rows()[2], Rows()[4], Rows()[5]]) == [Rows()[2], Rows()[5]]
  {
    var rs := Rows();
    assert IsWinner(rs[1]) && !IsWinner(rs[2]) && IsWinner(rs[4]) && !IsWinner(rs[5]);
    PairsWinners(rs[1], rs[2], rs[4], rs[5]);
    PairsLosers(rs[1], rs[2], rs[4], rs[5]);
  }

  lemma PairsWinners(a: Row, b: Row, c: Row, d: Row)
    requires IsWinner(a) && !IsWinner(b) && IsWinner(c) && !IsWinner(d)
    ensures Winners([a, b, c, d]) == [a, c]
  {
    CompetitionSides(a, b);
    CompetitionSides(c, d);
    assert [a, b, c, d] == [a, b] + [c, d];
    WinnersAppend([a, b], [c, d]);
  }

  lemma PairsLosers(a: Row, b: Row, c: Row, d: Row)
    requires IsWinner(a) && !IsWinner(b) && IsWinner(c) && !IsWinner(d)
    ensures Losers([a, b, c, d]) == [b, d]
  {
    CompetitionSides(a, b);
    CompetitionSides(c, d);
    assert [a, b, c, d] == [a, b] + [c, d];
    LosersAppend([a, b], [c, d]);
  }

  /** Each winner is then alone in its competition, so pruning deletes
      every row that is left, and not the header. */
  lemma RowsPruned()
    ensures Pruned(Names(Survivors(Rows(), {1}))) == {0, 1, 2, 3}
    ensures -1 !in Pruned(Names(Survivors(Rows(), {1})))
  {
    RowsExplained();
    KeptNames(Survivors(Rows(), {1}));
    LonePairs(Names(Survivors(Rows(), {1})));
  }

  /** Proof step: the names of the rows left after the first deletion. */
  lemma KeptNames(kept: seq<Row>)
    requires kept == [Rows()[0], Rows()[1], Rows()[3], Rows()[4]]
    ensures Names(kept) == ["/a/", "[a1]", "/b/", "[b1]"]
  {
  }

  lemma LonePairs(c: seq<string>)
    requires c == ["/a/", "[a1]", "/b/", "[b1]"]
    ensures Pruned(c) == {0, 1, 2, 3}
    ensures -1 !in Pruned(c)
  {
    assert IsInput("/a/") && IsInput("/b/") && !IsInput("[a1]") && !IsInput("[b1]");
    assert Squeezed(c, 1) && Squeezed(c, 3) && !Squeezed(c, 0) && !Squeezed(c, 2);
    assert PrunedAt(c, 0) && PrunedAt(c, 1) && PrunedAt(c, 2) && PrunedAt(c, 3) && !PrunedAt(c, -1);
  }

  /** The profile of rows a1 and b1, and of a2 and b2. */
  lemma Profiles()
    ensures Profile([Rows()[1], Rows()[4]], 2) == [1, 0]
    ensures Profile([Rows()[2], Rows()[5]], 2) == [1, 1]
  {
    assert CountStars("*") == 1 && CountStars("-") == 0;
  }

  /** The header competes when its corner has no slash; it has no marks,
      so it changes no maximum. */
  lemma HeaderCompetes(corner: string, flag: string)
    ensures Competitors(Example(corner, flag).AllRows()) ==
              (if IsInput(corner) then [] else [Example(corner, flag).Header()]) + Competitors(Rows())
    ensures CountStars("C1") == 0 && CountStars("C2") == 0
  {
    var g := Example(corner, flag);
    CompetitorsAppend([g.Header()], Rows());
    CompetitorsCons(g.Header(), []);
    assert [g.Header()] + [] == [g.Header()];
  }

  /** The competing winners and losers: a1 and b1, a2 and b2, and the
      header on the side its flag puts it when it competes. */
  lemma FirstSides(corner: string, flag: string)
    ensures WinnerRows(Example(corner, flag)) ==
              (if !IsInput(corner) && flag == "1" then [Example(corner, flag).Header()] else []) +
              [Rows()[1], Rows()[4]]
    ensures LoserRows(Example(corner, flag)) ==
              (if !IsInput(corner) && flag != "1" then [Example(corner, flag).Header()] else []) +
              [Rows()[2], Rows()[5]]
  {
    var h := Example(corner, flag).Header();
    var rs := Rows();
    HeaderCompetes(corner, flag);
    RowsCompete();
    RowsSides();
    var front := if IsInput(corner) then [] else [h];
    WinnersAppend(front, [rs[1], rs[2], rs[4], rs[5]]);
    LosersAppend(front, [rs[1], rs[2], rs[4], rs[5]]);
    WinnersCons(h, []);
    LosersCons(h, []);
    assert [h] + [] == [h];
    assert Winners([]) == [] && Losers([]) == [];
  }

  /** Whatever the header, the winners' profile is (1, 0) and the losers'
      profile is (1, 1), so exactly C2 is ranked. */
  lemma FirstProfiles(corner: string, flag: string)
    ensures WinnerProfile(Example(corner, flag)) == [1, 0]
    ensures LoserProfile(Example(corner, flag)) == [1, 1]
    ensures Ranked(Example(corner, flag)) == {1}
  {
    var g := Example(corner, flag);
    WinnerProfileIs(g);
    LoserProfileIs(g);
    assert Selected([1, 0], [1, 1]) == {1};
  }

  lemma WinnerProfileIs(g: Grid)
    requires g == Example(g.corner, g.flag)
    ensures WinnerProfile(g) == [1, 0]
  {
    var rs := Rows();
    FirstSides(g.corner, g.flag);
    HeaderCompetes(g.corner, g.flag);
    Profiles();
    var w := WinnerRows(g);
    if !IsInput(g.corner) && g.flag == "1" {
      HeaderZero(g.Header(), [rs[1], rs[4]]);
    } else {
      assert w == [rs[1], rs[4]];
    }
    assert WinnerProfile(g) == Profile(w, 2);
  }

  lemma LoserProfileIs(g: Grid)
    requires g == Example(g.corner, g.flag)
    ensures LoserProfile(g) == [1, 1]
  {
    var rs := Rows();
    FirstSides(g.corner, g.flag);
    HeaderCompetes(g.corner, g.flag);
    Profiles();
    var l := LoserRows(g);
    if !IsInput(g.corner) && g.flag != "1" {
      HeaderZero(g.Header(), [rs[2], rs[5]]);
    } else {
      assert l == [rs[2], rs[5]];
    }
    assert LoserProfile(g) == Profile(l, 2);
  }

  /** A row without marks added to rows with a mark in column 0 changes no
      maximum. */
  lemma HeaderZero(h: Row, rows: seq<Row>)
    requires |h.cells| == 2 && CountStars(h.cells[0]) == 0 && CountStars(h.cells[1]) == 0
    requires forall r :: r in rows ==> |r.cells| == 2
    ensures Profile([h] + rows, 2) == Profile(rows, 2)
  {
    assert ([h] + rows)[1..] == rows;
  }

  /** The first step ranks C2, deletes a2 and b2 and column C2, and pruning
      then deletes every row; the header is deleted in neither way. */
  lemma FirstReduce(corner: string, flag: string)
    ensures Pick(Example(corner, flag).names, {1}) == ["C2"]
    ensures !Explained(Example(corner, flag).Header(), {1})
    ensures -1 !in Pruned(Names(Survivors(Example(corner, flag).rows, {1})))
    ensures Reduce(Example(corner, flag), {1}) == Grid(corner, flag, ["C1"], [])
  {
    var g := Example(corner, flag);
    assert g.rows == Rows();
    RowsPruned();
    SplitNames(g.names);
    HeaderStays(g.Header());
    EmptiedRows();
  }

  /** Proof step: the header cell under C2 does not end with a mark. */
  lemma HeaderStays(h: Row)
    requires h.cells == ["C1", "C2"]
    ensures !Explained(h, {1})
  {
    assert !EndsWithStar("C2");
  }

  /** Proof step: ranking C2 splits the header names into C2 and C1. */
  lemma SplitNames(names: seq<string>)
    requires names == ["C1", "C2"]
    ensures Pick(names, {1}) == ["C2"] && Keep(names, {1}) == ["C1"]
  {
    assert names[..1] == ["C1"];
  }

  lemma EmptiedRows()
    ensures Keep(Trim(Survivors(Rows(), {1}), {1}), Pruned(Names(Survivors(Rows(), {1})))) == []
  {
    RowsPruned();
    RowsExplained();
    FourGone(Survivors(Rows(), {1}), Pruned(Names(Survivors(Rows(), {1}))));
  }

  /** Proof step: pruning all four remaining rows leaves none. */
  lemma FourGone(kept: seq<Row>, p: set<int>)
    requires |kept| == 4 && p == {0, 1, 2, 3}
    ensures Keep(Trim(kept, {1}), p) == []
  {
    KeepNone(Trim(kept, {1}), p);
  }

  lemma FirstStep(corner: string, flag: string)
    ensures Run(Example(corner, flag)) ==
              Outcome([["C2"]] + Run(Grid(corner, flag, ["C1"], [])).strata,
                      Run(Grid(corner, flag, ["C1"], [])).status)
  {
    var g := Example(corner, flag);
    FirstProfiles(corner, flag);
    FirstSides(corner, flag);
    FirstReduce(corner, flag);
    assert WinnerRows(g) != [] && LoserRows(g) != [];
    RunUnfolds(g);
  }

  /** On what is left, only the header can compete: the run completes when
      it competes as a winner, and otherwise finds no winner. */
  lemma LastStep(corner: string, flag: string)
    ensures Run(Grid(corner, flag, ["C1"], [])) ==
              if !IsInput(corner) && flag == "1" then Outcome([["C1"]], Complete)
              else Outcome([], Failed(NoWinner))
  {
    var h := Grid(corner, flag, ["C1"], []);
    var r := h.Header();
    assert h.AllRows() == [r] + [];
    CompetitorsCons(r, []);
    WinnersCons(r, []);
    LosersCons(r, []);
    assert [r] + [] == [r];
    assert Competitors([]) == [] && Winners([]) == [] && Losers([]) == [];
    RunUnfolds(h);
  }

  /** The two steps together: the header row decides how the run ends. */
  lemma HeaderDecides(corner: string, flag: string)
    ensures Run(Example(corner, flag)) ==
              if !IsInput(corner) && flag == "1" then Outcome([["C2"], ["C1"]], Complete)
              else Outcome([["C2"]], Failed(NoWinner))
  {
    FirstStep(corner, flag);
    LastStep(corner, flag);
    var rest := Run(Grid(corner, flag, ["C1"], []));
    StrataJoin(["C2"], rest.strata);
  }

  /** Proof step: the first stratum in front of the strata of the last step. */
  lemma StrataJoin(s: seq<string>, rest: seq<seq<string>>)
    ensures rest == [["C1"]] ==> [s] + rest == [s, ["C1"]]
    ensures rest == [] ==> [s] + rest == [s]
  {
  }

  /** A tableau whose one constraint is named "*Coda", with one competition
      holding a single winner a1. */
  function Phantom(): (g: Grid)
    ensures WellFormed(g)
  {
    Grid("input", "winner", ["*Coda"], [Row("/a/", "-", ["-"]), Row("a1", "1", ["-"])])
  }

  /** The header of Phantom() competes, the input row does not. */
  lemma PhantomCompetitors()
    ensures Competitors(Phantom().AllRows()) == [Phantom().Header(), Row("a1", "1", ["-"])]
  {
    var h := Phantom().Header();
    var r0 := Row("/a/", "-", ["-"]);
    var r1 := Row("a1", "1", ["-"]);
    assert Phantom().AllRows() == [h] + ([r0] + ([r1] + []));
    assert IsInput("/a/") && !IsInput("a1") && !IsInput("input");
    CompetitorsCons(r1, []);
    CompetitorsCons(r0, [r1] + []);
    CompetitorsCons(h, [r0] + ([r1] + []));
    assert Competitors([]) == [];
  }

  /** The competing header of Phantom() is its only loser, and the mark in
      the constraint's name counts as its violation. */
  lemma PhantomSides()
    ensures WinnerRows(Phantom()) == [Row("a1", "1", ["-"])]
    ensures LoserRows(Phantom()) == [Phantom().Header()]
    ensures CountStars(Phantom().Header().cells[0]) == 1
  {
    var h := Phantom().Header();
    var r1 := Row("a1", "1", ["-"]);
    PhantomCompetitors();
    PhantomFilters(h, r1);
    PhantomName();
  }

  /** Proof step: the header loses and a1 wins. */
  lemma PhantomFilters(h: Row, r1: Row)
    requires !IsWinner(h) && IsWinner(r1)
    ensures Winners([h, r1]) == [r1] && Losers([h, r1]) == [h]
  {
    assert [h, r1] == [h] + ([r1] + []);
    WinnersCons(r1, []);
    LosersCons(r1, []);
    WinnersCons(h, [r1] + []);
    LosersCons(h, [r1] + []);
    assert Winners([]) == [] && Losers([]) == [];
  }

  /** Proof step: the name "*Coda" holds one mark. */
  lemma PhantomName()
    ensures CountStars("*Coda") == 1
  {
    assert "*Coda"[1..] == "Coda";
    assert "Coda"[1..] == "oda";
    assert "oda"[1..] == "da";
    assert "da"[1..] == "a";
    assert "a"[1..] == "";
  }

  /** The header's own name ranks the constraint: the winner has no mark on
      it and the header, as a loser, has one. */
  lemma PhantomRanked()
    ensures Ranked(Phantom()) == {0}
  {
    PhantomProfiles();
    assert Selected([0], [1]) == {0};
  }

  /** The winner profile of Phantom() is (0) and the loser profile is (1). */
  lemma PhantomProfiles()
    ensures WinnerProfile(Phantom()) == [0]
    ensures LoserProfile(Phantom()) == [1]
  {
    var g := Phantom();
    PhantomSides();
    OneRowProfile(Row("a1", "1", ["-"]));
    OneRowProfile(g.Header());
    assert CountStars("-") == 0;
  }

  /** The profile of a single one-column row is its own count. */
  lemma OneRowProfile(r: Row)
    requires |r.cells| == 1
    ensures Profile([r], 1) == [CountStars(r.cells[0])]
  {
    assert r in [r];
  }

  /** Pruning removes a1 and its input row. */
  lemma PhantomPruned()
    ensures Pruned(Names(Phantom().rows)) == {0, 1}
    ensures Keep(Trim(Phantom().rows, {0}), {0, 1}) == []
  {
    var c := Names(Phantom().rows);
    assert c == ["/a/", "a1"];
    assert IsInput("/a/") && !IsInput("a1");
    assert Squeezed(c, 1) && !Squeezed(c, 0);
    assert PrunedAt(c, 0) && PrunedAt(c, 1) && !PrunedAt(c, -1);
    KeepNone(Trim(Phantom().rows, {0}), {0, 1});
  }

  /** The step on Phantom() explains no row and leaves the header alone,
      with no column and no row left beside it. */
  lemma PhantomReduce()
    ensures Pick(Phantom().names, {0}) == ["*Coda"]
    ensures !Explained(Phantom().Header(), {0})
    ensures -1 !in Pruned(Names(Survivors(Phantom().rows, {0})))
    ensures Reduce(Phantom(), {0}) == Grid("input", "winner", [], [])
  {
    var g := Phantom();
    assert !EndsWithStar("*Coda");
    assert !EndsWithStar("-");
    SurvivorsAll(g.rows, {0});
    PhantomPruned();
    KeepNone(g.names, {0});
    assert g.names == [] + ["*Coda"];
  }

  /** The run on Phantom(): "*Coda" is ranked on the strength of a mark in
      its own name, pruning removes a1 and its input row, and the header,
      left as the only loser, finds no winner. */
  lemma PhantomMark()
    ensures Run(Phantom()) == Outcome([["*Coda"]], Failed(NoWinner))
  {
    var g := Phantom();
    PhantomRanked();
    PhantomSides();
    PhantomReduce();
    assert WinnerRows(g) != [] && LoserRows(g) != [];
    RunUnfolds(g);
    LastEmpty();
  }

  /** With no rows and no constraints left, the header flagged other than
      "1" is a loser and nothing is a winner. */
  lemma LastEmpty()
    ensures Run(Grid("input", "winner", [], [])) == Outcome([], Failed(NoWinner))
  {
    var h := Grid("input", "winner", [], []);
    var r := h.Header();
    assert h.AllRows() == [r] + [];
    CompetitorsCons(r, []);
    WinnersCons(r, []);
    assert [r] + [] == [r];
    assert Competitors([]) == [] && Winners([]) == [];
    RunUnfolds(h);
  }
}
