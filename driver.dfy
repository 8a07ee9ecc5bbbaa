/** The driver: steps are repeated on the shrinking tableau, and every
    stratum a step ranks is appended to the running order. */
module Driver {
  import opened Cells
  import opened Positions
  import opened Tableau
  import opened Demotion

  datatype Status =
    | Complete          // a step found no losers and ranked everything left
    | HeaderGone        // a step deleted the header row
    | Failed(error: Error)

  /** The strata ranked by a whole run, and how the run ended. */
  datatype Outcome = Outcome(strata: seq<seq<string>>, status: Status)

  /** All names of all strata, in order. */
  function Flatten(ss: seq<seq<string>>): seq<string> {
    if ss == [] then [] else ss[0] + Flatten(ss[1..])
  }

  /** Every stratum is non-empty, except the final one of a completed run. */
  predicate NonEmptyStrata(o: Outcome) {
    forall i :: 0 <= i < |o.strata| && (i < |o.strata| - 1 || o.status != Complete) ==>
      o.strata[i] != []
  }

  lemma NonEmptyCons(s: seq<string>, rest: Outcome)
    requires s != [] && NonEmptyStrata(rest)
    ensures NonEmptyStrata(Outcome([s] + rest.strata, rest.status))
  {
    var ss := [s] + rest.strata;
    assert forall i :: 0 < i < |ss| ==> ss[i] == rest.strata[i - 1];
  }

  /** A whole run on g: a step, then a run on the tableau it leaves. The
      strata hold each column of g at most once, all of them when the run
      completes, and every stratum is non-empty but a final one. */
  function Run(g: Grid): (o: Outcome)
    requires WellFormed(g)
    ensures multiset(Flatten(o.strata)) <= multiset(g.names)
    ensures o.status == Complete ==> multiset(Flatten(o.strata)) == multiset(g.names)
    ensures |o.strata| <= |g.names| + 1
    ensures NonEmptyStrata(o)
    decreases |g.names|
  {
    match Step(g)
    case Fail(e) => Outcome([], Failed(e))
    case Final(s) =>
      FlattenCons(s, []);
      Outcome([s], Complete)
    case HeaderDeleted(s) =>
      StrataBound(g.names, Ranked(g), []);
      FlattenCons(s, []);
      Outcome([s], HeaderGone)
    case Next(s, h) =>
      var rest := Run(h);
      StrataBound(g.names, Ranked(g), rest.strata);
      NonEmptyCons(s, rest);
      Outcome([s] + rest.strata, rest.status)
  }

  lemma FlattenCons(s: seq<string>, ss: seq<seq<string>>)
    ensures Flatten([s] + ss) == s + Flatten(ss)
    ensures multiset(Flatten([s] + ss)) == multiset(s) + multiset(Flatten(ss))
    ensures forall i :: 0 < i <= |ss| ==> ([s] + ss)[i] == ss[i - 1]
  {
    assert ([s] + ss)[1..] == ss;
  }

  /** Ranking the columns d first, and then part of the rest, ranks part of
      the columns; ranking all of the rest ranks all of them. */
  lemma StrataBound(names: seq<string>, d: set<int>, rest: seq<seq<string>>)
    ensures multiset(Flatten(rest)) <= multiset(Keep(names, d)) ==>
              multiset(Flatten([Pick(names, d)] + rest)) <= multiset(names)
    ensures multiset(Flatten(rest)) == multiset(Keep(names, d)) ==>
              multiset(Flatten([Pick(names, d)] + rest)) == multiset(names)
    ensures rest == [] ==> multiset(Flatten([Pick(names, d)] + rest)) <= multiset(names)
  {
    Partition(names, d);
    FlattenCons(Pick(names, d), rest);
    assert Flatten([]) == [];
    var a, b, c := multiset(Pick(names, d)), multiset(Flatten(rest)), multiset(Keep(names, d));
    if b <= c {
      forall x ensures (a + b)[x] <= (a + c)[x] {
        assert b[x] <= c[x];
      }
    }
  }

  /** A name in one stratum is in the flattened strata. */
  lemma {:induction false} FlattenMember(ss: seq<seq<string>>, i: int, x: string)
    requires 0 <= i < |ss| && x in ss[i]
    ensures x in Flatten(ss)
  {
    if i > 0 {
      FlattenMember(ss[1..], i - 1, x);
    }
  }

  /** A name in the flattened strata is in one of the strata. */
  lemma {:induction false} FlattenFind(ss: seq<seq<string>>, x: string) returns (i: int)
    requires x in Flatten(ss)
    ensures 0 <= i < |ss| && x in ss[i]
  {
    if x in ss[0] {
      i := 0;
    } else {
      var k := FlattenFind(ss[1..], x);
      i := k + 1;
    }
  }

  /** Every ranked name is a constraint of the tableau the run started on. */
  lemma StrataFromHeader(g: Grid, i: int, x: string)
    requires WellFormed(g)
    requires 0 <= i < |Run(g).strata| && x in Run(g).strata[i]
    ensures x in g.names
  {
    FlattenMember(Run(g).strata, i, x);
    assert x in multiset(Flatten(Run(g).strata));
  }

  /** A run that completes ranks every constraint of the tableau. */
  lemma CompleteRanksAll(g: Grid, x: string) returns (i: int)
    requires WellFormed(g) && Run(g).status == Complete && x in g.names
    ensures 0 <= i < |Run(g).strata| && x in Run(g).strata[i]
  {
    assert x in multiset(g.names);
    assert x in multiset(Flatten(Run(g).strata));
    i := FlattenFind(Run(g).strata, x);
  }

  /** A name found both in a and in part of b, where a and b split names,
      occurs twice in names. */
  lemma TwiceNotDistinct(names: seq<string>, a: seq<string>, b: seq<string>, c: seq<string>, x: string)
    requires multiset(a) + multiset(b) == multiset(names)
    requires multiset(c) <= multiset(b) && x in a && x in c
    ensures !Distinct(names)
  {
    assert multiset(a)[x] >= 1;
    assert multiset(c)[x] >= 1;
    assert multiset(names)[x] >= 2;
    assert x in names;
    var j :| 0 <= j < |names| && names[j] == x;
  }

  /** A name of the first stratum a step ranks is in none of the strata a
      run on the reduced tableau ranks, when the names are distinct. */
  lemma RankedOnce(names: seq<string>, d: set<int>, rest: seq<seq<string>>, k: int, x: string)
    requires Distinct(names)
    requires multiset(Flatten(rest)) <= multiset(Keep(names, d))
    requires 0 <= k < |rest| && x in Pick(names, d)
    ensures x !in rest[k]
  {
    if x in rest[k] {
      FlattenMember(rest, k, x);
      Partition(names, d);
      TwiceNotDistinct(names, Pick(names, d), Keep(names, d), Flatten(rest), x);
    }
  }

  /** No name is in two of the strata. */
  predicate Disjoint(ss: seq<seq<string>>) {
    forall i, k, x :: 0 <= i < k < |ss| && x in ss[i] ==> x !in ss[k]
  }

  /** Putting the stratum of a step in front of disjoint strata ranked from
      the columns it leaves keeps the strata disjoint. */
  lemma DisjointCons(names: seq<string>, d: set<int>, rest: seq<seq<string>>)
    requires Distinct(names) && Disjoint(rest)
    requires multiset(Flatten(rest)) <= multiset(Keep(names, d))
    ensures Disjoint([Pick(names, d)] + rest)
  {
    var ss := [Pick(names, d)] + rest;
    forall i, k, x | 0 <= i < k < |ss| && x in ss[i]
      ensures x !in ss[k]
    {
      assert ss[k] == rest[k - 1];
      if i == 0 {
        RankedOnce(names, d, rest, k - 1, x);
      } else {
        assert ss[i] == rest[i - 1];
      }
    }
  }

  /** With distinct constraint names, no constraint is ranked twice: the
      strata are disjoint and none repeats a name. */
  lemma {:induction false} StrataDisjoint(g: Grid)
    requires WellFormed(g) && Distinct(g.names)
    ensures Distinct(Flatten(Run(g).strata))
    ensures Disjoint(Run(g).strata)
    decreases |g.names|
  {
    var o := Run(g);
    DistinctPart(Flatten(o.strata), g.names);
    if Step(g).Next? {
      var h := Step(g).next;
      assert o.strata == [Pick(g.names, Ranked(g))] + Run(h).strata;
      Partition(g.names, Ranked(g));
      DistinctPart(h.names, g.names);
      StrataDisjoint(h);
      DisjointCons(g.names, Ranked(g), Run(h).strata);
    }
  }

  /** The definitions of Run and Step unfolded one level, case by case; a
      proof step for the procedure and the worked example, not a property
      of its own. */
  lemma RunUnfolds(g: Grid)
    requires WellFormed(g)
    ensures WinnerRows(g) == [] ==> Run(g) == Outcome([], Failed(NoWinner))
    ensures WinnerRows(g) != [] && LoserRows(g) == [] ==> Run(g) == Outcome([g.names], Complete)
    ensures WinnerRows(g) != [] && LoserRows(g) != [] && Ranked(g) == {} ==>
              Run(g) == Outcome([], Failed(Unrankable))
    ensures WinnerRows(g) != [] && LoserRows(g) != [] && Ranked(g) != {} &&
            (Explained(g.Header(), Ranked(g)) || -1 in Pruned(Names(Survivors(g.rows, Ranked(g))))) ==>
              Run(g) == Outcome([Pick(g.names, Ranked(g))], HeaderGone)
    ensures WinnerRows(g) != [] && LoserRows(g) != [] && Ranked(g) != {} &&
            !Explained(g.Header(), Ranked(g)) && -1 !in Pruned(Names(Survivors(g.rows, Ranked(g)))) ==>
              Step(g) == Next(Pick(g.names, Ranked(g)), Reduce(g, Ranked(g))) &&
              Run(g) == Outcome([Pick(g.names, Ranked(g))] + Run(Reduce(g, Ranked(g))).strata,
                                Run(Reduce(g, Ranked(g))).status)
  {
    RunOfStep(g);
    if WinnerRows(g) == [] {
      assert Step(g) == Fail(NoWinner);
    } else if LoserRows(g) == [] {
      assert Step(g) == Final(g.names);
    } else if Ranked(g) == {} {
      assert Step(g) == Fail(Unrankable);
    } else if Explained(g.Header(), Ranked(g)) || -1 in Pruned(Names(Survivors(g.rows, Ranked(g)))) {
      assert Step(g) == HeaderDeleted(Pick(g.names, Ranked(g)));
    } else {
      assert Step(g) == Next(Pick(g.names, Ranked(g)), Reduce(g, Ranked(g)));
    }
  }

  /** Run unfolded one level, by the kind of its first step. */
  lemma RunOfStep(g: Grid)
    requires WellFormed(g)
    ensures Step(g).Fail? ==> Run(g) == Outcome([], Failed(Step(g).error))
    ensures Step(g).Final? ==> Run(g) == Outcome([Step(g).stratum], Complete)
    ensures Step(g).HeaderDeleted? ==> Run(g) == Outcome([Step(g).stratum], HeaderGone)
    ensures Step(g).Next? ==>
              Run(g) == Outcome([Step(g).stratum] + Run(Step(g).next).strata, Run(Step(g).next).status)
  {
  }

  /** A header that competes as a loser never lets a run of the model
      complete: it is a competing loser at every step, because steps keep
      its first two cells, so no step is final. The run stops with
      HeaderGone once a step deletes the header. */
  lemma {:induction false} OrdinaryHeaderNeverFinal(g: Grid)
    requires WellFormed(g) && !IsInput(g.corner) && g.flag != "1"
    ensures !Step(g).Final?
    ensures Run(g).status != Complete
    decreases |g.names|
  {
    assert g.Header() in g.AllRows();
    assert HasLoser(g);
    StepCases(g);
    RunOfStep(g);
    if Step(g).Next? {
      OrdinaryHeaderNeverFinal(Step(g).next);
    }
  }

  /** Proof step: regrouping the strata of nested runs. */
  lemma ConcatAssoc(a: seq<seq<string>>, b: seq<seq<string>>, c: seq<seq<string>>)
    ensures (a + b) + c == a + (b + c)
  {
  }

  /** The running order of strata, extended in place as steps rank constraints. */
  class Ranking {
    var order: seq<seq<string>>

    constructor ()
      ensures order == []
    {
      order := [];
    }

    /** One call of the recursive procedure: a step on g, appending its
        stratum to the order, then a call on the reduced tableau. */
    method Rcd(g: Grid) returns (status: Status)
      requires WellFormed(g)
      modifies this
      ensures order == old(order) + Run(g).strata
      ensures status == Run(g).status
      decreases |g.names|
    {
      RunUnfolds(g);
      var winners := WinnerRows(g);
      if winners == [] {
        return Failed(NoWinner);
      }
      var losers := LoserRows(g);
      if losers == [] {
        order := order + [g.names];
        return Complete;
      }
      var w := WinnerProfile(g);
      var l := LoserProfile(g);
      var ranked := Selected(w, l);
      if ranked == {} {
        return Failed(Unrankable);
      }
      RankedShrinks(g);
      var stratum := Pick(g.names, ranked);
      order := order + [stratum];
      var next, headerGone := Shrink(g, ranked);
      PrunedHeader(Names(Survivors(g.rows, ranked)));
      if headerGone {
        return HeaderGone;
      }
      ghost var before := order;
      status := Rcd(next);
      assert order == before + Run(next).strata;
      ConcatAssoc(old(order), [stratum], Run(next).strata);
    }
  }

  /** Deletes the explained rows and the ranked columns d of g, then runs
      the pruning loop; reports whether the header row would be deleted,
      and otherwise gives the reduced tableau. */
  method Shrink(g: Grid, d: set<int>) returns (next: Grid, headerGone: bool)
    requires WellFormed(g)
    ensures headerGone <==> Explained(g.Header(), d) || WrapsToHeader(Names(Survivors(g.rows, d)))
    ensures !headerGone ==> next == Reduce(g, d) && WellFormed(next) && RowsFrom(g, next, d)
  {
    next := g;
    if Explained(g.Header(), d) {
      return next, true;
    }
    var kept := Survivors(g.rows, d);
    var satisfied := PruneIndices(Names(kept));
    PrunedHeader(Names(kept));
    if -1 in satisfied {
      return next, true;
    }
    var deleted := set k | k in satisfied;
    assert deleted == Pruned(Names(kept));
    next := Grid(g.corner, g.flag, Keep(g.names, d), Keep(Trim(kept, d), deleted));
    ReduceFacts(g, d);
    headerGone := false;
  }

  /** The top-level invocation: an empty order, then one call on the whole
      tableau. */
  method RankTableau(g: Grid) returns (order: seq<seq<string>>, status: Status)
    requires WellFormed(g)
    ensures order == Run(g).strata && status == Run(g).status
  {
    var ranking := new Ranking();
    status := ranking.Rcd(g);
    order := ranking.order;
  }
}
