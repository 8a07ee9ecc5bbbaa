/** Deleting positions from a sequence, as the deletions of whole rows and
    whole columns in the tableau do, and the positions that are picked out
    by such a deletion. Positions outside the sequence (negative ones
    included) are ignored. */
module Positions {

  /** The elements of s at positions not in d, in their original order. */
  function Keep<T>(s: seq<T>, d: set<int>): (r: seq<T>)
    ensures |r| <= |s|
    decreases |s|
  {
    if s == [] then []
    else Keep(s[..|s| - 1], d) + (if |s| - 1 in d then [] else [s[|s| - 1]])
  }

  /** The elements of s at positions in d, in their original order. */
  function Pick<T>(s: seq<T>, d: set<int>): (r: seq<T>)
    ensures |r| + |Keep(s, d)| == |s|
    decreases |s|
  {
    if s == [] then []
    else Pick(s[..|s| - 1], d) + (if |s| - 1 in d then [s[|s| - 1]] else [])
  }

  /** Keep takes its elements from s in increasing position order: idx
      lists, for each kept element, the distinct position it comes from, and
      every position not deleted is listed. */
  lemma {:induction false} KeepOrder<T>(s: seq<T>, d: set<int>) returns (idx: seq<int>)
    ensures |idx| == |Keep(s, d)|
    ensures forall k :: 0 <= k < |idx| ==>
              0 <= idx[k] < |s| && idx[k] !in d && Keep(s, d)[k] == s[idx[k]]
    ensures forall k, m :: 0 <= k < m < |idx| ==> idx[k] < idx[m]
    ensures forall j :: 0 <= j < |s| && j !in d ==> j in idx
  {
    if s == [] {
      idx := [];
    } else {
      var n := |s| - 1;
      var front := KeepOrder(s[..n], d);
      idx := if n in d then front else front + [n];
      forall j | 0 <= j < |s| && j !in d
        ensures j in idx
      {
        if j < n {
          assert j in front;
        }
      }
    }
  }

  /** Pick takes its elements from s in increasing position order, and every
      deleted position inside s is listed. */
  lemma {:induction false} PickOrder<T>(s: seq<T>, d: set<int>) returns (idx: seq<int>)
    ensures |idx| == |Pick(s, d)|
    ensures forall k :: 0 <= k < |idx| ==>
              0 <= idx[k] < |s| && idx[k] in d && Pick(s, d)[k] == s[idx[k]]
    ensures forall k, m :: 0 <= k < m < |idx| ==> idx[k] < idx[m]
    ensures forall j :: 0 <= j < |s| && j in d ==> j in idx
  {
    if s == [] {
      idx := [];
    } else {
      var n := |s| - 1;
      var front := PickOrder(s[..n], d);
      var p := Pick(s[..n], d);
      if n in d {
        assert Pick(s, d) == p + [s[n]];
        idx := front + [n];
        forall k | 0 <= k < |idx|
          ensures 0 <= idx[k] < |s| && idx[k] in d && Pick(s, d)[k] == s[idx[k]]
        {
          if k < |front| {
            assert Pick(s, d)[k] == p[k] == s[..n][front[k]];
          }
        }
      } else {
        assert Pick(s, d) == p;
        idx := front;
        forall k | 0 <= k < |idx|
          ensures 0 <= idx[k] < |s| && idx[k] in d && Pick(s, d)[k] == s[idx[k]]
        {
          assert Pick(s, d)[k] == p[k] == s[..n][front[k]];
        }
      }
      forall j | 0 <= j < |s| && j in d
        ensures j in idx
      {
        if j < n {
          assert j in front;
        }
      }
    }
  }

  /** Every element occurs at most once. */
  ghost predicate Distinct<T>(s: seq<T>) {
    forall i :: 0 <= i < |s| ==> multiset(s)[s[i]] == 1
  }

  /** Keep retains exactly the elements at the positions not deleted. */
  lemma {:induction false} KeepMembers<T>(s: seq<T>, d: set<int>, x: T)
    ensures x in Keep(s, d) <==> exists j :: 0 <= j < |s| && j !in d && s[j] == x
  {
    if s != [] {
      var n := |s| - 1;
      KeepMembers(s[..n], d, x);
      if x in Keep(s, d) && x !in Keep(s[..n], d) {
        assert s[n] == x;
      }
      if j :| 0 <= j < |s| && j !in d && s[j] == x {
        if j < n {
          assert s[..n][j] == x;
        }
      }
    }
  }

  /** Pick retains exactly the elements at the positions deleted. */
  lemma {:induction false} PickMembers<T>(s: seq<T>, d: set<int>, x: T)
    ensures x in Pick(s, d) <==> exists j :: 0 <= j < |s| && j in d && s[j] == x
  {
    if s != [] {
      var n := |s| - 1;
      PickMembers(s[..n], d, x);
      if x in Pick(s, d) && x !in Pick(s[..n], d) {
        assert s[n] == x;
      }
      if j :| 0 <= j < |s| && j in d && s[j] == x {
        if j < n {
          assert s[..n][j] == x;
        }
      }
    }
  }

  /** Deleting positions splits a sequence into two parts that together hold
      every element exactly as often as the sequence does. */
  lemma {:induction false} Partition<T>(s: seq<T>, d: set<int>)
    ensures multiset(Pick(s, d)) + multiset(Keep(s, d)) == multiset(s)
  {
    if s != [] {
      var n := |s| - 1;
      Partition(s[..n], d);
      assert s == s[..n] + [s[n]];
    }
  }

  /** Deleting a position that lies inside the sequence shortens it. */
  lemma DeletionShrinks<T>(s: seq<T>, d: set<int>, j: int)
    requires 0 <= j < |s| && j in d
    ensures |Keep(s, d)| < |s|
    ensures s[j] in Pick(s, d)
  {
    PickMembers(s, d, s[j]);
  }

  /** Deleting no position inside the sequence changes nothing. */
  lemma {:induction false} KeepUntouched<T>(s: seq<T>, d: set<int>)
    requires forall j :: 0 <= j < |s| ==> j !in d
    ensures Keep(s, d) == s
    ensures Pick(s, d) == []
  {
    if s != [] {
      var n := |s| - 1;
      KeepUntouched(s[..n], d);
      assert s == s[..n] + [s[n]];
    }
  }

  /** Deleting every position leaves nothing. */
  lemma {:induction false} KeepNone<T>(s: seq<T>, d: set<int>)
    requires forall j :: 0 <= j < |s| ==> j in d
    ensures Keep(s, d) == []
  {
    if s != [] {
      KeepNone(s[..|s| - 1], d);
    }
  }

  /** Which positions are deleted does not depend on what the elements are:
      two sequences of one length keep sequences of one length. */
  lemma {:induction false} KeepLength<T, U>(s: seq<T>, t: seq<U>, d: set<int>)
    requires |s| == |t|
    ensures |Keep(s, d)| == |Keep(t, d)|
  {
    if s != [] {
      KeepLength(s[..|s| - 1], t[..|t| - 1], d);
    }
  }

  /** Part of a sequence without repeats has no repeats either. */
  lemma DistinctPart<T>(a: seq<T>, s: seq<T>)
    requires multiset(a) <= multiset(s) && Distinct(s)
    ensures Distinct(a)
  {
    forall i | 0 <= i < |a| ensures multiset(a)[a[i]] == 1 {
      var x := a[i];
      assert x in multiset(a);
      assert x in multiset(s);
      var k :| 0 <= k < |s| && s[k] == x;
      assert multiset(a)[x] <= multiset(s)[x];
    }
  }
}
