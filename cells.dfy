/** Conventions for single cells of an RCD tableau: how a cell's violation
    marks are counted, the placeholder that stands for an empty field, the
    trailing-mark test that decides whether a candidate is explained, and
    the slash that marks an input-form row. */
module Cells {

  /** What an empty field of the input file is replaced with when loaded. */
  const Placeholder: string := "-"

  /** The number of violation marks ('*') anywhere in a cell. */
  function CountStars(cell: string): (n: nat)
    ensures n <= |cell|
    ensures n == 0 <==> '*' !in cell
  {
    if cell == [] then 0
    else
      assert cell == [cell[0]] + cell[1..];
      (if cell[0] == '*' then 1 else 0) + CountStars(cell[1..])
  }

  /** An empty field becomes the placeholder; every other field is kept.
      Either way the cell carries as many marks as the field did. */
  function Normalize(field: string): (cell: string)
    ensures cell != []
    ensures field == [] ==> cell == Placeholder
    ensures field != [] ==> cell == field
    ensures CountStars(cell) == CountStars(field)
  {
    if field == [] then Placeholder else field
  }

  /** The cell ends with a violation mark: the test that decides whether a
      candidate is explained by a just-ranked constraint. */
  predicate EndsWithStar(cell: string): (b: bool)
    ensures b ==> CountStars(cell) > 0
  {
    |cell| > 0 && cell[|cell| - 1] == '*'
  }

  /** A row whose name holds a slash is an input form, not a candidate. */
  predicate IsInput(name: string) {
    '/' in name
  }

  /** Counting marks does not depend on where a cell is cut. */
  lemma {:induction false} CountStarsAppend(a: string, b: string)
    ensures CountStars(a + b) == CountStars(a) + CountStars(b)
  {
    if a == [] {
      assert a + b == b;
    } else {
      assert (a + b)[0] == a[0];
      assert (a + b)[1..] == a[1..] + b;
      CountStarsAppend(a[1..], b);
    }
  }

  /** A cell that ends with a mark carries at least one violation: the
      trailing mark is counted on top of whatever precedes it. */
  lemma {:induction false} TrailingStarCounted(cell: string)
    requires EndsWithStar(cell)
    ensures CountStars(cell) == CountStars(cell[..|cell| - 1]) + 1
    ensures CountStars(cell) >= 1
  {
    var n := |cell|;
    var last: string := [cell[n - 1]];
    assert cell == cell[..n - 1] + last;
    CountStarsAppend(cell[..n - 1], last);
    assert last[1..] == [];
    assert CountStars(last) == 1;
  }

  /** The converse fails: a cell can carry a violation without ending in a
      mark, so the explained test is stricter than "violates". */
  lemma MarkNotLast()
    ensures CountStars("*-") == 1 && !EndsWithStar("*-")
  {
    assert "*-"[1..] == "-";
    assert "-"[1..] == "";
  }
}
