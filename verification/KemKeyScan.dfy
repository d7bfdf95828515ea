/** The paging loop of the KEM key backfill, on a table that stays as it is. */
module KemKeyScans {
  import opened Prelude
  import opened KemKeyBackfill

  lemma Inhabited(rows: set<Did>)
    ensures rows != {} ==> exists d :: d in rows
  {
    if forall d :: d !in rows {
      assert rows == {};
    }
  }

  method Least(rows: set<Did>) returns (first: Did)
    requires rows != {}
    ensures first in rows && forall d :: d in rows ==> first <= d
  {
    Inhabited(rows);
    first :| first in rows;
    var rest := rows - {first};
    while rest != {}
      invariant first in rows && rest <= rows
      invariant forall d :: d in rows ==> d in rest || first <= d
      decreases rest
    {
      Inhabited(rest);
      var d :| d in rest;
      if d < first {
        first := d;
      }
      rest := rest - {d};
    }
  }

  /** The query: the first hundred rows after the cursor, in order. */
  method SelectPage(rows: set<Did>, cursor: Option<Did>) returns (page: seq<Did>)
    ensures IsPage(rows, cursor, page)
  {
    var rest := set d | d in rows && After(cursor, d);
    page := [];
    while rest != {} && |page| < PAGE_SIZE
      invariant |page| <= PAGE_SIZE && StrictlyIncreasing(page)
      invariant forall d :: d in page ==> d in rows && After(cursor, d)
      invariant forall d :: d in rows && After(cursor, d) <==> d in page || d in rest
      invariant forall d, e :: d in page && e in rest ==> d < e
      decreases rest
    {
      var d := Least(rest);
      forall i | 0 <= i < |page| ensures page[i] < d {
        assert page[i] in page;
      }
      page := page + [d];
      rest := rest - {d};
    }
    assert |page| == PAGE_SIZE ==> page[PAGE_SIZE - 1] in page;
    assert forall d :: d in rest ==> rest != {};
  }

  function Failures(visited: seq<Did>, fails: set<Did>): nat {
    if visited == [] then 0
    else Failures(visited[..|visited| - 1], fails) + if visited[|visited| - 1] in fails then 1 else 0
  }

  lemma OneMore(seen: set<Did>, fails: set<Did>, d: Did)
    requires d !in seen
    ensures |(seen + {d}) * fails| == |seen * fails| + if d in fails then 1 else 0
  {
    assert d in fails ==> (seen + {d}) * fails == seen * fails + {d};
    assert d !in fails ==> (seen + {d}) * fails == seen * fails;
  }

  /** Counted along a scan without repetition, the failures are those of the visited rows. */
  lemma {:induction false} FailuresCounted(visited: seq<Did>, seen: set<Did>, fails: set<Did>)
    requires StrictlyIncreasing(visited) && forall d :: d in visited <==> d in seen
    ensures Failures(visited, fails) == |seen * fails|
  {
    if visited == [] {
      Inhabited(seen);
      assert seen * fails == {};
    } else {
      var front, last := visited[..|visited| - 1], visited[|visited| - 1];
      assert last !in front && visited == front + [last];
      FailuresCounted(front, seen - {last}, fails);
      OneMore(seen - {last}, fails, last);
      assert seen - {last} + {last} == seen;
    }
  }

  /** A page takes all the rows between the cursor and its own last row. */
  lemma PageCovers(rows: set<Did>, cursor: Option<Did>, page: seq<Did>)
    requires IsPage(rows, cursor, page) && page != []
    ensures forall d :: d in rows && After(cursor, d) ==> (d in page <==> d <= page[|page| - 1])
    ensures After(cursor, page[|page| - 1])
  {
    assert page[|page| - 1] in page;
    forall d | d in page ensures d <= page[|page| - 1] {
      var i :| 0 <= i < |page| && page[i] == d;
    }
  }

  /** What the scan has visited when it asks for the page after the cursor. */
  ghost predicate VisitedSoFar(rows: set<Did>, cursor: Option<Did>, visited: seq<Did>) {
    && StrictlyIncreasing(visited)
    && (forall d :: d in visited <==> d in rows && !After(cursor, d))
  }

  lemma PageVisited(rows: set<Did>, cursor: Option<Did>, visited: seq<Did>, page: seq<Did>)
    requires VisitedSoFar(rows, cursor, visited) && IsPage(rows, cursor, page) && page != []
    ensures VisitedSoFar(rows, Some(page[|page| - 1]), visited + page)
  {
    PageCovers(rows, cursor, page);
    var all := visited + page;
    forall i, j | 0 <= i < j < |all| ensures all[i] < all[j] {
      assert i < |visited| ==> all[i] in visited;
      assert |visited| <= j ==> all[j] in page;
    }
    assert forall d :: d in all <==> d in visited || d in page;
  }

  /** The inner loop: one page, row by row. */
  method VisitPage(page: seq<Did>, fails: set<Did>, failedBefore: nat, ghost before: seq<Did>) returns (failed: nat)
    requires failedBefore == Failures(before, fails)
    ensures failed == Failures(before + page, fails)
  {
    failed := failedBefore;
    assert before + page[..0] == before;
    for i := 0 to |page|
      invariant failed == Failures(before + page[..i], fails)
    {
      assert before + page[..i + 1] == before + page[..i] + [page[i]];
      assert (before + page[..i + 1])[..|before| + i] == before + page[..i];
      if page[i] in fails {
        failed := failed + 1;
      }
    }
    assert page[..|page|] == page;
  }

  /**
   * The loop visits every row exactly once and in order, whatever the number of pages, and counts the
   * accounts that fail.
   */
  method Backfill(rows: set<Did>, fails: set<Did>) returns (failed: nat, ghost visited: seq<Did>)
    ensures StrictlyIncreasing(visited)
    ensures forall d :: d in visited <==> d in rows
    ensures failed == |rows * fails|
  {
    var cursor: Option<Did> := None;
    failed, visited := 0, [];
    ghost var ahead := rows;
    while true
      invariant VisitedSoFar(rows, cursor, visited)
      invariant failed == Failures(visited, fails)
      invariant ahead == set d | d in rows && After(cursor, d)
      decreases ahead
    {
      var page := SelectPage(rows, cursor);
      if page == [] {
        assert forall d :: d in rows ==> !After(cursor, d);
        break;
      }
      PageVisited(rows, cursor, visited, page);
      failed := VisitPage(page, fails, failed, visited);
      assert page[|page| - 1] in page && page[|page| - 1] in ahead;
      visited, cursor := visited + page, Some(page[|page| - 1]);
      ahead := set d | d in ahead && After(cursor, d);
    }
    FailuresCounted(visited, rows, fails);
  }
}
