/** The pages to touch after a change: the program that asks the include search, and exactly when it misses none. */
module IncludePages {
  import opened Common
  import opened Includes

  ghost predicate Affected(g: Graph, changed: set<File>, page: Page) {
    exists d <- page.diagrams, c <- changed :: c == d || Reaches(g, d, c)
  }

  ghost predicate EmbedsExisting(g: Graph, pages: seq<Page>) {
    forall p <- pages, d <- p.diagrams :: d in g
  }

  // ---- The program as a function of its memo ----

  /** Whether a diagram is or includes a changed file, asked until one does; and the memo left behind. */
  ghost function Hit(g: Graph, diagrams: seq<File>, changed: set<File>, memo: Memo): (bool, Memo)
    requires Closed(g) && forall d <- diagrams :: d in g
  {
    if diagrams == [] then (false, memo)
    else
      var (found, after) := Visit(g, diagrams[0], {}, memo);
      if changed * (found + {diagrams[0]}) != {} then (true, after) else Hit(g, diagrams[1..], changed, after)
  }

  ghost function AffectedPages(g: Graph, pages: seq<Page>, changed: set<File>, memo: Memo, affected: set<Page>): set<Page>
    requires Closed(g) && EmbedsExisting(g, pages)
  {
    if pages == [] then affected
    else
      var (hit, after) := Hit(g, pages[0].diagrams, changed, memo);
      AffectedPages(g, pages[1..], changed, after, if hit then affected + {pages[0]} else affected)
  }

  class IncludeSearch {
    const graph: Graph
    var memo: Memo

    constructor (g: Graph)
      ensures graph == g && memo == map[]
    {
      graph := g;
      memo := map[];
    }

    method Dependencies(diagram: File, seen: set<File>) returns (result: set<File>)
      requires Closed(graph) && diagram in graph
      modifies this
      ensures (result, memo) == Visit(graph, diagram, seen, old(memo))
      decreases |graph.Keys - seen|
    {
      if diagram in memo {
        return memo[diagram];
      }
      if diagram in seen {
        return {};
      }
      assert graph.Keys - (seen + {diagram}) == (graph.Keys - seen) - {diagram};
      var direct := graph[diagram];
      var resolved := ToSet(direct);
      for i := 0 to |direct|
        invariant VisitAll(graph, direct, seen + {diagram}, old(memo), ToSet(direct))
          == VisitAll(graph, direct[i..], seen + {diagram}, memo, resolved)
      {
        var found := Dependencies(direct[i], seen + {diagram});
        resolved := resolved + found;
        assert direct[i..][1..] == direct[i + 1..];
      }
      memo := memo[diagram := resolved];
      result := resolved;
    }
  }

  /**
   No page is touched without cause, on any graph. On a bypassable graph, in particular without cycles, or when only one
   diagram is embedded, exactly the pages are touched that embed a changed file or a file that reaches one.
   */
  method PagesAffectedBy(g: Graph, pages: seq<Page>, changed: set<File>) returns (affected: set<Page>)
    requires Closed(g) && EmbedsExisting(g, pages)
    ensures affected == AffectedPages(g, pages, changed, map[], {})
    ensures forall p <- affected :: p in pages && Affected(g, changed, p)
    ensures Acyclic(g) || Bypassable(g) || OneDiagram(pages) ==> forall p <- pages :: p in affected <==> Affected(g, changed, p)
  {
    var search := new IncludeSearch(g);
    affected := {};
    for i := 0 to |pages|
      invariant search.graph == g
      invariant AffectedPages(g, pages, changed, map[], {}) == AffectedPages(g, pages[i..], changed, search.memo, affected)
    {
      var page := pages[i];
      assert pages[i..][0] == page && pages[i..][1..] == pages[i + 1..];
      var hit := false;
      var k := 0;
      ghost var before := search.memo;
      while k < |page.diagrams| && !hit
        invariant 0 <= k <= |page.diagrams| && search.graph == g
        invariant Hit(g, page.diagrams, changed, before)
          == if hit then (true, search.memo) else Hit(g, page.diagrams[k..], changed, search.memo)
      {
        var diagram := page.diagrams[k];
        assert page.diagrams[k..][0] == diagram && page.diagrams[k..][1..] == page.diagrams[k + 1..];
        var found := search.Dependencies(diagram, {});
        hit := changed * (found + {diagram}) != {};
        k := k + 1;
      }
      if hit {
        affected := affected + {page};
      }
    }
    assert pages[|pages|..] == [];
    PagesAreSound(g, pages, changed, map[], {});
    if Acyclic(g) {
      AcyclicIsBypassable(g);
    }
    if Bypassable(g) {
      PagesAreExact(g, pages, changed, map[], {});
    } else if OneDiagram(pages) {
      OneDiagramIsExact(g, pages, changed, map[], {});
    }
  }

  // ---- What it promises ----

  lemma {:induction false} HitIsSound(g: Graph, diagrams: seq<File>, changed: set<File>, memo: Memo)
    requires Closed(g) && Sound(g, memo) && forall d <- diagrams :: d in g
    ensures var (hit, after) := Hit(g, diagrams, changed, memo);
      Sound(g, after) && (hit ==> exists d <- diagrams, c <- changed :: c == d || Reaches(g, d, c))
  {
    if diagrams != [] {
      var d := diagrams[0];
      var (found, after) := Visit(g, d, {}, memo);
      VisitSound(g, d, {}, memo);
      if changed * (found + {d}) != {} {
        var c :| c in changed * (found + {d});
        assert c == d || Reaches(g, d, c);
      } else {
        HitIsSound(g, diagrams[1..], changed, after);
        assert forall e <- diagrams[1..] :: e in diagrams;
      }
    }
  }

  lemma {:induction false} PagesAreSound(g: Graph, pages: seq<Page>, changed: set<File>, memo: Memo, affected: set<Page>)
    requires Closed(g) && Sound(g, memo) && EmbedsExisting(g, pages)
    ensures var r := AffectedPages(g, pages, changed, memo, affected);
      affected <= r && forall p <- r :: p in affected || (p in pages && Affected(g, changed, p))
  {
    if pages != [] {
      HitIsSound(g, pages[0].diagrams, changed, memo);
      var (hit, after) := Hit(g, pages[0].diagrams, changed, memo);
      PagesAreSound(g, pages[1..], changed, after, if hit then affected + {pages[0]} else affected);
    }
  }

  lemma {:induction false} HitIsComplete(g: Graph, diagrams: seq<File>, changed: set<File>, memo: Memo)
    requires Closed(g) && Bypassable(g) && CompleteMemo(g, memo) && forall d <- diagrams :: d in g
    ensures var (hit, after) := Hit(g, diagrams, changed, memo);
      CompleteMemo(g, after) && forall d <- diagrams, c <- changed | c == d || Reaches(g, d, c) :: hit
  {
    if diagrams != [] {
      var d := diagrams[0];
      var (found, after) := Visit(g, d, {}, memo);
      assert IsSimple(g, [d]) && ToSet([d][..0]) == {};
      VisitComplete(g, [d], memo);
      if changed * (found + {d}) == {} {
        forall c <- changed ensures c != d && !Reaches(g, d, c) {
          assert c !in changed * (found + {d});
        }
        HitIsComplete(g, diagrams[1..], changed, after);
        assert forall e <- diagrams :: e == d || e in diagrams[1..];
      }
    }
  }

  lemma {:induction false} PagesAreExact(g: Graph, pages: seq<Page>, changed: set<File>, memo: Memo, affected: set<Page>)
    requires Closed(g) && Bypassable(g) && Sound(g, memo) && CompleteMemo(g, memo) && EmbedsExisting(g, pages)
    ensures forall p <- pages | Affected(g, changed, p) :: p in AffectedPages(g, pages, changed, memo, affected)
  {
    if pages != [] {
      var page := pages[0];
      HitIsSound(g, page.diagrams, changed, memo);
      HitIsComplete(g, page.diagrams, changed, memo);
      var (hit, after) := Hit(g, page.diagrams, changed, memo);
      var next := if hit then affected + {page} else affected;
      PagesAreSound(g, pages[1..], changed, after, next);
      PagesAreExact(g, pages[1..], changed, after, next);
      assert forall p <- pages :: p == page || p in pages[1..];
    }
  }

  /** All pages together embed at most one diagram. */
  ghost predicate OneDiagram(pages: seq<Page>) {
    forall p <- pages, q <- pages, d <- p.diagrams, e <- q.diagrams :: d == e
  }

  /** Nothing has been looked up, or this diagram has, and got its full reachable set. */
  ghost predicate Untouched(g: Graph, memo: Memo, d: File) {
    memo == map[] || (d in memo && forall m :: m in memo[d] <==> Reaches(g, d, m))
  }

  lemma RepeatedLookup(g: Graph, d: File, memo: Memo)
    requires Closed(g) && d in g && Untouched(g, memo, d)
    ensures var (found, after) := Visit(g, d, {}, memo);
      (forall m :: m in found <==> Reaches(g, d, m)) && Untouched(g, after, d)
  {
    if d !in memo {
      assert memo == map[];
      FirstLookupExact(g, d);
    }
  }

  lemma {:induction false} RepeatedHit(g: Graph, d: File, diagrams: seq<File>, changed: set<File>, memo: Memo)
    requires Closed(g) && Untouched(g, memo, d) && d in g && forall e <- diagrams :: e == d
    ensures var (hit, after) := Hit(g, diagrams, changed, memo);
      Untouched(g, after, d) && (hit <==> diagrams != [] && exists c <- changed :: c == d || Reaches(g, d, c))
  {
    if diagrams != [] {
      assert diagrams[0] in diagrams && forall e <- diagrams[1..] :: e in diagrams;
      var (found, after) := Visit(g, d, {}, memo);
      RepeatedLookup(g, d, memo);
      if changed * (found + {d}) != {} {
        var c :| c in changed * (found + {d});
        assert c == d || Reaches(g, d, c);
      } else {
        forall c <- changed ensures c != d && !Reaches(g, d, c) {
          assert c !in changed * (found + {d});
        }
        RepeatedHit(g, d, diagrams[1..], changed, after);
      }
    }
  }

  lemma {:induction false} OneDiagramIsExact(g: Graph, pages: seq<Page>, changed: set<File>, memo: Memo, affected: set<Page>)
    requires Closed(g) && EmbedsExisting(g, pages) && OneDiagram(pages) && Sound(g, memo)
    requires forall p <- pages, d <- p.diagrams :: Untouched(g, memo, d)
    ensures forall p <- pages | Affected(g, changed, p) :: p in AffectedPages(g, pages, changed, memo, affected)
  {
    if pages != [] {
      var page := pages[0];
      HitIsSound(g, page.diagrams, changed, memo);
      var (hit, after) := Hit(g, page.diagrams, changed, memo);
      var next := if hit then affected + {page} else affected;
      if page.diagrams != [] {
        RepeatedHit(g, page.diagrams[0], page.diagrams, changed, memo);
        assert forall p <- pages, d <- p.diagrams :: d == page.diagrams[0];
      }
      PagesAreSound(g, pages[1..], changed, after, next);
      OneDiagramIsExact(g, pages[1..], changed, after, next);
      assert forall p <- pages :: p == page || p in pages[1..];
    }
  }

  // ---- Exactly when no page is missed ----

  ghost predicate TouchesExactly(g: Graph, pages: seq<Page>, changed: set<File>)
    requires Closed(g) && EmbedsExisting(g, pages)
  {
    forall p <- pages :: p in AffectedPages(g, pages, changed, map[], {}) <==> Affected(g, changed, p)
  }

  /** Whatever pages there are, whatever changes, and in whatever order files list their includes. */
  ghost predicate NeverMisses(g: Graph) {
    forall h: Graph, pages: seq<Page>, changed: set<File> | Reordered(g, h) && EmbedsExisting(h, pages) ::
      TouchesExactly(h, pages, changed)
  }

  /** The affected pages are exact for all pages, changes and listing orders if and only if the graph is bypassable. */
  lemma ExactExactlyIfBypassable(g: Graph)
    requires Closed(g)
    ensures Bypassable(g) <==> NeverMisses(g)
  {
    if Bypassable(g) {
      forall h: Graph, pages: seq<Page>, changed: set<File> | Reordered(g, h) && EmbedsExisting(h, pages)
        ensures TouchesExactly(h, pages, changed)
      {
        ReorderedBypassable(g, h);
        PagesAreSound(h, pages, changed, map[], {});
        PagesAreExact(h, pages, changed, map[], {});
      }
    } else {
      var path: seq<File>, m: File :| IsSimple(g, path) && m != Last(path) && Reaches(g, Last(path), m) && !Continues(g, path, m);
      var h, pages := MissedPage(g, path, m);
      assert !TouchesExactly(h, pages, {m});
    }
  }

  /** Follow the path first: the page that embeds its last file is missed after the one that embeds its first. */
  lemma MissedPage(g: Graph, path: seq<File>, m: File) returns (h: Graph, pages: seq<Page>)
    requires Closed(g) && IsSimple(g, path) && m != Last(path) && Reaches(g, Last(path), m) && !Continues(g, path, m)
    ensures Reordered(g, h) && EmbedsExisting(h, pages) && !TouchesExactly(h, pages, {m})
  {
    h := ListAlong(g, path);
    SameIncludes(g, h);
    var n := Last(path);
    var first, last := Page("first", [path[0]]), Page("last", [n]);
    pages := [first, last];
    assert IsSimple(h, path) && !Continues(h, path, m);
    MissedAlong(h, path, m, 0);
    assert ToSet(path[..0]) == {};
    var after := Visit(h, path[0], {}, map[]).1;
    SecondPage(h, first, last, m, after);
    assert Affected(h, {m}, last);
  }

  /** After the first page, the answer remembered for the second lacks `m`, so a change of `m` does not touch it. */
  lemma SecondPage(h: Graph, first: Page, last: Page, m: File, after: Memo)
    requires Closed(h) && |first.diagrams| == |last.diagrams| == 1 && first != last && EmbedsExisting(h, [first, last])
    requires after == Visit(h, first.diagrams[0], {}, map[]).1
    requires Misses(after, last.diagrams[0], m) && m != last.diagrams[0]
    ensures last !in AffectedPages(h, [first, last], {m}, map[], {})
  {
    assert first.diagrams[1..] == [] && last.diagrams[1..] == [] && [first, last][1..] == [last] && [last][1..] == [];
    assert Hit(h, first.diagrams, {m}, map[]).1 == after;
    assert {m} * (after[last.diagrams[0]] + {last.diagrams[0]}) == {};
    assert !Hit(h, last.diagrams, {m}, after).0;
    var touched: set<Page> := if Hit(h, first.diagrams, {m}, map[]).0 then {} + {first} else {};
    assert AffectedPages(h, [last], {m}, after, touched) == touched;
  }

  /** A missed page: file 1 includes 2 and 3, file 2 includes 1; with 3 changed, the page of 2 is not touched after that of 1. */
  lemma TwoFilesAndAThird()
    ensures var g: Graph := map[1 := [2, 3], 2 := [1], 3 := []];
      var pages := [Page("one", [1]), Page("two", [2])];
      && Closed(g) && EmbedsExisting(g, pages) && !Bypassable(g)
      && Affected(g, {3}, pages[1]) && AffectedPages(g, pages, {3}, map[], {}) == {pages[0]}
  {
    var g: Graph := map[1 := [2, 3], 2 := [1], 3 := []];
    CyclicMemoIsPartial();
    var one, two := Page("one", [1]), Page("two", [2]);
    var after := Visit(g, 1, {}, map[]).1;
    assert 3 in {3} * ({1, 2, 3} + {1});
    assert Hit(g, [1], {3}, map[]) == (true, after);
    assert [2][1..] == [] && {3} * ({1} + {2}) == {};
    assert !Hit(g, [2], {3}, after).0;
    assert [one, two][1..] == [two] && [two][1..] == [] && {} + {one} == {one};
    assert IsSimple(g, [1, 2]) && Last([1, 2]) == 2 && !Continues(g, [1, 2], 3);
  }

  /** Two files that include only each other do no harm: cycles as such are not the trouble. */
  lemma TwoFilesAlone()
    ensures var g: Graph := map[1 := [2], 2 := [1]]; !Acyclic(g) && Bypassable(g)
  {
    var g: Graph := map[1 := [2], 2 := [1]];
    assert IsPath(g, [1, 2, 1]) && [1, 2, 1][2] == 1;
    assert 1 in g && Reaches(g, 1, 1);
    forall path: seq<File>, m: File | IsSimple(g, path) && m != Last(path) && Reaches(g, Last(path), m)
      ensures Continues(g, path, m)
    {
      var p :| IsPath(g, p) && p[0] == Last(path) && p[|p| - 1] == m;
      var last := path[|path| - 1];
      assert last in g && p[|p| - 2] in g && p[|p| - 2 + 1] in g[p[|p| - 2]];
      assert m in g[last];
    }
    assert Bypassable(g);
  }
}
