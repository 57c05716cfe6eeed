/** The memoised search that finds the Markdown pages whose diagrams include a changed PlantUML file. */
module Includes {
  import opened Common

  type File = nat

  /**
   The include relation: what each diagram includes, in the order the search happens to iterate that set.
   Only existing diagrams are ever included, so every included file is a key.
   */
  type Graph = map<File, seq<File>>

  type Memo = map<File, set<File>>

  datatype Page = Page(name: string, diagrams: seq<File>)

  ghost predicate Closed(g: Graph) {
    forall n <- g, m <- g[n] :: m in g
  }

  function ToSet(s: seq<File>): set<File> {
    set x | x in s
  }

  // ---- Reachability, the reference the search is measured against ----

  ghost predicate IsPath(g: Graph, path: seq<File>) {
    && |path| >= 2
    && forall i | 0 <= i < |path| - 1 :: path[i] in g && path[i + 1] in g[path[i]]
  }

  ghost predicate Reaches(g: Graph, a: File, b: File) {
    exists path :: IsPath(g, path) && path[0] == a && path[|path| - 1] == b
  }

  ghost predicate Acyclic(g: Graph) {
    forall n <- g :: !Reaches(g, n, n)
  }

  lemma ReachesDirect(g: Graph, a: File, b: File)
    requires a in g && b in g[a]
    ensures Reaches(g, a, b)
  {
    assert IsPath(g, [a, b]);
  }

  lemma ReachesTransitive(g: Graph, a: File, b: File, c: File)
    requires Reaches(g, a, b) && Reaches(g, b, c)
    ensures Reaches(g, a, c)
  {
    var p :| IsPath(g, p) && p[0] == a && p[|p| - 1] == b;
    var q :| IsPath(g, q) && q[0] == b && q[|q| - 1] == c;
    var r := p + q[1..];
    forall i | 0 <= i < |r| - 1 ensures r[i] in g && r[i + 1] in g[r[i]] {
      if i >= |p| - 1 {
        assert r[i] == q[i - (|p| - 1)] && r[i + 1] == q[i - (|p| - 1) + 1];
      }
    }
    assert IsPath(g, r);
  }

  /** A set that holds what `a` includes and all that its own members include holds all that `a` reaches. */
  lemma {:induction false} ReachedWithin(g: Graph, s: set<File>, a: File, path: seq<File>)
    requires IsPath(g, path) && path[0] == a
    requires a in g && forall m <- g[a] :: m in s
    requires forall n <- s, m <- (if n in g then g[n] else []) :: m in s
    ensures path[|path| - 1] in s
  {
    if |path| > 2 {
      var init := path[..|path| - 1];
      assert IsPath(g, init);
      ReachedWithin(g, s, a, init);
      var n := init[|init| - 1];
      assert path[|path| - 1] in g[n];
    }
  }

  // ---- The search as a function of its memo ----

  /** `dependencies`: the answer, and the memo it leaves behind. */
  ghost function Visit(g: Graph, n: File, seen: set<File>, memo: Memo): (set<File>, Memo)
    requires Closed(g) && n in g
    decreases |g.Keys - seen|, 0
  {
    if n in memo then (memo[n], memo)
    else if n in seen then ({}, memo)
    else
      assert g.Keys - (seen + {n}) == (g.Keys - seen) - {n};
      var (resolved, after) := VisitAll(g, g[n], seen + {n}, memo, ToSet(g[n]));
      (resolved, after[n := resolved])
  }

  ghost function VisitAll(g: Graph, todo: seq<File>, seen: set<File>, memo: Memo, resolved: set<File>): (set<File>, Memo)
    requires Closed(g) && forall n <- todo :: n in g
    decreases |g.Keys - seen|, |todo|
  {
    if todo == [] then (resolved, memo)
    else
      var (found, after) := Visit(g, todo[0], seen, memo);
      VisitAll(g, todo[1..], seen, after, resolved + found)
  }

  ghost predicate Sound(g: Graph, memo: Memo) {
    forall n <- memo :: n in g && forall m <- memo[n] :: Reaches(g, n, m)
  }

  lemma {:induction false} VisitSound(g: Graph, n: File, seen: set<File>, memo: Memo)
    requires Closed(g) && n in g && Sound(g, memo)
    ensures var (found, after) := Visit(g, n, seen, memo);
      (forall m <- found :: Reaches(g, n, m)) && Sound(g, after)
    decreases |g.Keys - seen|, 0
  {
    if n !in memo && n !in seen {
      assert g.Keys - (seen + {n}) == (g.Keys - seen) - {n};
      forall m <- g[n] ensures Reaches(g, n, m) {
        ReachesDirect(g, n, m);
      }
      VisitAllSound(g, n, g[n], seen + {n}, memo, ToSet(g[n]));
    }
  }

  lemma {:induction false} VisitAllSound(g: Graph, root: File, todo: seq<File>, seen: set<File>, memo: Memo, resolved: set<File>)
    requires Closed(g) && Sound(g, memo)
    requires forall n <- todo :: n in g && Reaches(g, root, n)
    requires forall m <- resolved :: Reaches(g, root, m)
    ensures var (found, after) := VisitAll(g, todo, seen, memo, resolved);
      (forall m <- found :: Reaches(g, root, m)) && Sound(g, after)
    decreases |g.Keys - seen|, |todo|
  {
    if todo != [] {
      VisitSound(g, todo[0], seen, memo);
      var (found, after) := Visit(g, todo[0], seen, memo);
      forall m <- found ensures Reaches(g, root, m) {
        ReachesTransitive(g, root, todo[0], m);
      }
      VisitAllSound(g, root, todo[1..], seen, after, resolved + found);
    }
  }

  /** Every memo entry is the full set of files its key reaches. */
  ghost predicate Exact(g: Graph, memo: Memo) {
    forall n <- memo :: n in g && forall m :: m in memo[n] <==> Reaches(g, n, m)
  }

  /** The files being searched all reach `n`. */
  ghost predicate LeadTo(g: Graph, seen: set<File>, n: File) {
    forall s <- seen :: Reaches(g, s, n)
  }

  lemma LeadFurther(g: Graph, seen: set<File>, n: File, m: File)
    requires n in g && m in g[n] && LeadTo(g, seen, n)
    ensures LeadTo(g, seen + {n}, m)
  {
    ReachesDirect(g, n, m);
    forall s <- seen ensures Reaches(g, s, m) {
      ReachesTransitive(g, s, n, m);
    }
  }

  lemma ReachesFirstStep(g: Graph, n: File, m: File)
    requires Reaches(g, n, m)
    ensures n in g && exists d <- g[n] :: d == m || Reaches(g, d, m)
  {
    var path :| IsPath(g, path) && path[0] == n && path[|path| - 1] == m;
    assert path[0 + 1] in g[path[0]];
    if |path| > 2 {
      assert IsPath(g, path[1..]);
      assert Reaches(g, path[1], m);
    }
  }

  /** Without cycles the search never meets a file it is already inside of, and every answer is complete. */
  lemma {:induction false} VisitExact(g: Graph, n: File, seen: set<File>, memo: Memo)
    requires Closed(g) && Acyclic(g) && n in g && Exact(g, memo)
    requires LeadTo(g, seen, n)
    ensures var (found, after) := Visit(g, n, seen, memo);
      (forall m :: m in found <==> Reaches(g, n, m)) && Exact(g, after)
    decreases |g.Keys - seen|, 0
  {
    if n !in memo {
      assert n !in seen;
      assert g.Keys - (seen + {n}) == (g.Keys - seen) - {n};
      forall m <- g[n] ensures LeadTo(g, seen + {n}, m) {
        LeadFurther(g, seen, n, m);
      }
      VisitAllExact(g, g[n], seen + {n}, memo, ToSet(g[n]));
      VisitSound(g, n, seen, memo);
      forall m | Reaches(g, n, m) ensures m in Visit(g, n, seen, memo).0 {
        ReachesFirstStep(g, n, m);
      }
    }
  }

  lemma {:induction false} VisitAllExact(g: Graph, todo: seq<File>, seen: set<File>, memo: Memo, resolved: set<File>)
    requires Closed(g) && Acyclic(g) && Exact(g, memo)
    requires forall n <- todo :: n in g && LeadTo(g, seen, n)
    ensures var (found, after) := VisitAll(g, todo, seen, memo, resolved);
      resolved <= found && (forall n <- todo, m | Reaches(g, n, m) :: m in found) && Exact(g, after)
    decreases |g.Keys - seen|, |todo|
  {
    if todo != [] {
      VisitExact(g, todo[0], seen, memo);
      var (found, after) := Visit(g, todo[0], seen, memo);
      assert forall n <- todo[1..] :: n in todo;
      VisitAllExact(g, todo[1..], seen, after, resolved + found);
      forall n <- todo, m | Reaches(g, n, m) ensures m in VisitAll(g, todo, seen, memo, resolved).0 {
        if n != todo[0] {
          assert n in todo[1..];
        }
      }
    }
  }

  /** Whatever a remembered file includes is itself remembered or still being searched. */
  ghost predicate Expanded(g: Graph, memo: Memo, seen: set<File>) {
    forall n <- memo :: n in g && forall m <- g[n] :: m in memo || m in seen
  }

  /** On any graph: the answer holds the includes of every file the call was the first to visit. */
  lemma {:induction false} VisitCovers(g: Graph, n: File, seen: set<File>, memo: Memo)
    requires Closed(g) && n in g && Expanded(g, memo, seen)
    ensures var (found, after) := Visit(g, n, seen, memo);
      && memo.Keys <= after.Keys && (n in after || n in seen) && Expanded(g, after, seen)
      && forall y <- after.Keys - memo.Keys, m <- g[y] :: m in found
    decreases |g.Keys - seen|, 0
  {
    if n !in memo && n !in seen {
      assert g.Keys - (seen + {n}) == (g.Keys - seen) - {n};
      VisitAllCovers(g, g[n], seen + {n}, memo, ToSet(g[n]));
    }
  }

  lemma {:induction false} VisitAllCovers(g: Graph, todo: seq<File>, seen: set<File>, memo: Memo, resolved: set<File>)
    requires Closed(g) && (forall n <- todo :: n in g) && Expanded(g, memo, seen)
    ensures var (found, after) := VisitAll(g, todo, seen, memo, resolved);
      && memo.Keys <= after.Keys && (forall n <- todo :: n in after || n in seen) && Expanded(g, after, seen)
      && resolved <= found
      && forall y <- after.Keys - memo.Keys, m <- g[y] :: m in found
    decreases |g.Keys - seen|, |todo|
  {
    if todo != [] {
      VisitCovers(g, todo[0], seen, memo);
      var (found, mid) := Visit(g, todo[0], seen, memo);
      VisitAllCovers(g, todo[1..], seen, mid, resolved + found);
      assert forall n <- todo :: n == todo[0] || n in todo[1..];
    }
  }

  /** The first file looked up gets its full reachable set on every graph, cycles or not. */
  lemma FirstLookupExact(g: Graph, n: File)
    requires Closed(g) && n in g
    ensures forall m :: m in Visit(g, n, {}, map[]).0 <==> Reaches(g, n, m)
  {
    var (found, after) := Visit(g, n, {}, map[]);
    VisitSound(g, n, {}, map[]);
    VisitCovers(g, n, {}, map[]);
    forall m | Reaches(g, n, m) ensures m in found {
      var path :| IsPath(g, path) && path[0] == n && path[|path| - 1] == m;
      ReachedWithin(g, found * after.Keys, n, path);
    }
  }

  /**
   On a cyclic graph a later lookup can miss files. File 1 includes 2 and 3, and 2 includes 1: after 1 has been
   looked up, the remembered answer for 2 lacks 3, which 2 reaches through 1.
   */
  lemma CyclicMemoIsPartial()
    ensures var g: Graph := map[1 := [2, 3], 2 := [1], 3 := []];
      && Closed(g) && Reaches(g, 2, 3)
      && Visit(g, 1, {}, map[]).0 == {1, 2, 3}
      && Visit(g, 2, {}, Visit(g, 1, {}, map[]).1).0 == {1}
  {
    var g: Graph := map[1 := [2, 3], 2 := [1], 3 := []];
    assert IsPath(g, [2, 1, 3]);
    assert Visit(g, 1, {1, 2}, map[]) == ({}, map[]);
    assert g[2][1..] == [] && g[1][1..] == [3] && g[1][1..][1..] == [];
    assert ToSet(g[2]) == {1} && ToSet(g[1]) == {2, 3} && ToSet(g[3]) == {};
    assert {} + {1} == {1} && {1} + {2} == {1, 2} && {1} + {} == {1} && {2, 3} + {1} == {1, 2, 3} && {1, 2, 3} + {} == {1, 2, 3};
    assert VisitAll(g, [1], {1, 2}, map[], {1}) == ({1}, map[]) by {
      assert VisitAll(g, [], {1, 2}, map[], {1}) == ({1}, map[]);
    }
    assert Visit(g, 2, {1}, map[]) == ({1}, map[2 := {1}]);
    var memo: Memo := map[2 := {1}, 3 := {}];
    assert Visit(g, 3, {1}, map[2 := {1}]) == ({}, memo);
    assert VisitAll(g, [3], {1}, map[2 := {1}], {1, 2, 3}) == ({1, 2, 3}, memo) by {
      assert VisitAll(g, [], {1}, memo, {1, 2, 3}) == ({1, 2, 3}, memo);
    }
  }

  // ---- What the memo does on cyclic graphs ----

  /** An include path that visits no file twice; a single file is one. */
  ghost predicate IsSimple(g: Graph, path: seq<File>) {
    && path != [] && Distinct(path)
    && (forall i | 0 <= i < |path| :: path[i] in g)
    && (forall i | 0 <= i < |path| - 1 :: path[i + 1] in g[path[i]])
  }

  /** The last file of a path includes `m`, or includes a file off the path that reaches it. */
  ghost predicate Continues(g: Graph, path: seq<File>, m: File)
    requires path != [] && Last(path) in g
  {
    m in g[Last(path)] || exists c :: c in g[Last(path)] && c !in path && Reaches(g, c, m)
  }

  /** However a file is come to, each other file it reaches is reached without going back the way one came. */
  ghost predicate Bypassable(g: Graph) {
    forall path: seq<File>, m: File | IsSimple(g, path) && m != Last(path) && Reaches(g, Last(path), m) :: Continues(g, path, m)
  }

  /** A file on a path that the last one includes lies on a cycle. */
  lemma BackOntoThePath(g: Graph, path: seq<File>, c: File)
    requires IsSimple(g, path) && c in g[Last(path)]
    ensures c in path ==> Reaches(g, c, c)
  {
    if c in path {
      var i :| 0 <= i < |path| && path[i] == c;
      assert IsPath(g, path[i..] + [c]);
    }
  }

  lemma AcyclicIsBypassable(g: Graph)
    requires Closed(g) && Acyclic(g)
    ensures Bypassable(g)
  {
    forall path: seq<File>, m: File | IsSimple(g, path) && m != Last(path) && Reaches(g, Last(path), m) ensures Continues(g, path, m) {
      ReachesFirstStep(g, Last(path), m);
      forall c | c in g[Last(path)] ensures c in path ==> Reaches(g, c, c) {
        BackOntoThePath(g, path, c);
      }
    }
  }

  /** An answer that lacks no file but perhaps the one it is for. */
  ghost predicate CompleteFor(g: Graph, n: File, found: set<File>) {
    forall m | m != n && Reaches(g, n, m) :: m in found
  }

  ghost predicate CompleteMemo(g: Graph, memo: Memo) {
    forall n <- memo :: n in g && CompleteFor(g, n, memo[n])
  }

  lemma OneFileFurther(g: Graph, path: seq<File>, c: File)
    requires IsSimple(g, path) && c in g && c in g[Last(path)] && c !in path
    ensures IsSimple(g, path + [c]) && (path + [c])[..|path + [c]| - 1] == path && Last(path + [c]) == c
  {
    DistinctAppend(path, c);
  }

  /** On a bypassable graph every answer and every memo entry is complete, cycles or not. */
  lemma {:induction false} VisitComplete(g: Graph, path: seq<File>, memo: Memo)
    requires Closed(g) && Bypassable(g) && IsSimple(g, path) && CompleteMemo(g, memo)
    ensures var (found, after) := Visit(g, Last(path), ToSet(path[..|path| - 1]), memo);
      CompleteFor(g, Last(path), found) && CompleteMemo(g, after)
    decreases |g.Keys - ToSet(path[..|path| - 1])|, 0
  {
    var n, seen := Last(path), ToSet(path[..|path| - 1]);
    if n !in memo {
      assert n !in seen && seen + {n} == ToSet(path);
      assert g.Keys - ToSet(path) == (g.Keys - seen) - {n};
      VisitAllComplete(g, path, g[n], memo, ToSet(g[n]));
      var found := Visit(g, n, seen, memo).0;
      forall m | m != n && Reaches(g, n, m) ensures m in found {
        assert Continues(g, path, m);
      }
    }
  }

  lemma {:induction false} VisitAllComplete(g: Graph, path: seq<File>, todo: seq<File>, memo: Memo, resolved: set<File>)
    requires Closed(g) && Bypassable(g) && IsSimple(g, path) && CompleteMemo(g, memo)
    requires forall c <- todo :: c in g && c in g[Last(path)]
    ensures var (found, after) := VisitAll(g, todo, ToSet(path), memo, resolved);
      && resolved <= found && CompleteMemo(g, after)
      && forall c <- todo, m | c !in path && c != m && Reaches(g, c, m) :: m in found
    decreases |g.Keys - ToSet(path)|, |todo|
  {
    if todo != [] {
      var c := todo[0];
      if c !in path {
        OneFileFurther(g, path, c);
        VisitComplete(g, path + [c], memo);
      }
      var (found, after) := Visit(g, c, ToSet(path), memo);
      VisitAllComplete(g, path, todo[1..], after, resolved + found);
      assert forall d <- todo :: d == c || d in todo[1..];
    }
  }

  // ---- Why nothing less will do ----

  /** An entry once made is never changed. */
  lemma {:induction false} VisitKeeps(g: Graph, n: File, seen: set<File>, memo: Memo)
    requires Closed(g) && n in g
    ensures var after := Visit(g, n, seen, memo).1;
      && (forall k <- memo :: k in after && after[k] == memo[k])
      && (forall k <- seen :: k !in memo ==> k !in after)
    decreases |g.Keys - seen|, 0
  {
    if n !in memo && n !in seen {
      assert g.Keys - (seen + {n}) == (g.Keys - seen) - {n};
      VisitAllKeeps(g, g[n], seen + {n}, memo, ToSet(g[n]));
    }
  }

  lemma {:induction false} VisitAllKeeps(g: Graph, todo: seq<File>, seen: set<File>, memo: Memo, resolved: set<File>)
    requires Closed(g) && forall n <- todo :: n in g
    ensures var after := VisitAll(g, todo, seen, memo, resolved).1;
      && (forall k <- memo :: k in after && after[k] == memo[k])
      && (forall k <- seen :: k !in memo ==> k !in after)
    decreases |g.Keys - seen|, |todo|
  {
    if todo != [] {
      VisitKeeps(g, todo[0], seen, memo);
      var (found, after) := Visit(g, todo[0], seen, memo);
      VisitAllKeeps(g, todo[1..], seen, after, resolved + found);
    }
  }

  /** Files on the path answer nothing, and no file off it leads to `m`: the search at the end of the path misses `m`. */
  lemma {:induction false} MissedAtTheEnd(g: Graph, path: seq<File>, m: File, todo: seq<File>, memo: Memo, resolved: set<File>)
    requires Closed(g) && Sound(g, memo) && (forall k <- path :: k !in memo) && m !in resolved
    requires forall c <- todo :: c in g && (c in path || !Reaches(g, c, m))
    ensures m !in VisitAll(g, todo, ToSet(path), memo, resolved).0
    decreases |todo|
  {
    if todo != [] {
      var (found, after) := Visit(g, todo[0], ToSet(path), memo);
      VisitSound(g, todo[0], ToSet(path), memo);
      VisitKeeps(g, todo[0], ToSet(path), memo);
      MissedAtTheEnd(g, path, m, todo[1..], after, resolved + found);
    }
  }

  /** Each file of the path but the last lists the next one first. */
  ghost predicate ListsFirst(g: Graph, path: seq<File>) {
    forall i | 0 <= i < |path| - 1 :: path[i] in g && g[path[i]] != [] && g[path[i]][0] == path[i + 1]
  }

  ghost predicate Misses(memo: Memo, n: File, m: File) {
    n in memo && m !in memo[n]
  }

  /** A search that starts at the head of such a path leaves an entry for its last file without what is not continued to. */
  lemma {:induction false} MissedAlong(g: Graph, path: seq<File>, m: File, k: nat)
    requires Closed(g) && IsSimple(g, path) && ListsFirst(g, path) && k < |path|
    requires m != Last(path) && !Continues(g, path, m)
    ensures Misses(Visit(g, path[k], ToSet(path[..k]), map[]).1, Last(path), m)
    decreases |path| - k
  {
    var n, seen := path[k], ToSet(path[..k]);
    assert n !in seen && seen + {n} == ToSet(path[..k + 1]);
    var todo, resolved := g[n], ToSet(g[n]);
    if k == |path| - 1 {
      assert path[..k + 1] == path;
      MissedAtTheEnd(g, path, m, todo, map[], resolved);
    } else {
      assert path[k + 1] in path;
      MissedAlong(g, path, m, k + 1);
      var (found, after) := Visit(g, todo[0], seen + {n}, map[]);
      assert forall c <- todo[1..] :: c in todo;
      VisitAllKeeps(g, todo[1..], seen + {n}, after, resolved + found);
    }
  }

  /** The same includes, each file listing its own in any order. */
  ghost predicate Reordered(g: Graph, h: Graph) {
    Closed(g) && Closed(h) && g.Keys == h.Keys && forall n <- g :: multiset(g[n]) == multiset(h[n])
  }

  lemma SameIncludes(g: Graph, h: Graph)
    requires Reordered(g, h)
    ensures forall n <- g, m: File :: m in g[n] <==> m in h[n]
    ensures forall a, b :: Reaches(g, a, b) <==> Reaches(h, a, b)
  {
    forall n <- g, m: File ensures m in g[n] <==> m in h[n] {
      assert m in g[n] <==> m in multiset(g[n]);
    }
    forall path: seq<File> ensures IsPath(g, path) <==> IsPath(h, path) {
    }
  }

  lemma ReorderedBypassable(g: Graph, h: Graph)
    requires Reordered(g, h) && Bypassable(g)
    ensures Bypassable(h)
  {
    SameIncludes(g, h);
    forall path: seq<File>, m: File | IsSimple(h, path) && m != Last(path) && Reaches(h, Last(path), m) ensures Continues(h, path, m) {
      assert IsSimple(g, path) && Continues(g, path, m);
    }
  }

  function ToFront(s: seq<File>, j: nat): (r: seq<File>)
    requires j < |s|
    ensures r != [] && r[0] == s[j] && multiset(r) == multiset(s)
  {
    assert s == s[..j] + [s[j]] + s[j + 1..];
    [s[j]] + s[..j] + s[j + 1..]
  }

  /** One file lists another of its includes first. */
  lemma ListFirst(g: Graph, n: File, c: File) returns (h: Graph)
    requires Closed(g) && n in g && c in g[n]
    ensures Reordered(g, h) && h[n] != [] && h[n][0] == c && forall k <- g :: k != n ==> h[k] == g[k]
  {
    var j :| 0 <= j < |g[n]| && g[n][j] == c;
    var listed := ToFront(g[n], j);
    assert forall m <- listed :: m in multiset(g[n]);
    h := g[n := listed];
  }

  /** Any path can be made the one that is followed first. */
  lemma {:induction false} ListAlong(g: Graph, path: seq<File>) returns (h: Graph)
    requires Closed(g) && IsSimple(g, path)
    ensures Reordered(g, h) && ListsFirst(h, path)
    decreases |path|
  {
    if |path| == 1 {
      h := g;
    } else {
      var rest := path[1..];
      assert IsSimple(g, rest) && path[0 + 1] in g[path[0]];
      var tail := ListAlong(g, rest);
      SameIncludes(g, tail);
      h := ListFirst(tail, path[0], path[1]);
      forall i | 0 <= i < |path| - 1 ensures path[i] in h && h[path[i]] != [] && h[path[i]][0] == path[i + 1] {
        if i > 0 {
          assert path[i] == rest[i - 1] && path[i + 1] == rest[i - 1 + 1] && path[i] != path[0];
        }
      }
    }
  }
}
