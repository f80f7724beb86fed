/** The parent links of issues, and the recursive query that keeps them free of cycles. */
module Parents {
  import opened Prelude

  type Links = map<string, string>

  /** The issue reached from `x` by following `k` parent links, if there are that many. */
  function Ancestor(up: Links, x: string, k: nat): Option<string>
    decreases k
  {
    if k == 0 then Some(x)
    else if x in up then Ancestor(up, up[x], k - 1)
    else None
  }

  ghost predicate Grounded(up: Links, x: string) {
    exists k: nat :: Ancestor(up, x, k).None?
  }

  /** No issue is above itself: every upward walk ends. */
  ghost predicate Forest(up: Links) {
    forall x :: Grounded(up, x)
  }

  /** `x` is a proper descendant of `root`. */
  ghost predicate Below(up: Links, root: string, x: string) {
    exists k: nat :: k > 0 && Ancestor(up, x, k) == Some(root)
  }

  lemma {:induction false} AncestorPlus(up: Links, x: string, j: nat, k: nat)
    requires Ancestor(up, x, j).Some?
    ensures Ancestor(up, x, j + k) == Ancestor(up, Ancestor(up, x, j).value, k)
    decreases j
  {
    if j > 0 {
      AncestorPlus(up, up[x], j - 1, k);
    }
  }

  /** A walk that comes back to its start never ends. */
  lemma {:induction false} LoopNeverEnds(up: Links, x: string, period: nat, k: nat)
    requires period > 0 && Ancestor(up, x, period) == Some(x)
    ensures Ancestor(up, x, k).Some?
    decreases k
  {
    if k >= period {
      LoopNeverEnds(up, x, period, k - period);
      AncestorPlus(up, x, period, k - period);
    } else if Ancestor(up, x, k).None? {
      EndIsFinal(up, x, k, period);
    }
  }

  lemma {:induction false} EndIsFinal(up: Links, x: string, j: nat, k: nat)
    requires j <= k && Ancestor(up, x, j).None?
    ensures Ancestor(up, x, k).None?
    decreases k
  {
    if x in up {
      EndIsFinal(up, up[x], j - 1, k - 1);
    }
  }

  lemma NoLoop(up: Links, x: string, period: nat)
    requires Forest(up) && period > 0
    ensures Ancestor(up, x, period) != Some(x)
  {
    if Ancestor(up, x, period) == Some(x) {
      assert Grounded(up, x);
      var k: nat :| Ancestor(up, x, k).None?;
      LoopNeverEnds(up, x, period, k);
    }
  }

  lemma BelowIsInherited(up: Links, root: string, x: string)
    requires x in up && Below(up, root, up[x])
    ensures Below(up, root, x)
  {
    var k: nat :| k > 0 && Ancestor(up, up[x], k) == Some(root);
    assert Ancestor(up, x, k + 1) == Some(root);
  }

  /** A walk that stays clear of `child` does not notice that `child` was re-linked. */
  lemma {:induction false} WalkUnchanged(up: Links, up': Links, child: string, x: string, k: nat)
    requires forall y :: y != child ==> (y in up <==> y in up') && (y in up ==> up[y] == up'[y])
    requires x != child && !Below(up, child, x)
    ensures Ancestor(up', x, k) == Ancestor(up, x, k)
    decreases k
  {
    if k > 0 && x in up {
      assert Ancestor(up, x, 1) == Some(up[x]);
      if Below(up, child, up[x]) {
        BelowIsInherited(up, child, x);
      }
      WalkUnchanged(up, up', child, up[x], k - 1);
    }
  }

  lemma {:induction false} WalkStillEnds(up: Links, child: string, parent: string, x: string, k: nat)
    requires Ancestor(up, x, k).None?
    requires Grounded(up[child := parent], parent)
    ensures Grounded(up[child := parent], x)
    decreases k
  {
    var up' := up[child := parent];
    if x == child {
      var j: nat :| Ancestor(up', parent, j).None?;
      assert Ancestor(up', x, j + 1).None?;
    } else if x in up {
      WalkStillEnds(up, child, parent, up[x], k - 1);
      var j: nat :| Ancestor(up', up[x], j).None?;
      assert Ancestor(up', x, j + 1).None?;
    } else {
      assert Ancestor(up', x, 1).None?;
    }
  }

  /** Linking `child` under `parent` keeps the forest exactly when the parent is neither the child nor below it. */
  lemma RelinkKeepsForest(up: Links, child: string, parent: string)
    requires Forest(up)
    ensures Forest(up[child := parent]) <==> parent != child && !Below(up, child, parent)
  {
    var up' := up[child := parent];
    if parent == child {
      assert Ancestor(up', child, 1) == Ancestor(up', child, 0) == Some(child);
      if Forest(up') {
        NoLoop(up', child, 1);
      }
    } else if Below(up, child, parent) {
      var k: nat :| k > 0 && Ancestor(up, parent, k) == Some(child);
      var m := FirstVisit(up, child, parent, k);
      WalkUntil(up, up', child, parent, m);
      assert Ancestor(up', child, m + 1) == Ancestor(up', parent, m) == Some(child);
      if Forest(up') {
        NoLoop(up', child, m + 1);
      }
    } else {
      assert Grounded(up, parent);
      var k: nat :| Ancestor(up, parent, k).None?;
      WalkUnchanged(up, up', child, parent, k);
      forall x ensures Grounded(up', x) {
        assert Grounded(up, x);
        var j: nat :| Ancestor(up, x, j).None?;
        WalkStillEnds(up, child, parent, x, j);
      }
    }
  }

  /** The first step of the walk from `x` that is at `child`. */
  lemma {:induction false} FirstVisit(up: Links, child: string, x: string, k: nat) returns (m: nat)
    requires Ancestor(up, x, k) == Some(child)
    ensures m <= k && Ancestor(up, x, m) == Some(child)
    ensures forall j: nat :: j < m ==> Ancestor(up, x, j) != Some(child)
    decreases k
  {
    if x == child {
      m := 0;
    } else {
      var rest := FirstVisit(up, child, up[x], k - 1);
      m := rest + 1;
      forall j: nat | j < m ensures Ancestor(up, x, j) != Some(child) {
        if j > 0 {
          assert Ancestor(up, x, j) == Ancestor(up, up[x], j - 1);
        }
      }
    }
  }

  lemma {:induction false} WalkUntil(up: Links, up': Links, child: string, x: string, m: nat)
    requires forall y :: y != child ==> (y in up <==> y in up') && (y in up ==> up[y] == up'[y])
    requires forall j: nat :: j < m ==> Ancestor(up, x, j) != Some(child)
    ensures Ancestor(up', x, m) == Ancestor(up, x, m)
    decreases m
  {
    if m > 0 {
      assert Ancestor(up, x, 0) != Some(child);
      if x in up {
        forall j: nat | j < m - 1 ensures Ancestor(up, up[x], j) != Some(child) {
          assert Ancestor(up, x, j + 1) != Some(child);
        }
        WalkUntil(up, up', child, up[x], m - 1);
      }
    }
  }

  lemma UnlinkKeepsForest(up: Links, child: string)
    requires Forest(up)
    ensures Forest(up - {child})
  {
    var up' := up - {child};
    forall x ensures Grounded(up', x) {
      assert Grounded(up, x);
      var k: nat :| Ancestor(up, x, k).None?;
      EndsWithFewerLinks(up, up', x, k);
    }
  }

  lemma {:induction false} EndsWithFewerLinks(up: Links, up': Links, x: string, k: nat)
    requires forall y :: y in up' ==> y in up && up'[y] == up[y]
    requires Ancestor(up, x, k).None?
    ensures Ancestor(up', x, k).None?
    decreases k
  {
    if x in up' {
      EndsWithFewerLinks(up, up', up'[x], k - 1);
    } else {
      EndIsFinal(up', x, 1, k);
    }
  }

  /** The vertices found by the query after `depth` levels. */
  ghost predicate Within(up: Links, root: string, x: string, depth: nat) {
    exists k: nat :: 0 < k <= depth && Ancestor(up, x, k) == Some(root)
  }

  ghost predicate LevelIs(up: Links, root: string, level: set<string>, depth: nat) {
    forall x :: x in level <==> Ancestor(up, x, depth) == Some(root)
  }

  lemma WithinNext(up: Links, root: string, x: string, depth: nat)
    ensures Within(up, root, x, depth + 1) <==> Within(up, root, x, depth) || Ancestor(up, x, depth + 1) == Some(root)
  {
  }

  lemma LevelIsNew(up: Links, root: string, x: string, depth: nat)
    requires !Below(up, root, root) && Ancestor(up, x, depth + 1) == Some(root)
    ensures !Within(up, root, x, depth)
  {
    if Within(up, root, x, depth) {
      var k: nat :| 0 < k <= depth && Ancestor(up, x, k) == Some(root);
      AncestorPlus(up, x, k, depth + 1 - k);
    }
  }

  lemma EmptyLevelEndsSearch(up: Links, root: string, x: string, depth: nat)
    requires LevelIs(up, root, {}, depth) && Below(up, root, x)
    ensures Within(up, root, x, depth)
  {
    var k: nat :| k > 0 && Ancestor(up, x, k) == Some(root);
    if k > depth {
      // The vertex `depth` links below the root on this walk would be in the empty level.
      SomeEarlier(up, x, k, k - depth);
      AncestorPlus(up, x, k - depth, depth);
    }
  }

  lemma SomeEarlier(up: Links, x: string, k: nat, j: nat)
    requires j <= k && Ancestor(up, x, k).Some?
    ensures Ancestor(up, x, j).Some?
  {
    if Ancestor(up, x, j).None? {
      EndIsFinal(up, x, j, k);
    }
  }

  /** The children of one level are the next level. */
  lemma ChildrenAreNext(up: Links, root: string, level: set<string>, depth: nat)
    requires LevelIs(up, root, level, depth)
    ensures LevelIs(up, root, (set x | x in up && up[x] in level), depth + 1)
  {
    var next := set x | x in up && up[x] in level;
    forall x ensures x in next <==> Ancestor(up, x, depth + 1) == Some(root) {
    }
  }

  /**
   The recursive query: one level of children at a time, until a level is empty. It keeps
   duplicates, so it ends only if the root is not below itself (`QueryEndsExactly`).
   */
  method WouldCreateCycle(up: Links, root: string, parent: string) returns (cycle: bool)
    requires !Below(up, root, root)
    ensures cycle <==> Below(up, root, parent)
  {
    var level := {root};
    var found: set<string> := {};
    ghost var depth: nat := 0;
    while level != {}
      invariant LevelIs(up, root, level, depth)
      invariant forall x :: x in found <==> Within(up, root, x, depth)
      invariant found <= up.Keys
      decreases up.Keys - found, level
    {
      ghost var before := found;
      ChildrenAreNext(up, root, level, depth);
      level := set x | x in up && up[x] in level;
      forall x | x in level ensures x !in found {
        LevelIsNew(up, root, x, depth);
      }
      forall x ensures x in found + level <==> Within(up, root, x, depth + 1) {
        WithinNext(up, root, x, depth);
      }
      found := found + level;
      depth := depth + 1;
      if level != {} {
        var x :| x in level;
        assert x in up.Keys - before && x !in up.Keys - found;
      } else {
        assert found == before;
      }
    }
    cycle := parent in found;
    if Below(up, root, parent) {
      EmptyLevelEndsSearch(up, root, parent, depth);
    }
  }

  // ---- When the query ends

  ghost predicate Ends(up: Links, root: string) {
    exists depth: nat :: depth > 0 && LevelIs(up, root, {}, depth)
  }

  /** A root below itself is found again on every multiple of the length of its loop. */
  lemma {:induction false} LoopRepeats(up: Links, root: string, period: nat, times: nat)
    requires Ancestor(up, root, period) == Some(root)
    ensures Ancestor(up, root, times * period) == Some(root)
  {
    if times > 0 {
      LoopRepeats(up, root, period, times - 1);
      assert times * period == (times - 1) * period + period;
      AncestorPlus(up, root, (times - 1) * period, period);
    }
  }

  lemma NoLevelIsEmpty(up: Links, root: string, period: nat, depth: nat)
    requires period > 0 && Ancestor(up, root, period) == Some(root)
    ensures exists x :: Ancestor(up, x, depth) == Some(root)
  {
    var rest := depth * period - depth;
    assert rest >= 0 by {
      assert depth * period >= depth * 1;
    }
    LoopRepeats(up, root, period, depth);
    SomeEarlier(up, root, depth * period, rest);
    AncestorPlus(up, root, rest, depth);
    assert Ancestor(up, Ancestor(up, root, rest).value, depth) == Some(root);
  }

  /** Each level of a root that is not below itself is new, and there are only so many vertices. */
  lemma {:induction false} LevelsRunOut(up: Links, root: string, level: set<string>, found: set<string>, depth: nat)
    requires !Below(up, root, root) && LevelIs(up, root, level, depth) && depth > 0
    requires found <= up.Keys && level <= found && forall x :: x in found <==> Within(up, root, x, depth)
    ensures Ends(up, root)
    decreases up.Keys - found, level
  {
    if level != {} {
      var next := set x | x in up && up[x] in level;
      ChildrenAreNext(up, root, level, depth);
      forall x | x in next ensures x !in found {
        LevelIsNew(up, root, x, depth);
      }
      forall x ensures x in found + next <==> Within(up, root, x, depth + 1) {
        WithinNext(up, root, x, depth);
      }
      if next == {} {
        assert LevelIs(up, root, {}, depth + 1);
      } else {
        var x :| x in next;
        assert x in up.Keys - found && x !in up.Keys - (found + next);
        LevelsRunOut(up, root, next, found + next, depth + 1);
      }
    }
  }

  /** The query ends, with an empty level, exactly when the root is not below itself. */
  lemma QueryEndsExactly(up: Links, root: string)
    ensures Ends(up, root) <==> !Below(up, root, root)
  {
    if Below(up, root, root) {
      var period: nat :| period > 0 && Ancestor(up, root, period) == Some(root);
      if Ends(up, root) {
        var depth: nat :| depth > 0 && LevelIs(up, root, {}, depth);
        NoLevelIsEmpty(up, root, period, depth);
      }
    } else {
      var level := set x | x in up && up[x] == root;
      forall x ensures x in level <==> Ancestor(up, x, 1) == Some(root) {
        if x in up {
          assert Ancestor(up, x, 1) == Ancestor(up, up[x], 0);
        }
      }
      forall x ensures x in level <==> Within(up, root, x, 1) {
      }
      LevelsRunOut(up, root, level, level, 1);
    }
  }

  lemma ForestHasNoLoop(up: Links, root: string)
    requires Forest(up)
    ensures !Below(up, root, root)
  {
    if Below(up, root, root) {
      var k: nat :| k > 0 && Ancestor(up, root, k) == Some(root);
      NoLoop(up, root, k);
    }
  }

  // ---- Two links whose checks both saw the links before either

  lemma WalkMeetsChild(up: Links, a: string, pa: string, x: string) returns (m: nat)
    requires x == a || Below(up, a, x)
    ensures Ancestor(up[a := pa], x, m) == Some(a)
  {
    m := FirstStep(up, a, x);
    WalkUntil(up, up[a := pa], a, x, m);
  }

  /** Once `a` hangs under `pa`, whatever is at or below `a` is below `b` if `pa` is at or below `b`. */
  lemma BothMeet(up: Links, a: string, pa: string, b: string, pb: string)
    requires pa != a && !Below(up, a, pa)
    requires (pb == a || Below(up, a, pb)) && (pa == b || Below(up, b, pa))
    ensures Below(up[a := pa], b, pb)
  {
    var up' := up[a := pa];
    var m := WalkMeetsChild(up, a, pa, pb);
    var n: nat := 0;
    if pa != b {
      n :| n > 0 && Ancestor(up, pa, n) == Some(b);
    }
    WalkUnchanged(up, up', a, pa, n);
    assert Ancestor(up', a, n + 1) == Ancestor(up', pa, n) == Some(b);
    AncestorPlus(up', pb, m, n + 1);
  }

  /** If the walk from `pb` met `b` without the new link at `a`, it did so before. */
  lemma OneMisses(up: Links, a: string, pa: string, b: string, pb: string)
    requires a != b && pa != a && !Below(up, a, pa) && pb != b && !Below(up, b, pb)
    requires Below(up[a := pa], b, pb)
    ensures (pb == a || Below(up, a, pb)) && (pa == b || Below(up, b, pa))
  {
    var up' := up[a := pa];
    var k: nat :| k > 0 && Ancestor(up', pb, k) == Some(b);
    if pb != a && !Below(up, a, pb) {
      WalkUnchanged(up, up', a, pb, k);
      assert Below(up, b, pb);
    } else {
      var m := FirstStep(up, a, pb);
      WalkUntil(up, up', a, pb, m);
      if k <= m {
        WalkUntil(up, up', a, pb, k);
      }
      AncestorPlus(up', pb, m, k - m);
      assert Ancestor(up', a, k - m) == Ancestor(up', pa, k - m - 1) == Some(b);
      WalkUnchanged(up, up', a, pa, k - m - 1);
      if pa != b {
        assert k - m - 1 > 0;
      }
    }
  }

  lemma FirstStep(up: Links, a: string, x: string) returns (m: nat)
    requires x == a || Below(up, a, x)
    ensures Ancestor(up, x, m) == Some(a) && forall j: nat :: j < m ==> Ancestor(up, x, j) != Some(a)
  {
    if x == a {
      m := 0;
    } else {
      var k: nat :| k > 0 && Ancestor(up, x, k) == Some(a);
      m := FirstVisit(up, a, x, k);
    }
  }

  /** Each of the two parents is at or below the other child. */
  ghost predicate Crossed(up: Links, a: string, pa: string, b: string, pb: string) {
    (pb == a || Below(up, a, pb)) && (pa == b || Below(up, b, pa))
  }

  /** Two links that both passed the check on the same forest keep it exactly when they are not crossed. */
  lemma TwoRelinksKeepForest(up: Links, a: string, pa: string, b: string, pb: string)
    requires Forest(up) && a != b
    requires pa != a && !Below(up, a, pa) && pb != b && !Below(up, b, pb)
    ensures Forest(up[a := pa][b := pb]) <==> !Crossed(up, a, pa, b, pb)
  {
    RelinkKeepsForest(up, a, pa);
    RelinkKeepsForest(up[a := pa], b, pb);
    if Below(up[a := pa], b, pb) {
      OneMisses(up, a, pa, b, pb);
    }
    if Crossed(up, a, pa, b, pb) {
      BothMeet(up, a, pa, b, pb);
    }
  }
}
