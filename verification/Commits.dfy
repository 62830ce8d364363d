/** Commit graphs: parents are older than children, and history is only ever added to. */
module Commits {

  /** The parents of commit c are graph[c]. */
  type Graph = seq<set<nat>>

  predicate WellFormed(g: Graph)
  {
    forall c :: 0 <= c < |g| ==> forall p :: p in g[c] ==> p < c
  }

  /** The commits that c contains, itself included. */
  function Reach(g: Graph, c: nat): set<nat>
    requires WellFormed(g) && c < |g|
    decreases c
  {
    {c} + set p, a | p in g[c] && a in Reach(g, p) :: a
  }

  lemma {:induction false} ReachIsOlder(g: Graph, a: nat, c: nat)
    requires WellFormed(g) && c < |g| && a in Reach(g, c)
    ensures a <= c
    decreases c
  {
    if a != c {
      var p :| p in g[c] && a in Reach(g, p);
      ReachIsOlder(g, a, p);
    }
  }

  lemma {:induction false} ReachTrans(g: Graph, a: nat, b: nat, c: nat)
    requires WellFormed(g) && b < |g| && c < |g|
    requires a in Reach(g, b) && b in Reach(g, c)
    ensures a in Reach(g, c)
    decreases c
  {
    if b != c {
      var p :| p in g[c] && b in Reach(g, p);
      ReachTrans(g, a, b, p);
    }
  }

  /** New commits do not change what old ones contain. */
  lemma {:induction false} ReachGrows(g: Graph, g': Graph, c: nat)
    requires WellFormed(g) && WellFormed(g') && g <= g' && c < |g|
    ensures Reach(g', c) == Reach(g, c)
    decreases c
  {
    assert g'[c] == g[c];
    forall p | p in g[c]
      ensures Reach(g', p) == Reach(g, p)
    {
      ReachGrows(g, g', p);
    }
    forall a
      ensures a in Reach(g', c) <==> a in Reach(g, c)
    {
      if a in Reach(g', c) && a != c {
        var p :| p in g'[c] && a in Reach(g', p);
        assert a in Reach(g, p);
      }
      if a in Reach(g, c) && a != c {
        var p :| p in g[c] && a in Reach(g, p);
        assert a in Reach(g', p);
      }
    }
  }

  lemma ReachAcross(g: Graph, g': Graph, a: nat, b: nat, c: nat)
    requires WellFormed(g) && WellFormed(g') && g <= g' && b < |g| && c < |g'|
    requires a in Reach(g, b) && b in Reach(g', c)
    ensures a in Reach(g', c)
  {
    ReachGrows(g, g', b);
    ReachTrans(g', a, b, c);
  }

  /** A branch has commits that the base does not contain exactly when its tip is not contained in the base. */
  lemma AheadMeansNotContained(g: Graph, tip: nat, base: nat)
    requires WellFormed(g) && tip < |g| && base < |g|
    ensures Reach(g, tip) - Reach(g, base) == {} <==> tip in Reach(g, base)
  {
    if tip in Reach(g, base) {
      forall a | a in Reach(g, tip)
        ensures a in Reach(g, base)
      {
        ReachTrans(g, a, tip, base);
      }
    } else {
      assert tip in Reach(g, tip) - Reach(g, base);
    }
  }

  /** A new commit on top of others contains all that they contain. */
  lemma NewCommit(g: Graph, parents: set<nat>)
    requires WellFormed(g) && forall p :: p in parents ==> p < |g|
    ensures WellFormed(g + [parents]) && g <= g + [parents]
    ensures forall p :: p in parents ==> p in Reach(g + [parents], |g|)
  {
    var g' := g + [parents];
    assert WellFormed(g');
    assert g'[|g|] == parents;
    forall p | p in parents
      ensures p in Reach(g', |g|)
    {
      assert p in Reach(g', p);
    }
  }
}
