/** Forests given by parent pointers. Parents may form cycles: a node on or below a cycle has
    no path from a root. */
module Forest {
  import opened Basics

  type Parents = seq<Option<nat>>

  predicate IsPath(f: Parents, p: seq<nat>)
  {
    && p != []
    && (forall k :: 0 <= k < |p| ==> p[k] < |f|)
    && f[p[0]].None?
    && (forall k {:trigger p[k]} :: 0 < k < |p| ==> f[p[k]] == Some(p[k - 1]))
  }

  predicate PathTo(f: Parents, p: seq<nat>, x: nat)
  {
    IsPath(f, p) && p[|p| - 1] == x
  }

  ghost predicate Rooted(f: Parents, x: nat)
  {
    exists p :: PathTo(f, p, x)
  }

  /** s is on the path from a root to x. */
  ghost predicate Below(f: Parents, s: nat, x: nat)
  {
    exists p :: PathTo(f, p, x) && s in p
  }

  ghost function Subtree(f: Parents, s: nat): set<nat>
  {
    set x: nat | x < |f| && Below(f, s, x)
  }

  ghost function RootedNodes(f: Parents): set<nat>
  {
    set x: nat | x < |f| && Rooted(f, x)
  }

  lemma {:induction false} PrefixPath(f: Parents, p: seq<nat>, k: nat)
    requires IsPath(f, p) && k < |p|
    ensures PathTo(f, p[..k + 1], p[k])
  {
  }

  /** Where a node stands on a path: after its parent, or first. */
  lemma {:induction false} Position(f: Parents, p: seq<nat>, d: nat) returns (i: nat)
    requires IsPath(f, p) && d in p
    ensures i < |p| && p[i] == d
    ensures if i == 0 then f[d].None? else f[d] == Some(p[i - 1])
  {
    i :| i < |p| && p[i] == d;
  }

  /** A path ends with a root alone, or with a step from its parent. */
  lemma {:induction false} LastStep(f: Parents, p: seq<nat>, x: nat)
    requires PathTo(f, p, x)
    ensures p != [] && x < |f| && p[|p| - 1] == x
    ensures if |p| == 1 then f[x].None? else f[x] == Some(p[|p| - 2]) && PathTo(f, p[..|p| - 1], p[|p| - 2])
  {
  }

  lemma {:induction false} PathUnique(f: Parents, p: seq<nat>, q: seq<nat>, x: nat)
    requires PathTo(f, p, x) && PathTo(f, q, x)
    ensures p == q
  {
    hide PathTo;
    LastStep(f, p, x);
    LastStep(f, q, x);
    if |p| > 1 {
      PathUnique(f, p[..|p| - 1], q[..|q| - 1], p[|p| - 2]);
      assert p == p[..|p| - 1] + [x];
      assert q == q[..|q| - 1] + [x];
    }
  }

  lemma {:induction false} PathDistinct(f: Parents, p: seq<nat>, i: nat, j: nat)
    requires IsPath(f, p) && i < |p| && j < |p| && p[i] == p[j]
    ensures i == j
  {
    PrefixPath(f, p, i);
    PrefixPath(f, p, j);
    PathUnique(f, p[..i + 1], p[..j + 1], p[i]);
  }

  lemma {:induction false} PathLength(f: Parents, p: seq<nat>, nodes: set<nat>)
    requires IsPath(f, p)
    requires forall k :: 0 <= k < |p| ==> p[k] in nodes
    ensures |p| <= |nodes|
  {
    var n := |p| - 1;
    if n > 0 {
      PrefixPath(f, p, n - 1);
      forall k | 0 <= k < n
        ensures p[..n][k] in nodes - {p[n]}
      {
        if p[k] == p[n] {
          PathDistinct(f, p, k, n);
        }
      }
      PathLength(f, p[..n], nodes - {p[n]});
    }
  }

  /** A child on the path extends it; a path never runs longer than the forest. */
  lemma {:induction false} ExtendPath(f: Parents, p: seq<nat>, s: nat, d: nat)
    requires PathTo(f, p, s) && d < |f| && f[d] == Some(s)
    ensures PathTo(f, p + [d], d) && |p| < |f|
  {
    var q := p + [d];
    assert IsPath(f, q);
    PathLength(f, q, Nodes(|f|));
  }

  function Nodes(n: nat): (r: set<nat>)
    ensures |r| == n && forall x: nat :: x in r <==> x < n
  {
    if n == 0 then {} else Nodes(n - 1) + {n - 1}
  }

  /** The subtree of a node is the node and the subtrees of its children. */
  lemma {:induction false} SubtreeSplit(f: Parents, s: nat, x: nat)
    requires s < |f| && Rooted(f, s)
    ensures x in Subtree(f, s) <==> x == s || exists d: nat :: d < |f| && f[d] == Some(s) && x in Subtree(f, d)
  {
    if x in Subtree(f, s) && x != s {
      var p :| PathTo(f, p, x) && s in p;
      var i :| 0 <= i < |p| && p[i] == s;
      assert p[i + 1] in p;
      assert x in Subtree(f, p[i + 1]);
    }
    if d: nat :| d < |f| && f[d] == Some(s) && x in Subtree(f, d) {
      var p :| PathTo(f, p, x) && d in p;
      var i := Position(f, p, d);
      assert p[i - 1] in p;
      assert x in Subtree(f, s);
    }
    if x == s {
      var p :| PathTo(f, p, s);
      assert s in p;
      assert Below(f, s, s);
    }
  }

  lemma {:induction false} SiblingsDisjoint(f: Parents, s: Option<nat>, d: nat, e: nat)
    requires d < |f| && e < |f| && f[d] == s && f[e] == s && d != e
    ensures Subtree(f, d) !! Subtree(f, e)
  {
    hide IsPath;
    forall x | x in Subtree(f, d) && x in Subtree(f, e)
      ensures false
    {
      var p :| PathTo(f, p, x) && d in p;
      var q :| PathTo(f, q, x) && e in q;
      PathUnique(f, p, q, x);
      var i := Position(f, p, d);
      var j := Position(f, p, e);
      if s.Some? {
        PathDistinct(f, p, i - 1, j - 1);
      }
    }
  }

  lemma {:induction false} NotBelowChild(f: Parents, s: nat, d: nat)
    requires d < |f| && f[d] == Some(s)
    ensures s !in Subtree(f, d)
  {
    if s in Subtree(f, d) {
      var p :| PathTo(f, p, s) && d in p;
      var i := Position(f, p, d);
      PathDistinct(f, p, i - 1, |p| - 1);
    }
  }

  lemma {:induction false} RootIsRooted(f: Parents, r: nat)
    requires r < |f| && f[r].None?
    ensures PathTo(f, [r], r) && Rooted(f, r)
  {
    assert PathTo(f, [r], r);
  }
}
