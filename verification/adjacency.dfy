/**
 The neighbour index of src/index.js: a directed relation on node positions
 holding every self-pair and every (source, target) pair of the links.
 */
module Adjacency {
  import opened Graph

  /** Some link goes from `a` to `b`. */
  predicate Linked(links: seq<Link>, a: nat, b: nat)
  {
    exists j :: 0 <= j < |links| && links[j].source == a && links[j].target == b
  }

  /** The relation the index is meant to hold, stated pair by pair. */
  predicate Adjacent(nodeCount: nat, links: seq<Link>, a: nat, b: nat)
  {
    (a == b && a < nodeCount) || Linked(links, a, b)
  }

  /** The index as a set of ordered pairs. */
  function AdjacencyOf(nodeCount: nat, links: seq<Link>): set<(nat, nat)>
  {
    (set i: nat | i < nodeCount :: (i, i)) + (set l | l in links :: (l.source, l.target))
  }

  /** `neighboring(a, b)`: the pair (a, b) is in the index. */
  predicate Neighboring(index: set<(nat, nat)>, a: nat, b: nat)
  {
    (a, b) in index
  }

  /** The index holds exactly the adjacent pairs. */
  lemma NeighboringIff(nodeCount: nat, links: seq<Link>, a: nat, b: nat)
    ensures Neighboring(AdjacencyOf(nodeCount, links), a, b) <==> Adjacent(nodeCount, links, a, b)
  {
  }

  /** The relation is not symmetric: one link 0 -> 1 between two nodes gives (0, 1) but not (1, 0). */
  lemma NotSymmetric()
    ensures Neighboring(AdjacencyOf(2, [Link(0, 1, 1.0)]), 0, 1)
    ensures !Neighboring(AdjacencyOf(2, [Link(0, 1, 1.0)]), 1, 0)
  {
  }

  /**
   Builds the index the way `linkedByIndex` is filled: first every self-pair
   of a node position, then the pair of every link.
   */
  method BuildAdjacency(nodeCount: nat, links: seq<Link>) returns (index: set<(nat, nat)>)
    ensures forall a: nat, b: nat :: (a, b) in index <==> Adjacent(nodeCount, links, a, b)
    ensures index == AdjacencyOf(nodeCount, links)
  {
    index := {};
    var i := 0;
    while i < nodeCount
      invariant i <= nodeCount
      invariant index == set k: nat | k < i :: (k, k)
    {
      index := index + {(i, i)};
      i := i + 1;
    }
    var j := 0;
    while j < |links|
      invariant j <= |links|
      invariant index == (set k: nat | k < nodeCount :: (k, k)) + (set l | l in links[..j] :: (l.source, l.target))
    {
      assert links[..j + 1] == links[..j] + [links[j]];
      index := index + {(links[j].source, links[j].target)};
      j := j + 1;
    }
    assert links[..j] == links;
    forall a: nat, b: nat
      ensures (a, b) in index <==> Adjacent(nodeCount, links, a, b)
    {
      NeighboringIff(nodeCount, links, a, b);
    }
  }
}
