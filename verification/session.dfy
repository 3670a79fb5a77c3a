/**
 * The items the resolution pipeline reports on. Ids and descriptions are
 * opaque strings; only the members the diagnostics read are kept.
 */
module Session {
  import opened Seqs

  /** A disposal-tracked scope; `activeChildren` lists, in iteration order, the
      child scopes not yet disposed when this scope completed. */
  datatype LifetimeScope = LifetimeScope(id: string, description: string, activeChildren: seq<LifetimeScope>)

  /** One node of the dependency tree built while satisfying a resolve operation:
      the component's description and its dependency lookups in resolution order. */
  datatype InstanceLookup = InstanceLookup(component: string, dependencyLookups: seq<InstanceLookup>)

  /** A resolve operation with the display name of the method that started it. */
  datatype ResolveOperation = ResolveOperation(id: string, callingMethod: string, rootInstanceLookup: InstanceLookup)

  predicate IsLeaf(l: InstanceLookup) {
    |l.dependencyLookups| == 0
  }

  /** Every node of the tree rooted at `l`, parents before children, siblings in order. */
  function PreOrder(l: InstanceLookup): (r: seq<InstanceLookup>)
    decreases l
    ensures |r| >= 1 && r[0] == l
  {
    [l] + PreOrderForest(l.dependencyLookups)
  }

  function PreOrderForest(ls: seq<InstanceLookup>): seq<InstanceLookup>
    decreases ls
  {
    if |ls| == 0 then [] else PreOrder(ls[0]) + PreOrderForest(ls[1..])
  }

  function ComponentOf(l: InstanceLookup): string {
    l.component
  }

  function Components(ls: seq<InstanceLookup>): seq<string> {
    Map(ComponentOf, ls)
  }

  function NonLeaves(ls: seq<InstanceLookup>): seq<InstanceLookup> {
    Filter((l: InstanceLookup) => !IsLeaf(l), ls)
  }

  /** The number of debug lines a node contributes to a dependency listing on
      its own: a header and one line per dependency, or nothing for a leaf. */
  function LineCost(l: InstanceLookup): nat {
    if IsLeaf(l) then 0 else 1 + |l.dependencyLookups|
  }
}
