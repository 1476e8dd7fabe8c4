/** Runs of the cache on its bus. */
module DcacheSystem {
  import opened Dcache
  import opened DcacheBus

  /** Cache, bus and cycle number. */
  datatype Node = Node(s: State, b: Bus, now: nat)

  function NextNode(g: Geometry, y: Node, i: Input): Node
    requires g.Ok()
  { Node(Step(g, y.s, i), NextBus(g, y.b, y.s, i, y.now), y.now + 1) }

  function Run(g: Geometry, y: Node, ins: seq<Input>): Node
    requires g.Ok()
    decreases |ins|
  { if ins == [] then y else NextNode(g, Run(g, y, ins[..|ins| - 1]), ins[|ins| - 1]) }

  /** Every input meets the bus promises in the state in which it arrives. */
  predicate RunOk(g: Geometry, y: Node, ins: seq<Input>)
    requires g.Ok()
    decreases |ins|
  {
    ins == [] ||
    (var z := Run(g, y, ins[..|ins| - 1]);
     RunOk(g, y, ins[..|ins| - 1]) && EnvOk(g, z.b, z.s, ins[|ins| - 1]))
  }

  ghost predicate Starts(y: Node) { Reset(y.s) && y.b.q == [] && !y.b.granted }

  lemma RunExtends(g: Geometry, y: Node, ins: seq<Input>, i: Input)
    requires g.Ok()
    ensures Run(g, y, ins + [i]) == NextNode(g, Run(g, y, ins), i)
    ensures RunOk(g, y, ins + [i]) <==> RunOk(g, y, ins) && EnvOk(g, Run(g, y, ins).b, Run(g, y, ins).s, i)
  {
    assert (ins + [i])[..|ins|] == ins;
  }
}
