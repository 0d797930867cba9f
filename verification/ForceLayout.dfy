/**
  `reconcileSimNodes` of brain-landing/lib/force-layout.ts: the pool of simulation bodies brought
  in line with the nodes on screen, keeping the bodies that are still wanted.
 */
module ForceLayout {
  import opened Collections

  /** One body of the simulation; d3 writes its coordinates and velocity on every tick. */
  class SimNode {
    const id: string
    var x: Option<real>
    var y: Option<real>
    var vx: Option<real>
    var vy: Option<real>

    constructor (id: string, position: Option<(real, real)>)
      ensures this.id == id && vx == None && vy == None
      ensures position.None? ==> x == None && y == None
      ensures position.Some? ==> x == Some(position.value.0) && y == Some(position.value.1)
    {
      this.id := id;
      x := if position.Some? then Some(position.value.0) else None;
      y := if position.Some? then Some(position.value.1) else None;
      vx, vy := None, None;
    }
  }

  datatype PositionedNode = PositionedNode(id: string, position: Option<(real, real)>)

  type Bodies = Dict<string, SimNode>

  /** The map that survives between renders. */
  class Pool {
    var bodies: Bodies

    constructor ()
      ensures bodies == EmptyDict()
    {
      bodies := EmptyDict();
    }
  }

  ghost function Ids(nodes: seq<PositionedNode>): (ids: set<string>)
    ensures forall n :: n in nodes ==> n.id in ids
  {
    if nodes == [] then {}
    else
      var n := |nodes| - 1;
      assert nodes == nodes[..n] + [nodes[n]];
      Ids(nodes[..n]) + {nodes[n].id}
  }

  lemma IdsSnoc(nodes: seq<PositionedNode>, n: PositionedNode)
    ensures Ids(nodes + [n]) == Ids(nodes) + {n.id}
  {
    assert (nodes + [n])[..|nodes|] == nodes;
  }

  /** The position a node is first listed with. */
  ghost function FirstPosition(nodes: seq<PositionedNode>, id: string): Option<(real, real)> {
    if nodes == [] then None
    else if nodes[0].id == id then nodes[0].position
    else FirstPosition(nodes[1..], id)
  }

  lemma {:induction false} FirstPositionSnoc(nodes: seq<PositionedNode>, n: PositionedNode, id: string)
    ensures id in Ids(nodes) ==> FirstPosition(nodes + [n], id) == FirstPosition(nodes, id)
    ensures id !in Ids(nodes) && n.id == id ==> FirstPosition(nodes + [n], id) == n.position
  {
    if nodes == [] {
      assert nodes + [n] == [n];
    } else {
      assert (nodes + [n])[1..] == nodes[1..] + [n];
      IdsCons(nodes);
      FirstPositionSnoc(nodes[1..], n, id);
    }
  }

  lemma {:induction false} IdsCons(nodes: seq<PositionedNode>)
    requires nodes != []
    ensures Ids(nodes) == {nodes[0].id} + Ids(nodes[1..])
  {
    if |nodes| > 1 {
      var n := |nodes| - 1;
      IdsCons(nodes[..n]);
      assert nodes[1..] == nodes[..n][1..] + [nodes[n]];
      IdsSnoc(nodes[..n][1..], nodes[n]);
    }
  }

  /** Every node has a body, no body was replaced, and nothing is touched if nothing is missing. */
  ghost predicate Covers(before: Bodies, bodies: Bodies, ids: set<string>) {
    && bodies.Valid()
    && (forall k :: k in bodies.at <==> k in before.at || k in ids)
    && (forall k :: k in before.at ==> bodies.at[k] == before.at[k])
    && (ids <= before.at.Keys ==> bodies == before)
  }

  ghost predicate Seeded(b: SimNode, id: string, position: Option<(real, real)>)
    reads b
  {
    && b.id == id && b.vx == None && b.vy == None
    && b.x == (if position.Some? then Some(position.value.0) else None)
    && b.y == (if position.Some? then Some(position.value.1) else None)
  }

  /** The bodies that are not in `before` are among the newborn, at their node's position. */
  ghost predicate NewAreSeeded(before: Bodies, bodies: Bodies, nodes: seq<PositionedNode>, born: set<SimNode>)
    reads born
  {
    forall k :: k in bodies.at && k !in before.at ==>
      bodies.at[k] in born && Seeded(bodies.at[k], k, FirstPosition(nodes, k))
  }

  lemma CoversMore(before: Bodies, bodies: Bodies, ids: set<string>, id: string, body: SimNode)
    requires Covers(before, bodies, ids)
    ensures id in bodies.at ==> Covers(before, bodies, ids + {id})
    ensures id !in bodies.at ==> Covers(before, Put(bodies, id, body), ids + {id})
  {
  }

  lemma StillSeeded(before: Bodies, bodies: Bodies, nodes: seq<PositionedNode>, born: set<SimNode>, n: PositionedNode)
    requires Covers(before, bodies, Ids(nodes)) && NewAreSeeded(before, bodies, nodes, born)
    ensures NewAreSeeded(before, bodies, nodes + [n], born)
  {
    forall k | k in bodies.at && k !in before.at
      ensures FirstPosition(nodes + [n], k) == FirstPosition(nodes, k)
    {
      FirstPositionSnoc(nodes, n, k);
    }
  }

  ghost predicate Extends(before: Bodies, bodies: Bodies) {
    forall k :: k in before.at ==> k in bodies.at && bodies.at[k] == before.at[k]
  }

  /** `next` holds the pool's body for each node, in node order. */
  ghost predicate Listed(next: seq<SimNode>, nodes: seq<PositionedNode>, bodies: Bodies) {
    && |next| == |nodes|
    && forall i :: 0 <= i < |nodes| ==> nodes[i].id in bodies.at && next[i] == bodies.at[nodes[i].id]
  }

  lemma ListedMore(next: seq<SimNode>, nodes: seq<PositionedNode>, before: Bodies, bodies: Bodies, n: PositionedNode)
    requires Listed(next, nodes, before) && Extends(before, bodies) && n.id in bodies.at
    ensures Listed(next + [bodies.at[n.id]], nodes + [n], bodies)
  {
  }

  lemma SeededMore(before: Bodies, bodies: Bodies, nodes: seq<PositionedNode>, born: set<SimNode>, body: SimNode)
    requires NewAreSeeded(before, bodies, nodes, born)
    requires Seeded(body, body.id, FirstPosition(nodes, body.id))
    ensures NewAreSeeded(before, Put(bodies, body.id, body), nodes, born + {body})
  {
  }

  /** What finding or creating the body of `n` does to the pool. */
  ghost predicate Adopted(before: Bodies, bodies: Bodies, n: PositionedNode, body: SimNode)
    reads body
  {
    if n.id in before.at then bodies == before && body == before.at[n.id]
    else bodies == Put(before, n.id, body) && Seeded(body, n.id, n.position)
  }

  lemma AdoptedKeeps(start: Bodies, before: Bodies, bodies: Bodies, nodes: seq<PositionedNode>,
                     n: PositionedNode, body: SimNode)
    requires Covers(start, before, Ids(nodes)) && Adopted(before, bodies, n, body)
    ensures Covers(start, bodies, Ids(nodes + [n]))
    ensures Extends(before, bodies) && n.id in bodies.at && bodies.at[n.id] == body
  {
    IdsSnoc(nodes, n);
    CoversMore(start, before, Ids(nodes), n.id, body);
  }

  lemma AdoptedSeeded(start: Bodies, before: Bodies, bodies: Bodies, nodes: seq<PositionedNode>,
                      n: PositionedNode, body: SimNode, born: set<SimNode>)
    requires Covers(start, before, Ids(nodes)) && Adopted(before, bodies, n, body)
    requires NewAreSeeded(start, before, nodes, born)
    ensures NewAreSeeded(start, bodies, nodes + [n], if n.id in before.at then born else born + {body})
  {
    StillSeeded(start, before, nodes, born, n);
    if n.id !in before.at {
      FirstPositionSnoc(nodes, n, n.id);
      SeededMore(start, before, nodes + [n], born, body);
    }
  }

  method AdoptOne(pool: Pool, n: PositionedNode) returns (body: SimNode)
    requires pool.bodies.Valid()
    modifies pool
    ensures Adopted(old(pool.bodies), pool.bodies, n, body)
    ensures n.id !in old(pool.bodies.at) ==> fresh(body)
  {
    if n.id in pool.bodies.at {
      body := pool.bodies.at[n.id];
    } else {
      body := new SimNode(n.id, n.position);
      pool.bodies := Put(pool.bodies, n.id, body);
    }
  }

  /** Where the first loop stands after `nodes`. */
  ghost predicate Reached(start: Bodies, bodies: Bodies, nodes: seq<PositionedNode>, next: seq<SimNode>,
                          born: set<SimNode>)
    reads born
  {
    && Covers(start, bodies, Ids(nodes))
    && NewAreSeeded(start, bodies, nodes, born)
    && Listed(next, nodes, bodies)
  }

  method AdoptNext(pool: Pool, n: PositionedNode, next: seq<SimNode>,
                   ghost start: Bodies, ghost nodes: seq<PositionedNode>, ghost born: set<SimNode>)
    returns (more: seq<SimNode>, ghost now: set<SimNode>)
    requires Reached(start, pool.bodies, nodes, next, born)
    modifies pool
    ensures Reached(start, pool.bodies, nodes + [n], more, now)
    ensures fresh(now - born)
  {
    ghost var before := pool.bodies;
    var body := AdoptOne(pool, n);
    AdoptedKeeps(start, before, pool.bodies, nodes, n, body);
    AdoptedSeeded(start, before, pool.bodies, nodes, n, body, born);
    ListedMore(next, nodes, before, pool.bodies, n);
    now := if n.id in before.at then born else born + {body};
    more := next + [body];
  }

  /** The first loop: find or create a body for each node, in node order. */
  method Adopt(pool: Pool, nodes: seq<PositionedNode>)
    returns (next: seq<SimNode>, seen: set<string>, ghost born: set<SimNode>)
    requires pool.bodies.Valid()
    modifies pool
    ensures Reached(old(pool.bodies), pool.bodies, nodes, next, born) && fresh(born)
    ensures seen == Ids(nodes)
  {
    ghost var start := pool.bodies;
    next, seen, born := [], {}, {};
    for i := 0 to |nodes|
      invariant Reached(start, pool.bodies, nodes[..i], next, born) && fresh(born)
      invariant seen == Ids(nodes[..i])
    {
      TakeNext(nodes, i);
      IdsSnoc(nodes[..i], nodes[i]);
      next, born := AdoptNext(pool, nodes[i], next, start, nodes[..i], born);
      seen := seen + {nodes[i].id};
    }
    assert nodes[..|nodes|] == nodes;
  }

  /** The second loop: evict every body whose node is gone. */
  method Evict(pool: Pool, seen: set<string>)
    requires pool.bodies.Valid()
    modifies pool
    ensures pool.bodies.Valid()
    ensures pool.bodies.at == map k | k in old(pool.bodies.at) && k in seen :: old(pool.bodies.at[k])
    ensures old(pool.bodies.at.Keys) <= seen ==> pool.bodies == old(pool.bodies)
  {
    ghost var start := pool.bodies;
    var keys := pool.bodies.order;
    for i := 0 to |keys|
      invariant Evicted(start, pool.bodies, keys[..i], seen)
    {
      TakeNext(keys, i);
      assert keys[i] in keys;
      EvictedMore(start, pool.bodies, keys[..i], seen, keys[i]);
      if keys[i] !in seen {
        pool.bodies := Remove(pool.bodies, keys[i]);
      }
    }
    assert keys[..|keys|] == keys;
  }

  /** Of the keys visited so far, exactly those not seen are gone. */
  ghost predicate Evicted(start: Bodies, bodies: Bodies, visited: seq<string>, seen: set<string>) {
    && bodies.Valid()
    && (forall k :: k in bodies.at <==> k in start.at && (k in seen || k !in visited))
    && (forall k :: k in bodies.at ==> bodies.at[k] == start.at[k])
    && (start.at.Keys <= seen ==> bodies == start)
  }

  lemma EvictedMore(start: Bodies, bodies: Bodies, visited: seq<string>, seen: set<string>, key: string)
    requires Evicted(start, bodies, visited, seen) && key in start.at
    ensures key in seen ==> Evicted(start, bodies, visited + [key], seen)
    ensures key !in seen ==> Evicted(start, Remove(bodies, key), visited + [key], seen)
  {
    RemoveValid(bodies, key);
    assert forall k :: k in visited + [key] <==> k in visited || k == key;
  }

  /** `reconcileSimNodes`. The bodies themselves are not in the frame, so every survivor keeps its
      position and velocity. */
  method ReconcileSimNodes(pool: Pool, nodes: seq<PositionedNode>) returns (next: seq<SimNode>)
    requires pool.bodies.Valid()
    modifies pool
    ensures pool.bodies.Valid() && pool.bodies.at.Keys == Ids(nodes)
    ensures forall k :: k in old(pool.bodies.at) && k in Ids(nodes) ==> pool.bodies.at[k] == old(pool.bodies.at[k])
    ensures forall k :: k in Ids(nodes) && k !in old(pool.bodies.at) ==>
      fresh(pool.bodies.at[k]) && Seeded(pool.bodies.at[k], k, FirstPosition(nodes, k))
    ensures Listed(next, nodes, pool.bodies)
    ensures old(pool.bodies.at.Keys) == Ids(nodes) ==> pool.bodies == old(pool.bodies)
  {
    var seen;
    ghost var born;
    next, seen, born := Adopt(pool, nodes);
    Evict(pool, seen);
  }

  lemma {:induction false} SameIds(nodes: seq<PositionedNode>, moved: seq<PositionedNode>)
    requires |moved| == |nodes| && forall i :: 0 <= i < |nodes| ==> moved[i].id == nodes[i].id
    ensures Ids(moved) == Ids(nodes)
  {
    if nodes != [] {
      SameIds(nodes[..|nodes| - 1], moved[..|nodes| - 1]);
    }
  }

  /** A second render with the same ids, wherever the simulation has moved the nodes in between,
      creates nothing, evicts nothing and answers with the same bodies: all that the two did is what
      the first did. */
  method RenderTwice(pool: Pool, nodes: seq<PositionedNode>, moved: seq<PositionedNode>)
    returns (first: seq<SimNode>, second: seq<SimNode>)
    requires pool.bodies.Valid()
    requires |moved| == |nodes| && forall i :: 0 <= i < |nodes| ==> moved[i].id == nodes[i].id
    modifies pool
    ensures pool.bodies.Valid() && pool.bodies.at.Keys == Ids(nodes)
    ensures forall k :: k in old(pool.bodies.at) && k in Ids(nodes) ==> pool.bodies.at[k] == old(pool.bodies.at[k])
    ensures forall k :: k in Ids(nodes) && k !in old(pool.bodies.at) ==>
      fresh(pool.bodies.at[k]) && Seeded(pool.bodies.at[k], k, FirstPosition(nodes, k))
    ensures Listed(first, nodes, pool.bodies) && Listed(second, moved, pool.bodies)
    ensures first == second
  {
    first := ReconcileSimNodes(pool, nodes);
    SameIds(nodes, moved);
    second := ReconcileSimNodes(pool, moved);
  }
}
