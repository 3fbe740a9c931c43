/** The three.js scene graph as plain values. Objects are named by `NodeId`s into a node map that
    plays the role of the heap: removing an object from the scene detaches it (drops it from
    `children`) but the object itself, and every reference to it, stays valid. A top-level object
    lists its descendants, in traversal order, in `parts`. */
module SceneGraph {
  import opened Wrappers
  import opened Seqs

  type NodeId = nat

  datatype Vec3 = Vec3(x: real, y: real, z: real)

  datatype Quat = Quat(x: real, y: real, z: real, w: real)

  const Origin := Vec3(0.0, 0.0, 0.0)
  const UnitScale := Vec3(1.0, 1.0, 1.0)
  const IdentityQuat := Quat(0.0, 0.0, 0.0, 1.0)

  /** A material object. */
  datatype Mat =
    | Loaded(id: nat)                          // came with a loaded model
    | Basic                                    // the default of a bare `new THREE.Mesh(geometry)`
    | Highlight                                // the editor's one selection material
    | GroundMaterial(texture: string, repeats: real)

  /** The value of a `material` property: absent, one material, or an array of materials. */
  datatype Material = NoMaterial | Single(mat: Mat) | Multi(mats: seq<Mat>)

  /** An `Object3D`. `selectable` and `owner` are `userData.isSelectable` and `userData.object`;
      `directChild` says whether a part hangs directly below its top-level object. */
  datatype Node = Node(
    name: string,
    position: Vec3,
    rotation: Vec3,
    quaternion: Quat,
    scale: Vec3,
    isMesh: bool,
    directChild: bool,
    material: Material,
    selectable: bool,
    owner: Option<NodeId>,
    parts: seq<NodeId>)

  /** A fresh `Object3D` with default transform (lights, helpers, the ground before texturing). */
  const Plain := Node("", Origin, Origin, IdentityQuat, UnitScale, false, false, NoMaterial, false, None, [])

  /** A descendant of a loaded model. */
  datatype PartTemplate = PartTemplate(isMesh: bool, directChild: bool, material: Material)

  /** A loaded model (the glTF scene group): its transform and its descendants. Never mutated. */
  datatype Template = Template(position: Vec3, rotation: Vec3, quaternion: Quat, scale: Vec3, parts: seq<PartTemplate>)

  /** `baseModel.clone(true)`: the group itself ... */
  function TemplateRoot(t: Template): (n: Node)
    ensures !n.isMesh && !n.selectable && n.position == t.position && n.quaternion == t.quaternion && n.scale == t.scale
  {
    Plain.(position := t.position, rotation := t.rotation, quaternion := t.quaternion, scale := t.scale)
  }

  /** ... and its descendants, sharing the model's materials. */
  function TemplateParts(t: Template): (ps: seq<Node>)
    ensures |ps| == |t.parts|
    ensures forall i :: 0 <= i < |ps| ==>
      ps[i].isMesh == t.parts[i].isMesh && ps[i].directChild == t.parts[i].directChild
      && ps[i].material == t.parts[i].material && !ps[i].selectable && ps[i].owner == None
  {
    PartNodes(t.parts)
  }

  function PartNodes(ts: seq<PartTemplate>): (ps: seq<Node>)
    ensures |ps| == |ts|
    ensures forall i :: 0 <= i < |ps| ==>
      ps[i].isMesh == ts[i].isMesh && ps[i].directChild == ts[i].directChild
      && ps[i].material == ts[i].material && !ps[i].selectable && ps[i].owner == None
  {
    seq(|ts|, i requires 0 <= i < |ts| =>
      Plain.(isMesh := ts[i].isMesh, directChild := ts[i].directChild, material := ts[i].material))
  }

  /** `object.clone()` of one node: `Object3D.copy` keeps name and transform; only a mesh copies a
      `material` (an ad-hoc `material` on a group is not carried over). The selectable flag and the
      back-reference are kept as they were, which is what the caller's re-tagging then relies on;
      `userData` itself is copied through JSON by three.js, see the README. */
  function CloneNode(n: Node): (c: Node)
    ensures c.name == n.name && c.position == n.position && c.rotation == n.rotation
    ensures c.quaternion == n.quaternion && c.scale == n.scale && c.isMesh == n.isMesh
    ensures c.material == (if n.isMesh then n.material else NoMaterial)
    ensures c.selectable == n.selectable && c.owner == n.owner && c.parts == []
  {
    n.(material := if n.isMesh then n.material else NoMaterial, parts := [])
  }

  /** The placement traverse callback: a mesh becomes selectable and points back at `owner`. */
  function Tag(n: Node, owner: NodeId): Node
  {
    if n.isMesh then n.(selectable := true, owner := Some(owner)) else n
  }

  /** The back-references of a node about to be added, and of its parts, point into `ids`. */
  predicate OwnersIn(root: Node, parts: seq<Node>, ids: set<NodeId>)
  {
    (root.owner.Some? ==> root.owner.value in ids)
    && forall i :: 0 <= i < |parts| && parts[i].owner.Some? ==> parts[i].owner.value in ids
  }

  /** The ids `base`, `base + 1`, ..., `base + n - 1`. */
  function Range(base: nat, n: nat): (ids: seq<NodeId>)
    ensures |ids| == n && forall i :: 0 <= i < n ==> ids[i] == base + i
  {
    seq(n, i => base + i)
  }

  /** Where a traversal that meets `v` looks for the owning object: `userData.object || object`,
      for a selectable node only. */
  function ParentOf(nodes: map<NodeId, Node>, v: NodeId): (r: seq<NodeId>)
    ensures |r| <= 1
    ensures r != [] <==> v in nodes && nodes[v].selectable
  {
    if v in nodes && nodes[v].selectable then [nodes[v].owner.GetOr(v)] else []
  }

  /** The owners a traversal meets, one per selectable node visited, repeats included. */
  function Parents(nodes: map<NodeId, Node>, vs: seq<NodeId>): seq<NodeId>
    decreases |vs|
  {
    if vs == [] then [] else Parents(nodes, vs[..|vs| - 1]) + ParentOf(nodes, vs[|vs| - 1])
  }

  lemma ParentsSnoc(nodes: map<NodeId, Node>, vs: seq<NodeId>, v: NodeId)
    ensures Parents(nodes, vs + [v]) == Parents(nodes, vs) + ParentOf(nodes, v)
  {
    assert (vs + [v])[..|vs|] == vs;
  }

  /** Every owner a traversal meets comes from a selectable node it visited. */
  lemma {:induction false} ParentsFrom(nodes: map<NodeId, Node>, vs: seq<NodeId>)
    ensures forall p :: p in Parents(nodes, vs) <==>
      exists k :: 0 <= k < |vs| && vs[k] in nodes && nodes[vs[k]].selectable && p == nodes[vs[k]].owner.GetOr(vs[k])
    decreases |vs|
  {
    if vs != [] {
      var pre, v := vs[..|vs| - 1], vs[|vs| - 1];
      ParentsFrom(nodes, pre);
      assert vs == pre + [v];
      forall p | p in Parents(nodes, vs)
        ensures exists k :: 0 <= k < |vs| && vs[k] in nodes && nodes[vs[k]].selectable && p == nodes[vs[k]].owner.GetOr(vs[k])
      {
        if p in Parents(nodes, pre) {
          var k :| 0 <= k < |pre| && pre[k] in nodes && nodes[pre[k]].selectable && p == nodes[pre[k]].owner.GetOr(pre[k]);
          assert vs[k] == pre[k];
        } else {
          assert vs[|vs| - 1] == v;
        }
      }
      forall p | exists k :: 0 <= k < |vs| && vs[k] in nodes && nodes[vs[k]].selectable && p == nodes[vs[k]].owner.GetOr(vs[k])
        ensures p in Parents(nodes, vs)
      {
        var k :| 0 <= k < |vs| && vs[k] in nodes && nodes[vs[k]].selectable && p == nodes[vs[k]].owner.GetOr(vs[k]);
        if k < |pre| {
          assert pre[k] == vs[k];
        }
      }
    }
  }

  /** When every back-reference resolves, so does every owner a traversal meets. */
  lemma {:induction false} ParentsResolve(nodes: map<NodeId, Node>, vs: seq<NodeId>)
    requires forall id :: id in nodes && nodes[id].owner.Some? ==> nodes[id].owner.value in nodes
    ensures forall p :: p in Parents(nodes, vs) ==> p in nodes
    decreases |vs|
  {
    if vs != [] {
      ParentsResolve(nodes, vs[..|vs| - 1]);
    }
  }

  /** A point light, as `updateSun` sees it. */
  datatype Light = Light(intensity: real, color: string, position: Vec3, target: Vec3)

  /** An environment texture, identified by the path it was loaded from. */
  datatype Texture = Texture(path: string)

  /** The scene: the heap of nodes, the scene's direct children in order, and the next free id. */
  datatype Graph = Graph(nodes: map<NodeId, Node>, children: seq<NodeId>, next: nat) {

    /** Ids are allocated below `next` and every reference resolves. */
    predicate Valid()
    {
      && (forall id :: id in nodes ==> id < next)
      && (forall k :: 0 <= k < |children| ==> children[k] in nodes)
      && (forall id, k :: id in nodes && 0 <= k < |nodes[id].parts| ==> nodes[id].parts[k] in nodes)
      && (forall id :: id in nodes && nodes[id].owner.Some? ==> nodes[id].owner.value in nodes)
    }

    /** `scene.remove(object)`: detaches a direct child; does nothing to anything else. Every
        occurrence goes, where three.js splices the first; children never repeat, since each
        `scene.add` here appends a fresh id. */
    function Remove(id: NodeId): (g: Graph)
      requires Valid()
      ensures g.Valid() && g.nodes == nodes && g.next == next
      ensures g.children == Without(children, id)
    {
      var g := Graph(nodes, Without(children, id), next);
      assert forall k :: 0 <= k < |g.children| ==> g.children[k] in children;
      g
    }

    /** Removes the objects of `ids` one after the other. */
    function RemoveEach(ids: seq<NodeId>): (g: Graph)
      requires Valid()
      ensures g.Valid() && g.nodes == nodes && g.next == next
      decreases |ids|
    {
      if ids == [] then this else RemoveEach(ids[..|ids| - 1]).Remove(ids[|ids| - 1])
    }

    /** Replaces the node `id` (an in-place property write). */
    function Update(id: NodeId, n: Node): (g: Graph)
      requires Valid() && id in nodes
      requires forall k :: 0 <= k < |n.parts| ==> n.parts[k] in nodes
      requires n.owner.Some? ==> n.owner.value in nodes
      ensures g.Valid() && g.children == children && g.next == next && g.nodes == nodes[id := n]
    {
      Graph(nodes[id := n], children, next)
    }

    /** Writing back a node's own value changes nothing. */
    lemma UpdateSame(id: NodeId)
      requires Valid() && id in nodes
      ensures Update(id, nodes[id]) == this
    {
      assert nodes[id := nodes[id]] == nodes;
    }

    /** The order in which `scene.traverse` meets the objects below the scene. */
    function Visit(): seq<NodeId>
    {
      VisitFrom(nodes, children)
    }

    /** The distinct owners of the selectable nodes, in the order the traversal first meets them. */
    function Owners(): seq<NodeId>
    {
      Dedup(Parents(nodes, Visit()))
    }

    /** Every owner names a node. */
    lemma OwnersResolve()
      requires Valid()
      ensures forall k :: 0 <= k < |Owners()| ==> Owners()[k] in nodes
    {
      ParentsResolve(nodes, Visit());
      DedupMembers(Parents(nodes, Visit()));
    }
  }

  /** The scene's children, and the object appended to them, resolve in the grown node map. */
  lemma NewChildrenResolve(nodes: map<NodeId, Node>, children: seq<NodeId>, next: NodeId, r: map<NodeId, Node>)
    requires forall k :: 0 <= k < |children| ==> children[k] in nodes
    requires nodes.Keys <= r.Keys && next in r
    ensures forall k :: 0 <= k < |children + [next]| ==> (children + [next])[k] in r
  {
    forall k | 0 <= k < |children + [next]|
      ensures (children + [next])[k] in r
    {
      if k < |children| { assert (children + [next])[k] == children[k]; }
    }
  }

  function VisitFrom(nodes: map<NodeId, Node>, cs: seq<NodeId>): seq<NodeId>
    decreases |cs|
  {
    if cs == [] then []
    else [cs[0]] + (if cs[0] in nodes then nodes[cs[0]].parts else []) + VisitFrom(nodes, cs[1..])
  }

  /** The clone-and-tag step shared by `addObject`, `loadScene`, `importScene` and
      `duplicateObject`: every mesh of the new object (the root included, if it is a mesh) is
      made selectable with a back-reference to the new object; then `scene.add` gives the root
      id `next` and its parts the ids after it. */
  function Place(g: Graph, root: Node, parts: seq<Node>): (r: Graph)
    requires g.Valid()
    requires OwnersIn(root, parts, g.nodes.Keys)
    ensures r.Valid() && r.children == g.children + [g.next] && g.next !in g.nodes
    ensures g.next in r.nodes && r.nodes[g.next] == Tag(root, g.next).(parts := Range(g.next + 1, |parts|))
    ensures forall k :: k in g.nodes ==> k in r.nodes && r.nodes[k] == g.nodes[k]
  {
    PlaceGrows(g, root, parts);
    Graph(g.nodes + Fresh(root, parts, g.next), g.children + [g.next], g.next + 1 + |parts|)
  }

  /** The graph `Place` builds, grown by the fresh nodes, is valid and keeps the old nodes. */
  lemma PlaceGrows(g: Graph, root: Node, parts: seq<Node>)
    requires g.Valid()
    requires OwnersIn(root, parts, g.nodes.Keys)
    ensures var r := Graph(g.nodes + Fresh(root, parts, g.next), g.children + [g.next], g.next + 1 + |parts|);
      && r.Valid() && r.children == g.children + [g.next] && g.next !in g.nodes
      && g.next in r.nodes && r.nodes[g.next] == Tag(root, g.next).(parts := Range(g.next + 1, |parts|))
      && forall k :: k in g.nodes ==> k in r.nodes && r.nodes[k] == g.nodes[k]
  {
    FreshResolves(root, parts, g.next, g.nodes.Keys);
    PlacedValid(g, Fresh(root, parts, g.next), |parts|);
  }

  /** The nodes `Place` adds: the tagged root at `n`, listing the tagged parts at `n + 1`, .... */
  function Fresh(root: Node, parts: seq<Node>, n: NodeId): (m: map<NodeId, Node>)
    ensures forall k :: k in m <==> n <= k <= n + |parts|
    ensures n in m && m[n] == Tag(root, n).(parts := Range(n + 1, |parts|))
    ensures forall j :: 0 <= j < |parts| ==> n + 1 + j in m && m[n + 1 + j] == Tag(parts[j], n).(parts := [])
  {
    var ids := Range(n, |parts| + 1);
    var m := map k | k in ids ::
      if k == n then Tag(root, n).(parts := Range(n + 1, |parts|)) else Tag(parts[k - n - 1], n).(parts := []);
    forall k | n <= k <= n + |parts|
      ensures k in m
    {
      assert ids[k - n] == k;
    }
    forall j | 0 <= j < |parts|
      ensures m[n + 1 + j] == Tag(parts[j], n).(parts := [])
    {
      assert m[n + 1 + j] == Tag(parts[(n + 1 + j) - n - 1], n).(parts := []);
    }
    assert ids[0] == n;
    m
  }

  /** The fresh nodes list only fresh nodes, and point back at `n` or into `ids`. */
  lemma FreshResolves(root: Node, parts: seq<Node>, n: NodeId, ids: set<NodeId>)
    requires OwnersIn(root, parts, ids)
    ensures var m := Fresh(root, parts, n);
      && (forall k, i :: k in m && 0 <= i < |m[k].parts| ==> m[k].parts[i] in m)
      && (forall k :: k in m && m[k].owner.Some? ==> m[k].owner.value in ids + {n})
  {
    var m := Fresh(root, parts, n);
    forall k | k in m
      ensures forall i :: 0 <= i < |m[k].parts| ==> m[k].parts[i] in m
      ensures m[k].owner.Some? ==> m[k].owner.value in ids + {n}
    {
      if k != n {
        assert m[k] == Tag(parts[k - n - 1], n).(parts := []);
      }
    }
  }

  /** Adding fresh nodes above `next` whose references resolve keeps the graph valid. */
  lemma PlacedValid(g: Graph, m: map<NodeId, Node>, count: nat)
    requires g.Valid()
    requires forall k :: k in m <==> g.next <= k <= g.next + count
    requires forall k, i :: k in m && 0 <= i < |m[k].parts| ==> m[k].parts[i] in m
    requires forall k :: k in m && m[k].owner.Some? ==> m[k].owner.value in g.nodes.Keys + {g.next}
    ensures g.next !in g.nodes && g.next in g.nodes + m && (g.nodes + m)[g.next] == m[g.next]
    ensures forall k :: k in g.nodes ==> k in g.nodes + m && (g.nodes + m)[k] == g.nodes[k]
    ensures Graph(g.nodes + m, g.children + [g.next], g.next + 1 + count).Valid()
  {
    var r := g.nodes + m;
    assert g.next !in g.nodes;
    NewChildrenResolve(g.nodes, g.children, g.next, r);
    forall id, i | id in r && 0 <= i < |r[id].parts|
      ensures r[id].parts[i] in r
    {
      if id !in m {
        assert r[id] == g.nodes[id];
      }
    }
    forall id | id in r && r[id].owner.Some?
      ensures r[id].owner.value in r
    {
      if id !in m {
        assert r[id] == g.nodes[id];
      }
    }
  }

  /** The parts of a newly placed object are fresh nodes, its `parts` tagged, in order. */
  lemma PlacedParts(g: Graph, root: Node, parts: seq<Node>)
    requires g.Valid()
    requires OwnersIn(root, parts, g.nodes.Keys)
    ensures var r := Place(g, root, parts);
      forall j :: 0 <= j < |parts| ==>
        && r.nodes[g.next].parts[j] == g.next + 1 + j
        && g.next + 1 + j in r.nodes && g.next + 1 + j !in g.nodes
        && r.nodes[g.next + 1 + j] == Tag(parts[j], g.next).(parts := [])
  {
    FreshAbove(g.nodes, root, parts, g.next);
  }

  /** Above every old id, the grown node map holds the tagged parts at `n + 1`, .... */
  lemma FreshAbove(nodes: map<NodeId, Node>, root: Node, parts: seq<Node>, n: NodeId)
    requires forall id :: id in nodes ==> id < n
    ensures var r := nodes + Fresh(root, parts, n);
      forall j :: 0 <= j < |parts| ==>
        && r[n].parts[j] == n + 1 + j
        && n + 1 + j in r && n + 1 + j !in nodes
        && r[n + 1 + j] == Tag(parts[j], n).(parts := [])
  {
    var m := Fresh(root, parts, n);
    assert (nodes + m)[n] == m[n];
  }

  /** The back-reference every mesh of a newly placed object carries. */
  lemma PlaceTagsMeshes(g: Graph, root: Node, parts: seq<Node>)
    requires g.Valid()
    requires OwnersIn(root, parts, g.nodes.Keys)
    ensures var r := Place(g, root, parts);
      forall k :: k in r.nodes[g.next].parts ==>
            k in r.nodes && (r.nodes[k].isMesh ==> r.nodes[k].selectable && r.nodes[k].owner == Some(g.next))
  {
    FreshTags(g.nodes, root, parts, g.next);
  }

  /** The parts the new root lists are fresh, and each of its meshes points back at `n`. */
  lemma FreshTags(nodes: map<NodeId, Node>, root: Node, parts: seq<Node>, n: NodeId)
    requires forall id :: id in nodes ==> id < n
    ensures var r := nodes + Fresh(root, parts, n);
      forall k :: k in r[n].parts ==> k in r && (r[k].isMesh ==> r[k].selectable && r[k].owner == Some(n))
  {
    var m := Fresh(root, parts, n);
    var r := nodes + m;
    assert r[n] == m[n];
    forall k | k in r[n].parts
      ensures k in r && (r[k].isMesh ==> r[k].selectable && r[k].owner == Some(n))
    {
      var i :| 0 <= i < |parts| && r[n].parts[i] == k;
      assert k == n + 1 + i && r[k] == m[k];
    }
  }

  /** Every mesh inside a top-level object is selectable and points back at that object. */
  predicate Tagged(g: Graph)
  {
    forall c, p :: c in g.children && c in g.nodes && p in g.nodes[c].parts && p in g.nodes && g.nodes[p].isMesh ==>
      g.nodes[p].selectable && g.nodes[p].owner == Some(c)
  }

  /** Placing an object keeps every back-reference right, its own included. */
  lemma PlaceKeepsTagged(g: Graph, root: Node, parts: seq<Node>)
    requires g.Valid() && Tagged(g)
    requires OwnersIn(root, parts, g.nodes.Keys)
    ensures Tagged(Place(g, root, parts))
  {
    PlaceTagsMeshes(g, root, parts);
    AppendKeepsTagged(g, Place(g, root, parts), g.next);
  }

  /** Appending a new top-level object whose meshes point back at it keeps every back-reference right. */
  lemma AppendKeepsTagged(g: Graph, r: Graph, c0: NodeId)
    requires g.Valid() && Tagged(g) && c0 !in g.nodes && c0 in r.nodes
    requires r.children == g.children + [c0]
    requires forall k :: k in g.nodes ==> k in r.nodes && r.nodes[k] == g.nodes[k]
    requires forall k :: k in r.nodes[c0].parts ==>
      k in r.nodes && (r.nodes[k].isMesh ==> r.nodes[k].selectable && r.nodes[k].owner == Some(c0))
    ensures Tagged(r)
  {
    forall c, p | c in r.children && c in r.nodes && p in r.nodes[c].parts && p in r.nodes && r.nodes[p].isMesh
      ensures r.nodes[p].selectable && r.nodes[p].owner == Some(c)
    {
      if c != c0 {
        assert c in g.children && c in g.nodes && r.nodes[c] == g.nodes[c];
        var i :| 0 <= i < |g.nodes[c].parts| && g.nodes[c].parts[i] == p;
        assert p in g.nodes;
        assert r.nodes[p] == g.nodes[p];
      }
    }
  }

  /** `r` differs from `g` in materials at most: same children, same ids, and every node the same
      apart from its material. */
  predicate OnlyMaterials(g: Graph, r: Graph)
  {
    && r.children == g.children && r.next == g.next && r.nodes.Keys == g.nodes.Keys
    && forall k :: k in g.nodes ==> r.nodes[k].(material := g.nodes[k].material) == g.nodes[k]
  }

  /** `node.material = m`: the only change highlighting, restoring and retexturing make. */
  function Rematerial(g: Graph, id: NodeId, m: Material): (r: Graph)
    requires g.Valid() && id in g.nodes
    ensures r.Valid() && r.children == g.children && r.next == g.next
    ensures r.nodes == g.nodes[id := g.nodes[id].(material := m)]
    ensures OnlyMaterials(g, r)
  {
    g.Update(id, g.nodes[id].(material := m))
  }

  /** Rewriting a node's material keeps every back-reference. */
  lemma RematerialKeepsTagged(g: Graph, id: NodeId, m: Material)
    requires g.Valid() && Tagged(g) && id in g.nodes
    ensures Tagged(Rematerial(g, id, m))
  {
    OnlyMaterialsKeepTagged(g, Rematerial(g, id, m));
  }

  /** Back-references do not depend on materials. */
  lemma OnlyMaterialsKeepTagged(g: Graph, r: Graph)
    requires Tagged(g) && OnlyMaterials(g, r)
    ensures Tagged(r)
  {
    forall c, p | c in r.children && c in r.nodes && p in r.nodes[c].parts && p in r.nodes && r.nodes[p].isMesh
      ensures r.nodes[p].selectable && r.nodes[p].owner == Some(c)
    {
      assert r.nodes[c].(material := g.nodes[c].material) == g.nodes[c];
      assert r.nodes[p].(material := g.nodes[p].material) == g.nodes[p];
    }
  }

  /** The traversal meets every part of every top-level object. */
  lemma {:induction false} VisitMeetsParts(nodes: map<NodeId, Node>, cs: seq<NodeId>, c: NodeId, p: NodeId)
    requires c in cs && c in nodes && p in nodes[c].parts
    ensures p in VisitFrom(nodes, cs)
    decreases |cs|
  {
    if cs[0] != c {
      VisitMeetsParts(nodes, cs[1..], c, p);
    }
  }
}
