/** `Scene` of src/scene.js: the scene graph, the template and skybox caches, the ground and the sun. */
module SceneStore {
  import opened Wrappers
  import opened Seqs
  import opened SceneGraph
  import opened Codec

  /** `loadGltf(name)`: an abstract, total loader from model name to template. */
  type ModelLoader = string -> Template

  /** The partial update `updateSun` receives; a field is `None` when it is not a number
      (for `color`: when it is `undefined` or `null`). */
  datatype SunUpdate = SunUpdate(intensity: Option<real>, color: Option<string>, x: Option<real>, y: Option<real>, z: Option<real>)

  /** The path a skybox file is loaded from. */
  function SkyboxPath(file: string): string
  {
    "skybox/" + file
  }

  /** The object `addObject` places: a clone of the model's group named after the model, at
      `position` or the origin, with `rotation` and `scale` when given. */
  function ObjectRoot(t: Template, name: string, position: Option<Vec3>, rotation: Option<Quat>, scale: Option<Vec3>): (n: Node)
    ensures n.owner == None && !n.isMesh
  {
    TemplateRoot(t).(name := name, position := position.GetOr(Origin),
                     quaternion := rotation.GetOr(t.quaternion), scale := scale.GetOr(t.scale))
  }

  /** The object placed for a document entry: named after the entry, with each transform field the
      entry has decoded onto the model's own. */
  function DocRoot(t: Template, d: DocNode, number: NumberParser): (n: Node)
    ensures n.owner == None && !n.isMesh && n.name == d.name
    ensures n.position == (if d.position != "" then DecodeVec3(t.position, d.position, number) else t.position)
    ensures n.quaternion == (if d.rotation != "" then DecodeQuat(t.quaternion, d.rotation, number) else t.quaternion)
    ensures n.scale == (if d.scale != "" then DecodeVec3(t.scale, d.scale, number) else t.scale)
  {
    var n := TemplateRoot(t).(name := d.name);
    var n1 := if d.position != "" then n.(position := DecodeVec3(n.position, d.position, number)) else n;
    var n2 := if d.rotation != "" then n1.(quaternion := DecodeQuat(n1.quaternion, d.rotation, number)) else n1;
    if d.scale != "" then n2.(scale := DecodeVec3(n2.scale, d.scale, number)) else n2
  }

  /** The node loop of `loadScene` / `importScene`: entries without a name are skipped, every other
      entry places one instance of its model. */
  function PlaceDocNodes(g: Graph, ds: seq<DocNode>, load: ModelLoader, number: NumberParser): (r: Graph)
    requires g.Valid()
    ensures r.Valid()
    ensures forall k :: k in g.nodes ==> k in r.nodes && r.nodes[k] == g.nodes[k]
    decreases |ds|
  {
    if ds == [] then g else PlaceDoc(PlaceDocNodes(g, ds[..|ds| - 1], load, number), ds[|ds| - 1], load, number)
  }

  /** One turn of that loop. */
  function PlaceDoc(g: Graph, d: DocNode, load: ModelLoader, number: NumberParser): (r: Graph)
    requires g.Valid()
    ensures r.Valid()
    ensures forall k :: k in g.nodes ==> k in r.nodes && r.nodes[k] == g.nodes[k]
  {
    if d.name == "" then g else Place(g, DocRoot(load(d.name), d, number), TemplateParts(load(d.name)))
  }

  /** One turn of the node loop skips an entry without a name; any other entry appends one new
      object, named after the entry, placed as the entry says, with one part per model part. */
  lemma PlaceDocEntry(g: Graph, d: DocNode, load: ModelLoader, number: NumberParser)
    requires g.Valid()
    ensures d.name == "" ==> PlaceDoc(g, d, load, number) == g
    ensures d.name != "" ==>
      var r, n := PlaceDoc(g, d, load, number), DocRoot(load(d.name), d, number);
      && r.children == g.children + [g.next] && g.next !in g.nodes && g.next in r.nodes
      && r.nodes[g.next].name == d.name && r.nodes[g.next].position == n.position
      && r.nodes[g.next].quaternion == n.quaternion && r.nodes[g.next].scale == n.scale
      && |r.nodes[g.next].parts| == |load(d.name).parts|
  {
  }

  /** Node `c` of `r` is the instance placed for entry `d`: named after it and placed as it says. */
  predicate PlacedAs(r: Graph, c: NodeId, d: DocNode, load: ModelLoader, number: NumberParser)
  {
    var n := DocRoot(load(d.name), d, number);
    && c in r.nodes && r.nodes[c].name == d.name && r.nodes[c].position == n.position
    && r.nodes[c].quaternion == n.quaternion && r.nodes[c].scale == n.scale
  }

  /** `cs` are the ids of the objects placed for the entries `ds` of a document: fresh with
      respect to `g`, increasing, and each placed as its entry says. */
  predicate PlacedAll(g: Graph, r: Graph, cs: seq<NodeId>, ds: seq<DocNode>, load: ModelLoader, number: NumberParser)
  {
    && |cs| == |ds|
    && (forall i :: 0 <= i < |cs| ==> cs[i] !in g.nodes && PlacedAs(r, cs[i], ds[i], load, number))
    && (forall i, j :: 0 <= i < j < |cs| ==> cs[i] < cs[j])
  }

  /** When every entry is named, the node loop appends one new top-level object per entry, in
      entry order, under ids that are fresh and increasing, each placed as its entry says. */
  lemma {:induction false} PlaceDocNodesAppends(g: Graph, ds: seq<DocNode>, load: ModelLoader, number: NumberParser)
    requires g.Valid() && forall i :: 0 <= i < |ds| ==> ds[i].name != ""
    ensures var r, m := PlaceDocNodes(g, ds, load, number), |g.children|;
      && m <= |r.children| && r.children[..m] == g.children
      && PlacedAll(g, r, r.children[m..], ds, load, number)
    decreases |ds|
  {
    var m := |g.children|;
    if ds == [] {
      assert g.children[m..] == [];
    } else {
      var ds', d := ds[..|ds| - 1], ds[|ds| - 1];
      PlaceDocNodesAppends(g, ds', load, number);
      var p := PlaceDocNodes(g, ds', load, number);
      var r := PlaceDocNodes(g, ds, load, number);
      assert r == PlaceDoc(p, d, load, number);
      PlaceDocEntry(p, d, load, number);
      assert PlacedAs(r, p.next, d, load, number);
      var cs := p.children[m..];
      SnocSplit(p.children, p.next, m);
      AppendedStep(g, p, r, cs, ds, load, number);
    }
  }

  /** The step of `PlaceDocNodesAppends`: placing the last entry after the others. */
  lemma AppendedStep(g: Graph, p: Graph, r: Graph, cs: seq<NodeId>, ds: seq<DocNode>, load: ModelLoader, number: NumberParser)
    requires |ds| > 0 && PlacedAll(g, p, cs, ds[..|ds| - 1], load, number)
    requires forall k :: k in g.nodes ==> k in p.nodes
    requires forall id :: id in p.nodes ==> id < p.next
    requires p.next !in p.nodes && PlacedAs(r, p.next, ds[|ds| - 1], load, number)
    requires forall k :: k in p.nodes ==> k in r.nodes && r.nodes[k] == p.nodes[k]
    ensures PlacedAll(g, r, cs + [p.next], ds, load, number)
  {
    var cs' := cs + [p.next];
    forall i | 0 <= i < |ds|
      ensures cs'[i] !in g.nodes && PlacedAs(r, cs'[i], ds[i], load, number)
    {
      if i < |cs| {
        assert cs'[i] == cs[i] && ds[i] == ds[..|ds| - 1][i];
        assert PlacedAs(p, cs[i], ds[i], load, number);
        assert r.nodes[cs[i]] == p.nodes[cs[i]];
      }
    }
    forall i, j | 0 <= i < j < |ds|
      ensures cs'[i] < cs'[j]
    {
      assert cs'[i] == cs[i] && ds[i] == ds[..|ds| - 1][i];
      assert PlacedAs(p, cs[i], ds[i], load, number);
      if j < |cs| {
        assert cs'[j] == cs[j];
      }
    }
  }

  lemma PlaceDocNodesSnoc(g: Graph, ds: seq<DocNode>, d: DocNode, load: ModelLoader, number: NumberParser)
    requires g.Valid()
    ensures PlaceDocNodes(g, ds + [d], load, number) == PlaceDoc(PlaceDocNodes(g, ds, load, number), d, load, number)
  {
    assert (ds + [d])[..|ds|] == ds;
  }

  /** The model names of the entries that have one. */
  function Named(ds: seq<DocNode>): seq<string>
  {
    if ds == [] then [] else Named(ds[..|ds| - 1]) + (if ds[|ds| - 1].name == "" then [] else [ds[|ds| - 1].name])
  }

  lemma NamedSnoc(ds: seq<DocNode>, d: DocNode)
    ensures Named(ds + [d]) == Named(ds) + (if d.name == "" then [] else [d.name])
  {
    assert (ds + [d])[..|ds|] == ds;
  }

  /** `duplicateObject`: a clone with the same name, rotation and scale, one unit further along x,
      whose meshes point back at the clone. */
  function Duplicate(g: Graph, id: NodeId): (r: Graph)
    requires g.Valid() && id in g.nodes
    ensures r.Valid() && r.children == g.children + [g.next] && g.next !in g.nodes && g.next in r.nodes
    ensures forall k :: k in g.nodes ==> k in r.nodes && r.nodes[k] == g.nodes[k]
  {
    Place(g, Twin(g.nodes[id]), ClonedParts(g.nodes, g.nodes[id].parts))
  }

  /** The duplicate's own node: a clone one unit further along x. */
  function Twin(o: Node): (c: Node)
    ensures c.owner == o.owner
  {
    CloneNode(o).(position := o.position.(x := o.position.x + 1.0))
  }

  /** Clones of the nodes `ids`, in order. */
  function ClonedParts(nodes: map<NodeId, Node>, ids: seq<NodeId>): (ps: seq<Node>)
    requires forall k :: 0 <= k < |ids| ==> ids[k] in nodes
    ensures |ps| == |ids| && forall i :: 0 <= i < |ids| ==> ps[i] == CloneNode(nodes[ids[i]])
  {
    seq(|ids|, i requires 0 <= i < |ids| => CloneNode(nodes[ids[i]]))
  }

  /** `clearScene`: every distinct owner of a selectable node, in traversal order, is removed. */
  function Cleared(g: Graph): (r: Graph)
    requires g.Valid()
    ensures r.Valid() && r.nodes == g.nodes
  {
    g.RemoveEach(g.Owners())
  }

  /** `changeGround` on ground node `id`: a new standard material for `texture` and `repeats`. */
  function Retextured(g: Graph, id: NodeId, texture: string, repeats: real): (r: Graph)
    requires g.Valid() && id in g.nodes
    ensures r.Valid() && r.children == g.children && OnlyMaterials(g, r)
    ensures r.nodes[id].material == Single(GroundMaterial(texture, repeats))
  {
    Rematerial(g, id, Single(GroundMaterial(texture, repeats)))
  }

  /** `updateSun`: the fields given as numbers (and a given colour) replace the light's; the light
      is aimed at the origin. */
  function MergeSun(l: Light, p: SunUpdate): (r: Light)
    ensures r.target == Origin
    ensures r.intensity == (if p.intensity.Some? then p.intensity.value else l.intensity)
    ensures r.color == (if p.color.Some? then p.color.value else l.color)
    ensures r.position.x == (if p.x.Some? then p.x.value else l.position.x)
    ensures r.position.y == (if p.y.Some? then p.y.value else l.position.y)
    ensures r.position.z == (if p.z.Some? then p.z.value else l.position.z)
  {
    Light(p.intensity.GetOr(l.intensity), p.color.GetOr(l.color),
          Vec3(p.x.GetOr(l.position.x), p.y.GetOr(l.position.y), p.z.GetOr(l.position.z)), Origin)
  }

  /** `scene.add` of an object that has no parts and is never selectable (a light, a light's
      target, a helper). */
  function AddPlain(g: Graph): (r: Graph)
    requires g.Valid()
    ensures r.Valid() && r.children == g.children + [g.next] && r.next == g.next + 1
    ensures r.nodes == g.nodes[g.next := Plain]
  {
    Graph(g.nodes[g.next := Plain], g.children + [g.next], g.next + 1)
  }

  /** The three objects `addDirectionalLight` adds: the light's target, the light and its helper. */
  function WithSun(g: Graph): (r: Graph)
    requires g.Valid()
    ensures r.Valid() && r.children == g.children + [g.next] + [g.next + 1] + [g.next + 2] && r.next == g.next + 3
    ensures r.nodes == g.nodes[g.next := Plain][g.next + 1 := Plain][g.next + 2 := Plain]
  {
    Graph(g.nodes[g.next := Plain][g.next + 1 := Plain][g.next + 2 := Plain],
          g.children + [g.next] + [g.next + 1] + [g.next + 2], g.next + 3)
  }

  /** The mesh `addGround` creates: a plane with the default material, never tagged selectable. */
  const GroundMesh: Node := Plain.(isMesh := true, material := Single(Basic))

  /** `scene.add(ground)`. */
  function WithGround(g: Graph): (r: Graph)
    requires g.Valid()
    ensures r.Valid() && r.children == g.children + [g.next] && r.next == g.next + 1
    ensures r.nodes == g.nodes[g.next := GroundMesh]
  {
    Graph(g.nodes[g.next := GroundMesh], g.children + [g.next], g.next + 1)
  }

  /** After the children `cs` come the four plain objects `n` to `n + 3`: the ambient light, then
      the sun's target, the sun and its helper. */
  predicate LightsAt(g: Graph, cs: seq<NodeId>, n: NodeId)
  {
    && |cs| + 4 <= |g.children| && g.children[..|cs| + 4] == cs + [n, n + 1, n + 2, n + 3]
    && forall k :: n <= k < n + 4 ==> k in g.nodes && g.nodes[k] == Plain
  }

  /** `addAmbientLight` then `addDirectionalLight` put the four light objects right after the
      children there were. */
  lemma LightsAppended(g: Graph)
    requires g.Valid()
    ensures LightsAt(WithSun(AddPlain(g)), g.children, g.next)
  {
    var r := WithSun(AddPlain(g));
    assert r.children == g.children + [g.next, g.next + 1, g.next + 2, g.next + 3];
    assert r.children[..|g.children| + 4] == r.children;
  }

  /** Adding the ground keeps the lights, and the ground is none of them. */
  lemma WithGroundKeepsLights(g: Graph, cs: seq<NodeId>, n: NodeId)
    requires g.Valid() && LightsAt(g, cs, n)
    ensures LightsAt(WithGround(g), cs, n) && !(n <= g.next < n + 4)
  {
    assert n + 3 in g.nodes;
    var r := WithGround(g);
    assert r.children[..|cs| + 4] == g.children[..|cs| + 4];
  }

  /** Retexturing a node that is not a light keeps the lights. */
  lemma RetexturedKeepsLights(g: Graph, cs: seq<NodeId>, n: NodeId, id: NodeId, texture: string, repeats: real)
    requires g.Valid() && id in g.nodes && LightsAt(g, cs, n) && !(n <= id < n + 4)
    ensures LightsAt(Retextured(g, id, texture, repeats), cs, n)
  {
  }

  /** `params.skybox?.file` is truthy. */
  predicate SkyboxGiven(params: Option<SceneParams>)
  {
    params.Some? && Truthy(params.value.skyboxFile)
  }

  /** `params.ground?.texture && params.ground?.repeats` are both truthy. */
  predicate GroundGiven(params: Option<SceneParams>)
  {
    params.Some? && Truthy(params.value.groundTexture) && TruthyNumber(params.value.groundRepeats)
  }

  /** The graph `importScene` leaves: cleared, the document's nodes placed, then the ground
      retextured when the caller gave texture and repeats and a ground exists. */
  function Imported(g: Graph, doc: Document, params: Option<SceneParams>, ground: Option<NodeId>,
                    load: ModelLoader, number: NumberParser): (r: Graph)
    requires g.Valid() && (ground.Some? ==> ground.value in g.nodes)
    ensures r.Valid() && forall k :: k in g.nodes ==> k in r.nodes
  {
    Regrounded(PlaceDocNodes(Cleared(g), doc.nodes.GetOr([]), load, number), ground, params)
  }

  /** The ground step of `importScene`: retextured when the caller gave texture and repeats and a
      ground exists, untouched otherwise. */
  function Regrounded(g: Graph, ground: Option<NodeId>, params: Option<SceneParams>): (r: Graph)
    requires g.Valid() && (ground.Some? ==> ground.value in g.nodes)
    ensures r.Valid() && r.nodes.Keys == g.nodes.Keys && r.children == g.children && OnlyMaterials(g, r)
    ensures !(ground.Some? && GroundGiven(params)) ==> r == g
    ensures ground.Some? && GroundGiven(params) ==>
      r.nodes[ground.value].material
      == Single(GroundMaterial(params.value.groundTexture.value, params.value.groundRepeats.value))
  {
    if ground.Some? && GroundGiven(params)
    then Retextured(g, ground.value, params.value.groundTexture.value, params.value.groundRepeats.value)
    else g
  }

  /** An instance placed by `addObject` is named after its model, sits where it was asked to (the
      origin by default), and every mesh in it points back at it. */
  lemma AddObjectInstance(g: Graph, t: Template, name: string, position: Option<Vec3>, rotation: Option<Quat>, scale: Option<Vec3>)
    requires g.Valid()
    ensures var r := Place(g, ObjectRoot(t, name, position, rotation, scale), TemplateParts(t));
      var n := r.nodes[g.next];
      && r.children == g.children + [g.next]
      && n.name == name && !n.selectable
      && n.position == (if position.Some? then position.value else Origin)
      && n.quaternion == (if rotation.Some? then rotation.value else t.quaternion)
      && n.scale == (if scale.Some? then scale.value else t.scale)
      && |n.parts| == |t.parts|
      && (forall k :: k in n.parts ==> k in r.nodes && (r.nodes[k].isMesh ==> r.nodes[k].selectable && r.nodes[k].owner == Some(g.next)))
  {
    PlaceTagsMeshes(g, ObjectRoot(t, name, position, rotation, scale), TemplateParts(t));
  }

  /** Removing an object right after placing it gives back the scene's children. */
  lemma PlaceThenRemove(g: Graph, root: Node, parts: seq<Node>)
    requires g.Valid() && OwnersIn(root, parts, g.nodes.Keys)
    ensures Place(g, root, parts).Remove(g.next).children == g.children
  {
    assert g.next !in g.children by {
      forall k | 0 <= k < |g.children|
        ensures g.children[k] != g.next
      {
        assert g.children[k] in g.nodes;
      }
    }
    WithoutConcat(g.children, [g.next], g.next);
    WithoutAbsent(g.children, g.next);
  }

  /** A duplicate is a new object one unit further along x with the original's name, rotation and
      scale; the original and everything else stay as they were. */
  lemma DuplicateRoot(g: Graph, id: NodeId)
    requires g.Valid() && id in g.nodes
    ensures var r := Duplicate(g, id);
      var o, c := g.nodes[id], r.nodes[g.next];
      && g.next != id && r.children == g.children + [g.next]
      && (forall k :: k in g.nodes ==> k in r.nodes && r.nodes[k] == g.nodes[k])
      && c.name == o.name && c.quaternion == o.quaternion && c.scale == o.scale
      && c.position == Vec3(o.position.x + 1.0, o.position.y, o.position.z)
      && |c.parts| == |o.parts|
  {
  }

  /** The parts of a duplicate are fresh clones of the original's parts, meshes keeping their
      material, and their back-references point at the duplicate, not at the original. */
  lemma DuplicateParts(g: Graph, id: NodeId)
    requires g.Valid() && id in g.nodes
    ensures var r := Duplicate(g, id);
      var o, c := g.nodes[id], r.nodes[g.next];
      && |c.parts| == |o.parts|
      && (forall j :: 0 <= j < |c.parts| ==>
            && c.parts[j] in r.nodes && c.parts[j] !in g.nodes
            && var q, p := r.nodes[c.parts[j]], g.nodes[o.parts[j]];
            && q.isMesh == p.isMesh && q.name == p.name && q.position == p.position
            && q.material == (if p.isMesh then p.material else NoMaterial)
            && (q.isMesh ==> q.selectable && q.owner == Some(g.next)))
  {
    DuplicateRoot(g, id);
    var r := Duplicate(g, id);
    var o, c := g.nodes[id], r.nodes[g.next];
    forall j | 0 <= j < |c.parts|
      ensures c.parts[j] in r.nodes && c.parts[j] !in g.nodes
      ensures var q, p := r.nodes[c.parts[j]], g.nodes[o.parts[j]];
        && q.isMesh == p.isMesh && q.name == p.name && q.position == p.position
        && q.material == (if p.isMesh then p.material else NoMaterial)
        && (q.isMesh ==> q.selectable && q.owner == Some(g.next))
    {
      DuplicatePart(g, id, j);
      TaggedClone(g.nodes[o.parts[j]], g.next);
    }
  }

  /** Part `j` of a duplicate is a tagged clone of part `j` of the original. */
  lemma DuplicatePart(g: Graph, id: NodeId, j: nat)
    requires g.Valid() && id in g.nodes && j < |g.nodes[id].parts|
    ensures var r := Duplicate(g, id);
      && j < |r.nodes[g.next].parts|
      && var k := r.nodes[g.next].parts[j];
      && k in r.nodes && k !in g.nodes
      && r.nodes[k] == Tag(CloneNode(g.nodes[g.nodes[id].parts[j]]), g.next).(parts := [])
  {
    var o := g.nodes[id];
    var ps := ClonedParts(g.nodes, o.parts);
    var p := Place(g, Twin(o), ps);
    var k := g.next + 1 + j;
    assert p.nodes[g.next].parts[j] == k && k in p.nodes && k !in g.nodes && p.nodes[k] == Tag(ps[j], g.next).(parts := []) by {
      PlacedParts(g, Twin(o), ps);
    }
    assert Duplicate(g, id) == p;
  }

  /** The duplicate and its parts are new nodes. */
  lemma DuplicateFresh(g: Graph, id: NodeId, m: NodeId)
    requires g.Valid() && id in g.nodes
    requires m == g.next || m in Duplicate(g, id).nodes[g.next].parts
    ensures m !in g.nodes
  {
    if m != g.next {
      var c := Duplicate(g, id).nodes[g.next];
      var i :| 0 <= i < |c.parts| && c.parts[i] == m;
      assert m == g.next + 1 + i;
    }
  }

  /** What a cloned and tagged part keeps of the part it was cloned from. */
  lemma TaggedClone(p: Node, owner: NodeId)
    ensures var q := Tag(CloneNode(p), owner).(parts := []);
      && q.isMesh == p.isMesh && q.name == p.name && q.position == p.position
      && q.material == (if p.isMesh then p.material else NoMaterial)
      && (q.isMesh ==> q.selectable && q.owner == Some(owner))
  {
  }

  /** Removing a list of objects one by one keeps exactly the children not in the list, in order. */
  lemma {:induction false} RemoveEachChildren(g: Graph, ids: seq<NodeId>)
    requires g.Valid()
    ensures g.RemoveEach(ids).children == WithoutAll(g.children, ids)
    decreases |ids|
  {
    if ids == [] {
      WithoutAllEmpty(g.children);
    } else {
      var pre, last := ids[..|ids| - 1], ids[|ids| - 1];
      RemoveEachChildren(g, pre);
      WithoutStep(g.children, pre, last);
      assert ids == pre + [last];
    }
  }

  /** The owners `clearScene` collects are exactly the owners of the selectable traversed nodes. */
  lemma OwnersAre(g: Graph)
    ensures forall o :: o in g.Owners() <==>
      exists k :: 0 <= k < |g.Visit()| && g.Visit()[k] in g.nodes && g.nodes[g.Visit()[k]].selectable
                  && o == g.nodes[g.Visit()[k]].owner.GetOr(g.Visit()[k])
  {
    DedupMembers(Parents(g.nodes, g.Visit()));
    ParentsFrom(g.nodes, g.Visit());
  }

  /** `clearScene` removes each of those owners exactly once and keeps every other child in its order. */
  lemma ClearedChildren(g: Graph)
    requires g.Valid()
    ensures Distinct(g.Owners())
    ensures Cleared(g).children == WithoutAll(g.children, g.Owners())
    ensures Cleared(g).nodes == g.nodes
  {
    DedupDistinct(Parents(g.nodes, g.Visit()));
    RemoveEachChildren(g, g.Owners());
  }

  /** A child that is not selectable and that no node points back at (the ground, the lights, the
      helper) survives `clearScene`. */
  lemma ClearKeepsUnowned(g: Graph, c: NodeId)
    requires g.Valid() && c in g.children && c in g.nodes && !g.nodes[c].selectable
    requires forall id :: id in g.nodes ==> g.nodes[id].owner != Some(c)
    ensures c in Cleared(g).children
  {
    OwnersAre(g);
    ClearedChildren(g);
  }

  /** In a scene whose back-references are right, `clearScene` removes every object holding a mesh. */
  lemma ClearRemovesMeshOwners(g: Graph, c: NodeId, p: NodeId)
    requires g.Valid() && Tagged(g)
    requires c in g.children && c in g.nodes && p in g.nodes[c].parts && g.nodes[p].isMesh
    ensures c !in Cleared(g).children
  {
    VisitMeetsParts(g.nodes, g.children, c, p);
    var v := g.Visit();
    var k :| 0 <= k < |v| && v[k] == p;
    assert p in g.nodes && g.nodes[p].selectable && g.nodes[p].owner == Some(c);
    OwnersAre(g);
    assert c in g.Owners();
    RemoveEachChildren(g, g.Owners());
  }

  /** The traversal of `clearScene`: the owner of every selectable node, each pushed once, in
      the order the traversal meets them. */
  method CollectOwners(nodes: map<NodeId, Node>, visit: seq<NodeId>) returns (objectsToRemove: seq<NodeId>)
    ensures objectsToRemove == Dedup(Parents(nodes, visit))
  {
    objectsToRemove := [];
    var i := 0;
    while i < |visit|
      invariant 0 <= i <= |visit|
      invariant objectsToRemove == Dedup(Parents(nodes, visit[..i]))
    {
      var v := visit[i];
      assert visit[..i + 1] == visit[..i] + [v];
      ParentsSnoc(nodes, visit[..i], v);
      if v in nodes && nodes[v].selectable {
        var parentObject := nodes[v].owner.GetOr(v);
        DedupSnoc(Parents(nodes, visit[..i]), parentObject);
        if parentObject !in objectsToRemove {
          objectsToRemove := objectsToRemove + [parentObject];
        }
      } else {
        assert Parents(nodes, visit[..i + 1]) == Parents(nodes, visit[..i]);
      }
      i := i + 1;
    }
    assert visit[..i] == visit;
  }

  /** The `forEach` of `clearScene`: `scene.remove` of each collected object in turn. */
  method RemoveObjects(g: Graph, objectsToRemove: seq<NodeId>) returns (r: Graph)
    requires g.Valid()
    ensures r == g.RemoveEach(objectsToRemove)
    ensures r.children == WithoutAll(g.children, objectsToRemove)
  {
    r := g;
    var j := 0;
    while j < |objectsToRemove|
      invariant 0 <= j <= |objectsToRemove|
      invariant r == g.RemoveEach(objectsToRemove[..j])
    {
      assert objectsToRemove[..j + 1][..j] == objectsToRemove[..j];
      r := r.Remove(objectsToRemove[j]);
      j := j + 1;
    }
    assert objectsToRemove[..j] == objectsToRemove;
    RemoveEachChildren(g, objectsToRemove);
  }

  class Scene {
    var graph: Graph
    var loadedModels: map<string, Template>
    var modelLoads: seq<string>                 // every call of the model loader, in order
    var loadedSkyboxes: map<string, Texture>
    var skyboxLoads: seq<string>                // every call of the texture loader, in order
    var background: Option<Texture>
    var environment: Option<Texture>
    var currentSceneParams: SceneParams
    var ground: Option<NodeId>
    var light: Option<Light>
    const load: ModelLoader
    const number: NumberParser

    /** The caches hold what the loaders return, each name was loaded exactly once, and every id
        the scene refers to resolves. */
    ghost predicate Valid()
      reads this
    {
      GraphOk() && ModelsOk() && SkyboxesOk()
    }

    ghost predicate GraphOk()
      reads this`graph, this`ground
    {
      graph.Valid() && (ground.Some? ==> ground.value in graph.nodes)
    }

    ghost predicate ModelsOk()
      reads this`loadedModels, this`modelLoads
    {
      && (forall m :: m in loadedModels ==> loadedModels[m] == load(m))
      && (forall m :: m in loadedModels <==> m in modelLoads)
      && Distinct(modelLoads)
    }

    ghost predicate SkyboxesOk()
      reads this`loadedSkyboxes, this`skyboxLoads
    {
      && (forall f :: f in loadedSkyboxes ==> loadedSkyboxes[f] == Texture(SkyboxPath(f)))
      && (forall f :: f in loadedSkyboxes <==> f in skyboxLoads)
      && Distinct(skyboxLoads)
    }

    constructor (load: ModelLoader, number: NumberParser)
      ensures Valid() && this.load == load && this.number == number
      ensures graph.nodes == map[] && graph.children == [] && graph.next == 0
      ensures loadedModels == map[] && modelLoads == [] && loadedSkyboxes == map[] && skyboxLoads == []
      ensures background == None && environment == None && currentSceneParams == NoParams
      ensures ground == None && light == None
    {
      graph := Graph(map[], [], 0);
      loadedModels, modelLoads := map[], [];
      loadedSkyboxes, skyboxLoads := map[], [];
      background, environment := None, None;
      currentSceneParams := NoParams;
      ground, light := None, None;
      this.load, this.number := load, number;
    }

    method AddAmbientLight()
      requires Valid()
      modifies this`graph
      ensures Valid() && graph == AddPlain(old(graph))
    {
      graph := AddPlain(graph);
    }

    /** Adds the light's target, the light and its helper, none of them selectable. */
    method AddDirectionalLight() returns (l: Light)
      requires Valid()
      modifies this`graph, this`light
      ensures Valid()
      ensures l == Light(1.5, "#ffffff", Vec3(10.0, 20.0, 10.0), Origin) && light == Some(l)
      ensures graph == WithSun(old(graph))
    {
      l := Light(1.5, "#ffffff", Vec3(10.0, 20.0, 10.0), Origin);
      graph, light := WithSun(graph), Some(l);
    }

    /** `addSkybox`: an empty name does nothing; otherwise the texture comes from the cache or is
        loaded once, and becomes background and environment. */
    method AddSkybox(filename: string) returns (tex: Option<Texture>)
      requires Valid()
      modifies this`loadedSkyboxes, this`skyboxLoads, this`background, this`environment
      ensures Valid()
      ensures filename == "" ==> tex == None && unchanged(this)
      ensures filename != "" ==>
        && tex == Some(Texture(SkyboxPath(filename)))
        && background == tex && environment == tex
        && loadedSkyboxes == old(loadedSkyboxes)[filename := tex.value]
        && skyboxLoads == old(skyboxLoads) + (if filename in old(loadedSkyboxes) then [] else [filename])
    {
      if filename == "" {
        return None;
      }
      var t: Texture;
      if filename in loadedSkyboxes {
        t := loadedSkyboxes[filename];
      } else {
        t := Texture(SkyboxPath(filename));
        skyboxLoads := skyboxLoads + [filename];
        loadedSkyboxes := loadedSkyboxes[filename := t];
      }
      background := Some(t);
      environment := Some(t);
      tex := Some(t);
    }

    /** The cache lookup in front of every placement: a cached template is reused, any other is
        loaded (once) and cached. */
    method ResolveModel(name: string) returns (t: Template)
      requires Valid()
      modifies this`loadedModels, this`modelLoads
      ensures Valid()
      ensures t == load(name)
      ensures loadedModels == old(loadedModels)[name := t]
      ensures modelLoads == old(modelLoads) + (if name in old(loadedModels) then [] else [name])
    {
      if name in loadedModels {
        t := loadedModels[name];
      } else {
        t := load(name);
        modelLoads := modelLoads + [name];
        loadedModels := loadedModels[name := t];
      }
    }

    /** `addObject`: an empty model name places nothing; otherwise one instance of the model. */
    method AddObject(modelName: string, position: Option<Vec3>, rotation: Option<Quat>, scale: Option<Vec3>)
      returns (r: Option<NodeId>)
      requires Valid()
      modifies this`graph, this`loadedModels, this`modelLoads
      ensures Valid()
      ensures modelName == "" ==> r == None && unchanged(this)
      ensures modelName != "" ==>
        && r == Some(old(graph.next))
        && graph == Place(old(graph), ObjectRoot(load(modelName), modelName, position, rotation, scale),
                          TemplateParts(load(modelName)))
        && loadedModels == old(loadedModels)[modelName := load(modelName)]
        && modelLoads == old(modelLoads) + (if modelName in old(loadedModels) then [] else [modelName])
    {
      if modelName == "" {
        return None;
      }
      var t := ResolveModel(modelName);
      var id := graph.next;
      graph := Place(graph, ObjectRoot(t, modelName, position, rotation, scale), TemplateParts(t));
      r := Some(id);
    }

    /** `removeObject`: `null` gives `false`; any other object is detached (if it is a child at all)
        and the answer is `true`. */
    method RemoveObject(obj: Option<NodeId>) returns (ok: bool)
      requires Valid()
      modifies this`graph
      ensures Valid()
      ensures ok == obj.Some?
      ensures graph == if obj.Some? then old(graph).Remove(obj.value) else old(graph)
    {
      if obj.None? {
        return false;
      }
      graph := graph.Remove(obj.value);
      ok := true;
    }

    /** `duplicateObject`: `null` gives `null`; otherwise the clone, already added. */
    method DuplicateObject(obj: Option<NodeId>) returns (r: Option<NodeId>)
      requires Valid() && (obj.Some? ==> obj.value in graph.nodes)
      modifies this`graph
      ensures Valid()
      ensures obj.None? ==> r == None && graph == old(graph)
      ensures obj.Some? ==> r == Some(old(graph.next)) && graph == Duplicate(old(graph), obj.value)
    {
      if obj.None? {
        return None;
      }
      var id := graph.next;
      graph := Duplicate(graph, obj.value);
      r := Some(id);
    }

    /** `clearScene`: collects the owners of the selectable nodes, then removes them one by one. */
    method ClearScene()
      requires Valid()
      modifies this`graph
      ensures Valid()
      ensures graph == Cleared(old(graph))
    {
      var objectsToRemove := CollectOwners(graph.nodes, graph.Visit());
      graph := RemoveObjects(graph, objectsToRemove);
    }

    /** `addAmbientLight` then `addDirectionalLight`: the four light objects follow the children
        there were. */
    method AddLights()
      requires Valid()
      modifies this`graph, this`light
      ensures Valid() && light.Some? && LightsAt(graph, old(graph.children), old(graph.next))
    {
      ghost var g0 := graph;
      AddAmbientLight();
      var _ := AddDirectionalLight();
      assert graph == WithSun(AddPlain(g0));
      LightsAppended(g0);
    }

    /** `addAmbientLight`, `addDirectionalLight` and `addGround(texture, repeats)` in a row: the four
        light objects follow the children there were, and the ground wears the given texture. */
    method AddLightsAndGround(texture: string, repeats: real)
      requires Valid()
      modifies this`graph, this`light, this`ground
      ensures Valid() && ground.Some? && light.Some?
      ensures LightsAt(graph, old(graph.children), old(graph.next))
      ensures graph.nodes[ground.value].material == Single(GroundMaterial(texture, repeats))
    {
      ghost var g0, oldGround := graph, ground;
      assert oldGround.Some? ==> oldGround.value < g0.next;
      AddLights();
      ghost var g1 := graph;
      var _ := AddGround(texture, repeats);
      if oldGround.Some? {
        assert graph == Retextured(g1, oldGround.value, texture, repeats);
        RetexturedKeepsLights(g1, g0.children, g0.next, oldGround.value, texture, repeats);
      } else {
        assert graph == Retextured(WithGround(g1), g1.next, texture, repeats);
        WithGroundKeepsLights(g1, g0.children, g0.next);
        RetexturedKeepsLights(WithGround(g1), g0.children, g0.next, g1.next, texture, repeats);
      }
    }

    /** `addGround`: the ground mesh is created once (a plain mesh, not selectable), then retextured. */
    method AddGround(texture: string, repeats: real) returns (r: Option<NodeId>)
      requires Valid()
      modifies this`graph, this`ground
      ensures Valid() && ground.Some? && r == ground
      ensures old(ground).Some? ==> ground == old(ground) && graph == Retextured(old(graph), ground.value, texture, repeats)
      ensures old(ground).None? ==>
        && ground == Some(old(graph.next))
        && graph == Retextured(WithGround(old(graph)), ground.value, texture, repeats)
    {
      if ground.None? {
        var id := graph.next;
        graph := WithGround(graph);
        ground := Some(id);
      }
      r := ChangeGround(texture, repeats);
    }

    /** `changeGround`: without a ground, `null` and nothing changes; otherwise the ground's
        material is replaced. */
    method ChangeGround(texture: string, repeats: real) returns (r: Option<NodeId>)
      requires Valid()
      modifies this`graph
      ensures Valid() && r == ground
      ensures ground.None? ==> graph == old(graph)
      ensures ground.Some? ==> graph == Retextured(old(graph), ground.value, texture, repeats)
    {
      if ground.None? {
        return None;
      }
      graph := Retextured(graph, ground.value, texture, repeats);
      r := ground;
    }

    /** `mesh.material = m` on a node of the scene. */
    method SetMaterial(id: NodeId, m: Material)
      requires Valid() && id in graph.nodes
      modifies this`graph
      ensures Valid() && graph == Rematerial(old(graph), id, m)
    {
      graph := Rematerial(graph, id, m);
    }

    /** `object.position.copy(p)` on a node of the scene. */
    method SetPosition(id: NodeId, p: Vec3)
      requires Valid() && id in graph.nodes
      modifies this`graph
      ensures Valid() && graph == old(graph).Update(id, old(graph).nodes[id].(position := p))
    {
      graph := graph.Update(id, graph.nodes[id].(position := p));
    }

    /** `updateSun`: without a light, `null` and nothing changes; otherwise a field-wise merge. */
    method UpdateSun(p: SunUpdate) returns (r: Option<Light>)
      requires Valid()
      modifies this`light
      ensures Valid() && r == light
      ensures old(light).None? ==> light == None
      ensures old(light).Some? ==> light == Some(MergeSun(old(light).value, p))
    {
      if light.None? {
        return None;
      }
      light := Some(MergeSun(light.value, p));
      r := light;
    }

    /** The node loop of `loadScene` / `importScene`. */
    method PlaceNodes(ds: seq<DocNode>)
      requires Valid()
      modifies this`graph, this`loadedModels, this`modelLoads
      ensures Valid()
      ensures graph == PlaceDocNodes(old(graph), ds, load, number)
      ensures forall m :: m in loadedModels <==> m in old(loadedModels) || m in Named(ds)
      ensures old(modelLoads) <= modelLoads
    {
      ghost var g0, m0 := graph, loadedModels;
      var i := 0;
      while i < |ds|
        invariant 0 <= i <= |ds|
        invariant Valid() && g0.Valid()
        invariant graph == PlaceDocNodes(g0, ds[..i], load, number)
        invariant forall m :: m in loadedModels <==> m in m0 || m in Named(ds[..i])
        invariant old(modelLoads) <= modelLoads
      {
        var node := ds[i];
        assert ds[..i + 1] == ds[..i] + [node];
        PlaceDocNodesSnoc(g0, ds[..i], node, load, number);
        NamedSnoc(ds[..i], node);
        PlaceEntry(node);
        i := i + 1;
      }
      assert ds[..i] == ds;
    }

    /** One turn of that loop: an entry without a name is skipped, any other places one instance
        of its (cached) model. */
    method PlaceEntry(node: DocNode)
      requires Valid()
      modifies this`graph, this`loadedModels, this`modelLoads
      ensures Valid()
      ensures graph == PlaceDoc(old(graph), node, load, number)
      ensures forall m :: m in loadedModels <==> m in old(loadedModels) || (node.name != "" && m == node.name)
      ensures old(modelLoads) <= modelLoads
    {
      if node.name == "" {
        return;
      }
      var baseModel := ResolveModel(node.name);
      graph := Place(graph, DocRoot(baseModel, node, number), TemplateParts(baseModel));
    }

    /** `loadScene`: a failed fetch (`None`) throws before anything changes; otherwise the
        document's params are kept and its nodes placed. */
    method LoadScene(response: Option<Document>) returns (r: Option<Document>)
      requires Valid()
      modifies this`graph, this`loadedModels, this`modelLoads, this`currentSceneParams
      ensures Valid() && r == response
      ensures response.None? ==> unchanged(this)
      ensures response.Some? ==>
        && currentSceneParams == response.value.params.GetOr(NoParams)
        && graph == PlaceDocNodes(old(graph), response.value.nodes.GetOr([]), load, number)
        && (forall m :: m in loadedModels <==> m in old(loadedModels) || m in Named(response.value.nodes.GetOr([])))
    {
      if response.None? {
        return None;
      }
      var sceneData := response.value;
      currentSceneParams := sceneData.params.GetOr(NoParams);
      PlaceNodes(sceneData.nodes.GetOr([]));
      r := response;
    }

    /** `importScene`: without a file nothing happens; otherwise the scene is cleared, the
        document's nodes placed, and the caller's skybox and ground applied when given. */
    method ImportScene(file: Option<Document>, params: Option<SceneParams>) returns (r: Option<Document>)
      requires Valid()
      modifies this`graph, this`loadedModels, this`modelLoads, this`currentSceneParams
      modifies this`loadedSkyboxes, this`skyboxLoads, this`background, this`environment
      ensures Valid() && r == file
      ensures file.None? ==> unchanged(this)
      ensures file.Some? ==>
        && currentSceneParams == file.value.params.GetOr(NoParams)
        && graph == Imported(old(graph), file.value, params, ground, load, number)
        && (forall m :: m in loadedModels <==> m in old(loadedModels) || m in Named(file.value.nodes.GetOr([])))
      ensures file.Some? && SkyboxGiven(params) ==>
        var f := params.value.skyboxFile.value;
        && background == Some(Texture(SkyboxPath(f))) && environment == background
        && loadedSkyboxes == old(loadedSkyboxes)[f := Texture(SkyboxPath(f))]
      ensures !(file.Some? && SkyboxGiven(params)) ==>
        && background == old(background) && environment == old(environment)
        && loadedSkyboxes == old(loadedSkyboxes) && skyboxLoads == old(skyboxLoads)
    {
      if file.None? {
        return None;
      }
      ImportDocument(file.value, params);
      r := file;
    }

    /** The `importScene` steps once the file's document `sceneData` is read: clear, store the
        params, place the nodes, apply the caller's skybox and ground. */
    method ImportDocument(sceneData: Document, params: Option<SceneParams>)
      requires Valid()
      modifies this`graph, this`loadedModels, this`modelLoads, this`currentSceneParams
      modifies this`loadedSkyboxes, this`skyboxLoads, this`background, this`environment
      ensures Valid()
      ensures currentSceneParams == sceneData.params.GetOr(NoParams)
      ensures graph == Imported(old(graph), sceneData, params, ground, load, number)
      ensures forall m :: m in loadedModels <==> m in old(loadedModels) || m in Named(sceneData.nodes.GetOr([]))
      ensures SkyboxGiven(params) ==>
        var f := params.value.skyboxFile.value;
        && background == Some(Texture(SkyboxPath(f))) && environment == background
        && loadedSkyboxes == old(loadedSkyboxes)[f := Texture(SkyboxPath(f))]
      ensures !SkyboxGiven(params) ==>
        && background == old(background) && environment == old(environment)
        && loadedSkyboxes == old(loadedSkyboxes) && skyboxLoads == old(skyboxLoads)
    {
      ClearScene();
      currentSceneParams := sceneData.params.GetOr(NoParams);
      PlaceNodes(sceneData.nodes.GetOr([]));
      ApplyParams(params);
    }

    /** The `if (params)` step of `importScene`. */
    method ApplyParams(params: Option<SceneParams>)
      requires Valid()
      modifies this`graph, this`loadedSkyboxes, this`skyboxLoads, this`background, this`environment
      ensures Valid()
      ensures graph == Regrounded(old(graph), ground, params)
      ensures SkyboxGiven(params) ==>
        var f := params.value.skyboxFile.value;
        && background == Some(Texture(SkyboxPath(f))) && environment == background
        && loadedSkyboxes == old(loadedSkyboxes)[f := Texture(SkyboxPath(f))]
      ensures !SkyboxGiven(params) ==>
        && background == old(background) && environment == old(environment)
        && loadedSkyboxes == old(loadedSkyboxes) && skyboxLoads == old(skyboxLoads)
    {
      if params.Some? {
        if Truthy(params.value.skyboxFile) {
          var _ := AddSkybox(params.value.skyboxFile.value);
        }
        if Truthy(params.value.groundTexture) && TruthyNumber(params.value.groundRepeats) {
          var _ := ChangeGround(params.value.groundTexture.value, params.value.groundRepeats.value);
        }
      }
    }
  }
}
