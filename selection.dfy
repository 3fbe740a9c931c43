/** The highlight-and-restore discipline of `selectMesh` / `clearSelection` in src/application.js,
    over the scene graph's materials. */
module Selection {
  import opened Wrappers
  import opened SceneGraph

  /** The controller's selection: `selectedObject`, `selectedMesh`, `selectedMeshMaterial`
      (`NoMaterial` standing for `null`). */
  datatype Sel = Sel(obj: Option<NodeId>, mesh: Option<NodeId>, saved: Material)

  const NoSelection: Sel := Sel(None, None, NoMaterial)

  /** Every id the selection holds names a node. */
  predicate Resolves(g: Graph, s: Sel)
  {
    (s.obj.Some? ==> s.obj.value in g.nodes) && (s.mesh.Some? ==> s.mesh.value in g.nodes)
  }

  /** The material a selected mesh wears: one highlight slot per slot of an array material, the
      highlight alone otherwise. */
  function Highlighted(m: Material): (h: Material)
    ensures h.Multi? <==> m.Multi?
    ensures m.Multi? ==> |h.mats| == |m.mats| && forall i :: 0 <= i < |h.mats| ==> h.mats[i] == Highlight
    ensures !m.Multi? ==> h == Single(Highlight)
  {
    if m.Multi? then Multi(seq(|m.mats|, _ => Highlight)) else Single(Highlight)
  }

  /** The material wears the highlight somewhere. */
  predicate HasHighlight(m: Material)
  {
    m == Single(Highlight) || (m.Multi? && Highlight in m.mats)
  }

  /** The material step of `clearSelection`: the saved material goes back on the selected mesh,
      provided both are set (a `null` saved material is not restored). */
  function Restored(g: Graph, s: Sel): (r: Graph)
    requires g.Valid() && Resolves(g, s)
    ensures r.Valid() && r.children == g.children && r.nodes.Keys == g.nodes.Keys && OnlyMaterials(g, r)
    ensures forall id :: id in g.nodes && Some(id) != s.mesh ==> r.nodes[id] == g.nodes[id]
  {
    if s.mesh.Some? && s.saved != NoMaterial then Rematerial(g, s.mesh.value, s.saved) else g
  }

  /** `selectMesh(object, mesh)`: the mesh already selected changes nothing; otherwise the old
      selection is restored, the mesh's material saved and replaced by the highlight. */
  function Select(g: Graph, s: Sel, obj: NodeId, mesh: NodeId): (r: (Graph, Sel))
    requires g.Valid() && Resolves(g, s) && obj in g.nodes && mesh in g.nodes
    ensures r.0.Valid() && Resolves(r.0, r.1) && r.0.children == g.children && r.0.nodes.Keys == g.nodes.Keys
    ensures OnlyMaterials(g, r.0) && r.1.mesh == Some(mesh)
    ensures forall id :: id in g.nodes && Some(id) != s.mesh && id != mesh ==> r.0.nodes[id] == g.nodes[id]
  {
    if s.mesh == Some(mesh) then (g, s)
    else
      var h := Restored(g, s);
      var original := h.nodes[mesh].material;
      var r := Rematerial(h, mesh, Highlighted(original));
      OnlyMaterialsTrans(g, h, r);
      (r, Sel(Some(obj), Some(mesh), original))
  }

  lemma OnlyMaterialsTrans(a: Graph, b: Graph, c: Graph)
    requires OnlyMaterials(a, b) && OnlyMaterials(b, c)
    ensures OnlyMaterials(a, c)
  {
    forall k | k in a.nodes
      ensures c.nodes[k].(material := a.nodes[k].material) == a.nodes[k]
    {
      assert c.nodes[k].(material := a.nodes[k].material) == c.nodes[k].(material := b.nodes[k].material).(material := a.nodes[k].material);
    }
  }

  /** At most one mesh wears the highlight: the selected one, whose saved material is set,
      highlight-free, and what the highlight was built from. */
  predicate HighlightOnSelection(g: Graph, s: Sel)
  {
    && Resolves(g, s)
    && (forall id :: id in g.nodes && Some(id) != s.mesh ==> !HasHighlight(g.nodes[id].material))
    && (s.mesh.Some? ==>
          s.saved != NoMaterial && !HasHighlight(s.saved) && g.nodes[s.mesh.value].material == Highlighted(s.saved))
  }

  /** Selecting mesh `mesh` of `object` and then clearing the selection gives back the materials
      that clearing alone would have left, whenever the mesh has a material. */
  lemma SelectThenClear(g: Graph, s: Sel, obj: NodeId, mesh: NodeId)
    requires g.Valid() && Resolves(g, s) && obj in g.nodes && mesh in g.nodes
    requires Restored(g, s).nodes[mesh].material != NoMaterial
    ensures var r := Select(g, s, obj, mesh);
      Restored(r.0, r.1).nodes == Restored(g, s).nodes
  {
    if s.mesh != Some(mesh) {
      var h := Restored(g, s);
      var n := h.nodes[mesh];
      assert h.nodes[mesh := n.(material := Highlighted(n.material))][mesh := n] == h.nodes;
    }
  }

  /** A node without a material (a group selected as itself) keeps the highlight once the
      selection is cleared, since there is no saved material to put back. */
  lemma SelectMaterialLessThenClear(g: Graph, s: Sel, obj: NodeId, mesh: NodeId)
    requires g.Valid() && Resolves(g, s) && obj in g.nodes && mesh in g.nodes
    requires s.mesh != Some(mesh) && g.nodes[mesh].material == NoMaterial
    ensures var r := Select(g, s, obj, mesh);
      Restored(r.0, r.1).nodes[mesh].material == Single(Highlight)
  {
  }

  /** Selecting a mesh that has a highlight-free material keeps the highlight on the selection alone. */
  lemma SelectKeepsHighlightOnSelection(g: Graph, s: Sel, obj: NodeId, mesh: NodeId)
    requires g.Valid() && HighlightOnSelection(g, s) && obj in g.nodes && mesh in g.nodes
    requires s.mesh != Some(mesh) ==> g.nodes[mesh].material != NoMaterial
    ensures var r := Select(g, s, obj, mesh);
      HighlightOnSelection(r.0, r.1)
  {
    if s.mesh != Some(mesh) {
      ClearRemovesHighlight(g, s);
      var h := Restored(g, s);
      assert h.nodes[mesh] == g.nodes[mesh];
      var r := Select(g, s, obj, mesh);
      assert r.0.nodes == h.nodes[mesh := h.nodes[mesh].(material := Highlighted(h.nodes[mesh].material))];
      assert r.1 == Sel(Some(obj), Some(mesh), h.nodes[mesh].material);
      HighlightAt(h, obj, mesh, r.0);
    }
  }

  /** Highlighting one mesh of a graph that wears no highlight leaves the highlight on that mesh alone. */
  lemma HighlightAt(h: Graph, obj: NodeId, mesh: NodeId, r: Graph)
    requires obj in h.nodes && mesh in h.nodes && h.nodes[mesh].material != NoMaterial
    requires forall id :: id in h.nodes ==> !HasHighlight(h.nodes[id].material)
    requires r.nodes == h.nodes[mesh := h.nodes[mesh].(material := Highlighted(h.nodes[mesh].material))]
    ensures HighlightOnSelection(r, Sel(Some(obj), Some(mesh), h.nodes[mesh].material))
  {
  }

  /** Clearing such a selection leaves no highlight anywhere. */
  lemma ClearRemovesHighlight(g: Graph, s: Sel)
    requires g.Valid() && HighlightOnSelection(g, s)
    ensures forall id :: id in g.nodes ==> !HasHighlight(Restored(g, s).nodes[id].material)
  {
    var r := Restored(g, s);
    forall id | id in g.nodes
      ensures !HasHighlight(r.nodes[id].material)
    {
      if Some(id) == s.mesh {
        assert r.nodes[id].material == s.saved;
      }
    }
  }

  /** A material that has a slot wears the highlight once highlighted. */
  lemma HighlightedShows(m: Material)
    requires m != Multi([])
    ensures HasHighlight(Highlighted(m))
  {
    if m.Multi? {
      assert Highlighted(m).mats[0] == Highlight;
    }
  }
}
