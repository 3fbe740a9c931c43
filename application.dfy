/** `Application` of src/application.js: the editor's selection, its keyboard, pointer and mouse
    handlers, and the scene-level commands it forwards to `Scene`. The pure functions below give
    the state each handler leaves; the class's methods are proved to leave exactly that state. */
module Editor {
  import opened Wrappers
  import opened Seqs
  import opened SceneGraph
  import opened Codec
  import opened SceneStore
  import opened Selection
  import opened Panel

  /** `skyboxParams.file` and `groundParams` as `initParams` sets them. */
  const DefaultSkybox := "DaySkyHDRI019A_2K-TONEMAPPED.jpg"
  const DefaultGroundTexture := "aerial_grass_rock"
  const DefaultGroundRepeats := 100.0

  /** `{ skybox: this.skyboxParams, ground: this.groundParams }` as `initParams` sets them. */
  const EditorParams := SceneParams(Some(DefaultSkybox), Some(DefaultGroundTexture), Some(DefaultGroundRepeats))

  /** Everything the editing handlers read and write: the scene graph, the selection, the
      selection folder, and `moveSelectedObject`. */
  datatype Editing = Editing(graph: Graph, sel: Sel, folder: Folder, moving: bool)

  /** Every id the state holds names a node of its graph. */
  predicate Coherent(e: Editing)
  {
    e.graph.Valid() && Resolves(e.graph, e.sel) && (e.folder.ref.Some? ==> e.folder.ref.value in e.graph.nodes)
  }

  // ---------------------------------------------------------------- selection

  /** `clearSelection`: the saved material goes back, all three selection fields become `null`,
      and the folder is hidden. */
  function Deselect(e: Editing, fixed: NumberFormatter): (r: Editing)
    requires Coherent(e)
    ensures Coherent(r) && OnlyMaterials(e.graph, r.graph)
    ensures r.sel.obj == None && r.sel.mesh == None && r.sel.saved == NoMaterial && r.moving == e.moving
    ensures !r.folder.visible && r.folder.ref == e.folder.ref && r.folder.data == e.folder.data
  {
    Editing(Restored(e.graph, e.sel), NoSelection, AfterUpdate(e.folder, true, None, e.graph.nodes, fixed), e.moving)
  }

  /** `selectMesh(obj, mesh)`: the mesh already selected changes nothing; otherwise the selection
      moves to `mesh` of `obj` and the folder shows `obj`. */
  function Pick(e: Editing, obj: NodeId, mesh: NodeId, fixed: NumberFormatter): (r: Editing)
    requires Coherent(e) && obj in e.graph.nodes && mesh in e.graph.nodes
    ensures Coherent(r) && OnlyMaterials(e.graph, r.graph) && r.moving == e.moving
    ensures (r.graph, r.sel) == Select(e.graph, e.sel, obj, mesh)
    ensures e.sel.mesh == Some(mesh) ==> r == e
    ensures e.sel.mesh != Some(mesh) ==>
      && r.sel.obj == Some(obj) && r.sel.mesh == Some(mesh)
      && r.folder == Folder(true, Displayed(r.graph.nodes[obj], fixed), Some(obj))
  {
    if e.sel.mesh == Some(mesh) then e
    else
      var r := Select(e.graph, e.sel, obj, mesh);
      Editing(r.0, r.1, AfterUpdate(AfterUpdate(e.folder, true, None, e.graph.nodes, fixed), true, Some(obj), r.0.nodes, fixed),
              e.moving)
  }

  /** `selectMesh` on a new mesh is `clearSelection` followed by the highlight steps. */
  lemma PickAfterDeselect(e: Editing, obj: NodeId, mesh: NodeId, fixed: NumberFormatter)
    requires Coherent(e) && obj in e.graph.nodes && mesh in e.graph.nodes && e.sel.mesh != Some(mesh)
    ensures var d := Deselect(e, fixed);
      var g := Rematerial(d.graph, mesh, Highlighted(d.graph.nodes[mesh].material));
      Pick(e, obj, mesh, fixed)
        == Editing(g, Sel(Some(obj), Some(mesh), d.graph.nodes[mesh].material),
                   AfterUpdate(d.folder, true, Some(obj), g.nodes, fixed), d.moving)
  {
  }

  /** Selecting a mesh that has a material and then clearing the selection leaves the scene's
      materials as clearing alone would have, and the folder hidden but still bound to `obj`. */
  lemma PickThenDeselect(e: Editing, obj: NodeId, mesh: NodeId, fixed: NumberFormatter)
    requires Coherent(e) && obj in e.graph.nodes && mesh in e.graph.nodes
    requires e.sel.mesh != Some(mesh) && Restored(e.graph, e.sel).nodes[mesh].material != NoMaterial
    ensures var r := Deselect(Pick(e, obj, mesh, fixed), fixed);
      && r.graph.nodes == Deselect(e, fixed).graph.nodes
      && r.sel == NoSelection && !r.folder.visible && r.folder.ref == Some(obj)
  {
    SelectThenClear(e.graph, e.sel, obj, mesh);
  }

  /** The position of the first id in `ids` whose node passes `test`, as `Array.prototype.find`
      meets it; no earlier id passes. */
  function FindIndex(nodes: map<NodeId, Node>, ids: seq<NodeId>, test: Node -> bool): (r: Option<nat>)
    ensures r.Some? ==> r.value < |ids| && ids[r.value] in nodes && test(nodes[ids[r.value]])
    ensures forall i :: 0 <= i < |ids| && (r.None? || i < r.value) ==> !(ids[i] in nodes && test(nodes[ids[i]]))
    decreases |ids|
  {
    if ids == [] then None
    else if ids[0] in nodes && test(nodes[ids[0]]) then Some(0)
    else
      match FindIndex(nodes, ids[1..], test)
      case None => None
      case Some(i) => Some(i + 1)
  }

  /** The tests the two searches apply: a direct child that is a mesh, and a selectable node. */
  predicate IsDirectMesh(n: Node)
  {
    n.directChild && n.isMesh
  }

  predicate IsSelectable(n: Node)
  {
    n.selectable
  }

  /** `object.children.find(child => child.isMesh)`: the first direct mesh child, if any. */
  function FirstDirectMesh(nodes: map<NodeId, Node>, id: NodeId): (r: Option<NodeId>)
    requires id in nodes
    ensures r.Some? ==> r.value in nodes[id].parts && r.value in nodes && nodes[r.value].directChild && nodes[r.value].isMesh
    ensures r.Some? ==> exists i ::
      && 0 <= i < |nodes[id].parts| && nodes[id].parts[i] == r.value
      && forall k :: 0 <= k < i ==> !(nodes[id].parts[k] in nodes && IsDirectMesh(nodes[nodes[id].parts[k]]))
    ensures r.None? ==> forall k :: k in nodes[id].parts && k in nodes ==> !(nodes[k].directChild && nodes[k].isMesh)
  {
    var parts := nodes[id].parts;
    match FindIndex(nodes, parts, IsDirectMesh)
    case None => None
    case Some(i) => Some(parts[i])
  }

  // ---------------------------------------------------------------- handlers

  /** `onPointerClick` given whether the click was on the canvas and the objects the ray hit,
      nearest first: the first selectable hit is selected with its owner (`userData.object`, itself
      if none); a click hitting nothing selectable clears the selection. */
  function Clicked(e: Editing, onCanvas: bool, hits: seq<NodeId>, fixed: NumberFormatter): (r: Editing)
    requires Coherent(e)
    ensures Coherent(r)
  {
    if !onCanvas then e
    else
      match FindIndex(e.graph.nodes, hits, IsSelectable)
      case None => Deselect(e, fixed)
      case Some(i) =>
        var mesh := hits[i];
        Pick(e, e.graph.nodes[mesh].owner.GetOr(mesh), mesh, fixed)
  }

  /** In a scene whose back-references are right, clicking a mesh of a top-level object selects
      that mesh with that object; a click that hits nothing selectable leaves nothing selected. */
  lemma ClickSelectsOwner(e: Editing, hits: seq<NodeId>, fixed: NumberFormatter, c: NodeId)
    requires Coherent(e) && Tagged(e.graph)
    ensures var f := FindIndex(e.graph.nodes, hits, IsSelectable);
      && (f.None? ==> Clicked(e, true, hits, fixed).sel == NoSelection)
      && (f.Some? && c in e.graph.children && c in e.graph.nodes && hits[f.value] in e.graph.nodes[c].parts
          && e.graph.nodes[hits[f.value]].isMesh ==>
            && Clicked(e, true, hits, fixed).sel.mesh == Some(hits[f.value])
            && (e.sel.mesh != Some(hits[f.value]) ==> Clicked(e, true, hits, fixed).sel.obj == Some(c)))
  {
  }

  /** `deleteSelectedObject`: without a selection nothing happens; otherwise the selected object
      is detached from the scene and the selection cleared. */
  function Deleted(e: Editing, fixed: NumberFormatter): (r: Editing)
    requires Coherent(e)
    ensures Coherent(r)
  {
    if e.sel.obj.None? then e else Deselect(e.(graph := e.graph.Remove(e.sel.obj.value)), fixed)
  }

  /** Deleting removes the selected object, and only it, from the scene's children, keeps every node,
      and leaves nothing selected; without a selection it changes nothing. */
  lemma DeleteDetaches(e: Editing, fixed: NumberFormatter)
    requires Coherent(e)
    ensures e.sel.obj.None? ==> Deleted(e, fixed) == e
    ensures e.sel.obj.Some? ==>
      var r := Deleted(e, fixed);
      && r.graph.children == Without(e.graph.children, e.sel.obj.value)
      && e.sel.obj.value !in r.graph.children
      && r.graph.nodes.Keys == e.graph.nodes.Keys && r.sel == NoSelection
  {
  }

  /** `duplicateSelectedObject` as written: `duplicateObject` runs twice (once inside the logging
      call), then the second clone is selected with its first direct mesh, or itself. */
  function Duplicated(e: Editing, fixed: NumberFormatter): (r: Editing)
    requires Coherent(e)
    ensures Coherent(r)
  {
    if e.sel.obj.None? then e
    else
      var o := e.sel.obj.value;
      var g1 := Duplicate(e.graph, o);
      var g2 := Duplicate(g1, o);
      var d := g1.next;
      Pick(e.(graph := g2), d, FirstDirectMesh(g2.nodes, d).GetOr(d), fixed)
  }

  /** With an object selected, `duplicateSelectedObject` selects the second clone in the graph
      the two duplicates leave. */
  lemma DuplicatedSelects(e: Editing, fixed: NumberFormatter)
    requires Coherent(e) && e.sel.obj.Some?
    ensures var o := e.sel.obj.value;
      var g1 := Duplicate(e.graph, o);
      var g2 := Duplicate(g1, o);
      var m := FirstDirectMesh(g2.nodes, g1.next).GetOr(g1.next);
      && Coherent(e.(graph := g2)) && g1.next in g2.nodes && m in g2.nodes
      && Duplicated(e, fixed) == Pick(e.(graph := g2), g1.next, m, fixed)
  {
  }

  /** Duplicating adds two clones of the selected object, both at the same spot one unit along x,
      and selects the second one. */
  lemma DuplicateMakesTwo(e: Editing, fixed: NumberFormatter)
    requires Coherent(e) && e.sel.obj.Some?
    ensures var o := e.sel.obj.value;
      var g1 := Duplicate(e.graph, o);
      var r := Duplicated(e, fixed);
      && r.graph.children == e.graph.children + [e.graph.next] + [g1.next]
      && r.sel.obj == Some(g1.next) && e.graph.next != g1.next
      && r.graph.nodes[e.graph.next].position == r.graph.nodes[g1.next].position
         == Vec3(e.graph.nodes[o].position.x + 1.0, e.graph.nodes[o].position.y, e.graph.nodes[o].position.z)
  {
    var o := e.sel.obj.value;
    var g1 := Duplicate(e.graph, o);
    var g2 := Duplicate(g1, o);
    DuplicateTwice(e.graph, o);
    var d := g1.next;
    var m := FirstDirectMesh(g2.nodes, d).GetOr(d);
    DuplicateFresh(g1, o, m);
    assert Duplicated(e, fixed) == Pick(e.(graph := g2), d, m, fixed);
  }

  /** The graph after the two `duplicateObject` calls: two new children at the same position. */
  lemma DuplicateTwice(g: Graph, o: NodeId)
    requires g.Valid() && o in g.nodes
    ensures var g1 := Duplicate(g, o);
      var g2 := Duplicate(g1, o);
      && g2.children == g.children + [g.next] + [g1.next] && g.next != g1.next && g.next in g1.nodes
      && g2.nodes[g.next].position == g2.nodes[g1.next].position
         == Vec3(g.nodes[o].position.x + 1.0, g.nodes[o].position.y, g.nodes[o].position.z)
  {
    var g1 := Duplicate(g, o);
    DuplicateRoot(g, o);
    DuplicateRoot(g1, o);
    assert g1.nodes[o] == g.nodes[o] && Duplicate(g1, o).nodes[g.next] == g1.nodes[g.next];
  }

  /** A mesh of the selected object wears the highlight, so a duplicate taken while it is selected
      copies the highlight onto the first clone, where no later clearing removes it: the highlight
      is then on an unselected mesh. */
  lemma DuplicateSpreadsHighlight(e: Editing, fixed: NumberFormatter, j: nat)
    requires Coherent(e) && HighlightOnSelection(e.graph, e.sel) && e.sel.obj.Some? && e.sel.mesh.Some?
    requires j < |e.graph.nodes[e.sel.obj.value].parts| && e.graph.nodes[e.sel.obj.value].parts[j] == e.sel.mesh.value
    requires e.graph.nodes[e.sel.mesh.value].isMesh && e.sel.saved != Multi([])
    ensures var r := Duplicated(e, fixed);
      !HighlightOnSelection(r.graph, r.sel)
  {
    var o := e.sel.obj.value;
    var g1 := Duplicate(e.graph, o);
    var g2 := Duplicate(g1, o);
    var d := g1.next;
    var m := FirstDirectMesh(g2.nodes, d).GetOr(d);
    DuplicateFresh(g1, o, m);
    var r := Pick(e.(graph := g2), d, m, fixed);
    assert Duplicated(e, fixed) == r;
    CloneKeepsHighlight(e.graph, e.sel, o, j, d, m);
  }

  /** The graph-level half: after the two duplicates, selecting any new mesh leaves part `j` of the
      first clone (a copy of the highlighted mesh) highlighted and unselected. */
  lemma CloneKeepsHighlight(g: Graph, s: Sel, o: NodeId, j: nat, d: NodeId, m: NodeId)
    requires g.Valid() && HighlightOnSelection(g, s) && o in g.nodes && s.mesh.Some?
    requires j < |g.nodes[o].parts| && g.nodes[o].parts[j] == s.mesh.value
    requires g.nodes[s.mesh.value].isMesh && s.saved != Multi([])
    requires var g2 := Duplicate(Duplicate(g, o), o);
      d in g2.nodes && m in g2.nodes && m !in Duplicate(g, o).nodes
    ensures var g2 := Duplicate(Duplicate(g, o), o);
      var r := Select(g2, s, d, m);
      !HighlightOnSelection(r.0, r.1)
  {
    var g1 := Duplicate(g, o);
    var g2 := Duplicate(g1, o);
    DuplicatePart(g, o, j);
    var k := g1.nodes[g.next].parts[j];
    assert g1.nodes[k].material == Highlighted(s.saved);
    HighlightedShows(s.saved);
    assert k in g1.nodes && k != m && Some(k) != s.mesh;
    var r := Select(g2, s, d, m);
    assert r.0.nodes[k] == g2.nodes[k] == g1.nodes[k];
    assert k in r.0.nodes && Some(k) != r.1.mesh && HasHighlight(r.0.nodes[k].material);
  }

  /** The corrected drag step: the object follows the point where the ray meets the ground plane,
      keeping its height. */
  function Dragged(position: Vec3, hit: Vec3): (r: Vec3)
    ensures r.x == hit.x && r.y == position.y && r.z == hit.z
  {
    Vec3(hit.x, position.y, hit.z)
  }

  /** The drag step as written: `intersectPlane` leaves its target at (0, 0, 0) when the ray misses
      the plane, and the `if (intersection)` guard tests the always-truthy vector. */
  function DraggedAsWritten(position: Vec3, hit: Option<Vec3>): Vec3
  {
    var intersection := hit.GetOr(Origin);
    Vec3(intersection.x, position.y, intersection.z)
  }

  /** A ray that misses the ground plane (the pointer above the horizon) sends the dragged object
      to x = z = 0 as written, whatever its position. */
  lemma MissedRayJumpsToAxis(position: Vec3)
    ensures DraggedAsWritten(position, None) == Vec3(0.0, position.y, 0.0)
  {
  }

  /** On a hit the two agree: the correction only changes what happens on a miss. */
  lemma DraggedAgreesOnHit(position: Vec3, hit: Vec3)
    ensures DraggedAsWritten(position, Some(hit)) == Dragged(position, hit)
  {
  }

  /** `onMouseMove` as written, given whether the event was on the canvas and where the ray meets
      the ground plane (`None` when it misses): while moving is on and something is selected, the
      selected object takes the x and z of `intersection` (the origin on a miss) and the folder
      shows it; otherwise nothing changes. */
  function MouseMoved(e: Editing, onCanvas: bool, hit: Option<Vec3>, fixed: NumberFormatter): (r: Editing)
    requires Coherent(e)
    ensures Coherent(r) && r.graph.children == e.graph.children && r.sel == e.sel && r.moving == e.moving
    ensures !e.moving || e.sel.obj.None? || !onCanvas ==> r == e
  {
    if !e.moving || e.sel.obj.None? || !onCanvas then e
    else
      var id := e.sel.obj.value;
      var n := e.graph.nodes[id];
      var g := e.graph.Update(id, n.(position := DraggedAsWritten(n.position, hit)));
      Editing(g, e.sel, AfterUpdate(e.folder, true, e.sel.obj, g.nodes, fixed), e.moving)
  }

  /** `onMouseMove` as evidently intended: as written, except that a ray missing the ground plane
      changes nothing. */
  function MouseMovedCorrected(e: Editing, onCanvas: bool, hit: Option<Vec3>, fixed: NumberFormatter): (r: Editing)
    requires Coherent(e)
    ensures Coherent(r) && r.graph.children == e.graph.children && r.sel == e.sel && r.moving == e.moving
    ensures !e.moving || e.sel.obj.None? || !onCanvas || hit.None? ==> r == e
  {
    if !e.moving || e.sel.obj.None? || !onCanvas || hit.None? then e
    else
      var id := e.sel.obj.value;
      var n := e.graph.nodes[id];
      var g := e.graph.Update(id, n.(position := Dragged(n.position, hit.value)));
      Editing(g, e.sel, AfterUpdate(e.folder, true, e.sel.obj, g.nodes, fixed), e.moving)
  }

  /** The handler as written and the corrected one agree on every hit; on a miss during a drag the
      one as written moves the selected object to x = z = 0 (keeping y), while the corrected one
      leaves the state alone. */
  lemma MouseMoveCorrection(e: Editing, onCanvas: bool, hit: Option<Vec3>, fixed: NumberFormatter)
    requires Coherent(e)
    ensures hit.Some? ==> MouseMoved(e, onCanvas, hit, fixed) == MouseMovedCorrected(e, onCanvas, hit, fixed)
    ensures hit.None? ==> MouseMovedCorrected(e, onCanvas, hit, fixed) == e
    ensures hit.None? && e.moving && e.sel.obj.Some? && onCanvas ==>
      var id := e.sel.obj.value;
      var r := MouseMoved(e, onCanvas, hit, fixed);
      && r.graph.nodes[id].position == Vec3(0.0, e.graph.nodes[id].position.y, 0.0)
      && r.folder.visible && r.folder.ref == Some(id)
  {
    if hit.Some? && e.moving && e.sel.obj.Some? && onCanvas {
      var n := e.graph.nodes[e.sel.obj.value];
      DraggedAgreesOnHit(n.position, hit.value);
    }
  }

  /** A drag moves the selected object within its horizontal plane to the hit point, shows it,
      and changes no other node and no other property. */
  lemma DragKeepsHeight(e: Editing, hit: Vec3, fixed: NumberFormatter)
    requires Coherent(e) && e.moving && e.sel.obj.Some?
    ensures var r := MouseMoved(e, true, Some(hit), fixed);
      var id := e.sel.obj.value;
      && r.graph.nodes[id] == e.graph.nodes[id].(position := Vec3(hit.x, e.graph.nodes[id].position.y, hit.z))
      && (forall k :: k in e.graph.nodes && k != id ==> r.graph.nodes[k] == e.graph.nodes[k])
      && r.graph.nodes.Keys == e.graph.nodes.Keys
      && r.folder.visible && r.folder.ref == Some(id)
  {
  }

  predicate IsToggleKey(key: string) { key == "g" || key == "G" }
  predicate IsDuplicateKey(key: string) { key == "d" || key == "D" }
  predicate IsDeleteKey(key: string) { key == "Delete" || key == "Backspace" }

  /** No key is bound twice, so the three tests of `onKeyDown` pick at most one action. */
  lemma KeysDisjoint(key: string)
    ensures !(IsToggleKey(key) && IsDuplicateKey(key)) && !(IsToggleKey(key) && IsDeleteKey(key))
    ensures !(IsDuplicateKey(key) && IsDeleteKey(key))
  {
  }

  /** `onKeyDown`: 'g'/'G' toggles moving; 'd'/'D' duplicates and 'Delete'/'Backspace' deletes
      the selected object, when there is one. */
  function KeyDown(e: Editing, key: string, fixed: NumberFormatter): (r: Editing)
    requires Coherent(e)
    ensures Coherent(r)
  {
    if IsToggleKey(key) then e.(moving := !e.moving)
    else if IsDuplicateKey(key) then Duplicated(e, fixed)
    else if IsDeleteKey(key) then Deleted(e, fixed)
    else e
  }

  /** Pressing 'g' twice gives back the state it started from; 'g' changes nothing but moving. */
  lemma ToggleTwice(e: Editing, key: string, fixed: NumberFormatter)
    requires Coherent(e) && IsToggleKey(key)
    ensures KeyDown(e, key, fixed) == e.(moving := !e.moving)
    ensures KeyDown(KeyDown(e, key, fixed), key, fixed) == e
  {
  }

  /** Any key but the toggle, duplicate and delete keys changes nothing. */
  lemma OtherKeysIgnored(e: Editing, key: string, fixed: NumberFormatter)
    requires Coherent(e) && !IsToggleKey(key) && !IsDuplicateKey(key) && !IsDeleteKey(key)
    ensures KeyDown(e, key, fixed) == e
  {
  }

  /** `addObjectToScene(name)` given the point `ahead` ten units in front of the camera: an empty
      name does nothing; otherwise the model is placed there at height 0 and selected with its
      first direct mesh, or itself. */
  function Added(e: Editing, name: string, t: Template, ahead: Vec3, fixed: NumberFormatter): (r: Editing)
    requires Coherent(e)
    ensures Coherent(r)
  {
    if name == "" then e
    else
      var g := Place(e.graph, ObjectRoot(t, name, Some(Vec3(ahead.x, 0.0, ahead.z)), None, None), TemplateParts(t));
      var id := e.graph.next;
      Pick(e.(graph := g), id, FirstDirectMesh(g.nodes, id).GetOr(id), fixed)
  }

  /** `addObjectToScene` selects the new object in the graph `addObject` leaves. */
  lemma AddedSelects(e: Editing, name: string, t: Template, ahead: Vec3, fixed: NumberFormatter)
    requires Coherent(e) && name != ""
    ensures var g := Place(e.graph, ObjectRoot(t, name, Some(Vec3(ahead.x, 0.0, ahead.z)), None, None), TemplateParts(t));
      var m := FirstDirectMesh(g.nodes, e.graph.next).GetOr(e.graph.next);
      && Coherent(e.(graph := g)) && e.graph.next in g.nodes && m in g.nodes
      && Added(e, name, t, ahead, fixed) == Pick(e.(graph := g), e.graph.next, m, fixed)
  {
  }

  /** A new object lands on the ground below the point ahead of the camera, named after its model,
      and becomes the selection. */
  lemma AddedIsSelected(e: Editing, name: string, t: Template, ahead: Vec3, fixed: NumberFormatter)
    requires Coherent(e) && name != ""
    ensures var r := Added(e, name, t, ahead, fixed);
      var n := r.graph.nodes[e.graph.next];
      && r.graph.children == e.graph.children + [e.graph.next]
      && r.sel.obj == Some(e.graph.next)
      && n.name == name && n.position == Vec3(ahead.x, 0.0, ahead.z)
      && n.quaternion == t.quaternion && n.scale == t.scale
      && r.folder.visible && r.folder.ref == Some(e.graph.next)
  {
    var root := ObjectRoot(t, name, Some(Vec3(ahead.x, 0.0, ahead.z)), None, None);
    var g := Place(e.graph, root, TemplateParts(t));
    var id := e.graph.next;
    var m := FirstDirectMesh(g.nodes, id).GetOr(id);
    assert m !in e.graph.nodes by {
      if m != id {
        PlacedParts(e.graph, root, TemplateParts(t));
      }
    }
    var s := Select(g, e.sel, id, m);
    assert Restored(g, e.sel).nodes[id] == g.nodes[id];
  }

  // ---------------------------------------------------------------- export

  /** The entries export writes for owners `ids`, in order. */
  function ExportAll(nodes: map<NodeId, Node>, ids: seq<NodeId>, show: NumberFormatter): (ds: seq<DocNode>)
    requires forall k :: 0 <= k < |ids| ==> ids[k] in nodes
    ensures |ds| == |ids| && forall i :: 0 <= i < |ids| ==> ds[i] == ExportNode(nodes[ids[i]], show)
    decreases |ids|
  {
    if ids == [] then [] else ExportAll(nodes, ids[..|ids| - 1], show) + [ExportNode(nodes[ids[|ids| - 1]], show)]
  }

  /** The `nodes` of an exported scene: one entry per owner of a selectable node. */
  function Exported(g: Graph, show: NumberFormatter): (ds: seq<DocNode>)
    requires g.Valid()
  {
    ExportOf(g.nodes, g.Visit(), show)
  }

  /** The entries for the distinct owners met along the visit order `vs`. */
  function ExportOf(nodes: map<NodeId, Node>, vs: seq<NodeId>, show: NumberFormatter): (ds: seq<DocNode>)
    requires forall id :: id in nodes && nodes[id].owner.Some? ==> nodes[id].owner.value in nodes
  {
    ParentsResolve(nodes, vs);
    DedupMembers(Parents(nodes, vs));
    ExportAll(nodes, Dedup(Parents(nodes, vs)), show)
  }

  /** One step of the export traversal: visiting `vs[i]` adds its owner to the owners met so far
      when it is selectable and its owner is new. */
  lemma OwnersStep(nodes: map<NodeId, Node>, vs: seq<NodeId>, i: nat)
    requires i < |vs|
    ensures var d, v := Dedup(Parents(nodes, vs[..i])), vs[i];
      Dedup(Parents(nodes, vs[..i + 1]))
        == if v in nodes && nodes[v].selectable && nodes[v].owner.GetOr(v) !in d
           then d + [nodes[v].owner.GetOr(v)] else d
  {
    assert vs[..i + 1] == vs[..i] + [vs[i]];
    ParentsSnoc(nodes, vs[..i], vs[i]);
    if vs[i] in nodes && nodes[vs[i]].selectable {
      DedupSnoc(Parents(nodes, vs[..i]), nodes[vs[i]].owner.GetOr(vs[i]));
    } else {
      assert Parents(nodes, vs[..i]) + ParentOf(nodes, vs[i]) == Parents(nodes, vs[..i]);
    }
  }

  /** The owners the export loop has met after visiting `vs`: a selectable node's owner is added
      the first time it is seen. */
  function OwnersMet(nodes: map<NodeId, Node>, vs: seq<NodeId>): seq<NodeId>
    decreases |vs|
  {
    if vs == [] then []
    else
      var d, v := OwnersMet(nodes, vs[..|vs| - 1]), vs[|vs| - 1];
      if v in nodes && nodes[v].selectable && nodes[v].owner.GetOr(v) !in d then d + [nodes[v].owner.GetOr(v)] else d
  }

  /** The loop's owners are the distinct owners of the traversal, in first-seen order. */
  lemma {:induction false} OwnersMetIsDedup(nodes: map<NodeId, Node>, vs: seq<NodeId>)
    ensures OwnersMet(nodes, vs) == Dedup(Parents(nodes, vs))
    decreases |vs|
  {
    if vs != [] {
      var i := |vs| - 1;
      OwnersMetIsDedup(nodes, vs[..i]);
      OwnersStep(nodes, vs, i);
      assert vs[..i + 1] == vs;
    }
  }

  /** Entries that agree with `ExportAll` position by position are `ExportAll`. */
  lemma ExportAllPointwise(nodes: map<NodeId, Node>, ids: seq<NodeId>, ds: seq<DocNode>, show: NumberFormatter)
    requires forall k :: 0 <= k < |ids| ==> ids[k] in nodes
    requires |ds| == |ids| && forall k :: 0 <= k < |ids| ==> ds[k] == ExportNode(nodes[ids[k]], show)
    ensures ds == ExportAll(nodes, ids, show)
  {
  }

  /** `a` first occurs in `ps` before `b` does. */
  predicate MetBefore(ps: seq<NodeId>, a: NodeId, b: NodeId)
  {
    a in ps && b in ps && IndexOf(ps, a) < IndexOf(ps, b)
  }

  /** Export writes one entry per distinct owner of a selectable node, in the order the traversal
      first meets them, each named (`'unnamed'` for an empty name). */
  lemma ExportOnePerOwner(g: Graph, show: NumberFormatter)
    requires g.Valid()
    ensures var os, ds, ps := g.Owners(), Exported(g, show), Parents(g.nodes, g.Visit());
      && Distinct(os) && |ds| == |os|
      && (forall i :: 0 <= i < |os| ==> os[i] in g.nodes && ds[i] == ExportNode(g.nodes[os[i]], show) && ds[i].name != "")
      && (forall i, j :: 0 <= i < j < |os| ==> MetBefore(ps, os[i], os[j]))
  {
    var ps := Parents(g.nodes, g.Visit());
    assert g.Owners() == Dedup(ps);
    g.OwnersResolve();
    DedupDistinct(ps);
    DedupFirstSeen(ps);
    var os := g.Owners();
    forall i, j | 0 <= i < j < |os|
      ensures MetBefore(ps, os[i], os[j])
    {
      assert os[i] == Dedup(ps)[i] && os[j] == Dedup(ps)[j];
    }

    assert Exported(g, show) == ExportAll(g.nodes, g.Owners(), show);
  }

  /** The ten numbers export writes for an object. */
  function Components(n: Node): seq<real>
  {
    [n.position.x, n.position.y, n.position.z, n.quaternion.x, n.quaternion.y, n.quaternion.z, n.quaternion.w,
     n.scale.x, n.scale.y, n.scale.z]
  }

  /** Importing what export wrote for an object places the object's model with its name
      (`'unnamed'` if it had none), position, rotation and scale, whenever the number format
      reads back exactly. */
  lemma ExportThenImport(n: Node, t: Template, show: NumberFormatter, number: NumberParser)
    requires forall c :: c in Components(n) ==> ReadsBack(show, number, c)
    ensures var r := DocRoot(t, ExportNode(n, show), number);
      && r.name == (if n.name == "" then "unnamed" else n.name)
      && r.position == n.position && r.quaternion == n.quaternion && r.scale == n.scale
  {
    var cs := Components(n);
    assert cs[0] in cs && cs[1] in cs && cs[2] in cs && cs[3] in cs && cs[4] in cs;
    assert cs[5] in cs && cs[6] in cs && cs[7] in cs && cs[8] in cs && cs[9] in cs;
    var d := ExportNode(n, show);
    assert d.position != "" && d.rotation != "" && d.scale != "";
    Vec3RoundTrip(n.position, t.position, show, number);
    QuatRoundTrip(n.quaternion, t.quaternion, show, number);
    Vec3RoundTrip(n.scale, t.scale, show, number);
  }

  /** Node `c` of `r` carries the object `n` as export and import pass it on: its name (`'unnamed'`
      for an empty one), position, rotation and scale. */
  predicate CarriesObject(r: Graph, c: NodeId, n: Node)
  {
    && c in r.nodes && r.nodes[c].name == (if n.name == "" then "unnamed" else n.name)
    && r.nodes[c].position == n.position && r.nodes[c].quaternion == n.quaternion && r.nodes[c].scale == n.scale
  }

  /** Importing a whole export of `g0` into `g` appends, after `g`'s own top-level objects, one new
      object per owner of `g0`, in the order export met them, under fresh and increasing ids, each
      carrying its owner's name, position, rotation and scale, whenever the number format reads
      every exported number back exactly. */
  lemma ExportThenImportAll(g0: Graph, g: Graph, show: NumberFormatter, load: ModelLoader, number: NumberParser)
    requires g0.Valid() && g.Valid()
    requires forall k, c :: k in g0.nodes && c in Components(g0.nodes[k]) ==> ReadsBack(show, number, c)
    ensures var r, os, m := PlaceDocNodes(g, Exported(g0, show), load, number), g0.Owners(), |g.children|;
      && m <= |r.children| && r.children[..m] == g.children
      && var added := r.children[m..];
      && |added| == |os|
      && (forall i :: 0 <= i < |os| ==> os[i] in g0.nodes && added[i] !in g.nodes && CarriesObject(r, added[i], g0.nodes[os[i]]))
      && (forall i, j :: 0 <= i < j < |os| ==> added[i] < added[j])
  {
    var os, ds, m := g0.Owners(), Exported(g0, show), |g.children|;
    ExportOnePerOwner(g0, show);
    PlaceDocNodesAppends(g, ds, load, number);
    var r := PlaceDocNodes(g, ds, load, number);
    var added := r.children[m..];
    assert PlacedAll(g, r, added, ds, load, number);
    forall i | 0 <= i < |os|
      ensures added[i] !in g.nodes && CarriesObject(r, added[i], g0.nodes[os[i]])
    {
      var n := g0.nodes[os[i]];
      assert ds[i] == ExportNode(n, show);
      assert PlacedAs(r, added[i], ds[i], load, number);
      ExportThenImport(n, load(ds[i].name), show, number);
    }
  }

  /** The `scene.traverse` callback of `exportScene` over the visit order `visit`: a selectable
      node's owner is written once, the first time it is met. */
  method ExportEntries(nodes: map<NodeId, Node>, visit: seq<NodeId>, show: NumberFormatter) returns (entries: seq<DocNode>)
    requires forall id :: id in nodes && nodes[id].owner.Some? ==> nodes[id].owner.value in nodes
    ensures entries == ExportOf(nodes, visit, show)
  {
    entries := [];
    var processedObjects: set<NodeId> := {};
    ghost var order: seq<NodeId> := [];
    var i := 0;
    while i < |visit|
      invariant 0 <= i <= |visit|
      invariant order == OwnersMet(nodes, visit[..i])
      invariant forall k :: k in processedObjects <==> k in order
      invariant forall k :: 0 <= k < |order| ==> order[k] in nodes
      invariant |entries| == |order| && forall k :: 0 <= k < |order| ==> entries[k] == ExportNode(nodes[order[k]], show)
    {
      var v := visit[i];
      assert visit[..i + 1][..i] == visit[..i];
      if v in nodes && nodes[v].selectable {
        var parentObject := nodes[v].owner.GetOr(v);
        if parentObject !in processedObjects {
          processedObjects := processedObjects + {parentObject};
          entries := entries + [ExportNode(nodes[parentObject], show)];
          order := order + [parentObject];
        }
      }
      i := i + 1;
    }
    assert visit[..i] == visit;
    OwnersMetIsDedup(nodes, visit);
    ExportAllPointwise(nodes, order, entries, show);
  }

  // ---------------------------------------------------------------- the controller

  class Application {
    const scene: Scene
    const ui: UI
    const show: NumberFormatter                  // `${x}` in `exportScene`
    var selectedObject: Option<NodeId>
    var selectedMesh: Option<NodeId>
    var selectedMeshMaterial: Material           // `NoMaterial` for `null`
    var moveSelectedObject: bool
    var skyboxFile: string                       // `skyboxParams.file`, written by the skybox picker
    var groundTexture: string                    // `groundParams.texture`, written by the ground picker
    var groundRepeats: real                      // `groundParams.repeats`, written by the ground picker

    /** `{ skybox: this.skyboxParams, ground: this.groundParams }`, as the pickers have left them. */
    function Params(): SceneParams
      reads this`skyboxFile, this`groundTexture, this`groundRepeats
    {
      SceneParams(Some(skyboxFile), Some(groundTexture), Some(groundRepeats))
    }

    function Current(): Sel
      reads this`selectedObject, this`selectedMesh, this`selectedMeshMaterial
    {
      Sel(selectedObject, selectedMesh, selectedMeshMaterial)
    }

    /** The editing state the handlers are specified on. */
    ghost function State(): Editing
      reads this, scene`graph, ui`folderVisible, ui`selectionData, ui`selectedObjectRef
    {
      Editing(scene.graph, Current(), ui.FolderState(), moveSelectedObject)
    }

    /** The scene is consistent, the selection folder exists, and every id held resolves. */
    ghost predicate Valid()
      reads this, scene, ui
    {
      scene.Valid() && ui.folderCreated && Coherent(State())
    }

    /** The constructor's editing part: the folder is created, the scene gets its ambient light,
        its sun, the ground and the first skybox, and the initial scene document (`None` when its
        fetch fails) is loaded. Nothing is selected and moving is off. */
    constructor (load: ModelLoader, number: NumberParser, parseFloat: NumberParser, fixed: NumberFormatter,
                 show: NumberFormatter, initialScene: Option<Document>)
      ensures Valid() && this.show == show && ui.fixed == fixed && ui.parseFloat == parseFloat
      ensures scene.load == load && scene.number == number
      ensures Current() == NoSelection && !moveSelectedObject && Params() == EditorParams
      ensures ui.FolderState() == Folder(false, InitialData, None)
      ensures scene.currentSceneParams == if initialScene.Some? then initialScene.value.params.GetOr(NoParams) else NoParams
    {
      selectedObject, selectedMesh, selectedMeshMaterial := None, None, NoMaterial;
      moveSelectedObject := false;
      skyboxFile, groundTexture, groundRepeats := DefaultSkybox, DefaultGroundTexture, DefaultGroundRepeats;
      ui := new UI(parseFloat, fixed);
      scene := new Scene(load, number);
      this.show := show;
      new;
      ui.AddSelectionInfoUI();
      ghost var folder := ui.FolderState();
      assert folder == Folder(false, InitialData, None) && ui.folderCreated;
      SetUpScene();
      assert ui.FolderState() == folder && ui.folderCreated && Current() == NoSelection && !moveSelectedObject;
      var _ := scene.LoadScene(initialScene);
    }

    /** The scene half of the constructor: the lights, then the ground and the first skybox. */
    method SetUpScene()
      requires scene.Valid()
      modifies scene`graph, scene`light, scene`ground, scene`loadedSkyboxes, scene`skyboxLoads, scene`background, scene`environment
      ensures scene.Valid() && scene.ground.Some? && scene.light.Some?
      ensures LightsAt(scene.graph, old(scene.graph.children), old(scene.graph.next))
      ensures scene.graph.nodes[scene.ground.value].material == Single(GroundMaterial(DefaultGroundTexture, DefaultGroundRepeats))
      ensures scene.background == Some(Texture(SkyboxPath(DefaultSkybox))) && scene.environment == scene.background
      ensures scene.currentSceneParams == old(scene.currentSceneParams)
    {
      ghost var params := scene.currentSceneParams;
      scene.AddLightsAndGround(DefaultGroundTexture, DefaultGroundRepeats);
      ghost var ground, light := scene.ground, scene.light;
      var _ := scene.AddSkybox(DefaultSkybox);
      assert scene.ground == ground && scene.light == light && scene.currentSceneParams == params;
    }

    /** `clearSelection`. */
    method ClearSelection()
      requires Valid()
      modifies this`selectedObject, this`selectedMesh, this`selectedMeshMaterial, scene`graph
      modifies ui`folderVisible, ui`selectionData, ui`selectedObjectRef
      ensures Valid() && State() == Deselect(old(State()), ui.fixed)
    {
      if selectedMesh.Some? && selectedMeshMaterial != NoMaterial {
        scene.SetMaterial(selectedMesh.value, selectedMeshMaterial);
      }
      selectedObject, selectedMesh, selectedMeshMaterial := None, None, NoMaterial;
      ui.UpdateSelectionInfo(None, scene.graph.nodes);
    }

    /** `selectMesh`. */
    method SelectMesh(obj: NodeId, mesh: NodeId)
      requires Valid() && obj in scene.graph.nodes && mesh in scene.graph.nodes
      modifies this`selectedObject, this`selectedMesh, this`selectedMeshMaterial, scene`graph
      modifies ui`folderVisible, ui`selectionData, ui`selectedObjectRef
      ensures Valid() && State() == Pick(old(State()), obj, mesh, ui.fixed)
    {
      if selectedMesh == Some(mesh) {
        return;
      }
      ghost var e := State();
      PickAfterDeselect(e, obj, mesh, ui.fixed);
      ClearSelection();
      Highlight(obj, mesh);
    }

    /** The rest of `selectMesh` once the old selection is cleared: the mesh's material is saved
        and replaced by the highlight, and the folder shows `obj`. */
    method Highlight(obj: NodeId, mesh: NodeId)
      requires Valid() && obj in scene.graph.nodes && mesh in scene.graph.nodes
      modifies this`selectedObject, this`selectedMesh, this`selectedMeshMaterial, scene`graph
      modifies ui`folderVisible, ui`selectionData, ui`selectedObjectRef
      ensures Valid()
      ensures var original := old(scene.graph).nodes[mesh].material;
        var g := Rematerial(old(scene.graph), mesh, Highlighted(original));
        && scene.graph == g && Current() == Sel(Some(obj), Some(mesh), original)
        && ui.FolderState() == Folder(true, Displayed(g.nodes[obj], ui.fixed), Some(obj))
    {
      var originalMaterial := scene.graph.nodes[mesh].material;
      selectedMeshMaterial := originalMaterial;
      scene.SetMaterial(mesh, Highlighted(originalMaterial));
      selectedObject, selectedMesh := Some(obj), Some(mesh);
      ui.UpdateSelectionInfo(Some(obj), scene.graph.nodes);
    }

    /** `onPointerClick`, given whether the click was on the canvas and the ray's hits, nearest first. */
    method OnPointerClick(onCanvas: bool, hits: seq<NodeId>)
      requires Valid()
      modifies this`selectedObject, this`selectedMesh, this`selectedMeshMaterial, scene`graph
      modifies ui`folderVisible, ui`selectionData, ui`selectedObjectRef
      ensures Valid() && State() == Clicked(old(State()), onCanvas, hits, ui.fixed)
    {
      if !onCanvas {
        return;
      }
      var hit := FindIndex(scene.graph.nodes, hits, IsSelectable);
      if hit.Some? {
        var mesh := hits[hit.value];
        var owner := scene.graph.nodes[mesh].owner.GetOr(mesh);
        SelectMesh(owner, mesh);
      } else {
        ClearSelection();
      }
    }

    /** `onKeyDown`. */
    method OnKeyDown(key: string)
      requires Valid()
      modifies this`selectedObject, this`selectedMesh, this`selectedMeshMaterial, this`moveSelectedObject, scene`graph
      modifies ui`folderVisible, ui`selectionData, ui`selectedObjectRef
      ensures Valid() && State() == KeyDown(old(State()), key, ui.fixed)
    {
      KeysDisjoint(key);
      if key == "g" || key == "G" {
        moveSelectedObject := !moveSelectedObject;
      }
      if (key == "d" || key == "D") && selectedObject.Some? {
        DuplicateSelectedObject();
      }
      if (key == "Delete" || key == "Backspace") && selectedObject.Some? {
        DeleteSelectedObject();
      }
    }

    /** `onMouseMove`, given whether the event was on the canvas and where the ray meets the
        ground plane (`None` when it misses, leaving `intersection` at the origin). */
    method OnMouseMove(onCanvas: bool, hit: Option<Vec3>)
      requires Valid()
      modifies scene`graph, ui`folderVisible, ui`selectionData, ui`selectedObjectRef
      ensures Valid() && State() == MouseMoved(old(State()), onCanvas, hit, ui.fixed)
    {
      if !moveSelectedObject || selectedObject.None? {
        return;
      }
      if !onCanvas {
        return;
      }
      var intersection := hit.GetOr(Origin);
      var id := selectedObject.value;
      var n := scene.graph.nodes[id];
      scene.SetPosition(id, Vec3(intersection.x, n.position.y, intersection.z));
      ui.UpdateSelectionInfo(selectedObject, scene.graph.nodes);
    }

    /** `exportScene`: the traversal collects one entry per distinct owner of a selectable node;
        `params` (the editor's skybox and ground) or, without them, the loaded scene's. */
    method ExportScene(params: Option<SceneParams>) returns (doc: Document)
      requires scene.graph.Valid()
      ensures doc == Document(Some(params.GetOr(scene.currentSceneParams)), Some(Exported(scene.graph, show)))
    {
      var entries := ExportEntries(scene.graph.nodes, scene.graph.Visit(), show);
      doc := Document(Some(params.GetOr(scene.currentSceneParams)), Some(entries));
    }

    /** The export button: `exportScene` with the editor's current skybox and ground. */
    method OnExportClick() returns (doc: Document)
      requires scene.graph.Valid()
      ensures doc == Document(Some(Params()), Some(Exported(scene.graph, show)))
    {
      doc := ExportScene(Some(Params()));
    }

    /** `clearScene`: the scene is cleared, then the selection. */
    method ClearScene()
      requires Valid()
      modifies this`selectedObject, this`selectedMesh, this`selectedMeshMaterial, scene`graph
      modifies ui`folderVisible, ui`selectionData, ui`selectedObjectRef
      ensures Valid() && State() == Deselect(old(State()).(graph := Cleared(old(scene.graph))), ui.fixed)
    {
      scene.ClearScene();
      ClearSelection();
    }

    /** `importScene`, given the chosen file's document (`None` when no file is chosen): the
        scene imports it with the editor's current skybox and ground; the selection is left as it
        was. */
    method ImportScene(file: Option<Document>)
      requires Valid()
      modifies scene`graph, scene`loadedModels, scene`modelLoads, scene`currentSceneParams
      modifies scene`loadedSkyboxes, scene`skyboxLoads, scene`background, scene`environment
      ensures Valid() && State() == old(State()).(graph := scene.graph)
      ensures file.None? ==> unchanged(scene)
      ensures file.Some? ==>
        && scene.graph == Imported(old(scene.graph), file.value, Some(Params()), scene.ground, scene.load, scene.number)
        && scene.currentSceneParams == file.value.params.GetOr(NoParams)
      ensures file.Some? && skyboxFile != "" ==>
        scene.background == Some(Texture(SkyboxPath(skyboxFile))) && scene.environment == scene.background
      ensures !(file.Some? && skyboxFile != "") ==>
        scene.background == old(scene.background) && scene.environment == old(scene.environment)
    {
      var _ := scene.ImportScene(file, Some(Params()));
    }

    /** The skybox picker: lil-gui writes the pick into `skyboxParams.file`, then the callback
        loads it as background and environment. Nothing the handlers see changes. */
    method OnSkyboxChange(value: string)
      requires Valid()
      modifies this`skyboxFile, scene`loadedSkyboxes, scene`skyboxLoads, scene`background, scene`environment
      ensures Valid() && State() == old(State()) && Params() == old(Params()).(skyboxFile := Some(value))
      ensures value == "" ==> unchanged(scene)
      ensures value != "" ==> scene.background == Some(Texture(SkyboxPath(value))) && scene.environment == scene.background
    {
      skyboxFile := value;
      var _ := scene.AddSkybox(value);
    }

    /** The ground texture picker: lil-gui writes `groundParams.texture`, then the callback
        retextures the ground with both ground params. */
    method OnGroundTextureChange(value: string)
      requires Valid()
      modifies this`groundTexture, scene`graph
      ensures Valid() && Params() == old(Params()).(groundTexture := Some(value))
      ensures State() == old(State()).(graph := scene.graph)
      ensures scene.ground.None? ==> scene.graph == old(scene.graph)
      ensures scene.ground.Some? ==> scene.graph == Retextured(old(scene.graph), scene.ground.value, value, groundRepeats)
    {
      groundTexture := value;
      var _ := scene.ChangeGround(groundTexture, groundRepeats);
    }

    /** The ground repeats slider: lil-gui writes `groundParams.repeats`, then the callback
        retextures the ground with both ground params. */
    method OnGroundRepeatsChange(value: real)
      requires Valid()
      modifies this`groundRepeats, scene`graph
      ensures Valid() && Params() == old(Params()).(groundRepeats := Some(value))
      ensures State() == old(State()).(graph := scene.graph)
      ensures scene.ground.None? ==> scene.graph == old(scene.graph)
      ensures scene.ground.Some? ==> scene.graph == Retextured(old(scene.graph), scene.ground.value, groundTexture, value)
    {
      groundRepeats := value;
      var _ := scene.ChangeGround(groundTexture, groundRepeats);
    }

    /** `deleteSelectedObject`. */
    method DeleteSelectedObject()
      requires Valid()
      modifies this`selectedObject, this`selectedMesh, this`selectedMeshMaterial, scene`graph
      modifies ui`folderVisible, ui`selectionData, ui`selectedObjectRef
      ensures Valid() && State() == Deleted(old(State()), ui.fixed)
    {
      if selectedObject.None? {
        return;
      }
      var _ := scene.RemoveObject(selectedObject);
      ClearSelection();
    }

    /** `duplicateSelectedObject`, with both of its `duplicateObject` calls. */
    method DuplicateSelectedObject()
      requires Valid()
      modifies this`selectedObject, this`selectedMesh, this`selectedMeshMaterial, scene`graph
      modifies ui`folderVisible, ui`selectionData, ui`selectedObjectRef
      ensures Valid() && State() == Duplicated(old(State()), ui.fixed)
    {
      if selectedObject.None? {
        return;
      }
      ghost var e := State();
      DuplicatedSelects(e, ui.fixed);
      var duplicated := CloneSelectedTwice();
      if duplicated.Some? {
        SelectNew(duplicated.value);
      }
    }

    /** The two `duplicateObject` calls, the first one's result only logged; the second clone is
        the one returned. */
    method CloneSelectedTwice() returns (duplicated: Option<NodeId>)
      requires Valid() && selectedObject.Some?
      modifies scene`graph
      ensures Valid() && State() == old(State()).(graph := scene.graph)
      ensures var g1 := Duplicate(old(scene.graph), selectedObject.value);
        scene.graph == Duplicate(g1, selectedObject.value) && duplicated == Some(g1.next)
    {
      var _ := scene.DuplicateObject(selectedObject);
      duplicated := scene.DuplicateObject(selectedObject);
    }

    /** The `if (duplicated)` / `if (newObject)` branch: a new object is selected with its first
        direct mesh, or as itself. */
    method SelectNew(d: NodeId)
      requires Valid() && d in scene.graph.nodes
      modifies this`selectedObject, this`selectedMesh, this`selectedMeshMaterial, scene`graph
      modifies ui`folderVisible, ui`selectionData, ui`selectedObjectRef
      ensures Valid() && State() == Pick(old(State()), d, FirstDirectMesh(old(scene.graph.nodes), d).GetOr(d), ui.fixed)
      ensures unchanged(scene`loadedModels, scene`modelLoads)
    {
      var mesh := FirstDirectMesh(scene.graph.nodes, d);
      SelectMesh(d, mesh.GetOr(d));
    }

    /** `addObjectToScene`, given the point ten units ahead of the camera. */
    method AddObjectToScene(modelName: string, ahead: Vec3)
      requires Valid()
      modifies this`selectedObject, this`selectedMesh, this`selectedMeshMaterial
      modifies scene`graph, scene`loadedModels, scene`modelLoads
      modifies ui`folderVisible, ui`selectionData, ui`selectedObjectRef
      ensures Valid() && State() == Added(old(State()), modelName, scene.load(modelName), ahead, ui.fixed)
      ensures modelName == "" ==> unchanged(scene)
      ensures modelName != "" ==>
        && scene.loadedModels == old(scene.loadedModels)[modelName := scene.load(modelName)]
        && scene.modelLoads == old(scene.modelLoads) + (if modelName in old(scene.loadedModels) then [] else [modelName])
    {
      if modelName == "" {
        return;
      }
      ghost var e := State();
      AddedSelects(e, modelName, scene.load(modelName), ahead, ui.fixed);
      var newObject := AddOnGround(modelName, ahead);
      if newObject.Some? {
        SelectNew(newObject.value);
      }
    }

    /** `addObject` at the point `ahead` brought down to the ground (`y = 0`). */
    method AddOnGround(modelName: string, ahead: Vec3) returns (newObject: Option<NodeId>)
      requires Valid() && modelName != ""
      modifies scene`graph, scene`loadedModels, scene`modelLoads
      ensures Valid() && State() == old(State()).(graph := scene.graph) && newObject == Some(old(scene.graph.next))
      ensures scene.graph == Place(old(scene.graph), ObjectRoot(scene.load(modelName), modelName, Some(Vec3(ahead.x, 0.0, ahead.z)), None, None),
                                   TemplateParts(scene.load(modelName)))
      ensures scene.loadedModels == old(scene.loadedModels)[modelName := scene.load(modelName)]
      ensures scene.modelLoads == old(scene.modelLoads) + (if modelName in old(scene.loadedModels) then [] else [modelName])
    {
      var position := Vec3(ahead.x, 0.0, ahead.z);
      newObject := scene.AddObject(modelName, Some(position), None, None);
    }
  }
}
