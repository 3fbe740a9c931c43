/** The selection folder of `UI` in src/ui.js: what it shows for the selected object, and how its
    four text fields write back into that object. */
module Panel {
  import opened Wrappers
  import opened Text
  import opened SceneGraph
  import opened Codec
  import opened SceneStore

  /** `selectionData`: the four texts the folder shows. */
  datatype SelectionData = SelectionData(name: string, position: string, rotation: string, scale: string)

  const InitialData: SelectionData := SelectionData("", "0, 0, 0", "0, 0, 0", "1, 1, 1")

  /** What the folder holds between calls: whether it is shown, its texts, and the object its
      fields write to (`selectedObjectRef`). */
  datatype Folder = Folder(visible: bool, data: SelectionData, ref: Option<NodeId>)

  /** The folder after `updateSelectionInfo(obj)`: unchanged while there is no folder; an object
      is shown and becomes the reference; `null` hides the folder and keeps the reference. */
  function AfterUpdate(v: Folder, created: bool, obj: Option<NodeId>, nodes: map<NodeId, Node>, fixed: NumberFormatter): Folder
    requires obj.Some? ==> obj.value in nodes
  {
    if !created then v
    else if obj.Some? then Folder(true, Displayed(nodes[obj.value], fixed), obj)
    else v.(visible := false)
  }

  /** The three transform fields the folder edits. */
  datatype Transform = Position | Rotation | Scale

  /** What `updateSelectionInfo(object)` shows: the name (`'Unnamed'` when empty) and each
      transform as `"x, y, z"` through `toFixed(2)`; rotation shows the Euler angles. */
  function Displayed(n: Node, fixed: NumberFormatter): SelectionData
  {
    SelectionData(if n.name == "" then "Unnamed" else n.name,
                  EncodeVec3(n.position, fixed), EncodeVec3(n.rotation, fixed), EncodeVec3(n.scale, fixed))
  }

  /** `object.position.set(...)`, `object.rotation.set(...)` or `object.scale.set(...)`. */
  function SetTransform(n: Node, f: Transform, v: Vec3): (r: Node)
    ensures r.parts == n.parts && r.owner == n.owner
  {
    match f
    case Position => n.(position := v)
    case Rotation => n.(rotation := v)
    case Scale => n.(scale := v)
  }

  /** The transform field `f` of a node. */
  function GetTransform(n: Node, f: Transform): Vec3
  {
    match f
    case Position => n.position
    case Rotation => n.rotation
    case Scale => n.scale
  }

  /** The text the folder shows for transform field `f`. */
  function Shown(d: SelectionData, f: Transform): string
  {
    match f
    case Position => d.position
    case Rotation => d.rotation
    case Scale => d.scale
  }

  /** The texts with the one bound to field `f` replaced by `value`, as a text controller stores
      what is typed into it. */
  function WithShown(d: SelectionData, f: Transform, value: string): (r: SelectionData)
    ensures Shown(r, f) == value && r.name == d.name
    ensures forall g :: g != f ==> Shown(r, g) == Shown(d, g)
  {
    match f
    case Position => d.(position := value)
    case Rotation => d.(rotation := value)
    case Scale => d.(scale := value)
  }

  /** Field `f` of node `id` set to `v`. */
  function Retransform(g: Graph, id: NodeId, f: Transform, v: Vec3): (r: Graph)
    requires g.Valid() && id in g.nodes
    ensures r.Valid() && r.children == g.children && r.next == g.next
    ensures r.nodes == g.nodes[id := SetTransform(g.nodes[id], f, v)]
  {
    g.Update(id, SetTransform(g.nodes[id], f, v))
  }

  /** A transform edit: nothing happens without a selection reference or when the text is not
      three numbers; otherwise field `f` of the referenced object takes them. */
  function Edit(g: Graph, ref: Option<NodeId>, f: Transform, value: string, parseFloat: NumberParser): (r: Graph)
    requires g.Valid() && (ref.Some? ==> ref.value in g.nodes)
    ensures r.Valid() && r.children == g.children && r.nodes.Keys == g.nodes.Keys
  {
    Apply(g, ref, f, ParseTriple(value, parseFloat))
  }

  /** What a transform edit does with its parsed text `values`. */
  function Apply(g: Graph, ref: Option<NodeId>, f: Transform, values: Option<Vec3>): (r: Graph)
    requires g.Valid() && (ref.Some? ==> ref.value in g.nodes)
    ensures r.Valid() && r.children == g.children && r.nodes.Keys == g.nodes.Keys
  {
    if ref.None? || values.None? then g else Retransform(g, ref.value, f, values.value)
  }

  /** A name edit: applied, unchecked, whenever there is a selection reference. */
  function Rename(g: Graph, ref: Option<NodeId>, value: string): (r: Graph)
    requires g.Valid() && (ref.Some? ==> ref.value in g.nodes)
    ensures r.Valid() && r.children == g.children && r.nodes.Keys == g.nodes.Keys
    ensures ref.None? ==> r == g
    ensures ref.Some? ==> r.nodes == g.nodes[ref.value := g.nodes[ref.value].(name := value)]
  {
    if ref.None? then g else g.Update(ref.value, g.nodes[ref.value].(name := value))
  }

  /** An edit is applied exactly when there is a reference and the text is three numbers; an
      applied edit sets field `f` of the referenced object to them and changes nothing else, in
      that object or any other. */
  lemma EditApplied(g: Graph, ref: Option<NodeId>, f: Transform, value: string, parseFloat: NumberParser)
    requires g.Valid() && (ref.Some? ==> ref.value in g.nodes)
    ensures var r := Edit(g, ref, f, value, parseFloat);
      && (ref.None? || ParseTriple(value, parseFloat).None? ==> r == g)
      && (ref.Some? && ParseTriple(value, parseFloat).Some? ==>
            var n, m := g.nodes[ref.value], r.nodes[ref.value];
            && GetTransform(m, f) == ParseTriple(value, parseFloat).value
            && (forall t :: t != f ==> GetTransform(m, t) == GetTransform(n, t))
            && m.name == n.name && m.quaternion == n.quaternion && m.material == n.material
            && m.isMesh == n.isMesh && m.selectable == n.selectable && m.owner == n.owner && m.parts == n.parts
            && r.nodes == g.nodes[ref.value := m])
  {
    AppliedOnly(g, ref, f, ParseTriple(value, parseFloat));
  }

  /** Parsed text is written back only with a reference, and then into field `f` of the
      referenced object alone. */
  lemma AppliedOnly(g: Graph, ref: Option<NodeId>, f: Transform, values: Option<Vec3>)
    requires g.Valid() && (ref.Some? ==> ref.value in g.nodes)
    ensures var r := Apply(g, ref, f, values);
      && (ref.None? || values.None? ==> r == g)
      && (ref.Some? && values.Some? ==>
            var n, m := g.nodes[ref.value], r.nodes[ref.value];
            && GetTransform(m, f) == values.value
            && (forall t :: t != f ==> GetTransform(m, t) == GetTransform(n, t))
            && m.name == n.name && m.quaternion == n.quaternion && m.material == n.material
            && m.isMesh == n.isMesh && m.selectable == n.selectable && m.owner == n.owner && m.parts == n.parts
            && r.nodes == g.nodes[ref.value := m])
  {
    if ref.Some? && values.Some? {
      SetTransformOnly(g.nodes[ref.value], f, values.value);
    }
  }

  /** Setting field `f` sets it and leaves every other field of the node as it was. */
  lemma SetTransformOnly(n: Node, f: Transform, v: Vec3)
    ensures var m := SetTransform(n, f, v);
      && GetTransform(m, f) == v && (forall t :: t != f ==> GetTransform(m, t) == GetTransform(n, t))
      && m.name == n.name && m.quaternion == n.quaternion && m.material == n.material
      && m.isMesh == n.isMesh && m.selectable == n.selectable && m.owner == n.owner && m.parts == n.parts
  {
    var m := SetTransform(n, f, v);
    forall t | t != f
      ensures GetTransform(m, t) == GetTransform(n, t)
    {
    }
  }

  /** Text without exactly two commas never changes the scene. */
  lemma EditNeedsTwoCommas(g: Graph, ref: Option<NodeId>, f: Transform, value: string, parseFloat: NumberParser)
    requires g.Valid() && (ref.Some? ==> ref.value in g.nodes)
    requires Count(value, ',') != 2
    ensures Edit(g, ref, f, value, parseFloat) == g
  {
    ParseTripleNeedsTwoCommas(value, parseFloat);
  }

  /** Confirming the text the folder shows changes nothing, when `toFixed(2)` loses nothing for
      the object's current values. */
  lemma ConfirmingDisplayIsNoop(g: Graph, ref: NodeId, f: Transform, fixed: NumberFormatter, parseFloat: NumberParser)
    requires g.Valid() && ref in g.nodes
    requires var v := GetTransform(g.nodes[ref], f);
      ReadsBackTrimmed(fixed, parseFloat, v.x) && ReadsBackTrimmed(fixed, parseFloat, v.y)
      && ReadsBackTrimmed(fixed, parseFloat, v.z)
    ensures Edit(g, Some(ref), f, Shown(Displayed(g.nodes[ref], fixed), f), parseFloat) == g
  {
    var n := g.nodes[ref];
    var v := GetTransform(n, f);
    assert ParseTriple(Shown(Displayed(n, fixed), f), parseFloat) == Some(v) by {
      assert Shown(Displayed(n, fixed), f) == EncodeVec3(v, fixed);
      ParseTripleReadsExport(v, fixed, parseFloat);
    }
    assert SetTransform(n, f, v) == n;
    g.UpdateSame(ref);
  }

  class UI {
    var folderCreated: bool                  // `selectionFolder !== null`
    var folderVisible: bool
    var selectionData: SelectionData
    var selectedObjectRef: Option<NodeId>
    const parseFloat: NumberParser
    const fixed: NumberFormatter             // `x.toFixed(2)`

    function FolderState(): Folder
      reads this`folderVisible, this`selectionData, this`selectedObjectRef
    {
      Folder(folderVisible, selectionData, selectedObjectRef)
    }

    constructor (parseFloat: NumberParser, fixed: NumberFormatter)
      ensures !folderCreated && !folderVisible && selectionData == InitialData && selectedObjectRef == None
      ensures this.parseFloat == parseFloat && this.fixed == fixed
    {
      folderCreated, folderVisible := false, false;
      selectionData := InitialData;
      selectedObjectRef := None;
      this.parseFloat, this.fixed := parseFloat, fixed;
    }

    /** `addSelectionInfoUI`: creates the folder, hidden. */
    method AddSelectionInfoUI()
      modifies this`folderCreated, this`folderVisible
      ensures folderCreated && !folderVisible
    {
      folderCreated, folderVisible := true, false;
    }

    /** `updateSelectionInfo`: nothing before the folder exists; an object becomes the reference
        and is shown; `null` only hides the folder, keeping the reference. */
    method UpdateSelectionInfo(obj: Option<NodeId>, nodes: map<NodeId, Node>)
      requires obj.Some? ==> obj.value in nodes
      modifies this`folderVisible, this`selectionData, this`selectedObjectRef
      ensures !folderCreated ==> unchanged(this)
      ensures folderCreated && obj.Some? ==>
        selectedObjectRef == obj && selectionData == Displayed(nodes[obj.value], fixed) && folderVisible
      ensures folderCreated && obj.None? ==>
        !folderVisible && selectedObjectRef == old(selectedObjectRef) && selectionData == old(selectionData)
      ensures FolderState() == AfterUpdate(old(FolderState()), folderCreated, obj, nodes, fixed)
    {
      if !folderCreated {
        return;
      }
      if obj.Some? {
        selectedObjectRef := obj;
        selectionData := Displayed(nodes[obj.value], fixed);
        folderVisible := true;
      } else {
        folderVisible := false;
      }
    }

    /** Typing `value` into the name field. The controller does nothing when the text is the one
        it holds; otherwise it stores the text in `selectionData.name` and then runs `onChange`. */
    method OnNameChange(value: string, scene: Scene)
      requires scene.Valid() && (selectedObjectRef.Some? ==> selectedObjectRef.value in scene.graph.nodes)
      modifies this`selectionData, scene`graph
      ensures scene.Valid() && selectionData == old(selectionData).(name := value)
      ensures scene.graph == if value == old(selectionData.name) then old(scene.graph) else Rename(old(scene.graph), selectedObjectRef, value)
    {
      if value == selectionData.name {
        return;
      }
      selectionData := selectionData.(name := value);
      if selectedObjectRef.Some? {
        scene.graph := scene.graph.Update(selectedObjectRef.value, scene.graph.nodes[selectedObjectRef.value].(name := value));
      }
    }

    /** Typing `value` into the position, rotation or scale field. As for the name, an unchanged
        text does nothing; otherwise the text is stored in the field's `selectionData` entry, even
        when the callback then rejects it, and `onChange` runs. */
    method OnTransformChange(f: Transform, value: string, scene: Scene)
      requires scene.Valid() && (selectedObjectRef.Some? ==> selectedObjectRef.value in scene.graph.nodes)
      modifies this`selectionData, scene`graph
      ensures scene.Valid() && selectionData == WithShown(old(selectionData), f, value)
      ensures scene.graph == if value == Shown(old(selectionData), f) then old(scene.graph) else Edit(old(scene.graph), selectedObjectRef, f, value, parseFloat)
    {
      if value == Shown(selectionData, f) {
        return;
      }
      selectionData := WithShown(selectionData, f, value);
      if selectedObjectRef.Some? {
        var values := ParseTriple(value, parseFloat);
        if values.Some? {
          scene.graph := Retransform(scene.graph, selectedObjectRef.value, f, values.value);
        }
      }
    }
  }
}
