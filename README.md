# A verified model of the scene editor's editing core

This project models the editing core of a small Three.js scene editor in Dafny:

- `Scene` (src/scene.js): the scene graph, the model and skybox caches, the ground and the sun;
- `Application` (src/application.js): the selection state machine, its keyboard, pointer and
  mouse handlers, and the export traversal;
- `UI` (src/ui.js): the selection folder and the validators of its four text fields.

The three.js scene graph is a value `Graph(nodes, children, next)` (module `SceneGraph`).
- `nodes` is a map from object ids to `Node`s and plays the role of the heap.
- `children` are the scene's direct children, in order.
- `next` is the next free id.

Removing an object detaches it from `children`, but its node stays in the map. So the selection
and the panel keep valid references to a removed object, as they do in JavaScript. A top-level
object lists its descendants in traversal order in `parts`. A mesh part carries
`userData.isSelectable` as `selectable` and `userData.object` as `owner`.

Each core file keeps its form.
- `Scene`, `Application` and `UI` are classes whose fields their methods update in place.
- The traversal loops of `clearScene` and `exportScene` and the node loops of
  `loadScene`/`importScene` are `while` loops with invariants.
- Each method is proved against a pure function of the old state: `Pick`, `Deselect`,
  `Clicked`, `KeyDown`, `Duplicated`, `Deleted`, `Added`, `Cleared`, `Imported`, `Edit` and
  others.
- Lemmas then state, about those functions, what the code promises.

The environment is passed in as parameters:
- the model loader `loadGltf`, a total function from name to template;
- JavaScript's `Number` and `parseFloat`, abstract parsers where `None` stands for NaN;
- number-to-text conversion (`${x}` and `toFixed(2)`), an abstract formatter;
- the objects a ray hits, nearest first;
- where the ray meets the ground plane;
- the point ten units ahead of the camera;
- the document a fetched or chosen file holds.

Behaviour modelled as the code has it, where it differs from what one might expect:
- When the clone succeeds (see `SceneGraph.CloneNode` under Left out), one 'D' press
  duplicates the selected object **twice**. `duplicateObject` is called once
  inside a `console.log` (src/application.js:419) and once more on the next line. Only the
  second clone is selected (`Editor.DuplicateMakesTwo`).
- When the clone succeeds, a duplicate taken while one of the object's meshes is highlighted copies the highlight
  material onto the first clone. No later clearing removes it, so a highlight then sits on an
  unselected mesh (`Editor.DuplicateSpreadsHighlight`).
- `Scene.importScene` applies the skybox and ground its caller passes, which are the
  editor's live `skyboxParams` and `groundParams`: what `initParams` set, or what the skybox
  and ground pickers last wrote into them. It does not apply the `params` of the imported document, which it
  only stores in `currentSceneParams`. The application's `importScene` does not clear the
  selection.
- A drag whose ray misses the ground plane moves the selected object to x = z = 0
  (`Editor.MouseMoveCorrection`; see Findings).
- A `null` saved material is never restored. A group selected as itself (it has no material)
  keeps the highlight after deselection (`Selection.SelectMaterialLessThenClear`).

## Model

| member | source | states |
|---|---|---|
| SceneGraph.TemplateRoot | src/scene.js:142 | a cloned model group is a non-mesh, non-selectable node with the model's position, quaternion and scale |
| SceneGraph.TemplateParts | src/scene.js:142 | a cloned model has one part per template part, with the template's mesh flag, direct-child flag and material, not yet selectable and with no back-reference |
| SceneGraph.CloneNode | src/scene.js:213 | `clone()` of one node keeps name, transform, mesh flag, selectable flag and back-reference; a mesh keeps its material, a group carries none over |
| SceneGraph.Range | src/scene.js:171-181 | the ids handed to a placed object's parts are consecutive, starting right after the object |
| SceneGraph.Graph.Remove | src/scene.js:192 | `scene.remove(object)` leaves the nodes as they were and drops exactly that object from the children |
| SceneGraph.Graph.RemoveEach | src/scene.js:249-250 | removing a list of objects one by one keeps every node and the graph consistent |
| SceneGraph.Graph.Update | src/ui.js:158 | an in-place property write replaces one node and changes nothing else |
| SceneGraph.Graph.UpdateSame | src/ui.js:169 | writing back a node's own value leaves the graph equal to what it was |
| SceneGraph.Graph.OwnersResolve | src/scene.js:240-247 | every owner the traversal collects names a node |
| SceneGraph.ParentOf | src/scene.js:241-242 | a node contributes at most one owner to the collection, and one exactly when it is selectable |
| SceneGraph.ParentsFrom | src/scene.js:240-247 | an id is among the collected owners exactly when some selectable node met by the traversal has it as owner (or is it) |
| SceneGraph.ParentsResolve | src/scene.js:240-247 | in a consistent graph every collected owner names a node |
| SceneGraph.Place | src/scene.js:142-183 | `scene.add` of a placed instance: the graph stays consistent, the new object is appended to the children under a fresh id, its meshes are tagged with it, and every existing node is unchanged |
| SceneGraph.PlacedParts | src/scene.js:171-181 | part `j` of a placed object is a fresh node, the tagged copy of the `j`-th given part |
| SceneGraph.PlaceTagsMeshes | src/scene.js:171-181 | after placement every mesh among the object's parts is selectable and points back at the new object |
| SceneGraph.PlaceKeepsTagged | src/scene.js:171-183 | placing an object keeps every mesh of every top-level object pointing back at that object |
| SceneGraph.AppendKeepsTagged | src/scene.js:183 | appending a top-level object whose meshes point back at it keeps every back-reference right |
| SceneGraph.Rematerial | src/application.js:255-257 | `mesh.material = m` changes only that node's material |
| SceneGraph.RematerialKeepsTagged | src/application.js:268 | a material write never breaks a back-reference |
| SceneGraph.OnlyMaterialsKeepTagged | src/application.js:255-268 | graphs that differ only in materials have the same back-references |
| SceneGraph.VisitMeetsParts | src/scene.js:240 | `scene.traverse` meets every part of every top-level object |
| Selection.Highlighted | src/application.js:254-258 | an array material gets an array of the same length with the highlight in every slot; any other material becomes the highlight itself |
| Selection.Restored | src/application.js:267-269 | restoring the saved material changes only materials, and only on the selected mesh; the graph stays consistent |
| Selection.Select | src/application.js:242-261 | `selectMesh` changes materials only, and only on the old and the new mesh; the new mesh becomes the selected one and the selection still resolves |
| Selection.SelectThenClear | src/application.js:242-269 | selecting a mesh that has a material and then clearing gives back exactly the materials clearing alone would have left |
| Selection.SelectMaterialLessThenClear | src/application.js:249-268 | a node without a material, once selected, still wears the highlight after the selection is cleared, because a `null` saved material is not restored |
| Selection.SelectKeepsHighlightOnSelection | src/application.js:247-261 | if at most the selected mesh wears the highlight before `selectMesh`, the same holds after it |
| Selection.HighlightAt | src/application.js:254-261 | highlighting one mesh of a highlight-free scene leaves the highlight on that mesh alone, with its original material saved |
| Selection.ClearRemovesHighlight | src/application.js:266-273 | clearing such a selection leaves no highlight anywhere |
| Selection.HighlightedShows | src/application.js:254-258 | a material with at least one slot wears the highlight once highlighted |
| Selection.OnlyMaterialsTrans | src/application.js:247-258 | two steps that each change only materials change only materials |
| SceneStore.ObjectRoot | src/scene.js:142-169 | the placed object is a non-mesh with no back-reference |
| SceneStore.DocRoot | src/scene.js:86-111 | an instance placed for a document entry is named after it, and each of position, rotation and scale is decoded from the entry when present and the model's own otherwise |
| SceneStore.PlaceDocNodes | src/scene.js:75-126 | the node loop keeps the graph consistent and every existing node unchanged |
| SceneStore.PlaceDoc | src/scene.js:76-125 | one turn of the loop keeps the graph consistent and every existing node |
| SceneStore.PlaceDocEntry | src/scene.js:76-125 | one turn skips an entry without a name; any other entry appends one new object named after it, with the position, rotation and scale the entry gives (the model's where it gives none) and one part per model part |
| SceneStore.PlaceDocNodesAppends | src/scene.js:75-126 | when every entry is named, the loop appends one new top-level object per entry after the existing children, in entry order, under fresh and increasing ids, each with the entry's name and the position, rotation and scale it decodes to |
| SceneStore.AppendedStep | src/scene.js:76-125 | one more entry placed after the others extends that list of fresh, increasing, correctly placed ids by the new object |
| SceneStore.PlaceDocNodesSnoc | src/scene.js:75-126 | the loop over `ds + [d]` is the loop over `ds` followed by one turn for `d` |
| SceneStore.NamedSnoc | src/scene.js:76-84 | the names loaded for `ds + [d]` are those for `ds` plus `d`'s name when it has one |
| SceneStore.Duplicate | src/scene.js:213-235 | a duplicate is appended to the children under a fresh id; every existing node, the original included, is unchanged |
| SceneStore.Twin | src/scene.js:213-220 | the duplicate's own node keeps the original's back-reference |
| SceneStore.ClonedParts | src/scene.js:213 | the clone's parts are clones of the original's parts, in order |
| SceneStore.DuplicateRoot | src/scene.js:213-235 | the duplicate has the original's name, quaternion and scale, x one larger and y, z equal, as many parts, and the original and all other nodes are unchanged |
| SceneStore.DuplicateParts | src/scene.js:213-232 | every part of the duplicate is a new node cloned from the matching part of the original (mesh flag, name, position, material kept) and every mesh part points back at the duplicate, not the original |
| SceneStore.DuplicatePart | src/scene.js:213-232 | part `j` of the duplicate is a fresh node, the tagged clone of part `j` of the original |
| SceneStore.DuplicateFresh | src/scene.js:213-235 | the duplicate and its parts are all new nodes |
| SceneStore.TaggedClone | src/scene.js:222-231 | a cloned and tagged part keeps its mesh flag, name, position and (for a mesh) material, and a mesh becomes selectable with the clone as owner |
| SceneStore.Cleared | src/scene.js:238-264 | `clearScene` keeps every node and the graph consistent |
| SceneStore.RemoveEachChildren | src/scene.js:249-250 | removing a list of objects one by one keeps exactly the children not in the list, in order |
| SceneStore.OwnersAre | src/scene.js:240-247 | an id is collected by `clearScene` exactly when it is the owner (or the node itself) of some selectable node the traversal meets |
| SceneStore.ClearedChildren | src/scene.js:238-264 | the collected owners are distinct, so each is removed once, and clearing keeps exactly the other children, in order |
| SceneStore.ClearKeepsUnowned | src/scene.js:240-250 | a child that is not selectable and that no node points back at (ground, lights, helper) survives `clearScene` |
| SceneStore.ClearRemovesMeshOwners | src/scene.js:240-250 | in a scene whose back-references are right, every top-level object holding a mesh is removed by `clearScene` |
| SceneStore.Retextured | src/scene.js:379-385 | `changeGround` gives the ground a new standard material for the texture and repeats and changes nothing but that material |
| SceneStore.MergeSun | src/scene.js:396-419 | `updateSun` takes intensity, colour and each position component from the update when it is given and keeps the light's own otherwise; the target is always the origin |
| SceneStore.AddPlain | src/scene.js:16-17 | adding a light appends one plain node to the children |
| SceneStore.WithSun | src/scene.js:33-37 | `addDirectionalLight` appends the light's target, the light and its helper, in that order, none selectable |
| SceneStore.WithGround | src/scene.js:360-367 | `addGround` appends the plain ground mesh, which is not selectable |
| SceneStore.Imported | src/scene.js:272-341 | the graph `importScene` leaves is consistent and keeps every node |
| SceneStore.Regrounded | src/scene.js:338-340 | the ground step changes nothing unless texture and repeats are both truthy and a ground exists; then it gives the ground the new material and changes no other property or node |
| SceneStore.AddObjectInstance | src/scene.js:142-183 | an `addObject` instance is appended to the children, named after its model, at the given position or the origin, with the given rotation and scale or the model's, with one part per model part, each mesh selectable and pointing back at it |
| SceneStore.PlaceThenRemove | src/scene.js:183-192 | removing an object right after placing it gives back the scene's children |
| SceneStore.Scene.constructor | src/scene.js:5-13 | a new scene is empty: no nodes, empty caches and load logs, no background, no ground, no light, `{}` params |
| SceneStore.Scene.AddAmbientLight | src/scene.js:15-18 | adds one plain node to the scene |
| SceneStore.Scene.AddDirectionalLight | src/scene.js:20-43 | returns and stores the light with intensity 1.5, white, at (10, 20, 10), aimed at the origin, and adds its three nodes |
| SceneStore.Scene.AddSkybox | src/scene.js:45-62 | an empty name changes nothing and gives `null`; any other name gives the texture for `skybox/<name>` from the cache, loading it only when it is not cached yet, and makes it background and environment |
| SceneStore.Scene.ResolveModel | src/scene.js:136-140 | the template is the loader's for that name, the cache maps the name to it, and the loader is called only when the name was not cached |
| SceneStore.Scene.AddObject | src/scene.js:131-185 | an empty model name gives `null` and changes nothing, neither the scene nor the cache; any other name places one instance of the cached or loaded model and returns its id |
| SceneStore.Scene.RemoveObject | src/scene.js:187-206 | `null` gives `false` and changes nothing; any other object is detached and the answer is `true`, even when it was not a child |
| SceneStore.Scene.DuplicateObject | src/scene.js:208-236 | `null` gives `null` and changes nothing; otherwise the scene holds the duplicate, whose id is returned |
| SceneStore.CollectOwners | src/scene.js:239-247 | the traversal loop collects exactly the distinct owners of the selectable nodes, in the order it first meets them |
| SceneStore.RemoveObjects | src/scene.js:249-250 | the `forEach` loop removes every collected object and keeps exactly the children not collected, in order |
| SceneStore.Scene.ClearScene | src/scene.js:238-264 | the graph becomes `Cleared` of the old one |
| SceneStore.Scene.AddLights | src/application.js:68-69 | `addAmbientLight` then `addDirectionalLight` append the four plain light objects after the children there were, and the light exists |
| SceneStore.Scene.AddLightsAndGround | src/application.js:68-71 | the lights are appended as above and kept by `addGround`, and the ground wears the requested texture and repeats |
| SceneStore.LightsAppended | src/scene.js:15-37 | the two light calls put four fresh plain objects, in order, right after the existing children |
| SceneStore.WithGroundKeepsLights | src/scene.js:360-367 | adding the ground keeps the lights, and the ground is none of them |
| SceneStore.RetexturedKeepsLights | src/scene.js:379-385 | retexturing a node that is not a light keeps the lights |
| SceneStore.Scene.AddGround | src/scene.js:358-371 | the ground is created only when there is none, then retextured; the ground exists afterwards and is returned |
| SceneStore.Scene.ChangeGround | src/scene.js:373-388 | without a ground nothing changes and the answer is `null`; otherwise the ground is retextured and returned |
| SceneStore.Scene.SetMaterial | src/application.js:255-268 | a material write on one node of the scene |
| SceneStore.Scene.SetPosition | src/application.js:318 | a position write on one node of the scene |
| SceneStore.Scene.UpdateSun | src/scene.js:390-426 | without a light nothing changes and the answer is `null`; otherwise the light becomes the field-wise merge and is returned |
| SceneStore.Scene.PlaceNodes | src/scene.js:75-126 | the node loop leaves the graph `PlaceDocNodes` gives; the cache gains exactly the names of the entries that have one; the load log only grows |
| SceneStore.Scene.PlaceEntry | src/scene.js:76-125 | one entry: without a name nothing changes; otherwise one instance of its cached or loaded model is placed |
| SceneStore.Scene.LoadScene | src/scene.js:64-129 | a failed fetch changes nothing; otherwise the params (`{}` when missing) are stored and the nodes (`[]` when missing) placed |
| SceneStore.Scene.ImportScene | src/scene.js:266-344 | without a file nothing changes, and nothing is cleared; otherwise it clears, stores the params, places the nodes (`[]` when missing, nameless ones skipped), sets the caller's skybox when its file is truthy and leaves the skybox state alone otherwise |
| SceneStore.Scene.ImportDocument | src/scene.js:272-341 | a read document clears the scene, stores its params (`{}` when missing), places its nodes into the cleared graph, caches exactly the names it loads, and then applies the caller's skybox and ground |
| SceneStore.Scene.ApplyParams | src/scene.js:334-341 | the caller's skybox is applied only when its file is truthy, and the ground only when texture and repeats are both truthy |
| Codec.ExportNode | src/application.js:336-350 | an exported entry is always named: the object's name, or `'unnamed'` when it is empty |
| Codec.ExportNodeArity | src/application.js:340-350 | position and scale are exported as three comma-separated components, the rotation as the quaternion's four, x, y, z, w, in that order |
| Codec.SplitVec3 | src/application.js:341 | splitting an exported vector on `,` gives back its three formatted components |
| Codec.SplitQuat | src/application.js:345 | splitting an exported quaternion on `,` gives back its four formatted components |
| Codec.Numbers | src/scene.js:89-94 | `split(',').map(Number)` has one entry per piece, each that piece parsed |
| Codec.Vec3RoundTrip | src/scene.js:89-94 | importing an exported position or scale gives the vector back, when the number format reads back exactly |
| Codec.QuatRoundTrip | src/scene.js:97-102 | importing an exported rotation gives the quaternion back, under the same condition |
| Codec.ParseTripleAccepts | src/ui.js:167-168 | the panel accepts text exactly when it has two commas and each trimmed piece parses, and the accepted triple is those numbers in order |
| Codec.ParseTripleNeedsTwoCommas | src/ui.js:168 | text without exactly two commas is rejected, whatever its pieces are |
| Codec.ParseTripleReadsExport | src/ui.js:167-168 | the panel accepts the `"x, y, z"` text written for a vector and reads back that vector, when the number format reads back exactly |
| Text.Split | src/ui.js:167 | `split` always gives at least one piece |
| Text.SplitCount | src/ui.js:167-168 | `split(',')` gives one more piece than the text has commas |
| Text.SplitPiecesFree | src/ui.js:167 | no piece of a split contains the separator |
| Text.JoinSplit | src/ui.js:167 | joining the pieces of a split with the separator gives back the text |
| Text.SplitAtSeparator | src/application.js:341 | text that starts with a separator-free piece and a separator splits into that piece followed by the split of the rest |
| Text.SplitFree | src/application.js:341 | text without the separator splits into itself alone |
| Text.Trim | src/ui.js:167 | `trim()` gives a slice of the text from which only white space was cut, at either end, and leaves no white space at either end |
| Text.TrimStartCuts | src/ui.js:167 | everything cut from the front is white space |
| Text.TrimEndCuts | src/ui.js:167 | everything cut from the back is white space |
| Text.TrimCuts | src/ui.js:167 | cutting white space from the front and then from the back cuts only white space, at the two ends |
| Text.TrimSkipsLeadingSpace | src/ui.js:167 | a leading blank does not survive `trim()` |
| Seqs.Without | src/scene.js:192 | removing `x` keeps exactly the other elements |
| Seqs.WithoutAll | src/scene.js:249-250 | removing a list keeps exactly the elements not in it |
| Seqs.DedupSnoc | src/scene.js:243-244 | pushing an element that is not yet there appends it; one already there changes nothing |
| Seqs.DedupMembers | src/scene.js:243-244 | deduplication keeps exactly the elements there were |
| Seqs.DedupDistinct | src/scene.js:243-244 | the deduplicated sequence has no repeats |
| Seqs.DedupFirstSeen | src/application.js:331-334 | the deduplicated sequence is in first-seen order |
| Panel.WithShown | src/ui.js:162-187 | storing typed text replaces the text of exactly one transform field, keeping the name and the other two |
| Panel.SetTransform | src/ui.js:169 | a transform write keeps the node's parts and back-reference |
| Panel.Retransform | src/ui.js:169-193 | a transform write on the referenced object keeps the graph consistent and changes only that node |
| Panel.Edit | src/ui.js:165-196 | a transform edit keeps the graph consistent, its children and its set of nodes |
| Panel.Apply | src/ui.js:166-171 | writing back parsed text keeps the graph consistent, its children and its set of nodes |
| Panel.Rename | src/ui.js:156-160 | a name edit changes nothing without a reference and otherwise sets the referenced object's name, unchecked, and nothing else |
| Panel.EditApplied | src/ui.js:165-196 | an edit changes nothing without a reference or unless the text is three numbers; otherwise it sets exactly field `f` of the referenced object to them and leaves its other fields and every other object unchanged |
| Panel.AppliedOnly | src/ui.js:166-170 | parsed text is written back only with a reference, into field `f` of the referenced object alone |
| Panel.SetTransformOnly | src/ui.js:169-193 | setting one transform field leaves the other two and every other property of the node as they were |
| Panel.EditNeedsTwoCommas | src/ui.js:167-168 | text without exactly two commas never changes the scene |
| Panel.ConfirmingDisplayIsNoop | src/ui.js:165-172 | confirming the text the folder shows changes nothing, when the two-decimal display loses nothing |
| Panel.UI.constructor | src/ui.js:4-15 | no folder yet, hidden, the initial texts `''`, `'0, 0, 0'`, `'0, 0, 0'`, `'1, 1, 1'`, and no reference |
| Panel.UI.AddSelectionInfoUI | src/ui.js:149-199 | the folder exists and is hidden |
| Panel.UI.UpdateSelectionInfo | src/ui.js:201-224 | a no-op before the folder exists; an object becomes the reference and is shown, its name defaulting to `'Unnamed'`; `null` hides the folder and keeps the reference and the texts |
| Panel.UI.OnNameChange | src/ui.js:153-160 | typing the text already shown changes nothing; any other text is stored as the folder's name text and leaves the graph `Rename` gives |
| Panel.UI.OnTransformChange | src/ui.js:162-196 | typing the text already shown changes nothing; any other text is stored in the field's folder text, even when it is rejected, and leaves the graph `Edit` gives |
| Editor.Deselect | src/application.js:266-276 | `clearSelection` leaves all three selection fields `null`, changes only materials, hides the folder and keeps its reference and texts |
| Editor.Pick | src/application.js:242-264 | `selectMesh` of the selected mesh changes nothing; otherwise the object and mesh are selected, only materials change, and the folder shows the object |
| Editor.PickAfterDeselect | src/application.js:247-263 | `selectMesh` on a new mesh is `clearSelection` followed by saving the mesh's material, highlighting it and showing the object |
| Editor.PickThenDeselect | src/application.js:242-276 | select then clear leaves the materials clearing alone would have, nothing selected, and the folder hidden but still bound to the object, so later edits still reach it |
| Editor.FindIndex | src/application.js:201-203 | the index found is the first whose node passes the test; with none found, no node passes |
| Editor.FirstDirectMesh | src/application.js:422 | the id found is the first direct child of the object that is a mesh: a direct mesh child with none before it among the object's parts; with none found there is no such child |
| Editor.Clicked | src/application.js:183-212 | a pointer click keeps the state consistent |
| Editor.ClickSelectsOwner | src/application.js:201-211 | a click hitting nothing selectable leaves nothing selected; a click whose first selectable hit is a mesh of a top-level object selects that mesh, with that object as the selected object |
| Editor.Deleted | src/application.js:404-411 | delete keeps the state consistent |
| Editor.DeleteDetaches | src/application.js:404-411 | delete without a selection changes nothing; otherwise the selected object, and only it, leaves the children, every node is kept, and nothing is selected |
| Editor.Duplicated | src/application.js:413-424 | duplicate keeps the state consistent |
| Editor.DuplicatedSelects | src/application.js:419-423 | with an object selected, duplicate selects the second clone in the graph the two `duplicateObject` calls leave |
| Editor.DuplicateMakesTwo | src/application.js:419-423 | one duplicate adds two clones, both one unit along x from the original, and selects the second |
| Editor.DuplicateTwice | src/application.js:419-420 | the two `duplicateObject` calls append two distinct clones at the same position |
| Editor.DuplicateSpreadsHighlight | src/application.js:419-423 | duplicating while a mesh of the object is highlighted leaves a highlight on a mesh that is not selected |
| Editor.CloneKeepsHighlight | src/application.js:419-423 | after the two duplicates and the selection of the second, the first clone's copy of the highlighted mesh still wears the highlight and is not selected |
| Editor.Dragged | src/application.js:316-318 | the dragged object takes the hit's x and z and keeps its own y |
| Editor.MissedRayJumpsToAxis | src/application.js:312-320 | as written, a ray that misses the ground plane moves any dragged object to x = z = 0, keeping its y |
| Editor.DraggedAgreesOnHit | src/application.js:314-318 | on a hit, the drag as written and the corrected drag agree |
| Editor.MouseMoved | src/application.js:296-321 | as written: outside move mode, without a selection or off the canvas nothing changes; a mouse move never changes the children, the selection or the move flag |
| Editor.MouseMovedCorrected | src/application.js:296-321 | as intended: a ray missing the plane also changes nothing, and otherwise the same guarantees hold |
| Editor.MouseMoveCorrection | src/application.js:312-320 | the handler as written and the corrected one agree on every hit; on a miss during a drag the one as written sends the object to x = z = 0 with its y kept and shows it in the folder, while the corrected one changes nothing |
| Editor.DragKeepsHeight | src/application.js:297-319 | with move mode on and a selection, a drag sets exactly the selected object's x and z to the hit and keeps its y, changes no other node, and shows the object |
| Editor.KeysDisjoint | src/application.js:282-291 | no key is bound to two actions |
| Editor.KeyDown | src/application.js:278-294 | a key press keeps the state consistent |
| Editor.ToggleTwice | src/application.js:282-284 | 'g' flips the move flag and changes nothing else; two presses give back the starting state |
| Editor.OtherKeysIgnored | src/application.js:278-294 | any other key changes nothing |
| Editor.Added | src/application.js:426-445 | adding an object keeps the state consistent |
| Editor.AddedSelects | src/application.js:440-443 | with a name, `addObjectToScene` selects the new object in the graph `addObject` leaves |
| Editor.AddedIsSelected | src/application.js:426-445 | a new object is appended to the children on the ground below the point ahead, named after its model, with the model's rotation and scale, and becomes the selection shown in the folder |
| Editor.ExportAll | src/application.js:336-352 | one entry per owner, in order, each the entry for that owner |
| Editor.OwnersStep | src/application.js:327-334 | one traversal step adds the node's owner when the node is selectable and the owner is new, and nothing otherwise |
| Editor.OwnersMetIsDedup | src/application.js:325-334 | the owners the export loop meets are the distinct owners of the traversal, in first-seen order |
| Editor.ExportAllPointwise | src/application.js:336-352 | entries that agree with the export entry by entry are the export |
| Editor.ExportOnePerOwner | src/application.js:325-350 | export writes one named entry per distinct owner of a selectable node, with no owner twice, in the order the traversal first meets them |
| Editor.ExportThenImport | src/application.js:336-350 | importing what export wrote for an object places its model under the object's name (`'unnamed'` if empty) with the object's position, rotation and scale, when the number format reads back exactly |
| Editor.ExportThenImportAll | src/application.js:323-359 | importing a whole export appends, after the existing children, one new object per exported owner, in export order, under fresh and increasing ids, each with its owner's name (`'unnamed'` if empty), position, rotation and scale, when the number format reads back exactly |
| Editor.ExportEntries | src/application.js:324-354 | the traversal callback with its `processedObjects` set writes exactly the entries `ExportOf` gives |
| Editor.Application.constructor | src/application.js:8-110 | the editor starts consistent with nothing selected, move mode off, the folder hidden with the initial texts and no reference, the initial document's params (`{}` when its fetch fails), and the skybox and ground params `initParams` sets |
| Editor.Application.SetUpScene | src/application.js:67-74 | the ambient light, then the sun's target, the sun and its helper follow the children there were, as four plain objects; a ground exists and wears `aerial_grass_rock` with 100 repeats; the first skybox is background and environment |
| Editor.Application.ClearSelection | src/application.js:266-276 | leaves the state `Deselect` gives |
| Editor.Application.SelectMesh | src/application.js:242-264 | leaves the state `Pick` gives |
| Editor.Application.Highlight | src/application.js:249-263 | saves the mesh's material, puts the highlight in its place, selects the object and mesh, and shows the object |
| Editor.Application.OnPointerClick | src/application.js:183-212 | leaves the state `Clicked` gives |
| Editor.Application.OnKeyDown | src/application.js:278-294 | leaves the state `KeyDown` gives |
| Editor.Application.OnMouseMove | src/application.js:296-321 | leaves the state `MouseMoved`, the handler as written, gives |
| Editor.Application.ExportScene | src/application.js:323-359 | the document holds the given params, or the scene's current ones without them, and the `Exported` entries |
| Editor.Application.ClearScene | src/application.js:373-376 | clears the scene, then the selection |
| Editor.Application.ImportScene | src/application.js:378-402 | leaves the selection and folder alone; without a file the scene is unchanged; otherwise the scene imports the document with the editor's current skybox and ground params, takes the picked skybox as background when its file is truthy and keeps the background otherwise |
| Editor.Application.OnExportClick | src/application.js:58-62 | the export button exports the scene with the editor's current skybox and ground params |
| Editor.Application.OnSkyboxChange | src/application.js:82-90 | the skybox picker stores the pick in the skybox params; an empty pick changes nothing else, any other makes it background and environment; the editing state is unchanged |
| Editor.Application.OnGroundTextureChange | src/ui.js:69-80 | the ground texture picker stores the pick in the ground params and retextures the ground, if any, with the new texture and the current repeats |
| Editor.Application.OnGroundRepeatsChange | src/ui.js:69-85 | the repeats slider stores the value in the ground params and retextures the ground, if any, with the current texture and the new repeats |
| Editor.Application.DeleteSelectedObject | src/application.js:404-411 | leaves the state `Deleted` gives |
| Editor.Application.DuplicateSelectedObject | src/application.js:413-424 | leaves the state `Duplicated` gives |
| Editor.Application.CloneSelectedTwice | src/application.js:419-420 | the two `duplicateObject` calls; the second clone is returned and nothing else in the state changes |
| Editor.Application.SelectNew | src/application.js:421-423 | selects the new object with its first direct mesh, or itself; the caches are untouched |
| Editor.Application.AddObjectToScene | src/application.js:426-445 | leaves the state `Added` gives, with an empty name changing nothing and otherwise the cache updated as `addObject` does |
| Editor.Application.AddOnGround | src/application.js:436-440 | places the model at the point ahead brought down to `y = 0` and updates the cache |

## Left out

- All of src/camera.js, the WebGPU renderer, the render loop and its time-delta clamping: rendering and input devices.
- `updateSunOrbit` (src/application.js:214-240): the orbit is floating-point trigonometry. `updateSun` is modelled for any update the orbit might produce.
- Raycasting and the ground-plane intersection: the hits, nearest first, and the plane hit are parameters.
- The point ten units ahead of the camera in `addObjectToScene`: camera geometry; it is a parameter.
- `loadGltf`, `textureloader.loadAsync`, `fetch` and `file.text`: asynchronous I/O. The loader is a total function, a failed fetch is `None`, and a chosen file is the document it holds.
- A file that does not parse as JSON, and a loader failing part-way through a node loop: in `importScene` the scene is already cleared when `JSON.parse` throws. The model takes parsed documents only.
- `JSON.stringify`, the Blob and the download link of `exportScene`, and the hidden file input and `setTimeout` of the application's `importScene`: I/O.
- Geometry and material `dispose` calls: resource release, not scene state.
- Shadow flags (`castShadow`, `receiveShadow`), the shadow camera, the light helper's `update()`, and texture mapping and colour space: rendering only.
- Other `userData` fields that the tagging spread keeps: the editor reads only `isSelectable` and `object`.
- The lil-gui widget construction (`addCameraControlsUI`, `addSceneEditorUI`, `addSkyboxUI`, `addGroundUI`, `addSunUI`, `addSceneControlsUI`) and `onSelectionChange`, which is stored but never called.
- The selection folder's text controllers report every edit of the text. One call of `Panel.UI.OnNameChange` or `Panel.UI.OnTransformChange` is one such edit, with the text typed so far. It follows lil-gui's `setValue`, which is not part of this model: the property is stored and `onChange` runs only when the text differs from the one held.
- The camera checkbox's callback (`setWASDMovement`) and the sun sliders' callback (`updateSunOrbit`): camera and orbit are left out.
- Editor.Application.OnGroundRepeatsChange: takes any real. The slider's range 1 to 1000 in steps of 1 is widget configuration.
- `addCube` (src/scene.js:346-356): the editor never calls it.
- Console logging.
- The exact results of `Number`, `parseFloat`, `${x}` and `toFixed(2)`: they are abstract. Round trips are proved under the assumption that the format reads back exactly (`Codec.ReadsBack`, `Codec.ReadsBackTrimmed`).
- Codec.Component: a NaN component in an imported transform keeps the model's value. `fromArray` would write NaN, and the model's reals have no NaN. A missing component, as in text with fewer comma-separated pieces than components (`"1,2"` for a position), also keeps the model's value; `fromArray` would write `undefined` there.
- SceneGraph.CloneNode: does not model how three.js copies `userData`. `Object3D.copy` copies it as `JSON.parse(JSON.stringify(userData))`. A mesh tagged with `userData.object` refers back to its group, whose children include the mesh, so that copy throws a circular-structure `TypeError` in `duplicateObject` (src/scene.js:213) whenever the object holds a mesh the editor has tagged, which is every object with a mesh that `addObject`, `loadScene` or `importScene` placed: serializing `userData.object` reaches the tagged mesh's own `userData` again. 'D' then adds nothing, because the throw in the first `duplicateObject` call comes before any `scene.add`. The duplicate members model what happens when the clone succeeds. Even when the copy succeeds, `userData` holds plain JSON objects and not the `Object3D` itself. The model keeps the flag and the back-reference unchanged; the re-tagging at src/scene.js:222-231 overwrites both for every mesh.
- Array-valued `position`, `rotation` and `scale` in a document entry, and a string `position` passed to `addObject`. The model takes document entries as strings, as export writes them, and `addObject` positions as vectors, as the editor passes them.
- The Euler rotation and the quaternion are independent fields. three.js keeps them in step; the model does not, so a rotation edit in the panel does not change the exported quaternion here.
- `typeof params.x === 'number'` also holds for NaN: a given component is a real.
- Coordinates are mathematical reals, not IEEE doubles. Three differences follow. The model's sums never round: the `x += 1` of `duplicateObject` (src/scene.js:217, `SceneStore.Twin`) is exact. There are no infinities: `parseFloat("Infinity")` passes the `!isNaN` test at src/ui.js:168 and would set an infinite coordinate, which `Option<real>` cannot hold. There is no −0.
- SceneStore.Scene.PlaceNodes: states only that the model load log grows. It does not state which names are appended; `Valid` still keeps every name loaded once.
- Editor.Application.constructor: does not restate the lights, ground and skybox, which `Editor.Application.SetUpScene` states. Nor does it state the nodes the initial document adds.
- Editor.Application.SetUpScene: does not state the sun's values. `updateSunOrbit(0)` (src/application.js:70) moves the sun, and the orbit is left out.
- SceneGraph.Graph.Remove: drops every occurrence of the id from the children, where three.js's `remove` splices the first only. The two agree because no operation ever puts an id among the children twice: each adds a fresh id (`next`). `Valid` does not state `Distinct(children)`.

## Findings

| source | as written | input that shows it | evidently intended | confidence | as-written member | corrected member |
|---|---|---|---|---|---|---|
| src/application.js:312-320 | `intersectPlane` returns `null` and leaves its target at (0, 0, 0) when the ray misses the ground plane, but the guard tests the target vector, which is always truthy | move mode on, an object at (5, 2, 5) selected, the pointer above the horizon so the ray misses the plane: the object jumps to (0, 2, 0) | test the result of `intersectPlane`, so that a miss leaves the object where it is | not executed | Editor.MouseMoved | Editor.MouseMovedCorrected |

`Editor.MouseMoved` and `Editor.Application.OnMouseMove` model the handler as written, with the
drag step `Editor.DraggedAsWritten`. `Editor.MissedRayJumpsToAxis` and
`Editor.MouseMoveCorrection` exhibit the jump on a miss. `Editor.MouseMovedCorrected`, with the
drag step `Editor.Dragged`, is the intended handler: a miss changes nothing.
`Editor.MouseMoveCorrection` proves that it agrees with the handler as written on every hit.
