/** The textual transform format: `"x, y, z"` / `"x, y, z, w"` strings written by export, read back
    by `loadScene` / `importScene`, and typed by the user into the selection panel.
    JavaScript's `Number` and `parseFloat` are abstract parsers returning `None` for NaN, and
    number-to-string conversion (the template literal `${x}`) is an abstract formatter. */
module Codec {
  import opened Wrappers
  import opened Text
  import opened SceneGraph

  /** `Number(token)` or `parseFloat(token)`: `None` stands for NaN. */
  type NumberParser = string -> Option<real>

  /** `${x}`: a number written as a string. */
  type NumberFormatter = real -> string

  /** The environment parameters of a scene document (`params.skybox.file`, `params.ground`). */
  datatype SceneParams = SceneParams(skyboxFile: Option<string>, groundTexture: Option<string>, groundRepeats: Option<real>)

  /** `{}`. */
  const NoParams := SceneParams(None, None, None)

  /** One entry of a document's `nodes`; an absent or empty field is `""`. */
  datatype DocNode = DocNode(name: string, position: string, rotation: string, scale: string)

  /** A scene document; `params` and `nodes` may be missing. */
  datatype Document = Document(params: Option<SceneParams>, nodes: Option<seq<DocNode>>)

  /** JavaScript truthiness of an optional string and of an optional number. */
  predicate Truthy(s: Option<string>)
  {
    s.Some? && s.value != ""
  }

  predicate TruthyNumber(r: Option<real>)
  {
    r.Some? && r.value != 0.0
  }

  // ---------------------------------------------------------------- export

  /** `${v.x}, ${v.y}, ${v.z}`. */
  function EncodeVec3(v: Vec3, show: NumberFormatter): string
  {
    show(v.x) + ", " + show(v.y) + ", " + show(v.z)
  }

  /** `${q.x}, ${q.y}, ${q.z}, ${q.w}`. */
  function EncodeQuat(q: Quat, show: NumberFormatter): string
  {
    show(q.x) + ", " + show(q.y) + ", " + show(q.z) + ", " + show(q.w)
  }

  /** The document entry export writes for one object; the name defaults to `'unnamed'`. */
  function ExportNode(n: Node, show: NumberFormatter): (d: DocNode)
    ensures d.name != "" && (n.name != "" ==> d.name == n.name) && (n.name == "" ==> d.name == "unnamed")
  {
    DocNode(if n.name == "" then "unnamed" else n.name,
            EncodeVec3(n.position, show), EncodeQuat(n.quaternion, show), EncodeVec3(n.scale, show))
  }

  /** Export writes a position and a scale as three comma-separated numbers and a rotation as
      four (the quaternion's x, y, z, w). */
  lemma ExportNodeArity(n: Node, show: NumberFormatter)
    requires forall c :: ',' !in show(c)
    ensures var d := ExportNode(n, show);
      && Split(d.position, ',') == [show(n.position.x), " " + show(n.position.y), " " + show(n.position.z)]
      && Split(d.rotation, ',') == [show(n.quaternion.x), " " + show(n.quaternion.y), " " + show(n.quaternion.z), " " + show(n.quaternion.w)]
      && Split(d.scale, ',') == [show(n.scale.x), " " + show(n.scale.y), " " + show(n.scale.z)]
  {
    SplitVec3(n.position, show);
    SplitVec3(n.scale, show);
    SplitQuat(n.quaternion, show);
  }

  lemma SplitVec3(v: Vec3, show: NumberFormatter)
    requires ',' !in show(v.x) && ',' !in show(v.y) && ',' !in show(v.z)
    ensures Split(EncodeVec3(v, show), ',') == [show(v.x), " " + show(v.y), " " + show(v.z)]
  {
    var a, b, c := show(v.x), show(v.y), show(v.z);
    assert EncodeVec3(v, show) == a + [','] + ((" " + b) + [','] + (" " + c));
    SplitAtSeparator(a, ',', (" " + b) + [','] + (" " + c));
    SplitAtSeparator(" " + b, ',', " " + c);
    SplitFree(" " + c, ',');
  }

  lemma SplitQuat(q: Quat, show: NumberFormatter)
    requires ',' !in show(q.x) && ',' !in show(q.y) && ',' !in show(q.z) && ',' !in show(q.w)
    ensures Split(EncodeQuat(q, show), ',') == [show(q.x), " " + show(q.y), " " + show(q.z), " " + show(q.w)]
  {
    var a, b, c, d := show(q.x), show(q.y), show(q.z), show(q.w);
    assert EncodeQuat(q, show) == a + [','] + ((" " + b) + [','] + ((" " + c) + [','] + (" " + d)));
    SplitAtSeparator(a, ',', (" " + b) + [','] + ((" " + c) + [','] + (" " + d)));
    SplitAtSeparator(" " + b, ',', (" " + c) + [','] + (" " + d));
    SplitAtSeparator(" " + c, ',', " " + d);
    SplitFree(" " + d, ',');
  }

  // ---------------------------------------------------------------- import

  /** `text.split(',').map(Number)`. */
  function Numbers(text: string, number: NumberParser): (arr: seq<Option<real>>)
    ensures |arr| == |Split(text, ',')|
    ensures forall i :: 0 <= i < |arr| ==> arr[i] == number(Split(text, ',')[i])
  {
    var pieces := Split(text, ',');
    seq(|pieces|, i requires 0 <= i < |pieces| => number(pieces[i]))
  }

  /** Component `i` that `fromArray` writes: the array's number, or the current value when the
      array has no number there. */
  function Component(arr: seq<Option<real>>, i: nat, current: real): real
  {
    if i < |arr| && arr[i].Some? then arr[i].value else current
  }

  /** `vector.fromArray(text.split(',').map(Number))`. */
  function DecodeVec3(current: Vec3, text: string, number: NumberParser): Vec3
  {
    var arr := Numbers(text, number);
    Vec3(Component(arr, 0, current.x), Component(arr, 1, current.y), Component(arr, 2, current.z))
  }

  /** `quaternion.fromArray(text.split(',').map(Number))`. */
  function DecodeQuat(current: Quat, text: string, number: NumberParser): Quat
  {
    var arr := Numbers(text, number);
    Quat(Component(arr, 0, current.x), Component(arr, 1, current.y), Component(arr, 2, current.z), Component(arr, 3, current.w))
  }

  /** `number` reads back what `show` writes, also after the blank export puts in front, and
      `show` writes no comma. */
  predicate ReadsBack(show: NumberFormatter, number: NumberParser, c: real)
  {
    ',' !in show(c) && number(show(c)) == Some(c) && number(" " + show(c)) == Some(c)
  }

  /** An exported position or scale is read back exactly. */
  lemma Vec3RoundTrip(v: Vec3, current: Vec3, show: NumberFormatter, number: NumberParser)
    requires ReadsBack(show, number, v.x) && ReadsBack(show, number, v.y) && ReadsBack(show, number, v.z)
    ensures DecodeVec3(current, EncodeVec3(v, show), number) == v
  {
    SplitVec3(v, show);
  }

  /** An exported rotation is read back exactly. */
  lemma QuatRoundTrip(q: Quat, current: Quat, show: NumberFormatter, number: NumberParser)
    requires ReadsBack(show, number, q.x) && ReadsBack(show, number, q.y)
    requires ReadsBack(show, number, q.z) && ReadsBack(show, number, q.w)
    ensures DecodeQuat(current, EncodeQuat(q, show), number) == q
  {
    SplitQuat(q, show);
  }

  // ---------------------------------------------------------------- selection panel

  /** Piece `i` of the edited text, trimmed and parsed; `None` when there is no such piece. */
  function Field(value: string, i: nat, parseFloat: NumberParser): Option<real>
  {
    var pieces := Split(value, ',');
    if i < |pieces| then parseFloat(Trim(pieces[i])) else None
  }

  /** The panel's validator: `value.split(',').map(v => parseFloat(v.trim()))` is used only when it
      has exactly three entries, none of them NaN. */
  function ParseTriple(value: string, parseFloat: NumberParser): (r: Option<Vec3>)
  {
    if |Split(value, ',')| == 3 && Field(value, 0, parseFloat).Some? && Field(value, 1, parseFloat).Some?
       && Field(value, 2, parseFloat).Some?
    then Some(Vec3(Field(value, 0, parseFloat).value, Field(value, 1, parseFloat).value, Field(value, 2, parseFloat).value))
    else None
  }

  /** An edit is accepted exactly when the text has two commas and each of its three pieces,
      trimmed, is a number; the accepted triple is those numbers in order. */
  lemma ParseTripleAccepts(value: string, parseFloat: NumberParser)
    ensures ParseTriple(value, parseFloat).Some? <==>
      Count(value, ',') == 2 && Field(value, 0, parseFloat).Some? && Field(value, 1, parseFloat).Some?
      && Field(value, 2, parseFloat).Some?
    ensures ParseTriple(value, parseFloat).Some? ==>
      ParseTriple(value, parseFloat).value
        == Vec3(Field(value, 0, parseFloat).value, Field(value, 1, parseFloat).value, Field(value, 2, parseFloat).value)
  {
    SplitCount(value, ',');
  }

  /** Text with a comma count other than two is never applied, whatever its pieces are. */
  lemma ParseTripleNeedsTwoCommas(value: string, parseFloat: NumberParser)
    requires Count(value, ',') != 2
    ensures ParseTriple(value, parseFloat) == None
  {
    SplitCount(value, ',');
  }

  /** `show` writes no comma, and `parseFloat` reads back what it writes once trimmed. */
  predicate ReadsBackTrimmed(show: NumberFormatter, parseFloat: NumberParser, c: real)
  {
    ',' !in show(c) && parseFloat(Trim(show(c))) == Some(c)
  }

  /** The panel accepts the text export writes for a vector, and reads back that vector. */
  lemma ParseTripleReadsExport(v: Vec3, show: NumberFormatter, parseFloat: NumberParser)
    requires ReadsBackTrimmed(show, parseFloat, v.x) && ReadsBackTrimmed(show, parseFloat, v.y)
    requires ReadsBackTrimmed(show, parseFloat, v.z)
    ensures ParseTriple(EncodeVec3(v, show), parseFloat) == Some(v)
  {
    var text := EncodeVec3(v, show);
    assert |Split(text, ',')| == 3 && Field(text, 0, parseFloat) == Some(v.x)
        && Field(text, 1, parseFloat) == Some(v.y) && Field(text, 2, parseFloat) == Some(v.z) by {
      SplitVec3(v, show);
      TrimSkipsLeadingSpace(' ', show(v.y));
      TrimSkipsLeadingSpace(' ', show(v.z));
      assert Split(text, ',')[1] == [' '] + show(v.y) && Split(text, ',')[2] == [' '] + show(v.z);
    }
  }
}
