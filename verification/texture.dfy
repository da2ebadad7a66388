/** `Texture`: a texture handle with the parameters it was created with,
    and the uploads and parameter calls its methods issue. */
module Textures {
  import opened Ints
  import opened Gl

  datatype Texture = Texture(
    id: u32,
    kind: TextureType,
    format: Format,
    floatingPoint: bool,
    depthSize: u32,
    layerCount: u32,
    width: u32,
    height: u32,
    depth: u32)

  /** `Texture tex{}`: the member initialisers of the class (`m_id` 0,
      `m_floatingPoint` false, `m_depthSize` 24, `m_layerCount` 0, `m_width`
      and `m_height` 0, `m_depth` 1) and zero for the two enumerations. */
  const Blank: Texture := Texture(0, NoType, NoFormat, false, 24, 0, 0, 0, 1)

  /** The internal format every upload derives from the texture. */
  function InternalFormatOf(t: Texture): InternalFormat
  {
    InternalFormat(t.format, t.floatingPoint, t.depthSize)
  }

  /** `destroy`: delete and forget a live handle; nothing for handle 0. */
  function Destroy(t: Texture): (r: Effect<Texture>)
    ensures r.value.id == 0
    ensures t.id == 0 ==> r == Effect(t, [])
    ensures t.id != 0 ==> r.value == t.(id := 0) && r.commands == [DeleteTexture(t.id)]
  {
    if t.id != 0 then Effect(t.(id := 0), [DeleteTexture(t.id)]) else Effect(t, [])
  }

  /** Destroying twice deletes once. */
  lemma DestroyIdempotent(t: Texture)
    ensures Destroy(Destroy(t).value) == Effect(Destroy(t).value, [])
    ensures Destroy(t).commands + Destroy(Destroy(t).value).commands == Destroy(t).commands
  {
  }

  /** `create`: a new handle from the driver (`newId`) and the given
      parameters; the layer count is left as it was. The previous handle, if
      any, is overwritten without being deleted. */
  function Create(t: Texture, kind: TextureType, format: Format, width: u32, height: u32, depth: u32,
                  floatingPoint: bool, depthSize: u32, newId: u32): (r: Effect<Texture>)
    ensures r.value.id == newId && r.value.kind == kind && r.value.format == format
    ensures r.value.width == width && r.value.height == height && r.value.depth == depth
    ensures r.value.floatingPoint == floatingPoint && r.value.depthSize == depthSize
    ensures r.value.layerCount == t.layerCount
    ensures r.commands == [GenTexture(newId)]
  {
    Effect(Texture(newId, kind, format, floatingPoint, depthSize, t.layerCount, width, height, depth), [GenTexture(newId)])
  }

  /** A created texture owns the handle it was given: destroying it deletes
      exactly that handle, while the handle it replaced was never deleted. */
  lemma CreateThenDestroy(t: Texture, kind: TextureType, format: Format, width: u32, height: u32, depth: u32,
                          floatingPoint: bool, depthSize: u32, newId: u32)
    requires newId != 0
    ensures var c := Create(t, kind, format, width, height, depth, floatingPoint, depthSize, newId);
      && Destroy(c.value).commands == [DeleteTexture(newId)]
      && DeleteTexture(t.id) !in c.commands
  {
  }

  /** The number of axes `wrapMode` touches. */
  function SetAxes(s: TextureWrap, t: TextureWrap, r: TextureWrap): nat
  {
    (if s != WrapNone then 1 else 0) + (if t != WrapNone then 1 else 0) + (if r != WrapNone then 1 else 0)
  }

  /** The calls both versions of `wrapMode` issue: one per axis not
      passed `WrapNone`, in S, T, R order, with `rValue` sent for R. */
  function WrapCommands(kind: TextureType, s: TextureWrap, t: TextureWrap, rValue: ParamValue, r: TextureWrap): seq<Command>
  {
    (if s != WrapNone then [TexParameter(kind, WrapS, WrapValue(s))] else [])
    + (if t != WrapNone then [TexParameter(kind, WrapT, WrapValue(t))] else [])
    + (if r != WrapNone then [TexParameter(kind, WrapR, rValue)] else [])
  }

  /** `wrapMode` as written: one parameter call per axis that is not
      `WrapNone`, in S, T, R order; the R call passes the T value. */
  function WrapMode(tex: Texture, s: TextureWrap, t: TextureWrap, r: TextureWrap): (cmds: seq<Command>)
    ensures |cmds| == SetAxes(s, t, r)
    ensures TexParameter(tex.kind, WrapS, WrapValue(s)) in cmds <==> s != WrapNone
    ensures TexParameter(tex.kind, WrapT, WrapValue(t)) in cmds <==> t != WrapNone
    ensures TexParameter(tex.kind, WrapR, WrapValue(t)) in cmds <==> r != WrapNone
    ensures forall i :: 0 <= i < |cmds| ==> cmds[i].TexParameter? && cmds[i].target == tex.kind
  {
    WrapCommands(tex.kind, s, t, WrapValue(t), r)
  }

  /** `wrapMode` as evidently intended: the R call passes the R value. */
  function WrapModeIntended(tex: Texture, s: TextureWrap, t: TextureWrap, r: TextureWrap): (cmds: seq<Command>)
    ensures |cmds| == SetAxes(s, t, r)
    ensures TexParameter(tex.kind, WrapS, WrapValue(s)) in cmds <==> s != WrapNone
    ensures TexParameter(tex.kind, WrapT, WrapValue(t)) in cmds <==> t != WrapNone
    ensures TexParameter(tex.kind, WrapR, WrapValue(r)) in cmds <==> r != WrapNone
    ensures forall i :: 0 <= i < |cmds| ==> cmds[i].TexParameter? && cmds[i].target == tex.kind
    ensures forall i :: 0 <= i < |cmds| ==> cmds[i].value != WrapValue(WrapNone)
  {
    WrapCommands(tex.kind, s, t, WrapValue(r), r)
  }

  /** The R axis is set to the T value: asking for mirrored-repeat on R with
      clamp on T clamps R, and leaving T alone while setting R sends the
      `WrapNone` value 0 to the driver. */
  lemma WrapModeSetsRFromT(tex: Texture)
    ensures WrapMode(tex, Repeat, ClampToEdge, MirroredRepeat)[2] == TexParameter(tex.kind, WrapR, WrapValue(ClampToEdge))
    ensures WrapModeIntended(tex, Repeat, ClampToEdge, MirroredRepeat)[2] == TexParameter(tex.kind, WrapR, WrapValue(MirroredRepeat))
    ensures WrapMode(tex, Repeat, WrapNone, Repeat)[1] == TexParameter(tex.kind, WrapR, WrapValue(WrapNone))
  {
  }

  /** The two agree exactly when R is left alone or already equals T. */
  lemma WrapModeAgreement(tex: Texture, s: TextureWrap, t: TextureWrap, r: TextureWrap)
    ensures WrapMode(tex, s, t, r) == WrapModeIntended(tex, s, t, r) <==> r == WrapNone || r == t
  {
    var a := WrapMode(tex, s, t, r);
    var b := WrapModeIntended(tex, s, t, r);
    if r != WrapNone && r != t {
      assert a[|a| - 1] != b[|b| - 1];
    }
  }

  /** `filter`: exactly two parameter calls, minification then magnification. */
  function Filter(tex: Texture, min: TextureFilter, mag: TextureFilter): (cmds: seq<Command>)
    ensures |cmds| == 2
    ensures cmds[0] == TexParameter(tex.kind, MinFilter, FilterValue(min))
    ensures cmds[1] == TexParameter(tex.kind, MagFilter, FilterValue(mag))
  {
    [TexParameter(tex.kind, MinFilter, FilterValue(min)), TexParameter(tex.kind, MagFilter, FilterValue(mag))]
  }

  /** The sampling parameters the driver holds for one texture target:
      each `glTexParameteri` on that target overwrites one entry. */
  type Params = map<TexParam, ParamValue>

  /** Whether `c` is a parameter call on `target` for `param`. */
  predicate Writes(c: Command, target: TextureType, param: TexParam)
  {
    c.TexParameter? && c.target == target && c.param == param
  }

  /** The driver executing `cmds` in order, starting from `p`. */
  function ApplyParams(p: Params, target: TextureType, cmds: seq<Command>): (r: Params)
    ensures p.Keys <= r.Keys
    decreases |cmds|
  {
    if |cmds| == 0 then p
    else
      var c := cmds[0];
      ApplyParams(if c.TexParameter? && c.target == target then p[c.param := c.value] else p, target, cmds[1..])
  }

  /** What a trace says about one parameter: no call set it, or the last
      call that did set it to `value`. */
  datatype Written = Unset | SetTo(value: ParamValue)

  /** An independent reading of a command trace: the value the last call
      on `target` for `param` passed, if any call did. */
  function LastWrite(cmds: seq<Command>, target: TextureType, param: TexParam): (r: Written)
    ensures r.SetTo? <==> exists i :: 0 <= i < |cmds| && Writes(cmds[i], target, param)
    ensures r.SetTo? ==> exists i :: 0 <= i < |cmds| && Writes(cmds[i], target, param) && cmds[i].value == r.value
    decreases |cmds|
  {
    if |cmds| == 0 then Unset
    else if Writes(cmds[|cmds| - 1], target, param) then SetTo(cmds[|cmds| - 1].value)
    else
      var init := cmds[..|cmds| - 1];
      assert forall i :: 0 <= i < |init| ==> init[i] == cmds[i];
      LastWrite(init, target, param)
  }

  lemma {:induction false} ApplyParamsConcat(p: Params, target: TextureType, a: seq<Command>, b: seq<Command>)
    ensures ApplyParams(p, target, a + b) == ApplyParams(ApplyParams(p, target, a), target, b)
    decreases |a|
  {
    if |a| > 0 {
      var c := a[0];
      var q := if c.TexParameter? && c.target == target then p[c.param := c.value] else p;
      assert (a + b)[1..] == a[1..] + b;
      ApplyParamsConcat(q, target, a[1..], b);
    } else {
      assert a + b == b;
    }
  }

  lemma ApplyOne(p: Params, target: TextureType, c: Command)
    ensures ApplyParams(p, target, [c]) == if c.TexParameter? && c.target == target then p[c.param := c.value] else p
  {
  }

  /** Last write wins: after the driver runs `cmds`, a parameter holds the
      value of the last call that set it, and one no call set keeps what it
      held before. */
  lemma {:induction false} ApplyParamsLastWrite(p: Params, target: TextureType, cmds: seq<Command>, k: TexParam)
    ensures var q := ApplyParams(p, target, cmds);
      match LastWrite(cmds, target, k)
      case SetTo(v) => k in q && q[k] == v
      case Unset => (k in q <==> k in p) && (k in p ==> q[k] == p[k])
    decreases |cmds|
  {
    if |cmds| > 0 {
      var init := cmds[..|cmds| - 1];
      var c := cmds[|cmds| - 1];
      assert init + [c] == cmds;
      ApplyParamsConcat(p, target, init, [c]);
      ApplyParamsLastWrite(p, target, init, k);
      var mid := ApplyParams(p, target, init);
      ApplyOne(mid, target, c);
      if Writes(c, target, k) {
        assert LastWrite(cmds, target, k) == SetTo(c.value);
      } else {
        assert LastWrite(cmds, target, k) == LastWrite(init, target, k);
        assert ApplyParams(p, target, cmds) == ApplyParams(mid, target, [c]);
      }
    }
  }

  /** `filter` sets the minification and magnification filters and
      nothing else. */
  lemma FilterSetsParameters(p: Params, tex: Texture, min: TextureFilter, mag: TextureFilter)
    ensures ApplyParams(p, tex.kind, Filter(tex, min, mag)) == p[MinFilter := FilterValue(min)][MagFilter := FilterValue(mag)]
  {
    var cmds := Filter(tex, min, mag);
    assert cmds == [cmds[0]] + [cmds[1]];
    ApplyParamsConcat(p, tex.kind, [cmds[0]], [cmds[1]]);
  }

  /** Whether `wrapMode` leaves parameter `k` alone. */
  predicate WrapLeaves(k: TexParam, s: TextureWrap, t: TextureWrap, r: TextureWrap)
  {
    (k == WrapS ==> s == WrapNone) && (k == WrapT ==> t == WrapNone) && (k == WrapR ==> r == WrapNone)
  }

  /** After `wrapMode` as written, S and T hold what was asked but R holds
      the T value; every parameter it leaves alone keeps its value. */
  lemma WrapModeParams(p: Params, tex: Texture, s: TextureWrap, t: TextureWrap, r: TextureWrap)
    ensures var q := ApplyParams(p, tex.kind, WrapMode(tex, s, t, r));
      && (s != WrapNone ==> WrapS in q && q[WrapS] == WrapValue(s))
      && (t != WrapNone ==> WrapT in q && q[WrapT] == WrapValue(t))
      && (r != WrapNone ==> WrapR in q && q[WrapR] == WrapValue(t))
      && (forall k :: WrapLeaves(k, s, t, r) ==> (k in q <==> k in p) && (k in p ==> q[k] == p[k]))
  {
    WrapTrace(p, tex, s, t, WrapValue(t), r);
  }

  /** After `wrapMode` as intended, every axis asked for holds its own value. */
  lemma WrapModeIntendedParams(p: Params, tex: Texture, s: TextureWrap, t: TextureWrap, r: TextureWrap)
    ensures var q := ApplyParams(p, tex.kind, WrapModeIntended(tex, s, t, r));
      && (s != WrapNone ==> WrapS in q && q[WrapS] == WrapValue(s))
      && (t != WrapNone ==> WrapT in q && q[WrapT] == WrapValue(t))
      && (r != WrapNone ==> WrapR in q && q[WrapR] == WrapValue(r))
      && (forall k :: WrapLeaves(k, s, t, r) ==> (k in q <==> k in p) && (k in p ==> q[k] == p[k]))
  {
    WrapTrace(p, tex, s, t, WrapValue(r), r);
  }

  /** A call issued only when `b` holds sets its parameter only then. */
  lemma ApplyIf(p: Params, target: TextureType, b: bool, param: TexParam, v: ParamValue)
    ensures ApplyParams(p, target, if b then [TexParameter(target, param, v)] else [])
      == if b then p[param := v] else p
  {
  }

  /** The parameters after `WrapCommands`, as successive map updates. */
  function WrapUpdate(p: Params, s: TextureWrap, t: TextureWrap, rv: ParamValue, r: TextureWrap): Params
  {
    var q1 := if s != WrapNone then p[WrapS := WrapValue(s)] else p;
    var q2 := if t != WrapNone then q1[WrapT := WrapValue(t)] else q1;
    if r != WrapNone then q2[WrapR := rv] else q2
  }

  lemma WrapCommandsApply(p: Params, kind: TextureType, s: TextureWrap, t: TextureWrap, rv: ParamValue, r: TextureWrap)
    ensures ApplyParams(p, kind, WrapCommands(kind, s, t, rv, r)) == WrapUpdate(p, s, t, rv, r)
  {
    var a: seq<Command> := if s != WrapNone then [TexParameter(kind, WrapS, WrapValue(s))] else [];
    var b: seq<Command> := if t != WrapNone then [TexParameter(kind, WrapT, WrapValue(t))] else [];
    var c: seq<Command> := if r != WrapNone then [TexParameter(kind, WrapR, rv)] else [];
    assert WrapCommands(kind, s, t, rv, r) == a + b + c;
    ApplyParamsConcat(p, kind, a + b, c);
    ApplyParamsConcat(p, kind, a, b);
    ApplyIf(p, kind, s != WrapNone, WrapS, WrapValue(s));
    var q1 := if s != WrapNone then p[WrapS := WrapValue(s)] else p;
    ApplyIf(q1, kind, t != WrapNone, WrapT, WrapValue(t));
    var q2 := if t != WrapNone then q1[WrapT := WrapValue(t)] else q1;
    ApplyIf(q2, kind, r != WrapNone, WrapR, rv);
  }

  /** What the driver holds after the calls of either version of
      `wrapMode`, with the value passed for R as a parameter. */
  lemma WrapTrace(p: Params, tex: Texture, s: TextureWrap, t: TextureWrap, rv: ParamValue, r: TextureWrap)
    ensures var q := ApplyParams(p, tex.kind, WrapCommands(tex.kind, s, t, rv, r));
      && (s != WrapNone ==> WrapS in q && q[WrapS] == WrapValue(s))
      && (t != WrapNone ==> WrapT in q && q[WrapT] == WrapValue(t))
      && (r != WrapNone ==> WrapR in q && q[WrapR] == rv)
      && (forall k :: WrapLeaves(k, s, t, r) ==> (k in q <==> k in p) && (k in p ==> q[k] == p[k]))
  {
    WrapCommandsApply(p, tex.kind, s, t, rv, r);
  }

  /** Whether a storage allocation is one OpenGL accepts: section 8.19 of the
      OpenGL 4.6 core profile specification rejects `glTexStorage*` with
      fewer than one level (INVALID_VALUE). */
  predicate StorageAccepted(c: Command)
  {
    c.TexStorage3D? ==> c.levels >= 1
  }

  /** `array` as written: only a positive count on a 2D array texture
      allocates storage and records the count; the allocation asks for 0
      mipmap levels. */
  function Array(t: Texture, layerCount: u32): (r: Effect<Texture>)
    ensures layerCount > 0 && t.kind == Texture2DArray ==>
      && r.value == t.(layerCount := layerCount)
      && r.commands == [TexStorage3D(Texture2DArray, 0, InternalFormatOf(t), t.width, t.height, layerCount)]
    ensures !(layerCount > 0 && t.kind == Texture2DArray) ==> r == Effect(t, [])
  {
    if layerCount > 0 && t.kind == Texture2DArray then
      Effect(t.(layerCount := layerCount), [TexStorage3D(t.kind, 0, InternalFormatOf(t), t.width, t.height, layerCount)])
    else
      Effect(t, [])
  }

  /** `array` as evidently intended: one mipmap level. */
  function ArrayIntended(t: Texture, layerCount: u32): (r: Effect<Texture>)
    ensures layerCount > 0 && t.kind == Texture2DArray ==>
      && r.value == t.(layerCount := layerCount)
      && r.commands == [TexStorage3D(Texture2DArray, 1, InternalFormatOf(t), t.width, t.height, layerCount)]
    ensures !(layerCount > 0 && t.kind == Texture2DArray) ==> r == Effect(t, [])
    ensures forall i :: 0 <= i < |r.commands| ==> StorageAccepted(r.commands[i])
  {
    if layerCount > 0 && t.kind == Texture2DArray then
      Effect(t.(layerCount := layerCount), [TexStorage3D(t.kind, 1, InternalFormatOf(t), t.width, t.height, layerCount)])
    else
      Effect(t, [])
  }

  /** Every allocation `array` issues is one the driver rejects, while the
      texture still records the layer count; the intended version differs
      only in the level count. */
  lemma ArrayStorageRejected(t: Texture, layerCount: u32)
    requires layerCount > 0 && t.kind == Texture2DArray
    ensures !StorageAccepted(Array(t, layerCount).commands[0])
    ensures Array(t, layerCount).value.layerCount == layerCount
    ensures ArrayIntended(t, layerCount).value == Array(t, layerCount).value
  {
  }

  /** `updateCube`: one face upload, and only on a cube map. */
  function UpdateCube(t: Texture, data: PixelData, side: CubeMapSide, dataType: DataType): (cmds: seq<Command>)
    ensures t.kind == CubeMap ==> cmds == [TexImage2D(CubeFace(side), InternalFormatOf(t), t.width, t.height, t.format, dataType, data)]
    ensures t.kind != CubeMap ==> cmds == []
  {
    if t.kind == CubeMap then [TexImage2D(CubeFace(side), InternalFormatOf(t), t.width, t.height, t.format, dataType, data)]
    else []
  }

  /** How many dimensions a texture type's whole-image upload has; 0 for the
      types `update` does not upload. */
  function Dimensions(kind: TextureType): nat
  {
    match kind
    case Texture1D => 1
    case Texture2D => 2
    case Texture3D => 3
    case _ => 0
  }

  /** The dimensionality of an image upload command, with its extent. */
  predicate UploadMatches(c: Command, t: Texture, data: PixelData, dataType: DataType)
  {
    match Dimensions(t.kind)
    case 1 => c == TexImage1D(t.kind, InternalFormatOf(t), t.width, t.format, dataType, data)
    case 2 => c == TexImage2D(WholeTexture(t.kind), InternalFormatOf(t), t.width, t.height, t.format, dataType, data)
    case 3 => c == TexImage3D(t.kind, InternalFormatOf(t), t.width, t.height, t.depth, t.format, dataType, data)
    case _ => false
  }

  /** `update`: exactly one upload of the texture's own dimensionality for 1D,
      2D and 3D textures, none for any other type. */
  function Update(t: Texture, data: PixelData, dataType: DataType): (cmds: seq<Command>)
    ensures |cmds| == (if Dimensions(t.kind) > 0 then 1 else 0)
    ensures forall i :: 0 <= i < |cmds| ==> UploadMatches(cmds[i], t, data, dataType)
  {
    var ifmt := InternalFormatOf(t);
    match t.kind
    case Texture1D => [TexImage1D(t.kind, ifmt, t.width, t.format, dataType, data)]
    case Texture2D => [TexImage2D(WholeTexture(t.kind), ifmt, t.width, t.height, t.format, dataType, data)]
    case Texture3D => [TexImage3D(t.kind, ifmt, t.width, t.height, t.depth, t.format, dataType, data)]
    case _ => []
  }

  /** `updateArray`: one sub-image upload over all layers of a 2D array
      texture that has layers, otherwise exactly `update`. */
  function UpdateArray(t: Texture, data: PixelData, dataType: DataType): (cmds: seq<Command>)
    ensures t.layerCount > 0 && t.kind == Texture2DArray ==>
      cmds == [TexSubImage3D(Texture2DArray, t.width, t.height, t.layerCount, t.format, dataType, data)]
    ensures !(t.layerCount > 0 && t.kind == Texture2DArray) ==> cmds == Update(t, data, dataType)
  {
    if t.layerCount > 0 && t.kind == Texture2DArray then
      [TexSubImage3D(t.kind, t.width, t.height, t.layerCount, t.format, dataType, data)]
    else
      Update(t, data, dataType)
  }

  /** A 2D array texture whose layer count was never set gets no upload at
      all from `updateArray`: the fallback `update` has no case for it. */
  lemma UpdateArrayWithoutLayers(t: Texture, data: PixelData, dataType: DataType)
    requires t.kind == Texture2DArray && t.layerCount == 0
    ensures UpdateArray(t, data, dataType) == []
  {
  }

  /** `bind(slot)`. */
  function Bind(t: Texture, slot: u32): seq<Command>
  {
    [ActiveTexture(slot), BindTexture(t.kind, t.id)]
  }

  /** `generateMipmaps`. */
  function GenerateMipmaps(t: Texture): seq<Command>
  {
    [GenerateMipmap(t.kind)]
  }
}
