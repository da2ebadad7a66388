/** `FrameBuffer`: a framebuffer handle with its colour, depth, stencil and
    renderbuffer attachments, and the commands its methods issue. */
module FrameBuffers {
  import opened Ints
  import opened Gl
  import opened Textures

  /** What `color` remembers of every colour attachment it was asked for. */
  datatype SavedColorAttachment = SavedColorAttachment(format: Format, target: TextureType, mip: u32)

  datatype FrameBuffer = FrameBuffer(
    id: u32,
    width: u32,
    height: u32,
    depth: u32,
    colorAttachments: seq<Texture>,
    savedColorAttachments: seq<SavedColorAttachment>,
    depthAttachment: Texture,
    stencilAttachment: Texture,
    rboId: u32,
    renderBufferStorage: Format)

  /** `create`: the given size, a new handle from the driver (`newId`), and
      no draw or read buffer; the attachments are left as they were. */
  function Create(fb: FrameBuffer, width: u32, height: u32, depth: u32, newId: u32): (r: Effect<FrameBuffer>)
    ensures r.value.width == width && r.value.height == height && r.value.depth == depth
    ensures r.value.id == newId
    ensures r.value.colorAttachments == fb.colorAttachments && r.value.savedColorAttachments == fb.savedColorAttachments
    ensures r.value.depthAttachment == fb.depthAttachment && r.value.stencilAttachment == fb.stencilAttachment
    ensures r.value.rboId == fb.rboId && r.value.renderBufferStorage == fb.renderBufferStorage
    ensures r.commands == [GenFramebuffer(newId), BindFramebuffer(newId), DrawBufferNone, ReadBufferNone, BindFramebuffer(0)]
  {
    Effect(fb.(id := newId, width := width, height := height, depth := depth),
           [GenFramebuffer(newId), BindFramebuffer(newId), DrawBufferNone, ReadBufferNone, BindFramebuffer(0)])
  }

  /** The draw-buffer list built by the `push_back` loops of `color` and
      `resetDrawBuffers`: the first `count` colour attachment points, in
      order. */
  function DrawBufferList(count: nat): (r: seq<Attachment>)
    ensures |r| == count
    ensures forall i :: 0 <= i < count ==> r[i] == ColorAttachment(i)
  {
    if count == 0 then [] else DrawBufferList(count - 1) + [ColorAttachment(count - 1)]
  }

  /** The uploads `color` gives a fresh texture: the six faces of a cube map
      in the order -X, -Y, -Z, +X, +Y, +Z, `updateArray` for a 2D array
      texture, `update` otherwise; always without pixel data. */
  function ColorUploads(tex: Texture, dataType: DataType): seq<Command>
  {
    if tex.kind == CubeMap then
      UpdateCube(tex, NoPixels, NegativeX, dataType) + UpdateCube(tex, NoPixels, NegativeY, dataType)
      + UpdateCube(tex, NoPixels, NegativeZ, dataType) + UpdateCube(tex, NoPixels, PositiveX, dataType)
      + UpdateCube(tex, NoPixels, PositiveY, dataType) + UpdateCube(tex, NoPixels, PositiveZ, dataType)
    else if tex.kind == Texture2DArray then
      UpdateArray(tex, NoPixels, dataType)
    else
      Update(tex, NoPixels, dataType)
  }

  /** The `switch (type)` that attaches the texture at `at`; a cube map has no
      case and is not attached. */
  function AttachColor(kind: TextureType, at: Attachment, texture: u32, mip: u32, layer: u32): seq<Command>
  {
    match kind
    case Texture1D => [FramebufferTexture1D(at, kind, texture, mip)]
    case Texture2D => [FramebufferTexture2D(at, kind, texture, mip)]
    case Texture3D => [FramebufferTexture3D(at, kind, texture, mip, layer)]
    case Texture2DArray => [FramebufferTextureLayer(at, texture, mip, layer)]
    case _ => []
  }

  /** A command that attaches a texture to a framebuffer attachment point. */
  predicate AttachesTexture(c: Command)
  {
    c.FramebufferTexture1D? || c.FramebufferTexture2D? || c.FramebufferTexture3D? || c.FramebufferTextureLayer?
  }

  /** The texture `color` creates, before anything is uploaded to it. */
  function ColorTexture(fb: FrameBuffer, kind: TextureType, format: Format, floatingPoint: bool, depthSize: u32, texId: u32): Texture
  {
    Textures.Create(Blank, kind, format, fb.width, fb.height, fb.depth, floatingPoint, depthSize, texId).value
  }

  /** The commands `color` issues up to and including the completeness
      query: bind, create, upload, attach at the next colour attachment point,
      and select the draw buffers. */
  function ColorCommands(fb: FrameBuffer, tex: Texture, mip: u32, layer: u32): (cmds: seq<Command>)
    ensures |cmds| >= 2
    ensures cmds[0] == BindFramebuffer(fb.id)
    ensures cmds[|cmds| - 1] == CheckFramebufferStatus
    ensures DrawBuffers(DrawBufferList(|fb.colorAttachments| + 1)) in cmds
    ensures tex.kind != CubeMap && tex.kind != NoType ==>
      exists i :: 0 <= i < |cmds| && AttachesTexture(cmds[i]) && cmds[i].attachment == ColorAttachment(|fb.colorAttachments|)
    ensures tex.kind == CubeMap ==> forall i :: 0 <= i < |cmds| ==> !AttachesTexture(cmds[i])
  {
    var dataType := if tex.floatingPoint then TypeFloat else TypeUByte;
    var att := |fb.colorAttachments|;
    var attach := AttachColor(tex.kind, ColorAttachment(att), tex.id, mip, layer);
    var setup := [BindFramebuffer(fb.id), GenTexture(tex.id)] + Bind(tex, 0) + ColorUploads(tex, dataType) + GenerateMipmaps(tex);
    var prefix := setup + attach;
    assert forall i :: 0 <= i < |setup| ==> !AttachesTexture(setup[i]);
    var cmds := prefix + [DrawBuffers(DrawBufferList(att + 1)), CheckFramebufferStatus];
    assert tex.kind != CubeMap && tex.kind != NoType ==>
      cmds[|setup|] == attach[0] && AttachesTexture(cmds[|setup|]) && cmds[|setup|].attachment == ColorAttachment(att);
    cmds
  }

  /** `color`: create a texture of the framebuffer's size, upload empty
      storage to it, remember the request, attach it at the next colour
      attachment point and draw to all points up to it. The driver's
      completeness verdict (`complete`) decides whether the texture joins
      the colour list and the framebuffer is unbound; the request is
      remembered either way. */
  function Color(fb: FrameBuffer, kind: TextureType, format: Format, floatingPoint: bool, depthSize: u32,
                 mip: u32, layer: u32, texId: u32, complete: bool): (r: Effect<FrameBuffer>)
    ensures r.value.savedColorAttachments == fb.savedColorAttachments + [SavedColorAttachment(format, kind, mip)]
    ensures complete ==> r.value.colorAttachments == fb.colorAttachments + [ColorTexture(fb, kind, format, floatingPoint, depthSize, texId)]
    ensures !complete ==> r.value.colorAttachments == fb.colorAttachments
    ensures r.value == fb.(colorAttachments := r.value.colorAttachments, savedColorAttachments := r.value.savedColorAttachments)
    ensures complete ==> r.commands == ColorCommands(fb, ColorTexture(fb, kind, format, floatingPoint, depthSize, texId), mip, layer) + [BindFramebuffer(0)]
    ensures !complete ==> r.commands == ColorCommands(fb, ColorTexture(fb, kind, format, floatingPoint, depthSize, texId), mip, layer)
    ensures r.commands[|r.commands| - 1] == BindFramebuffer(0) <==> complete
  {
    var tex := ColorTexture(fb, kind, format, floatingPoint, depthSize, texId);
    var saved := fb.savedColorAttachments + [SavedColorAttachment(format, kind, mip)];
    var cmds := ColorCommands(fb, tex, mip, layer);
    if !complete then
      Effect(fb.(savedColorAttachments := saved), cmds)
    else
      var all := cmds + [BindFramebuffer(0)];
      Effect(fb.(savedColorAttachments := saved, colorAttachments := fb.colorAttachments + [tex]), all)
  }

  /** What `color` issues, whatever the driver's verdict: it binds the
      framebuffer first, draws to the attachment points up to and including
      the new one, and attaches the texture at the next colour attachment
      point unless it is a cube map, which the attachment switch skips. */
  lemma ColorAttachesAtNextPoint(fb: FrameBuffer, kind: TextureType, format: Format, floatingPoint: bool, depthSize: u32,
                                 mip: u32, layer: u32, texId: u32, complete: bool)
    ensures var r := Color(fb, kind, format, floatingPoint, depthSize, mip, layer, texId, complete);
      && r.commands[0] == BindFramebuffer(fb.id)
      && DrawBuffers(DrawBufferList(|fb.colorAttachments| + 1)) in r.commands
      && (kind != CubeMap && kind != NoType ==>
           exists i :: 0 <= i < |r.commands| && AttachesTexture(r.commands[i]) && r.commands[i].attachment == ColorAttachment(|fb.colorAttachments|))
      && (kind == CubeMap ==> forall i :: 0 <= i < |r.commands| ==> !AttachesTexture(r.commands[i]))
  {
    var tex := ColorTexture(fb, kind, format, floatingPoint, depthSize, texId);
    var cmds := ColorCommands(fb, tex, mip, layer);
    var all := Color(fb, kind, format, floatingPoint, depthSize, mip, layer, texId, complete).commands;
    if complete {
      assert all == cmds + [BindFramebuffer(0)];
      assert forall i :: 0 <= i < |cmds| ==> all[i] == cmds[i];
      if kind != CubeMap && kind != NoType {
        var i :| 0 <= i < |cmds| && AttachesTexture(cmds[i]) && cmds[i].attachment == ColorAttachment(|fb.colorAttachments|);
        assert all[i] == cmds[i];
      }
    } else {
      assert all == cmds;
    }
  }

  /** Every incomplete `color` call widens the gap between the remembered
      requests and the attached textures by one; a complete one keeps it. */
  lemma ColorListsDiverge(fb: FrameBuffer, kind: TextureType, format: Format, floatingPoint: bool, depthSize: u32,
                          mip: u32, layer: u32, texId: u32, complete: bool)
    ensures var r := Color(fb, kind, format, floatingPoint, depthSize, mip, layer, texId, complete).value;
      |r.savedColorAttachments| - |r.colorAttachments|
        == |fb.savedColorAttachments| - |fb.colorAttachments| + (if complete then 0 else 1)
  {
  }

  /** The storage `color` gives a texture: six face allocations for a cube
      map, one image for 1D, 2D and 3D, and nothing for a 2D array texture,
      whose layer count is still 0. */
  lemma ColorUploadCount(fb: FrameBuffer, kind: TextureType, format: Format, floatingPoint: bool, depthSize: u32, texId: u32)
    ensures var tex := ColorTexture(fb, kind, format, floatingPoint, depthSize, texId);
      var dataType := if floatingPoint then TypeFloat else TypeUByte;
      |ColorUploads(tex, dataType)| == (if kind == CubeMap then 6 else if kind == Texture2DArray || kind == NoType then 0 else 1)
  {
  }

  /** `resetDrawBuffers`: draw to exactly the attachment points of the
      textures in the colour list. */
  function ResetDrawBuffers(fb: FrameBuffer): (cmds: seq<Command>)
    ensures |cmds| == 1 && cmds[0].DrawBuffers?
    ensures |cmds[0].buffers| == |fb.colorAttachments|
    ensures forall i :: 0 <= i < |fb.colorAttachments| ==> cmds[0].buffers[i] == ColorAttachment(i)
  {
    [DrawBuffers(DrawBufferList(|fb.colorAttachments|))]
  }

  /** After a complete `color`, resetting the draw buffers selects the same
      list `color` set; after an incomplete one it drops the last point. */
  lemma ResetAfterColor(fb: FrameBuffer, kind: TextureType, format: Format, floatingPoint: bool, depthSize: u32,
                        mip: u32, layer: u32, texId: u32, complete: bool)
    ensures var r := Color(fb, kind, format, floatingPoint, depthSize, mip, layer, texId, complete);
      ResetDrawBuffers(r.value)[0].buffers
        == (if complete then DrawBufferList(|fb.colorAttachments| + 1) else DrawBufferList(|fb.colorAttachments|))
  {
  }

  /** `depth`: once a depth texture with a non-zero handle is attached,
      nothing happens; otherwise a new 2D depth texture of the framebuffer's
      size is created and attached. */
  function DepthTexture(fb: FrameBuffer, depthSize: u32, texId: u32): (r: Effect<FrameBuffer>)
    ensures fb.depthAttachment.id != 0 ==> r == Effect(fb, [])
    ensures fb.depthAttachment.id == 0 ==>
      && r.value == fb.(depthAttachment := r.value.depthAttachment)
      && r.value.depthAttachment.id == texId
      && r.value.depthAttachment.kind == Texture2D && r.value.depthAttachment.format == Depth
      && r.value.depthAttachment.width == fb.width && r.value.depthAttachment.height == fb.height
      && r.value.depthAttachment.depthSize == depthSize
      && FramebufferTexture2D(DepthAttachment, Texture2D, texId, 0) in r.commands
  {
    if fb.depthAttachment.id != 0 then Effect(fb, [])
    else
      var tex := Textures.Create(Blank, Texture2D, Depth, fb.width, fb.height, 1, true, depthSize, texId);
      var cmds := [BindFramebuffer(fb.id)] + tex.commands
        + [FramebufferTexture2D(DepthAttachment, Texture2D, tex.value.id, 0), BindFramebuffer(0)];
      Effect(fb.(depthAttachment := tex.value), cmds)
  }

  /** `stencil`: as `depth`, with a single-channel texture at the stencil
      attachment point and the default depth size. */
  function StencilTexture(fb: FrameBuffer, texId: u32): (r: Effect<FrameBuffer>)
    ensures fb.stencilAttachment.id != 0 ==> r == Effect(fb, [])
    ensures fb.stencilAttachment.id == 0 ==>
      && r.value == fb.(stencilAttachment := r.value.stencilAttachment)
      && r.value.stencilAttachment.id == texId
      && r.value.stencilAttachment.kind == Texture2D && r.value.stencilAttachment.format == R
      && r.value.stencilAttachment.width == fb.width && r.value.stencilAttachment.height == fb.height
      && FramebufferTexture2D(StencilAttachment, Texture2D, texId, 0) in r.commands
  {
    if fb.stencilAttachment.id != 0 then Effect(fb, [])
    else
      var tex := Textures.Create(Blank, Texture2D, R, fb.width, fb.height, 1, true, 24, texId);
      var cmds := [BindFramebuffer(fb.id)] + tex.commands
        + [FramebufferTexture2D(StencilAttachment, Texture2D, tex.value.id, 0), BindFramebuffer(0)];
      Effect(fb.(stencilAttachment := tex.value), cmds)
  }

  /** The depth and stencil guards are single-shot once the driver has
      handed out a non-zero name: a second call changes and issues
      nothing. */
  lemma AttachOnce(fb: FrameBuffer, depthSize: u32, depthSize': u32, texId: u32, texId': u32)
    requires texId != 0
    ensures var d := DepthTexture(fb, depthSize, texId).value;
      DepthTexture(d, depthSize', texId') == Effect(d, [])
    ensures var s := StencilTexture(fb, texId).value;
      StencilTexture(s, texId') == Effect(s, [])
  {
  }

  /** `renderBuffer`: a no-op while a renderbuffer is held. Otherwise the
      storage format is recorded, a renderbuffer of the framebuffer's size is
      created and attached, and kept only if the driver reports the
      framebuffer complete; if not it is deleted and the handle reset to 0. */
  function RenderBuffer(fb: FrameBuffer, storage: Format, attachment: Attachment, floatingPoint: bool,
                        depthSize: u32, rboId: u32, complete: bool): (r: Effect<FrameBuffer>)
    ensures fb.rboId != 0 ==> r == Effect(fb, [])
    ensures fb.rboId == 0 ==>
      && r.value == fb.(rboId := r.value.rboId, renderBufferStorage := storage)
      && r.value.rboId == (if complete then rboId else 0)
      && FramebufferRenderbuffer(attachment, rboId) in r.commands
      && (DeleteRenderbuffer(rboId) in r.commands <==> !complete)
      && r.commands[|r.commands| - 1] == BindFramebuffer(0)
  {
    if fb.rboId != 0 then Effect(fb, [])
    else
      var ifmt := InternalFormat(storage, floatingPoint, depthSize);
      var cmds := [GenRenderbuffer(rboId), BindFramebuffer(fb.id), BindRenderbuffer(rboId),
                   RenderbufferStorage(ifmt, fb.width, fb.height), FramebufferRenderbuffer(attachment, rboId),
                   BindRenderbuffer(0), CheckFramebufferStatus];
      if !complete then
        Effect(fb.(renderBufferStorage := storage, rboId := 0), cmds + [DeleteRenderbuffer(rboId), BindFramebuffer(0)])
      else
        Effect(fb.(renderBufferStorage := storage, rboId := rboId), cmds + [BindFramebuffer(0)])
  }

  /** A failed `renderBuffer` leaves the guard open, so the next call tries
      again; a successful one with a non-zero name closes it. */
  lemma RenderBufferRetry(fb: FrameBuffer, storage: Format, attachment: Attachment, floatingPoint: bool,
                          depthSize: u32, rboId: u32, complete: bool,
                          storage': Format, attachment': Attachment, rboId': u32, complete': bool)
    requires fb.rboId == 0
    ensures var first := RenderBuffer(fb, storage, attachment, floatingPoint, depthSize, rboId, complete).value;
      var second := RenderBuffer(first, storage', attachment', floatingPoint, depthSize, rboId', complete');
      (second.commands == []) <==> (complete && rboId != 0)
  {
  }

  /** The destructor: delete and forget the framebuffer and the renderbuffer
      that are live. */
  function Release(fb: FrameBuffer): (r: Effect<FrameBuffer>)
    ensures r.value.id == 0 && r.value.rboId == 0
    ensures r.value == fb.(id := 0, rboId := 0)
    ensures DeleteFramebuffer(fb.id) in r.commands <==> fb.id != 0
    ensures DeleteRenderbuffer(fb.rboId) in r.commands <==> fb.rboId != 0
    ensures |r.commands| == (if fb.id != 0 then 1 else 0) + (if fb.rboId != 0 then 1 else 0)
  {
    var fbCmds := if fb.id != 0 then [DeleteFramebuffer(fb.id)] else [];
    var rbCmds := if fb.rboId != 0 then [DeleteRenderbuffer(fb.rboId)] else [];
    Effect(fb.(id := 0, rboId := 0), fbCmds + rbCmds)
  }

  /** `create` followed by the destructor: the destructor deletes the
      handle `create` obtained, and nothing deletes a handle `create`
      overwrote, so a framebuffer created twice leaks the first one. */
  lemma CreateThenRelease(fb: FrameBuffer, width: u32, height: u32, depth: u32, newId: u32)
    requires newId != 0
    ensures var c := Create(fb, width, height, depth, newId);
      && DeleteFramebuffer(newId) in Release(c.value).commands
      && (fb.id != newId ==> DeleteFramebuffer(fb.id) !in c.commands + Release(c.value).commands)
      && (DeleteRenderbuffer(fb.rboId) in Release(c.value).commands <==> fb.rboId != 0)
  {
  }

  /** Releasing twice deletes once. */
  lemma ReleaseIdempotent(fb: FrameBuffer)
    ensures Release(Release(fb).value) == Effect(Release(fb).value, [])
  {
  }
}
