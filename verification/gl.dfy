/** The vocabulary shared by the resource wrappers: the enumerations of
    `texture.h` and the OpenGL calls they issue, recorded as abstract
    commands. The driver itself is not modelled; whatever it returns
    (generated names, compile status, locations, framebuffer completeness)
    is an input of the operation that asks for it. */
module Gl {
  import opened Ints

  /** `Texture::TextureType`; `NoType` is the zero value of a
      value-initialised `Texture` whose `create` was never called. */
  datatype TextureType = Texture1D | Texture2D | Texture2DArray | Texture3D | CubeMap | NoType

  /** `Format`; `NoFormat` is the zero value of a value-initialised `Texture`. */
  datatype Format = R | RG | RGB | RGBA | BGR | BGRA | Depth | DepthStencil | NoFormat

  /** `TextureWrap`: `WrapNone` (0) means "leave this axis alone". */
  datatype TextureWrap = WrapNone | ClampToEdge | Repeat | MirroredRepeat

  /** `TextureFilter`. */
  datatype TextureFilter = Nearest | Linear | NearestMipMapNearest | NearestMipMapLinear | LinearMipMapLinear | LinearMipMapNearest

  /** `CubeMapSide`. */
  datatype CubeMapSide = PositiveX | NegativeX | PositiveY | NegativeY | PositiveZ | NegativeZ

  /** The pixel component type of an upload; only the two the wrappers pick
      themselves are named. */
  datatype DataType = TypeUByte | TypeFloat | OtherDataType(code: u32)

  /** The `const u8* data` of an upload; `NoPixels` is `nullptr`. */
  datatype PixelData = NoPixels | Pixels(bytes: seq<bv8>)

  /** The arguments of `getInternalFormat`, which is not part of this model;
      the internal format it derives from them is kept as those arguments. */
  datatype InternalFormat = InternalFormat(format: Format, floatingPoint: bool, depthSize: u32)

  /** The target of a 2D image upload: a texture, or one face of a cube map. */
  datatype ImageTarget = WholeTexture(kind: TextureType) | CubeFace(side: CubeMapSide)

  datatype TexParam = WrapS | WrapT | WrapR | MinFilter | MagFilter

  datatype ParamValue = WrapValue(wrap: TextureWrap) | FilterValue(filter: TextureFilter)

  /** Framebuffer attachment points; `ColorAttachment(i)` is
      `GL_COLOR_ATTACHMENT0 + i`. */
  datatype Attachment = ColorAttachment(index: nat) | DepthAttachment | StencilAttachment | DepthStencilAttachment

  datatype Command =
    // textures
    | GenTexture(id: u32)
    | DeleteTexture(id: u32)
    | ActiveTexture(slot: u32)
    | BindTexture(target: TextureType, id: u32)
    | TexParameter(target: TextureType, param: TexParam, value: ParamValue)
    | TexStorage3D(target: TextureType, levels: int, ifmt: InternalFormat, width: u32, height: u32, layers: u32)
    | TexImage1D(target: TextureType, ifmt: InternalFormat, width: u32, format: Format, dataType: DataType, data: PixelData)
    | TexImage2D(image: ImageTarget, ifmt: InternalFormat, width: u32, height: u32, format: Format, dataType: DataType, data: PixelData)
    | TexImage3D(target: TextureType, ifmt: InternalFormat, width: u32, height: u32, depth: u32, format: Format, dataType: DataType, data: PixelData)
    | TexSubImage3D(target: TextureType, width: u32, height: u32, layers: u32, format: Format, dataType: DataType, data: PixelData)
    | GenerateMipmap(target: TextureType)
    // framebuffers (always bound to GL_FRAMEBUFFER)
    | GenFramebuffer(id: u32)
    | DeleteFramebuffer(id: u32)
    | BindFramebuffer(id: u32)
    | DrawBufferNone
    | ReadBufferNone
    | FramebufferTexture1D(attachment: Attachment, target: TextureType, texture: u32, mip: u32)
    | FramebufferTexture2D(attachment: Attachment, target: TextureType, texture: u32, mip: u32)
    | FramebufferTexture3D(attachment: Attachment, target: TextureType, texture: u32, mip: u32, layer: u32)
    | FramebufferTextureLayer(attachment: Attachment, texture: u32, mip: u32, layer: u32)
    | DrawBuffers(buffers: seq<Attachment>)
    | CheckFramebufferStatus
    | GenRenderbuffer(id: u32)
    | DeleteRenderbuffer(id: u32)
    | BindRenderbuffer(id: u32)
    | RenderbufferStorage(ifmt: InternalFormat, width: u32, height: u32)
    | FramebufferRenderbuffer(attachment: Attachment, renderbuffer: u32)
    // shader programs
    | CreateShader(shaderType: u32, shader: u32)
    | ShaderSource(shader: u32, source: string)
    | CompileShader(shader: u32)
    | GetCompileStatus(shader: u32)
    | GetInfoLogLength(shader: u32)
    | GetInfoLog(shader: u32)
    | DeleteShader(shader: u32)
    | AttachShader(program: u32, shader: u32)
    | DetachShader(program: u32, shader: u32)
    | LinkProgram(program: u32)
    | GetStorageBlockIndex(program: u32, name: string)
    | GetUniformBlockIndex(program: u32, name: string)
    | GetUniformLocation(program: u32, name: string)
    | GetAttribLocation(program: u32, name: string)

  /** An operation's new object together with the commands it issued, in
      order. */
  datatype Effect<T> = Effect(value: T, commands: seq<Command>)
}
