/** `Shader`: a program object with its compiled stages and the three
    memo caches of looked-up indices. */
module Shaders {
  import opened Ints
  import opened Gl

  /** A stage is identified by its GLenum shader type. */
  type ShaderType = u32

  /** `Shader::ProgramInterface`; any other value of the enumeration reaches
      neither case of the lookup switch. */
  datatype ProgramInterface = ShaderStorageBlock | UniformBufferBlock | OtherInterface(code: int)

  datatype Shader = Shader(
    id: u32,
    subShaders: map<ShaderType, u32>,
    blockIndices: map<string, i32>,
    uniforms: map<string, i32>,
    attributes: map<string, i32>)

  /** The driver's answers for one linked program: whether a source compiles
      for a stage, and the name lookups (block indices come back as GLuint). */
  datatype Driver = Driver(
    compiles: (ShaderType, string) -> bool,
    storageBlockIndex: string -> u32,
    uniformBlockIndex: string -> u32,
    uniformLocation: string -> i32,
    attribLocation: string -> i32)

  /** `add`: compile a stage unless one of that type is already recorded.
      A stage that fails to compile is deleted and not recorded; one that
      compiles is attached and recorded under its type. `newShader` is the
      name the driver hands out. */
  function Add(sh: Shader, d: Driver, source: string, kind: ShaderType, newShader: u32): (r: Effect<Shader>)
    ensures kind in sh.subShaders ==> r == Effect(sh, [])
    ensures kind !in sh.subShaders && !d.compiles(kind, source) ==>
      && r.value == sh
      && DeleteShader(newShader) in r.commands
      && AttachShader(sh.id, newShader) !in r.commands
    ensures kind !in sh.subShaders && d.compiles(kind, source) ==>
      && r.value == sh.(subShaders := r.value.subShaders)
      && r.value.subShaders.Keys == sh.subShaders.Keys + {kind}
      && r.value.subShaders[kind] == newShader
      && (forall k :: k in sh.subShaders ==> r.value.subShaders[k] == sh.subShaders[k])
      && AttachShader(sh.id, newShader) in r.commands
      && DeleteShader(newShader) !in r.commands
  {
    if kind in sh.subShaders then Effect(sh, [])
    else
      var compile := [CreateShader(kind, newShader), ShaderSource(newShader, source), CompileShader(newShader),
                      GetCompileStatus(newShader)];
      if !d.compiles(kind, source) then
        Effect(sh, compile + [GetInfoLogLength(newShader), GetInfoLog(newShader), DeleteShader(newShader)])
      else
        Effect(sh.(subShaders := sh.subShaders[kind := newShader]), compile + [AttachShader(sh.id, newShader)])
  }

  /** The commands `link` issues for one recorded stage. */
  predicate DetachesOrDeletes(sh: Shader, c: Command)
  {
    exists k :: k in sh.subShaders && (c == DetachShader(sh.id, sh.subShaders[k]) || c == DeleteShader(sh.subShaders[k]))
  }

  /** `link`: link the program, then detach and delete every recorded stage
      (in the map's iteration order, which this model leaves open). The
      record is not cleared, so every recorded type keeps being refused by
      `add`. */
  method Link(sh: Shader, d: Driver) returns (linked: Shader, cmds: seq<Command>)
    ensures linked == sh
    ensures |cmds| == 1 + 2 * |sh.subShaders|
    ensures cmds[0] == LinkProgram(sh.id)
    ensures forall k :: k in sh.subShaders ==>
      DetachShader(sh.id, sh.subShaders[k]) in cmds && DeleteShader(sh.subShaders[k]) in cmds
    ensures forall i :: 1 <= i < |cmds| ==> DetachesOrDeletes(sh, cmds[i])
    ensures forall kind, source, s :: kind in sh.subShaders ==> Add(linked, d, source, kind, s) == Effect(linked, [])
  {
    cmds := [LinkProgram(sh.id)];
    var remaining := sh.subShaders.Keys;
    while remaining != {}
      invariant remaining <= sh.subShaders.Keys
      invariant |cmds| == 1 + 2 * (|sh.subShaders.Keys| - |remaining|)
      invariant cmds[0] == LinkProgram(sh.id)
      invariant forall k :: k in sh.subShaders && k !in remaining ==>
        DetachShader(sh.id, sh.subShaders[k]) in cmds && DeleteShader(sh.subShaders[k]) in cmds
      invariant forall i :: 1 <= i < |cmds| ==> DetachesOrDeletes(sh, cmds[i])
      decreases remaining
    {
      var k :| k in remaining;
      var s := sh.subShaders[k];
      cmds := cmds + [DetachShader(sh.id, s), DeleteShader(s)];
      remaining := remaining - {k};
    }
    assert |sh.subShaders.Keys| == |sh.subShaders|;
    linked := sh;
  }

  /** The result of a cached lookup: the index returned, the shader with its
      caches, and the driver queries issued. */
  datatype Lookup = Lookup(index: i32, shader: Shader, commands: seq<Command>)

  /** What the block-index switch yields before the failure test: the
      driver's GLuint answer read as `i32`, or -2 for an interface that is
      neither case. */
  function RawBlockIndex(d: Driver, iface: ProgramInterface, name: string): i32
  {
    match iface
    case ShaderStorageBlock => ToI32(d.storageBlockIndex(name))
    case UniformBufferBlock => ToI32(d.uniformBlockIndex(name))
    case OtherInterface(_) => -2
  }

  /** The query the switch issues, if any. */
  function BlockQuery(sh: Shader, iface: ProgramInterface, name: string): seq<Command>
  {
    match iface
    case ShaderStorageBlock => [GetStorageBlockIndex(sh.id, name)]
    case UniformBufferBlock => [GetUniformBlockIndex(sh.id, name)]
    case OtherInterface(_) => []
  }

  /** `getBlockIndex`: a cached name is answered from the cache, whatever
      interface is asked; otherwise the driver is asked, and -1 and -2 are
      both failures, answered with -1 and not cached. */
  function BlockIndex(sh: Shader, d: Driver, iface: ProgramInterface, name: string): (r: Lookup)
    ensures name in sh.blockIndices ==> r == Lookup(sh.blockIndices[name], sh, [])
    ensures name !in sh.blockIndices && RawBlockIndex(d, iface, name) in {-1, -2} ==>
      r == Lookup(-1, sh, BlockQuery(sh, iface, name))
    ensures name !in sh.blockIndices && RawBlockIndex(d, iface, name) !in {-1, -2} ==>
      && r.index == RawBlockIndex(d, iface, name)
      && r.shader == sh.(blockIndices := sh.blockIndices[name := r.index])
      && r.commands == BlockQuery(sh, iface, name)
  {
    if name in sh.blockIndices then Lookup(sh.blockIndices[name], sh, [])
    else
      var i := RawBlockIndex(d, iface, name);
      if i != -1 && i != -2 then
        Lookup(i, sh.(blockIndices := sh.blockIndices[name := i]), BlockQuery(sh, iface, name))
      else
        Lookup(-1, sh, BlockQuery(sh, iface, name))
  }

  /** `getUniformIndex`: a cached name is answered from the cache without a
      query; otherwise the driver is asked, and only an answer other than -1
      is cached. */
  function UniformIndex(sh: Shader, d: Driver, name: string): (r: Lookup)
    ensures name in sh.uniforms ==> r == Lookup(sh.uniforms[name], sh, [])
    ensures name !in sh.uniforms ==> r.index == d.uniformLocation(name) && r.commands == [GetUniformLocation(sh.id, name)]
    ensures name !in sh.uniforms && d.uniformLocation(name) == -1 ==> r.shader == sh
    ensures name !in sh.uniforms && d.uniformLocation(name) != -1 ==>
      r.shader == sh.(uniforms := sh.uniforms[name := d.uniformLocation(name)])
  {
    if name in sh.uniforms then Lookup(sh.uniforms[name], sh, [])
    else
      var i := d.uniformLocation(name);
      if i != -1 then Lookup(i, sh.(uniforms := sh.uniforms[name := i]), [GetUniformLocation(sh.id, name)])
      else Lookup(-1, sh, [GetUniformLocation(sh.id, name)])
  }

  /** `getAttributeIndex`: as `getUniformIndex`, over vertex attributes. */
  function AttributeIndex(sh: Shader, d: Driver, name: string): (r: Lookup)
    ensures name in sh.attributes ==> r == Lookup(sh.attributes[name], sh, [])
    ensures name !in sh.attributes ==> r.index == d.attribLocation(name) && r.commands == [GetAttribLocation(sh.id, name)]
    ensures name !in sh.attributes && d.attribLocation(name) == -1 ==> r.shader == sh
    ensures name !in sh.attributes && d.attribLocation(name) != -1 ==>
      r.shader == sh.(attributes := sh.attributes[name := d.attribLocation(name)])
  {
    if name in sh.attributes then Lookup(sh.attributes[name], sh, [])
    else
      var i := d.attribLocation(name);
      if i != -1 then Lookup(i, sh.(attributes := sh.attributes[name := i]), [GetAttribLocation(sh.id, name)])
      else Lookup(-1, sh, [GetAttribLocation(sh.id, name)])
  }

  /** The caches agree with the driver: every cached uniform and attribute
      is the driver's (successful) answer for that name, and every cached
      block index is the answer through interface `iface`. */
  ghost predicate CachesSound(sh: Shader, d: Driver, iface: ProgramInterface)
  {
    && (forall n :: n in sh.uniforms ==> sh.uniforms[n] == d.uniformLocation(n) != -1)
    && (forall n :: n in sh.attributes ==> sh.attributes[n] == d.attribLocation(n) != -1)
    && (forall n :: n in sh.blockIndices ==> sh.blockIndices[n] == RawBlockIndex(d, iface, n) && RawBlockIndex(d, iface, n) !in {-1, -2})
  }

  /** Memoisation is invisible: with sound caches a uniform lookup answers
      what the driver would answer, and leaves the caches sound. */
  lemma UniformLookupTransparent(sh: Shader, d: Driver, iface: ProgramInterface, name: string)
    requires CachesSound(sh, d, iface)
    ensures UniformIndex(sh, d, name).index == d.uniformLocation(name)
    ensures CachesSound(UniformIndex(sh, d, name).shader, d, iface)
  {
  }

  /** The same for attribute lookups. */
  lemma AttributeLookupTransparent(sh: Shader, d: Driver, iface: ProgramInterface, name: string)
    requires CachesSound(sh, d, iface)
    ensures AttributeIndex(sh, d, name).index == d.attribLocation(name)
    ensures CachesSound(AttributeIndex(sh, d, name).shader, d, iface)
  {
  }

  /** The same for block lookups through the interface the cache was filled
      through, with both failure codes answered as -1. */
  lemma BlockLookupTransparent(sh: Shader, d: Driver, iface: ProgramInterface, name: string)
    requires CachesSound(sh, d, iface)
    ensures BlockIndex(sh, d, iface, name).index ==
      (if RawBlockIndex(d, iface, name) in {-1, -2} then -1 else RawBlockIndex(d, iface, name))
    ensures CachesSound(BlockIndex(sh, d, iface, name).shader, d, iface)
  {
  }

  /** Once a lookup has succeeded, asking again returns the same index from
      the cache, without a query and without a change. */
  lemma LookupsIdempotent(sh: Shader, d: Driver, iface: ProgramInterface, iface': ProgramInterface, name: string)
    ensures var u := UniformIndex(sh, d, name);
      u.index != -1 ==> UniformIndex(u.shader, d, name) == Lookup(u.index, u.shader, [])
    ensures var a := AttributeIndex(sh, d, name);
      a.index != -1 ==> AttributeIndex(a.shader, d, name) == Lookup(a.index, a.shader, [])
    ensures var b := BlockIndex(sh, d, iface, name);
      b.index != -1 ==> BlockIndex(b.shader, d, iface', name) == Lookup(b.index, b.shader, [])
  {
  }

  /** The block cache is keyed by name alone: a storage block found under a
      name answers a later uniform-block query for the same name, whatever
      the driver would have said. */
  lemma BlockCacheIgnoresInterface(sh: Shader, d: Driver, name: string)
    requires name !in sh.blockIndices
    requires RawBlockIndex(d, ShaderStorageBlock, name) !in {-1, -2}
    ensures var first := BlockIndex(sh, d, ShaderStorageBlock, name);
      BlockIndex(first.shader, d, UniformBufferBlock, name).index == RawBlockIndex(d, ShaderStorageBlock, name)
  {
  }

  /** `Shader::Uniform`: a handle on one uniform location. */
  datatype Uniform = Uniform(loc: i32)

  /** `get`: the uniform at the location `getUniformIndex` returns, with the
      same cache effect. */
  function Get(sh: Shader, d: Driver, name: string): (r: (Uniform, Shader))
    ensures r.0.loc == UniformIndex(sh, d, name).index
    ensures r.1 == UniformIndex(sh, d, name).shader
  {
    var l := UniformIndex(sh, d, name);
    (Uniform(l.index), l.shader)
  }

  /** With sound caches `get` yields the driver's location for the name and
      leaves the caches sound. */
  lemma GetAnswersDriver(sh: Shader, d: Driver, iface: ProgramInterface, name: string)
    requires CachesSound(sh, d, iface)
    ensures Get(sh, d, name).0.loc == d.uniformLocation(name)
    ensures CachesSound(Get(sh, d, name).1, d, iface)
  {
    UniformLookupTransparent(sh, d, iface, name);
  }
}
