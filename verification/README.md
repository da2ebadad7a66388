# gfxe core in Dafny

A model of the core of gfxe, a small OpenGL helper library with an SDL test
host. It covers:

- `Window::run`, the host's main loop. It refuses to start without a window
  and a GL context. Otherwise it calls `onSetup`, then repeats iterations
  until a quit event arrives. Each iteration does four things: it clears the
  pressed/released edges of every key, drains the pending events into the key
  table, runs one `onUpdate` per whole 1/60 s step of accumulated time, and
  draws and swaps once if any update ran.
- The key table and its `isPressed` / `isReleased` / `isHeld` queries. Each
  query inserts an untouched entry for a key it has never seen, as
  `std::unordered_map::operator[]` does.
- `MessageCallback`, the GL debug-message classifier.
- `Shader`: `add`, `link`, the three memo caches behind `getBlockIndex`,
  `getUniformIndex` and `getAttributeIndex`, and `get`.
- `FrameBuffer`: `create`, `color`, `depth`, `stencil`, `renderBuffer`,
  `resetDrawBuffers` and the destructor.
- `Texture`: `destroy`, `create`, `wrapMode`, `filter`, `array`,
  `updateCube`, `updateArray` and `update`. The member defaults of
  `src/lib/texture.h` (lines 89-97) are `Textures.Blank`.

How the model is built:

- Every operation is a pure function from the old object to the new object.
- The GL calls an operation issues are returned beside the new object, as a
  sequence of `Gl.Command` values (`Gl.Effect`).
- Whatever the driver or SDL decides is a parameter:
  - the names `glGen*` and `glCreateShader` hand out;
  - whether a shader compiles;
  - whether a framebuffer is complete;
  - what a name lookup returns (`Shaders.Driver`);
  - the tick count and the events of each frame (`HostLoop.Frame`).
- Time is counted in 1/60 ms. A frame's time is `ticks * 60` and one update
  step is 1000. This keeps the loop's arithmetic exact.
- The game adapter's callbacks are recorded as a trace of
  `HostLoop.Action`s.

Modules:

| file | module | models |
|---|---|---|
| `ints.dfy` | `Ints` | `u32`, `i32`, the GLuint-to-`i32` conversion |
| `gl.dfy` | `Gl` | GL enumerations and the command vocabulary |
| `keyboard.dfy` | `Keyboard` | the key table, edge reset, event drain, queries |
| `host_loop.dfy` | `HostLoop` | `Window::run` |
| `debug_messages.dfy` | `DebugMessages` | `MessageCallback` |
| `texture.dfy` | `Textures` | `Texture` |
| `framebuffer.dfy` | `FrameBuffers` | `FrameBuffer` |
| `shader.dfy` | `Shaders` | `Shader` |

## Model

| member | source | states |
|---|---|---|
| Ints.ToI32 | src/lib/shader.cpp:80-83 | the block index the driver returns as GLuint, stored in an `i32`: congruent modulo 2^32, and non-negative exactly below 2^31 |
| Keyboard.Touch | src/test/window.h:28-30 | indexing the key map adds the key if it is missing, with all three flags false, and leaves every existing entry alone |
| Keyboard.ResetEdges | src/test/window.cpp:121-124 | every known key loses its pressed and released edges and keeps its held flag; no key is added or removed |
| Keyboard.ResetEdgesIdempotent | src/test/window.cpp:121-124 | clearing the edges twice is the same as clearing them once |
| Keyboard.ApplyEvent | src/test/window.cpp:127-138 | a quit stops the loop and leaves the keys alone; a key-down sets pressed and held; a key-up sets released and clears held; other events change nothing |
| Keyboard.Drain | src/test/window.cpp:126-139 | draining the event queue never removes a key from the table, and once the loop is stopped no later event restarts it |
| Keyboard.FrameInput | src/test/window.cpp:121-139 | after a frame's reset and drain the loop keeps running iff none of the frame's events was a quit, and the key table gains exactly the keys its key events name |
| Keyboard.DrainSnoc | src/test/window.cpp:126-139 | draining events one more event at the end is one more step of the event switch |
| Keyboard.DrainEffect | src/test/window.cpp:126-139 | after a drain, a key is pressed iff it was pressed before or a key-down for it arrived, and released likewise; it is held as the last key-down or key-up for it says, or as before if none arrived |
| Keyboard.DrainRunning | src/test/window.cpp:126-128 | the loop keeps running after a drain iff it was running and no quit arrived |
| Keyboard.DrainKeys | src/test/window.cpp:129-136 | a drain adds exactly the keys named by key events to the table |
| Keyboard.FrameKeyState | src/test/window.cpp:121-139 | after one frame's reset and drain, a key is pressed iff a key-down for it came in that frame, released iff a key-up did, and held as its last key event says |
| Keyboard.QuietFrame | src/test/window.cpp:121-139 | a key with no event in a frame ends the frame neither pressed nor released, keeps its held flag, and is in the table iff it was before |
| Keyboard.QuietHeld | src/test/window.cpp:129-136 | with no event for a key, its held flag stays what it was |
| Keyboard.DownThenUp | src/test/window.cpp:129-136 | a key pressed and released within one frame reads pressed, released and not held |
| Keyboard.IsPressed | src/test/window.h:28 | true iff the key is known and pressed; the query adds an untouched entry for an unknown key and changes nothing else |
| Keyboard.IsReleased | src/test/window.h:29 | true iff the key is known and released; same insertion behaviour |
| Keyboard.IsHeld | src/test/window.h:30 | true iff the key is known and held; same insertion behaviour |
| Keyboard.TouchInvisible | src/test/window.h:28-30 | the entry a query inserts changes no later answer, before or after any frame |
| HostLoop.Consume | src/test/window.cpp:141-145 | the accumulator is conserved: what is left plus one step per `onUpdate`; less than a step remains, and never a negative amount from a non-negative start; every update gets the fixed step |
| HostLoop.ConsumeCount | src/test/window.cpp:141-145 | from a non-negative accumulator the number of updates is its floor division by the step, and there are none iff less than one step is due |
| HostLoop.Schedule | src/test/window.cpp:141-150 | the time half of an iteration conserves the accumulator, leaves less than one step, passes the fixed step to every update, and never calls `onSetup` or tears down |
| HostLoop.DrawOncePerIteration | src/test/window.cpp:141-150 | an iteration draws and swaps exactly once, as its last two actions, iff at least one update ran; otherwise it does neither |
| HostLoop.Iterate | src/test/window.cpp:114-151 | one iteration conserves time, stamps the clock with the frame's time, keeps running iff the frame has no quit, and changes nothing of the window but its key table |
| HostLoop.IterationKeys | src/test/window.cpp:121-139 | after an iteration, each key reads as that frame's events say |
| HostLoop.Loop | src/test/window.cpp:114-158 | the loop uses no more frames than it is given and ends either still running or with 0 |
| HostLoop.LoopStopsAtFirstQuit | src/test/window.cpp:114-128 | an exit happens right after a frame holding a quit; if the loop is still running, it used every frame |
| HostLoop.LoopQuietBefore | src/test/window.cpp:114-128 | no frame before the one the loop stopped at held a quit, and none at all if it is still running |
| HostLoop.LoopTrace | src/test/window.cpp:112-158 | the loop never calls `onSetup`; it tears down once, as its last action, iff it stopped |
| HostLoop.LoopClock | src/test/window.cpp:110-145 | over any number of iterations, the time that passed equals one step per update plus what is left in the accumulator |
| HostLoop.LoopLastTime | src/test/window.cpp:116-118 | the clock ends at the time of the last frame used, or unchanged if none was used |
| HostLoop.LoopKeepsWindow | src/test/window.cpp:114-151 | the loop keeps the window's size and its window and context handles |
| HostLoop.Run | src/test/window.cpp:102-158 | without a window or context `run` returns -1 and does nothing; otherwise `onSetup` is called once, first; an exit with 0 comes right after a frame holding a quit; the size is kept |
| HostLoop.LoopAccumBounds | src/test/window.cpp:116-145 | while ticks never go backwards, the accumulator never goes negative and is below one step after every iteration |
| HostLoop.ElapsedUpdates | src/test/window.cpp:109-145 | over a whole run with ticks that never go backwards, the number of updates is the elapsed time divided by the step, rounded down |
| HostLoop.QuietStep | src/test/window.cpp:114-151 | a frame without a quit contributes its iteration's actions and hands window and clock on to the next frame |
| HostLoop.LastQuietFrame | src/test/window.cpp:114-151 | the last frame of a run that does not quit contributes exactly its iteration |
| HostLoop.OneStepDue | src/test/window.cpp:141-150 | with between one and two steps due, an iteration runs one update, one draw and one swap, and carries the excess over |
| HostLoop.SixtyHertzThird | src/test/window.cpp:109-150 | a 16 ms frame plus 40/60 ms carried over make exactly one update and one draw |
| HostLoop.SixtyHertzSecond | src/test/window.cpp:109-150 | two frames 17 and 16 ms apart, after 20/60 ms carried over, each run one update and one draw |
| HostLoop.RunEntersLoop | src/test/window.cpp:110-114 | `run` calls `onSetup`, then enters the loop with an empty accumulator at the start time |
| HostLoop.ThreeFramesAtSixtyHertz | src/test/window.cpp:109-150 | frames 17, 17 and 16 ms apart give setup and then three update-draw-swap rounds |
| HostLoop.IterationCounts | src/test/window.cpp:114-150 | an iteration runs as many updates as whole steps are due, and draws once iff that is at least one |
| HostLoop.StallCaughtUpInOneDraw | src/test/window.cpp:141-150 | a stall of any length before the first frame is caught up by one update per whole step, and drawn only once |
| HostLoop.QuitStep | src/test/window.cpp:114-158 | a frame holding a quit is the last frame the loop uses: its iteration's actions, then the teardown, and `run` returns 0 |
| HostLoop.QuitFrameStillDraws | src/test/window.cpp:126-158 | a quit does not cut its iteration short: that frame still runs every update that is due, draws once iff at least one ran, and only then tears down |
| HostLoop.QuitFinishesIteration | src/test/window.cpp:126-158 | scenario: a quit in the first frame, 20 ms after the start, still gets its one update, draw and swap before the teardown, and the second frame is never used |
| HostLoop.RunKeepsSize | src/test/window.h:25-26 | `width()` and `height()` answer the size the window was made with, before and after any run |
| DebugMessages.Level | src/test/window.cpp:32-38 | low, medium and high severities map to Warning, Error and Fatal, each iff; every other severity is Info |
| DebugMessages.SourceLabel | src/test/window.cpp:14-21 | each of the four named sources gets its own label, iff; every other source reads "OTHER" |
| DebugMessages.TypeLabel | src/test/window.cpp:23-28 | each of the four named message types gets its own label, iff |
| DebugMessages.Classify | src/test/window.cpp:23-30 | as written: a named type keeps the source label and gets its type label; any other type blanks the type and overwrites the source with "OTHER" |
| DebugMessages.UnnamedCodes | src/test/window.cpp:14-38 | third-party and "other" sources read "OTHER", a notification is logged at Info, and an "other"-typed message loses its source label and gets a blank type as written, where the corrected callback keeps "APPLICATION" and labels the type "OTHER" |
| DebugMessages.ClassifyLosesSource | src/test/window.cpp:29 | a medium-severity portability message from the API prints as ("OTHER", "") instead of ("API", "OTHER") |
| DebugMessages.ClassifyIntended | src/test/window.cpp:23-30 | corrected: the source label is always kept, and the type reads "OTHER" iff it is not a named type |
| DebugMessages.IntendedDiffersOnlyOnUnnamedTypes | src/test/window.cpp:23-30 | the callback as written and the corrected one agree iff the type is named; the source label is lost iff the type is unnamed and the source is named |
| DebugMessages.Line | src/test/window.cpp:40 | the logged text is "OpenGL (", the source label, " [", the type label, "]): " and the message, each at its place and nothing else |
| DebugMessages.PortabilityLine | src/test/window.cpp:23-40 | a medium-severity portability message from the API is logged as "OpenGL (OTHER []): " and the message, where the corrected callback logs "OpenGL (API [OTHER]): " |
| Textures.Destroy | src/lib/texture.cpp:3-8 | a live handle is deleted once and reset to 0; handle 0 issues nothing |
| Textures.DestroyIdempotent | src/lib/texture.cpp:3-8 | destroying twice deletes once |
| Textures.Create | src/lib/texture.cpp:10-25 | a fresh handle and the given parameters are recorded; the layer count is kept; only the handle is generated |
| Textures.CreateThenDestroy | src/lib/texture.cpp:3-25 | a created texture owns the new handle, and `create` never deletes the handle it replaces |
| Textures.WrapMode | src/lib/texture.cpp:27-32 | as written: one parameter call per axis not left `WrapNone`, on the texture's own target; the R call carries the T value |
| Textures.WrapModeSetsRFromT | src/lib/texture.cpp:30 | asking for mirrored repeat on R with clamp on T clamps R; leaving T alone sends the value 0 for R |
| Textures.WrapModeIntended | src/lib/texture.cpp:27-32 | corrected: each axis not left `WrapNone` gets its own value, and no call ever sends `WrapNone` |
| Textures.WrapModeAgreement | src/lib/texture.cpp:27-32 | the written and corrected `wrapMode` agree iff R is left alone or equals T |
| Textures.Filter | src/lib/texture.cpp:34-38 | exactly two parameter calls, the minification filter first, then magnification |
| Textures.ApplyParamsLastWrite | src/lib/texture.cpp:27-38 | the texture parameters the driver holds after a sequence of parameter calls: each holds the value of the last call that set it, and a parameter no call set keeps its value |
| Textures.FilterSetsParameters | src/lib/texture.cpp:34-38 | after `filter` the texture's minification and magnification filters are the ones given, and every other parameter is unchanged |
| Textures.WrapModeParams | src/lib/texture.cpp:27-32 | after `wrapMode` as written, S and T hold the values asked for but R holds the T value; every axis passed `WrapNone` keeps its value |
| Textures.WrapModeIntendedParams | src/lib/texture.cpp:27-32 | corrected: after `wrapMode` every axis not passed `WrapNone` holds its own value, and the others keep theirs |
| Textures.Array | src/lib/texture.cpp:40-51 | as written: only a positive count on a 2D array texture allocates storage and records the count; the allocation asks for 0 levels |
| Textures.ArrayIntended | src/lib/texture.cpp:40-51 | corrected: the same guard and record, with one level, so every allocation is one the driver accepts |
| Textures.ArrayStorageRejected | src/lib/texture.cpp:42-48 | every allocation `array` issues is rejected by the driver, yet the texture records the layer count, as the corrected version does |
| Textures.UpdateCube | src/lib/texture.cpp:53-59 | one face upload on a cube map and nothing on any other type |
| Textures.Update | src/lib/texture.cpp:77-92 | one upload matching the texture's dimensionality for 1D, 2D and 3D, none otherwise |
| Textures.UpdateArray | src/lib/texture.cpp:61-75 | a 2D array texture with layers gets one sub-image upload over all layers; any other texture falls back to `update` |
| Textures.UpdateArrayWithoutLayers | src/lib/texture.cpp:61-92 | a 2D array texture whose layer count was never set gets no upload at all |
| FrameBuffers.Create | src/lib/framebuffer.cpp:14-26 | the size and a fresh handle are recorded; the framebuffer is bound, given no draw or read buffer, and unbound; the attachments are untouched |
| FrameBuffers.DrawBufferList | src/lib/framebuffer.cpp:58-62 | the draw-buffer list has exactly `count` entries, the colour attachment points 0 to `count - 1` in order |
| FrameBuffers.ColorCommands | src/lib/framebuffer.cpp:33-82 | `color` binds the framebuffer first and asks for completeness last; it draws to all points up to the new one; it attaches at the next colour point unless the texture is a cube map, which is never attached |
| FrameBuffers.Color | src/lib/framebuffer.cpp:28-91 | the request is always remembered; the texture joins the colour list and the framebuffer is unbound iff the driver reports it complete; nothing else changes |
| FrameBuffers.ColorAttachesAtNextPoint | src/lib/framebuffer.cpp:33-80 | whatever the verdict, `color` binds first, draws to the points up to the new one, and attaches at the next colour point except for a cube map |
| FrameBuffers.ColorListsDiverge | src/lib/framebuffer.cpp:52-86 | every incomplete `color` widens the gap between remembered requests and attached textures by one; a complete one keeps it |
| FrameBuffers.ColorUploadCount | src/lib/framebuffer.cpp:38-49 | `color` allocates six faces for a cube map, one image for 1D, 2D and 3D, and nothing for a 2D array texture |
| FrameBuffers.ResetDrawBuffers | src/lib/framebuffer.cpp:181-188 | one draw-buffers call selecting exactly the attachment points of the colour list, in order |
| FrameBuffers.ResetAfterColor | src/lib/framebuffer.cpp:181-188 | after a complete `color` the reset selects the same list `color` set; after an incomplete one it drops the last point |
| FrameBuffers.DepthTexture | src/lib/framebuffer.cpp:93-115 | a no-op once a depth texture is held; otherwise a 2D depth texture of the framebuffer's size is created and attached at the depth point, and nothing else changes |
| FrameBuffers.StencilTexture | src/lib/framebuffer.cpp:117-139 | likewise for a single-channel texture at the stencil point |
| FrameBuffers.AttachOnce | src/lib/framebuffer.cpp:93-139 | once the driver has handed out a non-zero name, a second `depth` or `stencil` call changes and issues nothing |
| FrameBuffers.RenderBuffer | src/lib/framebuffer.cpp:141-175 | a no-op while a renderbuffer is held; otherwise the storage is recorded and the renderbuffer attached; it is deleted and its handle reset iff the driver reports the framebuffer incomplete; the framebuffer ends unbound |
| FrameBuffers.RenderBufferRetry | src/lib/framebuffer.cpp:147-171 | a second `renderBuffer` call does nothing iff the first succeeded with a non-zero name |
| FrameBuffers.Release | src/lib/framebuffer.cpp:3-12 | the destructor deletes the framebuffer iff its handle is live, and the renderbuffer iff its handle is live, then forgets both |
| FrameBuffers.CreateThenRelease | src/lib/framebuffer.cpp:3-26 | the destructor deletes the handle `create` obtained; a live handle `create` overwrote is deleted by neither, so creating twice leaks the first framebuffer; the renderbuffer is deleted iff its handle is live |
| FrameBuffers.ReleaseIdempotent | src/lib/framebuffer.cpp:3-12 | releasing twice deletes once |
| Shaders.Add | src/lib/shader.cpp:32-61 | a type already recorded is refused with no call; a stage that fails to compile is deleted and not recorded; one that compiles is attached and recorded under its type, and no other entry changes |
| Shaders.Link | src/lib/shader.cpp:63-72 | the program is linked first, then every recorded stage is detached and deleted, and nothing else is issued; the record stays, so `add` keeps refusing those types |
| Shaders.BlockIndex | src/lib/shader.cpp:74-93 | a cached name is answered from the cache with no query, whatever the interface; otherwise the driver's answer is returned and cached, except that -1 and -2 both fail with -1 and are not cached |
| Shaders.UniformIndex | src/lib/shader.cpp:95-106 | a cached name is answered with no query; otherwise the driver's answer is returned, and cached unless it is -1 |
| Shaders.AttributeIndex | src/lib/shader.cpp:108-119 | as `getUniformIndex`, for vertex attributes |
| Shaders.UniformLookupTransparent | src/lib/shader.cpp:95-106 | with caches that agree with the driver, a uniform lookup answers what the driver would, and the caches still agree |
| Shaders.AttributeLookupTransparent | src/lib/shader.cpp:108-119 | the same for attribute lookups |
| Shaders.BlockLookupTransparent | src/lib/shader.cpp:74-93 | the same for block lookups through the interface the cache was filled through, with both failure codes answered as -1 |
| Shaders.LookupsIdempotent | src/lib/shader.cpp:74-119 | once a lookup has succeeded, asking again returns the same index from the cache, with no query and no change |
| Shaders.BlockCacheIgnoresInterface | src/lib/shader.cpp:75-92 | a storage block found under a name answers a later uniform-block query for that name, whatever the driver would say |
| Shaders.Get | src/lib/shader.cpp:157-161 | the uniform handle carries the location `getUniformIndex` returns, with the same cache effect |
| Shaders.GetAnswersDriver | src/lib/shader.cpp:157-161 | with sound caches, `get` yields the driver's location for the name and leaves the caches sound |

## Left out

- The `Window` constructor (`src/test/window.cpp:43-100`) is not modelled. Its SDL and GL set-up is reduced to two flags, `hasWindow` and `hasContext`. Neither handle has an initialiser (`src/test/window.h:33-34`), so each of the four early returns leaves a different state for `run` to test:
  - The `SDL_Init(...) > 0` return (`src/test/window.cpp:44-47`) would leave both handles uninitialised. It cannot happen, because SDL reports failure with a negative value.
  - The `!m_window` return (`src/test/window.cpp:61-65`) leaves `m_window` null and `m_context` uninitialised. `run` returns -1 on it through the null window alone; this is `hasWindow` false.
  - The `!m_context` return (`src/test/window.cpp:86-90`) leaves `m_context` null. `run` returns -1 (`src/test/window.cpp:103-104`); this is `hasContext` false.
  - After the `gladLoadGLLoader` failure (`src/test/window.cpp:92-96`), both handles are non-null although `SDL_Quit()` has already run. `run` passes its null test and calls `onSetup` and the loop on a shut-down SDL. In the model this is `HostLoop.Run` with both flags true (`HostLoop.RunEntersLoop`): the flags record only whether the handles are null, so the model cannot tell this state from a good start-up. Whether SDL is still live is not modelled.
- HostLoop.Iterate: time is exact integer arithmetic in 1/60 ms units. The source accumulates `f64` seconds with a step of `1.0 / 60.0`, so rounding drift in that accumulator is not modelled. The `f32` cast of the step passed to `onUpdate` is not modelled either.
- HostLoop.Loop: the source loop has no end until a quit arrives. The model runs over a finite list of frames and ends `StillRunning` when the list runs out.
- The `SDL_GetTicks` wrap-around after 2^32 ms is not modelled as such. A wrapped tick count shows up as time going backwards, which the model allows. The lemmas about the accumulator's bounds assume it does not happen.
- The adapter callbacks (`onSetup`, `onUpdate`, `onDraw`) are recorded as actions only. In the source they receive the window and could query keys, which inserts entries. The model has them change nothing.
- `getInternalFormat` is not part of this model. The model records its three arguments (`Gl.InternalFormat`) wherever it is called.
- `Texture::bind(slot)` and `generateMipmaps` (`src/lib/texture.cpp:94-103`) are modelled only as the helpers `Textures.Bind` and `Textures.GenerateMipmaps`. These build part of the command list `FrameBuffers.Color` issues and state nothing of their own.
- `Texture::unbind` (`src/lib/texture.cpp:105-108`) is not modelled. It is a single `glBindTexture(m_type, 0)` call, and nothing in the modelled core calls it.
- The copy and destructor semantics of `Texture` are not modelled. `color`, `depth` and `stencil` copy a local texture into the framebuffer; `~Texture`, which runs on the local copy, is not part of this model. Ownership of the texture handles after those calls is therefore left open.
- `FrameBuffer::drawBuffer`, `blit`, `bind` and `unbind` are not modelled. Each is a single GL call or a viewport save and restore that does not touch the state above.
- `Shader::create` (`src/lib/shader.cpp:17-20`) only stores the program handle `glCreateProgram` returns. The model takes that handle as the shader's `id`, which `Add`, `Link` and the lookups use.
- The `Shader` destructor (`src/lib/shader.cpp:9-15`) is not modelled. When the handle is non-zero it unbinds the program, deletes it and writes "DEL SHADER" to standard output.
- `Shader::bind`, `unbind`, `uniformBlockBinding`, `storageBlockBinding` and the `Uniform` setters are not modelled. Each is a single GL call that changes none of the state above.
- Shaders.Link: the order in which stages are detached follows the map's iteration order, which the model leaves open. The contract states the set of calls, not their order.
- Shaders.Add: the compile log is fetched and dropped. The model records the calls, not the log contents.
- DebugMessages.Line: the model states the text handed to the logger. The logger's own prefix with date, level and file is not modelled.
- `src/test/log.cpp`, `src/test/main.cpp` and `src/lib/buffer.cpp` are not part of this model.

## Findings

| source | as written | input that shows it | evidently intended | confidence | as-written member | corrected member |
|---|---|---|---|---|---|---|
| src/lib/texture.cpp:30 | the R wrap parameter is set to the `t` argument | `wrapMode(Repeat, ClampToEdge, MirroredRepeat)` clamps R; `wrapMode(Repeat, WrapNone, Repeat)` sends 0 for R | set R to the `r` argument | high; not executed | Textures.WrapMode, Textures.WrapModeSetsRFromT, Textures.WrapModeParams | Textures.WrapModeIntended, Textures.WrapModeAgreement, Textures.WrapModeIntendedParams |
| src/test/window.cpp:29 | the `default` branch of the type switch assigns `src = "OTHER"` | a medium-severity `GL_DEBUG_TYPE_PORTABILITY` message from `GL_DEBUG_SOURCE_API` is logged as `OTHER []` | assign `typ = "OTHER"` and keep the source label | high; not executed | DebugMessages.Classify, DebugMessages.ClassifyLosesSource, DebugMessages.PortabilityLine | DebugMessages.ClassifyIntended, DebugMessages.IntendedDiffersOnlyOnUnnamedTypes |
| src/lib/texture.cpp:42-47 | `glTexStorage3D` is called with 0 levels; section 8.19 of the OpenGL 4.6 core profile specification makes that an INVALID_VALUE error, so no storage is allocated | `array(4)` on a 2D array texture: the call is rejected, yet `m_layerCount` becomes 4 | allocate 1 level | high; not executed | Textures.Array, Textures.ArrayStorageRejected | Textures.ArrayIntended |
