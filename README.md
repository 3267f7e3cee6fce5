# GlslSandbox bookkeeping, modelled in Dafny

`GlslSandbox` is a small browser controller that loads a fragment shader,
draws it full-screen with a WebGL library and notifies subscribers at three
lifecycle points: "geometry-initialization", "pre-render" and "post-render".
Apart from the library calls, the controller keeps a little bookkeeping of its
own. This project models that bookkeeping and proves properties of it:

- **The event registry** (`on` / `fire`). `Registry` models it as values: a
  map from event name to the ordered list of subscriber ids. `Subscribe`
  models `on`; `Dispatch` gives the calls `fire` makes, as
  `(event, subscriber, payload)` invocations. Callbacks are opaque ids.
- **The shader-load countdown** (`loadShaders`). `ShaderLoading` models it as
  values. The `Countdown` holds the local counter `nShadersToLoad`, the set of
  fetches whose `.then` has not run yet, and the state of the promise. Network
  completions are explicit steps (`Countdown.Complete`,
  `GlslSandbox.ShaderLoaded`). Each step carries the fetched text as a
  parameter.
- **The controller itself** (`Sandbox.GlslSandbox`). This class has the
  source's fields and methods: `On`, `Fire` (a loop over the subscriber list),
  `LoadShaders`, `ShaderLoaded`, `InitThreejs`, `InitGeometry`, `Update` and
  `OnWindowResize`. The invariant `Valid()` is kept by every method. Each
  method's `ensures` ties the new state to the spec functions. The effects that
  collaborators observe are returned as a trace of `Step`s: a subscriber call,
  the mesh added to the scene, or the scene drawn. `FrameOrder` and
  `GeometryOrder` prove the ordering rules over these traces.
- **The application shell** (`App`). It is a client of the class: the
  640x480 start-up with one fragment-shader URL, and the first frame after the
  shader arrives.

JavaScript value rules are stated explicitly in `JsValues`. `if (url)` is
false for `null`, `undefined` and the empty string. `x || undefined` turns a
falsy string into `undefined`. An empty subscriber list is truthy, so an event
counts as registered exactly when its key is present.

Two behaviours of the code are kept as written:

- Copy-paste defect in the vertex branch of `loadShaders`
  (helpers/GlslSandbox.js:68-75). That branch fetches the fragment URL and
  stores the text into `fragmentShader`. So the vertex URL is never requested
  (`RequestedUrls`), and `vertexShader` stays null forever (part of
  `GlslSandbox.Valid`).
- Start-up order in `initThreejs`. It calls `update()` once right away. So the
  "geometry-initialization" payload carries `iFrame` = 1, but the mesh already
  holds `iFrame` = 2 when the first frame is drawn (`App.FirstFrame`).
  `onWindowResize` does not touch the mesh, so `iResolution` keeps the
  original size after a resize.

## Model

| member | source | states |
|---|---|---|
| `JsValues.OrUndefined` | helpers/GlslSandbox.js:118 | `s \|\| undefined` keeps a truthy string and gives undefined for null or "" |
| `Registry.Subscribe` | helpers/GlslSandbox.js:32-38 | `on` for a registered name appends `fn` to the end of that list; for a new name it creates `[fn]`; the other lists are unchanged and the only key that can appear is the new one |
| `Registry.InvocationsInOrder` | helpers/GlslSandbox.js:40-44 | `fire` makes exactly one call per registration, in registration order, each with the identical payload |
| `Registry.InvocationsAppend` | helpers/GlslSandbox.js:42 | calling the subscribers of `a + b` is calling those of `a`, then those of `b` |
| `Registry.DispatchAfterSubscribe` | helpers/GlslSandbox.js:32-44 | after `on(e, fn)`, `fire(e, p)` makes its old calls and then calls `fn` with `p`; firing any other name is unaffected |
| `Registry.DispatchAfterRegistrations` | helpers/GlslSandbox.js:32-44 | for any series of `on` calls followed by one `fire(e, p)`: the earlier calls come first, then every subscriber the series registered for `e`, in order, each with `p` |
| `ShaderLoading.ShadersToLoad` | helpers/GlslSandbox.js:48-51 | the counter starts at 0, 1 or 2; it is 0 exactly when neither URL is truthy and 2 exactly when both are |
| `ShaderLoading.Issued` | helpers/GlslSandbox.js:58-76 | one fetch is issued per truthy URL, and their number equals the initial counter |
| `ShaderLoading.Start` | helpers/GlslSandbox.js:46-56 | the load is rejected at once exactly when the counter is 0, and is otherwise pending on every issued fetch; it is never resolved at the start |
| `ShaderLoading.RequestedUrls` | helpers/GlslSandbox.js:58-76 | one request per truthy URL, and every request is for the fragment URL (the vertex branch re-fetches it) |
| `ShaderLoading.Countdown.Complete` | helpers/GlslSandbox.js:59-75 | a completion removes its fetch and lowers the counter by exactly one; the promise is resolved afterwards exactly when the counter was 1; the state stays consistent |
| `ShaderLoading.ResolvesAtLastCompletion` | helpers/GlslSandbox.js:58-76 | for completions in any order, the counter drops by the number completed, and the load resolves exactly when every awaited fetch has completed |
| `ShaderLoading.BothUrlsResolveAfterBoth` | helpers/GlslSandbox.js:58-76 | with both URLs, the load is still pending after either completion alone and resolved after the second |
| `ShaderLoading.NoUrlsNeverResolves` | helpers/GlslSandbox.js:53-56 | with neither URL, the load is rejected and nothing is outstanding, so it can never resolve |
| `Sandbox.ElapsedSeconds` | helpers/GlslSandbox.js:145 | `iTime` is non-negative for a clock reading at or after the start, and 0 at the start |
| `Sandbox.ElapsedMonotone` | helpers/GlslSandbox.js:145 | a later clock reading never gives a smaller `iTime` |
| `Sandbox.InitialMaterial` | helpers/GlslSandbox.js:111-119 | the material built in `initGeometry` has `iResolution` = (width, height), `iTime` = 0, `iFrame` = the current frame, and, exactly when the stored text is truthy, that text as its shader |
| `Sandbox.CallsOf` | helpers/GlslSandbox.js:40-44 | every call `fire(e, p)` makes is of event `e`, with payload `p` |
| `Sandbox.FrameOrder` | helpers/GlslSandbox.js:149-153 | each frame draws the scene exactly once; every "pre-render" call comes strictly before the draw, and every "post-render" call strictly after it |
| `Sandbox.GeometryOrder` | helpers/GlslSandbox.js:121-127 | every "geometry-initialization" call gets the new material and geometry, and comes before the mesh is added to the scene, which is the last step |
| `Sandbox.GlslSandbox.constructor` | helpers/GlslSandbox.js:2-26 | the size is stored, `autoResize` is true, `currentFrame` is 1, both shader fields are null, the registry holds exactly the three lifecycle events with empty lists, and the load has been started |
| `Sandbox.GlslSandbox.On` | helpers/GlslSandbox.js:32-38 | the registry becomes `Subscribe` of the old registry; nothing else changes |
| `Sandbox.GlslSandbox.Fire` | helpers/GlslSandbox.js:40-44 | the loop over the subscriber list makes exactly the calls `Dispatch` describes (none for a name with no entry) and changes no state |
| `Sandbox.GlslSandbox.LoadShaders` | helpers/GlslSandbox.js:46-78 | the countdown becomes `Start` of the two URLs and the requests become `RequestedUrls`; only the load fields change |
| `Sandbox.GlslSandbox.ShaderLoaded` | helpers/GlslSandbox.js:59-75 | an outstanding fetch's completion steps the countdown by `Countdown.Complete` and stores the text into `fragmentShader` for either branch; `vertexShader` is untouched |
| `Sandbox.GlslSandbox.InitGeometry` | helpers/GlslSandbox.js:108-130 | the mesh becomes the plane of the current size with `InitialMaterial`; the trace fires "geometry-initialization" with that material and geometry, then adds the mesh |
| `Sandbox.GlslSandbox.Update` | helpers/GlslSandbox.js:142-154 | `currentFrame` grows by exactly 1 and `iFrame` becomes the new value; `iTime` follows the clock; geometry, shader and resolution are unchanged; the trace is `FrameTrace` |
| `Sandbox.GlslSandbox.InitThreejs` | helpers/GlslSandbox.js:88-106 | once the load has resolved: the renderer gets the current size, the geometry trace comes before the first frame's trace, and the resize listener is registered |
| `Sandbox.GlslSandbox.OnWindowResize` | helpers/GlslSandbox.js:132-140 | with `autoResize` false nothing changes; otherwise width, height and the renderer size become the window's |
| `Sandbox.GlslSandbox.RunFrames` | helpers/GlslSandbox.js:142-147 | after N frames the counter has grown by N, `iFrame` equals it, `iTime` follows the last clock reading; geometry, shader text and `iResolution` are unchanged, and with no frame the mesh is unchanged; the trace is N frame traces |
| `App.Startup` | App.js:2-12 | the shell's sandbox is 640x480 with auto-resize off, one subscriber each on "geometry-initialization" and "pre-render", and a load pending on the one fragment fetch of "shader.frag" |
| `App.FirstFrame` | App.js:5-8 | after the shader arrives (empty text included), the first four steps are: `geomInit` called with `iResolution` = (640, 480), `iTime` = 0, `iFrame` = 1 and the text or undefined; the mesh added with `iFrame` = 1; the counter widget updated; the scene drawn, with the mesh then holding `iFrame` = 2 |
| `App.ResizeIgnored` | App.js:6 | with auto-resize off, a window resize changes neither the size nor `iResolution`, and N later frames leave the counter at 2 + N |

## Left out

- The rendering library is not modelled: renderer, camera, scene, plane geometry, shader material and `renderer.render`. Its objects are reduced to what the sandbox decides about them: the size passed to `setSize`, the mesh's geometry and uniforms, and the order of `scene.add` and `render` in the trace.
- The camera's aspect ratio `width / height` and `devicePixelRatio` are floating point and not modelled. So is `needsUpdate`, a flag internal to the library.
- `iTime` uses exact real arithmetic on integer millisecond readings, so JavaScript's floating-point rounding is not modelled. `Date.now()` is a parameter (`now`) of the constructor, `Update` and `InitThreejs`.
- `loadShader` and `fetch` are not modelled: they are network I/O. A completion is an explicit step that carries the fetched text. A fetch that never completes just leaves the load pending, which is the source's silent stall. `ShaderLoaded` requires its fetch to be outstanding because a `.then` callback exists only for an issued fetch and runs once.
- `requestAnimationFrame` self-rescheduling is not modelled. The host drives it and it never ends. `RunFrames` drives one frame per clock reading instead.
- The DOM is left out: the container element, the `dom` getter, mounting the canvas, `window.mesh`, and registering the resize listener (only a flag `resizeListening` is kept). `console.warn` and the unhandled rejection are left out too.
- Subscribers are opaque ids. So the model does not capture a subscriber mutating the material it receives, or a subscriber calling `on` while `fire` iterates.
- Event names that JavaScript objects inherit (such as "toString") are not modelled. For those, `this.events[event]` is truthy without being a list.
- `Sandbox.GlslSandbox.Update`: `currentFrame` is a JavaScript number, whose `++` stops changing it at 2^53; the model's unbounded integer keeps growing, a difference no realistic run reaches.
- The `Stats` frame-rate widget is external code and is not part of this model.
