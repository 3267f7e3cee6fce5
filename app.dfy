/** The application shell as a client of the sandbox: its startup
    configuration, and what the first frame looks like once the fragment
    shader arrives. */
module App {
  import opened JsValues
  import opened Registry
  import opened ShaderLoading
  import opened Sandbox

  /** The shell's two callbacks: `geomInit` and `update` (the frame counter widget). */
  const GeomInit: SubscriberId := 0
  const StatsUpdate: SubscriberId := 1

  /** The shell's constructor: a 640x480 sandbox with only a fragment shader,
      auto-resize off, and one subscriber each on "geometry-initialization"
      and "pre-render". */
  method Startup(now: int) returns (sandbox: GlslSandbox)
    ensures fresh(sandbox) && sandbox.Valid()
    ensures sandbox.width == 640 && sandbox.height == 480 && !sandbox.autoResize
    ensures sandbox.events == map[GeometryInitialization := [GeomInit], PreRender := [StatsUpdate], PostRender := []]
    ensures sandbox.Load() == Countdown(1, {FragmentFetch}, Pending)
    ensures sandbox.requests == [Val("shader.frag")]
    ensures sandbox.startDate == now && sandbox.currentFrame == 1
    ensures sandbox.fragmentShader == Null && sandbox.mesh == Null && !sandbox.resizeListening
  {
    sandbox := new GlslSandbox(640, 480, Null, Val("shader.frag"), now);
    ghost var initial: Events := map[GeometryInitialization := [], PreRender := [], PostRender := []];
    assert sandbox.events == initial;
    sandbox.autoResize := false;
    sandbox.On(GeometryInitialization, GeomInit);
    ghost var once := Subscribe(initial, GeometryInitialization, GeomInit);
    assert once[GeometryInitialization] == [GeomInit];
    assert once == map[GeometryInitialization := [GeomInit], PreRender := [], PostRender := []];
    sandbox.On(PreRender, StatsUpdate);
    assert sandbox.events[PreRender] == [StatsUpdate];
  }

  /** From startup to the first drawn frame: the shell's `geomInit` sees
      `iResolution` = (640, 480), `iTime` = 0, `iFrame` = 1 and the fetched
      text (undefined when it is empty); the mesh is added; then the counter
      widget updates and the scene is drawn, by which time the mesh already
      holds `iFrame` = 2. */
  method FirstFrame(now: int, later: int, shaderText: string) returns (sandbox: GlslSandbox, trace: seq<Step>)
    ensures |trace| == 4
    ensures trace[0] == Call(Invocation(GeometryInitialization, GeomInit,
                                        GeometryInit(Material(Uniforms(Size(640, 480), 0.0, 1), OrUndefined(Val(shaderText))),
                                                     PlaneGeometry(640, 480))))
    ensures trace[1].AddToScene? && trace[1].mesh.material.uniforms.iFrame == 1
    ensures trace[2] == Call(Invocation(PreRender, StatsUpdate, Undefined))
    ensures trace[3] == Render
    ensures sandbox.currentFrame == 2
    ensures sandbox.mesh.Val? && sandbox.mesh.value.material.uniforms.iFrame == 2
    ensures sandbox.mesh.value.material.uniforms.iResolution == Size(640, 480)
  {
    sandbox := Startup(now);
    sandbox.ShaderLoaded(FragmentFetch, shaderText);
    ghost var events := sandbox.events;
    ghost var material := InitialMaterial(640, 480, 1, Val(shaderText));
    trace := sandbox.InitThreejs(later);
    InvocationsInOrder(GeometryInitialization, [GeomInit], GeometryInit(material, PlaneGeometry(640, 480)));
    InvocationsInOrder(PreRender, [StatsUpdate], Undefined);
    assert Dispatch(events, GeometryInitialization, GeometryInit(material, PlaneGeometry(640, 480)))
      == [Invocation(GeometryInitialization, GeomInit, GeometryInit(material, PlaneGeometry(640, 480)))];
    assert Dispatch(events, PreRender, Undefined) == [Invocation(PreRender, StatsUpdate, Undefined)];
    assert Dispatch(events, PostRender, Undefined) == [];
  }

  /** With auto-resize off, a window resize changes nothing, and every later
      frame keeps `iResolution` at (640, 480). */
  method ResizeIgnored(now: int, shaderText: string, innerWidth: int, innerHeight: int, clock: seq<int>)
    returns (sandbox: GlslSandbox)
    ensures sandbox.width == 640 && sandbox.height == 480
    ensures sandbox.mesh.Val? && sandbox.mesh.value.material.uniforms.iResolution == Size(640, 480)
    ensures sandbox.currentFrame == 2 + |clock|
  {
    sandbox := Startup(now);
    sandbox.ShaderLoaded(FragmentFetch, shaderText);
    var _ := sandbox.InitThreejs(now);
    sandbox.OnWindowResize(innerWidth, innerHeight);
    var _ := sandbox.RunFrames(clock);
  }
}
