/** The `GlslSandbox` controller: its fields, the event registry it keeps,
    the shader-load countdown, surface initialisation, the per-frame update
    and the resize rule.  The rendering library's objects are reduced to what
    the sandbox itself decides about them; what subscribers and the renderer
    observe is returned as a trace of steps. */
module Sandbox {
  import opened JsValues
  import opened Registry
  import opened ShaderLoading

  const GeometryInitialization: string := "geometry-initialization"
  const PreRender: string := "pre-render"
  const PostRender: string := "post-render"

  datatype Size = Size(width: int, height: int)

  /** The shader material's uniforms `iResolution`, `iTime` and `iFrame`. */
  datatype Uniforms = Uniforms(iResolution: Size, iTime: real, iFrame: int)

  datatype Material = Material(uniforms: Uniforms, fragmentShader: Nullable<string>)

  datatype PlaneGeometry = PlaneGeometry(width: int, height: int)

  datatype Mesh = Mesh(geometry: PlaneGeometry, material: Material)

  /** The argument `fire` passes on: nothing for the render events, the new
      material and geometry for "geometry-initialization". */
  datatype Payload = Undefined | GeometryInit(material: Material, geometry: PlaneGeometry)

  /** What collaborators observe, in order: a subscriber called, the mesh
      added to the scene, the scene drawn. */
  datatype Step = Call(invocation: Invocation<Payload>) | AddToScene(mesh: Mesh) | Render

  predicate Notifies(step: Step, event: string)
  {
    step.Call? && step.invocation.event == event
  }

  /** `iTime`: seconds elapsed since `startDate`, from millisecond clock readings. */
  function ElapsedSeconds(startDate: int, now: int): (t: real)
    ensures now >= startDate ==> t >= 0.0
    ensures now == startDate ==> t == 0.0
  {
    (now - startDate) as real / 1000.0
  }

  /** A later clock reading never gives a smaller `iTime`. */
  lemma ElapsedMonotone(startDate: int, earlier: int, later: int)
    requires earlier <= later
    ensures ElapsedSeconds(startDate, earlier) <= ElapsedSeconds(startDate, later)
  {
  }

  /** The material `initGeometry` builds: resolution from the current size,
      time zero, the current frame, and the fragment shader text or undefined. */
  function InitialMaterial(width: int, height: int, frame: int, fragmentShader: Nullable<string>): (m: Material)
    ensures m.uniforms.iResolution == Size(width, height)
    ensures m.uniforms.iTime == 0.0 && m.uniforms.iFrame == frame
    ensures m.fragmentShader.Val? <==> Truthy(fragmentShader)
    ensures Truthy(fragmentShader) ==> m.fragmentShader == fragmentShader
  {
    Material(Uniforms(Size(width, height), 0.0, frame), OrUndefined(fragmentShader))
  }

  function Calls(invocations: seq<Invocation<Payload>>): seq<Step>
  {
    seq(|invocations|, i requires 0 <= i < |invocations| => Call(invocations[i]))
  }

  /** What `initGeometry` does: fire "geometry-initialization", then add the mesh. */
  function GeometryTrace(events: Events, material: Material, geometry: PlaneGeometry): seq<Step>
  {
    Calls(Dispatch(events, GeometryInitialization, GeometryInit(material, geometry)))
      + [AddToScene(Mesh(geometry, material))]
  }

  /** What one `update` does: fire "pre-render", draw, fire "post-render". */
  function FrameTrace(events: Events): seq<Step>
  {
    Calls(Dispatch(events, PreRender, Undefined)) + [Render] + Calls(Dispatch(events, PostRender, Undefined))
  }

  /** The trace of `n` consecutive frames. */
  function Frames(events: Events, n: nat): seq<Step>
  {
    if n == 0 then [] else Frames(events, n - 1) + FrameTrace(events)
  }

  /** Every call `fire(event, payload)` makes is of `event`, with `payload`. */
  lemma CallsOf(events: Events, event: string, payload: Payload)
    ensures forall i :: 0 <= i < |Calls(Dispatch(events, event, payload))| ==>
              Notifies(Calls(Dispatch(events, event, payload))[i], event) &&
              Calls(Dispatch(events, event, payload))[i].invocation.payload == payload
  {
    if event in events {
      InvocationsInOrder(event, events[event], payload);
    }
  }

  /** Within a frame the scene is drawn exactly once, every "pre-render" call
      comes strictly before the draw and every "post-render" call strictly after. */
  lemma FrameOrder(events: Events)
    ensures Render in FrameTrace(events)
    ensures var t := FrameTrace(events);
            forall i, j :: 0 <= i < |t| && 0 <= j < |t| && t[i] == Render && t[j] == Render ==> i == j
    ensures var t := FrameTrace(events);
            forall i, j :: 0 <= i < |t| && 0 <= j < |t| && Notifies(t[i], PreRender) && t[j] == Render ==> i < j
    ensures var t := FrameTrace(events);
            forall i, j :: 0 <= i < |t| && 0 <= j < |t| && t[i] == Render && Notifies(t[j], PostRender) ==> i < j
  {
    var pre := Calls(Dispatch(events, PreRender, Undefined));
    var post := Calls(Dispatch(events, PostRender, Undefined));
    CallsOf(events, PreRender, Undefined);
    CallsOf(events, PostRender, Undefined);
    var t := FrameTrace(events);
    assert t[|pre|] == Render;
    assert forall k :: 0 <= k < |pre| ==> t[k] == pre[k];
    assert forall k :: |pre| < k < |t| ==> t[k] == post[k - |pre| - 1];
  }

  /** In `initGeometry` every "geometry-initialization" call, each given the
      new material and geometry, comes before the mesh is added to the scene,
      which is the last step. */
  lemma GeometryOrder(events: Events, material: Material, geometry: PlaneGeometry)
    ensures var t := GeometryTrace(events, material, geometry);
            |t| > 0 && t[|t| - 1] == AddToScene(Mesh(geometry, material))
    ensures var t := GeometryTrace(events, material, geometry);
            forall i :: 0 <= i < |t| - 1 ==>
              Notifies(t[i], GeometryInitialization) && t[i].invocation.payload == GeometryInit(material, geometry)
  {
    var calls := Calls(Dispatch(events, GeometryInitialization, GeometryInit(material, geometry)));
    CallsOf(events, GeometryInitialization, GeometryInit(material, geometry));
    var t := GeometryTrace(events, material, geometry);
    forall i | 0 <= i < |t| - 1
      ensures Notifies(t[i], GeometryInitialization) && t[i].invocation.payload == GeometryInit(material, geometry)
    {
      assert t[i] == calls[i];
    }
  }

  class GlslSandbox {
    var width: int
    var height: int
    var autoResize: bool
    var fragmentShader: Nullable<string>
    var vertexShader: Nullable<string>
    var startDate: int
    var currentFrame: int
    var events: Events

    // `loadShaders`: its local counter `nShadersToLoad`, the fetches whose
    // `.then` has not run yet, the state of its promise, and the URL each
    // issued fetch passed to `loadShader`, in issue order
    var pending: int
    var outstanding: set<Fetch>
    var outcome: Outcome
    var requests: seq<Nullable<string>>

    // the rendering library's objects: the size given to the renderer
    // (null until `initThreejs` creates renderer, camera and scene), the
    // single mesh, and whether the window resize listener is registered
    var rendererSize: Nullable<Size>
    var mesh: Nullable<Mesh>
    var resizeListening: bool

    function Load(): Countdown
      reads this
    {
      Countdown(pending, outstanding, outcome)
    }

    /** The counter matches the outstanding fetches, nothing ever writes
        `vertexShader`, the three lifecycle events stay registered, and the
        library objects appear in the order `initThreejs` creates them. */
    ghost predicate Valid()
      reads this
    {
      Load().Consistent() &&
      vertexShader == Null &&
      GeometryInitialization in events && PreRender in events && PostRender in events &&
      (mesh.Val? ==> rendererSize.Val?) &&
      (resizeListening ==> mesh.Val?)
    }

    constructor (width: int, height: int, vertexShaderUrl: Nullable<string>, fragmentShaderUrl: Nullable<string>, now: int)
      ensures Valid()
      ensures this.width == width && this.height == height && autoResize
      ensures fragmentShader == Null && startDate == now && currentFrame == 1
      ensures events.Keys == {GeometryInitialization, PreRender, PostRender}
      ensures forall e :: e in events ==> events[e] == []
      ensures Load() == Start(fragmentShaderUrl, vertexShaderUrl)
      ensures requests == RequestedUrls(fragmentShaderUrl, vertexShaderUrl)
      ensures rendererSize == Null && mesh == Null && !resizeListening
    {
      this.width := width;
      this.height := height;
      autoResize := true;
      fragmentShader := Null;
      vertexShader := Null;
      startDate := now;
      currentFrame := 1;
      events := map[GeometryInitialization := [], PreRender := [], PostRender := []];
      pending, outstanding, outcome, requests := 0, {}, Pending, [];
      rendererSize, mesh, resizeListening := Null, Null, false;
      new;
      LoadShaders(fragmentShaderUrl, vertexShaderUrl);
    }

    /** `on(event, fn)`: append to the event's list, or create it. */
    method On(event: string, fn: SubscriberId)
      requires Valid()
      modifies this`events
      ensures Valid()
      ensures events == Subscribe(old(events), event, fn)
    {
      if event in events {
        events := events[event := events[event] + [fn]];
      } else {
        events := events[event := [fn]];
      }
    }

    /** `fire(event, params)`: call the event's subscribers in order. */
    method Fire(event: string, payload: Payload) returns (calls: seq<Invocation<Payload>>)
      ensures calls == Dispatch(events, event, payload)
    {
      calls := [];
      if event in events {
        var subscribers := events[event];
        var i := 0;
        while i < |subscribers|
          invariant 0 <= i <= |subscribers|
          invariant calls == Invocations(event, subscribers[..i], payload)
        {
          InvocationsAppend(event, subscribers[..i], [subscribers[i]], payload);
          assert subscribers[..i + 1] == subscribers[..i] + [subscribers[i]];
          calls := calls + [Invocation(event, subscribers[i], payload)];
          i := i + 1;
        }
        assert subscribers[..i] == subscribers;
      }
    }

    /** `loadShaders`: count the truthy URLs, reject at once when there are
        none, and issue one fetch per truthy URL. */
    method LoadShaders(fragmentShaderUrl: Nullable<string>, vertexShaderUrl: Nullable<string>)
      modifies this`pending, this`outstanding, this`outcome, this`requests
      ensures Load() == Start(fragmentShaderUrl, vertexShaderUrl)
      ensures requests == RequestedUrls(fragmentShaderUrl, vertexShaderUrl)
    {
      var n := 0;
      if Truthy(fragmentShaderUrl) { n := n + 1; }
      if Truthy(vertexShaderUrl) { n := n + 1; }
      outcome := Pending;
      if n == 0 {
        // a console warning, then reject()
        outcome := Rejected;
      }
      pending := n;
      outstanding, requests := {}, [];
      if Truthy(fragmentShaderUrl) {
        outstanding, requests := outstanding + {FragmentFetch}, requests + [fragmentShaderUrl];
      }
      if Truthy(vertexShaderUrl) {
        // as written, the vertex branch fetches the fragment URL
        outstanding, requests := outstanding + {VertexFetch}, requests + [fragmentShaderUrl];
      }
    }

    /** The `.then` of an issued fetch runs with the fetched text: store it,
        count down, and resolve on reaching zero.  Both branches store into
        `fragmentShader`, so `vertexShader` stays null. */
    method ShaderLoaded(fetch: Fetch, shaderText: string)
      requires Valid() && fetch in outstanding
      modifies this`fragmentShader, this`pending, this`outstanding, this`outcome
      ensures Valid()
      ensures Load() == old(Load()).Complete(fetch)
      ensures fragmentShader == Val(shaderText)
    {
      match fetch {
        case FragmentFetch =>
          fragmentShader := Val(shaderText);
        case VertexFetch =>
          // as written, the vertex branch also stores into fragmentShader
          fragmentShader := Val(shaderText);
      }
      pending := pending - 1;
      outstanding := outstanding - {fetch};
      if pending == 0 && outcome == Pending {
        outcome := Resolved;
      }
    }

    /** `initGeometry`: build the plane and material from the current size and
        frame, fire "geometry-initialization" with them, then create the mesh
        and add it to the scene. */
    method InitGeometry() returns (trace: seq<Step>)
      requires Valid() && rendererSize.Val?
      modifies this`mesh
      ensures Valid()
      ensures mesh == Val(Mesh(PlaneGeometry(width, height), InitialMaterial(width, height, currentFrame, fragmentShader)))
      ensures trace == GeometryTrace(events, InitialMaterial(width, height, currentFrame, fragmentShader), PlaneGeometry(width, height))
    {
      var geometry := PlaneGeometry(width, height);
      var material := Material(Uniforms(Size(width, height), 0.0, currentFrame), OrUndefined(fragmentShader));
      var calls := Fire(GeometryInitialization, GeometryInit(material, geometry));
      mesh := Val(Mesh(geometry, material));
      trace := Calls(calls) + [AddToScene(mesh.value)];
    }

    /** `update`: the frame counter is pre-incremented into `iFrame`, `iTime`
        follows the clock, and the draw sits between "pre-render" and
        "post-render". */
    method Update(now: int) returns (trace: seq<Step>)
      requires Valid() && mesh.Val?
      modifies this`currentFrame, this`mesh
      ensures Valid() && mesh.Val?
      ensures currentFrame == old(currentFrame) + 1
      ensures mesh.value.geometry == old(mesh.value.geometry)
      ensures mesh.value.material.fragmentShader == old(mesh.value.material.fragmentShader)
      ensures mesh.value.material.uniforms
              == old(mesh.value.material.uniforms).(iTime := ElapsedSeconds(startDate, now), iFrame := currentFrame)
      ensures trace == FrameTrace(events)
    {
      var m := mesh.value;
      var uniforms := m.material.uniforms.(iTime := ElapsedSeconds(startDate, now));
      currentFrame := currentFrame + 1;
      uniforms := uniforms.(iFrame := currentFrame);
      mesh := Val(m.(material := m.material.(uniforms := uniforms)));
      var before := Fire(PreRender, Undefined);
      var after := Fire(PostRender, Undefined);
      trace := Calls(before) + [Render] + Calls(after);
    }

    /** `initThreejs`, run once the load resolves: size the renderer, create
        the geometry, listen for resizes, and run the first frame. */
    method InitThreejs(now: int) returns (trace: seq<Step>)
      requires Valid() && outcome == Resolved
      modifies this`rendererSize, this`mesh, this`resizeListening, this`currentFrame
      ensures Valid() && resizeListening
      ensures rendererSize == Val(Size(width, height))
      ensures currentFrame == old(currentFrame) + 1
      ensures mesh == Val(Mesh(PlaneGeometry(width, height),
                               Material(Uniforms(Size(width, height), ElapsedSeconds(startDate, now), currentFrame),
                                        OrUndefined(fragmentShader))))
      ensures trace == GeometryTrace(events, InitialMaterial(width, height, old(currentFrame), fragmentShader), PlaneGeometry(width, height))
                       + FrameTrace(events)
    {
      rendererSize := Val(Size(width, height));
      var geometryTrace := InitGeometry();
      resizeListening := true;
      var frameTrace := Update(now);
      trace := geometryTrace + frameTrace;
    }

    /** `onWindowResize`: with `autoResize` off nothing changes; otherwise the
        size becomes the window's and the renderer is resized to it.  The mesh,
        and with it `iResolution`, keeps its original size. */
    method OnWindowResize(innerWidth: int, innerHeight: int)
      requires Valid() && (autoResize ==> rendererSize.Val?)
      modifies this`width, this`height, this`rendererSize
      ensures Valid()
      ensures !autoResize ==> unchanged(this)
      ensures autoResize ==> width == innerWidth && height == innerHeight && rendererSize == Val(Size(innerWidth, innerHeight))
    {
      if autoResize {
        width := innerWidth;
        height := innerHeight;
        rendererSize := Val(Size(width, height));
      }
    }

    /** The host's animation loop, driven for one frame per clock reading:
        the frame counter advances by the number of frames, `iTime` follows
        the last reading, and the trace is one frame's trace per reading. */
    method RunFrames(clock: seq<int>) returns (trace: seq<Step>)
      requires Valid() && mesh.Val?
      modifies this`currentFrame, this`mesh
      ensures Valid() && mesh.Val?
      ensures currentFrame == old(currentFrame) + |clock|
      ensures |clock| > 0 ==> mesh.value.material.uniforms.iFrame == currentFrame
      ensures |clock| > 0 ==> mesh.value.material.uniforms.iTime == ElapsedSeconds(startDate, clock[|clock| - 1])
      ensures mesh.value.material.uniforms.iResolution == old(mesh.value.material.uniforms.iResolution)
      ensures mesh.value.geometry == old(mesh.value.geometry)
      ensures mesh.value.material.fragmentShader == old(mesh.value.material.fragmentShader)
      ensures |clock| == 0 ==> mesh == old(mesh)
      ensures trace == Frames(events, |clock|)
    {
      trace := [];
      var i := 0;
      while i < |clock|
        invariant 0 <= i <= |clock|
        invariant Valid() && mesh.Val?
        invariant currentFrame == old(currentFrame) + i
        invariant i > 0 ==> mesh.value.material.uniforms.iFrame == currentFrame
        invariant i > 0 ==> mesh.value.material.uniforms.iTime == ElapsedSeconds(startDate, clock[i - 1])
        invariant mesh.value.material.uniforms.iResolution == old(mesh.value.material.uniforms.iResolution)
        invariant mesh.value.geometry == old(mesh.value.geometry)
        invariant mesh.value.material.fragmentShader == old(mesh.value.material.fragmentShader)
        invariant i == 0 ==> mesh == old(mesh)
        invariant trace == Frames(events, i)
      {
        var frame := Update(clock[i]);
        trace := trace + frame;
        i := i + 1;
      }
    }
  }
}
