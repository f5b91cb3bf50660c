/**
  The state the light-rays background keeps between frames: the `uniforms`
  record it shares with its shader program, the renderer's pixel ratio, and
  the raw and smoothed pointer. The props reach the uniforms through
  `value || default`, once when the program is built and again in the effect
  that runs when a prop changes; `updatePlacement` sizes and anchors the rays;
  the frame loop advances the clock and smooths the pointer.
*/
module RayUniforms {
  import opened Wrappers
  import opened HexColor
  import opened RayGeometry
  import opened PointerSmoothing

  /** The component's props, with the destructuring defaults already applied. */
  datatype Config = Config(
    followMouse: bool,
    isBackground: bool,
    fixedLightSource: bool,
    raysOrigin: string,
    raysColor: string,
    raysSpeed: real,
    lightSpread: real,
    rayLength: real,
    pulsating: bool,
    fadeDistance: real,
    saturation: real,
    mouseInfluence: real,
    noiseAmount: real,
    distortion: real)

  /** The destructuring defaults: what a caller that passes no props gets. */
  const DefaultConfig: Config :=
    Config(true, false, false, "top-center", DefaultColor, 1.0, 1.0, 2.0, false, 1.0, 1.0, 0.1, 0.0, 0.0)

  /** The uniforms that come straight from the props. */
  datatype ShaderParams = ShaderParams(
    raysColor: Rgb,
    raysSpeed: real,
    lightSpread: real,
    rayLength: real,
    pulsating: real,
    fadeDistance: real,
    saturation: real,
    mouseInfluence: real,
    noiseAmount: real,
    distortion: real)

  /** `value || fallback` on a number; 0 is the one falsy real. */
  function OrDefault(value: real, fallback: real): real {
    if value == 0.0 then fallback else value
  }

  /**
    What the defaulting guarantees the shader: a colour in the unit cube, a
    pulsation flag of 0 or 1, and no zero among the values whose defaults are
    not zero.
  */
  predicate WellFormed(u: ShaderParams) {
    && InUnitCube(u.raysColor)
    && u.raysSpeed != 0.0 && u.lightSpread != 0.0 && u.rayLength != 0.0
    && (u.pulsating == 0.0 || u.pulsating == 1.0)
    && u.fadeDistance != 0.0 && u.saturation != 0.0 && u.mouseInfluence != 0.0
  }

  /** Every truthy prop reaches its uniform unchanged. */
  predicate PassesThrough(c: Config, u: ShaderParams) {
    && u.raysColor == HexToRgb(c.raysColor)
    && (c.raysSpeed != 0.0 ==> u.raysSpeed == c.raysSpeed)
    && (c.lightSpread != 0.0 ==> u.lightSpread == c.lightSpread)
    && (c.rayLength != 0.0 ==> u.rayLength == c.rayLength)
    && (u.pulsating == 1.0 <==> c.pulsating)
    && (c.fadeDistance != 0.0 ==> u.fadeDistance == c.fadeDistance)
    && (c.saturation != 0.0 ==> u.saturation == c.saturation)
    && (c.mouseInfluence != 0.0 ==> u.mouseInfluence == c.mouseInfluence)
    && (c.noiseAmount != 0.0 ==> u.noiseAmount == c.noiseAmount)
    && (c.distortion != 0.0 ==> u.distortion == c.distortion)
  }

  /** Every falsy (zero) numeric prop takes its fixed default; mouse influence 0 becomes 0.1. */
  predicate ZeroTakesDefault(c: Config, u: ShaderParams) {
    && (c.raysSpeed == 0.0 ==> u.raysSpeed == 1.0)
    && (c.lightSpread == 0.0 ==> u.lightSpread == 1.0)
    && (c.rayLength == 0.0 ==> u.rayLength == 2.0)
    && (c.fadeDistance == 0.0 ==> u.fadeDistance == 1.0)
    && (c.saturation == 0.0 ==> u.saturation == 1.0)
    && (c.mouseInfluence == 0.0 ==> u.mouseInfluence == 0.1)
    && (c.noiseAmount == 0.0 ==> u.noiseAmount == 0.0)
    && (c.distortion == 0.0 ==> u.distortion == 0.0)
  }

  /** The mapping from props to uniforms, the same at construction and in the update effect. */
  function UniformValues(c: Config): (u: ShaderParams)
    ensures WellFormed(u)
    ensures PassesThrough(c, u)
    ensures ZeroTakesDefault(c, u)
  {
    ShaderParams(
      ColorUniform(c.raysColor),
      OrDefault(c.raysSpeed, 1.0),
      OrDefault(c.lightSpread, 1.0),
      OrDefault(c.rayLength, 2.0),
      if c.pulsating then 1.0 else 0.0,
      OrDefault(c.fadeDistance, 1.0),
      OrDefault(c.saturation, 1.0),
      OrDefault(c.mouseInfluence, 0.1),
      OrDefault(c.noiseAmount, 0.0),
      OrDefault(c.distortion, 0.0))
  }

  /** The frame loop smooths the pointer only when this holds; it reads the prop, not the uniform. */
  predicate FollowsPointer(c: Config) {
    c.followMouse && c.mouseInfluence > 0.0
  }

  /**
    A mouse influence of 0 switches the pointer smoothing off, yet the shader
    is told an influence of 0.1, because `0 || 0.1` is 0.1.
  */
  lemma ZeroInfluenceStillReachesShader(c: Config)
    requires c.mouseInfluence == 0.0
    ensures !FollowsPointer(c)
    ensures UniformValues(c).mouseInfluence == 0.1
  {
  }

  /** Passing the defaults explicitly yields the same uniforms as passing no props. */
  lemma DefaultsAreFixedPoint(c: Config)
    requires c.raysSpeed == 0.0 && c.lightSpread == 0.0 && c.rayLength == 0.0 && c.fadeDistance == 0.0
    requires c.saturation == 0.0 && c.mouseInfluence == 0.0 && c.noiseAmount == 0.0 && c.distortion == 0.0
    requires c.raysColor == "" && c.pulsating == DefaultConfig.pulsating
    ensures UniformValues(c) == UniformValues(DefaultConfig)
  {
    assert UniformValues(c).raysColor == White;
    assert UniformValues(DefaultConfig).raysColor == ColorUniform("");
  }

  /** A snapshot of the whole `uniforms` record. */
  datatype Uniforms = Uniforms(
    iTime: real,
    iResolution: Vec2,
    rayPos: Vec2,
    rayDir: Vec2,
    params: ShaderParams,
    mousePos: Vec2)

  /** The uniforms record as built, before the first placement. */
  function InitialUniforms(c: Config): Uniforms {
    Uniforms(0.0, Vec2(1.0, 1.0), Vec2(0.0, 0.0), Vec2(0.0, 1.0), UniformValues(c), Vec2(0.5, 0.5))
  }

  /** The anchor and direction agree with the drawing size the shader is told. */
  predicate Consistent(u: Uniforms, origin: Origin) {
    Ray(u.rayPos, u.rayDir) == GetAnchorAndDir(origin, u.iResolution.x, u.iResolution.y)
  }

  /**
    What `updatePlacement` writes for a container of CSS size `size` at a
    (capped) pixel ratio `dpr`: the resolution is the size in device pixels
    and the ray is placed for that resolution; nothing else changes.
  */
  function Placed(u: Uniforms, origin: Origin, size: Vec2, dpr: real): (v: Uniforms)
    ensures v.iResolution == Scale(dpr, size)
    ensures Consistent(v, origin)
    ensures v.iTime == u.iTime && v.params == u.params && v.mousePos == u.mousePos
  {
    var w := size.x * dpr;
    var h := size.y * dpr;
    var ray := GetAnchorAndDir(origin, w, h);
    u.(iResolution := Vec2(w, h), rayPos := ray.anchor, rayDir := ray.dir)
  }

  /** Placing at pixel ratio `dpr` puts the anchor at `dpr` times the CSS-size anchor, same direction. */
  lemma PlacedScales(u: Uniforms, origin: Origin, size: Vec2, dpr: real)
    ensures Placed(u, origin, size, dpr).rayPos == Scale(dpr, GetAnchorAndDir(origin, size.x, size.y).anchor)
    ensures Placed(u, origin, size, dpr).rayDir == GetAnchorAndDir(origin, size.x, size.y).dir
  {
    GetAnchorAndDirScales(origin, dpr, size.x, size.y);
  }

  /**
    What the update effect writes: the props' uniforms, and the ray placed for
    the current container size at the renderer's pixel ratio. The clock, the
    resolution and the pointer uniform are untouched.
  */
  function Updated(u: Uniforms, c: Config, size: Vec2, dpr: real): (v: Uniforms)
    ensures v.params == UniformValues(c)
    ensures v.iTime == u.iTime && v.iResolution == u.iResolution && v.mousePos == u.mousePos
    ensures Ray(v.rayPos, v.rayDir) == GetAnchorAndDir(ParseOrigin(c.raysOrigin), size.x * dpr, size.y * dpr)
    ensures u.iResolution == Scale(dpr, size) ==> Consistent(v, ParseOrigin(c.raysOrigin))
  {
    var origin := ParseOrigin(c.raysOrigin);
    var w := size.x * dpr;
    var h := size.y * dpr;
    var ray := GetAnchorAndDir(origin, w, h);
    var v := u.(params := UniformValues(c), rayPos := ray.anchor, rayDir := ray.dir);
    assert u.iResolution == Scale(dpr, size) ==> v.iResolution == Vec2(w, h);
    assert Ray(v.rayPos, v.rayDir) == ray;
    v
  }

  /** Running the update effect twice with the same props is the same as running it once. */
  lemma UpdatedIdempotent(u: Uniforms, c: Config, size: Vec2, dpr: real)
    ensures Updated(Updated(u, c, size, dpr), c, size, dpr) == Updated(u, c, size, dpr)
  {
  }

  /**
    Right after a placement, the update effect with unchanged props, size and
    pixel ratio leaves the uniforms the program was built with as they are.
  */
  lemma UpdateAfterPlacementChangesNothing(c: Config, size: Vec2, dpr: real)
    ensures var placed := Placed(InitialUniforms(c), ParseOrigin(c.raysOrigin), size, dpr);
            Updated(placed, c, size, dpr) == placed
  {
    var placed := Placed(InitialUniforms(c), ParseOrigin(c.raysOrigin), size, dpr);
    assert size.x * dpr == placed.iResolution.x && size.y * dpr == placed.iResolution.y;
  }

  /** Unfolds `Placed` field by field; it exists only so that the method's proof can use the definition. */
  lemma PlacedIs(u: Uniforms, origin: Origin, size: Vec2, dpr: real)
    ensures var ray := GetAnchorAndDir(origin, size.x * dpr, size.y * dpr);
            Placed(u, origin, size, dpr)
              == u.(iResolution := Vec2(size.x * dpr, size.y * dpr), rayPos := ray.anchor, rayDir := ray.dir)
  {
  }

  /** Unfolds `Updated` field by field; it exists only so that the method's proof can use the definition. */
  lemma UpdatedIs(u: Uniforms, c: Config, size: Vec2, dpr: real)
    ensures var ray := GetAnchorAndDir(ParseOrigin(c.raysOrigin), size.x * dpr, size.y * dpr);
            Updated(u, c, size, dpr) == u.(params := UniformValues(c), rayPos := ray.anchor, rayDir := ray.dir)
  {
  }

  predicate StartsWith(s: string, p: string) {
    |p| <= |s| && s[..|p|] == p
  }

  predicate EndsWith(s: string, p: string) {
    |p| <= |s| && s[|s| - |p|..] == p
  }

  /** `p` occurs in `s` starting at position `i`. */
  predicate OccursAt(s: string, p: string, i: int) {
    0 <= i <= |s| - |p| && s[i..i + |p|] == p
  }

  /** `p` occurs somewhere in `s`. */
  predicate Contains(s: string, p: string) {
    exists i :: 0 <= i <= |s| - |p| && OccursAt(s, p, i)
  }

  /**
    The class chosen by the props alongside the container's base classes:
    pinned to the screen exactly for a background with a fixed light source,
    filling its parent exactly for a background without one, behind the
    content (`z-[-1]`) exactly for a background at all, and `z-[3]` otherwise.
  */
  function PlacementClass(c: Config): (cls: string)
    ensures StartsWith(cls, "fixed ") <==> c.isBackground && c.fixedLightSource
    ensures StartsWith(cls, "absolute ") <==> c.isBackground && !c.fixedLightSource
    ensures EndsWith(cls, "z-[-1]") <==> c.isBackground
    ensures c.isBackground && c.fixedLightSource ==> Contains(cls, "w-screen h-screen")
    ensures c.isBackground && !c.fixedLightSource ==> Contains(cls, "w-full h-full")
    ensures !c.isBackground ==> cls == "z-[3]"
  {
    if c.isBackground then
      if c.fixedLightSource then
        var pinned := "fixed " + "top-0 left-0 " + "w-screen h-screen" + " z-[-1]";
        assert pinned[..6] == "fixed " && pinned[0] == 'f' && pinned[|pinned| - 6..] == "z-[-1]";
        assert OccursAt(pinned, "w-screen h-screen", 19);
        assert Contains(pinned, "w-screen h-screen");
        pinned
      else
        var filling := "absolute " + "top-0 left-0 " + "w-full h-full" + " z-[-1]";
        assert filling[0] == 'a' && filling[..9] == "absolute " && filling[|filling| - 6..] == "z-[-1]";
        assert OccursAt(filling, "w-full h-full", 22);
        assert Contains(filling, "w-full h-full");
        filling
    else
      var inFlow := "z-[3]";
      assert |inFlow| == 5 && inFlow[0] == 'z' && inFlow[|inFlow| - 5..] == "z-[3]";
      inFlow
  }

  /** The mutable state behind one running light-rays effect. */
  class LightRays {
    // the `uniforms` record shared with the shader program
    var iTime: real
    var iResolution: Vec2
    var rayPos: Vec2
    var rayDir: Vec2
    var params: ShaderParams
    var mousePos: Vec2
    // the renderer's pixel ratio
    var dpr: real
    // the latest raw pointer sample and its smoothed version, both normalised to the container
    var mouse: Vec2
    var smoothMouse: Vec2

    function Snapshot(): Uniforms
      reads this
    {
      Uniforms(iTime, iResolution, rayPos, rayDir, params, mousePos)
    }

    ghost predicate Valid()
      reads this
    {
      dpr <= MaxDpr && WellFormed(params) && IsUnitAxis(rayDir)
    }

    /** The renderer, the uniforms record and the two pointer refs as the component creates them. */
    constructor (c: Config, devicePixelRatio: real)
      ensures Valid()
      ensures Snapshot() == InitialUniforms(c)
      ensures dpr == CappedDpr(devicePixelRatio)
      ensures mouse == Vec2(0.5, 0.5) && smoothMouse == Vec2(0.5, 0.5)
    {
      dpr := CappedDpr(devicePixelRatio);
      mouse := Vec2(0.5, 0.5);
      smoothMouse := Vec2(0.5, 0.5);
      iTime := 0.0;
      iResolution := Vec2(1.0, 1.0);
      rayPos := Vec2(0.0, 0.0);
      rayDir := Vec2(0.0, 1.0);
      params := UniformValues(c);
      mousePos := Vec2(0.5, 0.5);
    }

    /** A pointer or touch handler storing a new normalised sample. */
    method SetPointer(p: Vec2)
      modifies this`mouse
      ensures mouse == p
    {
      mouse := p;
    }

    /**
      `updatePlacement`: with no container (or no renderer) it does nothing;
      otherwise it caps the pixel ratio at 2 and writes `Placed` for the
      container's CSS size and the origin `raysOrigin || "top-center"`
      selects, after which anchor and resolution agree.
    */
    method UpdatePlacement(raysOrigin: string, container: Option<Vec2>, devicePixelRatio: real)
      requires Valid()
      modifies this`dpr, this`iResolution, this`rayPos, this`rayDir
      ensures Valid()
      ensures container.None? ==> dpr == old(dpr) && Snapshot() == old(Snapshot())
      ensures container.Some? ==> dpr == CappedDpr(devicePixelRatio)
      ensures container.Some? ==> Snapshot() == Placed(old(Snapshot()), ParseOrigin(raysOrigin), container.value, dpr)
    {
      if container.None? {
        return;
      }
      var origin := ParseOrigin(raysOrigin);
      dpr := CappedDpr(devicePixelRatio);
      var w := container.value.x * dpr;
      var h := container.value.y * dpr;
      iResolution := Vec2(w, h);
      var ray := GetAnchorAndDir(origin, w, h);
      rayPos := ray.anchor;
      rayDir := ray.dir;
      PlacedIs(old(Snapshot()), origin, container.value, dpr);
      assert Snapshot() == old(Snapshot()).(iResolution := Vec2(w, h), rayPos := ray.anchor, rayDir := ray.dir);
    }

    /**
      One frame of `loop` at timestamp `t` (milliseconds). Without a renderer
      or uniforms it stops. Otherwise the clock uniform becomes `t * 0.001`;
      when the pointer is followed the smoothed pointer takes one smoothing
      step towards the raw sample and the pointer uniform copies it, and
      otherwise both stay as they were; the next frame is requested exactly
      when the draw call succeeds (`renderOk`).
    */
    method LoopStep(c: Config, attached: bool, t: real, renderOk: bool) returns (scheduled: bool)
      requires Valid()
      modifies this`iTime, this`smoothMouse, this`mousePos
      ensures Valid()
      ensures !attached ==> !scheduled && Snapshot() == old(Snapshot()) && smoothMouse == old(smoothMouse)
      ensures attached ==> scheduled == renderOk && iTime == t * 0.001
      ensures attached && FollowsPointer(c) ==>
        smoothMouse == SmoothPoint(old(smoothMouse), mouse) && mousePos == smoothMouse
      ensures !FollowsPointer(c) ==> smoothMouse == old(smoothMouse) && mousePos == old(mousePos)
    {
      if !attached {
        return false;
      }
      iTime := t * 0.001;
      if c.followMouse && c.mouseInfluence > 0.0 {
        smoothMouse := Vec2(
          smoothMouse.x * Smoothing + mouse.x * (1.0 - Smoothing),
          smoothMouse.y * Smoothing + mouse.y * (1.0 - Smoothing));
        mousePos := smoothMouse;
      }
      scheduled := renderOk;
    }

    /**
      The effect that re-applies changed props: without a container, renderer
      or uniforms it does nothing; otherwise it writes `Updated` for the
      container's CSS size at the renderer's current pixel ratio.
    */
    method ApplyConfig(c: Config, container: Option<Vec2>)
      requires Valid()
      modifies this`params, this`rayPos, this`rayDir
      ensures Valid()
      ensures container.None? ==> Snapshot() == old(Snapshot())
      ensures container.Some? ==> Snapshot() == Updated(old(Snapshot()), c, container.value, dpr)
    {
      if container.None? {
        return;
      }
      params := UniformValues(c);
      var origin := ParseOrigin(c.raysOrigin);
      var ray := GetAnchorAndDir(origin, container.value.x * dpr, container.value.y * dpr);
      rayPos := ray.anchor;
      rayDir := ray.dir;
      UpdatedIs(old(Snapshot()), c, container.value, dpr);
      assert Snapshot() == old(Snapshot()).(params := UniformValues(c), rayPos := ray.anchor, rayDir := ray.dir);
    }
  }
}
