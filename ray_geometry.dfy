/**
  Where the light rays come from: the five named origins, the anchor point and
  axis-aligned direction `getAnchorAndDir` derives from an origin and a drawing
  size, and the device-pixel-ratio cap `updatePlacement` applies.
*/
module RayGeometry {

  datatype Vec2 = Vec2(x: real, y: real)

  function Scale(k: real, v: Vec2): Vec2 {
    Vec2(v.x * k, v.y * k)
  }

  function Dot(a: Vec2, b: Vec2): real {
    a.x * b.x + a.y * b.y
  }

  /** One of the four unit vectors along the axes. */
  predicate IsUnitAxis(d: Vec2) {
    d in {Vec2(0.0, 1.0), Vec2(0.0, -1.0), Vec2(1.0, 0.0), Vec2(-1.0, 0.0)}
  }

  datatype Origin = TopCenter | Center | BottomCenter | LeftCenter | RightCenter

  function Name(o: Origin): string {
    match o
    case TopCenter => "top-center"
    case Center => "center"
    case BottomCenter => "bottom-center"
    case LeftCenter => "left-center"
    case RightCenter => "right-center"
  }

  /**
    The origin the code ends up using for the prop `raysOrigin`: the value of
    `raysOrigin || "top-center"` selects a `switch` case, and any string that
    names no case (the empty one included) takes the `default` branch, which
    is the top-center branch over again.
  */
  function ParseOrigin(name: string): (o: Origin)
    ensures Name(o) == name || (o == TopCenter && forall p: Origin :: Name(p) != name)
  {
    if name == "center" then Center
    else if name == "bottom-center" then BottomCenter
    else if name == "left-center" then LeftCenter
    else if name == "right-center" then RightCenter
    else TopCenter
  }

  lemma ParseOriginOfName(o: Origin)
    ensures ParseOrigin(Name(o)) == o
  {
  }

  /** How far outside the viewport an edge anchor sits, as a fraction of that dimension. */
  const Outside: real := 0.2

  datatype Ray = Ray(anchor: Vec2, dir: Vec2)

  predicate IsEdge(o: Origin) {
    o != Center
  }

  /**
    The anchor lies strictly beyond the origin's edge of the box [0,w]x[0,h],
    at `Outside` times the dimension at right angles to that edge, and midway
    along that edge.
  */
  predicate BeyondEdge(o: Origin, a: Vec2, w: real, h: real) {
    match o
    case TopCenter => a.y < 0.0 && a.y == -Outside * h && a.x == w / 2.0
    case BottomCenter => a.y > h && a.y - h == Outside * h && a.x == w / 2.0
    case LeftCenter => a.x < 0.0 && a.x == -Outside * w && a.y == h / 2.0
    case RightCenter => a.x > w && a.x - w == Outside * w && a.y == h / 2.0
    case Center => false
  }

  /**
    `getAnchorAndDir`: the anchor and direction for an origin and a drawing
    size. The direction is always a unit axis vector; where the anchor lies
    is stated by `AnchorBeyondEdgePointingInward` and `CenterAnchor`.
  */
  function GetAnchorAndDir(origin: Origin, w: real, h: real): (r: Ray)
    ensures IsUnitAxis(r.dir)
  {
    match origin
    case TopCenter => Ray(Vec2(0.5 * w, -Outside * h), Vec2(0.0, 1.0))
    case Center => Ray(Vec2(0.5 * w, 0.5 * h), Vec2(0.0, 1.0))
    case BottomCenter => Ray(Vec2(0.5 * w, (1.0 + Outside) * h), Vec2(0.0, -1.0))
    case LeftCenter => Ray(Vec2(-Outside * w, 0.5 * h), Vec2(1.0, 0.0))
    case RightCenter => Ray(Vec2((1.0 + Outside) * w, 0.5 * h), Vec2(-1.0, 0.0))
  }

  /**
    For a non-empty viewport and an edge origin, the anchor lies strictly
    beyond that edge, 20% of the viewport out and midway along it, and the
    direction points into the viewport: its dot product with the way from
    the anchor to the centre is positive.
  */
  lemma AnchorBeyondEdgePointingInward(origin: Origin, w: real, h: real)
    requires w > 0.0 && h > 0.0 && IsEdge(origin)
    ensures BeyondEdge(origin, GetAnchorAndDir(origin, w, h).anchor, w, h)
    ensures var r := GetAnchorAndDir(origin, w, h);
            Dot(r.dir, Vec2(w / 2.0 - r.anchor.x, h / 2.0 - r.anchor.y)) > 0.0
  {
  }

  /** For `center` the anchor is the centre and the direction is that of `top-center`. */
  lemma CenterAnchor(w: real, h: real)
    ensures GetAnchorAndDir(Center, w, h).anchor == Vec2(w / 2.0, h / 2.0)
    ensures GetAnchorAndDir(Center, w, h).dir == GetAnchorAndDir(TopCenter, w, h).dir
  {
  }

  /**
    The anchor scales with the drawing size and the direction does not depend
    on it, so placing the rays at a device-pixel-scaled size is the same as
    scaling the CSS-size anchor.
  */
  lemma GetAnchorAndDirScales(origin: Origin, k: real, w: real, h: real)
    ensures GetAnchorAndDir(origin, w * k, h * k).anchor == Scale(k, GetAnchorAndDir(origin, w, h).anchor)
    ensures GetAnchorAndDir(origin, w * k, h * k).dir == GetAnchorAndDir(origin, w, h).dir
  {
    assert 0.5 * (w * k) == (0.5 * w) * k && 0.5 * (h * k) == (0.5 * h) * k;
    assert -Outside * (w * k) == (-Outside * w) * k && -Outside * (h * k) == (-Outside * h) * k;
    assert (1.0 + Outside) * (w * k) == ((1.0 + Outside) * w) * k;
    assert (1.0 + Outside) * (h * k) == ((1.0 + Outside) * h) * k;
  }

  /** A 1000 by 800 viewport. */
  lemma GetAnchorAndDirExample()
    ensures GetAnchorAndDir(TopCenter, 1000.0, 800.0) == Ray(Vec2(500.0, -160.0), Vec2(0.0, 1.0))
    ensures GetAnchorAndDir(LeftCenter, 1000.0, 800.0) == Ray(Vec2(-200.0, 400.0), Vec2(1.0, 0.0))
  {
  }

  /** The renderer's pixel ratio is the device's, but never above this. */
  const MaxDpr: real := 2.0

  /** `Math.min(window.devicePixelRatio, 2)` */
  function CappedDpr(devicePixelRatio: real): (dpr: real)
    ensures dpr <= MaxDpr && dpr <= devicePixelRatio
    ensures dpr == devicePixelRatio || dpr == MaxDpr
  {
    if devicePixelRatio < MaxDpr then devicePixelRatio else MaxDpr
  }
}
