/**
 * The six faces of the simulation box (`boundary::Face`), the helpers that
 * map a face to its axis and side, and the per-face `Topology` a boundary
 * condition declares.
 */
module Faces {
  datatype Face = XMinus | XPlus | YMinus | YPlus | ZMinus | ZPlus

  /** `all_faces`: XMinus, XPlus, YMinus, YPlus, ZMinus, ZPlus. */
  const ALL_FACES: seq<Face> := [XMinus, XPlus, YMinus, YPlus, ZMinus, ZPlus]

  /** `face_to_int`: the enumerator values 0..5. */
  function FaceToInt(f: Face): (i: nat)
    ensures i < 6 && ALL_FACES[i] == f
  {
    match f
    case XMinus => 0
    case XPlus => 1
    case YMinus => 2
    case YPlus => 3
    case ZMinus => 4
    case ZPlus => 5
  }

  /** `axis_of_face`: `face_to_int(f) / 2`, so x = 0, y = 1, z = 2. */
  function AxisOfFace(f: Face): (a: nat)
    ensures a < 3
    ensures a == FaceToInt(f) / 2
  {
    FaceToInt(f) / 2
  }

  /** `face_sign_pos`: the low bit of the face number, set exactly for the Plus faces. */
  function FaceSignPos(f: Face): (pos: bool)
    ensures pos <==> f in {XPlus, YPlus, ZPlus}
  {
    FaceToInt(f) % 2 == 1
  }

  /**
   * `non_face_axis`: the two axes other than the face's own, as the switch
   * lists them: (1, 2) for x, (0, 2) for y and (1, 0) for z.
   */
  function NonFaceAxis(f: Face): (p: (nat, nat))
    ensures p.0 < 3 && p.1 < 3 && p.0 != p.1
    ensures p.0 != AxisOfFace(f) && p.1 != AxisOfFace(f)
  {
    match AxisOfFace(f)
    case 0 => (1, 2)
    case 1 => (0, 2)
    case _ => (1, 0)
  }

  /** Each face number names exactly one face, and `all_faces` has no repeats. */
  lemma FacesNumbered()
    ensures |ALL_FACES| == 6
    ensures forall i :: 0 <= i < 6 ==> FaceToInt(ALL_FACES[i]) == i
    ensures forall f, g: Face :: FaceToInt(f) == FaceToInt(g) ==> f == g
  {
  }

  /** Each axis has one Minus and one Plus face. */
  lemma AxisFaces(f: Face, g: Face)
    requires f != g && AxisOfFace(f) == AxisOfFace(g)
    ensures FaceSignPos(f) != FaceSignPos(g)
  {
  }

  /**
   * `Topology`: what a boundary declares about its face. The constructor
   * stores its four arguments unchanged; the thickness is a `double` in
   * the library and only carried through here.
   */
  datatype Topology = Topology(
    boundaryThickness: real,
    couplesAxis: bool,
    forceWrap: bool,
    mayChangeParticlePosition: bool)

  /** `BoundarySentinel`'s topology: thickness -1 and no flags. */
  const SENTINEL_TOPOLOGY: Topology := Topology(-1.0, false, false, false)
}

/**
 * `build_helpers_boundary.h`: how the system builder fills in unset
 * boundaries and turns the six face topologies into container flags.
 */
module BuildBoundary {
  import opened Faces

  /** The alternatives of a boundary variant, reduced to what the builder distinguishes. */
  datatype BoundaryVariant =
    | Sentinel                       // `BoundarySentinel`: no boundary was configured
    | Open                           // the default boundary
    | Configured(topology: Topology) // any other boundary condition

  /** `ContainerFlags`, value-initialised to all false. */
  datatype ContainerFlags = ContainerFlags(
    periodicX: bool, periodicY: bool, periodicZ: bool,
    infiniteDomain: bool, particleAddable: bool, particleDeletable: bool)

  const NO_FLAGS: ContainerFlags := ContainerFlags(false, false, false, false, false, false)

  /** `extract_topologies`: the topology of each face, in `all_faces` order. */
  function ExtractTopologies(table: Face -> Topology): (tops: seq<Topology>)
    ensures |tops| == 6
    ensures forall f: Face :: tops[FaceToInt(f)] == table(f)
  {
    [table(XMinus), table(XPlus), table(YMinus), table(YPlus), table(ZMinus), table(ZPlus)]
  }

  /** `set_default_boundaries`: every sentinel entry becomes Open, in place. */
  method SetDefaultBoundaries(boundaries: array<BoundaryVariant>)
    requires boundaries.Length == 6
    modifies boundaries
    ensures forall i :: 0 <= i < 6 ==>
      boundaries[i] == if old(boundaries[i]) == Sentinel then Open else old(boundaries[i])
  {
    for i := 0 to 6
      invariant forall j :: 0 <= j < i ==>
        boundaries[j] == if old(boundaries[j]) == Sentinel then Open else old(boundaries[j])
      invariant forall j :: i <= j < 6 ==> boundaries[j] == old(boundaries[j])
    {
      if boundaries[i] == Sentinel {
        boundaries[i] := Open;
      }
    }
  }

  /** Axis `a` is periodic when some face on it forces wrapping. */
  predicate AxisWraps(tops: seq<Topology>, a: nat)
    requires |tops| == 6
  {
    exists f: Face :: AxisOfFace(f) == a && tops[FaceToInt(f)].forceWrap
  }

  /**
   * `set_container_flags`: walk the faces and set the periodic flag of the
   * axis of every face whose topology forces wrapping; the other flags keep
   * their value-initialised false.
   */
  method SetContainerFlags(tops: seq<Topology>) returns (flags: ContainerFlags)
    requires |tops| == 6
    ensures flags.periodicX <==> AxisWraps(tops, 0)
    ensures flags.periodicY <==> AxisWraps(tops, 1)
    ensures flags.periodicZ <==> AxisWraps(tops, 2)
    ensures !flags.infiniteDomain && !flags.particleAddable && !flags.particleDeletable
  {
    flags := NO_FLAGS;
    for i := 0 to 6
      invariant !flags.infiniteDomain && !flags.particleAddable && !flags.particleDeletable
      invariant flags.periodicX <==> exists j :: 0 <= j < i && j / 2 == 0 && tops[j].forceWrap
      invariant flags.periodicY <==> exists j :: 0 <= j < i && j / 2 == 1 && tops[j].forceWrap
      invariant flags.periodicZ <==> exists j :: 0 <= j < i && j / 2 == 2 && tops[j].forceWrap
    {
      var face := ALL_FACES[i];
      assert FaceToInt(face) == i;
      if tops[FaceToInt(face)].forceWrap {
        match AxisOfFace(face)
        case 0 => flags := flags.(periodicX := true);
        case 1 => flags := flags.(periodicY := true);
        case _ => flags := flags.(periodicZ := true);
      }
    }
    AxisWrapsByIndex(tops);
  }

  lemma AxisWrapsByIndex(tops: seq<Topology>)
    requires |tops| == 6
    ensures forall a :: 0 <= a < 3 ==>
      (AxisWraps(tops, a) <==> exists j :: 0 <= j < 6 && j / 2 == a && tops[j].forceWrap)
  {
    forall a | 0 <= a < 3
      ensures AxisWraps(tops, a) <==> exists j :: 0 <= j < 6 && j / 2 == a && tops[j].forceWrap
    {
      if exists j :: 0 <= j < 6 && j / 2 == a && tops[j].forceWrap {
        var j :| 0 <= j < 6 && j / 2 == a && tops[j].forceWrap;
        assert FaceToInt(ALL_FACES[j]) == j;
      }
    }
  }
}
