/** The HEALPix pixel kernels the operators call (`_pix2vec_*`,
    `_vec2pix_*`, `_pix2ang_*`, `_ang2pix_*` in ring and nested order).
    Their implementations are not part of this model: an operator's
    `direct` receives them as a `Geometry` value and uses nothing about
    them beyond what the dispatch on `nest` selects. */
module Geometry {

  /** A cartesian unit vector as the vector kernels write it. */
  datatype Vec3 = Vec3(x: real, y: real, z: real)

  /** The kernel's native angle pair: colatitude then longitude. */
  datatype Angles = Angles(zenith: real, azimuth: real)

  /** The eight kernel entry points, each taking `nside` first. */
  datatype Geometry = Geometry(
    pix2vecRing: (int, int) -> Vec3,
    pix2vecNest: (int, int) -> Vec3,
    vec2pixRing: (int, real, real, real) -> int,
    vec2pixNest: (int, real, real, real) -> int,
    pix2angRing: (int, int) -> Angles,
    pix2angNest: (int, int) -> Angles,
    ang2pixRing: (int, real, real) -> int,
    ang2pixNest: (int, real, real) -> int)
  {
    /** The pixel-to-vector kernel of the operator's pixel ordering: the
        nested one when `nest` is set, the ring one otherwise. */
    function Pix2Vec(nest: bool): (f: (int, int) -> Vec3)
      ensures nest ==> f == pix2vecNest
      ensures !nest ==> f == pix2vecRing
    {
      if nest then pix2vecNest else pix2vecRing
    }

    /** The vector-to-pixel kernel of the pixel ordering. */
    function Vec2Pix(nest: bool): (f: (int, real, real, real) -> int)
      ensures nest ==> f == vec2pixNest
      ensures !nest ==> f == vec2pixRing
    {
      if nest then vec2pixNest else vec2pixRing
    }

    /** The pixel-to-angles kernel of the pixel ordering. */
    function Pix2Ang(nest: bool): (f: (int, int) -> Angles)
      ensures nest ==> f == pix2angNest
      ensures !nest ==> f == pix2angRing
    {
      if nest then pix2angNest else pix2angRing
    }

    /** The angles-to-pixel kernel of the pixel ordering. */
    function Ang2Pix(nest: bool): (f: (int, real, real) -> int)
      ensures nest ==> f == ang2pixNest
      ensures !nest ==> f == ang2pixRing
    {
      if nest then ang2pixNest else ang2pixRing
    }

    /** The vector kernels undo each other on every pixel of the map. */
    ghost predicate VectorKernelsInvert(nside: int, nest: bool) {
      forall p :: 0 <= p < PixelCount(nside) ==>
        var v := Pix2Vec(nest)(nside, p);
        Vec2Pix(nest)(nside, v.x, v.y, v.z) == p
    }

    /** The angle kernels undo each other on every pixel of the map. */
    ghost predicate AngleKernelsInvert(nside: int, nest: bool) {
      forall p :: 0 <= p < PixelCount(nside) ==>
        var a := Pix2Ang(nest)(nside, p);
        Ang2Pix(nest)(nside, a.zenith, a.azimuth) == p
    }
  }

  /** Number of pixels of a map of resolution `nside`: `12 * nside**2`. */
  function PixelCount(nside: int): (n: nat)
    ensures n % 12 == 0
    ensures nside != 0 ==> n >= 12
  {
    var square := nside * nside;
    assert nside != 0 ==> square >= 1 by {
      if nside > 0 { assert square == nside * nside >= nside; }
      if nside < 0 { assert square == (-nside) * (-nside) >= -nside; }
    }
    12 * square
  }
}
