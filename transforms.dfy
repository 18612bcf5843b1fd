/** The `direct` methods of the four coordinate operators: the wiring of
    buffers around the pixel kernels. A buffer's leading axes are flattened
    into one: a pixel map is an `array<real>` of n entries (the operators'
    dtype is float), and a coordinate buffer an `array2<real>` of n rows
    whose columns are the views `output[..., k]`. The operator framework
    allocates the output with the shape `reshapein` computes, which the
    `requires` clauses on the lengths restate. */
module Transforms {
  import opened Conventions
  import opened Geometry
  import opened SlotMapping
  import opened Operators

  /** `0.5 * pi(float)`, written as the shortest decimal that rounds to that
      double. No proof uses its value. */
  const HalfPi: real := 1.5707963267948966

  /** `astype(int)` on one value: truncation toward zero. */
  function Truncate(x: real): (n: int)
    ensures 0.0 <= x ==> n as real <= x < n as real + 1.0
    ensures x < 0.0 ==> n as real - 1.0 < x <= n as real
  {
    if x >= 0.0 then x.Floor else -((-x).Floor)
  }

  /** A pixel index stored as a float reads back as itself. */
  lemma TruncateInteger(p: int)
    ensures Truncate(p as real) == p
  {
  }

  /** `input.astype(int)`: a fresh integer copy of the pixel map. */
  function TruncateAll(xs: seq<real>): (ps: seq<int>)
    ensures |ps| == |xs|
    ensures forall i :: 0 <= i < |xs| ==> ps[i] == Truncate(xs[i])
  {
    seq(|xs|, i requires 0 <= i < |xs| => Truncate(xs[i]))
  }

  /** One row of a spherical buffer, as the pair of its two slots. */
  function SlotsAt(a: array2<real>, i: int): Slots
    requires 0 <= i < a.Length0 && a.Length1 == 2
    reads a
  {
    Slots(a[i, 0], a[i, 1])
  }

  /** `Healpix2CartesianOperator.direct`: row i of the output is the unit
      vector of pixel `int(input[i])`. */
  method Healpix2CartesianDirect(op: Operator, g: Geometry, input: array<real>, output: array2<real>)
    requires op.Healpix2Cartesian?
    requires output.Length0 == input.Length && output.Length1 == 3
    modifies output
    ensures forall i :: 0 <= i < input.Length ==>
              var v := g.Pix2Vec(op.nest)(op.nside, Truncate(input[i]));
              output[i, 0] == v.x && output[i, 1] == v.y && output[i, 2] == v.z
  {
    var pixels := TruncateAll(input[..]);
    var func := g.Pix2Vec(op.nest);
    var i := 0;
    while i < input.Length
      invariant 0 <= i <= input.Length
      invariant forall j :: 0 <= j < i ==>
                  var v := func(op.nside, pixels[j]);
                  output[j, 0] == v.x && output[j, 1] == v.y && output[j, 2] == v.z
    {
      var v := func(op.nside, pixels[i]);
      output[i, 0], output[i, 1], output[i, 2] := v.x, v.y, v.z;
      i := i + 1;
    }
  }

  /** `Cartesian2HealpixOperator.direct`: entry i of the output is the pixel
      holding the vector in row i of the input. */
  method Cartesian2HealpixDirect(op: Operator, g: Geometry, input: array2<real>, output: array<real>)
    requires op.Cartesian2Healpix?
    requires input.Length1 == 3 && output.Length == input.Length0
    modifies output
    ensures forall i :: 0 <= i < output.Length ==>
              output[i] == g.Vec2Pix(op.nest)(op.nside, input[i, 0], input[i, 1], input[i, 2]) as real
  {
    var func := g.Vec2Pix(op.nest);
    var i := 0;
    while i < output.Length
      invariant 0 <= i <= output.Length
      invariant forall j :: 0 <= j < i ==>
                  output[j] == func(op.nside, input[j, 0], input[j, 1], input[j, 2]) as real
    {
      output[i] := func(op.nside, input[i, 0], input[i, 1], input[i, 2]) as real;
      i := i + 1;
    }
  }

  /** `Healpix2SphericalOperator.direct`: the kernel writes zenith and
      azimuth into the views `o1` and `o2` the convention selects, then an
      elevation convention rewrites `o1` in place as `pi/2 - o1`. Row i of
      the output ends up as the encoding of pixel `int(input[i])`'s angles. */
  method Healpix2SphericalDirect(op: Operator, g: Geometry, input: array<real>, output: array2<real>)
    requires op.Healpix2Spherical?
    requires output.Length0 == input.Length && output.Length1 == 2
    modifies output
    ensures forall i :: 0 <= i < input.Length ==>
              SlotsAt(output, i) == Encode(op.convention, HalfPi, g.Pix2Ang(op.nest)(op.nside, Truncate(input[i])))
  {
    var pixels := TruncateAll(input[..]);
    var func := g.Pix2Ang(op.nest);
    var o1 := ZenithSlot(op.convention);
    var o2 := AzimuthSlot(op.convention);
    // the kernel fills the views o1 and o2
    WriteAngles(func, op.nside, pixels, output, o1, o2);
    if op.convention.UsesElevation() {
      // for an elevation convention, o1 becomes h - o1 in place
      SubtractColumnFrom(HalfPi, output, o1);
    }
    forall i | 0 <= i < input.Length
      ensures SlotsAt(output, i) == Encode(op.convention, HalfPi, func(op.nside, pixels[i]))
    {
      EncodeDeterminedBySlots(op.convention, HalfPi, func(op.nside, pixels[i]), SlotsAt(output, i));
    }
  }

  /** The angle kernel called with the views `o1` and `o2`: column `o1`
      receives every pixel's zenith and column `o2` its azimuth. */
  method WriteAngles(func: (int, int) -> Angles, nside: int, pixels: seq<int>,
                     output: array2<real>, o1: nat, o2: nat)
    requires output.Length0 == |pixels| && output.Length1 == 2
    requires o1 < 2 && o2 < 2 && o1 != o2
    modifies output
    ensures forall j :: 0 <= j < |pixels| ==>
              output[j, o1] == func(nside, pixels[j]).zenith &&
              output[j, o2] == func(nside, pixels[j]).azimuth
  {
    var i := 0;
    while i < |pixels|
      invariant 0 <= i <= |pixels|
      invariant forall j :: 0 <= j < i ==>
                  output[j, o1] == func(nside, pixels[j]).zenith &&
                  output[j, o2] == func(nside, pixels[j]).azimuth
    {
      var a := func(nside, pixels[i]);
      output[i, o1] := a.zenith;
      output[i, o2] := a.azimuth;
      i := i + 1;
    }
  }

  /** The elevation step: column `k` is replaced in place by `h`
      minus it; the other column is untouched. */
  method SubtractColumnFrom(h: real, a: array2<real>, k: nat)
    requires k < a.Length1
    modifies a
    ensures forall j, m :: 0 <= j < a.Length0 && 0 <= m < a.Length1 ==>
              a[j, m] == if m == k then h - old(a[j, m]) else old(a[j, m])
  {
    var i := 0;
    while i < a.Length0
      invariant 0 <= i <= a.Length0
      invariant forall j, m :: 0 <= j < a.Length0 && 0 <= m < a.Length1 ==>
                  a[j, m] == if m == k && j < i then h - old(a[j, m]) else old(a[j, m])
    {
      a[i, k] := h - a[i, k];
      i := i + 1;
    }
  }

  /** `Spherical2HealpixOperator.direct`: the views `i1` and `i2` are read
      from the slots the convention selects, `i1` becomes `pi/2 - i1` for an
      elevation convention, and the kernel turns each pair into a pixel. */
  method Spherical2HealpixDirect(op: Operator, g: Geometry, input: array2<real>, output: array<real>)
    requires op.Spherical2Healpix?
    requires input.Length1 == 2 && output.Length == input.Length0
    modifies output
    ensures forall i :: 0 <= i < output.Length ==>
              var a := Decode(op.convention, HalfPi, SlotsAt(input, i));
              output[i] == g.Ang2Pix(op.nest)(op.nside, a.zenith, a.azimuth) as real
  {
    var func := g.Ang2Pix(op.nest);
    var s1 := ZenithSlot(op.convention);
    var s2 := AzimuthSlot(op.convention);
    var elevation := op.convention.UsesElevation();
    var i := 0;
    while i < output.Length
      invariant 0 <= i <= output.Length
      invariant forall j :: 0 <= j < i ==>
                  var a := Decode(op.convention, HalfPi, SlotsAt(input, j));
                  output[j] == func(op.nside, a.zenith, a.azimuth) as real
    {
      var i1 := input[i, s1];
      if elevation {
        i1 := HalfPi - i1;
      }
      output[i] := func(op.nside, i1, input[i, s2]) as real;
      i := i + 1;
    }
  }

  /** Converting pixels to angles and the angles back: every pair handed to
      `ang2pix` is exactly the pair `pix2ang` produced, whatever the
      convention, so the pixels come back whenever the two kernels undo each
      other. */
  method SphericalRoundTrip(op: Operator, g: Geometry, pixels: array<real>) returns (back: seq<real>)
    requires op.Healpix2Spherical?
    ensures |back| == pixels.Length
    ensures forall i :: 0 <= i < pixels.Length ==>
              var a := g.Pix2Ang(op.nest)(op.nside, Truncate(pixels[i]));
              back[i] == g.Ang2Pix(op.nest)(op.nside, a.zenith, a.azimuth) as real
    ensures g.AngleKernelsInvert(op.nside, op.nest) ==>
              forall i :: 0 <= i < pixels.Length && 0 <= Truncate(pixels[i]) < PixelCount(op.nside) ==>
                back[i] == Truncate(pixels[i]) as real
  {
    var angles := new real[pixels.Length, 2];
    Healpix2SphericalDirect(op, g, pixels, angles);
    var out := new real[pixels.Length];
    Spherical2HealpixDirect(Inverse(op), g, angles, out);
    forall i | 0 <= i < pixels.Length
      ensures var a := g.Pix2Ang(op.nest)(op.nside, Truncate(pixels[i]));
              out[i] == g.Ang2Pix(op.nest)(op.nside, a.zenith, a.azimuth) as real
    {
      DecodeEncode(op.convention, HalfPi, g.Pix2Ang(op.nest)(op.nside, Truncate(pixels[i])));
    }
    back := out[..];
  }

  /** The same round trip through cartesian vectors. */
  method CartesianRoundTrip(op: Operator, g: Geometry, pixels: array<real>) returns (back: seq<real>)
    requires op.Healpix2Cartesian?
    ensures |back| == pixels.Length
    ensures forall i :: 0 <= i < pixels.Length ==>
              var v := g.Pix2Vec(op.nest)(op.nside, Truncate(pixels[i]));
              back[i] == g.Vec2Pix(op.nest)(op.nside, v.x, v.y, v.z) as real
    ensures g.VectorKernelsInvert(op.nside, op.nest) ==>
              forall i :: 0 <= i < pixels.Length && 0 <= Truncate(pixels[i]) < PixelCount(op.nside) ==>
                back[i] == Truncate(pixels[i]) as real
  {
    var vectors := new real[pixels.Length, 3];
    Healpix2CartesianDirect(op, g, pixels, vectors);
    var out := new real[pixels.Length];
    Cartesian2HealpixDirect(Inverse(op), g, vectors, out);
    back := out[..];
  }
}
