/** How a convention maps the kernel's native (zenith, azimuth) pair onto
    the two slots `output[..., 0]` and `output[..., 1]` of a spherical
    buffer, and back. `h` stands for `0.5 * pi(dtype)`: every fact below
    holds whatever its value, since it rests on `h - (h - x) == x`. */
module SlotMapping {
  import opened Conventions
  import opened Geometry

  /** The two values of one element of a spherical buffer, by axis index. */
  datatype Slots = Slots(first: real, second: real)
  {
    function At(k: nat): real
      requires k < 2
    {
      if k == 0 then first else second
    }
  }

  /** Axis index of the view called `o1` in `Healpix2SphericalOperator.direct`
      and `i1` in `Spherical2HealpixOperator.direct`: the slot that holds the
      zenith (or the elevation derived from it). */
  function ZenithSlot(c: Convention): (k: nat)
    ensures k < 2
    ensures k == 1 <==> (c == AzimuthZenith || c == AzimuthElevation)
  {
    if c.AzimuthFirst() then 1 else 0
  }

  /** Axis index of `o2` / `i2`, the azimuth slot. */
  function AzimuthSlot(c: Convention): (k: nat)
    ensures k < 2 && k != ZenithSlot(c)
    ensures k == 0 <==> (c == AzimuthZenith || c == AzimuthElevation)
  {
    1 - ZenithSlot(c)
  }

  /** The forward post-processing: the kernel writes the zenith into `o1`
      and the azimuth into `o2`; for an elevation convention `o1` is then
      replaced by `h - o1`. So the azimuth slot always holds the kernel's
      azimuth, and the zenith slot the zenith or `h` minus it. */
  function Encode(c: Convention, h: real, a: Angles): (s: Slots)
    ensures s.At(AzimuthSlot(c)) == a.azimuth
    ensures s.At(ZenithSlot(c)) == if c.UsesElevation() then h - a.zenith else a.zenith
  {
    var o1 := if c.UsesElevation() then h - a.zenith else a.zenith;
    if c.AzimuthFirst() then Slots(a.azimuth, o1) else Slots(o1, a.azimuth)
  }

  /** The inverse's pre-processing: read `i1` and `i2` from their slots and,
      for an elevation convention, turn `i1` back into a zenith. The result
      is the pair handed to `ang2pix`: the one pair whose forward encoding
      is `s`, so encoding undoes decoding. */
  function Decode(c: Convention, h: real, s: Slots): (a: Angles)
    ensures Encode(c, h, a) == s
  {
    var i1 := s.At(ZenithSlot(c));
    var i2 := s.At(AzimuthSlot(c));
    Angles(if c.UsesElevation() then h - i1 else i1, i2)
  }

  /** Conversely, the two slot facts of `Encode` determine the encoding. */
  lemma EncodeDeterminedBySlots(c: Convention, h: real, a: Angles, s: Slots)
    requires s.At(ZenithSlot(c)) == if c.UsesElevation() then h - a.zenith else a.zenith
    requires s.At(AzimuthSlot(c)) == a.azimuth
    ensures s == Encode(c, h, a)
  {
  }

  /** The four conventions spelled out: azimuth-first ones put the zenith
      (or elevation) into slot 1, the others into slot 0. */
  lemma EncodeByConvention(h: real, a: Angles)
    ensures Encode(ZenithAzimuth, h, a) == Slots(a.zenith, a.azimuth)
    ensures Encode(AzimuthZenith, h, a) == Slots(a.azimuth, a.zenith)
    ensures Encode(ElevationAzimuth, h, a) == Slots(h - a.zenith, a.azimuth)
    ensures Encode(AzimuthElevation, h, a) == Slots(a.azimuth, h - a.zenith)
  {
  }

  /** Decoding undoes encoding for every convention: what `ang2pix` receives
      is what `pix2ang` produced. */
  lemma DecodeEncode(c: Convention, h: real, a: Angles)
    ensures Decode(c, h, Encode(c, h, a)) == a
  {
  }

  /** The elevation conventions are their zenith twins with the zenith
      slot replaced by `h` minus it, and the azimuth-first conventions are
      their twins with the two slots exchanged. */
  lemma ConventionSymmetry(h: real, a: Angles)
    ensures var s := Encode(ZenithAzimuth, h, a);
            Encode(ElevationAzimuth, h, a) == Slots(h - s.first, s.second)
    ensures var s := Encode(AzimuthZenith, h, a);
            Encode(AzimuthElevation, h, a) == Slots(s.first, h - s.second)
    ensures var s := Encode(ZenithAzimuth, h, a);
            Encode(AzimuthZenith, h, a) == Slots(s.second, s.first)
    ensures var s := Encode(ElevationAzimuth, h, a);
            Encode(AzimuthElevation, h, a) == Slots(s.second, s.first)
  {
    EncodeByConvention(h, a);
  }
}
