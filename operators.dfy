/** The four coordinate-transform operators as one tagged union. Each
    keeps the parameters its constructor stores (`self.nside`, `self.nest`
    and, for the spherical pair, the normalised `self.convention`), the
    shape functions it hands to the operator framework, and the `'I'`
    rule that builds its sibling. */
module Operators {
  import opened Wrappers
  import opened Errors
  import opened Conventions
  import opened Shapes

  datatype Operator =
    | Healpix2Cartesian(nside: int, nest: bool)
    | Cartesian2Healpix(nside: int, nest: bool)
    | Healpix2Spherical(nside: int, convention: Convention, nest: bool)
    | Spherical2Healpix(nside: int, convention: Convention, nest: bool)
  {
    /** The coordinate side: `_HealPixCartesian` or `_HealPixSpherical`. */
    function Coordinates(): Coordinates {
      if Healpix2Cartesian? || Cartesian2Healpix? then Cartesian else Spherical
    }

    /** True for the operators whose input is a pixel map. */
    predicate FromPixels() {
      Healpix2Cartesian? || Healpix2Spherical?
    }

    /** The `reshapein` the constructor registers: a pixel shape gains the
        coordinate axis, a coordinate shape loses its last axis. */
    function ReshapeIn(s: Shape): (r: Shape)
      ensures FromPixels() ==> |r| == |s| + 1 && r[..|s|] == s && r[|s|] == Coordinates().AxisSize()
      ensures !FromPixels() ==> r <= s && |r| == if s == [] then 0 else |s| - 1
    {
      if FromPixels() then AppendAxis(Coordinates(), s) else DropAxis(s)
    }

    /** The `reshapeout` the constructor registers: the other direction. */
    function ReshapeOut(s: Shape): (r: Shape)
      ensures FromPixels() ==> r <= s && |r| == if s == [] then 0 else |s| - 1
      ensures !FromPixels() ==> |r| == |s| + 1 && r[..|s|] == s && r[|s|] == Coordinates().AxisSize()
    {
      if FromPixels() then DropAxis(s) else AppendAxis(Coordinates(), s)
    }

    /** The `validatein` the constructor registers; a pixel input has none. */
    function ValidateIn(s: Shape): (r: Outcome<Error>)
      ensures r.Pass? <==> FromPixels() || (|s| > 0 && s[|s| - 1] == Coordinates().AxisSize())
      ensures r.Fail? ==> r.error == InvalidShape(Coordinates().InvalidMessage())
    {
      if FromPixels() then Pass else Validate(Coordinates(), s)
    }

    /** The `validateout` the constructor registers; a pixel output has none. */
    function ValidateOut(s: Shape): (r: Outcome<Error>)
      ensures r.Pass? <==> !FromPixels() || (|s| > 0 && s[|s| - 1] == Coordinates().AxisSize())
      ensures r.Fail? ==> r.error == InvalidShape(Coordinates().InvalidMessage())
    {
      if FromPixels() then Validate(Coordinates(), s) else Pass
    }
  }

  /** The `'I'` rule of each operator: its sibling, built with the same
      `nside`, `nest` and, for the spherical pair, `convention`. */
  function Inverse(op: Operator): (r: Operator)
    ensures r.nside == op.nside && r.nest == op.nest
    ensures r.Coordinates() == op.Coordinates()
    ensures r.FromPixels() != op.FromPixels()
    ensures op.Coordinates() == Spherical ==>
              r.Coordinates() == Spherical && r.convention == op.convention
  {
    match op
    case Healpix2Cartesian(nside, nest) => Cartesian2Healpix(nside, nest)
    case Cartesian2Healpix(nside, nest) => Healpix2Cartesian(nside, nest)
    case Healpix2Spherical(nside, convention, nest) => Spherical2Healpix(nside, convention, nest)
    case Spherical2Healpix(nside, convention, nest) => Healpix2Spherical(nside, convention, nest)
  }

  /** Taking the inverse twice gives back the original operator. */
  lemma InverseInvolutive(op: Operator)
    ensures Inverse(Inverse(op)) == op
  {
  }

  /** An operator's inverse has its shape functions the other way round:
      what one registers as `reshapein`/`validatein` the other registers as
      `reshapeout`/`validateout`. */
  lemma InverseSwapsShapes(op: Operator, s: Shape)
    ensures Inverse(op).ReshapeIn(s) == op.ReshapeOut(s)
    ensures Inverse(op).ReshapeOut(s) == op.ReshapeIn(s)
    ensures Inverse(op).ValidateIn(s) == op.ValidateOut(s)
    ensures Inverse(op).ValidateOut(s) == op.ValidateIn(s)
  {
  }

  /** The shape an operator produces passes its own output validator, and
      `reshapeout` undoes `reshapein` on every shape it accepts. */
  lemma ShapesConsistent(op: Operator, s: Shape)
    ensures op.ValidateOut(op.ReshapeIn(s)).Pass?
    ensures op.ValidateIn(s).Pass? ==> op.ReshapeOut(op.ReshapeIn(s)) == s
  {
    if op.FromPixels() {
      AppendedValidates(op.Coordinates(), s);
      DropAppend(op.Coordinates(), s);
    } else if op.ValidateIn(s).Pass? {
      AppendDrop(op.Coordinates(), s);
    }
  }

  /** `Healpix2SphericalOperator(nside, convention, nest)`: resolves the
      convention and stores the parameters, or raises before storing any. */
  function NewHealpix2Spherical(nside: int, convention: ConventionArg, nest: bool := false)
    : (r: Result<Operator, Error>)
    ensures convention.NonText? ==> r == Failure(ConventionNotAString(convention.text))
    ensures convention.Text? ==> (r.Success? <==> Normalize(convention.s) in Names)
    ensures convention.Text? && r.Failure? ==> r.error == InvalidConvention(convention.s, Names)
    ensures r.Success? ==> r.value.Healpix2Spherical? && r.value.nside == nside && r.value.nest == nest
    ensures r.Success? ==> convention.Text? && r.value.convention.Name() == Normalize(convention.s)
  {
    match Resolve(convention)
    case Success(c) => Success(Healpix2Spherical(nside, c, nest))
    case Failure(e) => Failure(e)
  }

  /** `Spherical2HealpixOperator(nside, convention, nest)`. */
  function NewSpherical2Healpix(nside: int, convention: ConventionArg, nest: bool := false)
    : (r: Result<Operator, Error>)
    ensures convention.NonText? ==> r == Failure(ConventionNotAString(convention.text))
    ensures convention.Text? ==> (r.Success? <==> Normalize(convention.s) in Names)
    ensures convention.Text? && r.Failure? ==> r.error == InvalidConvention(convention.s, Names)
    ensures r.Success? ==> r.value.Spherical2Healpix? && r.value.nside == nside && r.value.nest == nest
    ensures r.Success? ==> convention.Text? && r.value.convention.Name() == Normalize(convention.s)
  {
    match Resolve(convention)
    case Success(c) => Success(Spherical2Healpix(nside, c, nest))
    case Failure(e) => Failure(e)
  }

  /** The inverse rule of a spherical operator calls its sibling's
      constructor with the stored `s.convention`; since that string is
      already normalised, the constructor succeeds and yields exactly
      `Inverse(op)`. */
  lemma SphericalRuleRebuilds(op: Operator)
    requires op.Coordinates() == Spherical
    ensures op.Healpix2Spherical? ==>
              NewSpherical2Healpix(op.nside, Text(op.convention.Name()), op.nest) == Success(Inverse(op))
    ensures op.Spherical2Healpix? ==>
              NewHealpix2Spherical(op.nside, Text(op.convention.Name()), op.nest) == Success(Inverse(op))
  {
    ResolveName(op.convention);
  }

  /** The spherical constructors reject the same arguments for the same
      reason, so a convention either builds both siblings or neither. */
  lemma SphericalConstructorsAgree(nside: int, convention: ConventionArg, nest: bool)
    ensures NewHealpix2Spherical(nside, convention, nest).Success? <==>
            NewSpherical2Healpix(nside, convention, nest).Success?
    ensures NewHealpix2Spherical(nside, convention, nest).Failure? ==>
            NewHealpix2Spherical(nside, convention, nest).error ==
            NewSpherical2Healpix(nside, convention, nest).error
    ensures NewHealpix2Spherical(nside, convention, nest).Success? ==>
            Inverse(NewHealpix2Spherical(nside, convention, nest).value) ==
            NewSpherical2Healpix(nside, convention, nest).value
  {
  }
}
