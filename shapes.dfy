/** The static shape methods shared by each sibling pair of operators:
    `_reshapehealpix`, `_reshapecartesian` / `_reshapespherical` and
    `_validatecartesian` / `_validatespherical`. A shape is a tuple of
    axis sizes; the two families differ only in the size of the trailing
    coordinate axis. */
module Shapes {
  import opened Wrappers
  import opened Errors

  type Shape = seq<nat>

  /** The coordinate side of a pair: cartesian vectors or spherical angles. */
  datatype Coordinates = Cartesian | Spherical
  {
    /** Size of the trailing coordinate axis. */
    function AxisSize(): nat {
      if Cartesian? then 3 else 2
    }

    function InvalidMessage(): string {
      if Cartesian? then "Invalid cartesian shape." else "Invalid spherical shape."
    }
  }

  /** `_reshapehealpix`: the coordinate axis is appended to a pixel shape. */
  function AppendAxis(k: Coordinates, s: Shape): (r: Shape)
    ensures |r| == |s| + 1
    ensures r[..|s|] == s && r[|s|] == k.AxisSize()
  {
    s + [k.AxisSize()]
  }

  /** `_reshapecartesian` / `_reshapespherical`: `shape[:-1]`, which leaves
      the empty tuple empty. */
  function DropAxis(s: Shape): (r: Shape)
    ensures s == [] ==> r == []
    ensures s != [] ==> |r| == |s| - 1
    ensures r <= s
  {
    if s == [] then [] else s[..|s| - 1]
  }

  /** `_validatecartesian` / `_validatespherical`. */
  function Validate(k: Coordinates, s: Shape): (r: Outcome<Error>)
    ensures r.Pass? <==> |s| > 0 && s[|s| - 1] == k.AxisSize()
    ensures r.Fail? ==> r.error == InvalidShape(k.InvalidMessage())
  {
    if |s| == 0 || s[|s| - 1] != k.AxisSize() then Fail(InvalidShape(k.InvalidMessage()))
    else Pass
  }

  /** Dropping the axis that was just appended gives the pixel shape back. */
  lemma DropAppend(k: Coordinates, s: Shape)
    ensures DropAxis(AppendAxis(k, s)) == s
  {
  }

  /** A shape that passes validation is the coordinate shape of the pixel
      shape obtained by dropping its last axis. */
  lemma AppendDrop(k: Coordinates, s: Shape)
    requires Validate(k, s).Pass?
    ensures AppendAxis(k, DropAxis(s)) == s
  {
  }

  /** Every shape `_reshapehealpix` produces passes the matching validator. */
  lemma AppendedValidates(k: Coordinates, s: Shape)
    ensures Validate(k, AppendAxis(k, s)).Pass?
  {
  }

  /** A shape of one family is rejected by the other family's validator:
      a trailing axis of 3 is not spherical, and one of 2 is not cartesian. */
  lemma OtherFamilyRejected(k: Coordinates, s: Shape)
    ensures Validate(if k.Cartesian? then Spherical else Cartesian, AppendAxis(k, s)) ==
            Fail(InvalidShape((if k.Cartesian? then Spherical else Cartesian).InvalidMessage()))
  {
  }

  /** The empty shape is never valid. */
  lemma EmptyRejected(k: Coordinates)
    ensures Validate(k, []) == Fail(InvalidShape(k.InvalidMessage()))
  {
  }
}
