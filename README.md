# HEALPix coordinate operators: a Dafny model

This project models the bookkeeping layer of the HEALPix operators of
pysimulators (`pysimulators/interfaces/healpy/operators.py`): four mutually
inverse coordinate transforms between HEALPix pixel indices, cartesian unit
vectors and pairs of spherical angles, and a Gaussian smoothing operator.
The numbers themselves come from the healpy pixel kernels and from
`hp.smoothing`; here those are parameters, and what is modelled and proved
is everything the operators do around them:

- the convention resolver (`Conventions`): the argument is rejected with a
  type error if it is not a string; otherwise its spaces are removed and it
  is lower-cased, and it is accepted exactly when the result is one of the
  four `CONVENTIONS`, which is then what the operator stores (already in
  normal form, so normalising it again changes nothing);
- the shape methods (`Shapes`): `_reshapehealpix` appends the coordinate
  axis (3 or 2), `_reshapecartesian` / `_reshapespherical` drop the last axis,
  and the validators fail exactly on an empty shape or a wrong trailing size;
- the four operators as one tagged union (`Operators`) with their `'I'` rule
  as `Inverse`, which swaps the shape functions, keeps `nside`, `nest` and
  the convention, and is its own inverse; rebuilding the sibling through its
  constructor from the stored convention succeeds and gives the same value;
- the slot mapping of the spherical pair (`SlotMapping`): azimuth-first
  conventions put the kernel's zenith into slot 1, elevation conventions
  replace that slot by `pi/2 - zenith`, and the inverse's pre-processing
  undoes the forward's post-processing for all four conventions and for any
  value of `pi/2`;
- the `direct` methods (`Transforms`) as loops over `array`/`array2`
  buffers, each proved to leave the exact kernel outputs in the right
  slots, and round trips proving that `ang2pix` / `vec2pix` receive exactly
  what `pix2ang` / `pix2vec` produced;
- `HealpixConvolutionGaussianOperator` (`Smoothing`): input size
  `12 * nside**2`, parameters stored unchanged, and a `direct` that fills
  the whole output from the whole input, so it is correct in place.

Files: `wrappers.dfy` (Option, Result, Outcome), `errors.dfy` (the raised
exceptions), `conventions.dfy`, `shapes.dfy`, `geometry.dfy` (the kernel
interface and the pixel count), `operators.dfy`, `slots.dfy`,
`transforms.dfy`, `smoothing.dfy`.

Three details of the source's behaviour that the model keeps:
normalisation removes only the space character (`replace(' ', '')`), not
other whitespace; the shape validators raise `ValueError` with the messages
`'Invalid cartesian shape.'` / `'Invalid spherical shape.'`; and a
non-string convention raises Python's `TypeError`.

## Model

| member | source | states |
|---|---|---|
| `Conventions.Convention.Name` | pysimulators/interfaces/healpy/operators.py:95-98 | every resolved convention's stored string is one of the four `CONVENTIONS` |
| `Conventions.Convention.AzimuthFirst` | pysimulators/interfaces/healpy/operators.py:168 | `self.convention.startswith('azimuth')` holds exactly for `azimuth,zenith` and `azimuth,elevation` (also line 215) |
| `Conventions.Convention.UsesElevation` | pysimulators/interfaces/healpy/operators.py:173 | `'elevation' in self.convention` holds exactly for `elevation,azimuth` and `azimuth,elevation` (also line 219) |
| `Conventions.ConventionQueries` | pysimulators/interfaces/healpy/operators.py:168-173 | `startswith('azimuth')` holds exactly for the two azimuth-first conventions, and `'elevation' in` exactly for the two elevation ones |
| `Conventions.LowerChar` | pysimulators/interfaces/healpy/operators.py:104 | a capital A-Z becomes the lowercase letter at the same alphabet position; a lowered character is never a capital, is a space iff the input was, and non-capitals are unchanged |
| `Conventions.Lower` | pysimulators/interfaces/healpy/operators.py:104 | `lower()` keeps the length and lowers each character in place |
| `Conventions.RemoveSpaces` | pysimulators/interfaces/healpy/operators.py:104 | `replace(' ', '')` leaves no space, never lengthens, and is the identity on a string without spaces |
| `Conventions.RemoveSpacesKeepsOthers` | pysimulators/interfaces/healpy/operators.py:104 | removing spaces keeps every other character with its multiplicity |
| `Conventions.RemoveSpacesConcat` | pysimulators/interfaces/healpy/operators.py:104 | removing spaces distributes over concatenation |
| `Conventions.Normalize` | pysimulators/interfaces/healpy/operators.py:104 | the normal form has no spaces and no capitals and is no longer than the argument |
| `Conventions.NormalFormFixed` | pysimulators/interfaces/healpy/operators.py:104 | a string without spaces or capitals is its own normal form |
| `Conventions.NormalizeIdempotent` | pysimulators/interfaces/healpy/operators.py:104 | normalising twice is normalising once |
| `Conventions.NameIsNormal` | pysimulators/interfaces/healpy/operators.py:104-110 | the stored convention normalises to itself |
| `Conventions.Parse` | pysimulators/interfaces/healpy/operators.py:105 | a name is recognised iff it is in `CONVENTIONS`, and the recognised convention has that name |
| `Conventions.Resolve` | pysimulators/interfaces/healpy/operators.py:101-110 | a non-string is a type error; a string is accepted iff its normal form is in `CONVENTIONS`, the result then being that normal form; otherwise a value error quoting the argument and listing all four values |
| `Conventions.ResolveName` | pysimulators/interfaces/healpy/operators.py:104-110 | resolving a stored convention's name gives the same convention |
| `Conventions.ResolveMixedCase` | pysimulators/interfaces/healpy/operators.py:104-110 | `"AZIMUTH, ZENITH"` is accepted and stored as `"azimuth,zenith"` |
| `Conventions.ResolveAgreesOnNormalForms` | pysimulators/interfaces/healpy/operators.py:104-105 | arguments with the same normal form are accepted or rejected together, and resolve to the same convention |
| `Conventions.ResolveUnknown` | pysimulators/interfaces/healpy/operators.py:105-108 | `"foo"` is a value error that lists the four legal conventions |
| `Shapes.AppendAxis` | pysimulators/interfaces/healpy/operators.py:24-26 | `_reshapehealpix` is the shape with the coordinate axis size (3 cartesian, 2 spherical, lines 114-116) appended |
| `Shapes.DropAxis` | pysimulators/interfaces/healpy/operators.py:28-30 | `shape[:-1]` is a prefix one shorter, and the empty shape stays empty (also lines 118-120) |
| `Shapes.Validate` | pysimulators/interfaces/healpy/operators.py:32-35 | the validator passes iff the shape is non-empty with the right trailing size, otherwise fails with the family's message (also lines 122-125) |
| `Shapes.DropAppend` | pysimulators/interfaces/healpy/operators.py:24-30 | dropping the appended axis gives the pixel shape back |
| `Shapes.AppendDrop` | pysimulators/interfaces/healpy/operators.py:24-35 | on a validated shape, appending after dropping gives the shape back |
| `Shapes.AppendedValidates` | pysimulators/interfaces/healpy/operators.py:114-125 | every output of `_reshapehealpix` passes the matching validator |
| `Shapes.OtherFamilyRejected` | pysimulators/interfaces/healpy/operators.py:122-125 | a trailing 3 fails the spherical validator and a trailing 2 the cartesian one |
| `Shapes.EmptyRejected` | pysimulators/interfaces/healpy/operators.py:33-35 | the empty shape fails validation |
| `Geometry.Geometry.Pix2Vec` | pysimulators/interfaces/healpy/operators.py:62 | `nest` selects the nested `pix2vec` kernel, otherwise the ring one |
| `Geometry.Geometry.Vec2Pix` | pysimulators/interfaces/healpy/operators.py:89 | `nest` selects the nested `vec2pix` kernel, otherwise the ring one |
| `Geometry.Geometry.Pix2Ang` | pysimulators/interfaces/healpy/operators.py:167 | `nest` selects the nested `pix2ang` kernel, otherwise the ring one |
| `Geometry.Geometry.Ang2Pix` | pysimulators/interfaces/healpy/operators.py:214 | `nest` selects the nested `ang2pix` kernel, otherwise the ring one |
| `Geometry.PixelCount` | pysimulators/interfaces/healpy/operators.py:238 | `12 * nside**2` is a multiple of 12, at least 12 for a non-zero `nside` |
| `Operators.Operator.ReshapeIn` | pysimulators/interfaces/healpy/operators.py:52-56 | the registered `reshapein`: a pixel shape gains the trailing coordinate axis (3 or 2); a coordinate shape loses its last axis, the empty shape staying empty (also lines 80-84, 156-160, 204-208) |
| `Operators.Operator.ReshapeOut` | pysimulators/interfaces/healpy/operators.py:52-56 | the registered `reshapeout`: the same two cases in the other direction (also lines 80-84, 156-160, 204-208) |
| `Operators.Operator.ValidateIn` | pysimulators/interfaces/healpy/operators.py:80-84 | a pixel input is never rejected; a coordinate input passes iff it is non-empty with the right trailing size, and otherwise fails with the family's `ValueError` message (also lines 204-208) |
| `Operators.Operator.ValidateOut` | pysimulators/interfaces/healpy/operators.py:52-56 | a pixel output is never rejected; a coordinate output passes iff it is non-empty with the right trailing size, and otherwise fails with the family's `ValueError` message (also lines 156-160) |
| `Operators.Inverse` | pysimulators/interfaces/healpy/operators.py:57-58 | the `'I'` rule builds the sibling of the other direction with the same `nside`, `nest` and (spherical) convention (also lines 85-86, 161-163, 209-211) |
| `Operators.InverseInvolutive` | pysimulators/interfaces/healpy/operators.py:57-86 | taking the inverse twice gives back the original `nside`, `nest` and convention, that is, the original operator as modelled |
| `Operators.InverseSwapsShapes` | pysimulators/interfaces/healpy/operators.py:52-84 | the inverse registers as `reshapein`/`validatein` what the operator registers as `reshapeout`/`validateout`, and vice versa (also lines 156-160, 204-208) |
| `Operators.ShapesConsistent` | pysimulators/interfaces/healpy/operators.py:52-56 | an operator's output shape passes its output validator, and `reshapeout` undoes `reshapein` on accepted shapes |
| `Operators.NewHealpix2Spherical` | pysimulators/interfaces/healpy/operators.py:100-112 | the constructor fails exactly as the resolver does, before storing anything; on success it stores `nside`, `nest` and the normalised convention |
| `Operators.NewSpherical2Healpix` | pysimulators/interfaces/healpy/operators.py:204-208 | the same for `Spherical2HealpixOperator` |
| `Operators.SphericalRuleRebuilds` | pysimulators/interfaces/healpy/operators.py:161-163 | the inverse rule's constructor call on the stored convention succeeds and yields `Inverse(op)` (also lines 209-211) |
| `Operators.SphericalConstructorsAgree` | pysimulators/interfaces/healpy/operators.py:100-112 | a convention builds both spherical siblings or neither, with the same error, and the two built are each other's inverse |
| `SlotMapping.ZenithSlot` | pysimulators/interfaces/healpy/operators.py:168-171 | the view `o1` / `i1` is slot 1 exactly for the azimuth-first conventions, slot 0 otherwise (also lines 215-218) |
| `SlotMapping.AzimuthSlot` | pysimulators/interfaces/healpy/operators.py:168-171 | the view `o2` / `i2` is the other slot: slot 0 exactly for the azimuth-first conventions (also lines 215-218) |
| `SlotMapping.Encode` | pysimulators/interfaces/healpy/operators.py:168-174 | the forward post-processing: the azimuth slot holds the kernel's azimuth; the zenith slot holds the zenith, or `pi/2` minus it for elevation conventions |
| `SlotMapping.Decode` | pysimulators/interfaces/healpy/operators.py:215-220 | the inverse's pre-processing yields the one pair whose forward encoding is the given slots, so the forward's post-processing undoes it |
| `SlotMapping.EncodeByConvention` | pysimulators/interfaces/healpy/operators.py:168-174 | the two output slots for each of the four conventions |
| `SlotMapping.DecodeEncode` | pysimulators/interfaces/healpy/operators.py:168-220 | the inverse's pre-processing returns exactly the kernel's (zenith, azimuth) pair for every convention |
| `SlotMapping.ConventionSymmetry` | pysimulators/interfaces/healpy/operators.py:168-174 | elevation conventions are their zenith twins with `pi/2 - zenith`, and azimuth-first ones their twins with slots exchanged |
| `Transforms.Truncate` | pysimulators/interfaces/healpy/operators.py:61 | `astype(int)` rounds toward zero |
| `Transforms.TruncateInteger` | pysimulators/interfaces/healpy/operators.py:166 | an integral pixel value survives `astype(int)` |
| `Transforms.TruncateAll` | pysimulators/interfaces/healpy/operators.py:61 | the converted copy truncates every entry |
| `Transforms.Healpix2CartesianDirect` | pysimulators/interfaces/healpy/operators.py:60-63 | row i of the output holds the `pix2vec` vector (ring or nested per `nest`) of pixel `int(input[i])` |
| `Transforms.Cartesian2HealpixDirect` | pysimulators/interfaces/healpy/operators.py:88-90 | entry i of the output is `vec2pix` of row i of the input |
| `Transforms.Healpix2SphericalDirect` | pysimulators/interfaces/healpy/operators.py:165-174 | row i of the output is the convention's encoding of `pix2ang` of pixel `int(input[i])`, the in-place elevation step included |
| `Transforms.WriteAngles` | pysimulators/interfaces/healpy/operators.py:172 | the kernel call leaves each pixel's zenith in view `o1` and its azimuth in view `o2` |
| `Transforms.SubtractColumnFrom` | pysimulators/interfaces/healpy/operators.py:174 | `np.subtract(0.5 * pi, o1, o1)` replaces exactly column `o1` by `pi/2` minus it, in place |
| `Transforms.Spherical2HealpixDirect` | pysimulators/interfaces/healpy/operators.py:213-221 | entry i of the output is `ang2pix` of the decoded pair of row i |
| `Transforms.SphericalRoundTrip` | pysimulators/interfaces/healpy/operators.py:165-221 | pixels through the forward and inverse spherical operators reach `ang2pix` with exactly the `pix2ang` pair, so they come back when the kernels invert |
| `Transforms.CartesianRoundTrip` | pysimulators/interfaces/healpy/operators.py:60-90 | the same for the cartesian pair |
| `Smoothing.GaussianConvolution.ShapeIn` | pysimulators/interfaces/healpy/operators.py:238 | the input shape is a single axis of `12 * nside**2` pixels, a multiple of 12 and at least 12 for a non-zero `nside` |
| `Smoothing.NewGaussianConvolution` | pysimulators/interfaces/healpy/operators.py:232-246 | input shape `(12 * nside**2,)`; all eight smoothing parameters stored unchanged, with the source's defaults |
| `Smoothing.ShapeInNside4` | pysimulators/interfaces/healpy/operators.py:238 | for `nside = 4` the input shape is `(192,)` |
| `Smoothing.Direct` | pysimulators/interfaces/healpy/operators.py:248-252 | the whole output becomes the smoothing of the input as it was before the call |
| `Smoothing.InPlaceMatchesSeparate` | pysimulators/interfaces/healpy/operators.py:224-252 | smoothing in place gives the same map as smoothing into a separate buffer |

## Left out

- The eight healpy pixel kernels (`_pix2vec_*`, `_vec2pix_*`, `_pix2ang_*`, `_ang2pix_*`) are foreign code: they are function parameters, each taken to be a deterministic function of `nside` and one pixel (or one coordinate tuple), so entry i of an output depends only on entry i of the input. Nothing else is assumed about them except where a lemma states it as a hypothesis (`AngleKernelsInvert`, `VectorKernelsInvert`).
- `hp.smoothing` is foreign code too: it is a function parameter taken to be a deterministic function of the whole map and the keyword bundle (a convolution mixes pixels). The only thing assumed about it is the length of its result (see the `Smoothing.Direct` line).
- The pyoperators framework is external: `Operator.__init__`, the mechanics of `set_rule`, and the `@real`, `@inplace` and `@symmetric` tags are not modelled. Only the parameters the rules capture and the shape functions the constructors register are. The framework's guarantee that `output` has the shape `reshapein` computes appears as a `requires` on the buffer lengths.
- Buffers have their leading axes flattened into one (n entries, or n rows of 3 or 2); numpy broadcasting is not modelled.
- `Smoothing.Direct`: requires the smoothed map to have the output's length, because the broadcasting of `output[...] = ...` is not modelled.
- Floating point is not modelled: angles are exact reals, `pi(dtype)` is a fixed constant whose value no proof uses, and the rounding of `pi/2 - x` is ignored.
- `lower()` is modelled on the letters A-Z only. This does not change which arguments are accepted: the only other characters Python lowers to ASCII are the Kelvin sign (to `k`) and the dotted capital I (to `i` plus a combining dot), and neither can produce one of the four conventions.
- The exact text of the error messages is not modelled: `strenum`, which formats the list of conventions, is not part of this model. The errors carry the quoted argument and the list itself.
- The `int(nside)` and `bool(nest)` conversions of arbitrary Python objects are not modelled: the model takes an `int` and a `bool`. The `dtype` and `**keywords` pass-through arguments are also left out.
- `Operators.InverseInvolutive`: the `'I'` rules forward only `nside`, `nest` and, for the spherical pair, `convention`, so any `dtype` or other keyword the operator was built with is reset to its default in the inverse (an operator of dtype `float32` gets an inverse of dtype `float`, whose `direct` uses a different `0.5 * pi(dtype)`). The involution is proved for those three parameters only; for an operator built with non-default keywords the source's inverse of the inverse is not the original.
- The cartesian constructors store only `nside` and `nest`; once these are an `int` and a `bool` they cannot fail, so they are the datatype constructors themselves. The `int(nside)` conversion itself can raise, and that is not modelled (see the `int(nside)` line above).
- That converting arbitrary angles to a pixel and back yields that pixel's centre is a property of the kernels alone and is not modelled.
- Concurrency is not modelled, since the operators hold no mutable state.
- `test/test_datautils.py` and `benchmark/intersection_polygons.py` are not part of this model. The first tests floating-point utilities outside the operators module, and the second is a timing harness around a Fortran routine.
