/** `HealpixConvolutionGaussianOperator`: a full-sky map is smoothed by a
    Gaussian kernel. The operator fixes its input size and stores the
    keyword parameters of `hp.smoothing` unchanged; the smoothing itself
    is a function this model receives as a parameter. */
module Smoothing {
  import opened Wrappers
  import opened Shapes
  import opened Geometry

  /** The keywords passed through to `hp.smoothing` (`None` where the
      source's default is `None`). */
  datatype SmoothingConfig = SmoothingConfig(
    fwhm: Option<real>,
    sigma: Option<real>,
    iter: int,
    lmax: Option<int>,
    mmax: Option<int>,
    useWeights: bool,
    regression: bool,
    datapath: Option<string>)

  datatype GaussianConvolution = GaussianConvolution(nside: int, config: SmoothingConfig)
  {
    /** `shapein=12 * nside**2`: one axis holding every pixel of the map. */
    function ShapeIn(): (s: Shape)
      ensures |s| == 1 && s[0] == 12 * nside * nside
      ensures s[0] % 12 == 0 && (nside != 0 ==> s[0] >= 12)
    {
      [PixelCount(nside)]
    }
  }

  /** The constructor, with the source's defaults. */
  function NewGaussianConvolution(
    nside: int, fwhm: Option<real> := None, sigma: Option<real> := None, iter: int := 3,
    lmax: Option<int> := None, mmax: Option<int> := None, useWeights: bool := false,
    regression: bool := true, datapath: Option<string> := None)
    : (op: GaussianConvolution)
    ensures op.nside == nside
    ensures op.ShapeIn() == [12 * nside * nside]
    ensures op.config.fwhm == fwhm && op.config.sigma == sigma && op.config.iter == iter
    ensures op.config.lmax == lmax && op.config.mmax == mmax
    ensures op.config.useWeights == useWeights && op.config.regression == regression
    ensures op.config.datapath == datapath
  {
    GaussianConvolution(nside, SmoothingConfig(fwhm, sigma, iter, lmax, mmax, useWeights, regression, datapath))
  }

  /** For `nside = 4` the operator takes maps of exactly 192 pixels. */
  lemma ShapeInNside4()
    ensures NewGaussianConvolution(4).ShapeIn() == [192]
    ensures NewGaussianConvolution(4).config.iter == 3
    ensures NewGaussianConvolution(4).config.regression && !NewGaussianConvolution(4).config.useWeights
  {
  }

  /** `direct`: `output[...] = hp.smoothing(input, ...)`. The smoothed map is
      computed from the whole input before any of the output is written, so
      the call is correct when `output` is `input` (the operator is
      declared in-place). */
  method Direct(op: GaussianConvolution, smooth: (seq<real>, SmoothingConfig) -> seq<real>,
                input: array<real>, output: array<real>)
    requires |smooth(input[..], op.config)| == output.Length
    modifies output
    ensures output[..] == smooth(old(input[..]), op.config)
  {
    var smoothed := smooth(input[..], op.config);
    forall i | 0 <= i < output.Length {
      output[i] := smoothed[i];
    }
  }

  /** Smoothing in place gives the same map as smoothing into a separate
      buffer that starts with the same content. */
  method InPlaceMatchesSeparate(op: GaussianConvolution, smooth: (seq<real>, SmoothingConfig) -> seq<real>,
                                shared: array<real>, input: array<real>, output: array<real>)
    requires input != shared && output != shared
    requires input[..] == shared[..]
    requires |smooth(shared[..], op.config)| == shared.Length == output.Length
    modifies shared, output
    ensures shared[..] == output[..]
  {
    Direct(op, smooth, shared, shared);
    Direct(op, smooth, input, output);
  }
}
