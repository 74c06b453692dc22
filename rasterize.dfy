/** rasterize(): argument sanitisation, and the forward/backward pair of the
    rasterize autograd function with its saved state made explicit. */
module Rasterize {
  import opened Wrappers
  import opened Plugin
  import opened GLContext

  /** The arguments handed to the autograd function, in its order:
      (glctx, pos, tri, resolution, ranges, grad_db). */
  datatype RasterizeCall = RasterizeCall(glctx: RasterizeGLContext, pos: Tensor, tri: Tensor,
                                         resolution: seq<int>, ranges: Tensor, gradDb: bool)

  /** What forward keeps for backward: the saved tensors and the saved flag. */
  datatype RasterizeSaved = RasterizeSaved(pos: Tensor, tri: Tensor, out: Tensor, gradDb: bool)

  /** The `ranges` tensor used when none is given: empty, shape 0x2, in host memory. */
  const EmptyRanges: Tensor := HostEmpty(0, 2)

  /** Default of the `grad_db` argument. */
  const DefaultGradDb: Flag := Bool(true)

  /** `rasterize(glctx, pos, tri, resolution, ranges, grad_db)` up to the call of the autograd function. */
  function RasterizeDispatch(glctx: RasterizeGLContext, pos: Tensor, tri: Tensor, resolution: seq<int>,
                             ranges: Option<Tensor>, gradDb: Flag): (r: Result<RasterizeCall>)
    requires glctx.Valid()
    ensures r.Success? <==> gradDb.Bool?
    ensures r.Failure? ==> r.error == AssertionError(GradDbIsBool)
    ensures r.Success? ==> r.value.gradDb == (gradDb.b && glctx.outputDb)
    ensures r.Success? && ranges.None? ==> r.value.ranges == HostEmpty(0, 2)
    ensures r.Success? && ranges.Some? ==> r.value.ranges == ranges.value
    ensures r.Success? ==> r.value.glctx == glctx && r.value.pos == pos && r.value.tri == tri
                           && r.value.resolution == resolution
  {
    if gradDb.NotBool? then Failure(AssertionError(GradDbIsBool))
    else
      var effectiveGradDb := gradDb.b && glctx.outputDb;
      var ranges' := if ranges.None? then EmptyRanges else ranges.value;
      Success(RasterizeCall(glctx, pos, tri, resolution, ranges', effectiveGradDb))
  }

  /** Forward: one native rasterization; saves pos, tri, the main output and the flag. */
  function RasterizeForward(c: RasterizeCall): (r: (Tensor, Tensor, RasterizeSaved))
    ensures var k := RasterizeFwd(c.glctx.cppWrapper, c.pos, c.tri, c.resolution, c.ranges);
            r.0 == Out(k, 0) && r.1 == Out(k, 1)
    ensures r.2.pos == c.pos && r.2.tri == c.tri && r.2.out == r.0 && r.2.gradDb == c.gradDb
  {
    var k := RasterizeFwd(c.glctx.cppWrapper, c.pos, c.tri, c.resolution, c.ranges);
    var out, outDb := Out(k, 0), Out(k, 1);
    (out, outDb, RasterizeSaved(c.pos, c.tri, out, c.gradDb))
  }

  /** Backward: only `pos` receives a gradient; the kernel with the
      derivative-gradient input runs exactly when the saved flag is set. */
  function RasterizeBackward(s: RasterizeSaved, dy: Tensor, ddb: Tensor): (g: Grads)
    ensures |g| == 6 && Present(g, {1})
    ensures s.gradDb ==> g[1] == Some(Out(RasterizeGradDb(s.pos, s.tri, s.out, dy, ddb), 0))
    ensures !s.gradDb ==> g[1] == Some(Out(RasterizeGrad(s.pos, s.tri, s.out, dy), 0))
  {
    var gPos := if s.gradDb then Out(RasterizeGradDb(s.pos, s.tri, s.out, dy, ddb), 0)
                else Out(RasterizeGrad(s.pos, s.tri, s.out, dy), 0);
    [None, Some(gPos), None, None, None, None]
  }

  /** From the wrapper to the backward pass: the derivative-gradient path is taken
      iff the caller asked for it and the context outputs derivatives; the gradient
      is computed from the very tensors the forward pass consumed and produced. */
  lemma RasterizeGradientPath(glctx: RasterizeGLContext, pos: Tensor, tri: Tensor, resolution: seq<int>,
                              ranges: Option<Tensor>, gradDb: bool, dy: Tensor, ddb: Tensor)
    requires glctx.Valid()
    ensures RasterizeDispatch(glctx, pos, tri, resolution, ranges, Bool(gradDb)).Success?
    ensures var c := RasterizeDispatch(glctx, pos, tri, resolution, ranges, Bool(gradDb)).value;
            var (out, _, s) := RasterizeForward(c);
            var g := RasterizeBackward(s, dy, ddb);
            && Present(g, {1})
            && out == Out(RasterizeFwd(StateWrapperFor(glctx.outputDb, glctx.mode), pos, tri, resolution,
                                       if ranges.None? then EmptyRanges else ranges.value), 0)
            && (g[1].value.call.RasterizeGradDb? <==> gradDb && glctx.outputDb)
            && g[1].value.call.pos == pos && g[1].value.call.tri == tri && g[1].value.call.out == out
  {
  }

  /** A context built without derivative output downgrades every grad_db request. */
  lemma NoDerivativeContextNeverUsesDbPath(glctx: RasterizeGLContext, pos: Tensor, tri: Tensor,
                                           resolution: seq<int>, ranges: Option<Tensor>, gradDb: Flag,
                                           dy: Tensor, ddb: Tensor)
    requires glctx.Valid()
    requires !glctx.outputDb
    requires gradDb.Bool?
    ensures var c := RasterizeDispatch(glctx, pos, tri, resolution, ranges, gradDb).value;
            RasterizeBackward(RasterizeForward(c).2, dy, ddb)[1].value.call.RasterizeGrad?
  {
  }

  /** `rasterize(glctx, pos, tri, resolution)` with `ranges` and `grad_db` left at their
      defaults: the empty host-side ranges tensor is used, and the derivative-gradient
      path is taken exactly when the context outputs derivatives. */
  lemma DefaultRasterizeArguments(glctx: RasterizeGLContext, pos: Tensor, tri: Tensor, resolution: seq<int>)
    requires glctx.Valid()
    ensures var r := RasterizeDispatch(glctx, pos, tri, resolution, None, DefaultGradDb);
            r.Success? && r.value.ranges == HostEmpty(0, 2) && (r.value.gradDb <==> glctx.outputDb)
  {
  }
}
