/** The native plugin as uninterpreted calls. The wrappers hand values to the
    plugin and pass its results on without inspecting them, so a result is
    modelled as the term naming the call that produced it: two results are
    equal exactly when they come from the same call on equal arguments. */
module Plugin {
  import opened Wrappers

  /** A tensor, or an opaque handle made by the plugin (GL state, mipmap stack,
      topology hash, antialiasing work buffer). */
  datatype Tensor =
    | Input(id: nat)                     // a tensor supplied by the caller
    | HostEmpty(rows: nat, cols: nat)    // torch.empty((rows, cols), dtype=int32, device='cpu')
    | Output(call: Call, index: nat)     // result number `index` of a plugin call
    | Scaled(t: Tensor, factor: real)    // t * factor, computed on the host side

  /** One plugin entry point applied to its arguments, in the order the wrappers pass them. */
  datatype Call =
    | RasterizeGLStateWrapper(outputDb: bool, automatic: bool)
    | RasterizeFwd(glState: Tensor, pos: Tensor, tri: Tensor, resolution: seq<int>, ranges: Tensor)
    | RasterizeGrad(pos: Tensor, tri: Tensor, out: Tensor, dy: Tensor)
    | RasterizeGradDb(pos: Tensor, tri: Tensor, out: Tensor, dy: Tensor, ddb: Tensor)
    | InterpolateFwd(attr: Tensor, rast: Tensor, tri: Tensor)
    | InterpolateFwdDa(attr: Tensor, rast: Tensor, tri: Tensor, rastDb: Tensor,
                       diffAttrsAll: int, diffAttrsList: seq<int>)
    | InterpolateGrad(attr: Tensor, rast: Tensor, tri: Tensor, dy: Tensor)
    | InterpolateGradDa(attr: Tensor, rast: Tensor, tri: Tensor, dy: Tensor, rastDb: Tensor,
                        dda: Tensor, diffAttrsAll: int, diffAttrsList: seq<int>)
    | TextureFwd(tex: Tensor, uv: Tensor, filterModeEnum: int, boundaryModeEnum: int)
    | TextureFwdMip(tex: Tensor, uv: Tensor, uvDa: Tensor, mip: Tensor,
                    filterModeEnum: int, boundaryModeEnum: int)
    | TextureGradNearest(tex: Tensor, uv: Tensor, dy: Tensor, filterModeEnum: int, boundaryModeEnum: int)
    | TextureGradLinear(tex: Tensor, uv: Tensor, dy: Tensor, filterModeEnum: int, boundaryModeEnum: int)
    | TextureGradLinearMipmapNearest(tex: Tensor, uv: Tensor, dy: Tensor, uvDa: Tensor, mip: Tensor,
                                     filterModeEnum: int, boundaryModeEnum: int)
    | TextureGradLinearMipmapLinear(tex: Tensor, uv: Tensor, dy: Tensor, uvDa: Tensor, mip: Tensor,
                                    filterModeEnum: int, boundaryModeEnum: int)
    | TextureConstructMip(tex: Tensor, maxMipLevel: int, cubeMode: bool)
    | AntialiasFwd(color: Tensor, rast: Tensor, pos: Tensor, tri: Tensor, topologyHash: Tensor)
    | AntialiasGrad(color: Tensor, rast: Tensor, pos: Tensor, tri: Tensor, dy: Tensor, workBuffer: Tensor)
    | AntialiasConstructTopologyHash(tri: Tensor)

  /** How many values a call returns (the wrappers unpack exactly this many). */
  function Arity(c: Call): nat
  {
    match c
    case RasterizeFwd(_, _, _, _, _) => 2
    case InterpolateFwd(_, _, _) => 2
    case InterpolateFwdDa(_, _, _, _, _, _) => 2
    case InterpolateGrad(_, _, _, _) => 2
    case InterpolateGradDa(_, _, _, _, _, _, _, _) => 3
    case TextureGradLinear(_, _, _, _, _) => 2
    case TextureGradLinearMipmapNearest(_, _, _, _, _, _, _) => 2
    case TextureGradLinearMipmapLinear(_, _, _, _, _, _, _) => 3
    case AntialiasFwd(_, _, _, _, _) => 2
    case AntialiasGrad(_, _, _, _, _, _) => 2
    case _ => 1
  }

  /** Result number `i` of call `c`. */
  function Out(c: Call, i: nat): Tensor
    requires i < Arity(c)
  {
    Output(c, i)
  }

  /** The tuple a backward pass returns: one entry per argument of the matching
      forward pass, `None` where no gradient flows. */
  type Grads = seq<Option<Tensor>>

  /** Exactly the slots in `slots` carry a gradient. */
  predicate Present(g: Grads, slots: set<nat>)
  {
    forall i :: 0 <= i < |g| ==> (g[i].Some? <==> i in slots)
  }
}
