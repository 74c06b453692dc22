# nvdiffrast PyTorch op front end, modelled in Dafny

nvdiffrast is a differentiable rasterizer. Its PyTorch front end
(`nvdiffrast/torch/ops.py`) exposes four operations: `rasterize`,
`interpolate`, `texture` and `antialias`. It also has two constructors of
reusable handles: `texture_construct_mip` and `antialias_construct_topology_hash`.
Finally there is the OpenGL context object `RasterizeGLContext`. All numerical work
happens in a native CUDA/OpenGL plugin. What the Python file itself decides is
modelled here:

- how options are checked and resolved;
- which native entry point and which autograd function is chosen;
- what each autograd `forward` saves for its `backward`;
- which slots of each backward gradient tuple are filled.

Modelling choices:

- **Plugin calls are uninterpreted** (`Plugin.Call`). A plugin result is the term
  `Output(call, i)`, so two results are equal exactly when they come from the same
  call on equal arguments. Handles made by the plugin (GL state wrapper, mipmap
  stack, topology hash, antialiasing work buffer) are such terms too.
- **Strings stay strings where the source takes strings.** `filter_mode`,
  `boundary_mode` and the context `mode` are `string`, so unknown names reach the
  same `KeyError` or assertion as in the source. The resolved modes are the closed
  enumerations `Texture.FilterMode` and `Texture.BoundaryMode`, with their integer
  codes. Python's `'mipmap' in filter_mode` is `Substrings.Contains`.
- **Exceptions are values.** Each wrapper returns `Result`. `AssertionError(check)`
  names the `assert` that failed; `KeyError(name)` is a failed table lookup.
- **The autograd context is an explicit saved-state record.** Each forward returns
  its outputs together with a `…Saved` value. The matching backward is a function of
  that value and of the incoming gradients. A backward returns one `Option` per
  forward argument: `None` where PyTorch receives `None`.
- **`RasterizeGLContext` is a class.** Its `outputDb`, `mode` and native wrapper
  handle are constant fields. `wrapperCalls` records the `set_context` /
  `release_context` calls that actually reach the native wrapper.

Three behaviours of the code are easy to miss:

- The code checks for `uv_da` before it applies the `max_mip_level == 0` downgrade.
  A mipmap filter requested at level 0 without `uv_da` is therefore still rejected
  (`Texture.TextureDispatchMatchesReference`, `Texture.Acceptable`).
- The code's check for `uv_da` is a substring test. Any unknown name containing
  `mipmap` given without `uv_da` therefore fails that assertion, not the table lookup
  (`Texture.MipmapNameWithoutUvDa`).
- The Python layer does not track whether a manual-mode context is bound. Calling
  `rasterize` on an unbound manual context fails inside the native wrapper, which
  is not part of this model.

## Model

| member | source | states |
|---|---|---|
| `Substrings.Contains` | nvdiffrast/torch/ops.py:409 | Python's `p in s`: true iff `p` occurs at some index of `s` (proved from the recursive search) |
| `GLContext.CheckContextArgs` | nvdiffrast/torch/ops.py:138-139 | construction is accepted iff `output_db` is a bool and `mode` is 'automatic' or 'manual'; the output_db check fails first |
| `GLContext.StateWrapperFor` | nvdiffrast/torch/ops.py:142 | the native state wrapper gets `output_db` and the flag "mode is automatic" |
| `GLContext.RasterizeGLContext.constructor` | nvdiffrast/torch/ops.py:140-142 | a valid context keeps the given `output_db` and `mode` and has made no wrapper calls |
| `GLContext.RasterizeGLContext.Create` | nvdiffrast/torch/ops.py:124-142 | `RasterizeGLContext(output_db, mode)`: a fresh context with those settings, or the failed assertion |
| `GLContext.RasterizeGLContext.SetContext` | nvdiffrast/torch/ops.py:144-149 | on a valid context: succeeds iff mode is 'manual' and fails with the manual-mode assertion iff it is 'automatic'; only on success is the call forwarded to the wrapper; configuration unchanged (constant fields) |
| `GLContext.RasterizeGLContext.ReleaseContext` | nvdiffrast/torch/ops.py:151-156 | on a valid context: succeeds iff mode is 'manual' and fails with the manual-mode assertion iff it is 'automatic'; only on success is the call forwarded to the wrapper; configuration unchanged |
| `GLContext.DefaultContext` | nvdiffrast/torch/ops.py:124 | `RasterizeGLContext()` with the defaults is a valid automatic-mode context with derivative output, whose wrapper was told exactly that |
| `GLContext.AutomaticModeRejectsManualCalls` | nvdiffrast/torch/ops.py:144-156 | in automatic mode both set and release are rejected and nothing reaches the wrapper |
| `GLContext.ManualModeForwardsCalls` | nvdiffrast/torch/ops.py:144-156 | in manual mode set then release reach the wrapper in that order |
| `Rasterize.RasterizeDispatch` | nvdiffrast/torch/ops.py:210-223 | effective `grad_db` is `grad_db and glctx.output_db`; a missing `ranges` becomes an empty 0x2 host tensor; a non-bool `grad_db` is rejected |
| `Rasterize.RasterizeForward` | nvdiffrast/torch/ops.py:164-168 | outputs are the native rasterizer's two results; saved are pos, tri, the main output and the effective flag |
| `Rasterize.RasterizeBackward` | nvdiffrast/torch/ops.py:171-177 | only the `pos` slot carries a gradient; it comes from the derivative-gradient kernel iff the saved flag is set |
| `Rasterize.RasterizeGradientPath` | nvdiffrast/torch/ops.py:164-223 | end to end: the derivative-gradient path runs iff `grad_db` and the context's `output_db`; backward uses forward's pos, tri and output |
| `Rasterize.NoDerivativeContextNeverUsesDbPath` | nvdiffrast/torch/ops.py:197-212 | a context without derivative output downgrades every `grad_db` request |
| `Rasterize.DefaultRasterizeArguments` | nvdiffrast/torch/ops.py:180 | with `ranges` and `grad_db` at their defaults the call succeeds, uses the empty ranges tensor, and takes the derivative-gradient path iff the context outputs derivatives |
| `Interpolate.SelectDiffAttrs` | nvdiffrast/torch/ops.py:291-299 | None gives (0, []) and no derivatives; 'all' gives (1, []); a rank-1 list gives (0, list), requested iff non-empty; other ranks and strings are rejected |
| `Interpolate.InterpolateDispatch` | nvdiffrast/torch/ops.py:290-310 | derivative variant iff derivatives are requested; then `rast_db` must be given and is passed on with the selection |
| `Interpolate.InterpolateDaForward` | nvdiffrast/torch/ops.py:232-236 | outputs are the native call's two results; saved are attr, rast, tri, rast_db and the selection |
| `Interpolate.InterpolateDaBackward` | nvdiffrast/torch/ops.py:239-243 | gradients exactly in the attr, rast and rast_db slots, from one native call on the saved state |
| `Interpolate.InterpolatePlainForward` | nvdiffrast/torch/ops.py:248-251 | outputs are the native call's two results; saved are attr, rast, tri |
| `Interpolate.InterpolatePlainBackward` | nvdiffrast/torch/ops.py:254-257 | gradients exactly in the attr and rast slots; the derivative-output gradient is ignored |
| `Interpolate.InterpolateGradientInputs` | nvdiffrast/torch/ops.py:230-310 | end to end: attr and rast get gradients, rast_db iff derivatives were requested, tri never |
| `Interpolate.AllAndEmptySelections` | nvdiffrast/torch/ops.py:291-310 | 'all' selects the derivative variant with flag 1 and an empty list; None or [] selects the plain variant without needing rast_db |
| `Texture.ParseFilterMode` | nvdiffrast/torch/ops.py:417-418 | the lookup finds a filter exactly under its own name, otherwise it fails |
| `Texture.ParseBoundaryMode` | nvdiffrast/torch/ops.py:421-422 | the lookup finds a boundary mode exactly under its own name, otherwise it fails |
| `Texture.EnumTables` | nvdiffrast/torch/ops.py:417-422 | both tables are injective into 0..3 and every mode is found under its name |
| `Texture.MipmapInName` | nvdiffrast/torch/ops.py:425-432 | on valid names, the substring test for 'mipmap' agrees with the explicit list of mipmap modes |
| `Texture.ResolveMaxMipLevel` | nvdiffrast/torch/ops.py:401-405 | None becomes -1 (unlimited); an explicit level is kept and must be >= 0 |
| `Texture.ConstructMip` | nvdiffrast/torch/ops.py:454-461 | `texture_construct_mip`: rejects a non-bool cube_mode or a negative level, else the native stack for the resolved level |
| `Texture.ResolveAuto` | nvdiffrast/torch/ops.py:397-398 | 'auto' becomes 'linear-mipmap-linear' with uv_da and 'linear' without; other names pass unchanged |
| `Texture.TextureDispatch` | nvdiffrast/torch/ops.py:396-435 | a negative level fails first, before any name is looked at; on success the enums match the chosen modes and the mip variant runs iff the filter is a mipmap filter, with the given uv_da and the given or internally built stack (the failures after the level check are `Texture.TextureDispatchFailureOrder`) |
| `Texture.LevelZeroDowngrade` | nvdiffrast/torch/ops.py:412-414 | at level 0 a mipmap filter name becomes 'linear'; other known names keep their mode; an unknown name is passed on unchanged to the lookup |
| `Texture.BuildTextureCall` | nvdiffrast/torch/ops.py:424-435 | once both names are resolved: the mipmapped function runs iff the filter is a mipmap filter, with uv_da and the given stack or one built at the resolved level and cube setting; the enums are those of the resolved modes |
| `Texture.TextureDispatchFailureOrder` | nvdiffrast/torch/ops.py:407-422 | after the level check the failures come in the code's order: a name containing 'mipmap' without uv_da fails the uv_da assertion; otherwise an unknown (auto-resolved) filter name raises KeyError on that name; otherwise an unknown boundary name raises KeyError on it |
| `Texture.TextureDispatchMatchesReference` | nvdiffrast/torch/ops.py:396-422 | succeeds iff names, level and uv_da are acceptable, and then uses the reference effective filter (auto resolution, level-0 downgrade) |
| `Texture.UnknownFilterRejected` | nvdiffrast/torch/ops.py:409-418 | a filter name that is neither 'auto' nor in the table always fails (uv_da assertion or KeyError) |
| `Texture.KnownFilterMatchesReference` | nvdiffrast/torch/ops.py:396-435 | for a known filter request: success iff the boundary name is known and a requested mipmap filter comes with uv_da; the filter used is the reference effective one |
| `Texture.AcceptedFilterIsEffective` | nvdiffrast/torch/ops.py:412-435 | past the uv_da assertion only the boundary lookup can fail, and the filter used is the effective one |
| `Texture.MipmapNameWithoutUvDa` | nvdiffrast/torch/ops.py:407-410 | any filter name containing 'mipmap' without uv_da fails the uv_da assertion |
| `Texture.AutoFilterMode` | nvdiffrast/torch/ops.py:396-414 | with 'auto' the filter is linear-mipmap-linear iff uv_da is given and the level is not 0, else linear |
| `Texture.DefaultTextureArguments` | nvdiffrast/torch/ops.py:357-435 | `texture(tex, uv)` with the defaults ('auto', 'wrap', no level limit) is bilinear with wrapping and no stack; adding only uv_da gives trilinear on the stack `texture_construct_mip(tex)` with its defaults (no level limit, `cube_mode=False`) would build |
| `Texture.LevelZeroDisablesMipmaps` | nvdiffrast/torch/ops.py:412-414 | at max_mip_level 0 both mipmap filters become linear and the plain function runs without a stack |
| `Texture.PrebuiltMipMatchesInternal` | nvdiffrast/torch/ops.py:424-429 | a stack prebuilt with the same level and cube setting gives the same call as letting the wrapper build it |
| `Texture.TextureMipForward` | nvdiffrast/torch/ops.py:319-323 | output is the native mip sampler's result; saved are tex, uv, uv_da, the filter, the stack and the enums |
| `Texture.TextureMipBackward` | nvdiffrast/torch/ops.py:326-334 | linear-mipmap-linear fills tex, uv and uv_da; otherwise tex and uv; all other slots None |
| `Texture.TexturePlainForward` | nvdiffrast/torch/ops.py:339-343 | output is the native sampler's result; saved are tex, uv, the filter and the enums |
| `Texture.TexturePlainBackward` | nvdiffrast/torch/ops.py:346-354 | linear fills tex and uv; otherwise only tex; all other slots None |
| `Texture.CallGradientInputs` | nvdiffrast/torch/ops.py:317-354 | for any call whose variant matches its filter, backward fills exactly the gradients of the inputs that filter differentiates |
| `Texture.TextureGradientInputs` | nvdiffrast/torch/ops.py:317-354 | end to end: the inputs receiving gradients are exactly those the effective filter differentiates (tex; uv unless nearest; uv_da only for linear-mipmap-linear) |
| `Antialias.ConstructTopologyHash` | nvdiffrast/torch/ops.py:517-532 | the hash handle is the native topology hash of the given triangles |
| `Antialias.AntialiasDispatch` | nvdiffrast/torch/ops.py:504-514 | a given hash is used as is; a missing one is built from `tri`; the other arguments pass through |
| `Antialias.AntialiasForward` | nvdiffrast/torch/ops.py:469-473 | output is the native result; saved are the inputs, the boost and the native work buffer |
| `Antialias.AntialiasBackward` | nvdiffrast/torch/ops.py:476-482 | gradients only for color and pos; pos is scaled by the boost iff it differs from 1.0; color is never scaled |
| `Antialias.PrebuiltHashMatchesInternal` | nvdiffrast/torch/ops.py:507-511 | a hash prebuilt from the same triangles gives the same call as letting the wrapper build it |
| `Antialias.AntialiasRoundTrip` | nvdiffrast/torch/ops.py:467-514 | backward consumes the work buffer of the matching forward; with the default boost the pos gradient is unscaled |

## Left out

- Plugin compilation and loading (`_get_plugin`, nvdiffrast/torch/ops.py:19-88). It is filesystem, environment and compiler discovery plus a process-wide cache.
- `get_log_level` / `set_log_level` (nvdiffrast/torch/ops.py:94-117). They pass straight through to the plugin.
- Every native kernel: rasterization, interpolation, texture sampling and mip construction, antialiasing and topology hashing. Their code is not part of this model. They are GPU floating-point numerics and appear only as uninterpreted `Plugin.Call` terms.
- OpenGL context binding, thread affinity and the context's destruction inside the native wrapper. Only the Python-level mode check is modelled. Rasterizing with an unbound manual-mode context is not modelled, since that failure is raised in native code.
- The `isinstance` checks on required tensors, on a passed `mip` stack and on a passed `topology_hash`, and the dtype, contiguity and device residency of tensors. Arguments have those types by construction. Optional tensors are `Option<Tensor>`, so "must be a tensor" becomes "must be given".
- PyTorch's autograd tape. It is replaced by the explicit saved-state records.
- `int(max_mip_level)` on non-integers. The level is taken as an integer.
- The element conversion of `diff_attrs` to int32 (truncation of floats, range overflow), and `diff_attrs` passed as a numpy array rather than a list.
- `tuple(resolution)`. The resolution is a sequence of integers.
- The numeric value of `g_pos * pos_gradient_boost`. It is the term `Scaled(g_pos, boost)`, so the model does not say that scaling by 1.0 would be numerically the identity.
- Object identity of native handles. Handles are values, so two contexts constructed with equal settings hold the same `cppWrapper` term, although each construction creates its own GL context (nvdiffrast/torch/ops.py:127-129). Likewise a prebuilt mipmap stack or topology hash counts as matching the internally built one only while the tensors it was built from are unchanged; the docstrings (nvdiffrast/torch/ops.py:441 and 520) leave that to the caller, and `Texture.PrebuiltMipMatchesInternal` and `Antialias.PrebuiltHashMatchesInternal` assume it.
- `Interpolate.SelectDiffAttrs`: for a string other than 'all' it states only that the call is rejected. It does not give the exception class. numpy raises either a ValueError or a 0-d array that the rank assertion rejects, depending on the string; the model uses one `ConversionError`.
