/** texture() and texture_construct_mip(): option resolution, the choice between
    the mipmapped and the plain autograd function, and their forward/backward pairs. */
module Texture {
  import opened Wrappers
  import opened Plugin
  import opened Substrings

  /** The four filters of the native sampler. */
  datatype FilterMode = Nearest | Linear | LinearMipmapNearest | LinearMipmapLinear
  {
    function Name(): string
    {
      match this
      case Nearest => "nearest"
      case Linear => "linear"
      case LinearMipmapNearest => "linear-mipmap-nearest"
      case LinearMipmapLinear => "linear-mipmap-linear"
    }

    /** The integer the plugin receives for this filter. */
    function Enum(): int
    {
      match this
      case Nearest => 0
      case Linear => 1
      case LinearMipmapNearest => 2
      case LinearMipmapLinear => 3
    }

    predicate IsMipmap()
    {
      this == LinearMipmapNearest || this == LinearMipmapLinear
    }
  }

  /** The four boundary modes of the native sampler. */
  datatype BoundaryMode = Cube | Wrap | Clamp | Zero
  {
    function Name(): string
    {
      match this
      case Cube => "cube"
      case Wrap => "wrap"
      case Clamp => "clamp"
      case Zero => "zero"
    }

    function Enum(): int
    {
      match this
      case Cube => 0
      case Wrap => 1
      case Clamp => 2
      case Zero => 3
    }
  }

  /** Lookup in the filter-mode table; None where the table raises KeyError. */
  function ParseFilterMode(s: string): (r: Option<FilterMode>)
    ensures r.Some? ==> r.value.Name() == s
    ensures r.None? ==> forall m: FilterMode :: m.Name() != s
  {
    if s == "nearest" then Some(Nearest)
    else if s == "linear" then Some(Linear)
    else if s == "linear-mipmap-nearest" then Some(LinearMipmapNearest)
    else if s == "linear-mipmap-linear" then Some(LinearMipmapLinear)
    else None
  }

  /** Lookup in the boundary-mode table; None where the table raises KeyError. */
  function ParseBoundaryMode(s: string): (r: Option<BoundaryMode>)
    ensures r.Some? ==> r.value.Name() == s
    ensures r.None? ==> forall b: BoundaryMode :: b.Name() != s
  {
    if s == "cube" then Some(Cube)
    else if s == "wrap" then Some(Wrap)
    else if s == "clamp" then Some(Clamp)
    else if s == "zero" then Some(Zero)
    else None
  }

  /** Both tables are injective, and the lookup finds every mode under its own name. */
  lemma EnumTables()
    ensures forall m: FilterMode :: ParseFilterMode(m.Name()) == Some(m) && 0 <= m.Enum() <= 3
    ensures forall m1: FilterMode, m2: FilterMode :: m1.Enum() == m2.Enum() ==> m1 == m2
    ensures forall b: BoundaryMode :: ParseBoundaryMode(b.Name()) == Some(b) && 0 <= b.Enum() <= 3
    ensures forall b1: BoundaryMode, b2: BoundaryMode :: b1.Enum() == b2.Enum() ==> b1 == b2
  {
  }

  /** The substring test `'mipmap' in name` agrees, on the four valid names, with
      membership in the explicit list of mipmap modes. */
  lemma MipmapInName(m: FilterMode)
    ensures Contains(m.Name(), "mipmap") <==> m.IsMipmap()
  {
    match m
    case Nearest =>
      assert forall i :: !MatchAt("nearest", "mipmap", i) by {
        forall i | 0 <= i && i + 6 <= 7 ensures !MatchAt("nearest", "mipmap", i) {
          assert "nearest"[i + 1] != "mipmap"[1];
        }
      }
    case Linear =>
      assert forall i :: !MatchAt("linear", "mipmap", i) by {
        forall i | 0 <= i && i + 6 <= 6 ensures !MatchAt("linear", "mipmap", i) {
          assert "linear"[0] != "mipmap"[0];
        }
      }
    case LinearMipmapNearest =>
      assert MatchAt("linear-mipmap-nearest", "mipmap", 7);
    case LinearMipmapLinear =>
      assert MatchAt("linear-mipmap-linear", "mipmap", 7);
  }

  /** `max_mip_level`: None means unlimited (-1); an explicit level must be >= 0. */
  function ResolveMaxMipLevel(maxMipLevel: Option<int>): (r: Result<int>)
    ensures r.Success? <==> maxMipLevel.None? || maxMipLevel.value >= 0
    ensures r.Failure? ==> r.error == AssertionError(MaxMipLevelNonNegative)
    ensures r.Success? ==> r.value >= -1 && (r.value == -1 <==> maxMipLevel.None?)
    ensures r.Success? && maxMipLevel.Some? ==> r.value == maxMipLevel.value
  {
    match maxMipLevel
    case None => Success(-1)
    case Some(level) =>
      if level >= 0 then Success(level) else Failure(AssertionError(MaxMipLevelNonNegative))
  }

  /** `texture_construct_mip(tex, max_mip_level, cube_mode)`: a mipmap stack handle. */
  function ConstructMip(tex: Tensor, maxMipLevel: Option<int>, cubeMode: Flag): (r: Result<Tensor>)
    ensures cubeMode.NotBool? ==> r == Failure(AssertionError(CubeModeIsBool))
    ensures cubeMode.Bool? ==> (r.Success? <==> ResolveMaxMipLevel(maxMipLevel).Success?)
    ensures cubeMode.Bool? && r.Failure? ==> r.error == AssertionError(MaxMipLevelNonNegative)
    ensures r.Success? ==>
              r.value == Out(TextureConstructMip(tex, ResolveMaxMipLevel(maxMipLevel).value, cubeMode.b), 0)
  {
    if cubeMode.NotBool? then Failure(AssertionError(CubeModeIsBool))
    else
      match ResolveMaxMipLevel(maxMipLevel)
      case Failure(e) => Failure(e)
      case Success(level) => Success(Out(TextureConstructMip(tex, level, cubeMode.b), 0))
  }

  /** The arguments of the chosen autograd function. */
  datatype TextureCall =
    | MipCall(filterMode: FilterMode, tex: Tensor, uv: Tensor, uvDa: Tensor, mip: Tensor,
              filterModeEnum: int, boundaryModeEnum: int)
    | PlainCall(filterMode: FilterMode, tex: Tensor, uv: Tensor, filterModeEnum: int, boundaryModeEnum: int)

  /** Defaults of `texture`'s `filter_mode` and `boundary_mode`, and of
      `texture_construct_mip`'s `cube_mode`. */
  const DefaultFilterMode: string := "auto"
  const DefaultBoundaryMode: string := "wrap"
  const DefaultCubeMode: Flag := Bool(false)

  /** `filter_mode='auto'` picks the best filter the available inputs allow. */
  function ResolveAuto(filterMode: string, hasUvDa: bool): (r: string)
    ensures filterMode != "auto" ==> r == filterMode
    ensures filterMode == "auto" && hasUvDa ==> r == LinearMipmapLinear.Name()
    ensures filterMode == "auto" && !hasUvDa ==> r == Linear.Name()
  {
    if filterMode == "auto" then (if hasUvDa then "linear-mipmap-linear" else "linear") else filterMode
  }

  /** With mipmapping limited to level 0 the plain bilinear filter gives the same
      result, so both mipmap filter names are replaced by 'linear'; any other name,
      known or not, is left for the table lookup. */
  function LevelZeroDowngrade(fm: string, level: int): (r: string)
    ensures ParseFilterMode(fm).None? ==> r == fm
    ensures ParseFilterMode(fm).Some? ==>
              var m := ParseFilterMode(fm).value;
              ParseFilterMode(r) == Some(if level == 0 && m.IsMipmap() then Linear else m)
  {
    if level == 0 && (fm == "linear-mipmap-nearest" || fm == "linear-mipmap-linear") then "linear" else fm
  }

  /** `texture(tex, uv, uv_da, mip, filter_mode, boundary_mode, max_mip_level)`
      up to the call of the autograd function, checks in the order the wrapper makes them. */
  function TextureDispatch(tex: Tensor, uv: Tensor, uvDa: Option<Tensor>, mip: Option<Tensor>,
                           filterMode: string, boundaryMode: string, maxMipLevel: Option<int>): (r: Result<TextureCall>)
    ensures ResolveMaxMipLevel(maxMipLevel).Failure? ==> r == Failure(AssertionError(MaxMipLevelNonNegative))
    ensures r.Success? ==> ResolveMaxMipLevel(maxMipLevel).Success?
    ensures r.Success? ==> r.value.tex == tex && r.value.uv == uv
    ensures r.Success? ==> r.value.filterModeEnum == r.value.filterMode.Enum()
    ensures r.Success? ==> ParseBoundaryMode(boundaryMode).Some?
                           && r.value.boundaryModeEnum == ParseBoundaryMode(boundaryMode).value.Enum()
    ensures r.Success? ==> (r.value.MipCall? <==> r.value.filterMode.IsMipmap())
    ensures r.Success? && r.value.MipCall? ==>
              && Some(r.value.uvDa) == uvDa
              && ResolveMaxMipLevel(maxMipLevel).value != 0
              && r.value.mip == (if mip.Some? then mip.value
                                 else Out(TextureConstructMip(tex, ResolveMaxMipLevel(maxMipLevel).value,
                                                              boundaryMode == "cube"), 0))
  {
    var fm := ResolveAuto(filterMode, uvDa.Some?);
    match ResolveMaxMipLevel(maxMipLevel)
    case Failure(e) => Failure(e)
    case Success(level) =>
      if Contains(fm, "mipmap") && uvDa.None? then Failure(AssertionError(UvDaIsTensor))
      else
        var fm' := LevelZeroDowngrade(fm, level);
        match ParseFilterMode(fm')
        case None => Failure(KeyError(fm'))
        case Some(f) =>
          match ParseBoundaryMode(boundaryMode)
          case None => Failure(KeyError(boundaryMode))
          case Some(b) =>
            MipmapInName(f);
            Success(BuildTextureCall(f, b, tex, uv, uvDa, mip, level, boundaryMode == "cube"))
  }

  /** The call made once both names are resolved: a filter whose name contains
      'mipmap' gets a stack (the given one, or one built now at the resolved level),
      and a name in the list of mipmap filters selects the mipmapped function. */
  function BuildTextureCall(f: FilterMode, b: BoundaryMode, tex: Tensor, uv: Tensor, uvDa: Option<Tensor>,
                            mip: Option<Tensor>, level: int, cubeMode: bool): (r: TextureCall)
    requires f.IsMipmap() ==> uvDa.Some?
    ensures r.filterMode == f && r.tex == tex && r.uv == uv
    ensures r.filterModeEnum == f.Enum() && r.boundaryModeEnum == b.Enum()
    ensures r.MipCall? <==> f.IsMipmap()
    ensures r.MipCall? ==> Some(r.uvDa) == uvDa
                           && r.mip == (if mip.Some? then mip.value else Out(TextureConstructMip(tex, level, cubeMode), 0))
  {
    var fm := f.Name();
    MipmapInName(f);
    var mip' := if Contains(fm, "mipmap") then
                  Some(if mip.Some? then mip.value else Out(TextureConstructMip(tex, level, cubeMode), 0))
                else mip;
    if fm == "linear-mipmap-linear" || fm == "linear-mipmap-nearest" then
      MipCall(f, tex, uv, uvDa.value, mip'.value, f.Enum(), b.Enum())
    else
      PlainCall(f, tex, uv, f.Enum(), b.Enum())
  }

  /** The failures of `texture` after the level check, in the order the code raises
      them: a mipmap filter name without uv_da fails the uv_da assertion; otherwise
      an unknown filter name raises KeyError on that (auto-resolved) name; otherwise
      an unknown boundary name raises KeyError on it. */
  lemma TextureDispatchFailureOrder(tex: Tensor, uv: Tensor, uvDa: Option<Tensor>, mip: Option<Tensor>,
                                    filterMode: string, boundaryMode: string, maxMipLevel: Option<int>)
    requires ResolveMaxMipLevel(maxMipLevel).Success?
    ensures var r := TextureDispatch(tex, uv, uvDa, mip, filterMode, boundaryMode, maxMipLevel);
            var fm := ResolveAuto(filterMode, uvDa.Some?);
            && (uvDa.None? && Contains(fm, "mipmap") ==> r == Failure(AssertionError(UvDaIsTensor)))
            && (!(uvDa.None? && Contains(fm, "mipmap")) && ParseFilterMode(fm).None?
                ==> r == Failure(KeyError(fm)))
            && (!(uvDa.None? && Contains(fm, "mipmap")) && ParseFilterMode(fm).Some?
                && ParseBoundaryMode(boundaryMode).None?
                ==> r == Failure(KeyError(boundaryMode)))
  {
  }

  // ---- Reference statement of the filter choice, on the closed enumeration ----

  /** The filter a caller asks for: 'auto' or one of the four filters. */
  datatype FilterRequest = Auto | Explicit(mode: FilterMode)

  function ParseFilterRequest(s: string): Option<FilterRequest>
  {
    if s == "auto" then Some(Auto)
    else match ParseFilterMode(s)
      case None => None
      case Some(m) => Some(Explicit(m))
  }

  /** The requested filter, with 'auto' resolved: the best one the inputs allow. */
  function Requested(req: FilterRequest, hasUvDa: bool): FilterMode
  {
    match req
    case Auto => if hasUvDa then LinearMipmapLinear else Linear
    case Explicit(m) => m
  }

  /** The filter actually used: a mipmap filter limited to level 0 becomes bilinear. */
  function Effective(req: FilterRequest, hasUvDa: bool, level: int): FilterMode
  {
    var m := Requested(req, hasUvDa);
    if level == 0 && m.IsMipmap() then Linear else m
  }

  /** A request is honoured iff every name is known, the level is valid and a
      mipmap filter (as requested, before the level-0 downgrade) comes with uv_da. */
  predicate Acceptable(filterMode: string, boundaryMode: string, hasUvDa: bool, maxMipLevel: Option<int>)
  {
    && ResolveMaxMipLevel(maxMipLevel).Success?
    && ParseFilterRequest(filterMode).Some?
    && ParseBoundaryMode(boundaryMode).Some?
    && (Requested(ParseFilterRequest(filterMode).value, hasUvDa).IsMipmap() ==> hasUvDa)
  }

  /** The wrapper's string-level decision logic agrees with the reference in both
      directions: it succeeds exactly on acceptable requests, and then uses the
      effective filter. */
  lemma TextureDispatchMatchesReference(tex: Tensor, uv: Tensor, uvDa: Option<Tensor>,
                                        mip: Option<Tensor>, filterMode: string,
                                        boundaryMode: string, maxMipLevel: Option<int>)
    ensures var r := TextureDispatch(tex, uv, uvDa, mip, filterMode, boundaryMode, maxMipLevel);
            && (r.Success? <==> Acceptable(filterMode, boundaryMode, uvDa.Some?, maxMipLevel))
            && (r.Success? ==> r.value.filterMode == Effective(ParseFilterRequest(filterMode).value, uvDa.Some?,
                                                               ResolveMaxMipLevel(maxMipLevel).value))
  {
    if ResolveMaxMipLevel(maxMipLevel).Success? {
      match ParseFilterRequest(filterMode)
      case None => UnknownFilterRejected(tex, uv, uvDa, mip, filterMode, boundaryMode, maxMipLevel);
      case Some(req) => KnownFilterMatchesReference(tex, uv, uvDa, mip, req, filterMode, boundaryMode, maxMipLevel);
    }
  }

  /** An unknown filter name fails: as the uv_da assertion if it mentions mipmaps
      and uv_da is absent, otherwise in the table lookup. */
  lemma UnknownFilterRejected(tex: Tensor, uv: Tensor, uvDa: Option<Tensor>, mip: Option<Tensor>,
                              filterMode: string, boundaryMode: string, maxMipLevel: Option<int>)
    requires ResolveMaxMipLevel(maxMipLevel).Success?
    requires ParseFilterRequest(filterMode).None?
    ensures TextureDispatch(tex, uv, uvDa, mip, filterMode, boundaryMode, maxMipLevel).Failure?
  {
    var fm := ResolveAuto(filterMode, uvDa.Some?);
    assert fm == filterMode;
    assert ParseFilterMode(fm).None?;
  }

  /** For a known filter request the wrapper succeeds exactly when the boundary name
      is known and a requested mipmap filter comes with uv_da, and then uses the
      effective filter. */
  lemma KnownFilterMatchesReference(tex: Tensor, uv: Tensor, uvDa: Option<Tensor>, mip: Option<Tensor>,
                                    req: FilterRequest, filterMode: string, boundaryMode: string,
                                    maxMipLevel: Option<int>)
    requires ResolveMaxMipLevel(maxMipLevel).Success?
    requires ParseFilterRequest(filterMode) == Some(req)
    ensures var r := TextureDispatch(tex, uv, uvDa, mip, filterMode, boundaryMode, maxMipLevel);
            && (r.Success? <==> ParseBoundaryMode(boundaryMode).Some?
                                && (Requested(req, uvDa.Some?).IsMipmap() ==> uvDa.Some?))
            && (r.Success? ==> r.value.filterMode == Effective(req, uvDa.Some?, ResolveMaxMipLevel(maxMipLevel).value))
  {
    var m := Requested(req, uvDa.Some?);
    assert ResolveAuto(filterMode, uvDa.Some?) == m.Name();
    MipmapInName(m);
    if !(m.IsMipmap() && uvDa.None?) {
      AcceptedFilterIsEffective(tex, uv, uvDa, mip, req, filterMode, boundaryMode, maxMipLevel);
    }
  }

  /** Past the uv_da assertion, a known filter request leads to the effective filter,
      and only the boundary lookup can still fail. */
  lemma AcceptedFilterIsEffective(tex: Tensor, uv: Tensor, uvDa: Option<Tensor>, mip: Option<Tensor>,
                                  req: FilterRequest, filterMode: string, boundaryMode: string,
                                  maxMipLevel: Option<int>)
    requires ResolveMaxMipLevel(maxMipLevel).Success?
    requires ParseFilterRequest(filterMode) == Some(req)
    requires !Contains(ResolveAuto(filterMode, uvDa.Some?), "mipmap") || uvDa.Some?
    ensures var r := TextureDispatch(tex, uv, uvDa, mip, filterMode, boundaryMode, maxMipLevel);
            && (r.Success? <==> ParseBoundaryMode(boundaryMode).Some?)
            && (r.Success? ==> r.value.filterMode == Effective(req, uvDa.Some?, ResolveMaxMipLevel(maxMipLevel).value))
  {
    var level := ResolveMaxMipLevel(maxMipLevel).value;
    var fm := ResolveAuto(filterMode, uvDa.Some?);
    assert ParseFilterMode(fm) == Some(Requested(req, uvDa.Some?));
    var e := Effective(req, uvDa.Some?, level);
    assert ParseFilterMode(LevelZeroDowngrade(fm, level)) == Some(e);
    var r := TextureDispatch(tex, uv, uvDa, mip, filterMode, boundaryMode, maxMipLevel);
    match ParseBoundaryMode(boundaryMode)
    case None =>
      assert r == Failure(KeyError(boundaryMode));
    case Some(b) =>
      assert r == Success(BuildTextureCall(e, b, tex, uv, uvDa, mip, level, boundaryMode == "cube"));
  }

  /** A filter name that mentions mipmaps, given without uv_da, is rejected by the
      uv_da assertion, before the name is looked up (so also for unknown names). */
  lemma MipmapNameWithoutUvDa(tex: Tensor, uv: Tensor, mip: Option<Tensor>, filterMode: string,
                              boundaryMode: string, maxMipLevel: Option<int>)
    requires ResolveMaxMipLevel(maxMipLevel).Success?
    requires filterMode != "auto" && Contains(filterMode, "mipmap")
    ensures TextureDispatch(tex, uv, None, mip, filterMode, boundaryMode, maxMipLevel)
            == Failure(AssertionError(UvDaIsTensor))
  {
  }

  /** 'auto' resolves to linear-mipmap-linear exactly when uv_da is supplied, and
      to linear otherwise; a level limit of 0 turns the mipmap filter into linear. */
  lemma AutoFilterMode(tex: Tensor, uv: Tensor, uvDa: Option<Tensor>, mip: Option<Tensor>,
                       boundary: BoundaryMode, maxMipLevel: Option<int>)
    requires ResolveMaxMipLevel(maxMipLevel).Success?
    ensures var r := TextureDispatch(tex, uv, uvDa, mip, "auto", boundary.Name(), maxMipLevel);
            && r.Success?
            && (r.value.filterMode == LinearMipmapLinear <==> uvDa.Some? && maxMipLevel != Some(0))
            && (r.value.filterMode == Linear <==> uvDa.None? || maxMipLevel == Some(0))
  {
    TextureDispatchMatchesReference(tex, uv, uvDa, mip, "auto", boundary.Name(), maxMipLevel);
  }

  /** `texture(tex, uv)` with every option at its default: bilinear filtering with
      wrapping, no mipmap stack. With only `uv_da` added it is trilinear, on the
      stack that `texture_construct_mip(tex)` with its defaults would build. */
  lemma DefaultTextureArguments(tex: Tensor, uv: Tensor, uvDa: Tensor)
    ensures TextureDispatch(tex, uv, None, None, DefaultFilterMode, DefaultBoundaryMode, None)
            == Success(PlainCall(Linear, tex, uv, Linear.Enum(), Wrap.Enum()))
    ensures ConstructMip(tex, None, DefaultCubeMode).Success?
    ensures TextureDispatch(tex, uv, Some(uvDa), None, DefaultFilterMode, DefaultBoundaryMode, None)
            == Success(MipCall(LinearMipmapLinear, tex, uv, uvDa, ConstructMip(tex, None, DefaultCubeMode).value,
                               LinearMipmapLinear.Enum(), Wrap.Enum()))
  {
    assert ResolveAuto(DefaultFilterMode, false) == Linear.Name();
    assert ResolveAuto(DefaultFilterMode, true) == LinearMipmapLinear.Name();
    EnumTables();
    assert ParseBoundaryMode(DefaultBoundaryMode) == Some(Wrap);
    MipmapInName(Linear);
    MipmapInName(LinearMipmapLinear);
  }

  /** With max_mip_level=0 both mipmap filters are downgraded to linear, the plain
      autograd function runs, and no mipmap stack is built or used. */
  lemma LevelZeroDisablesMipmaps(tex: Tensor, uv: Tensor, uvDa: Tensor, mip: Option<Tensor>,
                                 m: FilterMode, boundary: BoundaryMode)
    requires m.IsMipmap()
    ensures TextureDispatch(tex, uv, Some(uvDa), mip, m.Name(), boundary.Name(), Some(0))
            == Success(PlainCall(Linear, tex, uv, 1, boundary.Enum()))
  {
  }

  /** A stack built beforehand with texture_construct_mip, with the same level
      limit and cube setting, leads to exactly the call the wrapper would make
      after building the stack itself. */
  lemma PrebuiltMipMatchesInternal(tex: Tensor, uv: Tensor, uvDa: Option<Tensor>,
                                   filterMode: string, boundaryMode: string,
                                   maxMipLevel: Option<int>)
    requires ConstructMip(tex, maxMipLevel, Bool(boundaryMode == "cube")).Success?
    ensures var h := ConstructMip(tex, maxMipLevel, Bool(boundaryMode == "cube")).value;
            TextureDispatch(tex, uv, uvDa, Some(h), filterMode, boundaryMode, maxMipLevel)
            == TextureDispatch(tex, uv, uvDa, None, filterMode, boundaryMode, maxMipLevel)
  {
  }

  // ---- The two autograd functions ----

  /** Saved state of the two autograd functions. */
  datatype TextureSaved =
    | MipSaved(tex: Tensor, uv: Tensor, uvDa: Tensor, filterMode: FilterMode, mip: Tensor,
               filterModeEnum: int, boundaryModeEnum: int)
    | PlainSaved(tex: Tensor, uv: Tensor, filterMode: FilterMode, filterModeEnum: int, boundaryModeEnum: int)

  /** Forward of the mipmapped function: saves tex, uv, uv_da and the mode, stack and enums. */
  function TextureMipForward(filterMode: FilterMode, tex: Tensor, uv: Tensor, uvDa: Tensor, mip: Tensor,
                             filterModeEnum: int, boundaryModeEnum: int): (r: (Tensor, TextureSaved))
    ensures r.0 == Out(TextureFwdMip(tex, uv, uvDa, mip, filterModeEnum, boundaryModeEnum), 0)
    ensures r.1 == MipSaved(tex, uv, uvDa, filterMode, mip, filterModeEnum, boundaryModeEnum)
  {
    (Out(TextureFwdMip(tex, uv, uvDa, mip, filterModeEnum, boundaryModeEnum), 0),
     MipSaved(tex, uv, uvDa, filterMode, mip, filterModeEnum, boundaryModeEnum))
  }

  /** Backward of the mipmapped function: tex and uv always get gradients,
      uv_da only under linear-mipmap-linear; no other slot does. */
  function TextureMipBackward(s: TextureSaved, dy: Tensor): (g: Grads)
    requires s.MipSaved?
    ensures |g| == 7
    ensures s.filterMode == LinearMipmapLinear ==>
              var k := TextureGradLinearMipmapLinear(s.tex, s.uv, dy, s.uvDa, s.mip, s.filterModeEnum, s.boundaryModeEnum);
              Present(g, {1, 2, 3}) && g[1] == Some(Out(k, 0)) && g[2] == Some(Out(k, 1)) && g[3] == Some(Out(k, 2))
    ensures s.filterMode != LinearMipmapLinear ==>
              var k := TextureGradLinearMipmapNearest(s.tex, s.uv, dy, s.uvDa, s.mip, s.filterModeEnum, s.boundaryModeEnum);
              Present(g, {1, 2}) && g[1] == Some(Out(k, 0)) && g[2] == Some(Out(k, 1))
  {
    if s.filterMode == LinearMipmapLinear then
      var k := TextureGradLinearMipmapLinear(s.tex, s.uv, dy, s.uvDa, s.mip, s.filterModeEnum, s.boundaryModeEnum);
      [None, Some(Out(k, 0)), Some(Out(k, 1)), Some(Out(k, 2)), None, None, None]
    else
      var k := TextureGradLinearMipmapNearest(s.tex, s.uv, dy, s.uvDa, s.mip, s.filterModeEnum, s.boundaryModeEnum);
      [None, Some(Out(k, 0)), Some(Out(k, 1)), None, None, None, None]
  }

  /** Forward of the plain function: saves tex, uv and the mode and enums. */
  function TexturePlainForward(filterMode: FilterMode, tex: Tensor, uv: Tensor,
                               filterModeEnum: int, boundaryModeEnum: int): (r: (Tensor, TextureSaved))
    ensures r.0 == Out(TextureFwd(tex, uv, filterModeEnum, boundaryModeEnum), 0)
    ensures r.1 == PlainSaved(tex, uv, filterMode, filterModeEnum, boundaryModeEnum)
  {
    (Out(TextureFwd(tex, uv, filterModeEnum, boundaryModeEnum), 0),
     PlainSaved(tex, uv, filterMode, filterModeEnum, boundaryModeEnum))
  }

  /** Backward of the plain function: tex always gets a gradient, uv only under
      linear filtering (nearest sampling is locally constant in uv). */
  function TexturePlainBackward(s: TextureSaved, dy: Tensor): (g: Grads)
    requires s.PlainSaved?
    ensures |g| == 5
    ensures s.filterMode == Linear ==>
              var k := TextureGradLinear(s.tex, s.uv, dy, s.filterModeEnum, s.boundaryModeEnum);
              Present(g, {1, 2}) && g[1] == Some(Out(k, 0)) && g[2] == Some(Out(k, 1))
    ensures s.filterMode != Linear ==>
              Present(g, {1})
              && g[1] == Some(Out(TextureGradNearest(s.tex, s.uv, dy, s.filterModeEnum, s.boundaryModeEnum), 0))
  {
    if s.filterMode == Linear then
      var k := TextureGradLinear(s.tex, s.uv, dy, s.filterModeEnum, s.boundaryModeEnum);
      [None, Some(Out(k, 0)), Some(Out(k, 1)), None, None]
    else
      [None, Some(Out(TextureGradNearest(s.tex, s.uv, dy, s.filterModeEnum, s.boundaryModeEnum), 0)), None, None, None]
  }

  /** `.apply` of the chosen autograd function. */
  function TextureForward(c: TextureCall): (Tensor, TextureSaved)
  {
    match c
    case MipCall(f, tex, uv, uvDa, mip, fe, be) => TextureMipForward(f, tex, uv, uvDa, mip, fe, be)
    case PlainCall(f, tex, uv, fe, be) => TexturePlainForward(f, tex, uv, fe, be)
  }

  /** The backward of whichever autograd function ran forward. */
  function TextureBackward(s: TextureSaved, dy: Tensor): Grads
  {
    if s.MipSaved? then TextureMipBackward(s, dy) else TexturePlainBackward(s, dy)
  }

  /** The inputs of `texture` that can receive a gradient. */
  datatype TextureInput = Tex | Uv | UvDa | Mip

  /** Independent statement of the gradient flow of each filter: tex always;
      uv unless sampling is nearest; uv_da only when two mip levels are blended. */
  function DifferentiableInputs(m: FilterMode): set<TextureInput>
  {
    {Tex} + (if m != Nearest then {Uv} else {}) + (if m == LinearMipmapLinear then {UvDa} else {})
  }

  /** Reads the gradient of a `texture` input out of a backward tuple. */
  function GradientOf(s: TextureSaved, g: Grads, x: TextureInput): Option<Tensor>
    requires |g| == (if s.MipSaved? then 7 else 5)
  {
    match x
    case Tex => g[1]
    case Uv => g[2]
    case UvDa => if s.MipSaved? then g[3] else None
    case Mip => if s.MipSaved? then g[4] else None
  }

  /** For any call whose variant matches its filter, the backward of its forward
      fills exactly the gradients of the inputs that filter differentiates. */
  lemma CallGradientInputs(c: TextureCall, dy: Tensor)
    requires c.MipCall? <==> c.filterMode.IsMipmap()
    ensures var s := TextureForward(c).1;
            var g := TextureBackward(s, dy);
            && |g| == (if s.MipSaved? then 7 else 5)
            && s.tex == c.tex && s.uv == c.uv && s.filterMode == c.filterMode
            && forall x :: GradientOf(s, g, x).Some? <==> x in DifferentiableInputs(c.filterMode)
  {
    var s := TextureForward(c).1;
    var g := TextureBackward(s, dy);
    forall x ensures GradientOf(s, g, x).Some? <==> x in DifferentiableInputs(c.filterMode) {
      match c.filterMode
      case Nearest =>
      case Linear =>
      case LinearMipmapNearest =>
      case LinearMipmapLinear =>
    }
  }

  /** From the wrapper to the backward pass: the inputs that receive a gradient
      are exactly those the effective filter differentiates, and backward works
      on the tensors forward was given. */
  lemma TextureGradientInputs(tex: Tensor, uv: Tensor, uvDa: Option<Tensor>, mip: Option<Tensor>,
                              filterMode: string, boundaryMode: string,
                              maxMipLevel: Option<int>, dy: Tensor)
    requires TextureDispatch(tex, uv, uvDa, mip, filterMode, boundaryMode, maxMipLevel).Success?
    ensures var c := TextureDispatch(tex, uv, uvDa, mip, filterMode, boundaryMode, maxMipLevel).value;
            var s := TextureForward(c).1;
            var g := TextureBackward(s, dy);
            && |g| == (if s.MipSaved? then 7 else 5)
            && s.tex == tex && s.uv == uv && s.filterMode == c.filterMode
            && forall x :: GradientOf(s, g, x).Some? <==> x in DifferentiableInputs(c.filterMode)
  {
    var c := TextureDispatch(tex, uv, uvDa, mip, filterMode, boundaryMode, maxMipLevel).value;
    CallGradientInputs(c, dy);
  }
}
