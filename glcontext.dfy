/** RasterizeGLContext: the OpenGL rasterizer context object. Its configuration
    is fixed at construction; binding the context to a thread happens inside the
    native state wrapper, so only the calls that reach the wrapper are recorded. */
module GLContext {
  import opened Wrappers
  import opened Plugin

  /** A call forwarded to the native state wrapper. */
  datatype WrapperCall = SetContextCall | ReleaseContextCall

  /** Defaults of the constructor's `output_db` and `mode`. */
  const DefaultOutputDb: Flag := Bool(true)
  const DefaultMode: string := "automatic"

  predicate IsContextMode(mode: string)
  {
    mode == "automatic" || mode == "manual"
  }

  /** The checks of the constructor, in the order it makes them. */
  function CheckContextArgs(outputDb: Flag, mode: string): (r: Outcome)
    ensures r.Pass? <==> outputDb.Bool? && IsContextMode(mode)
    ensures outputDb.NotBool? ==> r == Fail(AssertionError(OutputDbIsBool))
    ensures outputDb.Bool? && !IsContextMode(mode) ==> r == Fail(AssertionError(ContextModeValid))
  {
    if outputDb.NotBool? then Fail(AssertionError(OutputDbIsBool))
    else if mode != "automatic" && mode != "manual" then Fail(AssertionError(ContextModeValid))
    else Pass
  }

  /** The native wrapper is told only whether the mode is automatic. */
  function StateWrapperFor(outputDb: bool, mode: string): (w: Tensor)
    requires IsContextMode(mode)
    ensures w.Output? && w.call.RasterizeGLStateWrapper?
    ensures w.call.outputDb == outputDb
    ensures w.call.automatic <==> mode != "manual"
  {
    Out(RasterizeGLStateWrapper(outputDb, mode == "automatic"), 0)
  }

  class RasterizeGLContext {
    const outputDb: bool
    const mode: string
    const cppWrapper: Tensor
    var wrapperCalls: seq<WrapperCall>

    ghost predicate Valid()
    {
      IsContextMode(mode) && cppWrapper == StateWrapperFor(outputDb, mode)
    }

    constructor (outputDb: bool, mode: string)
      requires IsContextMode(mode)
      ensures Valid() && this.outputDb == outputDb && this.mode == mode
      ensures wrapperCalls == []
    {
      this.outputDb := outputDb;
      this.mode := mode;
      this.cppWrapper := StateWrapperFor(outputDb, mode);
      this.wrapperCalls := [];
    }

    /** `RasterizeGLContext(output_db, mode)`: a new context, or the assertion that failed. */
    static method Create(outputDb: Flag, mode: string) returns (r: Result<RasterizeGLContext>)
      ensures r.Success? <==> CheckContextArgs(outputDb, mode).Pass?
      ensures r.Failure? ==> r.error == CheckContextArgs(outputDb, mode).error
      ensures r.Success? ==> fresh(r.value) && r.value.Valid() && r.value.wrapperCalls == []
      ensures r.Success? ==> r.value.outputDb == outputDb.b && r.value.mode == mode
    {
      var check := CheckContextArgs(outputDb, mode);
      if check.Fail? {
        return Failure(check.error);
      }
      var ctx := new RasterizeGLContext(outputDb.b, mode);
      return Success(ctx);
    }

    /** Activates the context in the calling thread; manual mode only. */
    method SetContext() returns (r: Outcome)
      requires Valid()
      modifies this
      ensures r.Pass? <==> mode == "manual"
      ensures r.Fail? <==> mode == "automatic"
      ensures r.Fail? ==> r.error == AssertionError(ManualModeOnly)
      ensures wrapperCalls == old(wrapperCalls) + (if r.Pass? then [SetContextCall] else [])
    {
      if mode != "manual" {
        return Fail(AssertionError(ManualModeOnly));
      }
      wrapperCalls := wrapperCalls + [SetContextCall];
      return Pass;
    }

    /** Deactivates the context; manual mode only. */
    method ReleaseContext() returns (r: Outcome)
      requires Valid()
      modifies this
      ensures r.Pass? <==> mode == "manual"
      ensures r.Fail? <==> mode == "automatic"
      ensures r.Fail? ==> r.error == AssertionError(ManualModeOnly)
      ensures wrapperCalls == old(wrapperCalls) + (if r.Pass? then [ReleaseContextCall] else [])
    {
      if mode != "manual" {
        return Fail(AssertionError(ManualModeOnly));
      }
      wrapperCalls := wrapperCalls + [ReleaseContextCall];
      return Pass;
    }
  }

  /** `RasterizeGLContext()` with no arguments: automatic mode, with derivative output. */
  method DefaultContext() returns (c: RasterizeGLContext)
    ensures fresh(c) && c.Valid() && c.outputDb && c.mode == "automatic" && c.wrapperCalls == []
    ensures c.cppWrapper == Out(RasterizeGLStateWrapper(true, true), 0)
  {
    var r := RasterizeGLContext.Create(DefaultOutputDb, DefaultMode);
    c := r.value;
  }

  /** A context made in automatic mode never lets a set/release call through,
      and neither call changes the configuration. */
  method AutomaticModeRejectsManualCalls(outputDb: bool) returns (c: RasterizeGLContext)
    ensures fresh(c) && c.mode == "automatic" && c.outputDb == outputDb && c.wrapperCalls == []
  {
    var r := RasterizeGLContext.Create(Bool(outputDb), "automatic");
    c := r.value;
    var s := c.SetContext();
    assert s == Fail(AssertionError(ManualModeOnly));
    var t := c.ReleaseContext();
    assert t == Fail(AssertionError(ManualModeOnly));
  }

  /** In manual mode set and release both reach the wrapper, in call order. */
  method ManualModeForwardsCalls(outputDb: bool) returns (c: RasterizeGLContext)
    ensures fresh(c) && c.mode == "manual" && c.outputDb == outputDb
    ensures c.wrapperCalls == [SetContextCall, ReleaseContextCall]
  {
    var r := RasterizeGLContext.Create(Bool(outputDb), "manual");
    c := r.value;
    var s := c.SetContext();
    assert s.Pass?;
    var t := c.ReleaseContext();
    assert t.Pass?;
  }
}
