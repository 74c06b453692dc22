/** Option, Result and the Python-level failures of the op wrappers. */
module Wrappers {

  datatype Option<+T> = None | Some(value: T)

  /** The `assert` statements of the op wrappers, one per checked condition. */
  datatype Check =
    | OutputDbIsBool            // RasterizeGLContext: output_db is True or False
    | ContextModeValid          // RasterizeGLContext: mode in ['automatic', 'manual']
    | ManualModeOnly            // set_context / release_context: mode == 'manual'
    | GradDbIsBool              // rasterize: grad_db is True or False
    | DiffAttrsOneDimensional   // interpolate: the diff_attrs array has rank 1
    | RastDbIsTensor            // interpolate: rast_db given when derivatives are requested
    | MaxMipLevelNonNegative    // texture / texture_construct_mip: max_mip_level >= 0
    | UvDaIsTensor              // texture: uv_da given for a mipmap filter mode
    | CubeModeIsBool            // texture_construct_mip: cube_mode is True or False

  /** The exception a wrapper raises; nothing is handed to the plugin when one is raised. */
  datatype Error =
    | AssertionError(check: Check)
    | KeyError(key: string)          // a name missing from a lookup table
    | ConversionError(what: string)  // numpy could not turn the argument into an int32 array

  datatype Result<+T> = Success(value: T) | Failure(error: Error)

  datatype Outcome = Pass | Fail(error: Error)

  /** A Python argument that the wrappers require to be `True` or `False`
      (`x is True or x is False`); `NotBool` is any other object, such as `1` or `None`. */
  datatype Flag = Bool(b: bool) | NotBool
}
