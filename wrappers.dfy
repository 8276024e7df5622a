/** Optional values, the exceptions the Python code raises, and results that carry them. */
module Wrappers {

  datatype Option<T> = None | Some(value: T) {
    function GetOr(default: T): T { if Some? then value else default }
  }

  /** The Python exception classes that the modelled code raises or lets escape. */
  datatype Error =
    | ValueError
    | TypeError
    | NameError
    | KeyError
    | AttributeError
    | PermissionError
    | FileNotFoundError
    | FileExistsError
    | Exception(message: string)   // a plain `raise Exception(...)`
    | IoFault                       // an OSError raised half-way through a copy

  datatype Result<T> = Ok(value: T) | Err(error: Error)
}
