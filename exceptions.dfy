/** The C++ exceptions thrown by the binding layer and the example module. */
module Exceptions {

  datatype Exception =
    /** `pyerr_occurred`: a null handle was met, so the host runtime has (or should have) a pending error. */
    | PyErrOccurred
    /** What `py_tuple::_throw` raises when a value is not a tuple. */
    | TupleTypeError
    /** What `py_dict::_throw` raises when a value is not a dict. */
    | DictTypeError
    /** `std::runtime_error` with its message. */
    | RuntimeError(msg: string)
    /** A `converter<T>::from_python` that rejected its argument, with the location label it was given. */
    | ConversionError(where: string)
    /** An exception thrown by library code that is not part of this model (the array library). */
    | ForeignError
}
