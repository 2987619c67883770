/** The errors the configuration subsystem reports. */
module Errors {
  import opened Json

  datatype Error =
    | NotWriteable                  // the trait default of set_value and delete_inner
    | NotAMap(found: Value)         // serialize: a key has to descend through `found`
    | CannotOverwrite(found: Value) // serialize: a key ends where `found` already sits
    | Io(reason: string)            // reading, parsing, rendering or writing the file
}
