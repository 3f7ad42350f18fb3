/**
 * Outcomes shared by every module: an optional value, a result that is either a
 * value or an error, and the errors the core raises.
 */
module Errors {

  datatype Option<+T> = None | Some(value: T)

  datatype Result<+T> = Ok(value: T) | Err(error: Error)

  /** The exceptions the core raises, named by what went wrong. */
  datatype Error =
    | NoListing                                // ADB_Error: the listing to parse is empty
    | NoDevice                                 // ADB_Error: no device is connected
    | Unauthorized                             // ADB_Error: a device line reports 'unauthorized'
    | Offline                                  // ADB_Error: a device line reports 'offline'
    | NoOutput                                 // ValueError: unpacking the lines of an empty output
    | NotANumber(token: string)                // ValueError from float()
    | FieldCount(expected: nat, found: nat)    // ValueError from unpacking split() fields
    | MissingSeparator(text: string)           // IndexError from text.split(sep)[1]
    | UnknownLayout                            // UnboundLocalError: df header matched no layout
    | NoMountPoint                             // AttributeError: a type-2 row has no mount point
    | DuplicateKey(key: string)                // TypeError from dict(**a, **b)
}
