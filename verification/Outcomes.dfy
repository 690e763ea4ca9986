/** Outcomes of library calls. */
module Outcomes {
  datatype Option<+T> = None | Some(value: T) {
    function GetOr(default: T): T {
      if Some? then value else default
    }
  }

  datatype Status =
    | Ok
    | ErrorInvalidArg
    | ErrorIO
    | ErrorCorrupted
    | ErrorNotFound
    | ErrorFull
    | ErrorNotOpen
}
