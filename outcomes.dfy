/** Values shared by every module: optional values and the ways an operation can stop early. */
module Outcomes {
  datatype Option<T> = None | Some(value: T)

  /** The exceptions the modelled code raises, plus the one the model adds:
      the supplied random draws ran out before a sampling loop finished. */
  datatype Error =
    | OutOfDraws        // a sampling loop needed more draws than supplied (it may never end)
    | NoValidRoom       // encounter placement gave up after 100 attempts
    | NoEntrance        // a level holds no 'E' cell
    | OutOfBounds       // a position outside the grid
    | IntoWall          // a position on a 'W' cell
    | InvalidLevel      // a level number outside 1..3
    | DuplicateItem     // Set.of handed the same item name twice
    | ColumnOutOfRange  // a column index past the end of a row

  datatype Result<T> = Ok(value: T) | Err(error: Error)

  /** How a state-changing operation ended: normally, or with the exception it raised. */
  datatype Status = Done | Failed(error: Error)
}
