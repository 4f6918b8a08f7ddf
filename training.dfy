/**
 * The training record (`ITraining`) shared by the store, the chart and the
 * table.
 */
module Trainings {

  /**
   * An item id is a number or a string. Ids are compared with `===`, so a
   * number id never equals a string id (`1` and `"1"` are different ids).
   */
  datatype Id = NumberId(n: real) | StringId(s: string)

  /**
   * One logged workout. `date` is a day number (days since 1970-01-01); the
   * source keeps it as a `YYYY-MM-DD` string, and `Calendar` shows that such
   * strings order as their day numbers do.
   */
  datatype Training = Training(id: Id, distanceInKM: real, date: int, workoutType: string, comment: string)
}
