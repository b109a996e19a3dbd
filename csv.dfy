/** What the two CSV readers of the fluorophore generator share. */
module Csv {
  import opened Wrappers

  /**
   * Why a file is rejected; `line` is the index of the offending line.
   * MissingField stands for Java's out-of-bounds access to a field that split
   * did not produce, NotANumber for a NumberFormatException, FrameOutOfOrder for
   * the trajectory reader's own error, and EmptyTrajectory for `get(0)` on an
   * empty trajectory.
   */
  datatype CsvError =
    | MissingField(line: nat, field: nat)
    | NotANumber(line: nat, field: nat)
    | FrameOutOfOrder(line: nat)
    | EmptyTrajectory

  /** Lines starting with '#' are comments. */
  predicate IsComment(line: string) {
    |line| >= 1 && line[0] == '#'
  }

  /** Field `k` of a split line, converted by `parse`. */
  function Column<T>(entries: seq<string>, k: nat, lineNo: nat, parse: string -> Option<T>): Result<T, CsvError>
  {
    if k >= |entries| then Failure(MissingField(lineNo, k))
    else match parse(entries[k])
      case None => Failure(NotANumber(lineNo, k))
      case Some(v) => Success(v)
  }
}
