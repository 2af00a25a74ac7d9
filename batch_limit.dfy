/**
 * The `--testing` switch shared by the two data-preparation scripts: the
 * row counter is bumped before it is compared, so the loop stops when it
 * reaches the sixth row and five rows are written.
 */
module BatchLimit {
  /** The number of rows a script processes under `--testing`. */
  const TestingRowLimit: nat := 5

  /** The rows a script processes: a prefix of its input, all of it without `--testing`. */
  function Processed<T>(rows: seq<T>, testing: bool): (r: seq<T>)
    ensures |r| <= |rows| && r == rows[..|r|]
    ensures !testing || |rows| <= TestingRowLimit ==> r == rows
    ensures testing && |rows| > TestingRowLimit ==> |r| == TestingRowLimit
  {
    if testing && |rows| > TestingRowLimit then rows[..TestingRowLimit] else rows
  }
}
