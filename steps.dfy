/**
 * The dictionaries passed between the stages: the steps the generator hands
 * to the executor, and the result records the executor hands to the reporter.
 */
module Steps {
  import opened Wrappers

  /**
   * An executor step: its `type`, `value` and `target` keys, each `None`
   * when the dictionary lacks that key.
   */
  datatype Step = Step(kind: Option<string>, value: Option<string>, target: Option<string>)

  /** The `screenshot` key of a record: missing, `None`, or a file name. */
  datatype Screenshot = Absent | NoFile | File(name: string)

  /** A result record; `error` is `None` when the record has no `error` key. */
  datatype Record = Record(
    stepNo: int,
    action: string,
    target: string,
    status: string,
    error: Option<string>,
    screenshot: Screenshot)
}
