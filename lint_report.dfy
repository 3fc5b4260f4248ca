/** The lint report that a printer consumes: the files that were checked, in
    the order they were checked, and the warnings found in each. Only the
    fields the checkstyle printer reads are modelled. The report is a value;
    printing it cannot change it. */
module LintReport {
  import opened Wrappers

  /** One finding. `column` is None when the warning is not column-precise. */
  datatype Warning = Warning(
    line: nat,
    column: Option<nat>,
    severity: string,
    message: string,
    source: string)

  datatype FileReport = FileReport(filename: string, warnings: seq<Warning>)

  datatype Report = Report(files: seq<FileReport>)
}
