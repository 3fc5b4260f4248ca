# Checkstyle report printer of typo3-typoscript-lint

typoscript-lint can print its lint report in the checkstyle XML format that
CI servers (Jenkins and others) read. `CheckstyleReportPrinter::writeReport`
takes a `Report` (the checked files in order, with the warnings for each file)
and builds a DOM tree:

- a `checkstyle` root with a `version` attribute, which is `APP_NAME-APP_VERSION`;
- one `file` element per file, with a `name` attribute;
- one `error` element per warning, with the attributes `line`, `severity`,
  `message` and `source`, plus `column` when the warning has one.

It then writes the tree's pretty-printed XML text to its output in one write.

This project models that projection in Dafny:

- `lint_report.dfy` (`LintReport`): the report, the file reports and the
  warnings as immutable values. These hold only the fields the printer reads.
  A warning's column is an `Option<nat>`.
- `dom.dfy` (`Dom`): the parts of PHP's DOM library that the printer uses.
  Element trees are values. Two classes, `DomElement` and `DomDocument`, are
  the nodes that the printer changes in place with `setAttribute` and
  `appendChild`. `saveXML` returns an opaque text value that stands for the
  serialisation of exactly the document it was given.
- `decimal.dfy` (`Decimal`): how PHP renders an integer attribute value as a
  decimal string, and the reverse reading of such a string.
- `checkstyle.dfy` (`Checkstyle`): `ToCheckstyle`, the pure specification of
  the tree. It sits beside the properties that CI consumers rely on: counts,
  order, attribute values and the "column only if present" rule.
- `checkstyle_printer.dfy` (`CheckstylePrinter`): the printer class and its
  output sink. `WriteReport` mirrors the two nested `foreach` loops of the
  source one `appendChild` at a time. It is proved to write exactly one text,
  which is the serialisation of the document whose only node is
  `ToCheckstyle(report, appName, appVersion)`.
- `checkstyle_reader.dfy` (`CheckstyleReader`): a reader like the one a CI
  consumer runs. It accepts exactly the trees the projection builds for some
  name and version, and gives back the report and the version string. So the
  projection loses, merges and reorders nothing.

`APP_NAME` and `APP_VERSION` are global constants in the source. Here they are
the parameters `appName` and `appVersion`. The report is a value, so printing
cannot modify it.

## Model

| member | source | states |
|---|---|---|
| Checkstyle.ToCheckstyle | src/Helmich/TypoScriptLint/Linter/ReportPrinter/CheckstyleReportPrinter.php:45-67 | The tree of a report: a `checkstyle` root whose only attribute is `version` = name-version, with one `file` child per file in order. Each child has only its filename as `name` and one child per warning of the file. It is built from `ErrorAttributes` (lines 54-61) and `FileElement` (lines 49-50). |
| Checkstyle.RootElement | src/Helmich/TypoScriptLint/Linter/ReportPrinter/CheckstyleReportPrinter.php:45-46 | The root is a `checkstyle` element whose only attribute is `version`. Its value is the name, a hyphen and the version, for any strings including empty ones. |
| Checkstyle.FileElementsInOrder | src/Helmich/TypoScriptLint/Linter/ReportPrinter/CheckstyleReportPrinter.php:48-50 | The root has exactly one child per file. The i-th child is a `file` element whose only attribute `name` is the i-th filename, so files with equal names stay separate. It has one child per warning of that file. |
| Checkstyle.ErrorElementsInOrder | src/Helmich/TypoScriptLint/Linter/ReportPrinter/CheckstyleReportPrinter.php:52-53 | The j-th child of the i-th `file` element is the `error` element of the j-th warning of the i-th file. |
| Checkstyle.ErrorElementAttributes | src/Helmich/TypoScriptLint/Linter/ReportPrinter/CheckstyleReportPrinter.php:53-57 | An `error` element has no children. Its first four attributes are `line`, `severity`, `message` and `source`, in that order. Each holds the warning's field verbatim, with the line in decimal. There are 5 attributes with a column and 4 without. |
| Checkstyle.ColumnIffPresent | src/Helmich/TypoScriptLint/Linter/ReportPrinter/CheckstyleReportPrinter.php:59-61 | An `error` element has a `column` attribute if and only if the warning has a column. When present, it is the last attribute: a non-empty decimal that reads back as the column. When absent, the attribute does not exist at all. |
| Checkstyle.EmptyReport | src/Helmich/TypoScriptLint/Linter/ReportPrinter/CheckstyleReportPrinter.php:48 | A report without files yields a root without children. |
| Checkstyle.EmptyFile | src/Helmich/TypoScriptLint/Linter/ReportPrinter/CheckstyleReportPrinter.php:52 | A file without warnings yields a `file` element without children. |
| Checkstyle.SingleWarningScenario | src/Helmich/TypoScriptLint/Linter/ReportPrinter/CheckstyleReportPrinter.php:45-66 | Gives the whole tree for one file `foo.typoscript` holding one warning at line 3, column 5. |
| CheckstylePrinter.ErrorAttributesInSetOrder | src/Helmich/TypoScriptLint/Linter/ReportPrinter/CheckstyleReportPrinter.php:54-61 | The five `setAttribute` calls on a fresh `error` node each add a new attribute at the end. Together they yield exactly `ErrorAttributes` of the warning. |
| CheckstylePrinter.OutputSink.constructor | src/Helmich/TypoScriptLint/Linter/ReportPrinter/CheckstyleReportPrinter.php:23 | A fresh output has recorded no writes. |
| CheckstylePrinter.OutputSink.Write | src/Helmich/TypoScriptLint/Linter/ReportPrinter/CheckstyleReportPrinter.php:72 | A write appends its text to what the output has received, and changes nothing else. |
| CheckstylePrinter.CheckstyleReportPrinter.constructor | src/Helmich/TypoScriptLint/Linter/ReportPrinter/CheckstyleReportPrinter.php:30-33 | The printer stores the output it will write on. |
| CheckstylePrinter.CheckstyleReportPrinter.NewErrorNode | src/Helmich/TypoScriptLint/Linter/ReportPrinter/CheckstyleReportPrinter.php:53-61 | The node built by `createElement('error')` and the attribute calls, including the conditional `column` call, is exactly `ErrorElement` of the warning. |
| CheckstylePrinter.CheckstyleReportPrinter.NewFileNode | src/Helmich/TypoScriptLint/Linter/ReportPrinter/CheckstyleReportPrinter.php:49-64 | The inner loop appends the warnings' `error` nodes one at a time in order. Its invariant says that the first j children are the `error` elements of the first j warnings. It yields `FileElement` of the file. |
| CheckstylePrinter.CheckstyleReportPrinter.WriteReport | src/Helmich/TypoScriptLint/Linter/ReportPrinter/CheckstyleReportPrinter.php:41-73 | Exactly one text is added to the output: the serialisation of a pretty-printed XML 1.0, UTF-8 document whose only node is `ToCheckstyle` of the report. The outer loop keeps the invariant that the first i children of the root are the `file` elements of the first i files. |
| Dom.Lookup | src/Helmich/TypoScriptLint/Linter/ReportPrinter/CheckstyleReportPrinter.php:54-60 | `hasAttribute` and `getAttribute` together: a value is found exactly when an attribute with that name exists, and it is the value of the first attribute with that name. |
| Dom.SetAttr | src/Helmich/TypoScriptLint/Linter/ReportPrinter/CheckstyleReportPrinter.php:46-60 | `setAttribute` with a new name appends the pair. With an existing name, it keeps the names and their positions. |
| Dom.SetAttrLookup | src/Helmich/TypoScriptLint/Linter/ReportPrinter/CheckstyleReportPrinter.php:46-60 | After `setAttribute(name, value)`, `name` reads as `value` and every other attribute reads as before. |
| Dom.DomElement.constructor | src/Helmich/TypoScriptLint/Linter/ReportPrinter/CheckstyleReportPrinter.php:45 | `createElement` yields a node with the given tag and no attributes or children. |
| Dom.DomElement.SetAttribute | src/Helmich/TypoScriptLint/Linter/ReportPrinter/CheckstyleReportPrinter.php:54-57 | Updates the node's attributes as `SetAttr` does and leaves its children alone. |
| Dom.DomElement.AppendChild | src/Helmich/TypoScriptLint/Linter/ReportPrinter/CheckstyleReportPrinter.php:63 | The child's tree becomes the node's last child. The attributes are unchanged. |
| Dom.DomDocument.SaveXml | src/Helmich/TypoScriptLint/Linter/ReportPrinter/CheckstyleReportPrinter.php:72 | The saved text stands for exactly the document's XML version, encoding, pretty-print flag and top-level trees. Its bytes are not modelled. |
| Dom.DomDocument.constructor | src/Helmich/TypoScriptLint/Linter/ReportPrinter/CheckstyleReportPrinter.php:43 | A new document keeps the given XML version and encoding. It is empty and not pretty-printed. |
| Dom.DomDocument.AppendChild | src/Helmich/TypoScriptLint/Linter/ReportPrinter/CheckstyleReportPrinter.php:69 | The element's tree becomes the document's last top-level node. The pretty-print flag is unchanged. |
| Decimal.NatToDecimal | src/Helmich/TypoScriptLint/Linter/ReportPrinter/CheckstyleReportPrinter.php:54 | The string cast of an integer is a canonical decimal numeral: non-empty, all digits, and no leading zero. |
| Decimal.DecimalRoundTrip | src/Helmich/TypoScriptLint/Linter/ReportPrinter/CheckstyleReportPrinter.php:54 | Reading back the decimal rendering of a line or column gives that number. |
| Decimal.DecimalToNatExact | src/Helmich/TypoScriptLint/Linter/ReportPrinter/CheckstyleReportPrinter.php:60 | A string reads back as n if and only if it is the rendering of n. |
| Decimal.NatToDecimalInjective | src/Helmich/TypoScriptLint/Linter/ReportPrinter/CheckstyleReportPrinter.php:54-60 | Different line or column numbers give different attribute values. |
| CheckstyleReader.ReadErrorInverse | src/Helmich/TypoScriptLint/Linter/ReportPrinter/CheckstyleReportPrinter.php:53-61 | Every field of a warning can be read back from its `error` element, including whether it has a column. |
| CheckstyleReader.ReadErrorExact | src/Helmich/TypoScriptLint/Linter/ReportPrinter/CheckstyleReportPrinter.php:53-61 | Every element the warning reader accepts is the `error` element of the warning it reads. |
| CheckstyleReader.CheckstyleRoundTrip | src/Helmich/TypoScriptLint/Linter/ReportPrinter/CheckstyleReportPrinter.php:45-67 | Reading the tree of a report gives back the report and the `name-version` string. |
| CheckstyleReader.ReadCheckstyleExact | src/Helmich/TypoScriptLint/Linter/ReportPrinter/CheckstyleReportPrinter.php:45-67 | Every tree the reader accepts has a `checkstyle` root whose only attribute is the version, and whose children are the `file` elements of the report read. The version holds a hyphen, and the tree is the projection of that report for the name before the first hyphen and the version after it. |
| CheckstyleReader.ToCheckstyleInjective | src/Helmich/TypoScriptLint/Linter/ReportPrinter/CheckstyleReportPrinter.php:48-67 | Two different reports never give the same tree, so no file or warning is dropped, merged or reordered. |

## Left out

- XML text: the bytes `saveXML` produces are not modelled (lines 43, 70 and 72). That covers escaping of `<`, `&` and `"`, the indentation from `formatOutput`, and the XML declaration. The written text is an opaque value that records the document it serialises: its version, encoding, pretty-print flag and tree.
- The Symfony `OutputInterface` becomes `OutputSink`, a class that records the texts written to it. Its failures (closed stream, disk full) and any error it reports to the caller are not modelled.
- The `Report`, `FileReport` and `Warning` classes and their getters are not part of this model. They appear as immutable datatypes holding the fields the printer reads.
- The `Printer` interface and the other printers that implement it are not part of this model.
- `writeReport` has no error path of its own: it always builds the tree and writes it. Failures of the output's `write` are not modelled, so the model has no error result.
- The printer does not check that a line is positive. The model takes any natural number, so line 0 is rendered as "0", as PHP would.
- PHP integers are 64-bit, and a negative line or column is not modelled. Line and column are unbounded natural numbers. Lint warnings never come near the 64-bit limit.
- `appendChild` (lines 63, 66 and 69) copies the child's tree at the time of the call instead of linking the live node, so the model does not capture aliasing between a parent and a child node changed after it was appended. This agrees with PHP here because the printer never changes a node once it has been appended.
- Strings, attribute values included, are sequences of characters stored verbatim. Byte-level behaviour of PHP strings and of the DOM library is not modelled: a value cut at a NUL byte, or bytes that are not valid UTF-8.
