/** The checkstyle projection of a lint report: the element tree the
    checkstyle printer builds, as a function of the report and of the
    application's name and version, together with the properties CI
    consumers of the format rely on. */
module Checkstyle {
  import opened Wrappers
  import opened Decimal
  import opened LintReport
  import opened Dom

  /** The value of the root's `version` attribute: "{name}-{version}". */
  function VersionString(appName: string, appVersion: string): string {
    appName + "-" + appVersion
  }

  /** The attributes of the `error` element of a warning, in the order the
      printer sets them; `column` only when the warning has one. */
  function ErrorAttributes(w: Warning): Attributes {
    [("line", NatToDecimal(w.line)),
     ("severity", w.severity),
     ("message", w.message),
     ("source", w.source)]
    + (if w.column.Some? then [("column", NatToDecimal(w.column.value))] else [])
  }

  function ErrorElement(w: Warning): Element {
    Element("error", ErrorAttributes(w), [])
  }

  function ErrorElements(ws: seq<Warning>): seq<Element> {
    seq(|ws|, j requires 0 <= j < |ws| => ErrorElement(ws[j]))
  }

  function FileElement(f: FileReport): Element {
    Element("file", [("name", f.filename)], ErrorElements(f.warnings))
  }

  function FileElements(fs: seq<FileReport>): seq<Element> {
    seq(|fs|, i requires 0 <= i < |fs| => FileElement(fs[i]))
  }

  /** The tree rooted at the `checkstyle` element: one `file` child per file
      of the report, in order, each holding its warnings' `error` elements. */
  function ToCheckstyle(report: Report, appName: string, appVersion: string): (root: Element)
    ensures root.tag == "checkstyle"
    ensures root.attributes == [("version", appName + "-" + appVersion)]
    ensures |root.children| == |report.files|
    ensures forall i :: 0 <= i < |report.files| ==>
      && root.children[i].tag == "file"
      && root.children[i].attributes == [("name", report.files[i].filename)]
      && |root.children[i].children| == |report.files[i].warnings|
  {
    Element("checkstyle", [("version", VersionString(appName, appVersion))], FileElements(report.files))
  }

  /** The root is a `checkstyle` element whose only attribute is `version`,
      equal to the name and the version joined by a hyphen, for any strings,
      the empty ones included. */
  lemma RootElement(report: Report, appName: string, appVersion: string)
    ensures var root := ToCheckstyle(report, appName, appVersion);
      && root.tag == "checkstyle"
      && |root.attributes| == 1
      && AttributeOf(root, "version") == Some(appName + "-" + appVersion)
      && |AttributeOf(root, "version").value| == |appName| + 1 + |appVersion|
      && AttributeOf(root, "version").value[|appName|] == '-'
  {
  }

  /** One `file` element per file of the report, in the report's order, each
      named after its file; files with equal names are not merged. */
  lemma FileElementsInOrder(report: Report, appName: string, appVersion: string)
    ensures var root := ToCheckstyle(report, appName, appVersion);
      && |root.children| == |report.files|
      && forall i :: 0 <= i < |report.files| ==>
           && root.children[i].tag == "file"
           && |root.children[i].attributes| == 1
           && AttributeOf(root.children[i], "name") == Some(report.files[i].filename)
           && |root.children[i].children| == |report.files[i].warnings|
  {
  }

  /** The j-th child of the i-th `file` element is the `error` element of the
      j-th warning of the i-th file. */
  lemma ErrorElementsInOrder(report: Report, appName: string, appVersion: string, i: nat, j: nat)
    requires i < |report.files| && j < |report.files[i].warnings|
    ensures ToCheckstyle(report, appName, appVersion).children[i].children[j]
      == ErrorElement(report.files[i].warnings[j])
  {
  }

  /** An `error` element carries `line`, `severity`, `message` and `source`
      in that order with the warning's values verbatim (the line in decimal),
      followed by `column` exactly when the warning has a column; it has no
      children. */
  lemma ErrorElementAttributes(w: Warning)
    ensures var e := ErrorElement(w);
      && e.tag == "error"
      && e.children == []
      && |e.attributes| == (if w.column.Some? then 5 else 4)
      && e.attributes[0] == ("line", NatToDecimal(w.line))
      && e.attributes[1] == ("severity", w.severity)
      && e.attributes[2] == ("message", w.message)
      && e.attributes[3] == ("source", w.source)
      && AttributeOf(e, "line") == Some(NatToDecimal(w.line))
      && AttributeOf(e, "severity") == Some(w.severity)
      && AttributeOf(e, "message") == Some(w.message)
      && AttributeOf(e, "source") == Some(w.source)
  {
  }

  /** The `column` attribute is present if and only if the warning has a
      column; it is then the last attribute and holds the column in decimal,
      which is never empty. An absent column leaves no trace at all. */
  lemma ColumnIffPresent(w: Warning)
    ensures var e := ErrorElement(w);
      && (HasAttribute(e.attributes, "column") <==> w.column.Some?)
      && (w.column.None? ==> AttributeOf(e, "column") == None)
      && (w.column.Some? ==>
            && e.attributes[|e.attributes| - 1] == ("column", NatToDecimal(w.column.value))
            && AttributeOf(e, "column") == Some(NatToDecimal(w.column.value))
            && AttributeOf(e, "column").value != ""
            && DecimalToNat(AttributeOf(e, "column").value) == w.column)
  {
    if w.column.Some? {
      assert ErrorElement(w).attributes[4].0 == "column";
      DecimalRoundTrip(w.column.value);
    }
  }

  /** A report without files yields a root without children. */
  lemma EmptyReport(appName: string, appVersion: string)
    ensures ToCheckstyle(Report([]), appName, appVersion).children == []
  {
  }

  /** A file without warnings yields a `file` element without children. */
  lemma EmptyFile(report: Report, appName: string, appVersion: string, i: nat)
    requires i < |report.files| && report.files[i].warnings == []
    ensures ToCheckstyle(report, appName, appVersion).children[i].children == []
  {
  }

  /** A file "foo.typoscript" with one warning at line 3, column 5. */
  lemma SingleWarningScenario()
    ensures ToCheckstyle(
      Report([FileReport("foo.typoscript",
        [Warning(3, Some(5), "error", "unexpected token", "rule.syntax")])]),
      "typoscript-lint", "1.0.0")
      == Element("checkstyle", [("version", "typoscript-lint-1.0.0")],
           [Element("file", [("name", "foo.typoscript")],
              [Element("error",
                 [("line", "3"), ("severity", "error"), ("message", "unexpected token"),
                  ("source", "rule.syntax"), ("column", "5")],
                 [])])])
  {
    var w := Warning(3, Some(5), "error", "unexpected token", "rule.syntax");
    var f := FileReport("foo.typoscript", [w]);
    assert NatToDecimal(3) == "3" && NatToDecimal(5) == "5";
    assert ErrorAttributes(w) == [("line", "3"), ("severity", "error"), ("message", "unexpected token"),
                                  ("source", "rule.syntax"), ("column", "5")];
    assert VersionString("typoscript-lint", "1.0.0") == "typoscript-lint-1.0.0";
    assert ErrorElements(f.warnings) == [ErrorElement(w)];
    assert FileElements([f]) == [FileElement(f)];
  }
}
