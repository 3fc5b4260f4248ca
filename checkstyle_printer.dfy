/** The checkstyle report printer: it builds the checkstyle tree of a report
    node by node in a DOM document and writes the document's text to its
    output in one write. */
module CheckstylePrinter {
  import Decimal
  import opened LintReport
  import opened Dom
  import opened Checkstyle

  /** The output the printer writes on (standard output or a file): it
      records the texts written to it, in order. */
  class OutputSink {
    var written: seq<XmlText>

    constructor ()
      ensures written == []
    {
      written := [];
    }

    method Write(text: XmlText)
      modifies this
      ensures written == old(written) + [text]
    {
      written := written + [text];
    }
  }

  /** Setting `line`, `severity`, `message`, `source` and then, when there
      is a column, `column` on an element without attributes yields the
      attributes of the warning's `error` element: each name is new, so each
      `setAttribute` adds one attribute at the end. */
  lemma ErrorAttributesInSetOrder(w: Warning)
    ensures var a := SetAttr(SetAttr(SetAttr(SetAttr([],
                       "line", Decimal.NatToDecimal(w.line)),
                       "severity", w.severity),
                       "message", w.message),
                       "source", w.source);
      ErrorAttributes(w) == if w.column.Some? then SetAttr(a, "column", Decimal.NatToDecimal(w.column.value)) else a
  {
    var a1 := [("line", Decimal.NatToDecimal(w.line))];
    var a2 := a1 + [("severity", w.severity)];
    var a3 := a2 + [("message", w.message)];
    var a4 := a3 + [("source", w.source)];
    assert !HasAttribute(a1, "severity");
    assert !HasAttribute(a2, "message");
    assert !HasAttribute(a3, "source");
    if w.column.Some? {
      assert !HasAttribute(a4, "column");
    }
  }

  class CheckstyleReportPrinter {
    const output: OutputSink

    constructor (output: OutputSink)
      ensures this.output == output
    {
      this.output := output;
    }

    /** Builds the `error` node of one warning: the body of the inner
        `foreach` up to its `appendChild`. */
    static method NewErrorNode(warning: Warning) returns (xmlWarning: DomElement)
      ensures fresh(xmlWarning)
      ensures xmlWarning.Value() == ErrorElement(warning)
    {
      xmlWarning := new DomElement("error");
      xmlWarning.SetAttribute("line", Decimal.NatToDecimal(warning.line));
      xmlWarning.SetAttribute("severity", warning.severity);
      xmlWarning.SetAttribute("message", warning.message);
      xmlWarning.SetAttribute("source", warning.source);

      if warning.column.Some? {
        xmlWarning.SetAttribute("column", Decimal.NatToDecimal(warning.column.value));
      }

      ErrorAttributesInSetOrder(warning);
    }

    /** Builds the `file` node of one file, its warnings' `error` nodes
        appended one at a time in order: the body of the outer `foreach` up
        to its `appendChild`. */
    static method NewFileNode(file: FileReport) returns (xmlFile: DomElement)
      ensures fresh(xmlFile)
      ensures xmlFile.Value() == FileElement(file)
    {
      xmlFile := new DomElement("file");
      xmlFile.SetAttribute("name", file.filename);

      var warnings := file.warnings;
      var j := 0;
      while j < |warnings|
        modifies xmlFile
        invariant 0 <= j <= |warnings|
        invariant xmlFile.attributes == [("name", file.filename)]
        invariant |xmlFile.childNodes| == j
        invariant forall k :: 0 <= k < j ==> xmlFile.childNodes[k] == ErrorElement(warnings[k])
      {
        var xmlWarning := NewErrorNode(warnings[j]);
        xmlFile.AppendChild(xmlWarning);
        j := j + 1;
      }
    }

    /** Writes the report in checkstyle format. `appName` and `appVersion`
        are the application's name and version. Exactly one text is written,
        and it is the serialisation of a UTF-8, XML 1.0, pretty-printed
        document whose only node is the checkstyle tree of the report. */
    method WriteReport(report: Report, appName: string, appVersion: string)
      modifies output
      ensures output.written == old(output.written)
        + [SavedXml(Document("1.0", "UTF-8", true, [ToCheckstyle(report, appName, appVersion)]))]
    {
      var xml := new DomDocument("1.0", "UTF-8");

      var root := new DomElement("checkstyle");
      root.SetAttribute("version", appName + "-" + appVersion);

      var files := report.files;
      var i := 0;
      while i < |files|
        modifies root
        invariant 0 <= i <= |files|
        invariant root.attributes == [("version", VersionString(appName, appVersion))]
        invariant |root.childNodes| == i
        invariant forall k :: 0 <= k < i ==> root.childNodes[k] == FileElement(files[k])
      {
        var xmlFile := NewFileNode(files[i]);
        root.AppendChild(xmlFile);
        i := i + 1;
      }

      assert root.Value() == ToCheckstyle(report, appName, appVersion);
      xml.AppendChild(root);
      xml.formatOutput := true;

      assert xml.childNodes == [ToCheckstyle(report, appName, appVersion)];
      output.Write(xml.SaveXml());
    }
  }
}
