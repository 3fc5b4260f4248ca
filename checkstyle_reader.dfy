/** Reading a lint report back from a checkstyle tree, as a CI consumer of
    the format does. The reader accepts exactly the trees the projection
    builds for some name and version, so the projection loses nothing: every file, every warning and
    every field, the presence or absence of a column included, can be
    recovered from the tree. */
module CheckstyleReader {
  import opened Wrappers
  import opened Decimal
  import opened LintReport
  import opened Dom
  import opened Checkstyle

  function ReadError(e: Element): Option<Warning> {
    var a := e.attributes;
    if e.tag != "error" || e.children != [] || !(|a| == 4 || |a| == 5) then None
    else if a[0].0 != "line" || a[1].0 != "severity" || a[2].0 != "message" || a[3].0 != "source" then None
    else if |a| == 5 && a[4].0 != "column" then None
    else
      match DecimalToNat(a[0].1)
      case None => None
      case Some(line) =>
        if |a| == 4 then Some(Warning(line, None, a[1].1, a[2].1, a[3].1))
        else
          match DecimalToNat(a[4].1)
          case None => None
          case Some(column) => Some(Warning(line, Some(column), a[1].1, a[2].1, a[3].1))
  }

  function ReadErrors(es: seq<Element>): Option<seq<Warning>>
    decreases |es|
  {
    if |es| == 0 then Some([])
    else
      match ReadError(es[0])
      case None => None
      case Some(w) =>
        match ReadErrors(es[1..])
        case None => None
        case Some(ws) => Some([w] + ws)
  }

  function ReadFile(e: Element): Option<FileReport> {
    if e.tag != "file" || |e.attributes| != 1 || e.attributes[0].0 != "name" then None
    else
      match ReadErrors(e.children)
      case None => None
      case Some(ws) => Some(FileReport(e.attributes[0].1, ws))
  }

  function ReadFiles(es: seq<Element>): Option<seq<FileReport>>
    decreases |es|
  {
    if |es| == 0 then Some([])
    else
      match ReadFile(es[0])
      case None => None
      case Some(f) =>
        match ReadFiles(es[1..])
        case None => None
        case Some(fs) => Some([f] + fs)
  }

  /** The position of the first hyphen of a string that has one. */
  function HyphenIndex(s: string): (k: nat)
    requires '-' in s
    ensures k < |s| && s[k] == '-'
    ensures forall j :: 0 <= j < k ==> s[j] != '-'
    decreases |s|
  {
    if s[0] == '-' then 0
    else
      assert '-' in s[1..] by {
        var i :| 0 <= i < |s| && s[i] == '-';
        assert s[1..][i - 1] == '-';
      }
      1 + HyphenIndex(s[1..])
  }

  /** The `version` attribute and the report of a `checkstyle` tree. A
      version without a hyphen is not of the form "{name}-{version}" and is
      refused. */
  function ReadCheckstyle(e: Element): Option<(string, Report)> {
    if e.tag != "checkstyle" || |e.attributes| != 1 || e.attributes[0].0 != "version" then None
    else if '-' !in e.attributes[0].1 then None
    else
      match ReadFiles(e.children)
      case None => None
      case Some(fs) => Some((e.attributes[0].1, Report(fs)))
  }

  lemma ReadErrorInverse(w: Warning)
    ensures ReadError(ErrorElement(w)) == Some(w)
  {
    DecimalRoundTrip(w.line);
    if w.column.Some? {
      DecimalRoundTrip(w.column.value);
    }
  }

  lemma ReadErrorExact(e: Element, w: Warning)
    requires ReadError(e) == Some(w)
    ensures e == ErrorElement(w)
  {
    var a := e.attributes;
    DecimalToNatExact(a[0].1, w.line);
    if |a| == 5 {
      DecimalToNatExact(a[4].1, w.column.value);
      assert a == ErrorAttributes(w);
    } else {
      assert a == ErrorAttributes(w);
    }
  }

  lemma {:induction false} ReadErrorsInverse(ws: seq<Warning>)
    ensures ReadErrors(ErrorElements(ws)) == Some(ws)
    decreases |ws|
  {
    if |ws| > 0 {
      ReadErrorInverse(ws[0]);
      assert ErrorElements(ws)[1..] == ErrorElements(ws[1..]);
      ReadErrorsInverse(ws[1..]);
      assert ws == [ws[0]] + ws[1..];
    }
  }

  lemma {:induction false} ReadErrorsExact(es: seq<Element>, ws: seq<Warning>)
    requires ReadErrors(es) == Some(ws)
    ensures es == ErrorElements(ws)
    decreases |es|
  {
    if |es| > 0 {
      var w := ReadError(es[0]).value;
      var rest := ReadErrors(es[1..]).value;
      ReadErrorExact(es[0], w);
      ReadErrorsExact(es[1..], rest);
      assert es == [es[0]] + es[1..];
    }
  }

  lemma ReadFileInverse(f: FileReport)
    ensures ReadFile(FileElement(f)) == Some(f)
  {
    ReadErrorsInverse(f.warnings);
  }

  lemma ReadFileExact(e: Element, f: FileReport)
    requires ReadFile(e) == Some(f)
    ensures e == FileElement(f)
  {
    ReadErrorsExact(e.children, f.warnings);
  }

  lemma {:induction false} ReadFilesInverse(fs: seq<FileReport>)
    ensures ReadFiles(FileElements(fs)) == Some(fs)
    decreases |fs|
  {
    if |fs| > 0 {
      ReadFileInverse(fs[0]);
      assert FileElements(fs)[1..] == FileElements(fs[1..]);
      ReadFilesInverse(fs[1..]);
      assert fs == [fs[0]] + fs[1..];
    }
  }

  lemma {:induction false} ReadFilesExact(es: seq<Element>, fs: seq<FileReport>)
    requires ReadFiles(es) == Some(fs)
    ensures es == FileElements(fs)
    decreases |es|
  {
    if |es| > 0 {
      var f := ReadFile(es[0]).value;
      var rest := ReadFiles(es[1..]).value;
      ReadFileExact(es[0], f);
      ReadFilesExact(es[1..], rest);
      assert es == [es[0]] + es[1..];
    }
  }

  /** Reading the projection of a report gives back the report and the
      version string it was stamped with. */
  lemma CheckstyleRoundTrip(report: Report, appName: string, appVersion: string)
    ensures ReadCheckstyle(ToCheckstyle(report, appName, appVersion))
      == Some((appName + "-" + appVersion, report))
  {
    assert (appName + "-" + appVersion)[|appName|] == '-';
    ReadFilesInverse(report.files);
  }

  /** Every tree the reader accepts is the projection of what it read: a
      `checkstyle` root whose only attribute is the version and whose children
      are the `file` elements of the report. Split at its first hyphen, the
      version gives a name and a version whose projection is the tree. */
  lemma ReadCheckstyleExact(e: Element, version: string, report: Report)
    requires ReadCheckstyle(e) == Some((version, report))
    ensures e.tag == "checkstyle"
    ensures e.attributes == [("version", version)]
    ensures e.children == FileElements(report.files)
    ensures '-' in version
    ensures var k := HyphenIndex(version);
      e == ToCheckstyle(report, version[..k], version[k + 1..])
  {
    ReadFilesExact(e.children, report.files);
    var k := HyphenIndex(version);
    assert version == version[..k] + "-" + version[k + 1..];
  }

  /** Distinct reports have distinct projections, whatever the application
      name and version: nothing is merged, dropped or reordered. */
  lemma ToCheckstyleInjective(r1: Report, r2: Report, appName: string, appVersion: string)
    requires ToCheckstyle(r1, appName, appVersion) == ToCheckstyle(r2, appName, appVersion)
    ensures r1 == r2
  {
    CheckstyleRoundTrip(r1, appName, appVersion);
    CheckstyleRoundTrip(r2, appName, appVersion);
  }
}
