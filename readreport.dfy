/** The end-to-end test-report summariser (`read_report_json.py`). It reads
    a Playwright JSON report, cuts the JSON out of the text, and prints the
    statistics and every failed result, suite by suite.

    The file reads and `json.loads` are inputs: each read is given as its
    text or its error, and parsing as a function from text to a JSON tree
    (`None` when it raises). `str()` of a non-string JSON value is the
    `render` parameter. A run is the printed lines and whether an exception
    escaped. */
module ReportSummary {
  import opened Wrappers
  import opened Tables
  import Text

  /** A parsed JSON value; an object keeps its members in text order. */
  datatype Json = JNull | JBool(b: bool) | JNum(n: int) | JStr(s: string) | JArr(items: seq<Json>) | JObj(fields: seq<Field>)
  datatype Field = Field(key: string, value: Json)

  /** The lines printed and whether an exception escaped after them. */
  datatype Run = Run(lines: seq<string>, raised: bool)

  function Emit(lines: seq<string>): Run { Run(lines, false) }
  const Raise := Run([], true)

  /** Running `a` and then, unless it raised, `b`. */
  function Then(a: Run, b: Run): (r: Run)
    ensures a.raised ==> r == a
    ensures !a.raised ==> r.lines == a.lines + b.lines && r.raised == b.raised
  {
    if a.raised then a else Run(a.lines + b.lines, b.raised)
  }

  lemma ThenAssociative(a: Run, b: Run, c: Run)
    ensures Then(Then(a, b), c) == Then(a, Then(b, c))
  {
  }

  // ---------------------------------------------------------------------------
  // JSON values as Python sees them

  function Size(j: Json): (n: nat)
    ensures n >= 1
    decreases j
  {
    match j
    case JArr(items) => 1 + SizeAll(items)
    case JObj(fields) => 1 + SizeFields(fields)
    case _ => 1
  }

  function SizeAll(items: seq<Json>): nat
    decreases items
  {
    if items == [] then 0 else SizeAll(items[..|items| - 1]) + Size(items[|items| - 1])
  }

  function SizeFields(fields: seq<Field>): nat
    decreases fields
  {
    if fields == [] then 0 else SizeFields(fields[..|fields| - 1]) + Size(fields[|fields| - 1].value)
  }

  /** The value of the last member named `key`: `json.loads` keeps the last
      of duplicate keys. */
  function LastMember(fields: seq<Field>, key: string): (r: Option<Json>)
    ensures r.Some? ==> Size(r.value) <= SizeFields(fields)
    ensures r.None? <==> forall k :: 0 <= k < |fields| ==> fields[k].key != key
    decreases |fields|
  {
    if fields == [] then None
    else if fields[|fields| - 1].key == key then Some(fields[|fields| - 1].value)
    else LastMember(fields[..|fields| - 1], key)
  }

  /** `d.get(key)` on an object. */
  function Get(j: Json, key: string): (r: Option<Json>)
    requires j.JObj?
    ensures r.Some? ==> Size(r.value) < Size(j)
  {
    LastMember(j.fields, key)
  }

  /** `d.get(key, default)`. */
  function GetOr(j: Json, key: string, default: Json): (r: Json)
    requires j.JObj?
    ensures Get(j, key).None? ==> r == default
    ensures Get(j, key).Some? ==> r == Get(j, key).value && Size(r) < Size(j)
  {
    match Get(j, key)
    case None => default
    case Some(v) => v
  }

  /** Python truthiness. */
  predicate Truthy(j: Json) {
    match j
    case JNull => false
    case JBool(b) => b
    case JNum(n) => n != 0
    case JStr(s) => s != ""
    case JArr(items) => items != []
    case JObj(fields) => fields != []
  }

  /** What a `for` loop whose body calls `.get` on each element meets: the
      elements of a list; nothing for an empty string or object; and an
      exception otherwise, since a string yields characters and an object
      its keys, neither of which has `.get`, and the rest are not
      iterable. */
  function Iterate(j: Json): (r: Option<seq<Json>>)
    ensures r.Some? ==> SizeAll(r.value) < Size(j)
    ensures j.JArr? ==> r == Some(j.items)
  {
    match j
    case JArr(items) => Some(items)
    case JStr(s) => if s == "" then Some([]) else None
    case JObj(fields) => if fields == [] then Some([]) else None
    case _ => None
  }

  /** `str()` of what `.get` returned, as an f-string shows it. */
  function Show(v: Option<Json>, render: Json -> string): string {
    match v
    case None => "None"
    case Some(JNull) => "None"
    case Some(JStr(s)) => s
    case Some(other) => render(other)
  }

  // ---------------------------------------------------------------------------
  // process_suite

  /** The error line of a failed result: the message, or "" when it is
      falsy, cut to 200 elements and followed by "...". Slicing a number,
      a boolean or an object raises. */
  function ErrorRun(error: Json, render: Json -> string): Run {
    if !error.JObj? then Raise
    else
      var message := match Get(error, "message") case Some(m) => if Truthy(m) then m else JStr("") case None => JStr("");
      match message
      case JStr(s) => Emit(["  Error: " + s[..Min(200, |s|)] + "..."])
      case JArr(items) => Emit(["  Error: " + render(JArr(items[..Min(200, |items|)])) + "..."])
      case _ => Raise
  }

  /** One result: nothing when its status is "passed"; otherwise its status
      and, when it has a truthy error, the error line. */
  function ResultRun(result: Json, render: Json -> string): Run {
    if !result.JObj? then Raise
    else if Get(result, "status") == Some(JStr("passed")) then Emit([])
    else
      var status := Emit(["  Status: " + Show(Get(result, "status"), render)]);
      match Get(result, "error")
      case Some(e) => if Truthy(e) then Then(status, ErrorRun(e, render)) else status
      case None => status
  }

  function ResultsRun(results: seq<Json>, render: Json -> string): Run
    decreases |results|
  {
    if results == [] then Emit([])
    else Then(ResultsRun(results[..|results| - 1], render), ResultRun(results[|results| - 1], render))
  }

  function TestRun(test: Json, render: Json -> string): Run {
    if !test.JObj? then Raise
    else match Iterate(GetOr(test, "results", JArr([])))
      case None => Raise
      case Some(results) => ResultsRun(results, render)
  }

  function TestsRun(tests: seq<Json>, render: Json -> string): Run
    decreases |tests|
  {
    if tests == [] then Emit([])
    else Then(TestsRun(tests[..|tests| - 1], render), TestRun(tests[|tests| - 1], render))
  }

  /** One spec: reported only when its `ok` is present and falsy, with a
      header line and then its tests' results. */
  function SpecRun(spec: Json, render: Json -> string): Run {
    if !spec.JObj? then Raise
    else if Truthy(GetOr(spec, "ok", JBool(true))) then Emit([])
    else
      var header := Emit(["Spec: " + Show(Get(spec, "title"), render) + ": " + Show(Get(spec, "file"), render)]);
      match Iterate(GetOr(spec, "tests", JArr([])))
      case None => Then(header, Raise)
      case Some(tests) => Then(header, TestsRun(tests, render))
  }

  function SpecsRun(specs: seq<Json>, render: Json -> string): Run
    decreases |specs|
  {
    if specs == [] then Emit([])
    else Then(SpecsRun(specs[..|specs| - 1], render), SpecRun(specs[|specs| - 1], render))
  }

  /** The loop over a truthy list-valued member. */
  function Loop(v: Option<Json>, each: seq<Json> -> Run): Run {
    match v
    case None => Emit([])
    case Some(x) =>
      if !Truthy(x) then Emit([])
      else match Iterate(x)
        case None => Raise
        case Some(items) => each(items)
  }

  /** `process_suite`: the suite's own specs, then its child suites in list
      order. */
  function SuiteRun(suite: Json, render: Json -> string): Run
    decreases Size(suite), 0
  {
    if !suite.JObj? then Raise
    else
      var own := Loop(Get(suite, "specs"), specs => SpecsRun(specs, render));
      var children := match Get(suite, "suites")
        case None => Emit([])
        case Some(x) =>
          if !Truthy(x) then Emit([])
          else match Iterate(x)
            case None => Raise
            case Some(items) => SuitesRun(items, render);
      Then(own, children)
  }

  function SuitesRun(suites: seq<Json>, render: Json -> string): Run
    decreases SizeAll(suites), 1
  {
    if suites == [] then Emit([])
    else Then(SuitesRun(suites[..|suites| - 1], render), SuiteRun(suites[|suites| - 1], render))
  }

  /** A spec without `ok` counts as passed and prints nothing. */
  lemma AbsentOkNotReported(fields: seq<Field>, render: Json -> string)
    requires forall k :: 0 <= k < |fields| ==> fields[k].key != "ok"
    ensures SpecRun(JObj(fields), render) == Emit([])
  {
  }

  /** A passed result prints nothing; any other status prints its status
      line first. */
  lemma OnlyFailuresReported(result: Json, render: Json -> string)
    requires result.JObj?
    ensures Get(result, "status") == Some(JStr("passed")) ==> ResultRun(result, render) == Emit([])
    ensures Get(result, "status") != Some(JStr("passed")) ==>
      ResultRun(result, render).lines[0] == "  Status: " + Show(Get(result, "status"), render)
  {
  }

  /** A string message is cut to its first 200 characters and followed by
      "...". */
  lemma MessageTruncated(error: Json, m: string, render: Json -> string)
    requires error.JObj? && Get(error, "message") == Some(JStr(m)) && m != ""
    ensures ErrorRun(error, render) == Emit(["  Error: " + m[..Min(200, |m|)] + "..."])
    ensures |ErrorRun(error, render).lines[0]| <= 9 + 200 + 3
  {
  }

  /** A suite's own specs print before its children, and nothing of the
      children prints when a spec raised. */
  lemma SuiteOrder(suite: Json, specs: seq<Json>, children: seq<Json>, render: Json -> string)
    requires suite.JObj? && specs != [] && children != []
    requires Get(suite, "specs") == Some(JArr(specs)) && Get(suite, "suites") == Some(JArr(children))
    ensures SuiteRun(suite, render) == Then(SpecsRun(specs, render), SuitesRun(children, render))
    ensures !SpecsRun(specs, render).raised ==>
      SuiteRun(suite, render).lines == SpecsRun(specs, render).lines + SuitesRun(children, render).lines
  {
  }

  /** The children are visited in list order: the run over a list is the
      run over any prefix followed by the run over the rest. */
  lemma {:induction false} SuitesInOrder(suites: seq<Json>, k: nat, render: Json -> string)
    requires k <= |suites|
    ensures SuitesRun(suites, render) == Then(SuitesRun(suites[..k], render), SuitesRun(suites[k..], render))
    decreases |suites|
  {
    if k == |suites| {
      assert suites[..k] == suites;
      assert suites[k..] == [];
    } else {
      var n := |suites| - 1;
      var init := suites[..n];
      SuitesInOrder(init, k, render);
      assert init[..k] == suites[..k];
      SuitesRunSnoc(suites[k..], init[k..], suites[n], render);
      ThenAssociative(SuitesRun(suites[..k], render), SuitesRun(init[k..], render), SuiteRun(suites[n], render));
    }
  }

  /** A list of suites that ends in `last` runs the others first. */
  lemma SuitesRunSnoc(suites: seq<Json>, init: seq<Json>, last: Json, render: Json -> string)
    requires suites == init + [last]
    ensures SuitesRun(suites, render) == Then(SuitesRun(init, render), SuiteRun(last, render))
  {
    assert suites[..|suites| - 1] == init;
  }

  // ---------------------------------------------------------------------------
  // read_report

  const Bom: char := '﻿'

  /** `content.replace('﻿', '')`. */
  function StripBom(content: string): (r: string)
    ensures Bom !in r
    ensures IsSubsequence(r, content)
  {
    FilterIsSubsequence(content, c => c != Bom);
    var r := Filter(content, c => c != Bom);
    assert forall k :: 0 <= k < |r| ==> r[k] != Bom;
    r
  }

  /** Removing the byte-order marks twice is removing them once. */
  lemma StripBomIdempotent(content: string)
    ensures StripBom(StripBom(content)) == StripBom(content)
  {
    var once := StripBom(content);
    assert forall k :: 0 <= k < |once| ==> (c => c != Bom)(once[k]);
    FilterAll(once, c => c != Bom);
  }

  /** `content.rfind(c)`. */
  function LastIndexOf(s: string, c: char): (r: Option<nat>)
    ensures r.Some? ==> r.value < |s| && s[r.value] == c && c !in s[r.value + 1..]
    ensures r.None? <==> c !in s
    decreases |s|
  {
    if s == [] then None
    else if s[|s| - 1] == c then
      assert s[|s|..] == [];
      Some(|s| - 1)
    else
      var r := LastIndexOf(s[..|s| - 1], c);
      if r.Some? then
        assert s[r.value + 1..] == s[..|s| - 1][r.value + 1..] + [s[|s| - 1]];
        r
      else
        assert s == s[..|s| - 1] + [s[|s| - 1]];
        r
  }

  /** `content[start:end+1]` between the first '{' and the last '}', with
      Python's slicing: empty when the last '}' comes before the first
      '{'. `None` when either brace is missing. */
  function Span(content: string): (r: Option<string>)
    ensures r.None? <==> '{' !in content || '}' !in content
    ensures r.Some? ==> var i := Text.IndexOf(content, '{').value; var j := LastIndexOf(content, '}').value;
      r.value == (if j < i then "" else content[i..j + 1])
  {
    match (Text.IndexOf(content, '{'), LastIndexOf(content, '}'))
    case (Some(i), Some(j)) => Some(if j + 1 <= i then "" else content[i..j + 1])
    case _ => None
  }

  /** When both braces are in order the span runs from one to the other. */
  lemma SpanBraced(content: string)
    requires Span(content).Some? && Span(content).value != ""
    ensures var s := Span(content).value; s[0] == '{' && s[|s| - 1] == '}'
  {
  }

  /** `"}{"`: the span is empty, and `json.loads("")` raises. */
  lemma ReversedBracesGiveEmptySpan()
    ensures Span("}{") == Some("")
  {
    assert Text.IndexOf("}{", '{') == Some(1);
    assert LastIndexOf("}{", '}') == Some(0);
  }

  /** How `open(...).read()` went. */
  datatype FileRead = Read(text: string) | ReadFailed(message: string)

  function Header(filename: string): string { "--- Reading " + filename + " ---" }

  /** The line the intended `except` branch prints for an exception's text. */
  function ParseError(errorText: string): string { "Error parsing JSON: " + errorText }

  /** The body of the first `except` once the UTF-8 read succeeded: print
      the statistics and walk the suites, or print the first 500 characters
      when there is no brace pair. A parse error escapes. */
  function Extract(content: string, parse: string -> Option<Json>, render: Json -> string): Run {
    match Span(content)
    case None => Emit(["Content does not look like JSON. Printing first 500 chars:", content[..Min(500, |content|)]])
    case Some(text) =>
      match parse(text)
      case None => Raise
      case Some(data) =>
        if !data.JObj? then Raise
        else
          var stats := Emit(["Stats: " + Show(Some(GetOr(data, "stats", JObj([]))), render)]);
          match Iterate(GetOr(data, "suites", JArr([])))
          case None => Then(stats, Raise)
          case Some(suites) => Then(stats, SuitesRun(suites, render))
  }

  /** `read_report` as written. The extraction is nested inside the first
      `except`, so it runs only when the UTF-16 read fails; the second
      `except` on the same `try` ("Error parsing JSON") can never run,
      because the first one catches every exception. */
  function ReadReportRun(filename: string, utf16: FileRead, utf8: FileRead, parse: string -> Option<Json>,
                         render: Json -> string): (r: Run)
    ensures utf16.Read? ==> r == Emit([Header(filename)])
    ensures utf16.ReadFailed? && utf8.ReadFailed? ==>
      r == Emit([Header(filename), "Error reading " + filename + ": " + utf8.message])
    ensures utf16.ReadFailed? && utf8.Read? ==> r == Then(Emit([Header(filename)]), Extract(StripBom(utf8.text), parse, render))
  {
    if utf16.Read? then Emit([Header(filename)])
    else if utf8.ReadFailed? then Emit([Header(filename), "Error reading " + filename + ": " + utf8.message])
    else Then(Emit([Header(filename)]), Extract(StripBom(utf8.text), parse, render))
  }

  /** A report that decodes as UTF-16 is never summarised: only the header
      is printed. */
  lemma Utf16ReportIgnored(filename: string, text: string, utf8: FileRead, parse: string -> Option<Json>, render: Json -> string)
    ensures ReadReportRun(filename, Read(text), utf8, parse, render).lines == [Header(filename)]
  {
  }

  /** A span that does not parse escapes as an exception; "Error parsing
      JSON" is never printed. */
  lemma ParseErrorEscapes(filename: string, text: string, parse: string -> Option<Json>, render: Json -> string, e: string)
    requires Span(StripBom(text)).Some? && parse(Span(StripBom(text)).value).None?
    ensures ReadReportRun(filename, ReadFailed(e), Read(text), parse, render) == Run([Header(filename)], true)
  {
  }

  /** The evidently intended `read_report`: extraction after whichever read
      succeeded, and any exception in it reported as "Error parsing JSON:
      " followed by `errorText`, the exception's text. */
  function ReadReportIntended(filename: string, utf16: FileRead, utf8: FileRead, parse: string -> Option<Json>,
                              render: Json -> string, errorText: string): (r: Run)
    ensures !r.raised
    ensures r.lines != [] && r.lines[0] == Header(filename)
  {
    var content := if utf16.Read? then Some(utf16.text) else if utf8.Read? then Some(utf8.text) else None;
    match content
    case None => Emit([Header(filename), "Error reading " + filename + ": " + utf8.message])
    case Some(text) =>
      var run := Extract(StripBom(text), parse, render);
      Emit([Header(filename)] + run.lines + (if run.raised then [ParseError(errorText)] else []))
  }

  /** Under the intended reading a UTF-16 report is summarised like a UTF-8
      one, and a parse failure is reported instead of escaping. */
  lemma IntendedSummarisesUtf16(filename: string, text: string, utf8: FileRead, parse: string -> Option<Json>,
                                render: Json -> string, errorText: string)
    ensures var r := ReadReportIntended(filename, Read(text), utf8, parse, render, errorText);
      var x := Extract(StripBom(text), parse, render);
      r.lines[1..] == x.lines + (if x.raised then [ParseError(errorText)] else [])
    ensures Span(StripBom(text)).Some? && parse(Span(StripBom(text)).value).None? ==>
      ReadReportIntended(filename, Read(text), utf8, parse, render, errorText)
        == Emit([Header(filename), ParseError(errorText)])
  {
    var x := Extract(StripBom(text), parse, render);
    var tail := if x.raised then [ParseError(errorText)] else [];
    IntendedLines(filename, text, utf8, parse, render, errorText);
    var r := ReadReportIntended(filename, Read(text), utf8, parse, render, errorText);
    assert r.lines == [Header(filename)] + (x.lines + tail);
    if Span(StripBom(text)).Some? && parse(Span(StripBom(text)).value).None? {
      ExtractRaises(StripBom(text), parse, render);
      assert x.lines + tail == [ParseError(errorText)];
    }
  }

  /** The lines of the intended run over a read text: the header, the
      extraction's lines, and the error line when it raised. */
  lemma IntendedLines(filename: string, text: string, utf8: FileRead, parse: string -> Option<Json>,
                      render: Json -> string, errorText: string)
    ensures var x := Extract(StripBom(text), parse, render);
      ReadReportIntended(filename, Read(text), utf8, parse, render, errorText)
        == Emit([Header(filename)] + x.lines + (if x.raised then [ParseError(errorText)] else []))
  {
  }

  /** A span that does not parse raises before printing anything. */
  lemma ExtractRaises(content: string, parse: string -> Option<Json>, render: Json -> string)
    requires Span(content).Some? && parse(Span(content).value).None?
    ensures Extract(content, parse, render) == Raise
  {
  }

  /** `read_report`, step by step, with the extraction corrected as in
      `ReadReportIntended`: `content` is set by whichever read succeeded and
      then by the byte-order-mark removal, and the lines are collected as
      they are printed. */
  method ReadReport(filename: string, utf16: FileRead, utf8: FileRead, parse: string -> Option<Json>,
                    render: Json -> string, errorText: string) returns (r: Run)
    ensures r == ReadReportIntended(filename, utf16, utf8, parse, render, errorText)
  {
    var lines := [Header(filename)];
    var content: Option<string> := None;
    if utf16.Read? {
      content := Some(utf16.text);
    } else if utf8.Read? {
      content := Some(utf8.text);
    }
    if content.None? {
      return Emit(lines + ["Error reading " + filename + ": " + utf8.message]);
    }
    var text := StripBom(content.value);
    var run := Extract(text, parse, render);
    lines := lines + run.lines;
    if run.raised {
      lines := lines + [ParseError(errorText)];
    }
    return Emit(lines);
  }
}
