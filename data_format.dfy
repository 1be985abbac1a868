/** The "::" line format shared by the three data managers: a stored line is
    its fields, each followed by "::", and a data file the text of its lines, each followed by a line separator. */
module DataFormat {
  import opened Common
  import opened Text

  /** split("::") of a stored line gives its fields back when the last one is
      not empty: the empty piece after the final "::" is dropped. */
  lemma SplitStored(fields: seq<string>)
    requires |fields| > 0 && fields[|fields| - 1] != ""
    requires forall k :: 0 <= k < |fields| ==> NoSeparator(fields[k])
    ensures SplitDroppingTrailing(Terminated(fields, Separator), Separator) == fields
  {
    SplitTerminated(fields);
    TerminatedHasSeparator(fields);
    assert (fields + [""])[..|fields|] == fields;
  }

  /** With an empty last field, split("::") gives fewer pieces than fields. */
  lemma SplitStoredEmptyLast(fields: seq<string>)
    requires |fields| > 0 && fields[|fields| - 1] == ""
    requires forall k :: 0 <= k < |fields| ==> NoSeparator(fields[k])
    ensures |SplitDroppingTrailing(Terminated(fields, Separator), Separator)| < |fields|
  {
    SplitTerminated(fields);
    TerminatedHasSeparator(fields);
    assert (fields + [""])[..|fields|] == fields;
    assert fields[..|fields| - 1] + [""] == fields;
  }

  lemma TerminatedCons(f: string, rest: seq<string>)
    ensures Terminated([f] + rest, Separator) == f + Separator + Terminated(rest, Separator)
  {
    assert ([f] + rest)[1..] == rest;
  }

  lemma NumeralField(s: string)
    requires Numeral(s)
    ensures NoSeparator(s)
  {
    assert NoColon(s);
    NoColonIsNoSeparator(s);
  }

  lemma IntField(n: int)
    ensures NoSeparator(IntToString(n)) && IntToString(n) != ""
  {
    NumeralField(IntToString(n));
  }

  lemma DateField(d: Date)
    ensures NoSeparator(FormatDate(d)) && FormatDate(d) != ""
    ensures NoSeparator(FormatPatternDate(d)) && FormatPatternDate(d) != ""
  {
    NumeralField(FormatDate(d));
    NumeralField(FormatPatternDate(d));
  }

  // ---------------------------------------------------------------------------
  // Files as text

  /** The characters at which BufferedReader.readLine ends a line. */
  const ReaderBreaks: set<char> := {'\n', '\r'}

  /** The characters at which Scanner.nextLine ends a line: also NEL and the
      Unicode line and paragraph separators. */
  const ScannerBreaks: set<char> := {'\n', '\r', '\U{85}', '\U{2028}', '\U{2029}'}

  predicate NoBreak(s: string, breaks: set<char>)
  {
    forall j :: 0 <= j < |s| ==> s[j] !in breaks
  }

  /** The position of the first line-ending character, or the length. */
  function FirstBreak(s: string, breaks: set<char>): (k: nat)
    ensures k <= |s| && (k < |s| ==> s[k] in breaks)
    ensures forall j :: 0 <= j < k ==> s[j] !in breaks
  {
    if s == [] || s[0] in breaks then 0
    else
      var k := FirstBreak(s[1..], breaks);
      assert forall j :: 1 <= j < k + 1 ==> s[j] == s[1..][j - 1];
      k + 1
  }

  /** The lines readLine (or nextLine) returns one after the other until the
      end of the text: a line ends at a line-ending character, "\r\n" counting
      as one, and a last line without one still counts. */
  function Lines(text: string, breaks: set<char>): (ls: seq<string>)
    ensures forall i :: 0 <= i < |ls| ==> NoBreak(ls[i], breaks)
    decreases |text|
  {
    if text == [] then []
    else
      var k := FirstBreak(text, breaks);
      if k == |text| then [text]
      else
        var next := if text[k] == '\r' && k + 1 < |text| && text[k + 1] == '\n' then k + 2 else k + 1;
        [text[..k]] + Lines(text[next..], breaks)
  }

  /** The platform line separators println and newLine write. */
  predicate IsLineSeparator(eol: string)
  {
    eol == "\n" || eol == "\r\n"
  }

  /** A file written line by line, each line followed by the line separator. */
  function FileText(lines: seq<string>, eol: string): string
  {
    if lines == [] then "" else lines[0] + eol + FileText(lines[1..], eol)
  }

  /** Reading a file written line by line gives its lines back, when no line
      holds a line-ending character. */
  lemma {:induction false} LinesOfFileText(lines: seq<string>, eol: string, breaks: set<char>)
    requires IsLineSeparator(eol) && '\n' in breaks && '\r' in breaks
    requires forall i :: 0 <= i < |lines| ==> NoBreak(lines[i], breaks)
    ensures Lines(FileText(lines, eol), breaks) == lines
  {
    if lines != [] {
      var l := lines[0];
      var rest := FileText(lines[1..], eol);
      var text := FileText(lines, eol);
      assert text == l + eol + rest;
      assert NoBreak(l, breaks);
      assert FirstBreak(text, breaks) == |l| by {
        var k := FirstBreak(text, breaks);
        assert text[|l|] == eol[0];
        assert forall j :: 0 <= j < |l| ==> text[j] == l[j];
      }
      if eol == "\r\n" {
        assert text[|l| + 1] == '\n';
      }
      assert text[|l| + |eol|..] == rest;
      assert text[..|l|] == l;
      LinesOfFileText(lines[1..], eol, breaks);
    }
  }

  /** Text of digits and signs holds no line-ending character. */
  lemma NumeralNoBreak(s: string, breaks: set<char>)
    requires Numeral(s) && breaks <= ScannerBreaks
    ensures NoBreak(s, breaks)
  {
  }

  lemma NoBreakConcat(a: string, b: string, breaks: set<char>)
    requires NoBreak(a, breaks) && NoBreak(b, breaks)
    ensures NoBreak(a + b, breaks)
  {
    forall j | 0 <= j < |a + b|
      ensures (a + b)[j] !in breaks
    {
      if j < |a| {
        assert (a + b)[j] == a[j];
      } else {
        assert (a + b)[j] == b[j - |a|];
      }
    }
  }

  /** A stored line holds no line-ending character when its fields hold none. */
  lemma {:induction false} TerminatedNoBreak(fields: seq<string>, breaks: set<char>)
    requires breaks <= ScannerBreaks
    requires forall k :: 0 <= k < |fields| ==> NoBreak(fields[k], breaks)
    ensures NoBreak(Terminated(fields, Separator), breaks)
  {
    if fields != [] {
      TerminatedNoBreak(fields[1..], breaks);
      NoBreakConcat(fields[0], Separator, breaks);
      NoBreakConcat(fields[0] + Separator, Terminated(fields[1..], Separator), breaks);
    }
  }

  /** What a loader ends with: the records it took, in order, and how it ended. */
  datatype Outcome<T> = Outcome(records: seq<T>, status: Status)

  /** Each record as a successful decoding. */
  function Decoded<T>(rs: seq<T>): (ds: seq<Result<T>>)
    ensures |ds| == |rs| && forall j :: 0 <= j < |rs| ==> ds[j] == Ok(rs[j])
  {
    if rs == [] then [] else [Ok(rs[0])] + Decoded(rs[1..])
  }
}
