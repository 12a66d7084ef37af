/** Python's `str.splitlines` and `"\n".join`. */
module TextLines {
  predicate IsBreak(c: char) {
    || c == '\n' || c == '\r' || c == '\U{0B}' || c == '\U{0C}' || c == '\U{1C}' || c == '\U{1D}' || c == '\U{1E}'
    || c == '\U{85}' || c == '\U{2028}' || c == '\U{2029}'
  }

  predicate OneLine(text: string) {
    forall i :: 0 <= i < |text| ==> !IsBreak(text[i])
  }

  /** The length of the first line. */
  function FirstBreak(text: string): (n: nat)
    ensures n <= |text| && OneLine(text[..n]) && (n < |text| ==> IsBreak(text[n]))
  {
    if text == "" || IsBreak(text[0]) then 0
    else
      assert forall i :: 1 <= i < 1 + FirstBreak(text[1..]) ==> text[i] == text[1..][..FirstBreak(text[1..])][i - 1];
      1 + FirstBreak(text[1..])
  }

  /** A carriage return and the newline after it are one break. */
  function BreakLength(text: string): (n: nat)
    requires text != ""
    ensures 1 <= n <= |text|
  {
    if |text| >= 2 && text[0] == '\r' && text[1] == '\n' then 2 else 1
  }

  function SplitLines(text: string): seq<string>
    decreases |text|
  {
    if text == "" then []
    else
      var n := FirstBreak(text);
      if n == |text| then [text]
      else [text[..n]] + SplitLines(text[n + BreakLength(text[n..])..])
  }

  function JoinLines(lines: seq<string>): string {
    if lines == [] then ""
    else if |lines| == 1 then lines[0]
    else lines[0] + "\n" + JoinLines(lines[1..])
  }

  ghost predicate AllOneLine(lines: seq<string>) {
    forall i :: 0 <= i < |lines| ==> OneLine(lines[i])
  }

  lemma {:induction false} SplitIsOneLine(text: string)
    ensures AllOneLine(SplitLines(text))
    decreases |text|
  {
    if text != "" {
      var n := FirstBreak(text);
      if n == |text| {
        assert text[..n] == text;
      } else {
        SplitIsOneLine(text[n + BreakLength(text[n..])..]);
      }
    }
  }

  lemma {:induction false} FirstBreakAfter(line: string, rest: string)
    requires OneLine(line) && (rest == "" || IsBreak(rest[0]))
    ensures FirstBreak(line + rest) == |line|
  {
    if line == "" {
      assert line + rest == rest;
    } else {
      assert (line + rest)[1..] == line[1..] + rest;
      FirstBreakAfter(line[1..], rest);
    }
  }

  /** An empty last line leaves no trace in the joined text. */
  function WithoutEmptyEnd(lines: seq<string>): seq<string> {
    if lines != [] && lines[|lines| - 1] == "" then lines[..|lines| - 1] else lines
  }

  /** The first line ends at the first break, whichever of the breaks it is; the pair of a carriage return and a newline
      is one. */
  lemma SplitAtBreak(line: string, mark: string, rest: string)
    requires OneLine(line)
    requires mark == "\r\n" || (|mark| == 1 && IsBreak(mark[0]) && !(mark == "\r" && rest != "" && rest[0] == '\n'))
    ensures SplitLines(line + mark + rest) == [line] + SplitLines(rest)
  {
    var text := line + mark + rest;
    assert text == line + (mark + rest);
    FirstBreakAfter(line, mark + rest);
    MarkIsBreak(mark, rest);
    assert text[..|line|] == line && text[|line|..] == mark + rest;
    assert text[|line| + |mark|..] == rest;
  }

  lemma MarkIsBreak(mark: string, rest: string)
    requires mark == "\r\n" || (|mark| == 1 && IsBreak(mark[0]) && !(mark == "\r" && rest != "" && rest[0] == '\n'))
    ensures BreakLength(mark + rest) == |mark| && IsBreak((mark + rest)[0])
  {
    assert (mark + rest)[0] == mark[0];
    assert |mark| == 1 && rest != "" ==> (mark + rest)[1] == rest[0];
  }

  lemma SplitFirst(line: string, rest: string)
    requires OneLine(line)
    ensures SplitLines(line + "\n" + rest) == [line] + SplitLines(rest)
  {
    SplitAtBreak(line, "\n", rest);
  }

  lemma SplitOne(line: string)
    requires OneLine(line)
    ensures SplitLines(line) == if line == "" then [] else [line]
  {
    assert line + "" == line;
    FirstBreakAfter(line, "");
  }

  lemma EmptyEndBehind(line: string, rest: seq<string>)
    requires rest != []
    ensures WithoutEmptyEnd([line] + rest) == [line] + WithoutEmptyEnd(rest)
  {
  }

  lemma {:induction false} SplitJoin(lines: seq<string>)
    requires AllOneLine(lines)
    ensures SplitLines(JoinLines(lines)) == WithoutEmptyEnd(lines)
  {
    if |lines| == 1 {
      SplitOne(lines[0]);
    } else if |lines| > 1 {
      SplitFirst(lines[0], JoinLines(lines[1..]));
      SplitJoin(lines[1..]);
      EmptyEndBehind(lines[0], lines[1..]);
      assert [lines[0]] + lines[1..] == lines;
    }
  }
}
