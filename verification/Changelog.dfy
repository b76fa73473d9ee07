/**
 One version's section of a Keep a Changelog file, with a footer
 (scripts/changelog-release-notes.py).
 */
module Changelog {
  import opened Options
  import opened Text

  datatype Failure = BadVersion | NoSection | EmptySection

  const LF: char := 10 as char
  const CR: char := 13 as char

  // ---------------------------------------------------------------- lines

  /** The characters Python's `str.splitlines` splits at. */
  predicate IsBreak(c: char) {
    var n := c as int;
    0x0A <= n <= 0x0D || 0x1C <= n <= 0x1E || n == 0x85 || n == 0x2028 || n == 0x2029
  }

  predicate InLine(c: char) {
    !IsBreak(c)
  }

  function SplitLines(s: string): (lines: seq<string>)
    ensures forall i :: 0 <= i < |lines| ==> OneLine(lines[i])
    decreases |s|
  {
    var k := RunEnd(s, 0, InLine);
    if s == [] then []
    else if k == |s| then [s]
    else [s[..k]] + SplitLines(s[if s[k] == CR && k + 1 < |s| && s[k + 1] == LF then k + 2 else k + 1..])
  }

  predicate OneLine(line: string) {
    forall i :: 0 <= i < |line| ==> !IsBreak(line[i])
  }

  /** A file in which every line ends with a line feed. */
  function Terminated(lines: seq<string>): string {
    if lines == [] then [] else lines[0] + [LF] + Terminated(lines[1..])
  }

  lemma {:induction false} SplitUndoesTerminated(lines: seq<string>)
    requires forall i :: 0 <= i < |lines| ==> OneLine(lines[i])
    ensures SplitLines(Terminated(lines)) == lines
  {
    if lines != [] {
      SplitUndoesTerminated(lines[1..]);
      FirstLineSplits(lines[0], [LF], Terminated(lines[1..]));
    }
  }

  /** The ends of lines: one break, or a carriage return with its line feed. */
  predicate LineEnd(e: string) {
    e == [CR, LF] || (|e| == 1 && IsBreak(e[0]))
  }

  /** A line and its end; a lone carriage return is not followed by a line feed. */
  datatype Ended = Ended(line: string, end: string)

  predicate GoodEnds(es: seq<Ended>) {
    && (forall i :: 0 <= i < |es| ==> OneLine(es[i].line) && LineEnd(es[i].end))
    && (forall i :: 0 <= i < |es| - 1 && es[i].end == [CR] && es[i + 1].line == [] ==> es[i + 1].end[0] != LF)
  }

  function Written(es: seq<Ended>, last: string): string {
    if es == [] then last else es[0].line + es[0].end + Written(es[1..], last)
  }

  function LinesOf(es: seq<Ended>, last: string): seq<string> {
    if es == [] then (if last == [] then [] else [last]) else [es[0].line] + LinesOf(es[1..], last)
  }

  /** Splitting gives back the lines, whatever ends them, and a last line without an end. */
  lemma {:induction false} SplitUndoesWriting(es: seq<Ended>, last: string)
    requires GoodEnds(es) && OneLine(last)
    ensures SplitLines(Written(es, last)) == LinesOf(es, last)
  {
    if es == [] {
      RunEndIs(last, 0, |last|, InLine);
    } else {
      var line, end, rest := es[0].line, es[0].end, Written(es[1..], last);
      assert forall i :: 0 <= i < |es| - 1 ==> es[1..][i] == es[i + 1];
      SplitUndoesWriting(es[1..], last);
      if end == [CR] {
        WrittenStartsApart(es, last);
      }
      FirstLineSplits(line, end, rest);
    }
  }

  lemma WrittenStartsApart(es: seq<Ended>, last: string)
    requires GoodEnds(es) && OneLine(last) && es != [] && es[0].end == [CR]
    ensures var rest := Written(es[1..], last); rest == [] || rest[0] != LF
  {
    var rest := Written(es[1..], last);
    if |es| > 1 {
      assert es[1..][0] == es[1];
      assert rest == es[1].line + es[1].end + Written(es[1..][1..], last);
      if es[1].line == [] {
        assert rest[0] == es[1].end[0];
      } else {
        assert rest[0] == es[1].line[0];
      }
    }
  }

  lemma FirstLineSplits(line: string, end: string, rest: string)
    requires OneLine(line) && LineEnd(end) && (end == [CR] && rest != [] ==> rest[0] != LF)
    ensures SplitLines(line + end + rest) == [line] + SplitLines(rest)
  {
    var s, k := line + end + rest, |line|;
    assert forall i :: 0 <= i < k ==> s[i] == line[i];
    assert s[k] == end[0] && IsBreak(s[k]);
    RunEndIs(s, 0, k, InLine);
    assert s[..k] == line && s[k + |end|..] == rest;
    assert |end| == 2 <==> s[k] == CR && k + 1 < |s| && s[k + 1] == LF by {
      if |end| == 2 {
        assert s[k + 1] == end[1];
      } else if rest != [] {
        assert s[k + 1] == rest[0];
      }
    }
  }

  // ---------------------------------------------------------------- the patterns

  /** The end of `x.y.z` at `from`: what the greedy digit runs of the pattern take. */
  function VersionEnd(s: string, from: nat): (r: Option<nat>)
    requires from <= |s|
    ensures r.Some? ==> from <= r.value <= |s|
  {
    var i := RunEnd(s, from, IsDigit);
    if i == from || i == |s| || s[i] != '.' then None else
    var j := RunEnd(s, i + 1, IsDigit);
    if j == i + 1 || j == |s| || s[j] != '.' then None else
    var k := RunEnd(s, j + 1, IsDigit);
    if k == j + 1 then None else Some(k)
  }

  /** `x.y.z` with three non-empty digit strings. */
  predicate IsVersion(v: string) {
    exists i, j :: 0 <= i < |v| && 0 <= j < |v| && Dotted(v, i, j)
  }

  predicate Dotted(v: string, i: int, j: int) {
    && 0 < i && i + 1 < j && j + 1 < |v| && v[i] == '.' && v[j] == '.'
    && forall k :: 0 <= k < |v| && k != i && k != j ==> IsDigit(v[k])
  }

  /** The version in a section heading, `## [x.y.z]…`. */
  function Heading(line: string): (r: Option<string>) {
    if |line| >= 4 && line[..4] == "## [" && VersionEnd(line, 4).Some?
       && VersionEnd(line, 4).value < |line| && line[VersionEnd(line, 4).value] == ']'
    then Some(line[4..VersionEnd(line, 4).value])
    else None
  }

  /** A compare link definition, `[x.y.z]:…`. */
  predicate CompareLink(line: string) {
    && |line| >= 1 && line[0] == '[' && VersionEnd(line, 1).Some?
    && VersionEnd(line, 1).value + 1 < |line|
    && line[VersionEnd(line, 1).value] == ']' && line[VersionEnd(line, 1).value + 1] == ':'
  }

  /** The matcher finds a version exactly where one stands, up to the next character. */
  lemma VersionIsFound(s: string, from: nat, end: nat)
    requires from <= end <= |s| && (end < |s| ==> !IsDigit(s[end]))
    requires IsVersion(s[from..end])
    ensures VersionEnd(s, from) == Some(end)
  {
    var v := s[from..end];
    var i, j :| 0 <= i < |v| && 0 <= j < |v| && Dotted(v, i, j);
    assert forall k :: from <= k < end ==> s[k] == v[k - from];
    DotsAreFound(s, from, from + i, from + j, end);
  }

  lemma DotsAreFound(s: string, from: nat, i: nat, j: nat, end: nat)
    requires from < i && i + 1 < j && j + 1 < end <= |s| && (end < |s| ==> !IsDigit(s[end]))
    requires s[i] == '.' && s[j] == '.'
    requires forall k :: from <= k < end && k != i && k != j ==> IsDigit(s[k])
    ensures VersionEnd(s, from) == Some(end)
  {
    RunEndIs(s, from, i, IsDigit);
    RunEndIs(s, i + 1, j, IsDigit);
    RunEndIs(s, j + 1, end, IsDigit);
  }

  lemma FoundIsVersion(s: string, from: nat)
    requires from <= |s| && VersionEnd(s, from).Some?
    ensures IsVersion(s[from..VersionEnd(s, from).value])
  {
    var end := VersionEnd(s, from).value;
    var v := s[from..end];
    var i := RunEnd(s, from, IsDigit);
    var j := RunEnd(s, i + 1, IsDigit);
    assert forall k :: 0 <= k < |v| ==> v[k] == s[from + k];
    assert Dotted(v, i - from, j - from);
  }

  /** A heading is `## [`, a version and `]`, and whatever follows; it reads as that version only. */
  lemma HeadingIff(line: string, v: string)
    ensures Heading(line) == Some(v) <==> IsVersion(v) && "## [" + v + "]" <= line
  {
    var opening := "## [";
    if Heading(line) == Some(v) {
      FoundIsVersion(line, 4);
      assert line == opening + v + "]" + line[|v| + 5..];
    }
    if IsVersion(v) && opening + v + "]" <= line {
      HeadingRead(v, line[|v| + 5..]);
      assert line == opening + v + "]" + line[|v| + 5..];
    }
  }

  lemma HeadingRead(v: string, tail: string)
    requires IsVersion(v)
    ensures Heading("## [" + v + "]" + tail) == Some(v)
  {
    var line := "## [" + v + "]" + tail;
    assert line[..4] == "## [";
    assert line[4..4 + |v|] == v && line[4 + |v|] == ']';
    VersionIsFound(line, 4, 4 + |v|);
  }

  ghost predicate Links(line: string, v: string) {
    IsVersion(v) && "[" + v + "]:" <= line
  }

  lemma LinkFound(line: string)
    requires CompareLink(line)
    ensures Links(line, line[1..VersionEnd(line, 1).value])
  {
    var end := VersionEnd(line, 1).value;
    FoundIsVersion(line, 1);
    assert line == "[" + line[1..end] + "]:" + line[end + 2..];
  }

  lemma LinkedIsLink(line: string, v: string)
    requires Links(line, v)
    ensures CompareLink(line)
  {
    LinkRead(v, line[|v| + 3..]);
    assert line == "[" + v + "]:" + line[|v| + 3..];
  }

  /** A compare link is `[`, a version and `]:`, and whatever follows. */
  lemma CompareLinkIff(line: string)
    ensures CompareLink(line) <==> exists v :: Links(line, v)
  {
    if CompareLink(line) {
      LinkFound(line);
    }
    if v :| Links(line, v) {
      LinkedIsLink(line, v);
    }
  }

  lemma LinkRead(v: string, tail: string)
    requires IsVersion(v)
    ensures CompareLink("[" + v + "]:" + tail)
  {
    var line := "[" + v + "]:" + tail;
    assert line[1..1 + |v|] == v && line[1 + |v|] == ']' && line[2 + |v|] == ':';
    VersionIsFound(line, 1, 1 + |v|);
  }

  // ---------------------------------------------------------------- the slice

  predicate Starts(line: string, version: string) {
    Heading(line) == Some(version)
  }

  /** A heading of another version, or a compare link. */
  predicate Stops(line: string, version: string) {
    if Heading(line).None? then CompareLink(line) else Heading(line).value != version
  }

  /**
   The lines of a version: from the last of its headings that comes before the first
   stop after its first heading, to that stop or the end of the file.
   */
  predicate IsSlice(lines: seq<string>, version: string, start: nat, end: nat) {
    && start < end <= |lines| && Starts(lines[start], version)
    && (forall k :: start < k < end ==> !Starts(lines[k], version) && !Stops(lines[k], version))
    && (end < |lines| ==> Stops(lines[end], version))
    && NoStopAfterStart(lines, version, start)
  }

  /** Before `index`, no stop comes after a heading of the version. */
  predicate NoStopAfterStart(lines: seq<string>, version: string, index: nat)
    requires index <= |lines|
  {
    forall k, j :: 0 <= k <= j < index && Starts(lines[k], version) ==> !Stops(lines[j], version)
  }

  function Section(lines: seq<string>, start: nat, end: nat): string
    requires start <= end <= |lines|
  {
    Trim(Join(lines[start..end], LF), PyWhitespace)
  }

  /** What extraction answers: the one slice there is, or that no heading names the version. */
  ghost predicate Extracted(changelog: string, version: string, r: Result<string, Failure>) {
    var lines := SplitLines(changelog);
    match r
    case Ok(section) =>
      exists start, end :: IsSlice(lines, version, start, end) && section == Section(lines, start, end)
    case Err(failure) => failure.NoSection? && forall k :: 0 <= k < |lines| ==> !Starts(lines[k], version)
  }

  lemma SliceIsUnique(lines: seq<string>, version: string, start: nat, end: nat, start': nat, end': nat)
    requires IsSlice(lines, version, start, end) && IsSlice(lines, version, start', end')
    ensures start == start' && end == end'
  {
    assert Starts(lines[start], version) && Starts(lines[start'], version);
  }

  /** The specification leaves one answer. */
  lemma ExtractedIsUnique(changelog: string, version: string, r: Result<string, Failure>, r': Result<string, Failure>)
    requires Extracted(changelog, version, r) && Extracted(changelog, version, r')
    ensures r == r'
  {
    var lines := SplitLines(changelog);
    if r.Ok? && r'.Ok? {
      var s, e :| IsSlice(lines, version, s, e) && r.value == Section(lines, s, e);
      var s', e' :| IsSlice(lines, version, s', e') && r'.value == Section(lines, s', e');
      SliceIsUnique(lines, version, s, e, s', e');
    }
  }

  lemma {:induction false} RightTrimKeepsStart(s: string)
    requires s != [] && !PyWhitespace(s[0])
    ensures TrimRight(s, PyWhitespace) != []
    decreases |s|
  {
    if PyWhitespace(s[|s| - 1]) {
      RightTrimKeepsStart(s[..|s| - 1]);
    }
  }

  /** A section starts with its heading, so it is never empty. */
  lemma SectionIsNotEmpty(lines: seq<string>, version: string, start: nat, end: nat)
    requires IsSlice(lines, version, start, end)
    ensures Section(lines, start, end) != []
  {
    var slice := lines[start..end];
    assert slice[0] == lines[start] && lines[start][0] == "## ["[0];
    assert Join(slice, LF)[0] == '#';
    RightTrimKeepsStart(Join(slice, LF));
  }

  /** `start` is the last heading of the version before `index`, and no stop has come since the first. */
  predicate LastStart(lines: seq<string>, version: string, start: nat, index: nat) {
    && start < index <= |lines| && Starts(lines[start], version)
    && (forall k :: start < k < index ==> !Starts(lines[k], version) && !Stops(lines[k], version))
    && NoStopAfterStart(lines, version, index)
  }

  predicate NoStart(lines: seq<string>, version: string, index: nat)
    requires index <= |lines|
  {
    forall k :: 0 <= k < index ==> !Starts(lines[k], version)
  }

  /** What the loop knows of the lines before `index`. */
  predicate Scanned(lines: seq<string>, version: string, start: Option<nat>, index: nat)
    requires index <= |lines|
  {
    if start.None? then NoStart(lines, version, index) else LastStart(lines, version, start.value, index)
  }

  /** A heading of the version becomes the start. */
  lemma StartAt(lines: seq<string>, version: string, start: Option<nat>, index: nat)
    requires index < |lines| && Starts(lines[index], version) && Scanned(lines, version, start, index)
    ensures Scanned(lines, version, Some(index), index + 1)
  {
    assert !Stops(lines[index], version);
    assert NoStopAfterStart(lines, version, index);
  }

  /** A line that is no such heading, and no stop behind one, is passed over. */
  lemma PassOver(lines: seq<string>, version: string, start: Option<nat>, index: nat)
    requires index < |lines| && !Starts(lines[index], version) && Scanned(lines, version, start, index)
    requires start.Some? ==> !Stops(lines[index], version)
    ensures Scanned(lines, version, start, index + 1)
  {
  }

  /** A stop behind a start, or the end of the file, ends the slice. */
  lemma EndAt(lines: seq<string>, version: string, start: nat, index: nat)
    requires index <= |lines| && LastStart(lines, version, start, index)
    requires index < |lines| ==> Stops(lines[index], version)
    ensures IsSlice(lines, version, start, index)
  {
  }

  /** The loop of `extract_section`. */
  method FindSlice(lines: seq<string>, version: string) returns (start: Option<nat>, end: nat)
    ensures start.None? ==> NoStart(lines, version, |lines|)
    ensures start.Some? ==> IsSlice(lines, version, start.value, end)
  {
    start, end := None, |lines|;
    var index := 0;
    while index < |lines|
      invariant index <= |lines| == end
      invariant Scanned(lines, version, start, index)
    {
      var heading := Heading(lines[index]);
      if heading.None? {
        if start.Some? && CompareLink(lines[index]) {
          EndAt(lines, version, start.value, index);
          return start, index;
        }
        PassOver(lines, version, start, index);
      } else if heading.value == version {
        StartAt(lines, version, start, index);
        start := Some(index);
      } else if start.Some? {
        EndAt(lines, version, start.value, index);
        return start, index;
      } else {
        PassOver(lines, version, start, index);
      }
      index := index + 1;
    }
    if start.Some? {
      EndAt(lines, version, start.value, end);
    }
  }

  /** `extract_section`. */
  method ExtractSection(changelog: string, version: string) returns (r: Result<string, Failure>)
    ensures Extracted(changelog, version, r)
  {
    var lines := SplitLines(changelog);
    var start, end := FindSlice(lines, version);
    if start.None? {
      return Err(NoSection);
    }
    var section := Trim(Join(lines[start.value..end], LF), PyWhitespace);
    SectionIsNotEmpty(lines, version, start.value, end);
    r := if section == [] then Err(EmptySection) else Ok(section);
  }

  // ---------------------------------------------------------------- extraction undoes rendering

  datatype Release = Release(version: string, tail: string, body: seq<string>)

  function HeadingLine(x: Release): string {
    "## [" + x.version + "]" + x.tail
  }

  function ReleaseLines(x: Release): seq<string> {
    [HeadingLine(x)] + x.body
  }

  function AllLines(releases: seq<Release>): seq<string> {
    if releases == [] then [] else ReleaseLines(releases[0]) + AllLines(releases[1..])
  }

  predicate PlainLine(line: string) {
    OneLine(line) && Heading(line).None? && !CompareLink(line)
  }

  predicate GoodRelease(x: Release) {
    && IsVersion(x.version) && OneLine(x.version) && OneLine(x.tail)
    && forall k :: 0 <= k < |x.body| ==> PlainLine(x.body[k])
  }

  predicate GoodReleases(releases: seq<Release>) {
    && (forall i :: 0 <= i < |releases| ==> GoodRelease(releases[i]))
    && (forall i, j :: 0 <= i < j < |releases| ==> releases[i].version != releases[j].version)
  }

  /** An introduction without headings, sections, and link definitions that start with a compare link. */
  predicate GoodChangelog(intro: seq<string>, releases: seq<Release>, links: seq<string>) {
    && (forall k :: 0 <= k < |intro| ==> OneLine(intro[k]) && Heading(intro[k]).None?)
    && GoodReleases(releases)
    && (forall k :: 0 <= k < |links| ==> OneLine(links[k]))
    && (links != [] ==> CompareLink(links[0]))
  }

  function Rendered(intro: seq<string>, releases: seq<Release>, links: seq<string>): string {
    Terminated(intro + AllLines(releases) + links)
  }

  lemma CompareLinkIsNoHeading(line: string)
    requires CompareLink(line)
    ensures Heading(line).None?
  {
    if |line| >= 4 {
      assert line[..4][0] == '[';
    }
  }

  lemma {:induction false} LinesAreHeadingsOrPlain(releases: seq<Release>, version: string)
    requires forall i :: 0 <= i < |releases| ==> GoodRelease(releases[i]) && releases[i].version != version
    ensures forall line :: line in AllLines(releases) ==> OneLine(line) && !Starts(line, version)
  {
    if releases != [] {
      LinesAreHeadingsOrPlain(releases[1..], version);
      HeadingIsOneLine(releases[0]);
    }
  }

  lemma HeadingIsOneLine(x: Release)
    requires GoodRelease(x)
    ensures OneLine(HeadingLine(x)) && Heading(HeadingLine(x)) == Some(x.version)
    ensures forall line :: line in ReleaseLines(x) ==> OneLine(line) && (line == HeadingLine(x) || Heading(line).None?)
  {
    HeadingRead(x.version, x.tail);
  }

  lemma {:induction false} LinesSplit(releases: seq<Release>, i: nat)
    requires i < |releases|
    ensures AllLines(releases) == AllLines(releases[..i]) + ReleaseLines(releases[i]) + AllLines(releases[i + 1..])
  {
    if i == 0 {
      assert releases[..0] == [];
    } else {
      LinesSplit(releases[1..], i - 1);
      assert releases[1..][..i - 1] == releases[..i][1..] && releases[1..][i..] == releases[i + 1..];
    }
  }

  lemma SliceInContext(before: seq<string>, x: Release, after: seq<string>)
    requires GoodRelease(x)
    requires forall line :: line in before ==> !Starts(line, x.version)
    requires after != [] ==> Stops(after[0], x.version)
    ensures IsSlice(before + ReleaseLines(x) + after, x.version, |before|, |before| + |ReleaseLines(x)|)
  {
    var lines := before + ReleaseLines(x) + after;
    HeadingIsOneLine(x);
    assert lines[|before|] == HeadingLine(x);
    forall k | |before| < k < |before| + |ReleaseLines(x)|
      ensures !Starts(lines[k], x.version) && !Stops(lines[k], x.version)
    {
      assert lines[k] == x.body[k - |before| - 1];
    }
    assert forall k :: 0 <= k < |before| ==> lines[k] == before[k];
    if after != [] {
      assert lines[|before| + |ReleaseLines(x)|] == after[0];
    }
  }

  /** Extracting a version from a rendered changelog gives exactly its heading and body, trimmed. */
  lemma ExtractionUndoesRendering(intro: seq<string>, releases: seq<Release>, links: seq<string>, i: nat,
                                  r: Result<string, Failure>)
    requires GoodChangelog(intro, releases, links) && i < |releases|
    requires Extracted(Rendered(intro, releases, links), releases[i].version, r)
    ensures r == Ok(Trim(Join(ReleaseLines(releases[i]), LF), PyWhitespace))
  {
    var x, text := releases[i], Rendered(intro, releases, links);
    var before, after := intro + AllLines(releases[..i]), AllLines(releases[i + 1..]) + links;
    SliceOfRelease(intro, releases, links, i);
    RenderedSplits(intro, releases, links);
    AnswerInContext(text, before, x, after, r);
  }

  lemma AnswerInContext(text: string, before: seq<string>, x: Release, after: seq<string>, r: Result<string, Failure>)
    requires SplitLines(text) == before + ReleaseLines(x) + after
    requires IsSlice(SplitLines(text), x.version, |before|, |before| + |ReleaseLines(x)|)
    requires Extracted(text, x.version, r)
    ensures r == Ok(Trim(Join(ReleaseLines(x), LF), PyWhitespace))
  {
    Middle(before, ReleaseLines(x), after);
    SliceIsTheAnswer(text, x.version, |before|, |before| + |ReleaseLines(x)|, r);
  }

  lemma Middle(a: seq<string>, b: seq<string>, c: seq<string>)
    ensures (a + b + c)[|a|..|a| + |b|] == b
  {
  }

  lemma SliceIsTheAnswer(text: string, version: string, start: nat, end: nat, r: Result<string, Failure>)
    requires IsSlice(SplitLines(text), version, start, end) && Extracted(text, version, r)
    ensures r == Ok(Section(SplitLines(text), start, end))
  {
    ExtractedIsUnique(text, version, r, Ok(Section(SplitLines(text), start, end)));
  }

  lemma {:induction false} LinesAreOneLine(releases: seq<Release>)
    requires forall i :: 0 <= i < |releases| ==> GoodRelease(releases[i])
    ensures forall line :: line in AllLines(releases) ==> OneLine(line)
  {
    if releases != [] {
      LinesAreOneLine(releases[1..]);
      HeadingIsOneLine(releases[0]);
    }
  }

  lemma RenderedSplits(intro: seq<string>, releases: seq<Release>, links: seq<string>)
    requires GoodChangelog(intro, releases, links)
    ensures SplitLines(Rendered(intro, releases, links)) == intro + AllLines(releases) + links
  {
    LinesAreOneLine(releases);
    var lines := intro + AllLines(releases) + links;
    forall k | 0 <= k < |lines|
      ensures OneLine(lines[k])
    {
      assert lines[k] in intro || lines[k] in AllLines(releases) || lines[k] in links;
    }
    SplitUndoesTerminated(lines);
  }

  lemma SliceOfRelease(intro: seq<string>, releases: seq<Release>, links: seq<string>, i: nat)
    requires GoodChangelog(intro, releases, links) && i < |releases|
    ensures
      var x := releases[i];
      var before, after := intro + AllLines(releases[..i]), AllLines(releases[i + 1..]) + links;
      var lines := before + ReleaseLines(x) + after;
      && lines == intro + AllLines(releases) + links
      && IsSlice(lines, x.version, |before|, |before| + |ReleaseLines(x)|)
  {
    var x := releases[i];
    var before, after := intro + AllLines(releases[..i]), AllLines(releases[i + 1..]) + links;
    LinesSplit(releases, i);
    LinesAreHeadingsOrPlain(releases[..i], x.version);
    LinesAreHeadingsOrPlain(releases[i + 1..], x.version);
    HeadingIsOneLine(x);
    NextLineStops(releases, links, i);
    SliceInContext(before, x, after);
    Regroup(intro, AllLines(releases[..i]), ReleaseLines(x), AllLines(releases[i + 1..]), links);
  }

  lemma Regroup(a: seq<string>, b: seq<string>, c: seq<string>, d: seq<string>, e: seq<string>)
    ensures a + b + c + (d + e) == a + (b + c + d) + e
  {
  }

  lemma NextLineStops(releases: seq<Release>, links: seq<string>, i: nat)
    requires GoodReleases(releases) && i < |releases| && (links != [] ==> CompareLink(links[0]))
    ensures
      var after := AllLines(releases[i + 1..]) + links;
      after != [] ==> Stops(after[0], releases[i].version)
  {
    var after := AllLines(releases[i + 1..]) + links;
    if i + 1 < |releases| {
      HeadingIsOneLine(releases[i + 1]);
      assert releases[i + 1..][0] == releases[i + 1];
      assert after[0] == HeadingLine(releases[i + 1]);
    } else if links != [] {
      assert after == links;
      CompareLinkIsNoHeading(links[0]);
    }
  }

  // ---------------------------------------------------------------- the notes

  /** The version argument, with or without a leading `v`. */
  function VersionArgument(arg: string): Option<string> {
    var v := if arg != [] && arg[0] == 'v' then arg[1..] else arg;
    if VersionEnd(v, 0) == Some(|v|) then Some(v) else None
  }

  lemma VersionArgumentIff(arg: string, v: string)
    ensures VersionArgument(arg) == Some(v) <==> IsVersion(v) && (arg == v || arg == "v" + v)
  {
    if IsVersion(v) && (arg == v || arg == "v" + v) {
      BareVersionIsFound(v);
      assert arg == "v" + v ==> arg[1..] == v;
    }
    if VersionArgument(arg) == Some(v) {
      FoundIsVersion(v, 0);
      assert v[0..|v|] == v;
      if arg != v {
        assert arg == "v" + arg[1..];
      }
    }
  }

  lemma BareVersionIsFound(v: string)
    requires IsVersion(v)
    ensures VersionEnd(v, 0) == Some(|v|) && IsDigit(v[0])
  {
    var i, j :| 0 <= i < |v| && 0 <= j < |v| && Dotted(v, i, j);
    assert v[0..|v|] == v;
    VersionIsFound(v, 0, |v|);
  }

  /** `main`, on the texts of the two files. */
  method ReleaseNotes(arg: string, changelog: string, footer: string) returns (r: Result<string, Failure>)
    ensures r == Err(BadVersion) <==> VersionArgument(arg).None?
    ensures r.Ok? ==> exists section ::
                        && Extracted(changelog, VersionArgument(arg).value, Ok(section))
                        && r.value == section + [LF, LF] + Trim(footer, PyWhitespace) + [LF]
    ensures r.Err? && r.error != BadVersion ==> Extracted(changelog, VersionArgument(arg).value, r)
  {
    var version := VersionArgument(arg);
    if version.None? {
      return Err(BadVersion);
    }
    var section := ExtractSection(changelog, version.value);
    match section
    case Ok(text) => return Ok(text + [LF, LF] + Trim(footer, PyWhitespace) + [LF]);
    case Err(failure) => return Err(failure);
  }
}
