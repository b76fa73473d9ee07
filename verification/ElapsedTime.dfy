/**
 The process list of `ps`: the elapsed-time column, `[[dd-]hh:]mm:ss` (POSIX.1-2017,
 ps, section STDOUT), and the rows around it (e2e/helpers/webkitProcesses.ts).
 */
module ElapsedTime {
  import opened Options
  import opened Text

  // ---------------------------------------------------------------- the grammar

  datatype Parts = Parts(days: Option<string>, hours: Option<string>, minutes: string, seconds: string)

  predicate Digits(s: string, least: nat, most: nat) {
    least <= |s| <= most && AllDigits(s)
  }

  predicate WellShaped(p: Parts) {
    && (p.days.Some? ==> Digits(p.days.value, 1, |p.days.value|))
    && (p.hours.Some? ==> Digits(p.hours.value, 1, 2))
    && Digits(p.minutes, 1, 2) && Digits(p.seconds, 2, 2)
  }

  function ClockFields(p: Parts): seq<string> {
    (if p.hours.Some? then [p.hours.value] else []) + [p.minutes, p.seconds]
  }

  function Clock(p: Parts): string {
    (if p.hours.Some? then p.hours.value + [':'] else []) + (p.minutes + [':'] + p.seconds)
  }

  function Spelled(p: Parts): string {
    (if p.days.Some? then p.days.value + ['-'] else []) + Clock(p)
  }

  function NumberOr0(s: Option<string>): nat
    requires s.Some? ==> AllDigits(s.value)
  {
    if s.Some? then Number(s.value) else 0
  }

  function Milliseconds(p: Parts): nat
    requires WellShaped(p)
  {
    (NumberOr0(p.days) * 24 * 3600 + NumberOr0(p.hours) * 3600 + Number(p.minutes) * 60 + Number(p.seconds)) * 1000
  }

  // ---------------------------------------------------------------- the parser

  /** What the pattern captures: days up to a dash, then two or three fields between colons. */
  function Captured(s: string): Option<Parts> {
    var k := IndexOf(s, '-');
    if k == |s| then CapturedClock(None, Split(s, ':'))
    else CapturedClock(Some(s[..k]), Split(s[k + 1..], ':'))
  }

  function CapturedClock(days: Option<string>, fields: seq<string>): Option<Parts> {
    if |fields| == 2 && WellShaped(Parts(days, None, fields[0], fields[1]))
    then Some(Parts(days, None, fields[0], fields[1]))
    else if |fields| == 3 && WellShaped(Parts(days, Some(fields[0]), fields[1], fields[2]))
    then Some(Parts(days, Some(fields[0]), fields[1], fields[2]))
    else None
  }

  lemma CapturedIsWellShaped(s: string)
    ensures Captured(s).Some? ==> WellShaped(Captured(s).value)
  {
  }

  /** `parseElapsedTimeMs`. */
  function Parse(etime: string): Option<nat> {
    var p := Captured(Trim(etime, JsWhitespace));
    CapturedIsWellShaped(Trim(etime, JsWhitespace));
    if p.None? then None else Some(Milliseconds(p.value))
  }

  // ---------------------------------------------------------------- parser and grammar agree

  lemma ClockIsJoined(p: Parts)
    ensures Clock(p) == Join(ClockFields(p), ':')
  {
    var f := ClockFields(p);
    if p.hours.Some? {
      assert f == [p.hours.value, p.minutes, p.seconds];
      assert f[1..] == [p.minutes, p.seconds] && f[1..][1..] == [p.seconds];
      assert Join(f[1..], ':') == p.minutes + [':'] + p.seconds;
    } else {
      assert f == [p.minutes, p.seconds] && f[1..] == [p.seconds];
    }
  }

  lemma ClockIsRead(p: Parts)
    requires WellShaped(p)
    ensures CapturedClock(p.days, Split(Clock(p), ':')) == Some(p)
  {
    var f := ClockFields(p);
    assert forall i :: 0 <= i < |f| ==> AllDigits(f[i]);
    forall i | 0 <= i < |f|
      ensures ':' !in f[i]
    {
    }
    ClockIsJoined(p);
    SplitUndoesJoin(f, ':');
  }

  lemma ClockHasNoDash(p: Parts)
    requires WellShaped(p)
    ensures '-' !in Clock(p)
  {
  }

  /** The parser reads back every well-shaped spelling; so no text has two readings. */
  lemma SpelledIsCaptured(p: Parts)
    requires WellShaped(p)
    ensures Captured(Spelled(p)) == Some(p)
  {
    ClockIsRead(p);
    ClockHasNoDash(p);
    if p.days.Some? {
      DaysAreCut(p.days.value, Clock(p));
    } else {
      assert Spelled(p) == Clock(p);
    }
  }

  lemma DaysAreCut(days: string, clock: string)
    requires AllDigits(days)
    ensures
      var s := days + ['-'] + clock;
      IndexOf(s, '-') == |days| && s[..|days|] == days && s[|days| + 1..] == clock
  {
    FirstField(days, clock, '-');
  }

  lemma ClockIsSpelled(days: Option<string>, clock: string)
    requires CapturedClock(days, Split(clock, ':')).Some?
    ensures
      var p := CapturedClock(days, Split(clock, ':')).value;
      p.days == days && Clock(p) == clock
  {
    var f := Split(clock, ':');
    FieldsOfCaptured(days, f);
    JoinUndoesSplit(clock, ':');
    ClockIsJoined(CapturedClock(days, f).value);
  }

  lemma FieldsOfCaptured(days: Option<string>, f: seq<string>)
    requires CapturedClock(days, f).Some?
    ensures CapturedClock(days, f).value.days == days && ClockFields(CapturedClock(days, f).value) == f
  {
    if |f| == 2 {
      assert f == [f[0], f[1]];
    } else {
      assert f == [f[0], f[1], f[2]];
    }
  }

  lemma SpelledIs(p: Parts)
    ensures p.days.None? ==> Spelled(p) == Clock(p)
    ensures p.days.Some? ==> Spelled(p) == p.days.value + ['-'] + Clock(p)
  {
  }

  lemma CapturedIsSpelled(s: string)
    requires Captured(s).Some?
    ensures Spelled(Captured(s).value) == s
  {
    var k := IndexOf(s, '-');
    SpelledIs(Captured(s).value);
    if k == |s| {
      ClockIsSpelled(None, s);
    } else {
      var days, clock := s[..k], s[k + 1..];
      CutAt(s, k);
      ClockIsSpelled(Some(days), clock);
    }
  }

  /** A text has a value exactly when, trimmed, it is a well-shaped spelling, and then that one's. */
  lemma ParseIff(etime: string, ms: nat)
    ensures
      Parse(etime) == Some(ms) <==>
      exists p :: WellShaped(p) && Spelled(p) == Trim(etime, JsWhitespace) && Milliseconds(p) == ms
  {
    var s := Trim(etime, JsWhitespace);
    if Captured(s).Some? {
      CapturedIsSpelled(s);
      CapturedIsWellShaped(s);
    }
    if p :| WellShaped(p) && Spelled(p) == s && Milliseconds(p) == ms {
      SpelledIsCaptured(p);
    }
  }

  // ---------------------------------------------------------------- the column as ps prints it

  function TwoDigits(n: nat): string
    requires n < 100
  {
    [Digit(n / 10), Digit(n % 10)]
  }

  function Zeros(count: nat): string {
    seq(count, _ => '0')
  }

  /** `n` seconds, with the days padded by any number of zeros. */
  function Rendered(n: nat, padding: nat): Parts {
    var days, hours := n / 86400, n / 3600 % 24;
    Parts(
      if days > 0 then Some(Zeros(padding) + Decimal(days)) else None,
      if n >= 3600 then Some(TwoDigits(hours)) else None,
      TwoDigits(n / 60 % 60),
      TwoDigits(n % 60))
  }

  lemma NumberOfTwoDigits(n: nat)
    requires n < 100
    ensures AllDigits(TwoDigits(n)) && Number(TwoDigits(n)) == n
  {
    var s := TwoDigits(n);
    assert s[..1] == [s[0]] && [s[0]][..0] == [];
    assert Number(s[..1]) == n / 10;
  }

  lemma RenderedMeans(n: nat, padding: nat)
    ensures WellShaped(Rendered(n, padding)) && Milliseconds(Rendered(n, padding)) == 1000 * n
  {
    var p := Rendered(n, padding);
    var days, hours := n / 86400, n / 3600 % 24;
    NumberOfTwoDigits(hours);
    NumberOfTwoDigits(n / 60 % 60);
    NumberOfTwoDigits(n % 60);
    if days > 0 {
      assert forall i :: 0 <= i < padding ==> Zeros(padding)[i] == '0';
      NumberOfZeros(Zeros(padding), Decimal(days));
      NumberOfDecimal(days);
    }
    assert NumberOr0(p.days) == days && NumberOr0(p.hours) == hours;
    SplitSeconds(n);
  }

  lemma SplitSeconds(n: nat)
    ensures n == n / 86400 * 86400 + n / 3600 % 24 * 3600 + n / 60 % 60 * 60 + n % 60
    ensures n < 3600 ==> n / 3600 % 24 == 0
  {
    var m := n / 60;
    var h := m / 60;
    assert n == 60 * m + n % 60 && m == 60 * h + m % 60 && h == 24 * (h / 24) + h % 24;
    assert n / 3600 == h && n / 86400 == h / 24;
  }

  lemma SpelledHasSolidEnds(p: Parts)
    requires WellShaped(p)
    ensures
      var s := Spelled(p);
      s != [] && !JsWhitespace(s[0]) && !JsWhitespace(s[|s| - 1])
  {
    var s := Spelled(p);
    assert s[|s| - 1] == Clock(p)[|Clock(p)| - 1] == p.seconds[1];
    assert IsDigit(s[0]);
  }

  /** Parsing undoes printing, for any number of seconds, any padding and any blanks around it. */
  lemma ParseUndoesRendering(n: nat, padding: nat, before: string, after: string)
    requires Blank(before, JsWhitespace) && Blank(after, JsWhitespace)
    ensures Parse(before + Spelled(Rendered(n, padding)) + after) == Some(1000 * n)
  {
    var p := Rendered(n, padding);
    RenderedMeans(n, padding);
    SpelledHasSolidEnds(p);
    TrimPadded(before, Spelled(p), after, JsWhitespace);
    SpelledIsCaptured(p);
  }

  // ---------------------------------------------------------------- rows

  const LF: char := 10 as char

  /** A row of the list; the processor share keeps its spelling. */
  datatype Process = Process(
    pid: nat, parentPid: nat, rss: nat, cpu: string, elapsed: nat, name: string, command: string)

  predicate Solid(c: char) {
    !JsWhitespace(c)
  }

  predicate CpuChar(c: char) {
    IsDigit(c) || c == '.'
  }

  /** What `.` does not match. */
  predicate LineTerminator(c: char) {
    var n := c as int;
    n == 0x0A || n == 0x0D || n == 0x2028 || n == 0x2029
  }

  /** A token of `p` characters and the blanks behind it: the token, and what follows. */
  function Token(s: string, p: char -> bool): Option<(string, string)> {
    var k := RunEnd(s, 0, p);
    var next := RunEnd(s, k, JsWhitespace);
    if k == 0 || next == k then None else Some((s[..k], s[next..]))
  }

  lemma RunIsToken(s: string, p: char -> bool)
    ensures forall i :: 0 <= i < RunEnd(s, 0, p) ==> p(s[..RunEnd(s, 0, p)][i])
  {
  }

  /** A number column and what follows. */
  function NumberToken(s: string): Option<(nat, string)> {
    var token := Token(s, IsDigit);
    RunIsToken(s, IsDigit);
    if token.None? then None else Some((Number(token.value.0), token.value.1))
  }

  /** The name and the command, which may be empty. */
  function NameAndCommand(s: string): Option<(string, string)> {
    var k := RunEnd(s, 0, Solid);
    var command := s[RunEnd(s, k, JsWhitespace)..];
    if k == 0 || exists c :: c in command && LineTerminator(c) then None else Some((s[..k], command))
  }

  /** From the processor share on. */
  function ReadColumns(s: string, pid: nat, parent: nat, rss: nat): Option<Process> {
    var cpu := Token(s, CpuChar);
    if cpu.None? then None else
    var etime := Token(cpu.value.1, Solid);
    if etime.None? then None else
    var rest := NameAndCommand(etime.value.1);
    if rest.None? then None else
    var elapsed := Parse(etime.value.0);
    if elapsed.None? then None else
    Some(Process(pid, parent, rss, cpu.value.0, elapsed.value, rest.value.0, rest.value.1))
  }

  /** One trimmed line; `None` where the pattern or the elapsed time does not match. */
  function ReadRow(line: string): Option<Process> {
    var pid := NumberToken(line);
    if pid.None? then None else
    var parent := NumberToken(pid.value.1);
    if parent.None? then None else
    var rss := NumberToken(parent.value.1);
    if rss.None? then None else
    ReadColumns(rss.value.1, pid.value.0, parent.value.0, rss.value.0)
  }

  /** Rows in order, unreadable lines left out. */
  function ReadRows(lines: seq<string>): seq<Process> {
    if lines == [] then []
    else
      var row := ReadRow(Trim(lines[|lines| - 1], JsWhitespace));
      ReadRows(lines[..|lines| - 1]) + if row.Some? then [row.value] else []
  }

  /** `parseProcessSnapshot`: the start instant is kept as the elapsed time before the snapshot. */
  method ParseSnapshot(output: string) returns (records: seq<Process>)
    ensures records == ReadRows(Split(output, LF))
  {
    records := [];
    var lines := Split(output, LF);
    for i := 0 to |lines|
      invariant records == ReadRows(lines[..i])
    {
      assert lines[..i + 1][..i] == lines[..i];
      var row := ReadRow(Trim(lines[i], JsWhitespace));
      if row.None? {
        continue;
      }
      records := records + [row.value];
    }
    assert lines[..|lines|] == lines;
  }

  // ---------------------------------------------------------------- which lines are rows

  predicate Gap(s: string) {
    s != [] && Blank(s, JsWhitespace)
  }

  predicate Made(token: string, p: char -> bool) {
    token != [] && forall i :: 0 <= i < |token| ==> p(token[i])
  }

  /** The token, a gap, and what follows, which starts with no blank. */
  predicate Then(s: string, token: string, gap: string, rest: string) {
    s == token + gap + rest && Gap(gap) && (rest != [] ==> Solid(rest[0]))
  }

  ghost predicate StartsWith(s: string, token: string, rest: string) {
    exists gap :: Then(s, token, gap, rest)
  }

  lemma TokenIff(s: string, p: char -> bool, token: string, rest: string)
    requires forall c :: JsWhitespace(c) ==> !p(c)
    ensures Token(s, p) == Some((token, rest)) <==> Made(token, p) && StartsWith(s, token, rest)
  {
    if Token(s, p) == Some((token, rest)) {
      var k := RunEnd(s, 0, p);
      var next := RunEnd(s, k, JsWhitespace);
      RunIsToken(s, p);
      assert s == s[..k] + s[k..next] + s[next..];
      assert Then(s, token, s[k..next], rest);
    }
    if Made(token, p) && StartsWith(s, token, rest) {
      var gap :| Then(s, token, gap, rest);
      TokenIsRead(token, gap, rest, p);
    }
  }

  ghost predicate NumberThen(s: string, n: nat, rest: string) {
    exists token :: Made(token, IsDigit) && Number(token) == n && StartsWith(s, token, rest)
  }

  lemma NumberTokenIff(s: string, n: nat, rest: string)
    ensures NumberToken(s) == Some((n, rest)) <==> NumberThen(s, n, rest)
  {
    if NumberToken(s) == Some((n, rest)) {
      TokenIff(s, IsDigit, Token(s, IsDigit).value.0, rest);
    }
    if token :| Made(token, IsDigit) && Number(token) == n && StartsWith(s, token, rest) {
      TokenIff(s, IsDigit, token, rest);
    }
  }

  /** The command is what follows the name and a gap, on one line; it may be missing. */
  predicate NameThen(s: string, name: string, gap: string, command: string) {
    && s == name + gap + command && Made(name, Solid) && Blank(gap, JsWhitespace)
    && (command != [] ==> gap != [] && Solid(command[0]))
    && forall c :: c in command ==> !LineTerminator(c)
  }

  ghost predicate EndsWith(s: string, name: string, command: string) {
    exists gap :: NameThen(s, name, gap, command)
  }

  lemma NameAndCommandIff(s: string, name: string, command: string)
    ensures NameAndCommand(s) == Some((name, command)) <==> EndsWith(s, name, command)
  {
    if NameAndCommand(s) == Some((name, command)) {
      var k := RunEnd(s, 0, Solid);
      var next := RunEnd(s, k, JsWhitespace);
      RunIsToken(s, Solid);
      assert s == s[..k] + s[k..next] + s[next..];
      assert NameThen(s, name, s[k..next], command);
    }
    if gap :| NameThen(s, name, gap, command) {
      NamedIsRead(s, name, gap, command);
    }
  }

  lemma NamedIsRead(s: string, name: string, gap: string, command: string)
    requires NameThen(s, name, gap, command)
    ensures NameAndCommand(s) == Some((name, command))
  {
    var k, next := |name|, |name| + |gap|;
    assert forall i :: 0 <= i < k ==> s[i] == name[i];
    assert forall i :: 0 <= i < |gap| ==> s[k + i] == gap[i];
    assert command != [] ==> s[next] == command[0];
    RunEndIs(s, 0, k, Solid);
    RunEndIs(s, k, next, JsWhitespace);
    assert s[..k] == name && s[next..] == command;
  }

  /** The columns from the processor share on. */
  ghost predicate ColumnsAre(s: string, cpu: string, s1: string, etime: string, s2: string, p: Process) {
    && Made(cpu, CpuChar) && StartsWith(s, cpu, s1) && p.cpu == cpu
    && Made(etime, Solid) && StartsWith(s1, etime, s2) && Parse(etime) == Some(p.elapsed)
    && EndsWith(s2, p.name, p.command)
  }

  ghost predicate HasColumns(s: string, p: Process) {
    exists cpu, s1, etime, s2 :: ColumnsAre(s, cpu, s1, etime, s2, p)
  }

  lemma ColumnsIff(s: string, p: Process)
    ensures ReadColumns(s, p.pid, p.parentPid, p.rss) == Some(p) <==> HasColumns(s, p)
  {
    if ReadColumns(s, p.pid, p.parentPid, p.rss) == Some(p) {
      var cpu := Token(s, CpuChar).value;
      var etime := Token(cpu.1, Solid).value;
      TokenIff(s, CpuChar, cpu.0, cpu.1);
      TokenIff(cpu.1, Solid, etime.0, etime.1);
      NameAndCommandIff(etime.1, p.name, p.command);
      assert ColumnsAre(s, cpu.0, cpu.1, etime.0, etime.1, p);
    }
    if cpu, s1, etime, s2 :| ColumnsAre(s, cpu, s1, etime, s2, p) {
      TokenIff(s, CpuChar, cpu, s1);
      TokenIff(s1, Solid, etime, s2);
      NameAndCommandIff(s2, p.name, p.command);
    }
  }

  ghost predicate NumbersAre(line: string, s1: string, s2: string, s3: string, p: Process) {
    NumberThen(line, p.pid, s1) && NumberThen(s1, p.parentPid, s2) && NumberThen(s2, p.rss, s3)
  }

  /** A row: three numbers, a processor share, an elapsed time, a name, and maybe a command, with gaps between. */
  ghost predicate IsRow(line: string, p: Process) {
    exists s1, s2, s3 :: NumbersAre(line, s1, s2, s3, p) && HasColumns(s3, p)
  }

  /** A line is read as a process exactly when its columns spell it. */
  lemma RowIff(line: string, p: Process)
    ensures ReadRow(line) == Some(p) <==> IsRow(line, p)
  {
    if ReadRow(line) == Some(p) {
      var pid := NumberToken(line).value;
      var parent := NumberToken(pid.1).value;
      var rss := NumberToken(parent.1).value;
      NumberTokenIff(line, pid.0, pid.1);
      NumberTokenIff(pid.1, parent.0, parent.1);
      NumberTokenIff(parent.1, rss.0, rss.1);
      ColumnsIff(rss.1, p);
      assert NumbersAre(line, pid.1, parent.1, rss.1, p);
    }
    if s1, s2, s3 :| NumbersAre(line, s1, s2, s3, p) && HasColumns(s3, p) {
      NumberTokenIff(line, p.pid, s1);
      NumberTokenIff(s1, p.parentPid, s2);
      NumberTokenIff(s2, p.rss, s3);
      ColumnsIff(s3, p);
    }
  }

  // ---------------------------------------------------------------- reading undoes printing

  lemma TokenIsRead(token: string, gap: string, rest: string, p: char -> bool)
    requires Made(token, p) && Gap(gap) && forall c :: JsWhitespace(c) ==> !p(c)
    requires rest != [] ==> Solid(rest[0])
    ensures Token(token + gap + rest, p) == Some((token, rest))
  {
    var s := token + gap + rest;
    assert forall i :: 0 <= i < |token| ==> s[i] == token[i];
    assert forall i :: 0 <= i < |gap| ==> s[|token| + i] == gap[i];
    assert rest != [] ==> s[|token| + |gap|] == rest[0];
    RunEndIs(s, 0, |token|, p);
    RunEndIs(s, |token|, |token| + |gap|, JsWhitespace);
    assert s[..|token|] == token && s[|token| + |gap|..] == rest;
  }

  /** A printed row: its columns, the gaps between them, and how the elapsed time is padded. */
  datatype Row = Row(
    pid: nat, parentPid: nat, rss: nat, cpu: string, seconds: nat, padding: nat, name: string, command: string,
    gaps: seq<string>)

  predicate GoodRow(r: Row) {
    && r.cpu != [] && (forall i :: 0 <= i < |r.cpu| ==> CpuChar(r.cpu[i]))
    && r.name != [] && (forall i :: 0 <= i < |r.name| ==> Solid(r.name[i]))
    && (r.command != [] ==> Solid(r.command[0]) && Solid(r.command[|r.command| - 1]))
    && (forall i :: 0 <= i < |r.command| ==> !LineTerminator(r.command[i]))
    && |r.gaps| == 6 && (forall i :: 0 <= i < 6 ==> Gap(r.gaps[i]) && LF !in r.gaps[i])
  }

  function Tail(r: Row): string
    requires |r.gaps| == 6
  {
    if r.command == [] then r.name else r.name + r.gaps[5] + r.command
  }

  function FromElapsed(r: Row): string
    requires |r.gaps| == 6
  {
    Spelled(Rendered(r.seconds, r.padding)) + r.gaps[4] + Tail(r)
  }

  function FromCpu(r: Row): string
    requires |r.gaps| == 6
  {
    r.cpu + r.gaps[3] + FromElapsed(r)
  }

  function FromRss(r: Row): string
    requires |r.gaps| == 6
  {
    Decimal(r.rss) + r.gaps[2] + FromCpu(r)
  }

  function FromParent(r: Row): string
    requires |r.gaps| == 6
  {
    Decimal(r.parentPid) + r.gaps[1] + FromRss(r)
  }

  function Line(r: Row): string
    requires |r.gaps| == 6
  {
    Decimal(r.pid) + r.gaps[0] + FromParent(r)
  }

  function Meaning(r: Row): Process {
    Process(r.pid, r.parentPid, r.rss, r.cpu, 1000 * r.seconds, r.name, r.command)
  }

  lemma SpelledIsSolid(p: Parts)
    requires WellShaped(p)
    ensures Spelled(p) != [] && forall i :: 0 <= i < |Spelled(p)| ==> Solid(Spelled(p)[i])
  {
  }

  lemma TailIsRead(r: Row)
    requires GoodRow(r)
    ensures NameAndCommand(Tail(r)) == Some((r.name, r.command))
    ensures Solid(Tail(r)[0])
  {
    var tail, k := Tail(r), |r.name|;
    if r.command == [] {
      RunEndIs(tail, 0, k, Solid);
      assert tail[..k] == r.name && tail[RunEnd(tail, k, JsWhitespace)..] == [];
    } else {
      var gap := r.gaps[5];
      assert forall i :: 0 <= i < k ==> tail[i] == r.name[i];
      assert forall i :: 0 <= i < |gap| ==> tail[k + i] == gap[i];
      assert tail[k + |gap|] == r.command[0];
      RunEndIs(tail, 0, k, Solid);
      RunEndIs(tail, k, k + |gap|, JsWhitespace);
      assert tail[..k] == r.name && tail[k + |gap|..] == r.command;
    }
  }

  lemma ElapsedIsParsed(r: Row)
    ensures Parse(Spelled(Rendered(r.seconds, r.padding))) == Some(1000 * r.seconds)
  {
    var s := Spelled(Rendered(r.seconds, r.padding));
    ParseUndoesRendering(r.seconds, r.padding, [], []);
    assert [] + s + [] == s;
  }

  lemma NumberIsRead(n: nat, gap: string, rest: string)
    requires Gap(gap) && rest != [] && Solid(rest[0])
    ensures NumberToken(Decimal(n) + gap + rest) == Some((n, rest))
  {
    TokenIsRead(Decimal(n), gap, rest, IsDigit);
    NumberOfDecimal(n);
  }

  lemma ElapsedIsRead(r: Row)
    requires GoodRow(r)
    ensures Token(FromElapsed(r), Solid) == Some((Spelled(Rendered(r.seconds, r.padding)), Tail(r)))
    ensures Solid(FromElapsed(r)[0])
  {
    RenderedMeans(r.seconds, r.padding);
    SpelledIsSolid(Rendered(r.seconds, r.padding));
    TailIsRead(r);
    TokenIsRead(Spelled(Rendered(r.seconds, r.padding)), r.gaps[4], Tail(r), Solid);
  }

  lemma CpuIsRead(r: Row)
    requires GoodRow(r)
    ensures Token(FromCpu(r), CpuChar) == Some((r.cpu, FromElapsed(r))) && Solid(FromCpu(r)[0])
  {
    ElapsedIsRead(r);
    TokenIsRead(r.cpu, r.gaps[3], FromElapsed(r), CpuChar);
  }

  lemma ColumnsOfTokens(s: string, cpu: string, s1: string, etime: string, s2: string, p: Process)
    requires Token(s, CpuChar) == Some((cpu, s1)) && Token(s1, Solid) == Some((etime, s2))
    requires NameAndCommand(s2) == Some((p.name, p.command)) && Parse(etime) == Some(p.elapsed) && p.cpu == cpu
    ensures ReadColumns(s, p.pid, p.parentPid, p.rss) == Some(p)
  {
  }

  lemma RowOfTokens(s: string, pid: nat, s1: string, parent: nat, s2: string, rss: nat, s3: string)
    requires NumberToken(s) == Some((pid, s1)) && NumberToken(s1) == Some((parent, s2))
    requires NumberToken(s2) == Some((rss, s3))
    ensures ReadRow(s) == ReadColumns(s3, pid, parent, rss)
  {
  }

  lemma RssIsRead(r: Row)
    requires GoodRow(r)
    ensures NumberToken(FromRss(r)) == Some((r.rss, FromCpu(r))) && Solid(FromRss(r)[0])
  {
    CpuIsRead(r);
    NumberIsRead(r.rss, r.gaps[2], FromCpu(r));
  }

  lemma ParentIsRead(r: Row)
    requires GoodRow(r)
    ensures NumberToken(FromParent(r)) == Some((r.parentPid, FromRss(r))) && Solid(FromParent(r)[0])
  {
    RssIsRead(r);
    NumberIsRead(r.parentPid, r.gaps[1], FromRss(r));
  }

  lemma PidIsRead(r: Row)
    requires GoodRow(r)
    ensures NumberToken(Line(r)) == Some((r.pid, FromParent(r)))
  {
    ParentIsRead(r);
    NumberIsRead(r.pid, r.gaps[0], FromParent(r));
  }

  lemma ColumnsAreRead(r: Row)
    requires GoodRow(r)
    ensures ReadColumns(FromCpu(r), r.pid, r.parentPid, r.rss) == Some(Meaning(r))
  {
    CpuIsRead(r);
    ElapsedIsRead(r);
    ElapsedIsParsed(r);
    TailIsRead(r);
    ColumnsOfTokens(
      FromCpu(r), r.cpu, FromElapsed(r), Spelled(Rendered(r.seconds, r.padding)), Tail(r), Meaning(r));
  }

  /** A printed row reads back as what it says. */
  lemma RowIsRead(r: Row)
    requires GoodRow(r)
    ensures ReadRow(Line(r)) == Some(Meaning(r))
  {
    RssIsRead(r);
    ParentIsRead(r);
    PidIsRead(r);
    ColumnsAreRead(r);
    RowOfTokens(Line(r), r.pid, FromParent(r), r.parentPid, FromRss(r), r.rss, FromCpu(r));
  }

  lemma LineIsOneLine(r: Row)
    requires GoodRow(r)
    ensures LF !in Line(r)
    ensures Line(r) != [] && Solid(Line(r)[0]) && Solid(Line(r)[|Line(r)| - 1])
  {
    var etime := Spelled(Rendered(r.seconds, r.padding));
    RenderedMeans(r.seconds, r.padding);
    SpelledIsSolid(Rendered(r.seconds, r.padding));
    var tail := Tail(r);
    assert LF !in tail && Solid(tail[|tail| - 1]);
    assert LF !in FromElapsed(r) && FromElapsed(r)[|FromElapsed(r)| - 1] == tail[|tail| - 1];
    assert LF !in FromCpu(r) && FromCpu(r)[|FromCpu(r)| - 1] == tail[|tail| - 1];
    assert LF !in FromRss(r) && FromRss(r)[|FromRss(r)| - 1] == tail[|tail| - 1];
    assert LF !in FromParent(r) && FromParent(r)[|FromParent(r)| - 1] == tail[|tail| - 1];
    assert Line(r)[0] == Decimal(r.pid)[0];
  }

  /** A line of the output: a row between blanks, or something that is not a row. */
  datatype Printed = PrintedRow(row: Row, before: string, after: string) | Noise(text: string)

  predicate GoodLine(l: Printed) {
    match l
    case PrintedRow(row, before, after) =>
      GoodRow(row) && Blank(before, JsWhitespace) && Blank(after, JsWhitespace) && LF !in before && LF !in after
    case Noise(text) => LF !in text && ReadRow(Trim(text, JsWhitespace)).None?
  }

  function LineText(l: Printed): string
    requires GoodLine(l)
  {
    match l
    case PrintedRow(row, before, after) => before + Line(row) + after
    case Noise(text) => text
  }

  function LineTexts(lines: seq<Printed>): seq<string>
    requires forall i :: 0 <= i < |lines| ==> GoodLine(lines[i])
  {
    seq(|lines|, i requires 0 <= i < |lines| => LineText(lines[i]))
  }

  function Meanings(lines: seq<Printed>): seq<Process>
  {
    if lines == [] then []
    else
      var last := lines[|lines| - 1];
      Meanings(lines[..|lines| - 1]) + if last.PrintedRow? then [Meaning(last.row)] else []
  }

  lemma LineMeans(l: Printed)
    requires GoodLine(l)
    ensures LF !in LineText(l)
    ensures ReadRow(Trim(LineText(l), JsWhitespace)) == if l.PrintedRow? then Some(Meaning(l.row)) else None
  {
    if l.PrintedRow? {
      LineIsOneLine(l.row);
      TrimPadded(l.before, Line(l.row), l.after, JsWhitespace);
      RowIsRead(l.row);
    }
  }

  lemma {:induction false} RowsAreRead(lines: seq<Printed>)
    requires forall i :: 0 <= i < |lines| ==> GoodLine(lines[i])
    ensures ReadRows(LineTexts(lines)) == Meanings(lines)
  {
    if lines != [] {
      var last := |lines| - 1;
      RowsAreRead(lines[..last]);
      assert LineTexts(lines)[..last] == LineTexts(lines[..last]);
      LineMeans(lines[last]);
    }
  }

  /** Reading a snapshot gives exactly its rows, in order, with their elapsed times in milliseconds. */
  lemma SnapshotReadsItsRows(lines: seq<Printed>)
    requires lines != [] && forall i :: 0 <= i < |lines| ==> GoodLine(lines[i])
    ensures ReadRows(Split(Join(LineTexts(lines), LF), LF)) == Meanings(lines)
  {
    forall i | 0 <= i < |lines|
      ensures LF !in LineTexts(lines)[i]
    {
      LineMeans(lines[i]);
    }
    SplitUndoesJoin(LineTexts(lines), LF);
    RowsAreRead(lines);
  }

  // ---------------------------------------------------------------- the launch window

  const SLACK_MS: nat := 2000

  /** `selectOrphanedWebKitProcesses`, for a given reading of which names are WebKit's. */
  predicate Orphaned(p: Process, snapshotAt: int, launchedAt: int, preexisting: set<nat>,
                     isWebKit: (string, string) -> bool) {
    && p.parentPid == 1 && isWebKit(p.name, p.command) && p.pid !in preexisting
    && snapshotAt - p.elapsed >= launchedAt - SLACK_MS
  }

  /**
   An orphan of WebKit's that the launch brought is inside the window when `ps` read its
   clock within the slack of the snapshot instant. Whatever is selected is such an orphan,
   was not there before, and is no older than the slack and the column's one second:
   `psAt` is the instant whose elapsed whole seconds are printed.
   */
  lemma WindowIsTight(r: Row, startedAt: int, psAt: int, snapshotAt: int, launchedAt: int, preexisting: set<nat>,
                      isWebKit: (string, string) -> bool)
    requires GoodRow(r) && startedAt <= psAt && snapshotAt <= psAt && r.seconds == (psAt - startedAt) / 1000
    ensures
      var read := ReadRow(Line(r));
      var newOrphan := r.parentPid == 1 && isWebKit(r.name, r.command) && r.pid !in preexisting;
      && read.Some?
      && (newOrphan && startedAt >= launchedAt && psAt - snapshotAt <= SLACK_MS ==>
            Orphaned(read.value, snapshotAt, launchedAt, preexisting, isWebKit))
      && (Orphaned(read.value, snapshotAt, launchedAt, preexisting, isWebKit) ==>
            newOrphan && startedAt > launchedAt - SLACK_MS - 1000)
  {
    RowIsRead(r);
  }

  /** A clock read one millisecond past the slack can miss the process that started at the launch. */
  lemma LateClockMisses(r: Row, launchedAt: int, snapshotAt: int, isWebKit: (string, string) -> bool)
    requires GoodRow(r) && snapshotAt + SLACK_MS + 1 - launchedAt == 1000 * r.seconds
    ensures
      var psAt := snapshotAt + SLACK_MS + 1;
      && r.seconds == (psAt - launchedAt) / 1000
      && ReadRow(Line(r)).Some?
      && !Orphaned(ReadRow(Line(r)).value, snapshotAt, launchedAt, {}, isWebKit)
  {
    RowIsRead(r);
  }

  /** A process that started a millisecond short of the slack and a second before the launch can be selected. */
  lemma EarlyStartPasses(r: Row, launchedAt: int, snapshotAt: int, isWebKit: (string, string) -> bool)
    requires GoodRow(r) && r.parentPid == 1 && isWebKit(r.name, r.command)
    requires snapshotAt - (launchedAt - SLACK_MS) == 1000 * r.seconds
    ensures
      var startedAt := launchedAt - SLACK_MS - 999;
      && r.seconds == (snapshotAt - startedAt) / 1000
      && ReadRow(Line(r)).Some?
      && Orphaned(ReadRow(Line(r)).value, snapshotAt, launchedAt, {}, isWebKit)
  {
    RowIsRead(r);
  }
}
