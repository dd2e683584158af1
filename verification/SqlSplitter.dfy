/** The migration splitter (src/agents/queue/migrate.py:20-54). */
module SqlSplitter {
  import opened Text

  // ---- the Python string operations it uses ----

  /** The characters `str.splitlines` breaks at; "\r\n" counts once. */
  predicate IsBreak(c: char) {
    c in {'\n', '\r', '\U{0B}', '\U{0C}', '\U{1C}', '\U{1D}', '\U{1E}', '\U{85}', '\U{2028}', '\U{2029}'}
  }

  /** `str.isspace`, which is what `strip` strips. */
  predicate IsSpace(c: char) {
    || IsBreak(c)
    || c in {' ', '\t', '\U{1F}', '\U{A0}', '\U{1680}', '\U{202F}', '\U{205F}', '\U{3000}'}
    || '\U{2000}' <= c <= '\U{200A}'
  }

  /** Where the first line ends. */
  function LineEnd(s: string): (n: nat)
    ensures n <= |s|
    ensures forall i :: 0 <= i < n ==> !IsBreak(s[i])
    ensures n < |s| ==> IsBreak(s[n])
  {
    if s == "" || IsBreak(s[0]) then 0 else 1 + LineEnd(s[1..])
  }

  /** The length of the line break at `n`. */
  function BreakLength(s: string, n: nat): (k: nat)
    requires n < |s|
    ensures 1 <= k && n + k <= |s|
  {
    if s[n] == '\r' && n + 1 < |s| && s[n + 1] == '\n' then 2 else 1
  }

  /** `s.splitlines()` */
  function Lines(s: string): seq<string>
    decreases |s|
  {
    if s == "" then []
    else
      var n := LineEnd(s);
      [s[..n]] + if n == |s| then [] else Lines(s[n + BreakLength(s, n)..])
  }

  function DropLeft(p: char -> bool, s: string): string {
    if s != "" && p(s[0]) then DropLeft(p, s[1..]) else s
  }

  function DropRight(p: char -> bool, s: string): string {
    if s != "" && p(s[|s| - 1]) then DropRight(p, s[..|s| - 1]) else s
  }

  function LStrip(s: string): string {
    DropLeft(IsSpace, s)
  }

  function RStrip(s: string): string {
    DropRight(IsSpace, s)
  }

  function Strip(s: string): string {
    LStrip(RStrip(s))
  }

  predicate IsSemicolon(c: char) {
    c == ';'
  }

  function RStripSemicolons(s: string): string {
    DropRight(IsSemicolon, s)
  }

  predicate IsComment(line: string) {
    "--" <= LStrip(line)
  }

  predicate EndsStatement(line: string) {
    line != "" && line[|line| - 1] == ';'
  }

  /** What is dropped from the left is exactly the longest run that satisfies `p`. */
  lemma {:induction false} DroppedLeft(p: char -> bool, s: string) returns (n: nat)
    ensures n <= |s| && DropLeft(p, s) == s[n..]
    ensures forall i :: 0 <= i < n ==> p(s[i])
    ensures n < |s| ==> !p(s[n])
  {
    n := 0;
    if s != "" && p(s[0]) {
      var k := DroppedLeft(p, s[1..]);
      n := k + 1;
      assert s[1..][k..] == s[n..];
    }
  }

  lemma {:induction false} DroppedRight(p: char -> bool, s: string) returns (n: nat)
    ensures n <= |s| && DropRight(p, s) == s[..n]
    ensures forall i :: n <= i < |s| ==> p(s[i])
    ensures n > 0 ==> !p(s[n - 1])
  {
    n := |s|;
    if s != "" && p(s[|s| - 1]) {
      n := DroppedRight(p, s[..|s| - 1]);
    }
  }

  /** Stripping takes off all blanks, or all semicolons, at that end and nothing else. */
  lemma StripsAreExact(s: string) returns (m: nat, n: nat, k: nat)
    ensures m <= |s| && LStrip(s) == s[m..] && (forall i :: 0 <= i < m ==> IsSpace(s[i])) && (m < |s| ==> !IsSpace(s[m]))
    ensures n <= |s| && RStrip(s) == s[..n] && (forall i :: n <= i < |s| ==> IsSpace(s[i])) && (n > 0 ==> !IsSpace(s[n - 1]))
    ensures k <= |s| && RStripSemicolons(s) == s[..k] && (forall i :: k <= i < |s| ==> s[i] == ';') && (k > 0 ==> s[k - 1] != ';')
  {
    m := DroppedLeft(IsSpace, s);
    n := DroppedRight(IsSpace, s);
    k := DroppedRight(IsSemicolon, s);
  }

  /** Two dashes at `n` with nothing but blanks before them. */
  predicate DashesAt(line: string, n: nat) {
    && n + 1 < |line| && line[n] == '-' && line[n + 1] == '-'
    && forall i :: 0 <= i < n ==> IsSpace(line[i])
  }

  lemma CommentsStartWithDashes(line: string)
    ensures IsComment(line) <==> exists n: nat :: DashesAt(line, n)
  {
    var m := DroppedLeft(IsSpace, line);
    if IsComment(line) {
      assert line[m] == line[m..][0] == '-' && line[m + 1] == line[m..][1] == '-';
      assert DashesAt(line, m);
    }
    forall n: nat | DashesAt(line, n)
      ensures IsComment(line)
    {
      assert !IsSpace('-') && IsSpace(line[n]) == IsSpace('-');
      assert n == m;
      assert line[m..][..2] == "--";
    }
  }

  // ---- the splitter ----

  /** The buffered lines as a statement; none if only blanks and semicolons were buffered. */
  function Emit(buf: seq<string>): seq<string> {
    var joined := Strip(RStripSemicolons(Strip(Join(buf, '\n'))));
    if joined != "" then [joined] else []
  }

  function Collect(lines: seq<string>, buf: seq<string>): seq<string>
    decreases |lines|
  {
    if lines == [] then Emit(buf)
    else
      var line := RStrip(lines[0]);
      if IsComment(line) then Collect(lines[1..], buf)
      else if EndsStatement(line) then Emit(buf + [line]) + Collect(lines[1..], [])
      else Collect(lines[1..], buf + [line])
  }

  method SplitStatements(sql: string) returns (statements: seq<string>)
    ensures statements == Collect(Lines(sql), [])
  {
    var lines := Lines(sql);
    statements := [];
    var buf: seq<string> := [];
    assert lines[0..] == lines;
    for i := 0 to |lines|
      invariant Collect(lines, []) == statements + Collect(lines[i..], buf)
    {
      assert lines[i..][1..] == lines[i + 1..];
      var line := RStrip(lines[i]);
      if IsComment(line) {
        continue;
      }
      buf := buf + [line];
      if EndsStatement(line) {
        statements := statements + Emit(buf);
        buf := [];
      }
    }
    statements := statements + Emit(buf);
  }

  // ---- every statement is trimmed ----

  predicate Trimmed(s: string) {
    s != "" && !IsSpace(s[0]) && !IsSpace(s[|s| - 1])
  }

  lemma StripTrims(s: string)
    ensures Strip(s) == "" || Trimmed(Strip(s))
  {
    var n := DroppedRight(IsSpace, s);
    var t := RStrip(s);
    var m := DroppedLeft(IsSpace, t);
    if m < |t| {
      assert t[m..][0] == t[m] && t[m..][|t| - m - 1] == t[|t| - 1] == s[n - 1];
    }
  }

  /** No statement is empty, and none begins or ends with a blank. */
  lemma {:induction false} StatementsAreTrimmed(lines: seq<string>, buf: seq<string>, k: nat)
    requires k < |Collect(lines, buf)|
    ensures Trimmed(Collect(lines, buf)[k])
    decreases |lines|
  {
    if lines == [] {
      StripTrims(RStripSemicolons(Strip(Join(buf, '\n'))));
    } else {
      var line := RStrip(lines[0]);
      if IsComment(line) {
        StatementsAreTrimmed(lines[1..], buf, k);
      } else if EndsStatement(line) {
        var first := Emit(buf + [line]);
        StripTrims(RStripSemicolons(Strip(Join(buf + [line], '\n'))));
        if k >= |first| {
          StatementsAreTrimmed(lines[1..], [], k - |first|);
        }
      } else {
        StatementsAreTrimmed(lines[1..], buf + [line], k);
      }
    }
  }

  // ---- nothing is lost and nothing is added ----

  /** The characters of `s` that satisfy `p`, in order. */
  function Sift(p: char -> bool, s: string): string {
    if s == "" then "" else Sift(p, s[..|s| - 1]) + if p(s[|s| - 1]) then [s[|s| - 1]] else ""
  }

  /** The characters a splitter must not touch: neither blank nor semicolon. */
  predicate Solid(c: char) {
    !IsSpace(c) && c != ';'
  }

  function Kept(s: string): string {
    Sift(Solid, s)
  }

  function Gather(f: string -> string, parts: seq<string>): string {
    if parts == [] then "" else f(parts[0]) + Gather(f, parts[1..])
  }

  function KeptAll(parts: seq<string>): string {
    Gather(Kept, parts)
  }

  function CodeLines(lines: seq<string>): seq<string> {
    if lines == [] then []
    else (if IsComment(RStrip(lines[0])) then [] else [lines[0]]) + CodeLines(lines[1..])
  }

  lemma {:induction false} SiftConcat(p: char -> bool, a: string, b: string)
    ensures Sift(p, a + b) == Sift(p, a) + Sift(p, b)
    decreases |b|
  {
    if b == "" {
      assert a + b == a;
    } else {
      SiftConcat(p, a, b[..|b| - 1]);
      assert (a + b)[..|a + b| - 1] == a + b[..|b| - 1];
    }
  }

  lemma {:induction false} SiftNothing(p: char -> bool, s: string)
    requires forall i :: 0 <= i < |s| ==> !p(s[i])
    ensures Sift(p, s) == ""
  {
    if s != "" {
      SiftNothing(p, s[..|s| - 1]);
    }
  }

  lemma SiftAround(p: char -> bool, a: string, gap: string, b: string)
    requires forall i :: 0 <= i < |gap| ==> !p(gap[i])
    ensures Sift(p, a + gap + b) == Sift(p, a) + Sift(p, b)
  {
    assert a + gap + b == a + (gap + b);
    SiftConcat(p, a, gap + b);
    SiftGap(p, gap, b);
  }

  lemma SiftGap(p: char -> bool, gap: string, b: string)
    requires forall i :: 0 <= i < |gap| ==> !p(gap[i])
    ensures Sift(p, gap + b) == Sift(p, b)
  {
    SiftConcat(p, gap, b);
    SiftNothing(p, gap);
  }

  lemma {:induction false} GatherConcat(f: string -> string, a: seq<string>, b: seq<string>)
    ensures Gather(f, a + b) == Gather(f, a) + Gather(f, b)
  {
    if a == [] {
      assert a + b == b;
    } else {
      GatherConcat(f, a[1..], b);
      assert (a + b)[1..] == a[1..] + b && (a + b)[0] == a[0];
    }
  }

  lemma GatherOne(f: string -> string, part: string)
    ensures Gather(f, [part]) == f(part)
  {
    assert [part][1..] == [];
  }

  lemma {:induction false} KeptOfRStrip(s: string)
    ensures Kept(RStrip(s)) == Kept(s)
  {
    if s != "" && IsSpace(s[|s| - 1]) {
      KeptOfRStrip(s[..|s| - 1]);
    }
  }

  lemma {:induction false} KeptOfLStrip(s: string)
    ensures Kept(LStrip(s)) == Kept(s)
  {
    if s != "" && IsSpace(s[0]) {
      KeptOfLStrip(s[1..]);
      SiftAround(Solid, "", [s[0]], s[1..]);
      assert s == "" + [s[0]] + s[1..];
    }
  }

  lemma {:induction false} KeptOfSemicolons(s: string)
    ensures Kept(RStripSemicolons(s)) == Kept(s)
  {
    if s != "" && s[|s| - 1] == ';' {
      KeptOfSemicolons(s[..|s| - 1]);
    }
  }

  lemma {:induction false} KeptOfJoin(parts: seq<string>)
    ensures Kept(Join(parts, '\n')) == KeptAll(parts)
  {
    if |parts| == 1 {
      GatherOne(Kept, parts[0]);
      assert parts == [parts[0]];
    } else if |parts| > 1 {
      KeptOfJoin(parts[1..]);
      SiftAround(Solid, parts[0], ['\n'], Join(parts[1..], '\n'));
    }
  }

  lemma KeptOfEmit(buf: seq<string>)
    ensures KeptAll(Emit(buf)) == KeptAll(buf)
  {
    var joined := Join(buf, '\n');
    KeptOfJoin(buf);
    KeptOfRStrip(joined);
    KeptOfLStrip(RStrip(joined));
    var s := Strip(joined);
    KeptOfSemicolons(s);
    KeptOfRStrip(RStripSemicolons(s));
    KeptOfLStrip(RStrip(RStripSemicolons(s)));
    GatherOne(Kept, Strip(RStripSemicolons(s)));
  }

  lemma {:induction false} CollectKeeps(lines: seq<string>, buf: seq<string>)
    ensures KeptAll(Collect(lines, buf)) == KeptAll(buf) + KeptAll(CodeLines(lines))
    decreases |lines|
  {
    if lines == [] {
      KeptOfEmit(buf);
    } else {
      var line, code := RStrip(lines[0]), CodeLines(lines[1..]);
      if IsComment(line) {
        CollectKeeps(lines[1..], buf);
        assert CodeLines(lines) == code;
      } else {
        assert CodeLines(lines) == [lines[0]] + code;
        KeptOfRStrip(lines[0]);
        GatherShift(Kept, buf, lines[0], line, code);
        if EndsStatement(line) {
          CollectKeeps(lines[1..], []);
          KeptOfEmit(buf + [line]);
          GatherConcat(Kept, Emit(buf + [line]), Collect(lines[1..], []));
        } else {
          CollectKeeps(lines[1..], buf + [line]);
        }
      }
    }
  }

  /** Moving a line to the buffer, in a form that keeps the same, keeps what is kept. */
  lemma GatherShift(f: string -> string, buf: seq<string>, line: string, line': string, rest: seq<string>)
    requires f(line') == f(line)
    ensures Gather(f, buf + [line']) + Gather(f, rest) == Gather(f, buf) + Gather(f, [line] + rest)
  {
    GatherConcat(f, buf, [line']);
    GatherConcat(f, [line], rest);
    GatherOne(f, line);
    GatherOne(f, line');
  }

  lemma {:induction false} KeptOfLines(s: string)
    ensures KeptAll(Lines(s)) == Kept(s)
    decreases |s|
  {
    if LineEnd(s) < |s| {
      var line, gap, rest := FirstLine(s);
      KeptOfLines(rest);
      LineAndRest(line, gap, rest, Lines(rest));
    } else if s != "" {
      LastLine(s);
      GatherOne(Kept, s);
    }
  }

  lemma LastLine(s: string)
    requires s != "" && LineEnd(s) == |s|
    ensures Lines(s) == [s]
  {
    assert s[..|s|] == s;
  }

  lemma FirstLine(s: string) returns (line: string, gap: string, rest: string)
    requires LineEnd(s) < |s|
    ensures s == line + gap + rest && |rest| < |s|
    ensures Lines(s) == [line] + Lines(rest)
    ensures forall i :: 0 <= i < |gap| ==> IsSpace(gap[i])
  {
    var n := LineEnd(s);
    var k := BreakLength(s, n);
    line, gap, rest := s[..n], s[n..n + k], s[n + k..];
    BreaksAreBlank(s, n);
  }

  lemma BreaksAreBlank(s: string, n: nat)
    requires n < |s| && IsBreak(s[n])
    ensures forall i :: n <= i < n + BreakLength(s, n) ==> IsSpace(s[i])
  {
  }

  lemma LineAndRest(line: string, gap: string, rest: string, lines: seq<string>)
    requires KeptAll(lines) == Kept(rest)
    requires forall i :: 0 <= i < |gap| ==> IsSpace(gap[i])
    ensures KeptAll([line] + lines) == Kept(line + gap + rest)
  {
    GatherConcat(Kept, [line], lines);
    GatherOne(Kept, line);
    SiftAround(Solid, line, gap, rest);
  }

  /** For every input, the output holds exactly the non-blank, non-semicolon characters of the
      lines that are not comments, in order; without comment lines, those of the whole input. */
  lemma SplittingConserves(sql: string)
    ensures KeptAll(Collect(Lines(sql), [])) == KeptAll(CodeLines(Lines(sql)))
    ensures CodeLines(Lines(sql)) == Lines(sql) ==> KeptAll(Collect(Lines(sql), [])) == Kept(sql)
  {
    CollectKeeps(Lines(sql), []);
    KeptOfLines(sql);
  }

  // ---- what is written is read back ----

  /** A line the splitter passes through unchanged and does not end a statement at. */
  predicate PlainLine(line: string) {
    && (forall i :: 0 <= i < |line| ==> !IsBreak(line[i]))
    && (line != "" ==> !IsSpace(line[|line| - 1]) && line[|line| - 1] != ';')
    && !IsComment(line)
  }

  /** A statement as its lines: plain ones, the first starting and the last ending with a
      non-blank. Blank lines inside are allowed. */
  predicate WellFormed(stmt: seq<string>) {
    && stmt != [] && (forall i :: 0 <= i < |stmt| ==> PlainLine(stmt[i]))
    && stmt[0] != "" && !IsSpace(stmt[0][0]) && stmt[|stmt| - 1] != ""
  }

  function TextOf(stmt: seq<string>): string {
    Join(stmt, '\n')
  }

  /** `";\n".join(statements)`, with or without a final terminator. */
  function Source(stmts: seq<seq<string>>, terminated: bool): string {
    if stmts == [] then ""
    else if |stmts| == 1 && !terminated then TextOf(stmts[0])
    else TextOf(stmts[0]) + ";\n" + Source(stmts[1..], terminated)
  }

  function Texts(stmts: seq<seq<string>>): seq<string> {
    if stmts == [] then [] else [TextOf(stmts[0])] + Texts(stmts[1..])
  }

  lemma {:induction false} LineEndOf(line: string, rest: string)
    requires forall i :: 0 <= i < |line| ==> !IsBreak(line[i])
    ensures LineEnd(line + ['\n'] + rest) == |line|
    ensures LineEnd(line) == |line|
  {
    var s := line + ['\n'] + rest;
    if line != "" {
      LineEndOf(line[1..], rest);
      assert s[1..] == line[1..] + ['\n'] + rest;
    }
  }

  /** A line ends at any of the break characters, and "\r\n" is one break, not two. */
  lemma LinesEndAtBreaks(line: string, c: char, rest: string)
    requires forall i :: 0 <= i < |line| ==> !IsBreak(line[i])
    ensures IsBreak(c) && !(c == '\r' && rest != "" && rest[0] == '\n') ==>
      Lines(line + [c] + rest) == [line] + Lines(rest)
    ensures Lines(line + ['\r', '\n'] + rest) == [line] + Lines(rest)
  {
    if IsBreak(c) && !(c == '\r' && rest != "" && rest[0] == '\n') {
      var s := line + [c] + rest;
      LineEndAt(line, c, rest);
      assert s[..|line|] == line && s[|line| + 1..] == rest;
    }
    var t := line + ['\r', '\n'] + rest;
    assert t == line + ['\r'] + (['\n'] + rest);
    LineEndAt(line, '\r', ['\n'] + rest);
    assert t[..|line|] == line && t[|line| + 2..] == rest;
  }

  lemma {:induction false} LineEndAt(line: string, c: char, rest: string)
    requires IsBreak(c) && forall i :: 0 <= i < |line| ==> !IsBreak(line[i])
    ensures LineEnd(line + [c] + rest) == |line|
  {
    if line != "" {
      LineEndAt(line[1..], c, rest);
      assert (line + [c] + rest)[1..] == line[1..] + [c] + rest;
    }
  }

  lemma LinesAfter(line: string, rest: string)
    requires forall i :: 0 <= i < |line| ==> !IsBreak(line[i])
    ensures Lines(line + ['\n'] + rest) == [line] + Lines(rest)
  {
    var s := line + ['\n'] + rest;
    LineEndOf(line, rest);
    assert s[|line|] == '\n' && s[..|line|] == line && s[|line| + 1..] == rest;
  }

  /** The lines of a statement, the last one with its terminator. */
  function Terminated(stmt: seq<string>): seq<string>
    requires stmt != []
  {
    stmt[..|stmt| - 1] + [stmt[|stmt| - 1] + ";"]
  }

  lemma {:induction false} LinesOfStatement(stmt: seq<string>, rest: string)
    requires stmt != [] && forall i :: 0 <= i < |stmt| ==> PlainLine(stmt[i])
    ensures Lines(TextOf(stmt) + ";\n" + rest) == Terminated(stmt) + Lines(rest)
    ensures stmt[|stmt| - 1] != "" ==> Lines(TextOf(stmt)) == stmt
    decreases |stmt|
  {
    if |stmt| == 1 {
      OneLine(stmt[0], rest);
      assert stmt == [stmt[0]] && Terminated(stmt) == [stmt[0] + ";"];
    } else {
      LinesOfStatement(stmt[1..], rest);
      MoreLines(stmt[0], stmt[1..], rest);
      assert stmt == [stmt[0]] + stmt[1..];
    }
  }

  lemma MoreLines(line: string, tail: seq<string>, rest: string)
    requires tail != [] && PlainLine(line)
    requires Lines(TextOf(tail) + ";\n" + rest) == Terminated(tail) + Lines(rest)
    ensures Lines(TextOf([line] + tail) + ";\n" + rest) == Terminated([line] + tail) + Lines(rest)
    ensures Lines(TextOf([line] + tail)) == [line] + Lines(TextOf(tail))
  {
    TextStep(line, tail, rest);
    LinesAfter(line, TextOf(tail) + ";\n" + rest);
    LinesAfter(line, TextOf(tail));
  }

  lemma TextStep(line: string, tail: seq<string>, rest: string)
    requires tail != []
    ensures var text := TextOf([line] + tail);
      && text == line + ['\n'] + TextOf(tail)
      && text + ";\n" + rest == line + ['\n'] + (TextOf(tail) + ";\n" + rest)
      && Terminated([line] + tail) == [line] + Terminated(tail)
    ensures [line] + (Terminated(tail) + Lines(rest)) == [line] + Terminated(tail) + Lines(rest)
  {
    assert ([line] + tail)[1..] == tail;
  }

  lemma OneLine(line: string, rest: string)
    requires PlainLine(line)
    ensures Lines(line + ";\n" + rest) == [line + ";"] + Lines(rest)
    ensures line != "" ==> Lines(line) == [line]
  {
    var last := line + ";";
    assert forall i :: 0 <= i < |last| ==> !IsBreak(last[i]);
    assert line + ";\n" + rest == last + ['\n'] + rest;
    LinesAfter(last, rest);
    LineEndOf(line, rest);
    assert line[..|line|] == line;
  }

  lemma {:induction false} LStripKeepsEnd(line: string)
    requires line != "" && !IsSpace(line[|line| - 1])
    ensures LStrip(line) != "" && LStrip(line + ";") == LStrip(line) + ";"
  {
    if IsSpace(line[0]) {
      LStripKeepsEnd(line[1..]);
      assert (line + ";")[1..] == line[1..] + ";";
    }
  }

  lemma TerminatedLine(line: string)
    requires PlainLine(line) && line != ""
    ensures !IsComment(line + ";") && RStrip(line + ";") == line + ";" && EndsStatement(line + ";")
  {
    LStripKeepsEnd(line);
    NoDashes(LStrip(line));
  }

  lemma NoDashes(s: string)
    requires !("--" <= s)
    ensures !("--" <= s + ";")
  {
    if |s| >= 2 {
      assert (s + ";")[..2] == s[..2];
    } else if |s| == 1 {
      assert (s + ";")[1] == ';';
    }
  }

  /** The lines of a statement go to the buffer, up to the terminated one, which empties it. */
  lemma {:induction false} CollectStatement(stmt: seq<string>, rest: seq<string>, buf: seq<string>)
    requires stmt != [] && stmt[|stmt| - 1] != "" && forall i :: 0 <= i < |stmt| ==> PlainLine(stmt[i])
    ensures Collect(Terminated(stmt) + rest, buf) == Emit(buf + Terminated(stmt)) + Collect(rest, [])
    decreases |stmt|
  {
    var lines := Terminated(stmt) + rest;
    if |stmt| == 1 {
      TerminatedLine(stmt[0]);
      assert lines[0] == stmt[0] + ";" && lines[1..] == rest;
      assert Terminated(stmt) == [stmt[0] + ";"];
    } else {
      assert Terminated(stmt) == [stmt[0]] + Terminated(stmt[1..]);
      assert lines[0] == stmt[0] && lines[1..] == Terminated(stmt[1..]) + rest;
      CollectStatement(stmt[1..], rest, buf + [stmt[0]]);
      assert buf + Terminated(stmt) == buf + [stmt[0]] + Terminated(stmt[1..]);
    }
  }

  /** Without a terminator, the lines wait in the buffer for the end of the input. */
  lemma {:induction false} CollectTail(stmt: seq<string>, buf: seq<string>)
    requires forall i :: 0 <= i < |stmt| ==> PlainLine(stmt[i])
    ensures Collect(stmt, buf) == Emit(buf + stmt)
    decreases |stmt|
  {
    if stmt == [] {
      assert buf + stmt == buf;
    } else {
      CollectTail(stmt[1..], buf + [stmt[0]]);
      assert buf + stmt == buf + [stmt[0]] + stmt[1..];
    }
  }

  lemma {:induction false} JoinEnds(stmt: seq<string>)
    requires stmt != [] && stmt[0] != "" && stmt[|stmt| - 1] != ""
    ensures var t := TextOf(stmt);
      t != "" && t[0] == stmt[0][0] && t[|t| - 1] == stmt[|stmt| - 1][|stmt[|stmt| - 1]| - 1]
    decreases |stmt|
  {
    if |stmt| > 1 {
      var tail := stmt[1..];
      if tail[0] != "" {
        JoinEnds(tail);
      } else {
        JoinLast(tail);
      }
    }
  }

  lemma {:induction false} JoinLast(stmt: seq<string>)
    requires stmt != [] && stmt[|stmt| - 1] != ""
    ensures var t := TextOf(stmt);
      t != "" && t[|t| - 1] == stmt[|stmt| - 1][|stmt[|stmt| - 1]| - 1]
    decreases |stmt|
  {
    if |stmt| > 1 {
      JoinLast(stmt[1..]);
    }
  }

  lemma {:induction false} JoinTerminated(stmt: seq<string>)
    requires stmt != []
    ensures Join(Terminated(stmt), '\n') == TextOf(stmt) + ";"
    decreases |stmt|
  {
    if |stmt| > 1 {
      JoinTerminated(stmt[1..]);
      assert Terminated(stmt) == [stmt[0]] + Terminated(stmt[1..]);
      assert Terminated(stmt)[1..] == Terminated(stmt[1..]);
    }
  }

  lemma EmitStatement(stmt: seq<string>)
    requires WellFormed(stmt)
    ensures Emit(stmt) == [TextOf(stmt)] && Emit(Terminated(stmt)) == [TextOf(stmt)]
  {
    var t := TextOf(stmt);
    JoinEnds(stmt);
    JoinTerminated(stmt);
    assert PlainLine(stmt[|stmt| - 1]);
    assert (t + ";")[..|t|] == t;
    assert Strip(t) == t && Strip(t + ";") == t + ";";
    assert RStripSemicolons(t) == t && RStripSemicolons(t + ";") == t;
  }

  /** Splitting what was joined gives the statements back, one by one, whether or not the last one
      is terminated. */
  lemma {:induction false} SplitInvertsJoin(stmts: seq<seq<string>>, terminated: bool)
    requires forall i :: 0 <= i < |stmts| ==> WellFormed(stmts[i])
    ensures Collect(Lines(Source(stmts, terminated)), []) == Texts(stmts)
    decreases |stmts|
  {
    if stmts != [] {
      var stmt, rest := stmts[0], Source(stmts[1..], terminated);
      assert WellFormed(stmt);
      EmitStatement(stmt);
      LinesOfStatement(stmt, rest);
      if |stmts| == 1 && !terminated {
        CollectTail(stmt, []);
        assert [] + stmt == stmt;
        assert Texts(stmts[1..]) == [];
      } else {
        CollectStatement(stmt, Lines(rest), []);
        assert [] + Terminated(stmt) == Terminated(stmt);
        SplitInvertsJoin(stmts[1..], terminated);
      }
    }
  }
}
