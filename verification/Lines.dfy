/**
 C strings held in a character buffer, and the newline splitting loop that sd_manager.c,
 telemetry_engine.c and stage_machine.c share: find the next '\n' with strchr, overwrite it with
 NUL, use the line if it is not empty, go on behind it; the text behind the last newline is a
 line too.
 */
module Lines {

  const NUL := '\0'
  const NEWLINE := '\n'

  /** The C string that starts at the beginning of `bytes`: everything before the first NUL. */
  function CString(bytes: string): string {
    if bytes == "" || bytes[0] == NUL then "" else [bytes[0]] + CString(bytes[1..])
  }

  function FirstNewline(text: string): (i: nat)
    requires NEWLINE in text
    ensures i < |text| && text[i] == NEWLINE && NEWLINE !in text[..i]
  {
    if text[0] == NEWLINE then 0 else 1 + FirstNewline(text[1..])
  }

  function NonEmpty(line: string): seq<string> {
    if line == "" then [] else [line]
  }

  /** The non-empty lines of a text, in order. */
  function Split(text: string): seq<string> {
    if NEWLINE in text then
      var i := FirstNewline(text);
      NonEmpty(text[..i]) + Split(text[i + 1..])
    else NonEmpty(text)
  }

  /** What appending these lines to an empty file produces. */
  function Join(lines: seq<string>): string {
    if lines == [] then "" else Join(lines[..|lines| - 1]) + lines[|lines| - 1] + [NEWLINE]
  }

  /** A line the firmware can store: not empty, no newline, no NUL. */
  predicate Storable(line: string) {
    line != "" && NEWLINE !in line && NUL !in line
  }

  predicate AllStorable(lines: seq<string>) {
    forall i :: 0 <= i < |lines| ==> Storable(lines[i])
  }

  // ---------------------------------------------------------------- splitting inverts appending

  lemma SplitUnfolds(line: string, rest: string)
    requires NEWLINE !in line
    ensures Split(line + [NEWLINE] + rest) == NonEmpty(line) + Split(rest)
  {
    var text := line + [NEWLINE] + rest;
    assert text[|line|] == NEWLINE;
    var i := FirstNewline(text);
    assert text[..i] == line && text[i + 1..] == rest;
  }

  lemma {:induction false} JoinAppend(a: seq<string>, b: seq<string>)
    ensures Join(a + b) == Join(a) + Join(b)
  {
    if b == [] {
      assert a + b == a;
    } else {
      assert (a + b)[..|a + b| - 1] == a + b[..|b| - 1];
      JoinAppend(a, b[..|b| - 1]);
    }
  }

  lemma JoinFromFront(line: string, lines: seq<string>, rest: string)
    ensures Join([line] + lines) + rest == line + [NEWLINE] + (Join(lines) + rest)
  {
    JoinAppend([line], lines);
    assert [line][..0] == [];
    assert Join([line]) == line + [NEWLINE];
  }

  lemma SplitFirstLine(line: string, lines: seq<string>, rest: string)
    requires Storable(line)
    ensures Split(Join([line] + lines) + rest) == [line] + Split(Join(lines) + rest)
  {
    JoinFromFront(line, lines, rest);
    SplitUnfolds(line, Join(lines) + rest);
  }

  lemma {:induction false} SplitAfterJoin(lines: seq<string>, rest: string)
    requires AllStorable(lines)
    ensures Split(Join(lines) + rest) == lines + Split(rest)
    decreases |lines|
  {
    hide Split, FirstNewline;
    if lines == [] {
      assert Join(lines) + rest == rest;
    } else {
      SplitAfterJoin(lines[1..], rest);
      SplitFirstLine(lines[0], lines[1..], rest);
      assert [lines[0]] + lines[1..] == lines;
    }
  }

  /** Appending any storable lines and then splitting visits exactly those lines, in order. */
  lemma SplitInvertsJoin(lines: seq<string>)
    requires AllStorable(lines)
    ensures Split(Join(lines)) == lines
  {
    SplitAfterJoin(lines, "");
    assert Join(lines) + "" == Join(lines);
  }

  lemma {:induction false} JoinHasNoNul(lines: seq<string>)
    requires AllStorable(lines)
    ensures NUL !in Join(lines)
  {
    if lines != [] {
      JoinHasNoNul(lines[..|lines| - 1]);
    }
  }

  lemma {:induction false} CStringOfClean(text: string, junk: string)
    requires NUL !in text
    ensures CString(text + [NUL] + junk) == text
    ensures CString(text) == text
  {
    if text == "" {
      assert text + [NUL] + junk == [NUL] + junk;
    } else {
      assert (text + [NUL] + junk)[1..] == text[1..] + [NUL] + junk;
      CStringOfClean(text[1..], junk);
    }
  }

  // ---------------------------------------------------------------- the buffer

  lemma {:induction false} CStringSkips(bytes: string, n: nat)
    requires n <= |bytes| && NUL !in bytes[..n]
    ensures CString(bytes) == bytes[..n] + CString(bytes[n..])
  {
    if n == 0 {
      assert bytes[n..] == bytes;
    } else {
      assert bytes[0] == bytes[..n][0];
      assert bytes[1..][..n - 1] == bytes[..n][1..];
      CStringSkips(bytes[1..], n - 1);
      assert bytes[1..][n - 1..] == bytes[n..];
    }
  }

  /** strchr(buffer + start, '\n'); -1 stands for NULL. The caller's buffer holds a terminator. */
  method FindNewline(buffer: array<char>, start: nat) returns (at: int)
    requires start < buffer.Length && buffer[buffer.Length - 1] == NUL
    ensures at >= 0 ==>
              && start <= at < buffer.Length - 1
              && buffer[at] == NEWLINE
              && NEWLINE !in buffer[start..at]
              && NUL !in buffer[start..at]
              && CString(buffer[start..]) == buffer[start..at] + [NEWLINE] + CString(buffer[at + 1..])
    ensures at < 0 ==> NEWLINE !in CString(buffer[start..])
  {
    at := start;
    while buffer[at] != NEWLINE && buffer[at] != NUL
      invariant start <= at < buffer.Length
      decreases buffer.Length - at
      invariant NEWLINE !in buffer[start..at] && NUL !in buffer[start..at]
    {
      at := at + 1;
      assert buffer[start..at] == buffer[start..at - 1] + [buffer[at - 1]];
    }
    ghost var tail := buffer[start..];
    ghost var n := at - start;
    assert tail[..n] == buffer[start..at] && tail[n..] == buffer[at..];
    CStringSkips(tail, n);
    if buffer[at] == NEWLINE {
      assert buffer[at..][1..] == buffer[at + 1..];
      assert CString(buffer[at..]) == [NEWLINE] + CString(buffer[at + 1..]);
    } else {
      at := -1;
    }
  }

  /** The C string at `start`. */
  method ReadString(buffer: array<char>, start: nat) returns (s: string)
    requires start < buffer.Length && buffer[buffer.Length - 1] == NUL
    ensures s == CString(buffer[start..])
  {
    var end := start;
    while buffer[end] != NUL
      invariant start <= end < buffer.Length
      decreases buffer.Length - end
      invariant NUL !in buffer[start..end]
    {
      end := end + 1;
      assert buffer[start..end] == buffer[start..end - 1] + [buffer[end - 1]];
    }
    ghost var tail := buffer[start..];
    assert tail[..end - start] == buffer[start..end] && tail[end - start..] == buffer[end..];
    CStringSkips(tail, end - start);
    s := buffer[start..end];
  }

  // ---------------------------------------------------------------- the splitting loop

  /** The loop has visited the lines in `done`; the text at `line` is still to come. */
  ghost predicate AtWork(buffer: array<char>, line: nat, lines: seq<string>, done: seq<string>)
    reads buffer
  {
    && line < buffer.Length && buffer[buffer.Length - 1] == NUL
    && lines == done + Split(CString(buffer[line..]))
  }

  /** `at` is the newline that ends the line at `line`, or negative if there is none. */
  ghost predicate AtLine(buffer: array<char>, line: nat, at: int)
    reads buffer
  {
    && line < buffer.Length && buffer[buffer.Length - 1] == NUL
    && (at < 0 ==> NEWLINE !in CString(buffer[line..]))
    && (at >= 0 ==>
          && line <= at < buffer.Length - 1
          && buffer[at] == NEWLINE
          && NEWLINE !in buffer[line..at]
          && NUL !in buffer[line..at]
          && CString(buffer[line..]) == buffer[line..at] + [NEWLINE] + CString(buffer[at + 1..]))
  }

  /** The loop condition: the next newline behind `line`. */
  method NextNewline(buffer: array<char>, line: nat, ghost lines: seq<string>, ghost done: seq<string>)
      returns (at: int)
    requires AtWork(buffer, line, lines, done)
    ensures AtLine(buffer, line, at)
    ensures line < buffer.Length && at < buffer.Length && (at >= 0 ==> line <= at)
  {
    at := FindNewline(buffer, line);
  }

  /** `*nl = '\0'`: the line is terminated in place, and the text behind it is untouched. */
  method TakeLine(buffer: array<char>, line: nat, at: nat, ghost lines: seq<string>, ghost done: seq<string>)
      returns (text: string)
    requires AtLine(buffer, line, at) && AtWork(buffer, line, lines, done)
    modifies buffer
    ensures AtWork(buffer, at + 1, lines, done + NonEmpty(text))
  {
    hide Split, FirstNewline, CString;
    ghost var before := buffer[..];
    assert buffer[line..] == before[line..] && buffer[line..at] == before[line..at]
      && buffer[at + 1..] == before[at + 1..];
    buffer[at] := NUL;
    ghost var after := buffer[..];
    assert buffer[line..] == after[line..] && buffer[at + 1..] == after[at + 1..];
    SplitRound(before, after, line, at);
    text := ReadString(buffer, line);
    Associate(done, NonEmpty(text), Split(CString(buffer[at + 1..])));
  }

  /** The text behind the last newline. */
  method TakeLastLine(buffer: array<char>, line: nat, at: int, ghost lines: seq<string>, ghost done: seq<string>)
      returns (text: string)
    requires AtLine(buffer, line, at) && at < 0 && AtWork(buffer, line, lines, done)
    ensures lines == done + NonEmpty(text)
  {
    text := ReadString(buffer, line);
  }

  lemma Associate(a: seq<string>, b: seq<string>, c: seq<string>)
    ensures a + (b + c) == a + b + c
  {
  }

  lemma SplitRound(bytes: string, cut: string, line: nat, at: nat)
    requires line <= at < |bytes| && cut == bytes[at := NUL]
    requires NEWLINE !in bytes[line..at] && NUL !in bytes[line..at] && bytes[at] == NEWLINE
    requires CString(bytes[line..]) == bytes[line..at] + [NEWLINE] + CString(bytes[at + 1..])
    ensures CString(cut[line..]) == bytes[line..at]
    ensures Split(CString(bytes[line..])) == NonEmpty(bytes[line..at]) + Split(CString(cut[at + 1..]))
  {
    hide Split, FirstNewline;
    SplitUnfolds(bytes[line..at], CString(bytes[at + 1..]));
    assert cut[at + 1..] == bytes[at + 1..];
    assert cut[line..] == bytes[line..at] + [NUL] + bytes[at + 1..];
    CStringOfClean(bytes[line..at], bytes[at + 1..]);
  }

  /** A freshly read buffer: the file contents and the terminator. */
  lemma FreshBuffer(buffer: array<char>, text: string)
    requires buffer[..] == text + [NUL]
    ensures AtWork(buffer, 0, Split(CString(text)), [])
  {
    CStringIgnoresTerminator(text);
    assert buffer[0..] == buffer[..];
    assert [] + Split(CString(text)) == Split(CString(text));
  }

  lemma CStringIgnoresTerminator(text: string)
    ensures CString(text + [NUL]) == CString(text)
  {
    if text != "" {
      assert (text + [NUL])[1..] == text[1..] + [NUL];
    }
  }

  /** A heap copy of the bytes read from a file, terminated by NUL. */
  method LoadBuffer(text: string) returns (buffer: array<char>)
    ensures fresh(buffer) && buffer.Length > 0
    ensures AtWork(buffer, 0, Split(CString(text)), [])
  {
    buffer := new char[|text| + 1](i requires 0 <= i <= |text| => if i < |text| then text[i] else NUL);
    assert buffer[..] == text + [NUL];
    FreshBuffer(buffer, text);
  }
}
