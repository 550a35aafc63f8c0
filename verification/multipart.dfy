/**
  The multipart/form-data parsers (app/common/multipart.py), against a printer
  that follows section 5.1.1 of RFC 2046 and section 4 of RFC 7578. A byte is a
  character here.
 */
module Multipart {
  import opened Options
  import opened Texts

  const CRLF := "\r\n"
  const FILENAME := " filename=\""

  // -------------------------------------------------------- searching, splitting

  /** Leftmost occurrences, none overlapping. */
  function Split(s: Bytes, pattern: Bytes): (r: seq<Bytes>)
    requires pattern != []
    ensures r != []
    decreases |s|
  {
    match Find(s, pattern)
    case None => [s]
    case Some(i) => [s[..i]] + Split(s[i + |pattern|..], pattern)
  }

  function LowerChar(c: char): char {
    if 'A' <= c <= 'Z' then c - 'A' + 'a' else c
  }

  predicate StartsWithIgnoringCase(s: Bytes, prefix: Bytes) {
    |prefix| <= |s| && forall i | 0 <= i < |prefix| :: LowerChar(s[i]) == prefix[i]
  }

  /** What str.strip of Python takes for white space. */
  predicate IsSpace(c: char) {
    var n := c as int;
    || 9 <= n <= 13 || 28 <= n <= 32 || n == 0x85 || n == 0xA0 || n == 0x1680
    || 0x2000 <= n <= 0x200A || n == 0x2028 || n == 0x2029 || n == 0x202F || n == 0x205F || n == 0x3000
  }

  function Strip(s: Bytes): Bytes
    decreases |s|
  {
    if s == [] then s
    else if IsSpace(s[0]) then Strip(s[1..])
    else if IsSpace(s[|s| - 1]) then Strip(s[..|s| - 1])
    else s
  }

  lemma SpacesAre(c: char)
    ensures IsSpace(c) <==> c as int in {9, 10, 11, 12, 13, 28, 29, 30, 31, 32, 0x85, 0xA0, 0x1680,
                                         0x2000, 0x2001, 0x2002, 0x2003, 0x2004, 0x2005, 0x2006, 0x2007, 0x2008, 0x2009, 0x200A,
                                         0x2028, 0x2029, 0x202F, 0x205F, 0x3000}
  {
  }

  /** Capital letters of ASCII, and nothing else, have their small ones. */
  lemma CapitalsAre(c: char)
    ensures LowerChar(c) as int == c as int + if 65 <= c as int < 65 + 26 then 32 else 0
  {
  }

  /** From a up to b, with nothing but white space around. */
  ghost predicate Inner(s: Bytes, a: nat, b: nat, inner: Bytes) {
    && a <= b <= |s| && inner == s[a..b]
    && (forall i | 0 <= i < a :: IsSpace(s[i])) && (forall i | b <= i < |s| :: IsSpace(s[i]))
  }

  lemma InnerOfTheTail(s: Bytes, a: nat, b: nat, inner: Bytes)
    requires s != [] && IsSpace(s[0]) && Inner(s[1..], a, b, inner)
    ensures Inner(s, a + 1, b + 1, inner)
  {
    assert s[1..][a..b] == s[a + 1..b + 1];
    assert forall i | 1 <= i < |s| :: s[i] == s[1..][i - 1];
  }

  lemma InnerOfTheFront(s: Bytes, a: nat, b: nat, inner: Bytes)
    requires s != [] && IsSpace(s[|s| - 1]) && Inner(s[..|s| - 1], a, b, inner)
    ensures Inner(s, a, b, inner)
  {
    assert s[..|s| - 1][a..b] == s[a..b];
    assert forall i | 0 <= i < |s| - 1 :: s[i] == s[..|s| - 1][i];
  }

  /** Stripping takes off the white space at both ends, all of it, and nothing else. */
  lemma {:induction false} StripTakesTheEndsOff(s: Bytes) returns (a: nat, b: nat)
    ensures Inner(s, a, b, Strip(s))
    ensures Strip(s) != [] ==> !IsSpace(Strip(s)[0]) && !IsSpace(Strip(s)[|Strip(s)| - 1])
    decreases |s|
  {
    if s != [] && IsSpace(s[0]) {
      a, b := StripTakesTheEndsOff(s[1..]);
      InnerOfTheTail(s, a, b, Strip(s));
      a, b := a + 1, b + 1;
    } else if s != [] && IsSpace(s[|s| - 1]) {
      a, b := StripTakesTheEndsOff(s[..|s| - 1]);
      InnerOfTheFront(s, a, b, Strip(s));
    } else {
      a, b := 0, |s|;
    }
  }

  // ------------------------------------------------------------ the parsers

  datatype File = File(filename: Bytes, body: Bytes)

  datatype FilePart = FilePart(filename: Bytes, contentType: Bytes, body: Bytes)

  function FirstLine(lines: seq<Bytes>, prefix: Bytes): Bytes {
    if lines == [] then ""
    else if StartsWithIgnoringCase(lines[0], prefix) then lines[0]
    else FirstLine(lines[1..], prefix)
  }

  function WithoutFraming(body: Bytes): Bytes {
    if EndsWith(body, CRLF) then body[..|body| - 2] else body
  }

  function FileNameIn(disposition: Bytes): Bytes {
    if Find(disposition, FILENAME).None? then ""
    else Split(Split(disposition, FILENAME)[1], "\"")[0]
  }

  datatype Section = Section(lines: seq<Bytes>, body: Bytes)

  /** One chunk between delimiters: its header lines and its body, if it has both. */
  function SectionIn(chunk: Bytes): Option<Section> {
    var c := if StartsWith(chunk, CRLF) then chunk[2..] else chunk;
    match Find(c, CRLF + CRLF)
    case None => None
    case Some(end) => Some(Section(Split(c[..end], CRLF), WithoutFraming(c[end + 4..])))
  }

  /** The file it holds, if any. */
  function FileIn(chunk: Bytes): seq<File> {
    match SectionIn(chunk)
    case None => []
    case Some(Section(lines, body)) =>
      var filename := FileNameIn(FirstLine(lines, "content-disposition"));
      if filename == "" then [] else [File(filename, body)]
  }

  function FilesIn(chunks: seq<Bytes>): seq<File> {
    if chunks == [] || StartsWith(chunks[0], "--") then []
    else FileIn(chunks[0]) + FilesIn(chunks[1..])
  }

  function Files(raw: Bytes, boundary: Bytes): seq<File> {
    FilesIn(Split(raw, "--" + boundary)[1..])
  }

  function ContentTypeIn(lines: seq<Bytes>): Bytes {
    var line := FirstLine(lines, "content-type:");
    match Find(line, ":") case None => "" case Some(colon) => Strip(line[colon + 1..])
  }

  function PartIn(chunk: Bytes): seq<FilePart> {
    match SectionIn(chunk)
    case None => []
    case Some(Section(lines, body)) =>
      var filename := FileNameIn(FirstLine(lines, "content-disposition"));
      if filename == "" then [] else [FilePart(filename, ContentTypeIn(lines), body)]
  }

  function PartsIn(chunks: seq<Bytes>): seq<FilePart> {
    if chunks == [] || StartsWith(chunks[0], "--") then []
    else PartIn(chunks[0]) + PartsIn(chunks[1..])
  }

  function FileParts(raw: Bytes, boundary: Bytes): seq<FilePart> {
    PartsIn(Split(raw, "--" + boundary)[1..])
  }

  // ------------------------------------------------------------- the printer

  /** One file part; header lines of other kinds may stand before and after its own. */
  datatype Part = Part(before: seq<Bytes>, field: Bytes, filename: Bytes, contentType: Option<Bytes>, after: seq<Bytes>,
                       body: Bytes, padding: Bytes)

  const NAME := "Content-Disposition: form-data; name="
  const TAIL := " filename="

  /** Text up to a quotation mark, and what follows the mark. */
  function Quote(x: Bytes, rest: Bytes): Bytes {
    x + "\"" + rest
  }

  function Disposition(p: Part): Bytes {
    Quote(NAME, Quote(p.field, Quote(";" + TAIL, Quote(p.filename, ""))))
  }

  function Lines(p: Part): seq<Bytes> {
    p.before + [Disposition(p)] + TypeLines(p) + p.after
  }

  function TypeLines(p: Part): seq<Bytes> {
    if p.contentType.Some? then ["Content-Type: " + p.contentType.value] else []
  }

  function Terminated(lines: seq<Bytes>): Bytes {
    if lines == [] then [] else lines[0] + CRLF + Terminated(lines[1..])
  }

  /** What follows the delimiter of a part, up to the next delimiter. */
  function PrintedPart(p: Part): Bytes {
    p.padding + CRLF + Terminated(Lines(p)) + CRLF + p.body + CRLF
  }

  function PrintedParts(parts: seq<Part>, delimiter: Bytes): Bytes {
    if parts == [] then delimiter + "--"
    else delimiter + PrintedPart(parts[0]) + PrintedParts(parts[1..], delimiter)
  }

  /** A preamble, the parts and an epilogue. */
  function Printed(preamble: Bytes, parts: seq<Part>, epilogue: Bytes, boundary: Bytes): Bytes {
    preamble + PrintedParts(parts, "--" + boundary) + epilogue
  }

  // ------------------------------------------------------- what may be printed

  ghost predicate HeaderLine(line: Bytes, delimiter: Bytes) {
    line != "" && OneLine(line) && Absent(line, delimiter)
  }

  ghost predicate HeaderLines(lines: seq<Bytes>, delimiter: Bytes) {
    forall i | 0 <= i < |lines| :: HeaderLine(lines[i], delimiter)
  }

  ghost predicate OtherLines(lines: seq<Bytes>) {
    NoneStarts(lines, "content-disposition") && NoneStarts(lines, "content-type:")
  }

  ghost predicate NoneStarts(lines: seq<Bytes>, prefix: Bytes) {
    forall i | 0 <= i < |lines| :: !StartsWithIgnoringCase(lines[i], prefix)
  }

  ghost predicate Printable(p: Part, delimiter: Bytes) {
    && '"' !in p.field && '"' !in p.filename && p.filename != ""
    && HeaderLines(Lines(p), delimiter) && OtherLines(p.before) && OtherLines(p.after)
    && (p.contentType.Some? ==> Strip(p.contentType.value) == p.contentType.value)
    && Absent(p.body, delimiter)
    && Blank(p.padding)
  }

  predicate Blank(s: Bytes) {
    forall i | 0 <= i < |s| :: s[i] == ' ' || s[i] == '\t'
  }

  ghost predicate Message(preamble: Bytes, parts: seq<Part>, epilogue: Bytes, boundary: Bytes) {
    && boundary != "" && OneLine(boundary)
    && (preamble == "" || EndsWith(preamble, CRLF)) && Absent(preamble, "--" + boundary)
    && (epilogue == "" || StartsWith(epilogue, CRLF))
    && AllPrintable(parts, "--" + boundary)
  }

  ghost predicate AllPrintable(parts: seq<Part>, delimiter: Bytes) {
    forall i | 0 <= i < |parts| :: Printable(parts[i], delimiter)
  }

  /** The name the parsers read: not always the one that was printed. */
  function NameRead(p: Part): Bytes {
    if EndsWith(p.field, TAIL) then ";"
    else if EndsWith(p.filename, TAIL) then p.filename[..|p.filename| - |TAIL|]
    else p.filename
  }

  // ------------------------------------------------------------ string lemmas

  /** So nothing that starts in `a` can reach over a line break that follows it. */
  lemma NoStraddle(a: Bytes, b: Bytes, pattern: Bytes)
    requires Absent(a, pattern) && OneLine(pattern)
    requires b != [] && (b[0] == '\r' || b[0] == '\n')
    ensures forall j: nat | j < |a| :: !OccursAt(a + b, pattern, j)
  {
    forall j: nat | j < |a|
      ensures !OccursAt(a + b, pattern, j)
    {
      if OccursAt(a + b, pattern, j) {
        WhereItLies(a, b, pattern, j);
      }
    }
  }

  lemma AbsentInBoth(a: Bytes, b: Bytes, pattern: Bytes)
    requires Absent(a, pattern) && Absent(b, pattern) && pattern != [] && OneLine(pattern)
    ensures Absent(a + CRLF + b, pattern)
  {
    assert a + CRLF + b == a + (CRLF + b);
    NoStraddle(a, CRLF + b, pattern);
    forall j: nat
      ensures !OccursAt(a + CRLF + b, pattern, j)
    {
      if j >= |a| + 2 {
        OccursBehind(a + CRLF, b, pattern, j);
      } else if j >= |a| {
        assert (a + CRLF + b)[j] !in pattern;
        if OccursAt(a + CRLF + b, pattern, j) {
          StartsThere(a + CRLF + b, pattern, j);
        }
      }
    }
  }

  lemma SplitAtFirst(a: Bytes, pattern: Bytes, rest: Bytes)
    requires pattern != [] && forall j: nat | j < |a| :: !OccursAt(a + pattern + rest, pattern, j)
    ensures Split(a + pattern + rest, pattern) == [a] + Split(rest, pattern)
  {
    var s := a + pattern + rest;
    assert s[|a|..|a| + |pattern|] == pattern;
    FindIs(s, pattern, |a|);
    assert s[..|a|] == a && s[|a| + |pattern|..] == rest;
  }

  // ------------------------------------------------- between the delimiters

  lemma {:induction false} TerminatedAbsent(lines: seq<Bytes>, pattern: Bytes)
    requires pattern != [] && OneLine(pattern) && HeaderLines(lines, pattern)
    ensures Absent(Terminated(lines), pattern)
  {
    if lines != [] {
      TerminatedAbsent(lines[1..], pattern);
      AbsentInBoth(lines[0], Terminated(lines[1..]), pattern);
    }
  }

  lemma Regroup(d: Bytes, segment: Bytes, rest: Bytes, epilogue: Bytes, after: Bytes)
    requires rest + epilogue == d + after
    ensures d + segment + rest + epilogue == d + (segment + d + after)
  {
    assert d + segment + rest + epilogue == d + segment + (rest + epilogue);
  }

  /** A part holds no delimiter, not even one that would reach into the next. */
  lemma PartEndsAtTheDelimiter(p: Part, boundary: Bytes, rest: Bytes)
    requires OneLine(boundary) && Printable(p, "--" + boundary)
    ensures var d := "--" + boundary;
            forall j: nat | j < |PrintedPart(p)| :: !OccursAt(PrintedPart(p) + d + rest, d, j)
  {
    var d := "--" + boundary;
    NeverStarts(p.padding, d);
    TerminatedAbsent(Lines(p), d);
    AbsentInBoth(Terminated(Lines(p)), p.body, d);
    var inner := p.padding + CRLF + (Terminated(Lines(p)) + CRLF + p.body);
    AbsentInBoth(p.padding, Terminated(Lines(p)) + CRLF + p.body, d);
    assert PrintedPart(p) == inner + CRLF;
    var s := PrintedPart(p) + d + rest;
    assert s == inner + (CRLF + d + rest);
    NoStraddle(inner, CRLF + d + rest, d);
    forall j: nat | j < |inner| + 2
      ensures !OccursAt(s, d, j)
    {
      if |inner| <= j {
        assert s[j] == CRLF[j - |inner|];
        if OccursAt(s, d, j) {
          StartsThere(s, d, j);
        }
      }
    }
  }

  function Chunks(parts: seq<Part>): seq<Bytes> {
    if parts == [] then [] else [PrintedPart(parts[0])] + Chunks(parts[1..])
  }

  /** What is printed after the first delimiter. */
  function Joined(segments: seq<Bytes>, end: Bytes, delimiter: Bytes): Bytes {
    if segments == [] then end
    else segments[0] + delimiter + Joined(segments[1..], end, delimiter)
  }

  lemma {:induction false} PrintedIs(parts: seq<Part>, epilogue: Bytes, delimiter: Bytes)
    ensures PrintedParts(parts, delimiter) + epilogue
         == delimiter + Joined(Chunks(parts), "--" + epilogue, delimiter)
  {
    if parts != [] {
      PrintedIs(parts[1..], epilogue, delimiter);
      Regroup(delimiter, PrintedPart(parts[0]), PrintedParts(parts[1..], delimiter), epilogue,
              Joined(Chunks(parts[1..]), "--" + epilogue, delimiter));
      assert Chunks(parts)[1..] == Chunks(parts[1..]);
    }
  }

  /** No delimiter begins within a segment, whatever follows its end. */
  ghost predicate SelfContained(segment: Bytes, delimiter: Bytes) {
    forall rest: Bytes, j: nat | j < |segment| :: !OccursAt(segment + delimiter + rest, delimiter, j)
  }

  lemma SegmentSplits(segment: Bytes, delimiter: Bytes, rest: Bytes)
    requires delimiter != [] && SelfContained(segment, delimiter)
    ensures Split(segment + delimiter + rest, delimiter) == [segment] + Split(rest, delimiter)
  {
    SplitAtFirst(segment, delimiter, rest);
  }

  ghost predicate AllSelfContained(segments: seq<Bytes>, delimiter: Bytes) {
    segments == [] || (SelfContained(segments[0], delimiter) && AllSelfContained(segments[1..], delimiter))
  }

  lemma HeadAndTail(segments: seq<Bytes>, more: seq<Bytes>)
    requires segments != []
    ensures [segments[0]] + (segments[1..] + more) == segments + more
  {
  }

  lemma {:induction false} JoinedSplits(segments: seq<Bytes>, end: Bytes, delimiter: Bytes)
    requires delimiter != [] && AllSelfContained(segments, delimiter)
    ensures Split(Joined(segments, end, delimiter), delimiter) == segments + Split(end, delimiter)
  {
    if segments != [] {
      JoinedSplits(segments[1..], end, delimiter);
      SegmentSplits(segments[0], delimiter, Joined(segments[1..], end, delimiter));
      HeadAndTail(segments, Split(end, delimiter));
    }
  }

  lemma {:induction false} ChunksAreSelfContained(parts: seq<Part>, boundary: Bytes)
    requires OneLine(boundary) && AllPrintable(parts, "--" + boundary)
    ensures AllSelfContained(Chunks(parts), "--" + boundary)
  {
    if parts != [] {
      ChunksAreSelfContained(parts[1..], boundary);
      forall rest: Bytes, j: nat | j < |PrintedPart(parts[0])|
        ensures !OccursAt(PrintedPart(parts[0]) + ("--" + boundary) + rest, "--" + boundary, j)
      {
        PartEndsAtTheDelimiter(parts[0], boundary, rest);
      }
      assert Chunks(parts)[1..] == Chunks(parts[1..]);
    }
  }

  lemma PreambleEndsAtTheDelimiter(preamble: Bytes, d: Bytes, rest: Bytes)
    requires d != [] && OneLine(d) && Absent(preamble, d) && EndsWith(preamble, CRLF)
    ensures forall j: nat | j < |preamble| :: !OccursAt(preamble + d + rest, d, j)
  {
    var text := preamble[..|preamble| - 2];
    var s := preamble + d + rest;
    assert preamble == text + CRLF && s == text + (CRLF + d + rest);
    AbsentInPrefix(text, CRLF, d);
    NoStraddle(text, CRLF + d + rest, d);
    forall j: nat | |text| <= j < |preamble|
      ensures !OccursAt(s, d, j)
    {
      assert s[j] == CRLF[j - |text|];
      if OccursAt(s, d, j) {
        StartsThere(s, d, j);
      }
    }
  }

  lemma MessageSplits(preamble: Bytes, parts: seq<Part>, epilogue: Bytes, boundary: Bytes)
    requires Message(preamble, parts, epilogue, boundary)
    ensures var d := "--" + boundary;
            Split(Printed(preamble, parts, epilogue, boundary), d)[1..] == Chunks(parts) + Split("--" + epilogue, d)
  {
    var d := "--" + boundary;
    var rest := Joined(Chunks(parts), "--" + epilogue, d);
    PrintedIs(parts, epilogue, d);
    Together(preamble, PrintedParts(parts, d), epilogue, d, rest);
    if preamble != "" {
      PreambleEndsAtTheDelimiter(preamble, d, rest);
    }
    SplitAtFirst(preamble, d, rest);
    ChunksAreSelfContained(parts, boundary);
    JoinedSplits(Chunks(parts), "--" + epilogue, d);
  }

  lemma Together(a: Bytes, b: Bytes, c: Bytes, d: Bytes, e: Bytes)
    requires b + c == d + e
    ensures a + b + c == a + d + e
  {
    assert a + b + c == a + (b + c);
  }

  lemma AbsentInPrefix(a: Bytes, b: Bytes, pattern: Bytes)
    requires Absent(a + b, pattern)
    ensures Absent(a, pattern)
  {
    forall j: nat
      ensures !OccursAt(a, pattern, j)
    {
      if j + |pattern| <= |a| {
        assert (a + b)[j..j + |pattern|] == a[j..j + |pattern|];
        assert !OccursAt(a + b, pattern, j);
      }
    }
  }

  /** The chunk after the last delimiter says that it closes the message. */
  lemma ClosingChunk(epilogue: Bytes, boundary: Bytes)
    requires boundary != "" && OneLine(boundary) && (epilogue == "" || StartsWith(epilogue, CRLF))
    ensures StartsWith(Split("--" + epilogue, "--" + boundary)[0], "--")
  {
    var s, d := "--" + epilogue, "--" + boundary;
    if epilogue != "" {
      assert epilogue[..2][0] == epilogue[0] == '\r';
      forall j: nat | j < 2
        ensures !OccursAt(s, d, j)
      {
        if OccursAt(s, d, j) {
          WhereItLies("--", epilogue, d, j);
        }
      }
    }
    FindIsFirst(s, d);
    var i := Find(s, d);
    assert i.Some? ==> i.value >= 2 && s[..i.value][0..2] == "--";
    assert s[0..2] == "--";
  }

  // ------------------------------------------------------------ one part's headers

  /** Header lines: none empty, none broken. */
  ghost predicate Plain(lines: seq<Bytes>) {
    forall i | 0 <= i < |lines| :: lines[i] != "" && OneLine(lines[i])
  }

  lemma NoBreakInside(line: Bytes, rest: Bytes, pattern: Bytes)
    requires OneLine(line) && StartsWith(pattern, CRLF)
    ensures forall j: nat | j < |line| :: !OccursAt(line + rest, pattern, j)
  {
    forall j: nat | j < |line|
      ensures !OccursAt(line + rest, pattern, j)
    {
      assert (line + rest)[j] == line[j] && pattern[..2][0] == pattern[0] == '\r';
      if OccursAt(line + rest, pattern, j) {
        StartsThere(line + rest, pattern, j);
      }
    }
  }

  /** An empty line cannot begin before the line break itself, nor within it. */
  lemma NoEmptyLineYet(line: Bytes, tail: Bytes)
    requires OneLine(line) && tail != [] && tail[0] != '\r'
    ensures forall j: nat | j < |line| + 2 :: !OccursAt(line + CRLF + tail, CRLF + CRLF, j)
  {
    var s := line + CRLF + tail;
    assert s == line + (CRLF + tail);
    NoBreakInside(line, CRLF + tail, CRLF + CRLF);
    assert s[|line| + 1] == '\n' && s[|line| + 2] == tail[0];
    forall j: nat | |line| <= j < |line| + 2
      ensures !OccursAt(s, CRLF + CRLF, j)
    {
      if OccursAt(s, CRLF + CRLF, j) {
        StartsThere(s, CRLF + CRLF, j);
        BreakFollows(s, j);
      }
    }
  }

  lemma BreakFollows(s: Bytes, j: nat)
    requires OccursAt(s, CRLF + CRLF, j)
    ensures s[j + 2] == '\r'
  {
    assert s[j..j + 4][2] == s[j + 2];
  }

  lemma AfterOneLine(line: Bytes, tail: Bytes)
    requires OneLine(line) && tail != [] && tail[0] != '\r' && Find(tail, CRLF + CRLF).Some?
    ensures Find(line + CRLF + tail, CRLF + CRLF) == Some(|line| + 2 + Find(tail, CRLF + CRLF).value)
  {
    var s, end := line + CRLF + tail, Find(tail, CRLF + CRLF).value;
    NoEmptyLineYet(line, tail);
    FindIsFirst(tail, CRLF + CRLF);
    forall j: nat | |line| + 2 <= j
      ensures OccursAt(s, CRLF + CRLF, j) <==> OccursAt(tail, CRLF + CRLF, j - |line| - 2)
    {
      OccursBehind(line + CRLF, tail, CRLF + CRLF, j);
    }
    FindIs(s, CRLF + CRLF, |line| + 2 + end);
  }

  lemma AtTheLastLine(line: Bytes, rest: Bytes)
    requires OneLine(line)
    ensures Find(line + CRLF + CRLF + rest, CRLF + CRLF) == Some(|line|)
  {
    var s := line + CRLF + CRLF + rest;
    assert s == line + (CRLF + CRLF + rest);
    NoBreakInside(line, CRLF + CRLF + rest, CRLF + CRLF);
    assert s[|line|..|line| + 4] == CRLF + CRLF;
    FindIs(s, CRLF + CRLF, |line|);
  }

  /** The headers end at the first empty line. */
  lemma {:induction false} HeadersEnd(lines: seq<Bytes>, rest: Bytes)
    requires lines != [] && Plain(lines)
    ensures |Terminated(lines)| >= 2
    ensures Find(Terminated(lines) + CRLF + rest, CRLF + CRLF) == Some(|Terminated(lines)| - 2)
  {
    var l, more := lines[0], Terminated(lines[1..]);
    if |lines| == 1 {
      AtTheLastLine(l, rest);
      assert Terminated(lines) == l + CRLF + [] == l + CRLF;
    } else {
      HeadersEnd(lines[1..], rest);
      FirstByte(lines[1..], rest);
      AfterOneLine(l, more + CRLF + rest);
      Associate(l + CRLF, more, CRLF, rest);
    }
  }

  lemma Associate(a: Bytes, b: Bytes, c: Bytes, d: Bytes)
    ensures a + b + c + d == a + (b + c + d)
  {
  }

  lemma FirstByte(lines: seq<Bytes>, rest: Bytes)
    requires lines != [] && Plain(lines)
    ensures (Terminated(lines) + CRLF + rest)[0] == lines[0][0] != '\r'
  {
    assert Terminated(lines)[0] == lines[0][0];
  }

  lemma ButLast(a: Bytes, b: Bytes)
    requires |b| >= 2
    ensures (a + b)[..|a + b| - 2] == a + b[..|b| - 2]
  {
  }

  lemma SplitNextLine(s: Bytes, line: Bytes, rest: Bytes)
    requires OneLine(line) && s == line + CRLF + rest
    ensures Split(s, CRLF) == [line] + Split(rest, CRLF)
  {
    assert line + CRLF + rest == line + (CRLF + rest);
    NoBreakInside(line, CRLF + rest, CRLF);
    SplitAtFirst(line, CRLF, rest);
  }

  lemma SplitLastLine(line: Bytes)
    requires OneLine(line)
    ensures Split(line, CRLF) == [line]
  {
    NoBreakInside(line, [], CRLF);
    assert line + [] == line;
    FindNothing(line, CRLF);
  }

  function WithoutLastBreak(s: Bytes): Bytes {
    if |s| < 2 then s else s[..|s| - 2]
  }

  lemma TerminatedIs(lines: seq<Bytes>)
    requires lines != []
    ensures |Terminated(lines)| >= 2
    ensures WithoutLastBreak(Terminated(lines)) ==
              if |lines| == 1 then lines[0] else lines[0] + CRLF + WithoutLastBreak(Terminated(lines[1..]))
  {
    var l, more := lines[0], Terminated(lines[1..]);
    if |lines| > 1 {
      assert |more| >= 2;
      ButLast(l + CRLF, more);
    }
  }

  lemma {:induction false} LinesSplit(lines: seq<Bytes>)
    requires lines != [] && Plain(lines)
    ensures Split(WithoutLastBreak(Terminated(lines)), CRLF) == lines
  {
    TerminatedIs(lines);
    if |lines| == 1 {
      SplitLastLine(lines[0]);
    } else {
      LinesSplit(lines[1..]);
      SplitNextLine(WithoutLastBreak(Terminated(lines)), lines[0], WithoutLastBreak(Terminated(lines[1..])));
    }
  }

  lemma {:induction false} FirstLineIs(before: seq<Bytes>, line: Bytes, after: seq<Bytes>, prefix: Bytes)
    requires StartsWithIgnoringCase(line, prefix) && NoneStarts(before, prefix)
    ensures FirstLine(before + [line] + after, prefix) == line
  {
    if before != [] {
      assert (before + [line] + after)[1..] == before[1..] + [line] + after;
      FirstLineIs(before[1..], line, after, prefix);
    }
  }

  lemma {:induction false} NoSuchLine(lines: seq<Bytes>, prefix: Bytes)
    requires NoneStarts(lines, prefix)
    ensures FirstLine(lines, prefix) == ""
  {
    if lines != [] {
      NoSuchLine(lines[1..], prefix);
    }
  }

  // --------------------------------------------------------- the file name read

  /** Up to the first quote, the file name parameter can only begin where the text before the quote ends with it. */
  lemma ToTheQuote(x: Bytes, y: Bytes, j: nat)
    requires '"' !in x && j <= |x|
    ensures OccursAt(Quote(x, y), FILENAME, j) <==> EndsWith(x, TAIL) && j == |x| - |TAIL|
  {
    var s := Quote(x, y);
    assert FILENAME == TAIL + "\"" && '"' !in TAIL;
    if OccursAt(s, FILENAME, j) {
      BothOccur(s, TAIL, "\"", j);
      assert s == x + ("\"" + y);
      StartsThere(s, TAIL, j);
      StartsThere(s, "\"", j + |TAIL|);
      if j < |x| {
        WhereItLies(x, "\"" + y, TAIL, j);
        assert x[j..] == x[j..j + |TAIL|];
      }
    }
    if EndsWith(x, TAIL) && j == |x| - |TAIL| {
      assert s[j..j + |FILENAME|] == x[j..] + "\"";
    }
  }

  lemma BothOccur(s: Bytes, a: Bytes, b: Bytes, j: nat)
    requires OccursAt(s, a + b, j)
    ensures OccursAt(s, a, j) && OccursAt(s, b, j + |a|)
  {
    assert s[j..j + |a|] == s[j..j + |a + b|][..|a|];
    assert s[j + |a|..j + |a| + |b|] == s[j..j + |a + b|][|a|..];
  }

  lemma FindBehind(a: Bytes, y: Bytes, pattern: Bytes)
    requires forall j: nat | j < |a| :: !OccursAt(a + y, pattern, j)
    ensures Find(a + y, pattern) == if Find(y, pattern).None? then None else Some(|a| + Find(y, pattern).value)
  {
    forall j: nat | j >= |a|
      ensures OccursAt(a + y, pattern, j) <==> OccursAt(y, pattern, j - |a|)
    {
      OccursBehind(a, y, pattern, j);
    }
    FindIsFirst(y, pattern);
    if Find(y, pattern).Some? {
      FindIs(a + y, pattern, |a| + Find(y, pattern).value);
    } else {
      FindNothing(a + y, pattern);
    }
  }

  lemma SplitIs(s: Bytes, pattern: Bytes, first: Bytes, rest: Bytes)
    requires pattern != [] && Find(s, pattern).Some?
    requires first == s[..Find(s, pattern).value] && rest == s[Find(s, pattern).value + |pattern|..]
    ensures Split(s, pattern) == [first] + Split(rest, pattern)
  {
  }

  lemma SliceBehind(a: Bytes, y: Bytes, i: nat, j: nat)
    requires i <= |y| && j <= |y|
    ensures (a + y)[..|a| + i] == a + y[..i] && (a + y)[|a| + j..] == y[j..]
  {
  }

  lemma JustLonger(a: Bytes, x: Bytes, more: seq<Bytes>, pieces: seq<Bytes>)
    requires pieces == [x] + more
    ensures [a + x] + more == [a + pieces[0]] + pieces[1..]
  {
  }

  /** Text with no occurrence in it just lengthens the first piece. */
  lemma SplitBehind(a: Bytes, y: Bytes, pattern: Bytes)
    requires pattern != [] && forall j: nat | j < |a| :: !OccursAt(a + y, pattern, j)
    ensures Split(a + y, pattern) == [a + Split(y, pattern)[0]] + Split(y, pattern)[1..]
  {
    FindBehind(a, y, pattern);
    if Find(y, pattern).Some? {
      var i := Find(y, pattern).value;
      var rest := y[i + |pattern|..];
      SliceBehind(a, y, i, i + |pattern|);
      SplitIs(y, pattern, y[..i], rest);
      SplitIs(a + y, pattern, a + y[..i], rest);
      JustLonger(a, y[..i], Split(rest, pattern), Split(y, pattern));
    }
  }

  /** A quoted text that ends like the start of the file name parameter is taken for it. */
  lemma TakenForTheName(x: Bytes, y: Bytes)
    requires '"' !in x && EndsWith(x, TAIL)
    ensures Split(Quote(x, y), FILENAME) == [x[..|x| - |TAIL|]] + Split(y, FILENAME)
  {
    var a := x[..|x| - |TAIL|];
    forall j: nat | j < |a|
      ensures !OccursAt(Quote(x, y), FILENAME, j)
    {
      ToTheQuote(x, y, j);
    }
    assert x == a + TAIL && Quote(x, y) == a + FILENAME + y;
    SplitAtFirst(a, FILENAME, y);
  }

  /** Any other quoted text is passed over. */
  lemma PassedOver(x: Bytes, y: Bytes)
    requires '"' !in x && !EndsWith(x, TAIL)
    ensures Split(Quote(x, y), FILENAME)[1..] == Split(y, FILENAME)[1..]
    ensures Split(Quote(x, y), FILENAME)[0] == Quote(x, Split(y, FILENAME)[0])
  {
    forall j: nat | j < |x + "\""|
      ensures !OccursAt(x + "\"" + y, FILENAME, j)
    {
      ToTheQuote(x, y, j);
    }
    SplitBehind(x + "\"", y, FILENAME);
  }

  lemma UpToTheQuote(x: Bytes, rest: Bytes)
    requires '"' !in x
    ensures Split(Quote(x, rest), "\"")[0] == x
  {
    forall j: nat | j < |x|
      ensures !OccursAt(x + "\"" + rest, "\"", j)
    {
      if OccursAt(x + "\"" + rest, "\"", j) {
        StartsThere(x + "\"" + rest, "\"", j);
      }
    }
    SplitAtFirst(x, "\"", rest);
  }

  lemma Unquoted(x: Bytes)
    requires '"' !in x
    ensures Split(x, "\"")[0] == x
  {
    NeverStarts(x, "\"");
    FindNothing(x, "\"");
  }

  lemma TheNameItself(filename: Bytes)
    requires '"' !in filename
    ensures Split(Split(Quote(filename, ""), FILENAME)[0], "\"")[0] ==
              if EndsWith(filename, TAIL) then filename[..|filename| - |TAIL|] else filename
  {
    if EndsWith(filename, TAIL) {
      TakenForTheName(filename, "");
      Unquoted(filename[..|filename| - |TAIL|]);
    } else {
      PassedOver(filename, "");
      NeverStarts("", FILENAME);
      UpToTheQuote(filename, "");
    }
  }

  lemma NameIsReadBehind(name: Bytes, p: Part)
    requires '"' !in name && !EndsWith(name, TAIL) && '"' !in p.field && '"' !in p.filename
    ensures FileNameIn(Quote(name, Quote(p.field, Quote(";" + TAIL, Quote(p.filename, ""))))) == NameRead(p)
  {
    var last := Quote(p.filename, "");
    var inner := Quote(";" + TAIL, last);
    PassedOver(name, Quote(p.field, inner));
    assert (";" + TAIL)[1..] == TAIL && (";" + TAIL)[..1] == ";";
    TakenForTheName(";" + TAIL, last);
    if EndsWith(p.field, TAIL) {
      TakenForTheName(p.field, inner);
      Unquoted(";");
    } else {
      PassedOver(p.field, inner);
      TheNameItself(p.filename);
    }
  }

  lemma NameIsRead(p: Part)
    requires '"' !in p.field && '"' !in p.filename
    ensures FileNameIn(Disposition(p)) == NameRead(p)
  {
    assert !EndsWith(NAME, TAIL) by {
      assert NAME[|NAME| - |TAIL|..][4] == ' ' && TAIL[4] == 'e';
    }
    NameIsReadBehind(NAME, p);
  }

  // --------------------------------------------------------- one printed part

  /** The header block as the parsers see it: any padding is a first line of its own. */
  function SeenLines(p: Part): seq<Bytes> {
    if p.padding == "" then Lines(p) else [p.padding] + Lines(p)
  }

  lemma ChunkIs(p: Part)
    requires Blank(p.padding)
    ensures var chunk := PrintedPart(p);
            (if StartsWith(chunk, CRLF) then chunk[2..] else chunk) == Terminated(SeenLines(p)) + CRLF + (p.body + CRLF)
  {
    var rest := Terminated(Lines(p)) + CRLF + p.body + CRLF;
    assert PrintedPart(p) == p.padding + CRLF + rest;
    assert rest == Terminated(Lines(p)) + CRLF + (p.body + CRLF);
    if p.padding == "" {
      assert PrintedPart(p) == CRLF + rest;
      assert PrintedPart(p)[0..2] == CRLF;
    } else {
      assert PrintedPart(p)[0..2][0] == p.padding[0];
      assert SeenLines(p)[1..] == Lines(p);
    }
  }

  lemma SeenLinesArePlain(p: Part, delimiter: Bytes)
    requires Printable(p, delimiter)
    ensures SeenLines(p) != [] && Plain(SeenLines(p))
  {
    assert p.padding != "" ==> OneLine(p.padding);
    forall i | 0 <= i < |SeenLines(p)|
      ensures SeenLines(p)[i] != "" && OneLine(SeenLines(p)[i])
    {
      assert p.padding != "" && i > 0 ==> SeenLines(p)[i] == Lines(p)[i - 1];
    }
  }

  lemma SameStart(s: Bytes, start: Bytes, prefix: Bytes)
    requires start <= s && |prefix| <= |start|
    ensures StartsWithIgnoringCase(s, prefix) <==> StartsWithIgnoringCase(start, prefix)
  {
    assert forall i | 0 <= i < |prefix| :: s[i] == start[i];
  }

  lemma DispositionStarts(p: Part)
    ensures StartsWithIgnoringCase(Disposition(p), "content-disposition")
    ensures !StartsWithIgnoringCase(Disposition(p), "content-type:")
  {
    NameStarts();
    Prefixed(p);
    SameStart(Disposition(p), NAME, "content-disposition");
    SameStart(Disposition(p), NAME, "content-type:");
  }

  lemma Prefixed(p: Part)
    ensures NAME <= Disposition(p)
  {
  }

  lemma NameStarts()
    ensures StartsWithIgnoringCase(NAME, "content-disposition")
    ensures !StartsWithIgnoringCase(NAME, "content-type:")
  {
    assert LowerChar(NAME[8]) == 'd' && "content-type:"[8] == 't';
  }

  lemma BlankStartsNothing(padding: Bytes, prefix: Bytes)
    requires Blank(padding) && prefix != "" && prefix[0] == 'c'
    ensures !StartsWithIgnoringCase(padding, prefix)
  {
    assert padding != "" ==> LowerChar(padding[0]) == padding[0];
  }

  /** The lines before the disposition, as the parsers see them. */
  function Leading(p: Part): seq<Bytes> {
    (if p.padding == "" then [] else [p.padding]) + p.before
  }

  lemma NothingLeads(p: Part, prefix: Bytes)
    requires Blank(p.padding) && NoneStarts(p.before, prefix) && prefix != "" && prefix[0] == 'c'
    ensures NoneStarts(Leading(p), prefix)
  {
    BlankStartsNothing(p.padding, prefix);
  }

  lemma SeenLinesAre(p: Part)
    ensures SeenLines(p) == Leading(p) + [Disposition(p)] + (TypeLines(p) + p.after)
  {
  }

  lemma DispositionIsFound(p: Part, delimiter: Bytes)
    requires Printable(p, delimiter)
    ensures FirstLine(SeenLines(p), "content-disposition") == Disposition(p)
  {
    SeenLinesAre(p);
    DispositionStarts(p);
    NothingLeads(p, "content-disposition");
    FirstLineIs(Leading(p), Disposition(p), TypeLines(p) + p.after, "content-disposition");
  }

  function TypePrinted(p: Part): Bytes {
    if p.contentType.Some? then p.contentType.value else ""
  }

  lemma TypeIsRead(value: Bytes)
    requires Strip(value) == value
    ensures Find("Content-Type: " + value, ":") == Some(12) && Strip(("Content-Type: " + value)[13..]) == value
  {
    var line := "Content-Type: " + value;
    forall j: nat | j < 12
      ensures !OccursAt(line, ":", j)
    {
      if OccursAt(line, ":", j) {
        StartsThere(line, ":", j);
      }
    }
    assert line[12..13] == ":";
    FindIs(line, ":", 12);
    assert line[13..] == " " + value && (" " + value)[1..] == value;
  }

  lemma TypeLineStarts(value: Bytes)
    ensures StartsWithIgnoringCase("Content-Type: " + value, "content-type:")
  {
    SameStart("Content-Type: " + value, "Content-Type: ", "content-type:");
  }

  lemma TypeIsFound(p: Part, delimiter: Bytes)
    requires Printable(p, delimiter)
    ensures ContentTypeIn(SeenLines(p)) == TypePrinted(p)
  {
    SeenLinesAre(p);
    DispositionStarts(p);
    NothingLeads(p, "content-type:");
    var before := Leading(p) + [Disposition(p)];
    if p.contentType.Some? {
      assert before + (TypeLines(p) + p.after) == before + TypeLines(p) + p.after;
      TypeLineStarts(p.contentType.value);
      FirstLineIs(before, "Content-Type: " + p.contentType.value, p.after, "content-type:");
      TypeIsRead(p.contentType.value);
    } else {
      NoSuchLine(before + (TypeLines(p) + p.after), "content-type:");
      NeverStarts("", ":");
    }
  }

  lemma HeadersAndBody(lines: seq<Bytes>, body: Bytes)
    requires lines != [] && Plain(lines)
    ensures var c := Terminated(lines) + CRLF + (body + CRLF);
            && Find(c, CRLF + CRLF).Some?
            && Split(c[..Find(c, CRLF + CRLF).value], CRLF) == lines
            && WithoutFraming(c[Find(c, CRLF + CRLF).value + 4..]) == body
  {
    HeadersEnd(lines, body + CRLF);
    LinesSplit(lines);
    TerminatedIs(lines);
    SectionsAre(Terminated(lines), body);
  }

  lemma SectionIs(chunk: Bytes, lines: seq<Bytes>, body: Bytes)
    requires lines != [] && Plain(lines)
    requires (if StartsWith(chunk, CRLF) then chunk[2..] else chunk) == Terminated(lines) + CRLF + (body + CRLF)
    ensures SectionIn(chunk) == Some(Section(lines, body))
  {
    HeadersAndBody(lines, body);
  }

  lemma ReadAs(chunk: Bytes, lines: seq<Bytes>, body: Bytes, filename: Bytes, contentType: Bytes)
    requires SectionIn(chunk) == Some(Section(lines, body))
    requires FileNameIn(FirstLine(lines, "content-disposition")) == filename && ContentTypeIn(lines) == contentType
    ensures PartIn(chunk) == if filename == "" then [] else [FilePart(filename, contentType, body)]
  {
  }

  /** One printed part is read as one file with its exact body, under the name that is read. */
  lemma APartIsRead(p: Part, delimiter: Bytes)
    requires Printable(p, delimiter)
    ensures PartIn(PrintedPart(p)) ==
              if NameRead(p) == "" then [] else [FilePart(NameRead(p), TypePrinted(p), p.body)]
  {
    ChunkIs(p);
    SeenLinesArePlain(p, delimiter);
    DispositionIsFound(p, delimiter);
    NameIsRead(p);
    TypeIsFound(p, delimiter);
    SectionIs(PrintedPart(p), SeenLines(p), p.body);
    ReadAs(PrintedPart(p), SeenLines(p), p.body, NameRead(p), TypePrinted(p));
  }

  lemma SectionsAre(headers: Bytes, body: Bytes)
    requires |headers| >= 2
    ensures (headers + CRLF + (body + CRLF))[..|headers| - 2] == headers[..|headers| - 2]
    ensures WithoutFraming((headers + CRLF + (body + CRLF))[|headers| + 2..]) == body
  {
    assert (headers + CRLF + (body + CRLF))[|headers| + 2..] == body + CRLF;
  }

  // ------------------------------------------------------------- main results

  function Reading(p: Part): FilePart {
    FilePart(NameRead(p), TypePrinted(p), p.body)
  }

  /** What the parsers make of printed parts. */
  function Readings(parts: seq<Part>): seq<FilePart> {
    if parts == [] then []
    else (if NameRead(parts[0]) == "" then [] else [Reading(parts[0])]) + Readings(parts[1..])
  }

  lemma NotClosing(p: Part)
    requires Blank(p.padding)
    ensures !StartsWith(PrintedPart(p), "--")
  {
    assert PrintedPart(p) == p.padding + CRLF + (Terminated(Lines(p)) + CRLF + p.body + CRLF);
    assert PrintedPart(p)[0] != '-';
    if StartsWith(PrintedPart(p), "--") {
      StartsThere(PrintedPart(p), "--", 0);
    }
  }

  lemma {:induction false} ChunksAreRead(parts: seq<Part>, closing: seq<Bytes>, delimiter: Bytes)
    requires AllPrintable(parts, delimiter) && closing != [] && StartsWith(closing[0], "--")
    ensures PartsIn(Chunks(parts) + closing) == Readings(parts)
  {
    if parts == [] {
      assert Chunks(parts) + closing == closing;
    } else {
      var chunk := PrintedPart(parts[0]);
      assert (Chunks(parts) + closing)[1..] == Chunks(parts[1..]) + closing;
      NotClosing(parts[0]);
      APartIsRead(parts[0], delimiter);
      ChunksAreRead(parts[1..], closing, delimiter);
    }
  }

  /** Whatever is printed, the parsers read every part's exact bytes, under these names. */
  lemma PrintedMessagesAreRead(preamble: Bytes, parts: seq<Part>, epilogue: Bytes, boundary: Bytes)
    requires Message(preamble, parts, epilogue, boundary)
    ensures FileParts(Printed(preamble, parts, epilogue, boundary), boundary) == Readings(parts)
  {
    MessageSplits(preamble, parts, epilogue, boundary);
    ClosingChunk(epilogue, boundary);
    ChunksAreRead(parts, Split("--" + epilogue, "--" + boundary), "--" + boundary);
  }

  function Original(p: Part): FilePart {
    FilePart(p.filename, TypePrinted(p), p.body)
  }

  function Originals(parts: seq<Part>): seq<FilePart> {
    if parts == [] then [] else [Original(parts[0])] + Originals(parts[1..])
  }

  /** Neither the field name nor the file name ends like the start of a file name parameter. */
  predicate Unambiguous(p: Part) {
    if EndsWith(p.field, TAIL) then p.filename == ";" else !EndsWith(p.filename, TAIL)
  }

  lemma UnambiguousNamesAreRead(p: Part)
    requires p.filename != ""
    ensures Unambiguous(p) <==> NameRead(p) == p.filename
  {
    assert EndsWith(p.filename, TAIL) ==> |p.filename[..|p.filename| - |TAIL|]| < |p.filename|;
  }

  /** An ambiguous part: its field name ends like the start of a file name parameter, so the name read is ";". */
  lemma AnAmbiguousNameIsMisread()
    ensures var p := Part([], "x filename=", "f", None, [], "", "");
            !Unambiguous(p) && FileNameIn(Disposition(p)) == ";"
  {
    var p := Part([], "x filename=", "f", None, [], "", "");
    assert p.field[1..] == TAIL;
    assert EndsWith(p.field, TAIL);
    NameIsRead(p);
  }

  lemma {:induction false} OriginalsAreRead(parts: seq<Part>, delimiter: Bytes)
    requires AllPrintable(parts, delimiter)
    ensures |Readings(parts)| <= |Originals(parts)|
    ensures Readings(parts) == Originals(parts) <==> forall i | 0 <= i < |parts| :: Unambiguous(parts[i])
  {
    if parts != [] {
      OriginalsAreRead(parts[1..], delimiter);
      UnambiguousNamesAreRead(parts[0]);
      assert forall i | 1 <= i < |parts| :: parts[i] == parts[1..][i - 1];
      if Readings(parts) == Originals(parts) {
        assert Readings(parts)[0] == Original(parts[0]);
        assert Readings(parts)[1..] == Originals(parts[1..]) == Originals(parts)[1..];
      }
    }
  }

  /**
    The main result: parsing inverts printing, names and content types and
    bodies alike, for exactly the messages whose parts are all unambiguous.
   */
  lemma ParsingInvertsPrinting(preamble: Bytes, parts: seq<Part>, epilogue: Bytes, boundary: Bytes)
    requires Message(preamble, parts, epilogue, boundary)
    ensures FileParts(Printed(preamble, parts, epilogue, boundary), boundary) == Originals(parts)
            <==> forall i | 0 <= i < |parts| :: Unambiguous(parts[i])
  {
    PrintedMessagesAreRead(preamble, parts, epilogue, boundary);
    OriginalsAreRead(parts, "--" + boundary);
  }

  function WithoutTypes(parts: seq<FilePart>): (files: seq<File>)
    ensures |files| == |parts| && forall i | 0 <= i < |parts| :: files[i] == File(parts[i].filename, parts[i].body)
  {
    seq(|parts|, i requires 0 <= i < |parts| => File(parts[i].filename, parts[i].body))
  }

  lemma TypesAreDropped(a: seq<FilePart>, b: seq<FilePart>)
    ensures WithoutTypes(a + b) == WithoutTypes(a) + WithoutTypes(b)
  {
  }

  lemma {:induction false} ChunksAgree(chunks: seq<Bytes>)
    ensures FilesIn(chunks) == WithoutTypes(PartsIn(chunks))
  {
    if chunks != [] && !StartsWith(chunks[0], "--") {
      ChunksAgree(chunks[1..]);
      TypesAreDropped(PartIn(chunks[0]), PartsIn(chunks[1..]));
      assert FileIn(chunks[0]) == WithoutTypes(PartIn(chunks[0]));
    }
  }

  /** The two parsers agree on every body, well formed or not, apart from the content type. */
  lemma TheParsersAgree(raw: Bytes, boundary: Bytes)
    ensures Files(raw, boundary) == WithoutTypes(FileParts(raw, boundary))
  {
    ChunksAgree(Split(raw, "--" + boundary)[1..]);
  }

  // ------------------------------------------------------------- the loops

  method FirstLineWith(lines: seq<Bytes>, prefix: Bytes) returns (line: Bytes)
    ensures line == FirstLine(lines, prefix)
  {
    for i := 0 to |lines|
      invariant FirstLine(lines, prefix) == FirstLine(lines[i..], prefix)
    {
      if StartsWithIgnoringCase(lines[i], prefix) {
        return lines[i];
      }
    }
    return "";
  }

  method ReadFileName(headers: seq<Bytes>) returns (filename: Bytes)
    ensures filename == FileNameIn(FirstLine(headers, "content-disposition"))
  {
    var disposition := FirstLineWith(headers, "content-disposition");
    if Find(disposition, FILENAME).None? {
      return "";
    }
    return Split(Split(disposition, FILENAME)[1], "\"")[0];
  }

  method TakeFraming(text: Bytes) returns (body: Bytes)
    ensures body == WithoutFraming(text)
  {
    body := text;
    if EndsWith(body, CRLF) {
      body := body[..|body| - 2];
    }
  }

  method ReadSection(between: Bytes) returns (section: Option<Section>)
    ensures section == SectionIn(between)
  {
    var chunk := between;
    if StartsWith(chunk, CRLF) {
      chunk := chunk[2..];
    }
    var end := Find(chunk, CRLF + CRLF);
    if end.None? {
      return None;
    }
    var body := TakeFraming(chunk[end.value + 4..]);
    return Some(Section(Split(chunk[..end.value], CRLF), body));
  }

  method ReadFile(chunk: Bytes) returns (files: seq<File>)
    ensures files == FileIn(chunk)
  {
    var section := ReadSection(chunk);
    if section.None? {
      return [];
    }
    var filename := ReadFileName(section.value.lines);
    return if filename == "" then [] else [File(filename, section.value.body)];
  }

  lemma FilesContinue(before: seq<File>, chunks: seq<Bytes>)
    requires chunks != [] && !StartsWith(chunks[0], "--")
    ensures before + FilesIn(chunks) == before + FileIn(chunks[0]) + FilesIn(chunks[1..])
  {
  }

  method ReadFiles(chunks: seq<Bytes>) returns (files: seq<File>)
    ensures files == FilesIn(chunks)
  {
    files := [];
    var rest := chunks;
    while rest != []
      invariant FilesIn(chunks) == files + FilesIn(rest)
    {
      if StartsWith(rest[0], "--") {
        return;
      }
      FilesContinue(files, rest);
      var more := ReadFile(rest[0]);
      files := files + more;
      rest := rest[1..];
    }
  }

  method ParseMultipartFiles(raw: Bytes, boundary: Bytes) returns (files: seq<File>)
    ensures files == Files(raw, boundary)
  {
    files := ReadFiles(Split(raw, "--" + boundary)[1..]);
  }

  method ReadContentType(lines: seq<Bytes>) returns (contentType: Bytes)
    ensures contentType == ContentTypeIn(lines)
  {
    var line := FirstLineWith(lines, "content-type:");
    var colon := Find(line, ":");
    return if colon.None? then "" else Strip(line[colon.value + 1..]);
  }

  method ReadPart(chunk: Bytes) returns (parts: seq<FilePart>)
    ensures parts == PartIn(chunk)
  {
    var section := ReadSection(chunk);
    if section.None? {
      return [];
    }
    var contentType := ReadContentType(section.value.lines);
    var filename := ReadFileName(section.value.lines);
    return if filename == "" then [] else [FilePart(filename, contentType, section.value.body)];
  }

  lemma PartsContinue(before: seq<FilePart>, chunks: seq<Bytes>)
    requires chunks != [] && !StartsWith(chunks[0], "--")
    ensures before + PartsIn(chunks) == before + PartIn(chunks[0]) + PartsIn(chunks[1..])
  {
  }

  method ReadParts(chunks: seq<Bytes>) returns (parts: seq<FilePart>)
    ensures parts == PartsIn(chunks)
  {
    parts := [];
    var rest := chunks;
    while rest != []
      invariant PartsIn(chunks) == parts + PartsIn(rest)
    {
      if StartsWith(rest[0], "--") {
        return;
      }
      PartsContinue(parts, rest);
      var more := ReadPart(rest[0]);
      parts := parts + more;
      rest := rest[1..];
    }
  }

  method ParseMultipartFileParts(raw: Bytes, boundary: Bytes) returns (parts: seq<FilePart>)
    ensures parts == FileParts(raw, boundary)
  {
    parts := ReadParts(Split(raw, "--" + boundary)[1..]);
  }
}
