/**
  The line-buffered rotating log (app/common/logging_setup.py): text arrives in
  arbitrary pieces, complete lines are stamped and appended, and a file that
  has reached the limit becomes the newest of a bounded number of backups.
 */
module RotatingLog {

  datatype Line = Line(stamp: nat, text: string)

  /** "[YYYY-MM-DDTHH:MM:SSZ] " and the line break. */
  const STAMP_SIZE := 24

  function Size(lines: seq<Line>): nat {
    if lines == [] then 0 else Size(lines[..|lines| - 1]) + STAMP_SIZE + |lines[|lines| - 1].text|
  }

  datatype Log = Log(partial: string, current: seq<Line>, backups: map<int, seq<Line>>)

  datatype Limits = Limits(maxBytes: int, backupCount: int)

  // --------------------------------------------------------- splitting lines

  function FirstBreak(s: string): (i: nat)
    ensures i <= |s| && (forall k | 0 <= k < i :: s[k] != '\n') && (i < |s| ==> s[i] == '\n')
  {
    if s == "" || s[0] == '\n' then 0 else 1 + FirstBreak(s[1..])
  }

  /** The complete lines of a text. */
  function Complete(s: string): seq<string>
    decreases |s|
  {
    var i := FirstBreak(s);
    if i == |s| then [] else [s[..i]] + Complete(s[i + 1..])
  }

  /** What is left after them. */
  function Rest(s: string): string
    decreases |s|
  {
    var i := FirstBreak(s);
    if i == |s| then s else Rest(s[i + 1..])
  }

  function Stamped(lines: seq<string>, clock: nat -> nat): (r: seq<Line>)
    ensures |r| == |lines| && forall i | 0 <= i < |r| :: r[i] == Line(clock(i), lines[i])
  {
    seq(|lines|, i requires 0 <= i < |lines| => Line(clock(i), lines[i]))
  }

  // ---------------------------------------------------------------- rollover

  /** Each backup up to an index moves up by one, the higher ones first. */
  function ShiftFrom(backups: map<int, seq<Line>>, index: nat): map<int, seq<Line>>
    decreases index
  {
    if index == 0 then backups else ShiftFrom(MoveUp(backups, index), index - 1)
  }

  function MoveUp(backups: map<int, seq<Line>>, index: nat): map<int, seq<Line>> {
    if index in backups then (backups - {index})[index + 1 := backups[index]] else backups
  }

  function Rolled(log: Log, limits: Limits): Log {
    if limits.maxBytes <= 0 || Size(log.current) < limits.maxBytes then log
    else if limits.backupCount <= 0 then log.(current := [])
    else log.(current := [], backups := ShiftFrom(log.backups, limits.backupCount - 1)[1 := log.current])
  }

  function Write(log: Log, data: string, clock: nat -> nat, limits: Limits): Log {
    if data == "" then log
    else
      var text := log.partial + data;
      Rolled(log.(partial := Rest(text), current := log.current + Stamped(Complete(text), clock)), limits)
  }

  datatype Piece = Piece(data: string, clock: nat -> nat)

  function WriteAll(log: Log, pieces: seq<Piece>, limits: Limits): Log {
    if pieces == [] then log
    else
      var last := pieces[|pieces| - 1];
      Write(WriteAll(log, pieces[..|pieces| - 1], limits), last.data, last.clock, limits)
  }

  // ------------------------------------------ what is produced, however it is split

  function Text(pieces: seq<Piece>): string {
    if pieces == [] then "" else Text(pieces[..|pieces| - 1]) + pieces[|pieces| - 1].data
  }

  /** All the lines that writes append, stamped when they became complete. */
  function Written(partial: string, pieces: seq<Piece>): seq<Line> {
    if pieces == [] then []
    else
      var last := pieces[|pieces| - 1];
      Written(partial, pieces[..|pieces| - 1])
        + Stamped(Complete(Rest(partial + Text(pieces[..|pieces| - 1])) + last.data), last.clock)
  }

  function Texts(lines: seq<Line>): (r: seq<string>)
    ensures |r| == |lines| && forall i | 0 <= i < |r| :: r[i] == lines[i].text
  {
    seq(|lines|, i requires 0 <= i < |lines| => lines[i].text)
  }

  lemma {:induction false} MoreText(a: string, b: string)
    ensures Complete(a + b) == Complete(a) + Complete(Rest(a) + b)
    ensures Rest(a + b) == Rest(Rest(a) + b)
    decreases |a|
  {
    var i := FirstBreak(a);
    if i == |a| {
      assert Complete(a) == [] && Rest(a) == a;
    } else {
      var line, more := a[..i], a[i + 1..];
      MoreText(more, b);
      OneLineOff(a, b, i);
      Associates([line], Complete(more), Complete(Rest(more) + b));
    }
  }

  lemma Associates<T>(a: seq<T>, b: seq<T>, c: seq<T>)
    ensures a + (b + c) == (a + b) + c
  {
  }

  /** The first line of a text is the first line of a longer one. */
  lemma OneLineOff(a: string, b: string, i: nat)
    requires i == FirstBreak(a) && i < |a|
    ensures Complete(a) == [a[..i]] + Complete(a[i + 1..]) && Rest(a) == Rest(a[i + 1..])
    ensures Complete(a + b) == [a[..i]] + Complete(a[i + 1..] + b) && Rest(a + b) == Rest(a[i + 1..] + b)
  {
    BreakIs(a + b, i);
    assert (a + b)[..i] == a[..i] && (a + b)[i + 1..] == a[i + 1..] + b;
  }

  lemma BreakIs(s: string, i: nat)
    requires i < |s| && s[i] == '\n' && forall k | 0 <= k < i :: s[k] != '\n'
    ensures FirstBreak(s) == i
  {
    var j := FirstBreak(s);
    assert j <= i;
  }

  lemma {:induction false} NoBreakInRest(s: string)
    ensures Complete(Rest(s)) == [] && Rest(Rest(s)) == Rest(s)
    decreases |s|
  {
    var i := FirstBreak(s);
    if i < |s| {
      NoBreakInRest(s[i + 1..]);
    }
  }

  lemma TextsOf(a: seq<Line>, lines: seq<string>, clock: nat -> nat)
    ensures Texts(a + Stamped(lines, clock)) == Texts(a) + lines
  {
  }

  /** The complete lines depend on the whole text only, not on where it was cut. */
  lemma {:induction false} LinesDoNotDependOnTheSplit(partial: string, pieces: seq<Piece>)
    requires Complete(partial) == []
    ensures Texts(Written(partial, pieces)) == Complete(partial + Text(pieces))
  {
    if pieces == [] {
      NoPieces(partial);
    } else {
      var n := |pieces| - 1;
      var text, written := Text(pieces[..n]), Written(partial, pieces[..n]);
      LinesDoNotDependOnTheSplit(partial, pieces[..n]);
      LastPiece(partial, pieces, text, written);
      OneMorePiece(partial, text, written, pieces[n]);
    }
  }

  lemma NoPieces(partial: string)
    ensures partial + Text([]) == partial && Written(partial, []) == []
  {
  }

  lemma LastPiece(partial: string, pieces: seq<Piece>, text: string, written: seq<Line>)
    requires pieces != [] && text == Text(pieces[..|pieces| - 1]) && written == Written(partial, pieces[..|pieces| - 1])
    ensures var last := pieces[|pieces| - 1];
            && partial + Text(pieces) == partial + text + last.data
            && Written(partial, pieces) == written + Stamped(Complete(Rest(partial + text) + last.data), last.clock)
  {
  }

  lemma OneMorePiece(partial: string, before: string, written: seq<Line>, last: Piece)
    requires Texts(written) == Complete(partial + before)
    ensures Texts(written + Stamped(Complete(Rest(partial + before) + last.data), last.clock)) == Complete(partial + before + last.data)
  {
    TextsOf(written, Complete(Rest(partial + before) + last.data), last.clock);
    MoreText(partial + before, last.data);
  }

  // ---------------------------------------------------------- what is kept

  function At(backups: map<int, seq<Line>>, index: int): seq<Line> {
    if index in backups then backups[index] else []
  }

  /** The backups from an index down to the newest, oldest first. */
  function History(backups: map<int, seq<Line>>, index: nat): seq<Line> {
    if index == 0 then [] else At(backups, index) + History(backups, index - 1)
  }

  function Kept(log: Log, limits: Limits): seq<Line> {
    (if limits.backupCount <= 0 then [] else History(log.backups, limits.backupCount)) + log.current
  }

  predicate WithinCount(log: Log, limits: Limits) {
    forall index | index in log.backups :: 1 <= index <= limits.backupCount
  }

  lemma {:induction false} HistoryFrame(b: map<int, seq<Line>>, b': map<int, seq<Line>>, n: nat)
    requires forall i | 1 <= i <= n :: At(b, i) == At(b', i)
    ensures History(b, n) == History(b', n)
  {
    if n > 0 {
      HistoryFrame(b, b', n - 1);
    }
  }

  /** Moving a backup into a free place keeps the order. */
  lemma {:induction false} MovingKeepsTheOrder(b: map<int, seq<Line>>, k: nat, n: nat)
    requires 1 <= k < n && k + 1 !in b
    ensures History(MoveUp(b, k), n) == History(b, n)
  {
    if n == k + 1 {
      HistoryFrame(b, MoveUp(b, k), k - 1);
      assert At(b, k) + ([] + History(b, k - 1)) == [] + (At(b, k) + History(b, k - 1));
    } else {
      MovingKeepsTheOrder(b, k, n - 1);
    }
  }

  lemma {:induction false} ShiftingKeepsTheOrder(b: map<int, seq<Line>>, k: nat, n: nat)
    requires k < n && k + 1 !in b && forall i | i in b :: 1 <= i <= n
    ensures History(ShiftFrom(b, k), n) == History(b, n)
    ensures 1 !in ShiftFrom(b, k) && forall i | i in ShiftFrom(b, k) :: 1 <= i <= n
    decreases k
  {
    if k > 0 {
      MovingKeepsTheOrder(b, k, n);
      ShiftingKeepsTheOrder(MoveUp(b, k), k - 1, n);
    }
  }

  lemma {:induction false} NewestComesLast(b: map<int, seq<Line>>, lines: seq<Line>, n: nat)
    requires n >= 1 && 1 !in b
    ensures History(b[1 := lines], n) == History(b, n) + lines
  {
    if n == 1 {
      assert History(b[1 := lines], 0) == [];
    } else {
      NewestComesLast(b, lines, n - 1);
      assert At(b, n) + (History(b, n - 1) + lines) == At(b, n) + History(b, n - 1) + lines;
    }
  }

  /** The oldest backup is overwritten if the one below it moves up. */
  function Overwritten(b: map<int, seq<Line>>, n: nat): seq<Line>
    requires n >= 1
  {
    if n == 1 || n - 1 in b then At(b, n) else []
  }

  lemma AShiftDropsOnlyTheOldest(b: map<int, seq<Line>>, n: nat)
    requires n >= 1 && forall i | i in b :: 1 <= i <= n
    ensures var b' := ShiftFrom(b, n - 1) - {1};
            && Overwritten(b, n) + History(b', n) == History(b, n)
            && forall i | i in b' :: 1 <= i <= n
  {
    var rest := b - {n};
    HistoryFrame(b, rest, n - 1);
    if n == 1 {
      assert ShiftFrom(b, 0) - {1} == rest;
      assert History(rest, 0) == [];
    } else if n - 1 in b {
      assert MoveUp(b, n - 1) == MoveUp(rest, n - 1);
      ShiftingKeepsTheOrder(rest, n - 1, n);
      assert ShiftFrom(b, n - 1) == ShiftFrom(rest, n - 1);
      assert ShiftFrom(rest, n - 1) - {1} == ShiftFrom(rest, n - 1);
      assert History(rest, n) == History(b, n - 1);
    } else {
      ShiftingKeepsTheOrder(b, n - 2, n);
      assert ShiftFrom(b, n - 1) == ShiftFrom(b, n - 2);
      assert ShiftFrom(b, n - 2) - {1} == ShiftFrom(b, n - 2);
    }
  }

  /** A rollover loses nothing, or the oldest backup as a whole; without backups it loses the current file. */
  lemma ARolloverLosesWholeFiles(log: Log, limits: Limits)
    requires WithinCount(log, limits)
    ensures var after := Rolled(log, limits);
            && WithinCount(after, limits)
            && (Kept(after, limits) == Kept(log, limits)
                || (limits.backupCount >= 1 && Kept(log, limits) == Overwritten(log.backups, limits.backupCount) + Kept(after, limits))
                || (limits.backupCount <= 0 && Kept(after, limits) == []))
            && (limits.maxBytes > 0 ==> Size(after.current) < limits.maxBytes)
  {
    var n := limits.backupCount;
    var after := Rolled(log, limits);
    if after != log && n >= 1 {
      var b' := ShiftFrom(log.backups, n - 1) - {1};
      AShiftDropsOnlyTheOldest(log.backups, n);
      NewestComesLast(b', log.current, n);
      assert after.backups == b'[1 := log.current];
      Associate(Overwritten(log.backups, n), History(b', n), log.current);
    }
  }

  lemma Associate(a: seq<Line>, b: seq<Line>, c: seq<Line>)
    ensures a + (b + c + []) == a + b + c
  {
  }

  // ------------------------------------------------------------- main results

  ghost predicate Suffix(x: seq<Line>, y: seq<Line>) {
    |x| <= |y| && x == y[|y| - |x|..]
  }

  lemma SuffixOfSum(a: seq<Line>, x: seq<Line>, y: seq<Line>, more: seq<Line>)
    requires Suffix(a + x, y)
    ensures Suffix(x + more, y + more)
  {
    assert x == (a + x)[|a|..];
    assert (y + more)[|y| - |x|..] == y[|y| - |x|..] + more;
  }

  lemma AWriteKeepsASuffix(log: Log, data: string, clock: nat -> nat, limits: Limits, all: seq<Line>)
    requires WithinCount(log, limits) && Suffix(Kept(log, limits), all)
    ensures var after := Write(log, data, clock, limits);
            var more := if data == "" then [] else Stamped(Complete(log.partial + data), clock);
            WithinCount(after, limits) && Suffix(Kept(after, limits), all + more)
  {
    if data == "" {
      assert all + [] == all;
    } else {
      var text := log.partial + data;
      var more := Stamped(Complete(text), clock);
      var appended := log.(partial := Rest(text), current := log.current + more);
      assert Kept(appended, limits) == Kept(log, limits) + more;
      assert [] + Kept(log, limits) == Kept(log, limits);
      SuffixOfSum([], Kept(log, limits), all, more);
      ARolloverLosesWholeFiles(appended, limits);
      var after := Rolled(appended, limits);
      if limits.backupCount >= 1 && Kept(appended, limits) == Overwritten(appended.backups, limits.backupCount) + Kept(after, limits) {
        SuffixOfSum(Overwritten(appended.backups, limits.backupCount), Kept(after, limits), all + more, []);
        assert Kept(after, limits) + [] == Kept(after, limits) && all + more + [] == all + more;
      }
    }
  }

  /**
    The main result: the backups from oldest to newest and then the current
    file always are a suffix of all complete lines ever written, and no backup
    beyond the allowed number exists.
   */
  lemma {:induction false} OnlyTheOldestLinesAreLost(log: Log, pieces: seq<Piece>, limits: Limits)
    requires WithinCount(log, limits) && Complete(log.partial) == []
    ensures var after := WriteAll(log, pieces, limits);
            && WithinCount(after, limits)
            && after.partial == Rest(log.partial + Text(pieces))
            && Suffix(Kept(after, limits), Kept(log, limits) + Written(log.partial, pieces))
  {
    if pieces == [] {
      NoPieces(log.partial);
      NothingDropped(Kept(log, limits));
    } else {
      var n := |pieces| - 1;
      var text, written := Text(pieces[..n]), Written(log.partial, pieces[..n]);
      OnlyTheOldestLinesAreLost(log, pieces[..n], limits);
      LastPiece(log.partial, pieces, text, written);
      OneMoreWrite(log, WriteAll(log, pieces[..n], limits), text, written, pieces[n], limits);
      Together(Kept(log, limits), written, Stamped(Complete(Rest(log.partial + text) + pieces[n].data), pieces[n].clock));
    }
  }

  lemma NothingDropped(x: seq<Line>)
    ensures Suffix(x, x + [])
  {
    assert x + [] == x;
  }

  lemma Together(a: seq<Line>, b: seq<Line>, c: seq<Line>)
    ensures a + b + c == a + (b + c)
  {
  }

  lemma OneMoreWrite(log: Log, before: Log, text: string, written: seq<Line>, last: Piece, limits: Limits)
    requires WithinCount(before, limits) && before.partial == Rest(log.partial + text)
    requires Suffix(Kept(before, limits), Kept(log, limits) + written)
    ensures var after := Write(before, last.data, last.clock, limits);
            && WithinCount(after, limits)
            && after.partial == Rest(log.partial + text + last.data)
            && Suffix(Kept(after, limits), Kept(log, limits) + written + Stamped(Complete(before.partial + last.data), last.clock))
  {
    AWriteKeepsASuffix(before, last.data, last.clock, limits, Kept(log, limits) + written);
    MoreText(log.partial + text, last.data);
    NoBreakInRest(log.partial + text);
    if last.data == "" {
      assert before.partial + "" == before.partial;
      assert log.partial + text + "" == log.partial + text;
    }
  }

  lemma {:induction false} AtMost(keys: set<int>, n: nat)
    requires forall k | k in keys :: 1 <= k <= n
    ensures |keys| <= n
  {
    if n == 0 {
      assert forall k :: k !in keys;
      assert keys == {};
    } else {
      AtMost(keys - {n}, n - 1);
      assert keys <= keys - {n} + {n};
      assert |keys| <= |keys - {n}| + 1;
    }
  }

  /** The file is rolled exactly when there is a positive limit and it has been reached; then a new one starts. */
  lemma ARolloverHappensExactly(log: Log, limits: Limits)
    ensures limits.maxBytes <= 0 || Size(log.current) < limits.maxBytes ==> Rolled(log, limits) == log
    ensures limits.maxBytes > 0 && Size(log.current) >= limits.maxBytes ==>
              && Rolled(log, limits).current == [] && Rolled(log, limits).partial == log.partial
              && (limits.backupCount > 0 ==> 1 in Rolled(log, limits).backups && Rolled(log, limits).backups[1] == log.current)
              && (limits.backupCount <= 0 ==> Rolled(log, limits).backups == log.backups)
  {
  }

  lemma NoMoreBackupsThanAllowed(log: Log, limits: Limits)
    requires WithinCount(log, limits)
    ensures |log.backups.Keys| <= if limits.backupCount < 0 then 0 else limits.backupCount
  {
    AtMost(log.backups.Keys, if limits.backupCount < 0 then 0 else limits.backupCount);
  }

  /** After every write of some text, the current file is below a positive limit. */
  lemma TheCurrentFileIsBelowTheLimit(log: Log, data: string, clock: nat -> nat, limits: Limits)
    requires data != "" && limits.maxBytes > 0
    ensures Size(Write(log, data, clock, limits).current) < limits.maxBytes
  {
  }

  // -------------------------------------------------------------- the stream

  class TeeRotatingStream {
    var partial: string
    var current: seq<Line>
    var backups: map<int, seq<Line>>
    const limits: Limits

    function Contents(): Log
      reads this
    {
      Log(partial, current, backups)
    }

    constructor (limits: Limits, current: seq<Line>, backups: map<int, seq<Line>>)
      ensures this.limits == limits && Contents() == Log("", current, backups)
    {
      this.limits, this.partial, this.current, this.backups := limits, "", current, backups;
    }

    method RolloverIfNeeded()
      modifies this`current, this`backups
      ensures Contents() == Rolled(old(Contents()), limits)
    {
      if limits.maxBytes <= 0 || Size(current) < limits.maxBytes {
        return;
      }
      if limits.backupCount > 0 {
        for index := limits.backupCount downto 1
          invariant current == old(current)
          invariant ShiftFrom(backups, index - 1) == ShiftFrom(old(backups), limits.backupCount - 1)
        {
          if index in backups {
            var moved := backups[index];
            backups := (backups - {index})[index + 1 := moved];
          }
        }
        backups := backups[1 := current];
      }
      current := [];
    }

    method WriteData(data: string, clock: nat -> nat)
      modifies this
      ensures Contents() == Write(old(Contents()), data, clock, limits)
      ensures data != "" && limits.maxBytes > 0 ==> Size(current) < limits.maxBytes
    {
      if data != "" && limits.maxBytes > 0 {
        TheCurrentFileIsBelowTheLimit(Contents(), data, clock, limits);
      }
      if data == "" {
        return;
      }
      partial := partial + data;
      var lines := TakeLines();
      current := current + Stamped(lines, clock);
      RolloverIfNeeded();
    }

    /** Cuts the complete lines off the buffer. */
    method TakeLines() returns (lines: seq<string>)
      modifies this`partial
      ensures lines == Complete(old(partial)) && partial == Rest(old(partial))
    {
      lines := [];
      var i := FirstBreak(partial);
      while i < |partial|
        invariant i == FirstBreak(partial)
        invariant lines + Complete(partial) == Complete(old(partial)) && Rest(partial) == Rest(old(partial))
        decreases |partial|
      {
        assert Complete(partial) == [partial[..i]] + Complete(partial[i + 1..]);
        lines := lines + [partial[..i]];
        partial := partial[i + 1..];
        i := FirstBreak(partial);
      }
    }
  }
}
