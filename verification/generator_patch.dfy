/**
  The marked block in the Switch generator (app/device/admin_fixes.py): one
  recognized command line gets a managed block after it, and unpatching takes
  marked blocks out again.
 */
module GeneratorPatch {
  import opened Options
  import opened Texts

  /** The markers of the managed block and of an older one, and the lines put between the managed ones. */
  datatype Wording = Wording(start: Bytes, end: Bytes, legacyStart: Bytes, legacyEnd: Bytes,
                             note: Bytes, condition: Bytes, command: Bytes)

  // The texts are put together from short pieces: to the verifier a literal is
  // one term per character, and a long one makes every search in it costly.
  const START := "# >>> drone " + "switch-gui-" + "autoload fix"
  const END := "# <<< drone " + "switch-gui-" + "autoload fix"
  const LEGACY_START := "# >>> gui-" + "autoload hotfix"
  const LEGACY_END := "# <<< gui-" + "autoload hotfix"
  const NOTE := ": scope is read " + "dynamically by " + "the managed " + "launcher\n"
  const CONDITION := "if emulator in " + "('eden', " + "'eden-legacy', " + "'eden-pgo', " + "'citron', " + "'citron-legacy'):"
  const COMMAND :=
    "    commandArray " + "= [\"python3\", " + "\"/userdata/" + "system/rgs/" + "generators/yuzu/"
    + "drone-switch-" + "gui-launcher" + ".py\", emulator, " + "str(rom)]\n"

  const SWITCH := Wording(START, END, LEGACY_START, LEGACY_END, NOTE, CONDITION, COMMAND)

  datatype Outcome = Text(text: Bytes) | Failed

  /** Where the line that holds a position begins. */
  function LineStart(s: Bytes, i: nat): (r: nat)
    requires i <= |s|
    ensures r <= i
  {
    if i == 0 || s[i - 1] == '\n' then i else LineStart(s, i - 1)
  }

  /** Where the next line begins, or the end of the text. */
  function LineEnd(s: Bytes, i: nat): (r: nat)
    requires i <= |s|
    ensures i <= r <= |s|
    decreases |s| - i
  {
    if i == |s| then i else if s[i] == '\n' then i + 1 else LineEnd(s, i + 1)
  }

  /** Takes out whole lines, from the first start marker to the end marker after it. */
  function RemoveBlock(s: Bytes, start: Bytes, end: Bytes): Outcome {
    match Find(s, start)
    case None => Text(s)
    case Some(i) =>
      match FindFrom(s, end, i)
      case None => Failed
      case Some(j) => Text(s[..LineStart(s, i)] + s[LineEnd(s, j)..])
  }

  function Clean(w: Wording, s: Bytes): Outcome {
    match RemoveBlock(s, w.start, w.end)
    case Failed => Failed
    case Text(source) => RemoveBlock(source, w.legacyStart, w.legacyEnd)
  }

  /** Where the one recognized command line is: its indentation, and where the match ends. */
  datatype Place = Place(indent: Bytes, end: nat)

  type Locator = Bytes -> Option<Place>

  /** What the pattern guarantees: the match ends at the end of a line, and the indentation is blank. */
  ghost predicate Recognizes(locate: Locator) {
    forall s | locate(s).Some? :: FitsIn(locate(s).value, s)
  }

  predicate FitsIn(p: Place, s: Bytes) {
    && p.end <= |s| && (p.end < |s| ==> s[p.end] == '\n')
    && forall i | 0 <= i < |p.indent| :: p.indent[i] == ' ' || p.indent[i] == '\t'
  }

  function Between(w: Wording, indent: Bytes): Bytes {
    w.note + indent + w.condition + "\n" + indent + w.command + indent
  }

  function Patched(w: Wording, source: Bytes, p: Place): Bytes
    requires p.end <= |source|
  {
    source[..p.end] + "\n" + p.indent + w.start + Between(w, p.indent) + w.end + source[p.end..]
  }

  function Patch(w: Wording, s: Bytes, locate: Locator): Outcome
    requires Recognizes(locate)
  {
    match Clean(w, s)
    case Failed => Failed
    case Text(source) => if locate(source).None? then Failed else Text(Patched(w, source, locate(source).value))
  }

  /** No marker of either block. */
  ghost predicate Pristine(w: Wording, s: Bytes) {
    Absent(s, w.start) && Absent(s, w.legacyStart)
  }

  /** A marker: one line, with a hash sign at its start only. */
  predicate Marker(m: Bytes) {
    m != [] && m[0] == '#' && '#' !in m[1..] && '\n' !in m
  }

  /** What is needed of the wording: the two markers differ, and no other line holds a hash sign. */
  predicate Sound(w: Wording) {
    && Marker(w.start) && Marker(w.end) && |w.start| == |w.end| && w.start != w.end
    && Marker(w.legacyStart) && w.legacyEnd != []
    && '#' !in w.note && '#' !in w.condition && '#' !in w.command
  }

  lemma LongerMarker(m: Bytes, more: Bytes)
    requires Marker(m) && '#' !in more && '\n' !in more
    ensures Marker(m + more)
  {
    assert (m + more)[1..] == m[1..] + more;
  }

  lemma ManagedMarkers()
    ensures Marker(START) && Marker(END)
  {
    LongerMarker("# >>> drone ", "switch-gui-");
    LongerMarker("# >>> drone " + "switch-gui-", "autoload fix");
    LongerMarker("# <<< drone ", "switch-gui-");
    LongerMarker("# <<< drone " + "switch-gui-", "autoload fix");
  }

  lemma TheyDiffer(a: Bytes, b: Bytes)
    requires |a| == |b| > 2 && a[2] != b[2]
    ensures a != b
  {
  }

  lemma LegacyMarker()
    ensures Marker(LEGACY_START)
  {
    LongerMarker("# >>> gui-", "autoload hotfix");
  }

  lemma HashlessLines()
    ensures '#' !in NOTE && '#' !in CONDITION
  {
  }

  lemma HashlessCommand()
    ensures '#' !in COMMAND
  {
  }

  lemma TheWordingIsSound()
    ensures Sound(SWITCH)
  {
    ManagedMarkers();
    LegacyMarker();
    HashlessLines();
    HashlessCommand();
    TheyDiffer(START, END);
  }

  // ---------------------------------------------------------------- one block

  lemma {:induction false} LineStartIs(s: Bytes, i: nat, k: nat)
    requires k <= i <= |s| && (k == 0 || s[k - 1] == '\n') && forall j | k <= j < i :: s[j] != '\n'
    ensures LineStart(s, i) == k
  {
    if k < i {
      LineStartIs(s, i - 1, k);
    }
  }

  lemma {:induction false} LineEndIs(s: Bytes, i: nat, k: nat)
    requires i <= k <= |s| && forall j | i <= j < k :: s[j] != '\n'
    requires k < |s| ==> s[k] == '\n'
    ensures LineEnd(s, i) == if k < |s| then k + 1 else k
    decreases k - i
  {
    if i < k {
      LineEndIs(s, i + 1, k);
    }
  }

  /** A block on lines of its own: a line break at b, the start marker at i, the end marker at j. */
  ghost predicate BlockAt(s: Bytes, start: Bytes, end: Bytes, b: nat, i: nat, j: nat) {
    && b < i < j && OccursAt(s, start, i) && OccursAt(s, end, j) && s[b] == '\n'
    && (forall k: nat | k < b :: !OccursAt(s, start, k))
    && (forall k | b < k < i :: s[k] != '\n')
    && (forall k | b < k < j && k != i :: s[k] != '#')
    && (j + |end| < |s| ==> s[j + |end|] == '\n')
  }

  lemma MarkersOfTheBlock(s: Bytes, start: Bytes, end: Bytes, b: nat, i: nat, j: nat)
    requires Marker(start) && Marker(end) && |start| == |end| && start != end && BlockAt(s, start, end, b, i, j)
    ensures Find(s, start) == Some(i) && FindFrom(s, end, i) == Some(j)
  {
    forall k: nat | k < i
      ensures !OccursAt(s, start, k)
    {
      if OccursAt(s, start, k) {
        StartsThere(s, start, k);
      }
    }
    FindIs(s, start, i);
    forall k: nat | i <= k < j
      ensures !OccursAt(s, end, k)
    {
      if OccursAt(s, end, k) {
        StartsThere(s, end, k);
      }
    }
    FindFromIs(s, end, i, j);
  }

  lemma LinesOfTheBlock(s: Bytes, start: Bytes, end: Bytes, b: nat, i: nat, j: nat, kept: Bytes, after: Bytes)
    requires '\n' !in end && BlockAt(s, start, end, b, i, j) && kept == s[..b] && after == s[j + |end|..]
    ensures s[..LineStart(s, i)] == kept + "\n" && s[LineEnd(s, j)..] == NextLine(after)
  {
    LineStartIs(s, i, b + 1);
    assert s[..b + 1] == s[..b] + [s[b]];
    assert forall k | j <= k < j + |end| :: s[k] == s[j..j + |end|][k - j];
    LineEndIs(s, j, j + |end|);
  }

  /** It is taken out whole, with the line break before it kept. */
  lemma ABlockIsRemoved(s: Bytes, start: Bytes, end: Bytes, b: nat, i: nat, j: nat, kept: Bytes, after: Bytes)
    requires Marker(start) && Marker(end) && |start| == |end| && start != end && BlockAt(s, start, end, b, i, j)
    requires kept == s[..b] && after == s[j + |end|..]
    ensures RemoveBlock(s, start, end) == Text(kept + "\n" + NextLine(after))
  {
    MarkersOfTheBlock(s, start, end, b, i, j);
    LinesOfTheBlock(s, start, end, b, i, j, kept, after);
  }

  /** The rest of a text that follows on the last line of a block. */
  function NextLine(after: Bytes): Bytes {
    if after == "" then "" else after[1..]
  }

  lemma AddedNewline(s: Bytes, marker: Bytes)
    requires Marker(marker) && Absent(s, marker)
    ensures Absent(s + "\n", marker)
  {
    forall j: nat
      ensures !OccursAt(s + "\n", marker, j)
    {
      if OccursAt(s + "\n", marker, j) {
        StartsThere(s + "\n", marker, j);
        if j < |s| {
          WhereItLies(s, "\n", marker, j);
        }
      }
    }
  }

  lemma PristineIsClean(w: Wording, s: Bytes)
    requires Pristine(w, s)
    ensures Clean(w, s) == Text(s)
  {
    FindNothing(s, w.start);
    FindNothing(s, w.legacyStart);
  }

  lemma AbsentBefore(s: Bytes, pattern: Bytes, e: nat)
    requires e <= |s| && Absent(s, pattern)
    ensures Absent(s[..e], pattern)
  {
    forall j: nat
      ensures !OccursAt(s[..e], pattern, j)
    {
      assert !OccursAt(s, pattern, j);
      if j + |pattern| <= e {
        assert s[..e][j..j + |pattern|] == s[j..j + |pattern|];
      }
    }
  }

  // ------------------------------------------------------------ main results

  lemma BetweenIsHashless(w: Wording, indent: Bytes)
    requires Sound(w) && '#' !in indent
    ensures '#' !in Between(w, indent)
  {
  }

  /** A text in seven parts: a line break after the first, the block's parts, and the rest. */
  ghost predicate Parted(s: Bytes, before: Bytes, indent: Bytes, start: Bytes, middle: Bytes, end: Bytes, after: Bytes) {
    var b := |before|;
    var i := b + 1 + |indent|;
    var j := i + |start| + |middle|;
    && j + |end| + |after| == |s|
    && s[..b] == before && s[b] == '\n' && s[i..i + |start|] == start && s[j..j + |end|] == end && s[j + |end|..] == after
    && (forall k | b < k < i :: s[k] == indent[k - b - 1])
    && (forall k | i + |start| <= k < j :: s[k] == middle[k - i - |start|])
  }

  lemma SevenParts(s: Bytes, before: Bytes, indent: Bytes, start: Bytes, middle: Bytes, end: Bytes, after: Bytes)
    requires s == before + "\n" + indent + start + middle + end + after
    ensures Parted(s, before, indent, start, middle, end, after)
  {
  }

  lemma PartedIsABlock(s: Bytes, before: Bytes, indent: Bytes, start: Bytes, middle: Bytes, end: Bytes, after: Bytes)
    requires Parted(s, before, indent, start, middle, end, after) && Marker(start) && Absent(before, start)
    requires '#' !in indent && '\n' !in indent && '#' !in middle && (after != "" ==> after[0] == '\n')
    ensures var i := |before| + 1 + |indent|; BlockAt(s, start, end, |before|, i, i + |start| + |middle|)
  {
    var b := |before|;
    var i := b + 1 + |indent|;
    forall k | b < k < i + |start| + |middle| && k != i
      ensures s[k] != '#'
    {
      if i < k < i + |start| {
        assert s[k] == s[i..i + |start|][k - i] == start[1..][k - i - 1];
      }
    }
    assert s == s[..b] + s[b..];
    forall k: nat | k < b
      ensures !OccursAt(s, start, k)
    {
      if OccursAt(s, start, k) {
        WhereItLies(s[..b], s[b..], start, k);
      }
    }
    assert after != "" ==> s[i + |start| + |middle| + |end|] == after[0];
  }

  lemma PartedBlockIsRemoved(s: Bytes, before: Bytes, indent: Bytes, start: Bytes, middle: Bytes, end: Bytes, after: Bytes)
    requires Parted(s, before, indent, start, middle, end, after) && Absent(before, start)
    requires Marker(start) && Marker(end) && |start| == |end| && start != end
    requires '#' !in indent && '\n' !in indent && '#' !in middle && (after != "" ==> after[0] == '\n')
    ensures RemoveBlock(s, start, end) == Text(before + "\n" + NextLine(after))
  {
    PartedIsABlock(s, before, indent, start, middle, end, after);
    var i := |before| + 1 + |indent|;
    ABlockIsRemoved(s, start, end, |before|, i, i + |start| + |middle|, before, after);
  }

  lemma ThePatchedBlockIsRemoved(w: Wording, s: Bytes, p: Place)
    requires Sound(w) && Absent(s, w.start) && FitsIn(p, s)
    ensures RemoveBlock(Patched(w, s, p), w.start, w.end) == Text(s[..p.end] + "\n" + NextLine(s[p.end..]))
  {
    AbsentBefore(s, w.start, p.end);
    BetweenIsHashless(w, p.indent);
    SevenParts(Patched(w, s, p), s[..p.end], p.indent, w.start, Between(w, p.indent), w.end, s[p.end..]);
    PartedBlockIsRemoved(Patched(w, s, p), s[..p.end], p.indent, w.start, Between(w, p.indent), w.end, s[p.end..]);
  }

  lemma LineBreakKept(s: Bytes, e: nat)
    requires e <= |s| && (e < |s| ==> s[e] == '\n')
    ensures s[..e] + "\n" + NextLine(s[e..]) == if e < |s| then s else s + "\n"
  {
    assert s == s[..e] + s[e..];
  }

  /** What unpatching gives back: the source, with its last line terminated. */
  lemma UnpatchingTakesTheBlockOut(w: Wording, s: Bytes, p: Place)
    requires Sound(w) && Pristine(w, s) && FitsIn(p, s)
    ensures Clean(w, Patched(w, s, p)) == Text(if p.end < |s| then s else s + "\n")
  {
    ThePatchedBlockIsRemoved(w, s, p);
    LineBreakKept(s, p.end);
    AddedNewline(s, w.legacyStart);
    FindNothing(s, w.legacyStart);
    FindNothing(s + "\n", w.legacyStart);
  }

  /**
    Patching and unpatching undo each other: for a source without markers that
    is recognized, unpatching gives the source back exactly when the
    recognized line is terminated.
   */
  lemma UnpatchUndoesPatch(w: Wording, s: Bytes, locate: Locator)
    requires Sound(w) && Recognizes(locate) && Pristine(w, s) && locate(s).Some?
    ensures Patch(w, s, locate).Text?
    ensures Clean(w, Patch(w, s, locate).text) == Text(s) <==> locate(s).value.end < |s|
  {
    PristineIsClean(w, s);
    UnpatchingTakesTheBlockOut(w, s, locate(s).value);
    assert |s + "\n"| != |s|;
  }

  /** Then patching again changes nothing; on an unterminated line each further patch adds a line break. */
  lemma PatchingAgain(w: Wording, s: Bytes, locate: Locator)
    requires Sound(w) && Recognizes(locate) && Pristine(w, s) && locate(s).Some?
    ensures Patch(w, s, locate).Text?
    ensures var patched := Patch(w, s, locate).text;
            && (locate(s).value.end < |s| ==> Patch(w, patched, locate) == Text(patched))
            && (locate(s).value.end == |s| && locate(s + "\n") == locate(s) ==>
                  Patch(w, patched, locate) == Text(patched + "\n"))
  {
    PristineIsClean(w, s);
    var p := locate(s).value;
    UnpatchingTakesTheBlockOut(w, s, p);
    if p.end == |s| && locate(s + "\n") == locate(s) {
      OneMoreLineBreak(w, s, p);
    }
  }

  lemma OneMoreLineBreak(w: Wording, s: Bytes, p: Place)
    requires p.end == |s|
    ensures Patched(w, s + "\n", p) == Patched(w, s, p) + "\n"
  {
    assert (s + "\n")[..p.end] == s == s[..p.end];
    assert (s + "\n")[p.end..] == "\n" && s[p.end..] == "";
    var block := s + "\n" + p.indent + w.start + Between(w, p.indent) + w.end;
    assert block + "" + "\n" == block + "\n";
  }

  /** Taking whole lines out brings no marker together. */
  lemma NoMarkerAppears(s: Bytes, a: nat, b: nat, marker: Bytes, j: nat)
    requires Marker(marker) && a <= b <= |s| && (a == 0 || s[a - 1] == '\n') && OccursAt(s[..a] + s[b..], marker, j)
    ensures if j < a then OccursAt(s, marker, j) else OccursAt(s, marker, j + b - a)
  {
    var t := s[..a] + s[b..];
    StartsThere(t, marker, j);
    if j < a {
      assert t[a - 1] == '\n' && t == s[..a - 1] + ("\n" + s[b..]);
      if j < a - 1 {
        WhereItLies(s[..a - 1], "\n" + s[b..], marker, j);
        assert s[j..j + |marker|] == s[..a - 1][j..j + |marker|];
      }
    } else {
      OccursBehind(s[..a], s[b..], marker, j);
      OccursBehind(s[..b], s[b..], marker, j + b - a);
      assert s == s[..b] + s[b..];
    }
  }

  /** A marker that begins only within the lines taken out is gone. */
  lemma RemovedWithTheLines(s: Bytes, a: nat, b: nat, marker: Bytes)
    requires Marker(marker) && a <= b <= |s| && (a == 0 || s[a - 1] == '\n')
    requires forall j: nat | j < a || b <= j :: !OccursAt(s, marker, j)
    ensures Absent(s[..a] + s[b..], marker)
  {
    forall j: nat
      ensures !OccursAt(s[..a] + s[b..], marker, j)
    {
      if OccursAt(s[..a] + s[b..], marker, j) {
        NoMarkerAppears(s, a, b, marker, j);
      }
    }
  }

  lemma {:induction false} LineStartIsALineStart(s: Bytes, i: nat)
    requires i <= |s|
    ensures LineStart(s, i) == 0 || s[LineStart(s, i) - 1] == '\n'
  {
    if i > 0 && s[i - 1] != '\n' {
      LineStartIsALineStart(s, i - 1);
    }
  }

  /** A source with one legacy block, complete, and no managed one. */
  ghost predicate OneLegacyBlock(w: Wording, s: Bytes, i: nat) {
    && Absent(s, w.start) && OccursAt(s, w.legacyStart, i) && FindFrom(s, w.legacyEnd, i).Some?
    && forall j: nat | j != i :: !OccursAt(s, w.legacyStart, j)
  }

  /** Cleaning leaves a shorter source, without any marker. */
  lemma TheLegacyBlockGoes(w: Wording, s: Bytes, i: nat)
    requires Sound(w) && OneLegacyBlock(w, s, i)
    ensures Clean(w, s).Text? && Pristine(w, Clean(w, s).text) && |Clean(w, s).text| < |s|
  {
    FindNothing(s, w.start);
    FindIs(s, w.legacyStart, i);
    FindFromIsFirst(s, w.legacyEnd, i);
    var j := FindFrom(s, w.legacyEnd, i).value;
    var a, b := LineStart(s, i), LineEnd(s, j);
    LineStartIsALineStart(s, i);
    assert j < |s| && b > j;
    RemovedWithTheLines(s, a, b, w.start);
    RemovedWithTheLines(s, a, b, w.legacyStart);
  }

  /** A legacy block present at the first patch is gone after it, and does not come back by unpatching. */
  lemma ALegacyBlockIsGoneAfterBoth(w: Wording, s: Bytes, i: nat, locate: Locator)
    requires Sound(w) && Recognizes(locate) && OneLegacyBlock(w, s, i) && Patch(w, s, locate).Text?
    ensures Clean(w, Patch(w, s, locate).text).Text? && Pristine(w, Clean(w, Patch(w, s, locate).text).text)
    ensures Patch(w, Clean(w, s).text, locate) == Patch(w, s, locate)
  {
    TheLegacyBlockGoes(w, s, i);
    var source := Clean(w, s).text;
    PristineIsClean(w, source);
    UnpatchingTakesTheBlockOut(w, source, locate(source).value);
    AddedNewline(source, w.start);
    AddedNewline(source, w.legacyStart);
  }

  // ------------------------------------------------------------- the files

  class Generator {
    var file: Option<Bytes>
    var backups: set<Bytes>      // named after their digest, so one per content

    constructor (f: Option<Bytes>)
      ensures file == f && backups == {}
    {
      file, backups := f, {};
    }

    static method RemoveMarkedBlock(source: Bytes, start: Bytes, end: Bytes) returns (r: Outcome)
      ensures r == RemoveBlock(source, start, end)
    {
      var from := Find(source, start);
      if from.None? {
        return Text(source);
      }
      var to := FindFrom(source, end, from.value);
      if to.None? {
        return Failed;
      }
      return Text(source[..LineStart(source, from.value)] + source[LineEnd(source, to.value)..]);
    }

    static method RemoveBlocks(w: Wording, source: Bytes) returns (r: Outcome)
      ensures r == Clean(w, source)
    {
      r := RemoveMarkedBlock(source, w.start, w.end);
      if r.Text? {
        r := RemoveMarkedBlock(r.text, w.legacyStart, w.legacyEnd);
      }
    }

    /** Nothing changes unless the layout is recognized; the generator changes only after its pristine copy is kept. */
    method PatchSwitchGenerator(w: Wording, locate: Locator, backupWritten: bool, valid: bool) returns (ok: bool)
      requires Recognizes(locate)
      modifies this
      ensures ok <==> old(file).Some? && Patch(w, old(file).value, locate).Text?
                      && (Clean(w, old(file).value).text in old(backups) || backupWritten) && valid
      ensures ok ==> file == Some(Patch(w, old(file).value, locate).text) && Clean(w, old(file).value).text in backups
      ensures !ok ==> file == old(file)
      ensures old(backups) <= backups
    {
      if file.None? {
        return false;
      }
      var source := RemoveBlocks(w, file.value);
      if source.Failed? || locate(source.text).None? {
        return false;
      }
      var patched := Patched(w, source.text, locate(source.text).value);
      if source.text !in backups {
        if !backupWritten {
          return false;
        }
        backups := backups + {source.text};
      }
      if !valid {
        return false;
      }
      file := Some(patched);
      return true;
    }

    method UnpatchSwitchGenerator(w: Wording, valid: bool) returns (ok: bool)
      modifies this`file
      ensures old(file).None? ==> ok && file.None?
      ensures old(file).Some? && ok ==> Clean(w, old(file).value).Text? && file == Some(Clean(w, old(file).value).text)
      ensures old(file).Some? && !ok ==> file == old(file) && (Clean(w, old(file).value).Failed? || !valid)
    {
      if file.None? {
        return true;
      }
      var updated := RemoveBlocks(w, file.value);
      if updated.Failed? {
        return false;
      }
      if updated.text != file.value {
        if !valid {
          return false;
        }
        file := Some(updated.text);
      }
      return true;
    }
  }
}
