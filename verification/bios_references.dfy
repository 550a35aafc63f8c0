/**
  BIOS references (app/device/network_share_manager.py): linking what is
  missing locally, at any depth below the BIOS directory, and undoing it from
  the stored rows. Any single operation may fail.
 */
module BiosReferences {
  import opened Options
  import opened Folders

  /** A stored row; a path kept local gets none. */
  datatype Row = Row(path: Path, created: bool)

  /**
    Which operations fail for one path, and how deep mkdir gets first. A path
    behind somebody's symlink leads outside this directory: whatever it meets
    there is `beyond`, None when it finds something to keep.
   */
  datatype Faults = Faults(unlink: bool, mkdir: Option<nat>, link: bool, beyond: Option<bool>)

  datatype Outcome = Kept | Recorded(row: Row)

  /** The last row of a path wins, as in a dictionary. */
  predicate WasCreated(rows: seq<Row>, p: Path) {
    rows != [] && if rows[|rows| - 1].path == p then rows[|rows| - 1].created else WasCreated(rows[..|rows| - 1], p)
  }

  // ------------------------------------------------------------- one pass

  function ApplyOne(d: Node, mount: Mount, prior: bool, p: Path, f: Faults): (r: (Node, Outcome))
    requires d.Dir? && p != []
    ensures r.0.Dir?
  {
    var here := Get(d, p);
    if Blocked(d, p) then (d, if f.beyond.None? then Kept else Recorded(Row(p, f.beyond.value)))
    else if here.None? then CreateLink(d, mount, p, f)
    else if prior && here.value == Reference(mount, p) then (d, Recorded(Row(p, true)))
    else if here.value.Reference? && here.value.mount == mount && !f.unlink then
      RemoveLeavesTheWayClear(d, p);
      CreateLink(Remove(d, p), mount, p, f)
    else (d, Kept)
  }

  function CreateLink(d: Node, mount: Mount, p: Path, f: Faults): (r: (Node, Outcome))
    requires d.Dir? && p != [] && !Blocked(d, p)
    ensures r.0.Dir?
  {
    if f.mkdir.Some? then (MakeDirs(d, p, f.mkdir.value), Recorded(Row(p, false)))
    else if f.link then (MakeDirs(d, p, |p|), Recorded(Row(p, false)))
    else (Put(d, p, Reference(mount, p)), Recorded(Row(p, true)))
  }

  datatype Pass = Pass(folder: Node, rows: seq<Row>, kept: nat)

  function Noted(before: Pass, folder: Node, outcome: Outcome): Pass {
    match outcome
    case Kept => Pass(folder, before.rows, before.kept + 1)
    case Recorded(row) => Pass(folder, before.rows + [row], before.kept)
  }

  function ApplyAll(d: Node, mount: Mount, existing: seq<Row>, paths: seq<Path>, faults: Path -> Faults): (r: Pass)
    requires d.Dir? && Nonempty(paths)
    ensures r.folder.Dir?
  {
    if paths == [] then Pass(d, [], 0)
    else
      var n := |paths| - 1;
      var before := ApplyAll(d, mount, existing, paths[..n], faults);
      var (folder, outcome) := ApplyOne(before.folder, mount, WasCreated(existing, paths[n]), paths[n], faults(paths[n]));
      Noted(before, folder, outcome)
  }

  predicate Nonempty(paths: seq<Path>) {
    forall i | 0 <= i < |paths| :: paths[i] != []
  }

  // ----------------------------------------------------------- the revert

  /** Which operations fail while one row is reverted. */
  datatype Stuck = Stuck(unlink: bool, rmdir: bool, beyond: bool)

  function RevertOne(d: Node, mount: Mount, row: Row, f: Stuck): (r: (Node, bool))
    requires d.Dir?
    ensures r.0.Dir?
  {
    var here := Get(d, row.path);
    if row.path == [] then (d, false)
    else if Blocked(d, row.path) then (if f.rmdir then d else RemoveEmptyParent(d, row.path), row.created && f.beyond)
    else if row.created && here.Some? && here.value.Reference? && here.value.mount == mount then
      if f.unlink then (d, true)
      else if f.rmdir then (Remove(d, row.path), false)
      else (RemoveEmptyParent(Remove(d, row.path), row.path), false)
    else (if f.rmdir then d else RemoveEmptyParent(d, row.path), false)
  }

  function RevertAll(d: Node, mount: Mount, rows: seq<Row>, stuck: Path -> Stuck): (r: (Node, nat))
    requires d.Dir?
    ensures r.0.Dir?
  {
    if rows == [] then (d, 0)
    else
      var n := |rows| - 1;
      var (d1, errors) := RevertAll(d, mount, rows[..n], stuck);
      var (d2, error) := RevertOne(d1, mount, rows[n], stuck(rows[n].path));
      (d2, errors + if error then 1 else 0)
  }

  // ------------------------------------------------------- what a pass keeps

  /** A path holds what it held at first, or the link that was put where nothing was. */
  ghost predicate OnlyLinked(d0: Node, d: Node, mount: Mount, p: Path) {
    LeafAt(d, p) == LeafAt(d0, p) || (LeafAt(d0, p) == None && LeafAt(d, p) == Some(Reference(mount, p)))
  }

  /** A pass over one path leaves every other path's file alone; and its own, unless it is a link of this mount. */
  lemma ApplyOneTouchesOnlyLinks(d: Node, mount: Mount, prior: bool, p: Path, f: Faults)
    requires d.Dir? && p != []
    ensures var (d', outcome) := ApplyOne(d, mount, prior, p, f);
            && (forall q | q != p :: LeafAt(d', q) == LeafAt(d, q))
            && (outcome.Recorded? ==> outcome.row.path == p)
            && (LeafAt(d', p) == LeafAt(d, p)
                || ((LeafAt(d, p) == None || (LeafAt(d, p).value.Reference? && LeafAt(d, p).value.mount == mount))
                    && LeafAt(d', p) == (if outcome == Recorded(Row(p, true)) then Some(Reference(mount, p)) else None)))
            && (prior && LeafAt(d, p) == Some(Reference(mount, p)) && !Blocked(d, p) ==> d' == d && outcome == Recorded(Row(p, true)))
            && (LeafAt(d, p) == None && LeafAt(d', p) == Some(Reference(mount, p)) ==> outcome == Recorded(Row(p, true)))
  {
    var here := Get(d, p);
    var (d', outcome) := ApplyOne(d, mount, prior, p, f);
    if Blocked(d, p) {
      BlockedIsEmpty(d, p);
    } else if here.None? {
      CreateLinkPutsOneLink(d, mount, p, f);
    } else if here.value.Reference? && here.value.mount == mount && !f.unlink && !(prior && here.value == Reference(mount, p)) {
      RemoveFreesThePath(d, p);
      CreateLinkPutsOneLink(Remove(d, p), mount, p, f);
    }
  }

  /**
    What is recorded of a path is true: a link is on record exactly when it
    stands there, and a path is kept exactly when something stands there that is
    not a link into this mount, or cannot be removed.
   */
  lemma ARowTellsTheTruth(d: Node, mount: Mount, prior: bool, p: Path, f: Faults)
    requires d.Dir? && p != [] && !Blocked(d, p)
    ensures var (d', outcome) := ApplyOne(d, mount, prior, p, f);
            var mine := Get(d, p).Some? && Get(d, p).value.Reference? && Get(d, p).value.mount == mount;
            && (outcome == Recorded(Row(p, true)) ==> Get(d', p) == Some(Reference(mount, p)))
            && (outcome == Recorded(Row(p, false)) ==> LeafAt(d', p).None?)
            && (outcome.Kept? ==> d' == d && Get(d, p).Some?)
            && (outcome.Kept? <==> Get(d, p).Some? && (!mine || (f.unlink && !(prior && Get(d, p) == Some(Reference(mount, p))))))
            && (outcome.Recorded? ==> outcome.row.path == p)
            && (Get(d, p).None? || mine ==> (outcome == Recorded(Row(p, true)) <==>
                  || (mine && prior && Get(d, p) == Some(Reference(mount, p)))
                  || (!(mine && f.unlink) && f.mkdir.None? && !f.link)))
  {
    var here := Get(d, p);
    if here.None? {
      CreatedOrNot(d, mount, p, f);
    } else if here.value.Reference? && here.value.mount == mount && !f.unlink && !(prior && here.value == Reference(mount, p)) {
      RemoveFreesThePath(d, p);
      CreatedOrNot(Remove(d, p), mount, p, f);
    }
  }

  lemma CreatedOrNot(d: Node, mount: Mount, p: Path, f: Faults)
    requires d.Dir? && p != [] && !Blocked(d, p) && Get(d, p).None?
    ensures var (d', outcome) := CreateLink(d, mount, p, f);
            && outcome == Recorded(Row(p, f.mkdir.None? && !f.link))
            && (f.mkdir.None? && !f.link ==> Get(d', p) == Some(Reference(mount, p)))
            && (!(f.mkdir.None? && !f.link) ==> LeafAt(d', p).None?)
  {
    CreateLinkPutsOneLink(d, mount, p, f);
    assert LeafAt(CreateLink(d, mount, p, f).0, p).Some? ==>
        Get(CreateLink(d, mount, p, f).0, p) == LeafAt(CreateLink(d, mount, p, f).0, p);
  }

  lemma CreateLinkPutsOneLink(d: Node, mount: Mount, p: Path, f: Faults)
    requires d.Dir? && p != [] && !Blocked(d, p) && Get(d, p).None?
    ensures var (d', outcome) := CreateLink(d, mount, p, f);
            && (forall q | q != p :: LeafAt(d', q) == LeafAt(d, q))
            && outcome.Recorded? && outcome.row.path == p
            && LeafAt(d', p) == if outcome.row.created then Some(Reference(mount, p)) else None
  {
    forall q
      ensures LeafAt(MakeDirs(d, p, |p|), q) == LeafAt(d, q)
      ensures f.mkdir.Some? ==> LeafAt(MakeDirs(d, p, f.mkdir.value), q) == LeafAt(d, q)
      ensures LeafAt(Put(d, p, Reference(mount, p)), q) == if q == p then Some(Reference(mount, p)) else LeafAt(d, q)
    {
      MakeDirsKeepsLeaves(d, p, |p|, q);
      if f.mkdir.Some? {
        MakeDirsKeepsLeaves(d, p, f.mkdir.value, q);
      }
      PutAddsOneLeaf(d, p, Reference(mount, p), q);
    }
  }

  /**
    Local always wins: whatever fails, and whatever the rows say, a pass
    changes no file or link but the Drone's own into this mount, and adds none
    but links to inventory paths. Every inventory path is recorded or kept.
   */
  lemma {:induction false} LocalAlwaysWins(d: Node, mount: Mount, existing: seq<Row>, paths: seq<Path>, faults: Path -> Faults)
    requires d.Dir? && Nonempty(paths)
    ensures var pass := ApplyAll(d, mount, existing, paths, faults);
            && |pass.rows| + pass.kept == |paths|
            && (forall row | row in pass.rows :: row.path in paths)
            && (forall q | LeafAt(d, q).Some? && !IsOurs(LeafAt(d, q).value, mount) :: LeafAt(pass.folder, q) == LeafAt(d, q))
            && (forall q | LeafAt(pass.folder, q) != LeafAt(d, q) ::
                  q in paths && (LeafAt(pass.folder, q) == None || LeafAt(pass.folder, q) == Some(Reference(mount, q))))
  {
    if paths != [] {
      var n := |paths| - 1;
      var p := paths[n];
      LocalAlwaysWins(d, mount, existing, paths[..n], faults);
      var before := ApplyAll(d, mount, existing, paths[..n], faults);
      ApplyOneTouchesOnlyLinks(before.folder, mount, WasCreated(existing, p), p, faults(p));
    }
  }

  predicate IsOurs(n: Node, mount: Mount) {
    n.Reference? && n.mount == mount
  }

  // ------------------------------------------ passes and then a revert: round trip

  ghost predicate NoLinksInto(d: Node, mount: Mount) {
    forall q | LeafAt(d, q).Some? :: !IsOurs(LeafAt(d, q).value, mount)
  }

  /** Passes, each over its own inventory, each with its own failures. */
  datatype Round = Round(paths: seq<Path>, faults: Path -> Faults)

  function AfterPasses(d: Node, mount: Mount, rounds: seq<Round>): (r: Pass)
    requires d.Dir? && forall r | r in rounds :: Nonempty(r.paths)
    ensures r.folder.Dir?
  {
    if rounds == [] then Pass(d, [], 0)
    else
      var before := AfterPasses(d, mount, rounds[..|rounds| - 1]);
      var last := rounds[|rounds| - 1];
      ApplyAll(before.folder, mount, before.rows, last.paths, last.faults)
  }

  lemma {:induction false} PassesOnlyAddLinks(d: Node, mount: Mount, rounds: seq<Round>)
    requires d.Dir? && NoLinksInto(d, mount) && forall r | r in rounds :: Nonempty(r.paths)
    ensures forall q :: OnlyLinked(d, AfterPasses(d, mount, rounds).folder, mount, q)
  {
    if rounds != [] {
      var n := |rounds| - 1;
      PassesOnlyAddLinks(d, mount, rounds[..n]);
      var before := AfterPasses(d, mount, rounds[..n]);
      LocalAlwaysWins(before.folder, mount, before.rows, rounds[n].paths, rounds[n].faults);
      var after := AfterPasses(d, mount, rounds);
      forall q
        ensures OnlyLinked(d, after.folder, mount, q)
      {
        assert OnlyLinked(d, before.folder, mount, q);
        assert LeafAt(d, q).Some? ==> !IsOurs(LeafAt(d, q).value, mount);
      }
    }
  }

  lemma RevertOneRemovesItsLink(d: Node, mount: Mount, row: Row, f: Stuck)
    requires d.Dir?
    ensures var (d', error) := RevertOne(d, mount, row, f);
            && (error ==> f.unlink || f.beyond)
            && (forall q | q != row.path :: LeafAt(d', q) == LeafAt(d, q))
            && LeafAt(d', row.path) == (if !error && row.created && LeafAt(d, row.path).Some? && IsOurs(LeafAt(d, row.path).value, mount)
                                        then None else LeafAt(d, row.path))
  {
    if row.path == [] {
      return;
    }
    forall q
      ensures LeafAt(RemoveEmptyParent(d, row.path), q) == LeafAt(d, q)
    {
      RemoveEmptyParentKeepsLeaves(d, row.path, q);
    }
    if Blocked(d, row.path) {
      BlockedIsEmpty(d, row.path);
    } else if LeafAt(d, row.path).Some? && IsOurs(LeafAt(d, row.path).value, mount) {
      RemoveFreesThePath(d, row.path);
      forall q
        ensures LeafAt(RemoveEmptyParent(Remove(d, row.path), row.path), q) == LeafAt(Remove(d, row.path), q)
      {
        RemoveEmptyParentKeepsLeaves(Remove(d, row.path), row.path, q);
      }
    }
  }

  /** A revert reports an error exactly when the link it should take cannot be removed. */
  lemma ARevertFailsExactly(d: Node, mount: Mount, row: Row, f: Stuck)
    requires d.Dir? && !Blocked(d, row.path) && row.path != []
    ensures RevertOne(d, mount, row, f).1 <==>
              row.created && f.unlink && LeafAt(d, row.path).Some? && IsOurs(LeafAt(d, row.path).value, mount)
  {
  }

  /** The directory that a reverted path lay in goes when it is left empty, unless that fails; the BIOS directory itself never goes. */
  lemma AnEmptyDirectoryGoes(d: Node, mount: Mount, row: Row, f: Stuck)
    requires d.Dir? && !Blocked(d, row.path) && |row.path| > 1 && !RevertOne(d, mount, row, f).1
    ensures var parent := Get(RevertOne(d, mount, row, f).0, row.path[..|row.path| - 1]);
            parent.Some? && parent.value.Dir? && parent.value.children == map[] ==> f.rmdir
  {
    if !f.rmdir {
      var taken := row.created && LeafAt(d, row.path).Some? && IsOurs(LeafAt(d, row.path).value, mount);
      var d1 := if taken then Remove(d, row.path) else d;
      assert RevertOne(d, mount, row, f).0 == RemoveEmptyParent(d1, row.path);
      AnEmptyParentIsRemoved(d1, row.path);
    }
  }

  lemma AnEmptyParentIsRemoved(d: Node, p: Path)
    requires d.Dir? && |p| > 1
    ensures var parent := Get(RemoveEmptyParent(d, p), p[..|p| - 1]);
            parent.Some? && parent.value.Dir? ==> parent.value.children != map[]
  {
    var up := p[..|p| - 1];
    if Get(d, up).Some? && Get(d, up).value.Dir? && Get(d, up).value.children == map[] {
      RemoveLeavesTheWayClear(d, up);
    }
  }

  /** And where that fails, no directory goes. */
  lemma WithoutRmdirNoDirectoryGoes(d: Node, mount: Mount, row: Row, f: Stuck)
    requires d.Dir? && !Blocked(d, row.path) && row.path != [] && f.rmdir
    ensures var d' := RevertOne(d, mount, row, f).0;
            d' == d || (LeafAt(d, row.path).Some? && d' == Remove(d, row.path))
  {
  }

  /** Each row counts at most once. */
  lemma {:induction false} ErrorsAreCounted(d: Node, mount: Mount, rows: seq<Row>, stuck: Path -> Stuck)
    requires d.Dir?
    ensures RevertAll(d, mount, rows, stuck).1 <= |rows|
  {
    if rows != [] {
      ErrorsAreCounted(d, mount, rows[..|rows| - 1], stuck);
    }
  }

  function WithoutItsLink(d: Node, mount: Mount, rows: seq<Row>, q: Path): Option<Node> {
    if Row(q, true) in rows && LeafAt(d, q).Some? && IsOurs(LeafAt(d, q).value, mount) then None else LeafAt(d, q)
  }

  /** A revert without errors removes exactly the recorded links into this mount, and nothing else. */
  lemma {:induction false} RevertRemovesExactlyItsLinks(d: Node, mount: Mount, rows: seq<Row>, stuck: Path -> Stuck)
    requires d.Dir?
    ensures var (d', errors) := RevertAll(d, mount, rows, stuck);
            && ((forall row | row in rows :: !stuck(row.path).unlink && !stuck(row.path).beyond) ==> errors == 0)
            && (errors == 0 ==> forall q :: LeafAt(d', q) == WithoutItsLink(d, mount, rows, q))
  {
    if rows != [] {
      var n := |rows| - 1;
      RevertRemovesExactlyItsLinks(d, mount, rows[..n], stuck);
      var (d1, _) := RevertAll(d, mount, rows[..n], stuck);
      RevertOneRemovesItsLink(d1, mount, rows[n], stuck(rows[n].path));
      assert rows == rows[..n] + [rows[n]];
    }
  }

  /**
    After any passes over any inventories, a revert that reports no error
    restores every file path exactly when every link still has its row.
   */
  lemma RevertRestoresEveryPath(d: Node, mount: Mount, rounds: seq<Round>, stuck: Path -> Stuck)
    requires d.Dir? && NoLinksInto(d, mount) && forall r | r in rounds :: Nonempty(r.paths)
    ensures var pass := AfterPasses(d, mount, rounds);
            var (d', errors) := RevertAll(pass.folder, mount, pass.rows, stuck);
            errors == 0 ==>
              ((forall q :: LeafAt(d', q) == LeafAt(d, q)) <==> EveryLinkHasARow(pass.folder, mount, pass.rows))
  {
    var pass := AfterPasses(d, mount, rounds);
    PassesOnlyAddLinks(d, mount, rounds);
    RevertRemovesExactlyItsLinks(pass.folder, mount, pass.rows, stuck);
    var (d', errors) := RevertAll(pass.folder, mount, pass.rows, stuck);
    if errors == 0 {
      forall q
        ensures LeafAt(d', q) == LeafAt(d, q) <==>
                  (LeafAt(pass.folder, q) == Some(Reference(mount, q)) ==> Row(q, true) in pass.rows)
      {
        assert OnlyLinked(d, pass.folder, mount, q);
        assert LeafAt(d, q).Some? ==> !IsOurs(LeafAt(d, q).value, mount);
      }
    }
  }

  ghost predicate EveryLinkHasARow(d: Node, mount: Mount, rows: seq<Row>) {
    forall q | LeafAt(d, q) == Some(Reference(mount, q)) :: Row(q, true) in rows
  }

  /** Every link lies on an inventory path and the next pass will know it as its own. */
  ghost predicate Booked(d: Node, mount: Mount, paths: seq<Path>, rows: seq<Row>) {
    forall q | LeafAt(d, q) == Some(Reference(mount, q)) :: q in paths && WasCreated(rows, q)
  }

  ghost predicate Distinct(paths: seq<Path>) {
    forall i, j | 0 <= i < j < |paths| :: paths[i] != paths[j]
  }

  /** Within a pass: a path done already goes by its new row, the others still by their old one. */
  predicate KnownNow(existing: seq<Row>, done: seq<Path>, rows: seq<Row>, q: Path) {
    if q in done then WasCreated(rows, q) else WasCreated(existing, q)
  }

  lemma KnownAfter(existing: seq<Row>, done: seq<Path>, p: Path, before: Pass, folder: Node, outcome: Outcome, q: Path)
    requires outcome.Recorded? ==> outcome.row.path == p
    requires outcome == Recorded(Row(p, true)) || q != p
    requires q != p ==> KnownNow(existing, done, before.rows, q)
    ensures KnownNow(existing, done + [p], Noted(before, folder, outcome).rows, q)
  {
    if outcome.Recorded? {
      assert (before.rows + [outcome.row])[..|before.rows|] == before.rows;
    }
  }

  lemma {:induction false} APassKeepsTheBooks(d: Node, mount: Mount, existing: seq<Row>, paths: seq<Path>, faults: Path -> Faults, k: nat)
    requires d.Dir? && Nonempty(paths) && Distinct(paths) && Booked(d, mount, paths, existing) && k <= |paths|
    ensures var pass := ApplyAll(d, mount, existing, paths[..k], faults);
            forall q | LeafAt(pass.folder, q) == Some(Reference(mount, q)) ::
              q in paths && KnownNow(existing, paths[..k], pass.rows, q)
  {
    if k > 0 {
      var p := paths[k - 1];
      APassKeepsTheBooks(d, mount, existing, paths, faults, k - 1);
      assert paths[..k][..k - 1] == paths[..k - 1] && paths[..k] == paths[..k - 1] + [p];
      var before := ApplyAll(d, mount, existing, paths[..k - 1], faults);
      ApplyOneTouchesOnlyLinks(before.folder, mount, WasCreated(existing, p), p, faults(p));
      if LeafAt(before.folder, p).Some? && Blocked(before.folder, p) {
        BlockedIsEmpty(before.folder, p);
      }
      var (folder, outcome) := ApplyOne(before.folder, mount, WasCreated(existing, p), p, faults(p));
      assert p !in paths[..k - 1];
      forall q | LeafAt(folder, q) == Some(Reference(mount, q))
        ensures q in paths && KnownNow(existing, paths[..k], Noted(before, folder, outcome).rows, q)
      {
        if q == p {
          assert LeafAt(before.folder, p) == Some(Reference(mount, p)) ==> KnownNow(existing, paths[..k - 1], before.rows, p);
        }
        KnownAfter(existing, paths[..k - 1], p, before, folder, outcome, q);
      }
    }
  }

  lemma {:induction false} ACreatedRowIsThere(rows: seq<Row>, q: Path)
    requires WasCreated(rows, q)
    ensures Row(q, true) in rows
  {
    if rows[|rows| - 1].path != q {
      ACreatedRowIsThere(rows[..|rows| - 1], q);
    }
  }

  lemma {:induction false} PassesKeepTheBooks(d: Node, mount: Mount, paths: seq<Path>, rounds: seq<Round>)
    requires d.Dir? && NoLinksInto(d, mount) && Nonempty(paths) && Distinct(paths) && forall r | r in rounds :: r.paths == paths
    ensures var pass := AfterPasses(d, mount, rounds);
            Booked(pass.folder, mount, paths, pass.rows)
  {
    if rounds == [] {
      forall q
        ensures LeafAt(d, q) != Some(Reference(mount, q))
      {
        assert LeafAt(d, q).Some? ==> !IsOurs(LeafAt(d, q).value, mount);
      }
    } else {
      var n := |rounds| - 1;
      PassesKeepTheBooks(d, mount, paths, rounds[..n]);
      var before := AfterPasses(d, mount, rounds[..n]);
      APassKeepsTheBooks(before.folder, mount, before.rows, paths, rounds[n].faults, |paths|);
      assert paths[..|paths|] == paths;
    }
  }

  /** Over one inventory the books are always complete: a revert without errors restores every file path. */
  lemma OverOneInventoryTheRevertRestores(d: Node, mount: Mount, paths: seq<Path>, rounds: seq<Round>, stuck: Path -> Stuck)
    requires d.Dir? && NoLinksInto(d, mount) && Nonempty(paths) && Distinct(paths) && forall r | r in rounds :: r.paths == paths
    ensures var pass := AfterPasses(d, mount, rounds);
            var (d', errors) := RevertAll(pass.folder, mount, pass.rows, stuck);
            errors == 0 ==> forall q :: LeafAt(d', q) == LeafAt(d, q)
  {
    var pass := AfterPasses(d, mount, rounds);
    PassesKeepTheBooks(d, mount, paths, rounds);
    RevertRestoresEveryPath(d, mount, rounds, stuck);
    forall q | LeafAt(pass.folder, q) == Some(Reference(mount, q))
      ensures Row(q, true) in pass.rows
    {
      ACreatedRowIsThere(pass.rows, q);
    }
  }

  /** An inventory that shrinks between two passes forgets a link: the revert then leaves it behind. */
  lemma AShrunkInventoryForgetsItsLink(d: Node, mount: Mount, p: Path, ok: Path -> Faults, stuck: Path -> Stuck)
    requires d.Dir? && p != [] && !Blocked(d, p) && Get(d, p).None?
    requires ok(p).mkdir.None? && !ok(p).link
    ensures Nonempty([p])
    ensures var pass := AfterPasses(d, mount, [Round([p], ok), Round([], ok)]);
            var (d', errors) := RevertAll(pass.folder, mount, pass.rows, stuck);
            errors == 0 && LeafAt(d', p) == Some(Reference(mount, p))
  {
    var both := [Round([p], ok), Round([], ok)];
    assert both[..1] == [Round([p], ok)] && both[..1][..0] == [] && [p][..0] == [];
    assert AfterPasses(d, mount, both[..1][..0]) == Pass(d, [], 0);
    var first := ApplyAll(d, mount, [], [p], ok);
    assert AfterPasses(d, mount, both[..1]) == first;
    assert ApplyAll(d, mount, [], [p][..0], ok) == Pass(d, [], 0);
    CreateLinkPutsOneLink(d, mount, p, ok(p));
    assert AfterPasses(d, mount, both) == Pass(first.folder, [], 0);
  }

  // ------------------------------------------------------------- the loops

  class BiosDirectory {
    var root: Node

    constructor (d: Node)
      requires d.Dir?
      ensures root == d
    {
      root := d;
    }

    /** Links the BIOS files of the inventory that are missing locally. */
    method ApplyBiosReferences(mount: Mount, existing: seq<Row>, paths: seq<Path>, faults: Path -> Faults)
      returns (rows: seq<Row>, kept: nat, total: nat)
      requires root.Dir? && Nonempty(paths)
      modifies this
      ensures Pass(root, rows, kept) == ApplyAll(old(root), mount, existing, paths, faults)
      ensures total == |paths| && root.Dir?
    {
      rows, kept, total := [], 0, |paths|;
      for i := 0 to |paths|
        invariant root.Dir?
        invariant Pass(root, rows, kept) == ApplyAll(old(root), mount, existing, paths[..i], faults)
      {
        assert paths[..i + 1][..i] == paths[..i];
        var p, f := paths[i], faults(paths[i]);
        var here := Get(root, p);
        if Blocked(root, p) {
          if f.beyond.None? {
            kept := kept + 1;
          } else {
            rows := rows + [Row(p, f.beyond.value)];
          }
          continue;
        }
        if here == Some(Reference(mount, p)) && WasCreated(existing, p) {
          rows := rows + [Row(p, true)];
          continue;
        }
        if here.Some? && here.value.Reference? {
          if here.value.mount != mount || f.unlink {
            kept := kept + 1;
            continue;
          }
          RemoveLeavesTheWayClear(root, p);
          root := Remove(root, p);
          here := None;
        }
        if here.None? {
          if f.mkdir.Some? {
            root := MakeDirs(root, p, f.mkdir.value);
            rows := rows + [Row(p, false)];
          } else if f.link {
            root := MakeDirs(root, p, |p|);
            rows := rows + [Row(p, false)];
          } else {
            root := Put(root, p, Reference(mount, p));
            rows := rows + [Row(p, true)];
          }
        } else {
          kept := kept + 1;
        }
      }
      assert paths[..|paths|] == paths;
    }

    /** Undoes what the rows record, and nothing else. */
    method RevertBiosReferences(mount: Mount, rows: seq<Row>, stuck: Path -> Stuck) returns (errors: nat)
      requires root.Dir?
      modifies this
      ensures (root, errors) == RevertAll(old(root), mount, rows, stuck)
      ensures root.Dir?
    {
      errors := 0;
      for i := 0 to |rows|
        invariant root.Dir?
        invariant (root, errors) == RevertAll(old(root), mount, rows[..i], stuck)
      {
        assert rows[..i + 1][..i] == rows[..i];
        var error := RevertRow(mount, rows[i], stuck(rows[i].path));
        if error {
          errors := errors + 1;
        }
      }
      assert rows[..|rows|] == rows;
    }

    method RevertRow(mount: Mount, row: Row, f: Stuck) returns (error: bool)
      requires root.Dir?
      modifies this
      ensures (root, error) == RevertOne(old(root), mount, row, f) && root.Dir?
    {
      error := false;
      if row.path == [] {
        return;
      }
      var here := Get(root, row.path);
      if Blocked(root, row.path) {
        error := row.created && f.beyond;
      } else if row.created && here.Some? && IsOurs(here.value, mount) {
        if f.unlink {
          return true;
        }
        root := Remove(root, row.path);
      }
      if !f.rmdir {
        root := RemoveEmptyParent(root, row.path);
      }
    }
  }
}
