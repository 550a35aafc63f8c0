/**
  The BIOS half of a detach (app/device/network_share_manager.py): the revert
  from the stored rows, and then the walk for links that no row speaks of.
 */
module BiosDetach {
  import opened Options
  import opened Folders
  import opened BiosReferences
  import Orphans = OrphanRecovery

  /** Inventories name no entry that is set aside. */
  predicate PlainPath(p: Path) {
    forall i | 0 <= i < |p| :: p[i].Plain?
  }

  predicate PlainPaths(paths: seq<Path>) {
    forall i | 0 <= i < |paths| :: PlainPath(paths[i])
  }

  function Detach(d: Node, mount: Mount, rows: seq<Row>, stuck: Path -> Stuck, w: Orphans.World): (Node, nat)
    requires d.Dir?
  {
    var (reverted, errors) := RevertAll(d, mount, rows, stuck);
    var (now, more) := Orphans.Walk(reverted, [], w);
    (now, errors + more)
  }

  // ------------------------------------------------------ where links can be

  ghost predicate LinksArePlain(d: Node, mount: Mount) {
    forall q | LeafAt(d, q).Some? && IsOurs(LeafAt(d, q).value, mount) :: PlainPath(q)
  }

  lemma {:induction false} PassesLinkPlainPaths(d: Node, mount: Mount, rounds: seq<Round>)
    requires d.Dir? && NoLinksInto(d, mount) && forall r | r in rounds :: Nonempty(r.paths) && PlainPaths(r.paths)
    ensures LinksArePlain(AfterPasses(d, mount, rounds).folder, mount)
  {
    if rounds != [] {
      var n := |rounds| - 1;
      PassesLinkPlainPaths(d, mount, rounds[..n]);
      var before := AfterPasses(d, mount, rounds[..n]);
      LocalAlwaysWins(before.folder, mount, before.rows, rounds[n].paths, rounds[n].faults);
    }
  }

  lemma {:induction false} PlainLinksAreNotAside(n: Node, w: Orphans.World, at: Path)
    requires forall q | LeafAt(n, q).Some? && Orphans.Owned(LeafAt(n, q).value, w) :: PlainPath(q)
    ensures Orphans.NoOwnedAside(n, w)
    decreases n
  {
    if n.Dir? {
      forall name | OldOf(name) in n.children
        ensures !Orphans.Owned(n.children[OldOf(name)], w)
      {
        var q := [OldOf(name)];
        assert q[1..] == [] && Get(n, q) == Some(n.children[OldOf(name)]);
        assert !PlainPath(q) by {
          assert !q[0].Plain?;
        }
      }
      forall name | name in n.children
        ensures Orphans.NoOwnedAside(n.children[name], w)
      {
        forall q | LeafAt(n.children[name], q).Some? && Orphans.Owned(LeafAt(n.children[name], q).value, w)
          ensures PlainPath(q)
        {
          var longer := [name] + q;
          assert longer[1..] == q && LeafAt(n, longer) == LeafAt(n.children[name], q);
          assert forall i | 0 <= i < |q| :: q[i] == longer[i + 1];
        }
        PlainLinksAreNotAside(n.children[name], w, at + [name]);
      }
    }
  }

  // ---------------------------------------------------------- what is restored

  /** After a revert without errors, a path that does not hold what it did at first holds a forgotten link. */
  lemma WhatTheRevertLeaves(d: Node, mount: Mount, rounds: seq<Round>, stuck: Path -> Stuck)
    requires d.Dir? && NoLinksInto(d, mount) && forall r | r in rounds :: Nonempty(r.paths) && PlainPaths(r.paths)
    requires var pass := AfterPasses(d, mount, rounds); RevertAll(pass.folder, mount, pass.rows, stuck).1 == 0
    ensures var pass := AfterPasses(d, mount, rounds);
            var d1 := RevertAll(pass.folder, mount, pass.rows, stuck).0;
            && LinksArePlain(d1, mount)
            && forall q :: LeafAt(d, q) == if LeafAt(d1, q).Some? && IsOurs(LeafAt(d1, q).value, mount) then None else LeafAt(d1, q)
  {
    var pass := AfterPasses(d, mount, rounds);
    var d1 := RevertAll(pass.folder, mount, pass.rows, stuck).0;
    PassesLinkPlainPaths(d, mount, rounds);
    PassesOnlyAddLinks(d, mount, rounds);
    RevertRemovesExactlyItsLinks(pass.folder, mount, pass.rows, stuck);
    forall q
      ensures LeafAt(d1, q).Some? && IsOurs(LeafAt(d1, q).value, mount) ==> PlainPath(q)
      ensures LeafAt(d, q) == if LeafAt(d1, q).Some? && IsOurs(LeafAt(d1, q).value, mount) then None else LeafAt(d1, q)
    {
      assert OnlyLinked(d, pass.folder, mount, q);
      assert LeafAt(d1, q) == WithoutItsLink(pass.folder, mount, pass.rows, q);
      assert LeafAt(d, q).Some? ==> !IsOurs(LeafAt(d, q).value, mount);
    }
  }

  /**
    The main result. After passes over any inventories, each with its own
    failures, a detach that reports no error restores every file path, exactly
    when none of the links without a row is hidden from the walk, and none has
    a local companion that the walk puts into the link's place.
   */
  lemma DetachRestoresEveryPath(d: Node, mount: Mount, rounds: seq<Round>, stuck: Path -> Stuck, w: Orphans.World)
    requires d.Dir? && NoLinksInto(d, mount) && forall r | r in rounds :: Nonempty(r.paths) && PlainPaths(r.paths)
    requires w.mine == Some(mount)
    requires var pass := AfterPasses(d, mount, rounds);
             Orphans.Listed(RevertAll(pass.folder, mount, pass.rows, stuck).0, [], w)
    ensures var pass := AfterPasses(d, mount, rounds);
            var reverted := RevertAll(pass.folder, mount, pass.rows, stuck).0;
            var (now, errors) := Detach(pass.folder, mount, pass.rows, stuck, w);
            errors == 0 ==>
              ((forall q :: LeafAt(now, q) == LeafAt(d, q)) <==> !Orphans.Hides(reverted, w) && !Orphans.Displaces(reverted, w))
  {
    var pass := AfterPasses(d, mount, rounds);
    var d1 := RevertAll(pass.folder, mount, pass.rows, stuck).0;
    var (now, errors) := Detach(pass.folder, mount, pass.rows, stuck, w);
    if errors == 0 {
      WhatTheRevertLeaves(d, mount, rounds, stuck);
      PlainLinksAreNotAside(d1, w, []);
      Orphans.AWalkTakesExactlyTheLinks(d1, [], w);
      SameLeaves(d, d1, now, mount, w);
    }
  }

  lemma SameLeaves(d: Node, d1: Node, now: Node, mount: Mount, w: Orphans.World)
    requires w.mine == Some(mount)
    requires forall q :: LeafAt(d, q) == if LeafAt(d1, q).Some? && IsOurs(LeafAt(d1, q).value, mount) then None else LeafAt(d1, q)
    ensures Orphans.OnlyLinksGone(d1, now, w) <==> forall q :: LeafAt(now, q) == LeafAt(d, q)
  {
    assert forall q :: LeafAt(d, q) == Orphans.Unowned(LeafAt(d1, q), w);
  }

  lemma {:induction false} WithoutLinksNothingIsHidden(n: Node, w: Orphans.World)
    requires !Orphans.HasOwned(n, w)
    ensures !Orphans.Hides(n, w) && !Orphans.Displaces(n, w)
    decreases n
  {
    if n.Dir? {
      forall name | name in n.children
        ensures !Orphans.GoesBack(n.children, name, w)
        ensures !Orphans.Hides(n.children[name], w) && !Orphans.Displaces(n.children[name], w)
      {
        assert name.OldOf? && name.name in n.children ==> !Orphans.HasOwned(n.children[name.name], w);
        WithoutLinksNothingIsHidden(n.children[name], w);
      }
    }
  }

  /** Over one inventory every link has its row, and a detach that reports no error always restores every file path. */
  lemma OverOneInventoryTheDetachRestores(d: Node, mount: Mount, paths: seq<Path>, rounds: seq<Round>, stuck: Path -> Stuck, w: Orphans.World)
    requires d.Dir? && NoLinksInto(d, mount) && Nonempty(paths) && PlainPaths(paths) && Distinct(paths) && forall r | r in rounds :: r.paths == paths
    requires w.mine == Some(mount)
    requires var pass := AfterPasses(d, mount, rounds);
             Orphans.Listed(RevertAll(pass.folder, mount, pass.rows, stuck).0, [], w)
    ensures var pass := AfterPasses(d, mount, rounds);
            var (now, errors) := Detach(pass.folder, mount, pass.rows, stuck, w);
            errors == 0 ==> forall q :: LeafAt(now, q) == LeafAt(d, q)
  {
    var pass := AfterPasses(d, mount, rounds);
    var d1 := RevertAll(pass.folder, mount, pass.rows, stuck).0;
    DetachRestoresEveryPath(d, mount, rounds, stuck, w);
    OverOneInventoryTheRevertRestores(d, mount, paths, rounds, stuck);
    if Detach(pass.folder, mount, pass.rows, stuck, w).1 == 0 {
      if Orphans.HasOwned(d1, w) {
        var q := Orphans.AnOwnedLinkIsALeaf(d1, w);
        assert false;
      }
      WithoutLinksNothingIsHidden(d1, w);
    }
  }

  /** The link that a shrunk inventory forgets, and that the revert leaves, does not survive the detach. */
  lemma TheDetachRemovesAForgottenLink(mount: Mount, p: Name, ok: Path -> Faults, stuck: Path -> Stuck, w: Orphans.World)
    requires p.Plain? && ok([p]).mkdir.None? && !ok([p]).link
    requires w.mine == Some(mount) && w.order([]) == [p] && !w.faults([p]).unlink
    ensures Nonempty([[p]])
    ensures var empty := Dir(true, map[]);
            var pass := AfterPasses(empty, mount, [Round([[p]], ok), Round([], ok)]);
            && RevertAll(pass.folder, mount, pass.rows, stuck) == (Dir(true, map[p := Reference(mount, [p])]), 0)
            && Detach(pass.folder, mount, pass.rows, stuck, w) == (empty, 0)
  {
    var empty := Dir(true, map[]);
    var linked := Dir(true, map[p := Reference(mount, [p])]);
    var both := [Round([[p]], ok), Round([], ok)];
    assert both[..1] == [Round([[p]], ok)] && both[..1][..0] == [] && [[p]][..0] == [];
    assert Put(empty, [p], Reference(mount, [p])) == linked;
    assert ApplyAll(empty, mount, [], [[p]][..0], ok) == Pass(empty, [], 0);
    var first := ApplyAll(empty, mount, [], [[p]], ok);
    assert first.folder == linked;
    assert AfterPasses(empty, mount, both[..1]) == first;
    assert AfterPasses(empty, mount, both) == Pass(linked, [], 0);
    WalkOneLink(mount, p, w);
  }

  lemma WalkOneLink(mount: Mount, p: Name, w: Orphans.World)
    requires w.mine == Some(mount) && w.order([]) == [p] && !w.faults([p]).unlink
    ensures Orphans.Walk(Dir(true, map[p := Reference(mount, [p])]), [], w) == (Dir(true, map[]), 0)
  {
    var ch := map[p := Reference(mount, [p])];
    var none: Orphans.Children := map[];
    assert p < OldOf(p);
    assert Orphans.RestoreOrRemove(ch, p, w.faults([p]), w) == (none, false) by {
      assert ch - {p} == none;
    }
    assert [p][..0] == [] && [] + [p] == [p];
    assert Orphans.RestoreAll(ch, [p], [], w) == (none, 0);
    assert Orphans.Descend(Dir(true, ch), none, [p], [], w) == (none, 0);
  }

  /** But a local companion that such a link has goes into its place: the one file there ends up under another name. */
  lemma AForgottenLinkCanMoveALocalFile(mount: Mount, p: Name, id: nat, ok: Path -> Faults, stuck: Path -> Stuck, w: Orphans.World)
    requires p.Plain? && ok([p]).mkdir.None? && !ok([p]).link
    requires w.mine == Some(mount) && w.order([]) == [p, OldOf(p)]
    requires w.faults([p]) == w.faults([OldOf(p)]) == Orphans.Faults(false, false, false)
    ensures Nonempty([[p]])
    ensures var d := Dir(true, map[OldOf(p) := File(id)]);
            var pass := AfterPasses(d, mount, [Round([[p]], ok), Round([], ok)]);
            Detach(pass.folder, mount, pass.rows, stuck, w) == (Dir(true, map[p := File(id)]), 0)
  {
    var d := Dir(true, map[OldOf(p) := File(id)]);
    var linked := Dir(true, map[OldOf(p) := File(id), p := Reference(mount, [p])]);
    var both := [Round([[p]], ok), Round([], ok)];
    assert p < OldOf(p);
    assert both[..1] == [Round([[p]], ok)] && both[..1][..0] == [] && [[p]][..0] == [];
    assert Put(d, [p], Reference(mount, [p])) == linked;
    assert ApplyAll(d, mount, [], [[p]][..0], ok) == Pass(d, [], 0);
    var first := ApplyAll(d, mount, [], [[p]], ok);
    assert first.folder == linked;
    assert AfterPasses(d, mount, both[..1]) == first;
    assert AfterPasses(d, mount, both) == Pass(linked, [], 0);
    WalkLinkAndCompanion(mount, p, id, w);
  }

  lemma WalkLinkAndCompanion(mount: Mount, p: Name, id: nat, w: Orphans.World)
    requires w.mine == Some(mount) && w.order([]) == [p, OldOf(p)]
    requires w.faults([p]) == w.faults([OldOf(p)]) == Orphans.Faults(false, false, false)
    ensures Orphans.Walk(Dir(true, map[OldOf(p) := File(id), p := Reference(mount, [p])]), [], w)
         == (Dir(true, map[p := File(id)]), 0)
  {
    var ch: Orphans.Children := map[OldOf(p) := File(id), p := Reference(mount, [p])];
    var back: Orphans.Children := map[p := File(id)];
    var names := [p, OldOf(p)];
    assert p < OldOf(p);
    assert names[..1] == [p] && names[..1][..0] == [] && [] + [p] == [p] && [] + [OldOf(p)] == [OldOf(p)];
    assert (ch - {p, OldOf(p)})[p := ch[OldOf(p)]] == back;
    assert Orphans.RestoreOrRemove(ch, p, w.faults([p]), w) == (back, false);
    assert Orphans.RestoreAll(ch, names[..1], [], w) == (back, 0);
    assert Orphans.RestoreAll(ch, names, [], w) == (back, 0);
    assert Orphans.Descend(Dir(true, ch), back, names[..1], [], w) == (back, 0);
    assert Orphans.Descend(Dir(true, ch), back, names, [], w) == (back, 0);
  }

  // ------------------------------------------------------------- the method

  /** What a detach does below the BIOS directory. */
  method RestoreLocalFallback(dir: BiosDirectory, mount: Mount, rows: seq<Row>, stuck: Path -> Stuck, w: Orphans.World)
    returns (errors: nat)
    requires dir.root.Dir? && Orphans.Listed(RevertAll(dir.root, mount, rows, stuck).0, [], w)
    modifies dir
    ensures (dir.root, errors) == Detach(old(dir.root), mount, rows, stuck, w)
  {
    errors := dir.RevertBiosReferences(mount, rows, stuck);
    var now, more := Orphans.RecoverOwnedOrphans(dir.root, [], w);
    dir.root := now;
    errors := errors + more;
  }
}
