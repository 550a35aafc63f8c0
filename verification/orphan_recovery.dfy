/**
  Recovery of orphaned references (app/device/network_share_manager.py): links
  into a mount that no stored row speaks of, found by walking the directories.
 */
module OrphanRecovery {
  import opened Options
  import opened Folders

  type Children = map<Name, Node>

  /** Which operations fail for one link. */
  datatype Faults = Faults(unlink: bool, rename: bool, relink: bool)

  /**
    What a walk meets: the names of each directory in the order it lists them,
    the failures, and which mounts answer. Links into `mine` are owned, or
    those into any mount.
   */
  datatype World = World(mine: Option<Mount>, order: Path -> seq<Name>, faults: Path -> Faults, up: Mount -> bool)

  predicate Owned(n: Node, w: World) {
    n.Reference? && (w.mine.None? || n.mount == w.mine.value)
  }

  /** Path.exists follows links. */
  predicate Exists(n: Node, w: World) {
    match n
    case Foreign(_, dangling) => !dangling
    case Reference(mount, _) => w.up(mount)
    case _ => true
  }

  function Entry(ch: Children, name: Name): Option<Node> {
    if name in ch then Some(ch[name]) else None
  }

  function RestoreOrRemove(ch: Children, name: Name, f: Faults, w: World): (Children, bool) {
    if name !in ch || !Owned(ch[name], w) then (ch, false)
    else if f.unlink then (ch, true)
    else if OldOf(name) !in ch || !Exists(ch[OldOf(name)], w) then (ch - {name}, false)
    else if f.rename then (if f.relink then ch - {name} else ch, true)
    else ((ch - {name, OldOf(name)})[name := ch[OldOf(name)]], false)
  }

  /**
    What becomes of one owned link: it stays when it cannot be removed, gives way
    to its companion when there is one that can be seen, and is gone otherwise;
    when the companion cannot be moved, the link is put back if that works.
   */
  lemma AnOwnedLinkEnds(ch: Children, name: Name, f: Faults, w: World)
    requires name in ch && ch[name].Reference? && (w.mine.None? || ch[name].mount == w.mine.value)
    ensures var (ch', error) := RestoreOrRemove(ch, name, f, w);
            var aside := Entry(ch, OldOf(name));
            var there := aside.Some? && match aside.value {
                           case Foreign(_, dangling) => !dangling
                           case Reference(mount, _) => w.up(mount)
                           case _ => true
                         };
            && (error <==> f.unlink || (there && f.rename))
            && Entry(ch', name) == (if f.unlink || (there && f.rename && !f.relink) then Some(ch[name])
                                    else if there && !f.rename then aside else None)
            && Entry(ch', OldOf(name)) == (if !f.unlink && there && !f.rename then None else aside)
            && forall other | other != name && other != OldOf(name) :: Entry(ch', other) == Entry(ch, other)
  {
    assert name < OldOf(name);
  }

  /** Whatever is not an owned link is left alone. */
  lemma WhatIsNotOwnedStays(ch: Children, name: Name, f: Faults, w: World)
    requires name in ch ==> !(ch[name].Reference? && (w.mine.None? || ch[name].mount == w.mine.value))
    ensures RestoreOrRemove(ch, name, f, w) == (ch, false)
  {
  }

  /** All links of one directory, in listing order. */
  function RestoreAll(ch: Children, names: seq<Name>, at: Path, w: World): (Children, nat) {
    if names == [] then (ch, 0)
    else
      var n := |names| - 1;
      var (ch1, errors) := RestoreAll(ch, names[..n], at, w);
      var (ch2, error) := RestoreOrRemove(ch1, names[n], w.faults(at + [names[n]]), w);
      (ch2, errors + if error then 1 else 0)
  }

  /** Then the directories that were listed as such and are still there; an unlistable one is skipped silently. */
  function Walk(n: Node, at: Path, w: World): (Node, nat)
    decreases n, 1, 0
  {
    if !n.Dir? || !n.listable then (n, 0)
    else
      var (ch1, e1) := RestoreAll(n.children, w.order(at), at, w);
      var (ch2, e2) := Descend(n, ch1, w.order(at), at, w);
      (Dir(true, ch2), e1 + e2)
  }

  function Descend(n: Node, ch: Children, names: seq<Name>, at: Path, w: World): (Children, nat)
    requires n.Dir?
    decreases n, 0, |names|, 1
  {
    if names == [] then (ch, 0)
    else
      var name := names[|names| - 1];
      var (ch1, errors) := Descend(n, ch, names[..|names| - 1], at, w);
      var (ch2, more) := Enter(n, ch1, name, at, w);
      (ch2, errors + more)
  }

  function Enter(n: Node, ch: Children, name: Name, at: Path, w: World): (Children, nat)
    requires n.Dir?
    decreases n, 0, 0, 0
  {
    if name in ch && name in n.children && n.children[name].Dir? then
      var (below, more) := Walk(n.children[name], at + [name], w);
      (ch[name := below], more)
    else (ch, 0)
  }

  // ------------------------------------------------------------ what is left

  ghost predicate HasOwned(n: Node, w: World) {
    Owned(n, w) || (n.Dir? && exists name :: name in n.children && HasOwned(n.children[name], w))
  }

  /** The walk lists every name of every directory once. */
  ghost predicate Listed(n: Node, at: Path, w: World) {
    n.Dir? ==>
      && (forall name :: name in w.order(at) <==> name in n.children)
      && (forall i, j | 0 <= i < j < |w.order(at)| :: w.order(at)[i] != w.order(at)[j])
      && (forall name | name in n.children :: Listed(n.children[name], at + [name], w))
  }

  /** Nothing moved aside is itself an owned link. */
  ghost predicate NoOwnedAside(n: Node, w: World) {
    n.Dir? ==> NoneAside(n.children, w) && forall name | name in n.children :: NoOwnedAside(n.children[name], w)
  }

  ghost predicate NoneAside(ch: Children, w: World) {
    forall name | OldOf(name) in ch :: !Owned(ch[OldOf(name)], w)
  }

  /** An owned link stands in this entry's place, and the entry goes back there. */
  predicate GoesBack(ch: Children, name: Name, w: World) {
    name.OldOf? && name in ch && name.name in ch && Owned(ch[name.name], w) && Exists(ch[name], w)
  }

  /** An owned link the walk never comes to: in an unlistable directory, or in one that goes back under its own name. */
  ghost predicate Hides(n: Node, w: World) {
    n.Dir? &&
    if !n.listable then HasOwned(n, w)
    else (exists name :: name in n.children &&
           if GoesBack(n.children, name, w) then HasOwned(n.children[name], w) else Hides(n.children[name], w))
  }

  // ---------------------------------------------------------- one directory

  /** An entry after the links among `done` were dealt with, none failing. */
  function Cleared(ch: Children, done: seq<Name>, name: Name, w: World): Option<Node> {
    if name in ch && Owned(ch[name], w) && name in done then
      if GoesBack(ch, OldOf(name), w) then Some(ch[OldOf(name)]) else None
    else if GoesBack(ch, name, w) && name.name in done then None
    else Entry(ch, name)
  }

  lemma RestoreOneClears(ch: Children, now: Children, done: seq<Name>, name: Name, f: Faults, w: World)
    requires NoneAside(ch, w)
    requires forall other :: Entry(now, other) == Cleared(ch, done, other, w)
    requires !RestoreOrRemove(now, name, f, w).1
    ensures forall other :: Entry(RestoreOrRemove(now, name, f, w).0, other) == Cleared(ch, done + [name], other, w)
  {
    var after := RestoreOrRemove(now, name, f, w).0;
    assert Entry(now, name) == Cleared(ch, done, name, w) && Entry(now, OldOf(name)) == Cleared(ch, done, OldOf(name), w);
    forall other
      ensures Entry(after, other) == Cleared(ch, done + [name], other, w)
    {
      assert Entry(now, other) == Cleared(ch, done, other, w);
    }
  }

  lemma {:induction false} RestoreAllClears(ch: Children, names: seq<Name>, at: Path, w: World)
    requires NoneAside(ch, w) && RestoreAll(ch, names, at, w).1 == 0
    ensures forall name :: Entry(RestoreAll(ch, names, at, w).0, name) == Cleared(ch, names, name, w)
  {
    if names != [] {
      var n := |names| - 1;
      RestoreAllClears(ch, names[..n], at, w);
      assert names == names[..n] + [names[n]];
      RestoreOneClears(ch, RestoreAll(ch, names[..n], at, w).0, names[..n], names[n], w.faults(at + [names[n]]), w);
    }
  }

  /**
    The top level of the ROM directory, which is not walked further: when no
    error is reported, no owned link is left there, and everything else is
    where it was or back under its own name.
   */
  lemma NoTopLevelLinkIsLeft(ch: Children, names: seq<Name>, at: Path, w: World)
    requires NoneAside(ch, w) && (forall name | name in ch :: name in names) && RestoreAll(ch, names, at, w).1 == 0
    ensures var ch' := RestoreAll(ch, names, at, w).0;
            && (forall name | name in ch' :: !Owned(ch'[name], w))
            && (forall name | name in ch && !Owned(ch[name], w) ::
                  Entry(ch', if GoesBack(ch, name, w) then name.name else name) == Some(ch[name]))
  {
    var ch' := RestoreAll(ch, names, at, w).0;
    RestoreAllClears(ch, names, at, w);
    forall name | name in ch'
      ensures !Owned(ch'[name], w)
    {
      assert Entry(ch', name) == Cleared(ch, names, name, w);
    }
    forall name | name in ch && !Owned(ch[name], w)
      ensures Entry(ch', if GoesBack(ch, name, w) then name.name else name) == Some(ch[name])
    {
      if GoesBack(ch, name, w) {
        assert OldOf(name.name) == name && name.name in names;
        assert Entry(ch', name.name) == Cleared(ch, names, name.name, w);
      } else {
        assert Entry(ch', name) == Cleared(ch, names, name, w);
      }
    }
  }

  // --------------------------------------------------------- the whole walk

  lemma {:induction false} DescendWalks(n: Node, ch: Children, names: seq<Name>, at: Path, w: World, name: Name)
    requires n.Dir?
    ensures var (ch', errors) := Descend(n, ch, names, at, w);
            && Entry(ch', name) == (if name in ch && name in names && name in n.children && n.children[name].Dir?
                                    then Some(Walk(n.children[name], at + [name], w).0) else Entry(ch, name))
            && (errors == 0 && name in ch && name in names && name in n.children && n.children[name].Dir? ==>
                  Walk(n.children[name], at + [name], w).1 == 0)
    decreases |names|
  {
    if names != [] {
      var last := names[|names| - 1];
      DescendWalks(n, ch, names[..|names| - 1], at, w, name);
      DescendWalks(n, ch, names[..|names| - 1], at, w, last);
      assert names == names[..|names| - 1] + [last];
    }
  }

  /** A directory entry after an error-free walk. */
  lemma EntryAfterWalk(n: Node, at: Path, w: World, name: Name)
    requires n.Dir? && n.listable && Listed(n, at, w) && NoOwnedAside(n, w) && Walk(n, at, w).1 == 0
    ensures var ch' := Walk(n, at, w).0.children;
            && (name in n.children && n.children[name].Dir? && !GoesBack(n.children, name, w) ==>
                  Walk(n.children[name], at + [name], w).1 == 0
                  && Entry(ch', name) == Some(Walk(n.children[name], at + [name], w).0))
            && (!(name in n.children && n.children[name].Dir? && !GoesBack(n.children, name, w)) ==>
                  Entry(ch', name) == Cleared(n.children, w.order(at), name, w))
  {
    var ch1 := RestoreAll(n.children, w.order(at), at, w).0;
    RestoreAllClears(n.children, w.order(at), at, w);
    assert Entry(ch1, name) == Cleared(n.children, w.order(at), name, w);
    DescendWalks(n, ch1, w.order(at), at, w, name);
  }

  /**
    The main result. A walk that reports no error leaves no owned link,
    exactly when none was hidden from it beforehand.
   */
  lemma {:induction false} AWalkLeavesOnlyHiddenLinks(n: Node, at: Path, w: World)
    requires Listed(n, at, w) && NoOwnedAside(n, w) && Walk(n, at, w).1 == 0 && !Owned(n, w)
    ensures HasOwned(Walk(n, at, w).0, w) <==> Hides(n, w)
    decreases n
  {
    if n.Dir? && n.listable {
      var ch, ch' := n.children, Walk(n, at, w).0.children;
      forall name
        ensures name in ch' && HasOwned(ch'[name], w) ==> Hides(n, w)
        ensures name in ch && (if GoesBack(ch, name, w) then HasOwned(ch[name], w) else Hides(ch[name], w)) ==>
                  HasOwned(Walk(n, at, w).0, w)
      {
        EntryAfterWalk(n, at, w, name);
        if name in ch && ch[name].Dir? && !GoesBack(ch, name, w) {
          AWalkLeavesOnlyHiddenLinks(ch[name], at + [name], w);
        } else if name in ch && Owned(ch[name], w) && GoesBack(ch, OldOf(name), w) {
          assert OldOf(name) in ch;
        } else if GoesBack(ch, name, w) {
          EntryAfterWalk(n, at, w, name.name);
          assert OldOf(name.name) == name;
        }
      }
    }
  }

  // ---------------------------------------------------- every path restored

  function Unowned(leaf: Option<Node>, w: World): Option<Node> {
    if leaf.Some? && Owned(leaf.value, w) then None else leaf
  }

  ghost predicate HasLeaf(n: Node) {
    exists p :: LeafAt(n, p).Some?
  }

  /** The walk moves a file or a link: an owned link's local companion goes back to its place. */
  ghost predicate Displaces(n: Node, w: World) {
    && n.Dir? && n.listable
    && exists name :: name in n.children &&
         if GoesBack(n.children, name, w) then HasLeaf(n.children[name]) else Displaces(n.children[name], w)
  }

  /** Every path holds what it held, but for owned links, which are gone. */
  ghost predicate OnlyLinksGone(n: Node, now: Node, w: World) {
    forall p :: LeafAt(now, p) == Unowned(LeafAt(n, p), w)
  }

  lemma {:induction false} AnOwnedLinkIsALeaf(n: Node, w: World) returns (p: Path)
    requires HasOwned(n, w)
    ensures LeafAt(n, p).Some? && Owned(LeafAt(n, p).value, w)
    decreases n
  {
    if Owned(n, w) {
      p := [];
    } else {
      var name :| name in n.children && HasOwned(n.children[name], w);
      var below := AnOwnedLinkIsALeaf(n.children[name], w);
      p := [name] + below;
    }
  }

  lemma {:induction false} ALeafThatIsOwned(n: Node, w: World, p: Path)
    requires LeafAt(n, p).Some? && Owned(LeafAt(n, p).value, w)
    ensures HasOwned(n, w)
    decreases n
  {
    if p != [] {
      ALeafThatIsOwned(n.children[p[0]], w, p[1..]);
    }
  }

  lemma LeafBelow(n: Node, p: Path)
    requires n.Dir? && p != []
    ensures LeafAt(n, p) == if p[0] in n.children then LeafAt(n.children[p[0]], p[1..]) else None
    ensures p[0] in n.children && !n.children[p[0]].Dir? ==> LeafAt(n, p) == if |p| == 1 then Some(n.children[p[0]]) else None
  {
  }

  /** One entry after an error-free walk that hides and displaces nothing. */
  lemma {:induction false} AWalkTakesOnlyLinks(n: Node, at: Path, w: World, p: Path)
    requires Listed(n, at, w) && NoOwnedAside(n, w) && Walk(n, at, w).1 == 0 && !Owned(n, w)
    requires !Hides(n, w) && !Displaces(n, w)
    ensures LeafAt(Walk(n, at, w).0, p) == Unowned(LeafAt(n, p), w)
    decreases n
  {
    if n.Dir? && !n.listable {
      if LeafAt(n, p).Some? && Owned(LeafAt(n, p).value, w) {
        ALeafThatIsOwned(n, w, p);
      }
    } else if n.Dir? && p != [] {
      var name, ch := p[0], n.children;
      EntryAfterWalk(n, at, w, name);
      LeafBelow(n, p);
      LeafBelow(Walk(n, at, w).0, p);
      if name in ch && ch[name].Dir? && !GoesBack(ch, name, w) {
        assert !Displaces(ch[name], w) && !Hides(ch[name], w);
        AWalkTakesOnlyLinks(ch[name], at + [name], w, p[1..]);
      } else if name in ch && Owned(ch[name], w) && GoesBack(ch, OldOf(name), w) {
        assert OldOf(name) in ch && name in w.order(at);
        assert !HasLeaf(ch[OldOf(name)]) && LeafAt(ch[OldOf(name)], p[1..]).None?;
      } else if GoesBack(ch, name, w) {
        assert OldOf(name.name) == name && name.name in w.order(at);
        assert !HasLeaf(ch[name]) && LeafAt(ch[name], p[1..]).None?;
      }
    }
  }

  /** The other direction: what goes back is missed at its own path. */
  lemma {:induction false} AWalkThatTakesOnlyLinksDisplacesNothing(n: Node, at: Path, w: World)
    requires Listed(n, at, w) && NoOwnedAside(n, w) && Walk(n, at, w).1 == 0 && !Owned(n, w)
    requires !Hides(n, w) && OnlyLinksGone(n, Walk(n, at, w).0, w)
    ensures !Displaces(n, w)
    decreases n
  {
    if n.Dir? && n.listable {
      var ch := n.children;
      forall name | name in ch
        ensures if GoesBack(ch, name, w) then !HasLeaf(ch[name]) else !Displaces(ch[name], w)
      {
        EntryAfterWalk(n, at, w, name);
        if GoesBack(ch, name, w) {
          NothingIsMissed(n, at, w, name);
        } else if ch[name].Dir? {
          BelowOnlyLinksGone(n, at, w, name);
          AWalkThatTakesOnlyLinksDisplacesNothing(ch[name], at + [name], w);
        }
      }
    }
  }

  lemma BelowOnlyLinksGone(n: Node, at: Path, w: World, name: Name)
    requires n.Dir? && n.listable && Listed(n, at, w) && NoOwnedAside(n, w) && Walk(n, at, w).1 == 0
    requires OnlyLinksGone(n, Walk(n, at, w).0, w)
    requires name in n.children && n.children[name].Dir? && !GoesBack(n.children, name, w)
    ensures OnlyLinksGone(n.children[name], Walk(n.children[name], at + [name], w).0, w)
  {
    EntryAfterWalk(n, at, w, name);
    forall p
      ensures LeafAt(Walk(n.children[name], at + [name], w).0, p) == Unowned(LeafAt(n.children[name], p), w)
    {
      assert ([name] + p)[1..] == p;
      assert LeafAt(Walk(n, at, w).0, [name] + p) == Unowned(LeafAt(n, [name] + p), w);
    }
  }

  lemma NothingIsMissed(n: Node, at: Path, w: World, name: Name)
    requires n.Dir? && n.listable && Listed(n, at, w) && NoOwnedAside(n, w) && Walk(n, at, w).1 == 0
    requires !Hides(n, w) && OnlyLinksGone(n, Walk(n, at, w).0, w)
    requires name in n.children && GoesBack(n.children, name, w)
    ensures !HasLeaf(n.children[name])
  {
    EntryAfterWalk(n, at, w, name);
    assert name.name in w.order(at) && OldOf(name.name) == name;
    forall p
      ensures LeafAt(n.children[name], p).None?
    {
      assert ([name] + p)[1..] == p;
      assert LeafAt(Walk(n, at, w).0, [name] + p) == Unowned(LeafAt(n, [name] + p), w);
      if LeafAt(n.children[name], p).Some? {
        ALeafThatIsOwned(n.children[name], w, p);
      }
    }
  }

  lemma NoOwnedLinkIsLeft(n: Node, now: Node, w: World)
    requires OnlyLinksGone(n, now, w)
    ensures !HasOwned(now, w)
  {
    forall p
      ensures LeafAt(now, p) == Unowned(LeafAt(n, p), w)
    {
    }
    if HasOwned(now, w) {
      var p := AnOwnedLinkIsALeaf(now, w);
    }
  }

  /**
    A walk without errors takes the owned links and nothing else, exactly when
    none was hidden from it and no file or link goes back into a link's place.
   */
  lemma AWalkTakesExactlyTheLinks(n: Node, at: Path, w: World)
    requires Listed(n, at, w) && NoOwnedAside(n, w) && Walk(n, at, w).1 == 0 && !Owned(n, w)
    ensures OnlyLinksGone(n, Walk(n, at, w).0, w) <==> !Hides(n, w) && !Displaces(n, w)
  {
    var now := Walk(n, at, w).0;
    if !Hides(n, w) && !Displaces(n, w) {
      forall p
        ensures LeafAt(now, p) == Unowned(LeafAt(n, p), w)
      {
        AWalkTakesOnlyLinks(n, at, w, p);
      }
    }
    if OnlyLinksGone(n, now, w) {
      AWalkLeavesOnlyHiddenLinks(n, at, w);
      NoOwnedLinkIsLeft(n, now, w);
      AWalkThatTakesOnlyLinksDisplacesNothing(n, at, w);
    }
  }

  // ------------------------------------------------------------- what is reported

  /** Each link counts at most once. */
  lemma {:induction false} ErrorsAreCounted(ch: Children, names: seq<Name>, at: Path, w: World)
    ensures RestoreAll(ch, names, at, w).1 <= |names|
  {
    if names != [] {
      ErrorsAreCounted(ch, names[..|names| - 1], at, w);
    }
  }

  ghost predicate NothingFails(w: World) {
    forall p :: w.faults(p) == Faults(false, false, false)
  }

  lemma {:induction false} RestoreAllReportsNothing(ch: Children, names: seq<Name>, at: Path, w: World)
    requires NothingFails(w)
    ensures RestoreAll(ch, names, at, w).1 == 0
  {
    if names != [] {
      RestoreAllReportsNothing(ch, names[..|names| - 1], at, w);
    }
  }

  /** Only failures are reported. */
  lemma {:induction false} AWalkReportsNothing(n: Node, at: Path, w: World)
    requires NothingFails(w)
    ensures Walk(n, at, w).1 == 0
    decreases n, 1, 0
  {
    if n.Dir? {
      RestoreAllReportsNothing(n.children, w.order(at), at, w);
      DescendReportsNothing(n, RestoreAll(n.children, w.order(at), at, w).0, w.order(at), at, w);
    }
  }

  lemma {:induction false} DescendReportsNothing(n: Node, ch: Children, names: seq<Name>, at: Path, w: World)
    requires n.Dir? && NothingFails(w)
    ensures Descend(n, ch, names, at, w).1 == 0
    decreases n, 0, |names|
  {
    if names != [] {
      var name := names[|names| - 1];
      DescendReportsNothing(n, ch, names[..|names| - 1], at, w);
      if name in n.children && n.children[name].Dir? {
        AWalkReportsNothing(n.children[name], at + [name], w);
      }
    }
  }

  /** No entry moved aside is an owned link, nothing fails, and yet a link stays: inside a folder that went back. */
  lemma AFolderThatGoesBackKeepsItsLinks(w: World)
    requires w.mine == None && NothingFails(w)
    requires w.order([]) == [Plain(0), OldOf(Plain(0))] && w.order([OldOf(Plain(0))]) == [Plain(1)]
    ensures var aside := Dir(true, map[Plain(1) := Reference(1, [Plain(1)])]);
            var n := Dir(true, map[Plain(0) := Reference(1, [Plain(0)]), OldOf(Plain(0)) := aside]);
            NoOwnedAside(n, w) && Walk(n, [], w).1 == 0 && HasOwned(Walk(n, [], w).0, w)
  {
    var link := Reference(1, [Plain(1)]);
    var aside := Dir(true, map[Plain(1) := link]);
    var n := Dir(true, map[Plain(0) := Reference(1, [Plain(0)]), OldOf(Plain(0)) := aside]);
    assert [] + [OldOf(Plain(0))] == [OldOf(Plain(0))];
    AWalkReportsNothing(n, [], w);
    assert HasOwned(aside, w) by {
      assert Plain(1) in aside.children && HasOwned(aside.children[Plain(1)], w);
    }
    assert Hides(n, w) by {
      assert OldOf(Plain(0)) in n.children && GoesBack(n.children, OldOf(Plain(0)), w);
    }
    AWalkLeavesOnlyHiddenLinks(n, [], w);
  }

  // ----------------------------------------------------- nothing local is lost

  /** Each name is kept, or is the one it was moved aside from. */
  ghost predicate SamePlace(p: Path, q: Path) {
    |p| == |q| && forall i | 0 <= i < |p| :: q[i] == p[i] || p[i] == OldOf(q[i])
  }

  /** Whatever fails, an entry that is not owned stays where it is or goes back under its own name. */
  ghost predicate StillThere(ch: Children, now: Children, name: Name, w: World)
    requires name in ch
  {
    || Entry(now, name) == Some(ch[name])
    || (name.OldOf? && Entry(now, name.name) == Some(ch[name]) && name.name in ch && Owned(ch[name.name], w))
  }

  lemma {:induction false} RestoreAllLosesNothing(ch: Children, names: seq<Name>, at: Path, w: World)
    requires NoneAside(ch, w)
    ensures var now := RestoreAll(ch, names, at, w).0;
            && (forall name | name in ch && !Owned(ch[name], w) :: StillThere(ch, now, name, w))
            && (forall name | name in now && Owned(now[name], w) :: Entry(ch, name) == Some(now[name]))
            && (forall name | name in now :: name in ch)
  {
    if names != [] {
      var n := |names| - 1;
      var last := names[n];
      RestoreAllLosesNothing(ch, names[..n], at, w);
      var before := RestoreAll(ch, names[..n], at, w).0;
      var now := RestoreAll(ch, names, at, w).0;
      forall name | name in ch && !Owned(ch[name], w)
        ensures StillThere(ch, now, name, w)
      {
        assert StillThere(ch, before, name, w);
      }
    }
  }

  /** A file, or a link that is not ours, is never lost, whatever fails. */
  lemma {:induction false} NothingLocalIsLost(n: Node, at: Path, w: World, p: Path) returns (q: Path)
    requires Listed(n, at, w) && NoOwnedAside(n, w) && LeafAt(n, p).Some? && !Owned(LeafAt(n, p).value, w)
    ensures SamePlace(p, q) && LeafAt(Walk(n, at, w).0, q) == LeafAt(n, p)
    decreases n
  {
    q := p;
    if n.Dir? && n.listable {
      var name, ch := p[0], n.children;
      var ch1 := RestoreAll(ch, w.order(at), at, w).0;
      assert Get(n, p) == Get(ch[name], p[1..]);
      RestoreAllLosesNothing(ch, w.order(at), at, w);
      assert StillThere(ch, ch1, name, w);
      if Entry(ch1, name) == Some(ch[name]) {
        DescendWalks(n, ch1, w.order(at), at, w, name);
        if ch[name].Dir? {
          var below := NothingLocalIsLost(ch[name], at + [name], w, p[1..]);
          q := [name] + below;
        }
      } else {
        DescendWalks(n, ch1, w.order(at), at, w, name.name);
        q := [name.name] + p[1..];
      }
    }
  }

  // ------------------------------------------------------------- the loops

  method RestoreOrRemoveOwnedLink(entries: Children, name: Name, f: Faults, w: World) returns (ch: Children, error: bool)
    ensures (ch, error) == RestoreOrRemove(entries, name, f, w)
  {
    ch, error := entries, false;
    if name !in ch || !Owned(ch[name], w) {
      return;
    }
    if f.unlink {
      return ch, true;
    }
    var target, aside := ch[name], OldOf(name);
    assert name < aside;
    ch := ch - {name};
    if aside in ch && Exists(ch[aside], w) {
      if f.rename {
        if !f.relink {
          ch := ch[name := target];
          assert ch == entries;
        }
        error := true;
      } else {
        ch := (ch - {aside})[name := ch[aside]];
        assert ch == (entries - {name, aside})[name := entries[aside]];
      }
    }
  }

  method RestoreOwnedLinks(entries: Children, names: seq<Name>, at: Path, w: World) returns (ch: Children, errors: nat)
    ensures (ch, errors) == RestoreAll(entries, names, at, w)
  {
    ch, errors := entries, 0;
    for i := 0 to |names|
      invariant (ch, errors) == RestoreAll(entries, names[..i], at, w)
    {
      assert names[..i + 1][..i] == names[..i];
      var error;
      ch, error := RestoreOrRemoveOwnedLink(ch, names[i], w.faults(at + [names[i]]), w);
      errors := errors + if error then 1 else 0;
    }
    assert names[..|names|] == names;
  }

  /** A directory is moved as a whole or not at all. */
  lemma {:induction false} DirectoriesAreNotReplaced(ch: Children, names: seq<Name>, at: Path, w: World)
    ensures var now := RestoreAll(ch, names, at, w).0;
            forall name | name in now :: name in ch && (ch[name].Dir? ==> now[name] == ch[name])
  {
    if names != [] {
      DirectoriesAreNotReplaced(ch, names[..|names| - 1], at, w);
    }
  }

  method RecoverOwnedOrphans(n: Node, at: Path, w: World) returns (r: Node, errors: nat)
    requires Listed(n, at, w)
    ensures (r, errors) == Walk(n, at, w)
    decreases n, 2
  {
    if !n.Dir? || !n.listable {
      return n, 0;
    }
    var ch, more;
    ch, errors := RestoreOwnedLinks(n.children, w.order(at), at, w);
    DirectoriesAreNotReplaced(n.children, w.order(at), at, w);
    ch, more := EnterDirectories(n, ch, w.order(at), at, w);
    return Dir(true, ch), errors + more;
  }

  method EnterDirectories(n: Node, entries: Children, names: seq<Name>, at: Path, w: World) returns (ch: Children, errors: nat)
    requires n.Dir? && Listed(n, at, w) && forall i, j | 0 <= i < j < |names| :: names[i] != names[j]
    requires forall name | name in entries :: name in n.children && (n.children[name].Dir? ==> entries[name] == n.children[name])
    ensures (ch, errors) == Descend(n, entries, names, at, w)
    decreases n, 1
  {
    ch, errors := entries, 0;
    for i := 0 to |names|
      invariant (ch, errors) == Descend(n, entries, names[..i], at, w)
    {
      assert names[..i + 1][..i] == names[..i];
      DescendWalks(n, entries, names[..i], at, w, names[i]);
      var more;
      ch, more := EnterDirectory(n, ch, names[i], at, w);
      errors := errors + more;
    }
    assert names[..|names|] == names;
  }

  /** Only what was listed as a directory, and still is one, is walked. */
  method EnterDirectory(n: Node, ch: Children, name: Name, at: Path, w: World) returns (now: Children, errors: nat)
    requires n.Dir? && Listed(n, at, w)
    requires name in ch && name in n.children && n.children[name].Dir? ==> ch[name] == n.children[name]
    ensures (now, errors) == Enter(n, ch, name, at, w)
    decreases n, 0
  {
    now, errors := ch, 0;
    if name in n.children && n.children[name].Dir? && name in ch {
      var below;
      below, errors := RecoverOwnedOrphans(ch[name], at + [name], w);
      now := ch[name := below];
    }
  }
}
