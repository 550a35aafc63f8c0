/** A directory tree with files, links and directories, addressed by paths. */
module Folders {
  import opened Options

  type Mount = nat

  /** A name, and the name its owner gets when it is moved aside. */
  datatype Name = Plain(id: nat) | OldOf(name: Name)

  type Path = seq<Name>

  datatype Node =
    | File(id: nat)
    | Foreign(id: nat, dangling: bool)            // somebody's symlink
    | Reference(mount: Mount, path: Path)         // a symlink into the network-share root
    | Dir(listable: bool, children: map<Name, Node>)

  function Get(d: Node, p: Path): Option<Node> {
    if p == [] then Some(d)
    else if d.Dir? && p[0] in d.children then Get(d.children[p[0]], p[1..])
    else None
  }

  /** The file or link at a path; a directory is neither. */
  function LeafAt(d: Node, p: Path): Option<Node> {
    if Get(d, p).Some? && !Get(d, p).value.Dir? then Get(d, p) else None
  }

  /** Something that is not a directory stands on the way. */
  predicate Blocked(d: Node, p: Path) {
    && |p| > 1 && d.Dir? && p[0] in d.children
    && (!d.children[p[0]].Dir? || Blocked(d.children[p[0]], p[1..]))
  }

  function Below(d: Node, name: Name): Node
    requires d.Dir?
  {
    if name in d.children then d.children[name] else Dir(true, map[])
  }

  /** mkdir with parents, which gets `depth` levels deep. */
  function MakeDirs(d: Node, p: Path, depth: nat): (r: Node)
    requires d.Dir? && !Blocked(d, p)
    ensures r.Dir?
    decreases depth
  {
    if |p| <= 1 || depth == 0 then d
    else Dir(d.listable, d.children[p[0] := MakeDirs(Below(d, p[0]), p[1..], depth - 1)])
  }

  function Put(d: Node, p: Path, leaf: Node): (r: Node)
    requires d.Dir? && p != [] && !Blocked(d, p)
    ensures r.Dir?
    decreases |p|
  {
    if |p| == 1 then Dir(d.listable, d.children[p[0] := leaf])
    else Dir(d.listable, d.children[p[0] := Put(Below(d, p[0]), p[1..], leaf)])
  }

  function Remove(d: Node, p: Path): (r: Node)
    requires p != [] && Get(d, p).Some?
    ensures r.Dir?
    decreases |p|
  {
    if |p| == 1 then Dir(d.listable, d.children - {p[0]})
    else Dir(d.listable, d.children[p[0] := Remove(d.children[p[0]], p[1..])])
  }

  /** rmdir of the directory a path lies in, which works only if it is empty; never of the root. */
  function RemoveEmptyParent(d: Node, p: Path): (r: Node)
    requires d.Dir? && p != []
    ensures r.Dir?
  {
    var parent := p[..|p| - 1];
    if parent != [] && Get(d, parent).Some? && Get(d, parent).value.Dir? && Get(d, parent).value.children == map[]
    then Remove(d, parent) else d
  }

  lemma {:induction false} BlockedIsEmpty(d: Node, p: Path)
    requires Blocked(d, p)
    ensures Get(d, p) == None
    decreases |p|
  {
    var child := d.children[p[0]];
    if child.Dir? {
      BlockedIsEmpty(child, p[1..]);
    }
  }

  lemma {:induction false} MakeDirsKeepsLeaves(d: Node, p: Path, depth: nat, q: Path)
    requires d.Dir? && !Blocked(d, p)
    ensures LeafAt(MakeDirs(d, p, depth), q) == LeafAt(d, q)
    decreases depth
  {
    if |p| > 1 && depth > 0 && q != [] && q[0] == p[0] {
      MakeDirsKeepsLeaves(Below(d, p[0]), p[1..], depth - 1, q[1..]);
      EmptyHoldsNothing(q[1..]);
    }
  }

  /** With every level made, each directory on the way is there; what was not there before is listable and empty but for the next. */
  lemma {:induction false} MakeDirsMakesTheWay(d: Node, p: Path, k: nat)
    requires d.Dir? && !Blocked(d, p) && k < |p|
    ensures var made := Get(MakeDirs(d, p, |p|), p[..k]);
            made.Some? && made.value.Dir? && (Get(d, p[..k]).None? ==> made.value.listable)
    decreases |p|
  {
    if k > 0 {
      MakeDirsGoesDown(d, p, |p|);
      var below := Below(d, p[0]);
      MakeDirsMakesTheWay(below, p[1..], k - 1);
      assert p[..k][1..] == p[1..][..k - 1] && p[..k][0] == p[0];
      if p[0] !in d.children && k - 1 > 0 {
        assert Get(below, p[1..][..k - 1]).None?;
      }
    }
  }

  lemma MakeDirsGoesDown(d: Node, p: Path, depth: nat)
    requires d.Dir? && !Blocked(d, p) && |p| > 1 && depth > 0
    ensures MakeDirs(d, p, depth) == Dir(d.listable, d.children[p[0] := MakeDirs(Below(d, p[0]), p[1..], depth - 1)])
  {
  }

  lemma EmptyHoldsNothing(q: Path)
    ensures LeafAt(Dir(true, map[]), q) == None
  {
  }

  lemma ChildAt(d: Node, p: Path)
    requires d.Dir? && |p| == 1
    ensures Get(d, p) == if p[0] in d.children then Some(d.children[p[0]]) else None
  {
    assert p[1..] == [];
  }

  lemma {:induction false} PutAddsOneLeaf(d: Node, p: Path, leaf: Node, q: Path)
    requires d.Dir? && p != [] && !Blocked(d, p) && Get(d, p).None? && !leaf.Dir?
    ensures LeafAt(Put(d, p, leaf), q) == if q == p then Some(leaf) else LeafAt(d, q)
    decreases |p|
  {
    if q != [] && q[0] == p[0] {
      if |p| == 1 {
        ChildAt(d, p);
        assert q == p <==> q[1..] == [];
        assert Get(Put(d, p, leaf), q) == Get(leaf, q[1..]);
      } else {
        var below := Below(d, p[0]);
        if p[0] !in d.children {
          EmptyHoldsNothing(p[1..]);
        }
        PutAddsOneLeaf(below, p[1..], leaf, q[1..]);
        EmptyHoldsNothing(q[1..]);
        assert q == p <==> q[1..] == p[1..];
      }
    }
  }

  /** Removing a path removes it and all below it, and nothing else. */
  lemma {:induction false} RemoveTakesTheWholePath(d: Node, p: Path, q: Path)
    requires p != [] && Get(d, p).Some?
    ensures LeafAt(Remove(d, p), q) == if p <= q then None else LeafAt(d, q)
    decreases |p|
  {
    if q != [] && q[0] == p[0] && |p| > 1 {
      RemoveTakesTheWholePath(d.children[p[0]], p[1..], q[1..]);
      assert p <= q <==> p[1..] <= q[1..];
    }
  }

  lemma {:induction false} NothingBelow(d: Node, p: Path, q: Path)
    requires p <= q && Get(d, p).Some?
    requires q != p || Get(d, p).value.Dir?
    requires Get(d, p).value.Dir? ==> Get(d, p).value.children == map[]
    ensures LeafAt(d, q) == None
    decreases |p|
  {
    if p != [] {
      NothingBelow(d.children[p[0]], p[1..], q[1..]);
    }
  }

  lemma RemoveFreesThePath(d: Node, p: Path)
    requires d.Dir? && p != [] && LeafAt(d, p).Some?
    ensures Get(Remove(d, p), p).None? && !Blocked(Remove(d, p), p)
    ensures forall q :: LeafAt(Remove(d, p), q) == if q == p then None else LeafAt(d, q)
  {
    RemoveLeavesTheWayClear(d, p);
    forall q
      ensures LeafAt(Remove(d, p), q) == if q == p then None else LeafAt(d, q)
    {
      RemoveTakesTheWholePath(d, p, q);
      if p <= q && q != p {
        NothingBelow(d, p, q);
      }
    }
  }

  lemma {:induction false} RemoveLeavesTheWayClear(d: Node, p: Path)
    requires p != [] && Get(d, p).Some?
    ensures Get(Remove(d, p), p).None? && !Blocked(Remove(d, p), p)
    decreases |p|
  {
    if |p| > 1 {
      RemoveLeavesTheWayClear(d.children[p[0]], p[1..]);
    }
  }

  lemma RemoveEmptyParentKeepsLeaves(d: Node, p: Path, q: Path)
    requires d.Dir? && p != []
    ensures LeafAt(RemoveEmptyParent(d, p), q) == LeafAt(d, q)
  {
    var parent := p[..|p| - 1];
    if RemoveEmptyParent(d, p) != d {
      RemoveTakesTheWholePath(d, parent, q);
      if parent <= q {
        NothingBelow(d, parent, q);
      }
    }
  }
}
