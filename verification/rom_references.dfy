/**
  ROM references by renaming and linking (app/device/network_share_manager.py):
  passes over the top level of the ROM directory, any of whose operations may
  fail, and the one revert that undoes them from the stored rows.
 */
module RomReferences {
  import opened Options

  type System = nat
  type Mount = nat

  /** A top-level name: a system's own, or its ".old" companion. */
  datatype Name = Own(s: System) | Old(s: System)

  datatype Entry =
    | Local(id: nat, dangling: bool)          // a directory, a file, or somebody's symlink
    | Reference(mount: Mount, s: System)      // a symlink into the network-share root

  type Tree = map<Name, Entry>

  datatype Row = Row(system: System, collision: bool, renamed: bool, created: bool)

  /** Which operations fail while one system is processed, and whether the mount answers. */
  datatype Faults = Faults(unlink: bool, link: bool, rename: bool, rollback: bool, reachable: bool)

  function Lookup(t: Tree, n: Name): Option<Entry> {
    if n in t then Some(t[n]) else None
  }

  /** Path.exists follows links: a dangling one is not there. */
  predicate Exists(t: Tree, n: Name, reachable: bool) {
    n in t && match t[n] { case Local(_, dangling) => !dangling case Reference(_, _) => reachable }
  }

  // ------------------------------------------------------------- one pass

  function ApplyOne(t: Tree, mount: Mount, prior: Option<Row>, s: System, f: Faults): (Tree, Row) {
    var target := Reference(mount, s);
    if prior.Some? && prior.value.created && Lookup(t, Own(s)) == Some(target) then (t, prior.value)
    else if Lookup(t, Own(s)) == Some(target) then
      (t, Row(s, Exists(t, Old(s), f.reachable), Exists(t, Old(s), f.reachable), true))
    else if Own(s) in t && t[Own(s)].Reference? then
      if t[Own(s)].mount != mount then (t, Row(s, true, false, false))
      else if f.unlink then (t, Row(s, false, false, false))
      else LinkFree(t - {Own(s)}, target, s, f)
    else if Own(s) !in t then LinkFree(t, target, s, f)
    else if Old(s) in t || f.rename then (t, Row(s, true, false, false))
    else
      var moved := (t - {Own(s)})[Old(s) := t[Own(s)]];
      if !f.link then (moved[Own(s) := target], Row(s, true, true, true))
      else if f.rollback then (moved, Row(s, true, true, false))
      else (t, Row(s, true, false, false))
  }

  /** The local name is free: link it. A failure here leaves a row that remembers nothing. */
  function LinkFree(t: Tree, target: Entry, s: System, f: Faults): (Tree, Row) {
    if f.link then (t, Row(s, false, false, false))
    else
      var renamed := Exists(t, Old(s), f.reachable);
      (t[Own(s) := target], Row(s, renamed, renamed, true))
  }

  function PriorRow(rows: seq<Row>, s: System): (row: Option<Row>)
    ensures row.Some? ==> row.value.system == s && row.value in rows
  {
    if rows == [] then None
    else if rows[|rows| - 1].system == s then Some(rows[|rows| - 1])
    else PriorRow(rows[..|rows| - 1], s)
  }

  function ApplyAll(t: Tree, mount: Mount, existing: seq<Row>, systems: seq<System>, faults: System -> Faults): (Tree, seq<Row>) {
    if systems == [] then (t, [])
    else
      var n := |systems| - 1;
      var (t1, rows) := ApplyAll(t, mount, existing, systems[..n], faults);
      var (t2, row) := ApplyOne(t1, mount, PriorRow(existing, systems[n]), systems[n], faults(systems[n]));
      (t2, rows + [row])
  }

  // ----------------------------------------------------------- the revert

  /** Which operations fail while one row is reverted. */
  datatype Stuck = Stuck(unlink: bool, rename: bool)

  function RevertOne(t: Tree, mount: Mount, row: Row, f: Stuck): (Tree, bool) {
    var mine := row.created && Own(row.system) in t && t[Own(row.system)].Reference? && t[Own(row.system)].mount == mount;
    if mine && f.unlink then (t, true)
    else
      var t1 := if mine then t - {Own(row.system)} else t;
      if !row.renamed then (t1, false)
      else if Own(row.system) in t1 then (t1, true)
      else if !Exists(t1, Old(row.system), true) then (t1, false)
      else if f.rename then (t1, true)
      else ((t1 - {Old(row.system)})[Own(row.system) := t1[Old(row.system)]], false)
  }

  function RevertAll(t: Tree, mount: Mount, rows: seq<Row>, stuck: System -> Stuck): (Tree, nat) {
    if rows == [] then (t, 0)
    else
      var n := |rows| - 1;
      var (t1, errors) := RevertAll(t, mount, rows[..n], stuck);
      var (t2, error) := RevertOne(t1, mount, rows[n], stuck(rows[n].system));
      (t2, errors + if error then 1 else 0)
  }

  // -------------------------------------------------- what passes leave behind

  /** No links of ours yet, no ".old" without its system, no dangling link. */
  ghost predicate Pristine(t: Tree) {
    && (forall n | n in t :: t[n].Local? && !t[n].dangling)
    && (forall s | Old(s) in t :: Own(s) in t)
  }

  ghost predicate Distinct(systems: seq<System>) {
    forall i, j | 0 <= i < j < |systems| :: systems[i] != systems[j]
  }

  /** What a tree holds for one system: its own name and its ".old" companion. */
  datatype View = View(own: Option<Entry>, aside: Option<Entry>)

  function At(t: Tree, s: System): View {
    View(Lookup(t, Own(s)), Lookup(t, Old(s)))
  }

  ghost predicate Added(v0: View, v: View, link: Entry) {
    v0 == View(None, None) && v == View(Some(link), None)
  }

  ghost predicate Replaced(v0: View, v: View, link: Entry) {
    v0.own.Some? && v0.aside.None? && v == View(Some(link), v0.own)
  }

  ghost predicate Stranded(v0: View, v: View) {
    v0.own.Some? && v0.aside.None? && v == View(None, v0.own)
  }

  /** Every state a system can be in, seen from the original, and what its stored row then says. */
  ghost predicate Tracked(v0: View, v: View, mount: Mount, s: System, row: Option<Row>) {
    && (row.Some? ==> row.value.system == s)
    && (|| (v == v0 && (row.Some? ==> !row.value.created && !row.value.renamed))
        || (Added(v0, v, Reference(mount, s)) && row.Some? && row.value.created && !row.value.renamed)
        || (Replaced(v0, v, Reference(mount, s)) && row.Some? && row.value.created && row.value.renamed)
        || (Stranded(v0, v) && row.Some? && !row.value.created))
  }

  /** A local name is free although its ".old" exists, and the row does not know. */
  predicate Forgotten(t: Tree, row: Row) {
    !row.renamed && Own(row.system) !in t && Old(row.system) in t
  }

  lemma ApplyOneTracks(t0: Tree, t: Tree, mount: Mount, prior: Option<Row>, s: System, f: Faults)
    requires Pristine(t0) && Tracked(At(t0, s), At(t, s), mount, s, prior)
    ensures var (t', row) := ApplyOne(t, mount, prior, s, f);
            && Tracked(At(t0, s), At(t', s), mount, s, Some(row))
            && forall other | other != s :: At(t', other) == At(t, other)
  {
  }

  /** A revert of one row either reports an error or leaves the original, unless the row forgot. */
  lemma RevertOneRestores(t0: Tree, t: Tree, mount: Mount, row: Row, f: Stuck)
    requires Pristine(t0) && Tracked(At(t0, row.system), At(t, row.system), mount, row.system, Some(row))
    ensures var (t', error) := RevertOne(t, mount, row, f);
            && (error ==> f.unlink || f.rename)
            && (!error ==> (At(t', row.system) == At(t0, row.system) <==> !Forgotten(t, row)))
  {
  }

  // ------------------------------------------- one system, in any directory

  /** Somebody else's entry has the name: something local, or a link into another peer's mount. */
  predicate Occupied(t: Tree, mount: Mount, s: System) {
    Own(s) in t && !(t[Own(s)].Reference? && t[Own(s)].mount == mount)
  }

  /** The stored row is kept as it is while its link stands. */
  predicate Stands(t: Tree, mount: Mount, prior: Option<Row>, s: System) {
    prior.Some? && prior.value.created && Lookup(t, Own(s)) == Some(Reference(mount, s))
  }

  /**
    What a row says is true, whatever the directory was like: a link was created
    exactly when it stands, a collision was met exactly when the name was
    occupied or a copy lies aside of the link, and a renamed one exists.
   */
  lemma ARowTellsTheTruth(t: Tree, mount: Mount, prior: Option<Row>, s: System, f: Faults)
    ensures var (t', row) := ApplyOne(t, mount, prior, s, f);
            if Stands(t, mount, prior, s) then (t', row) == (t, prior.value)
            else
              && row.system == s
              && (row.created <==> Lookup(t', Own(s)) == Some(Reference(mount, s)))
              && (row.collision <==> Occupied(t, mount, s) || (row.created && Exists(t, Old(s), f.reachable)))
              && (row.renamed ==> Old(s) in t')
              && (row.created && Exists(t, Old(s), f.reachable) ==> row.renamed)
  {
  }

  /** A name in a pass: another peer's link stays; a stale one of this peer is replaced, or gone, or cannot be removed. */
  lemma ALinkIsReplacedOrStays(t: Tree, mount: Mount, prior: Option<Row>, s: System, f: Faults)
    requires Own(s) in t && t[Own(s)].Reference? && t[Own(s)] != Reference(mount, s)
    ensures var t' := ApplyOne(t, mount, prior, s, f).0;
            if t[Own(s)].mount != mount || f.unlink then t' == t
            else t' == if f.link then t - {Own(s)} else t[Own(s) := Reference(mount, s)]
  {
    assert (t - {Own(s)})[Own(s) := Reference(mount, s)] == t[Own(s) := Reference(mount, s)];
  }

  /** Something local stays where it is or goes aside as it is, and makes way only where nothing lies aside already. */
  lemma SomethingLocalStays(t: Tree, mount: Mount, prior: Option<Row>, s: System, f: Faults)
    requires Own(s) in t && t[Own(s)].Local?
    ensures var t' := ApplyOne(t, mount, prior, s, f).0;
            || t' == t
            || (Old(s) !in t && !f.rename && At(t', s).aside == Some(t[Own(s)])
                && At(t', s).own == (if !f.link then Some(Reference(mount, s)) else None)
                && (f.link ==> f.rollback))
    ensures !f.rename && !f.link && Old(s) !in t ==> At(ApplyOne(t, mount, prior, s, f).0, s) == View(Some(Reference(mount, s)), Some(t[Own(s)]))
  {
  }

  /** A row's revert reports an error exactly when its link, or the copy it should put back, cannot be moved. */
  lemma ARevertFailsExactly(t: Tree, mount: Mount, row: Row, f: Stuck)
    ensures var s := row.system;
            var mine := row.created && Own(s) in t && t[Own(s)].Reference? && t[Own(s)].mount == mount;
            RevertOne(t, mount, row, f).1 <==>
              if mine && f.unlink then true
              else row.renamed && ((Own(s) in t && !mine) || (Exists(t, Old(s), true) && f.rename))
  {
  }

  function Failing(t: Tree, mount: Mount, rows: seq<Row>, stuck: System -> Stuck): set<nat> {
    set i | 0 <= i < |rows| && RowFails(t, mount, rows[i], stuck)
  }

  /** As many errors are reported as rows fail. */
  lemma {:induction false} ErrorsAreCounted(t: Tree, mount: Mount, systems: seq<System>, rows: seq<Row>, stuck: System -> Stuck)
    requires Distinct(systems) && RowsOf(systems, rows)
    ensures RevertAll(t, mount, rows, stuck).1 == |Failing(t, mount, rows, stuck)|
  {
    if rows == [] {
      assert Failing(t, mount, rows, stuck) == {};
    } else {
      var n := |rows| - 1;
      ErrorsAreCounted(t, mount, systems[..n], rows[..n], stuck);
      ARevertIsPointwise(t, mount, systems[..n], rows[..n], stuck);
      var (t1, _) := RevertAll(t, mount, rows[..n], stuck);
      assert systems[n] !in systems[..n];
      RevertOneIsLocal(t1, t, mount, rows[n], stuck(systems[n]));
      OneMoreFails(t, mount, rows, stuck);
    }
  }

  lemma OneMoreFails(t: Tree, mount: Mount, rows: seq<Row>, stuck: System -> Stuck)
    requires rows != []
    ensures var n := |rows| - 1;
            |Failing(t, mount, rows, stuck)|
            == |Failing(t, mount, rows[..n], stuck)| + if RowFails(t, mount, rows[n], stuck) then 1 else 0
  {
    var n := |rows| - 1;
    assert forall i | 0 <= i < n :: rows[..n][i] == rows[i];
    assert Failing(t, mount, rows, stuck)
        == Failing(t, mount, rows[..n], stuck) + if RowFails(t, mount, rows[n], stuck) then {n} else {};
  }

  // ---------------------------------------------------------- whole passes

  /** The rows the next pass will look up describe the tree. */
  ghost predicate Known(t0: Tree, t: Tree, mount: Mount, systems: seq<System>, rows: seq<Row>) {
    && (forall i | 0 <= i < |systems| :: Tracked(At(t0, systems[i]), At(t, systems[i]), mount, systems[i], PriorRow(rows, systems[i])))
    && (forall s | s !in systems :: At(t, s) == At(t0, s))
  }

  ghost predicate RowsOf(systems: seq<System>, rows: seq<Row>) {
    |rows| == |systems| && forall i | 0 <= i < |systems| :: rows[i].system == systems[i]
  }

  lemma {:induction false} PriorRowFinds(systems: seq<System>, rows: seq<Row>, i: nat)
    requires Distinct(systems) && RowsOf(systems, rows) && i < |systems|
    ensures PriorRow(rows, systems[i]) == Some(rows[i])
  {
    var n := |rows| - 1;
    if i < n {
      PriorRowFinds(systems[..n], rows[..n], i);
    }
  }

  /** What happens to one system depends on nothing but its own two names. */
  lemma ApplyOneIsLocal(t: Tree, u: Tree, mount: Mount, prior: Option<Row>, s: System, f: Faults)
    requires At(t, s) == At(u, s)
    ensures var (t', row) := ApplyOne(t, mount, prior, s, f);
            var (u', same) := ApplyOne(u, mount, prior, s, f);
            row == same && At(t', s) == At(u', s) && forall other | other != s :: At(t', other) == At(t, other)
  {
    assert Lookup(t, Own(s)) == Lookup(u, Own(s)) && Lookup(t, Old(s)) == Lookup(u, Old(s));
  }

  /** A pass treats every system as if it were alone in the original directory. */
  lemma {:induction false} APassIsPointwise(t: Tree, mount: Mount, existing: seq<Row>, systems: seq<System>, faults: System -> Faults)
    requires Distinct(systems)
    ensures var (t', rows) := ApplyAll(t, mount, existing, systems, faults);
            && RowsOf(systems, rows)
            && (forall i | 0 <= i < |systems| :: AsIfAlone(t, mount, existing, systems[i], faults, At(t', systems[i]), rows[i]))
            && (forall s | s !in systems :: At(t', s) == At(t, s))
  {
    if systems != [] {
      var n := |systems| - 1;
      var s := systems[n];
      APassIsPointwise(t, mount, existing, systems[..n], faults);
      var (t1, _) := ApplyAll(t, mount, existing, systems[..n], faults);
      assert s !in systems[..n];
      ApplyOneIsLocal(t1, t, mount, PriorRow(existing, s), s, faults(s));
      var (t2, _) := ApplyOne(t1, mount, PriorRow(existing, s), s, faults(s));
      forall i | 0 <= i < n
        ensures systems[..n][i] == systems[i] && At(t2, systems[i]) == At(t1, systems[i])
      {
        assert systems[i] != s;
      }
    }
  }

  ghost predicate AsIfAlone(t: Tree, mount: Mount, existing: seq<Row>, s: System, faults: System -> Faults, v: View, row: Row) {
    var (alone, its) := ApplyOne(t, mount, PriorRow(existing, s), s, faults(s));
    v == At(alone, s) && row == its
  }

  lemma APassKeepsTheBooks(t0: Tree, t: Tree, mount: Mount, existing: seq<Row>, systems: seq<System>, faults: System -> Faults)
    requires Pristine(t0) && Distinct(systems) && Known(t0, t, mount, systems, existing)
    ensures var (t', rows) := ApplyAll(t, mount, existing, systems, faults);
            RowsOf(systems, rows) && Known(t0, t', mount, systems, rows)
  {
    APassIsPointwise(t, mount, existing, systems, faults);
    var (t', rows) := ApplyAll(t, mount, existing, systems, faults);
    forall i | 0 <= i < |systems|
      ensures Tracked(At(t0, systems[i]), At(t', systems[i]), mount, systems[i], PriorRow(rows, systems[i]))
    {
      var s := systems[i];
      ApplyOneTracks(t0, t, mount, PriorRow(existing, s), s, faults(s));
      assert AsIfAlone(t, mount, existing, s, faults, At(t', s), rows[i]);
      PriorRowFinds(systems, rows, i);
    }
  }

  /** Any number of passes, each with its own failures. */
  function AfterPasses(t: Tree, mount: Mount, systems: seq<System>, passes: seq<System -> Faults>): (Tree, seq<Row>) {
    if passes == [] then (t, [])
    else
      var (t1, rows) := AfterPasses(t, mount, systems, passes[..|passes| - 1]);
      ApplyAll(t1, mount, rows, systems, passes[|passes| - 1])
  }

  lemma {:induction false} PassesKeepTheBooks(t0: Tree, mount: Mount, systems: seq<System>, passes: seq<System -> Faults>)
    requires Pristine(t0) && Distinct(systems)
    ensures var (t, rows) := AfterPasses(t0, mount, systems, passes);
            Known(t0, t, mount, systems, rows) && (passes == [] || RowsOf(systems, rows))
  {
    if passes != [] {
      PassesKeepTheBooks(t0, mount, systems, passes[..|passes| - 1]);
      var (t1, rows) := AfterPasses(t0, mount, systems, passes[..|passes| - 1]);
      APassKeepsTheBooks(t0, t1, mount, rows, systems, passes[|passes| - 1]);
    }
  }

  lemma RevertOneIsLocal(t: Tree, u: Tree, mount: Mount, row: Row, f: Stuck)
    requires At(t, row.system) == At(u, row.system)
    ensures var (t', error) := RevertOne(t, mount, row, f);
            var (u', same) := RevertOne(u, mount, row, f);
            && error == same && At(t', row.system) == At(u', row.system)
            && forall other | other != row.system :: At(t', other) == At(t, other)
  {
    assert Lookup(t, Own(row.system)) == Lookup(u, Own(row.system)) && Lookup(t, Old(row.system)) == Lookup(u, Old(row.system));
  }

  predicate RowFails(t: Tree, mount: Mount, row: Row, stuck: System -> Stuck) {
    RevertOne(t, mount, row, stuck(row.system)).1
  }

  /** A revert treats every row as if it were alone, and reports an error just when some row has one. */
  lemma {:induction false} ARevertIsPointwise(t: Tree, mount: Mount, systems: seq<System>, rows: seq<Row>, stuck: System -> Stuck)
    requires Distinct(systems) && RowsOf(systems, rows)
    ensures var (t', errors) := RevertAll(t, mount, rows, stuck);
            && (errors == 0 <==> forall i | 0 <= i < |rows| :: !RowFails(t, mount, rows[i], stuck))
            && (forall i | 0 <= i < |systems| ::
                  At(t', systems[i]) == At(RevertOne(t, mount, rows[i], stuck(systems[i])).0, systems[i]))
            && (forall s | s !in systems :: At(t', s) == At(t, s))
  {
    if rows != [] {
      var n := |rows| - 1;
      var s := systems[n];
      ARevertIsPointwise(t, mount, systems[..n], rows[..n], stuck);
      var (t1, before) := RevertAll(t, mount, rows[..n], stuck);
      assert s !in systems[..n];
      RevertOneIsLocal(t1, t, mount, rows[n], stuck(s));
      var (t2, errors) := RevertAll(t, mount, rows, stuck);
      assert before == 0 <==> forall i | 0 <= i < n :: !RowFails(t, mount, rows[..n][i], stuck);
      assert errors == 0 <==> before == 0 && !RowFails(t, mount, rows[n], stuck);
      assert forall i | 0 <= i < n :: rows[..n][i] == rows[i];
      forall i | 0 <= i < n
        ensures systems[..n][i] == systems[i] && At(t2, systems[i]) == At(t1, systems[i])
      {
        assert systems[i] != s;
      }
    }
  }

  lemma SameTree(t: Tree, t0: Tree)
    requires forall n :: Lookup(t, n) == Lookup(t0, n)
    ensures t == t0
  {
    forall n
      ensures n in t <==> n in t0
      ensures n in t ==> t[n] == t0[n]
    {
      assert Lookup(t, n) == Lookup(t0, n);
    }
  }

  /**
    The main result. After any passes, however their operations failed, a
    revert whose own operations succeed reports no error; and a revert that
    reports none restores the original tree, exactly when no row has
    forgotten a folder it moved aside.
   */
  lemma OneRevertRestoresTheTree(t0: Tree, mount: Mount, systems: seq<System>, passes: seq<System -> Faults>, stuck: System -> Stuck)
    requires Pristine(t0) && Distinct(systems) && passes != []
    ensures var (t, rows) := AfterPasses(t0, mount, systems, passes);
            var (t', errors) := RevertAll(t, mount, rows, stuck);
            && ((forall s | s in systems :: stuck(s) == Stuck(false, false)) ==> errors == 0)
            && (errors == 0 ==> (t' == t0 <==> forall i | 0 <= i < |rows| :: !Forgotten(t, rows[i])))
  {
    PassesKeepTheBooks(t0, mount, systems, passes);
    var (t, rows) := AfterPasses(t0, mount, systems, passes);
    ARevertIsPointwise(t, mount, systems, rows, stuck);
    var (t', errors) := RevertAll(t, mount, rows, stuck);
    forall i | 0 <= i < |rows|
      ensures RowFails(t, mount, rows[i], stuck) ==> stuck(systems[i]) != Stuck(false, false)
      ensures !RowFails(t, mount, rows[i], stuck) ==> (At(t', systems[i]) == At(t0, systems[i]) <==> !Forgotten(t, rows[i]))
    {
      PriorRowFinds(systems, rows, i);
      RevertOneRestores(t0, t, mount, rows[i], stuck(systems[i]));
    }
    if errors == 0 && forall i | 0 <= i < |rows| :: !Forgotten(t, rows[i]) {
      forall n: Name
        ensures Lookup(t', n) == Lookup(t0, n)
      {
        if n.s in systems {
          var i :| 0 <= i < |systems| && systems[i] == n.s;
          assert At(t', systems[i]) == At(t0, systems[i]);
        } else {
          assert At(t', n.s) == At(t0, n.s);
        }
      }
      SameTree(t', t0);
    }
  }

  /**
    A revert is not meant to be repeated: once it has put a folder back, its
    row makes every later revert of the same rows report an error.
   */
  lemma ARepeatedRevertReportsAnError(t0: Tree, mount: Mount, systems: seq<System>, passes: seq<System -> Faults>,
                                      first: System -> Stuck, second: System -> Stuck, i: nat)
    requires Pristine(t0) && Distinct(systems) && passes != [] && i < |systems|
    ensures var (t, rows) := AfterPasses(t0, mount, systems, passes);
            var (t1, _) := RevertAll(t, mount, rows, first);
            |rows| == |systems| && (rows[i].renamed && At(t1, systems[i]) == At(t0, systems[i]) ==>
              RevertAll(t1, mount, rows, second).1 > 0)
  {
    PassesKeepTheBooks(t0, mount, systems, passes);
    var (t, rows) := AfterPasses(t0, mount, systems, passes);
    var (t1, _) := RevertAll(t, mount, rows, first);
    PriorRowFinds(systems, rows, i);
    if rows[i].renamed && At(t1, systems[i]) == At(t0, systems[i]) {
      assert Lookup(t1, Own(systems[i])) == At(t0, systems[i]).own;
      ARevertIsPointwise(t1, mount, systems, rows, second);
      assert RowFails(t1, mount, rows[i], second);
    }
  }

  lemma ARepeatedRowFailsExactly(t0: Tree, t: Tree, mount: Mount, row: Row, f: Stuck)
    requires Pristine(t0) && Tracked(At(t0, row.system), At(t, row.system), mount, row.system, Some(row))
    ensures var (t1, _) := RevertOne(t, mount, row, f);
            RevertOne(t1, mount, row, Stuck(false, false)).1 <==> row.renamed && At(t1, row.system) == At(t0, row.system)
  {
  }

  lemma ARepeatedRowFailsToo(t0: Tree, t: Tree, t1: Tree, mount: Mount, row: Row, f: Stuck)
    requires Pristine(t0) && Tracked(At(t0, row.system), At(t, row.system), mount, row.system, Some(row))
    requires At(t1, row.system) == At(RevertOne(t, mount, row, f).0, row.system)
    ensures RevertOne(t1, mount, row, Stuck(false, false)).1 <==> row.renamed && At(t1, row.system) == At(t0, row.system)
  {
    ARepeatedRowFailsExactly(t0, t, mount, row, f);
    RevertOneIsLocal(t1, RevertOne(t, mount, row, f).0, mount, row, Stuck(false, false));
  }

  /** Exactly when: a second revert whose operations succeed is quiet if and only if the first put no folder back. */
  lemma ARepeatedRevertIsQuietExactly(t0: Tree, mount: Mount, systems: seq<System>, passes: seq<System -> Faults>,
                                      first: System -> Stuck, second: System -> Stuck)
    requires Pristine(t0) && Distinct(systems) && passes != [] && forall s :: second(s) == Stuck(false, false)
    ensures var (t, rows) := AfterPasses(t0, mount, systems, passes);
            var (t1, _) := RevertAll(t, mount, rows, first);
            && |rows| == |systems|
            && (RevertAll(t1, mount, rows, second).1 == 0 <==>
                forall i | 0 <= i < |rows| :: rows[i].renamed ==> At(t1, systems[i]) != At(t0, systems[i]))
  {
    PassesKeepTheBooks(t0, mount, systems, passes);
    var (t, rows) := AfterPasses(t0, mount, systems, passes);
    var (t1, _) := RevertAll(t, mount, rows, first);
    ARevertIsPointwise(t, mount, systems, rows, first);
    ARevertIsPointwise(t1, mount, systems, rows, second);
    forall i | 0 <= i < |rows|
      ensures RowFails(t1, mount, rows[i], second) <==> rows[i].renamed && At(t1, systems[i]) == At(t0, systems[i])
    {
      PriorRowFinds(systems, rows, i);
      ARepeatedRowFailsToo(t0, t, t1, mount, rows[i], first(systems[i]));
    }
  }

  // ------------------------------------------------- when a folder is forgotten

  predicate RollbackFailed(f: Faults) {
    f.link && f.rollback
  }

  ghost predicate EverStranded(passes: seq<System -> Faults>, s: System) {
    exists i :: 0 <= i < |passes| && RollbackFailed(passes[i](s))
  }

  /** No system has a failed rollback in one pass and a failed link in a later one. */
  ghost predicate NoLinkFailsAfterAFailedRollback(systems: seq<System>, passes: seq<System -> Faults>) {
    forall i, j, s | 0 <= i < j < |passes| && s in systems && RollbackFailed(passes[i](s)) :: !passes[j](s).link
  }

  lemma ApplyOneRemembers(t0: Tree, t: Tree, mount: Mount, prior: Option<Row>, s: System, f: Faults, stranded: bool)
    requires Pristine(t0) && Tracked(At(t0, s), At(t, s), mount, s, prior)
    requires Stranded(At(t0, s), At(t, s)) ==> stranded && prior.value.renamed
    requires stranded ==> !f.link
    ensures var (t', row) := ApplyOne(t, mount, prior, s, f);
            Stranded(At(t0, s), At(t', s)) ==> (stranded || RollbackFailed(f)) && row.renamed
  {
  }

  lemma {:induction false} PassesRemember(t0: Tree, mount: Mount, systems: seq<System>, passes: seq<System -> Faults>)
    requires Pristine(t0) && Distinct(systems) && NoLinkFailsAfterAFailedRollback(systems, passes)
    ensures var (t, rows) := AfterPasses(t0, mount, systems, passes);
            && Known(t0, t, mount, systems, rows)
            && forall i | 0 <= i < |systems| && Stranded(At(t0, systems[i]), At(t, systems[i])) ::
                 EverStranded(passes, systems[i]) && PriorRow(rows, systems[i]).value.renamed
  {
    PassesKeepTheBooks(t0, mount, systems, passes);
    if passes != [] {
      var n := |passes| - 1;
      PassesRemember(t0, mount, systems, passes[..n]);
      var (t1, before) := AfterPasses(t0, mount, systems, passes[..n]);
      var (t, rows) := AfterPasses(t0, mount, systems, passes);
      PassesKeepTheBooks(t0, mount, systems, passes[..n]);
      APassIsPointwise(t1, mount, before, systems, passes[n]);
      forall i | 0 <= i < |systems| && Stranded(At(t0, systems[i]), At(t, systems[i]))
        ensures EverStranded(passes, systems[i]) && PriorRow(rows, systems[i]).value.renamed
      {
        var s := systems[i];
        var earlier := EverStranded(passes[..n], s);
        if earlier {
          var j :| 0 <= j < n && RollbackFailed(passes[..n][j](s));
          assert RollbackFailed(passes[j](s));
        }
        ApplyOneRemembers(t0, t1, mount, PriorRow(before, s), s, passes[n](s), earlier);
        assert AsIfAlone(t1, mount, before, s, passes[n], At(t, s), rows[i]);
        PriorRowFinds(systems, rows, i);
      }
    }
  }

  /**
    Forgetting takes two failures in the right order. Without them, and so
    always after a single pass, the revert restores the original tree.
   */
  lemma WithoutThatOrderNothingIsForgotten(t0: Tree, mount: Mount, systems: seq<System>, passes: seq<System -> Faults>)
    requires Pristine(t0) && Distinct(systems) && passes != [] && NoLinkFailsAfterAFailedRollback(systems, passes)
    ensures var (t, rows) := AfterPasses(t0, mount, systems, passes);
            RevertAll(t, mount, rows, _ => Stuck(false, false)) == (t0, 0)
  {
    OneRevertRestoresTheTree(t0, mount, systems, passes, _ => Stuck(false, false));
    PassesKeepTheBooks(t0, mount, systems, passes);
    PassesRemember(t0, mount, systems, passes);
    var (t, rows) := AfterPasses(t0, mount, systems, passes);
    forall i | 0 <= i < |rows|
      ensures !Forgotten(t, rows[i])
    {
      var s := systems[i];
      PriorRowFinds(systems, rows, i);
      assert Tracked(At(t0, s), At(t, s), mount, s, Some(rows[i]));
      assert At(t, s) == View(Lookup(t, Own(s)), Lookup(t, Old(s)));
      assert At(t0, s) == View(Lookup(t0, Own(s)), Lookup(t0, Old(s)));
    }
  }

  /** That order does forget: the rollback of the first pass fails, then the link of the second. */
  lemma AFolderCanBeForgotten()
    ensures var t0: Tree := map[Own(0) := Local(7, false)];
            var first := (s: System) => Faults(false, true, false, true, true);
            var second := (s: System) => Faults(false, true, false, false, true);
            var (t, rows) := AfterPasses(t0, 1, [0], [first, second]);
            && t == map[Old(0) := Local(7, false)]
            && RevertAll(t, 1, rows, _ => Stuck(false, false)) == (t, 0)
  {
    var t0: Tree := map[Own(0) := Local(7, false)];
    var first := (s: System) => Faults(false, true, false, true, true);
    var second := (s: System) => Faults(false, true, false, false, true);
    var stranded: Tree := map[Old(0) := Local(7, false)];
    var kept, lost := Row(0, true, true, false), Row(0, false, false, false);
    assert (t0 - {Own(0)})[Old(0) := t0[Own(0)]] == stranded;
    assert ApplyOne(t0, 1, None, 0, first(0)) == (stranded, kept);
    assert ApplyOne(stranded, 1, Some(kept), 0, second(0)) == (stranded, lost);
    OneSystem(t0, 1, [], 0, first);
    OneSystem(stranded, 1, [kept], 0, second);
    assert [first][..0] == [] && [first, second][..1] == [first];
    assert AfterPasses(t0, 1, [0], [first]) == (stranded, [kept]);
    assert AfterPasses(t0, 1, [0], [first, second]) == (stranded, [lost]);
    assert [lost][..0] == [];
  }

  lemma OneSystem(t: Tree, mount: Mount, existing: seq<Row>, s: System, faults: System -> Faults)
    ensures var (t', row) := ApplyOne(t, mount, PriorRow(existing, s), s, faults(s));
            ApplyAll(t, mount, existing, [s], faults) == (t', [row])
  {
    var systems := [s];
    assert systems[..0] == [];
    assert ApplyAll(t, mount, existing, systems[..0], faults) == (t, []);
    var (t', row) := ApplyOne(t, mount, PriorRow(existing, s), s, faults(s));
    assert [] + [row] == [row];
  }

  // ------------------------------------------------------------- the loops

  class RomDirectory {
    var tree: Tree

    constructor (t: Tree)
      ensures tree == t
    {
      tree := t;
    }

    /** One reconciliation pass over the systems the mount exposes. */
    method ApplySystemReferences(mount: Mount, existing: seq<Row>, systems: seq<System>, faults: System -> Faults) returns (rows: seq<Row>)
      modifies this
      ensures (tree, rows) == ApplyAll(old(tree), mount, existing, systems, faults)
    {
      rows := [];
      for i := 0 to |systems|
        invariant (tree, rows) == ApplyAll(old(tree), mount, existing, systems[..i], faults)
      {
        assert systems[..i + 1][..i] == systems[..i];
        var row := ApplyToSystem(mount, PriorRow(existing, systems[i]), systems[i], faults(systems[i]));
        rows := rows + [row];
      }
      assert systems[..|systems|] == systems;
    }

    method ApplyToSystem(mount: Mount, prior: Option<Row>, s: System, f: Faults) returns (row: Row)
      modifies this
      ensures (tree, row) == ApplyOne(old(tree), mount, prior, s, f)
    {
      var target := Reference(mount, s);
      if prior.Some? && prior.value.created && Lookup(tree, Own(s)) == Some(target) {
        return prior.value;
      }
      if Lookup(tree, Own(s)) == Some(target) {
        var renamed := Exists(tree, Old(s), f.reachable);
        return Row(s, renamed, renamed, true);
      }
      if Own(s) in tree && tree[Own(s)].Reference? {
        if tree[Own(s)].mount != mount {
          return Row(s, true, false, false);
        }
        if f.unlink {
          return Row(s, false, false, false);
        }
        tree := tree - {Own(s)};
      }
      if Own(s) !in tree {
        if f.link {
          return Row(s, false, false, false);
        }
        var renamed := Exists(tree, Old(s), f.reachable);
        tree := tree[Own(s) := target];
        return Row(s, renamed, renamed, true);
      }
      if Old(s) in tree || f.rename {
        return Row(s, true, false, false);
      }
      var before := tree;
      tree := (tree - {Own(s)})[Old(s) := tree[Own(s)]];
      if f.link {
        if f.rollback {
          return Row(s, true, true, false);
        }
        tree := before;
        return Row(s, true, false, false);
      }
      tree := tree[Own(s) := target];
      row := Row(s, true, true, true);
    }

    /** Undoes what the rows record, and nothing else. */
    method RevertSystemReferences(mount: Mount, rows: seq<Row>, stuck: System -> Stuck) returns (errors: nat)
      modifies this
      ensures (tree, errors) == RevertAll(old(tree), mount, rows, stuck)
    {
      errors := 0;
      for i := 0 to |rows|
        invariant (tree, errors) == RevertAll(old(tree), mount, rows[..i], stuck)
      {
        assert rows[..i + 1][..i] == rows[..i];
        var row := rows[i];
        if row.created && Own(row.system) in tree && tree[Own(row.system)].Reference? && tree[Own(row.system)].mount == mount {
          if stuck(row.system).unlink {
            errors := errors + 1;
            continue;
          }
          tree := tree - {Own(row.system)};
        }
        if row.renamed {
          if Own(row.system) in tree {
            errors := errors + 1;
          } else if Exists(tree, Old(row.system), true) {
            if stuck(row.system).rename {
              errors := errors + 1;
            } else {
              tree := (tree - {Old(row.system)})[Own(row.system) := tree[Old(row.system)]];
            }
          }
        }
      }
      assert rows[..|rows|] == rows;
    }
  }
}
