/**
  The bind mounts below roms/ of the NFS export root
  (app/device/nfs_export_manager.py): whatever is mounted there, one pass leaves
  exactly one mount per resolved ROM system, and a second pass does nothing.
 */
module NfsMounts {
  type Source = nat                   // a directory, by device and inode
  type Name = nat

  /** A path below roms/; the empty path is roms/ itself. */
  type Path = seq<Name>

  type MountTable = map<Path, Source>

  /** Exactly the resolved systems, each bound to its own source. */
  ghost predicate Exact(table: MountTable, sources: map<Name, Source>) {
    && (forall p | p in table :: |p| == 1 && p[0] in sources && table[p] == sources[p[0]])
    && (forall n | n in sources :: [n] in table)
  }

  /** Nothing is mounted below this path. */
  predicate Uncovered(table: MountTable, p: Path) {
    forall q | q in table :: !(p < q)
  }

  method Deepest(paths: set<Path>) returns (p: Path)
    requires paths != {}
    ensures p in paths && forall q | q in paths :: |q| <= |p|
  {
    p :| p in paths;
    var left := paths - {p};
    while left != {}
      invariant p in paths && left <= paths
      invariant forall q | q in paths - left :: |q| <= |p|
      decreases left
    {
      var q :| q in left;
      left := left - {q};
      if |q| > |p| {
        p := q;
      }
    }
  }

  class RomExport {
    var table: MountTable
    var entries: set<Name>            // the directory entries of roms/
    ghost var commands: nat           // mount and umount commands issued

    constructor (table: MountTable, entries: set<Name>)
      ensures this.table == table && this.entries == entries && commands == 0
    {
      this.table, this.entries, this.commands := table, entries, 0;
    }

    /** umount, then umount -l; asked only once nothing hangs below the path. */
    method UnmountPath(p: Path) returns (ok: bool)
      requires Uncovered(table, p)
      modifies this`table, this`commands
      ensures table == if ok then old(table) - {p} else old(table)
      ensures p !in old(table) ==> ok && commands == old(commands)
    {
      if p !in table {
        return true;
      }
      commands := commands + 1;
      if * {
        return false;
      }
      table := table - {p};
      ok := true;
    }

    method EnsureBindMount(source: Source, n: Name, mounted: bool) returns (ok: bool)
      requires mounted <==> [n] in table
      requires Uncovered(table, [n])
      modifies this
      ensures ok ==> table == old(table)[[n] := source] && entries == old(entries) + {n}
      ensures !ok ==> table == old(table) || table == old(table) - {[n]}
      ensures [n] in old(table) && old(table)[[n]] == source ==> commands == old(commands) && ok
      ensures old(entries) <= entries <= old(entries) + {n}
    {
      entries := entries + {n};
      if mounted {
        if table[[n]] == source {
          assert table == table[[n] := source];
          return true;
        }
        var unmounted := UnmountPath([n]);
        if !unmounted {
          return false;
        }
      }
      commands := commands + 1;
      if * {
        return false;
      }
      table := table[[n] := source];
      ok := true;
    }

    /** A mount of the whole ROM root, left by an old version, goes first, children before parents. */
    method DropLegacyMount() returns (ok: bool)
      modifies this`table, this`commands
      ensures ok ==> table == if [] in old(table) then map[] else old(table)
      ensures table.Keys <= old(table).Keys && forall p | p in table :: table[p] == old(table)[p]
      ensures [] !in old(table) ==> ok && commands == old(commands)
    {
      if [] !in table {
        return true;
      }
      while table != map[]
        invariant table.Keys <= old(table).Keys && forall p | p in table :: table[p] == old(table)[p]
        decreases table.Keys
      {
        var p := Deepest(table.Keys);
        ok := UnmountPath(p);
        if !ok {
          return;
        }
      }
      ok := true;
    }

    /** Stale, retargeted and nested mounts go, the deepest first. */
    method DropStaleMounts(sources: map<Name, Source>) returns (ok: bool)
      requires [] !in table
      modifies this`table, this`commands
      ensures table.Keys <= old(table).Keys && forall p | p in table :: table[p] == old(table)[p]
      ensures ok ==> forall p :: p in table <==>
                p in old(table) && |p| == 1 && p[0] in sources && old(table)[p] == sources[p[0]]
      ensures Exact(old(table), sources) ==> ok && commands == old(commands)
    {
      var todo := table.Keys;
      while todo != {}
        invariant todo <= table.Keys <= old(table).Keys
        invariant forall p | p in table :: table[p] == old(table)[p]
        invariant forall p | p in old(table).Keys - todo ::
                    p in table <==> |p| == 1 && p[0] in sources && old(table)[p] == sources[p[0]]
        invariant forall p, q | p in table.Keys - todo && q in todo :: |q| <= |p|
        invariant Exact(old(table), sources) ==> table == old(table) && commands == old(commands)
        decreases todo
      {
        var p := Deepest(todo);
        todo := todo - {p};
        if |p| != 1 || p[0] !in sources || sources[p[0]] != table[p] {
          var unmounted := UnmountPath(p);
          if !unmounted {
            return false;
          }
        }
      }
      ok := true;
    }

    /** Builds roms/ from one bind mount per resolved system. */
    method EnsureResolvedRomExport(sources: map<Name, Source>) returns (ok: bool)
      modifies this
      ensures ok ==> Exact(table, sources) && entries == sources.Keys
      ensures Exact(old(table), sources) && old(entries) == sources.Keys ==> ok && commands == old(commands) && table == old(table)
      ensures forall p | p in table ::
                (p in old(table) && table[p] == old(table)[p]) || (|p| == 1 && p[0] in sources && table[p] == sources[p[0]])
    {
      ok := DropLegacyMount();
      if !ok {
        return;
      }
      ok := DropStaleMounts(sources);
      if !ok {
        return;
      }
      var foreign := entries - sources.Keys;
      if foreign != {} {
        if * {
          return false;               // an unexpected file, or a mountpoint that is not empty
        }
      }
      entries := entries - foreign;
      ok := MountMissing(sources);
    }

    method MountMissing(sources: map<Name, Source>) returns (ok: bool)
      requires forall p | p in table :: |p| == 1 && p[0] in sources && table[p] == sources[p[0]]
      requires entries <= sources.Keys
      modifies this
      ensures ok ==> Exact(table, sources) && entries == sources.Keys
      ensures forall p | p in table :: |p| == 1 && p[0] in sources && table[p] == sources[p[0]]
      ensures Exact(old(table), sources) && old(entries) == sources.Keys ==> ok && commands == old(commands) && table == old(table)
    {
      var todo := sources.Keys;
      while todo != {}
        invariant todo <= sources.Keys
        invariant sources.Keys - todo <= entries <= sources.Keys
        invariant forall p | p in table :: |p| == 1 && p[0] in sources && table[p] == sources[p[0]]
        invariant forall n | n in sources.Keys - todo :: [n] in table
        invariant Exact(old(table), sources) && old(entries) == sources.Keys ==> commands == old(commands) && table == old(table)
        decreases todo
      {
        var n :| n in todo;
        todo := todo - {n};
        ghost var before := table;
        ok := EnsureBindMount(sources[n], n, [n] in table);
        if !ok {
          return;
        }
        assert Exact(old(table), sources) && before == old(table) ==> table == before;
      }
      ok := true;
    }
  }
}
