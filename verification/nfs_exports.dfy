/**
  Who may mount this Drone's library (app/device/nfs_export_manager.py): a stored
  table of authorized addresses that must own every grant the kernel has live,
  although every exportfs call may fail.
 */
module NfsExports {
  type Address = nat
  type Peer = nat

  datatype ExportPath = Root | Roms | Bios

  /** One exportfs entry for one client. */
  datatype Grant = Grant(address: Address, path: ExportPath)

  datatype Status = Authorizing | Active | Failed

  datatype Record = Record(addresses: seq<Address>, status: Status)

  /** The stored records, the kernel's grants, and whether the ROM and BIOS bind mounts exist. */
  datatype Table = Table(peers: map<Peer, Record>, grants: set<Grant>, binds: bool)

  datatype Authorization = Rejected | Authorized | ExportFailed | RetireFailed
  datatype Revocation = NotFound | Revoked | RevokeFailed

  /** One exportfs call: what it reports, and whether it takes effect although it reports failure. */
  datatype Reply = Reply(ok: bool, effect: bool)

  /** What the calls of one operation meet. */
  datatype Luck = Luck(
    root: bool,                                          // the export root and its bind mounts can be built
    exports: (Peer, Address, ExportPath) -> Reply,
    raises: (Peer, Address, ExportPath) -> bool,         // a failed export is a timeout, which skips the rollback
    rollbacks: (Peer, Address, ExportPath) -> bool,      // undoing an export takes effect
    unexports: (Address, ExportPath) -> Reply,
    listing: Address -> bool,                            // the kernel's listing can be read
    unmounts: bool,
    binds: bool)                                         // bind mounts that an unfinished step leaves

  const SPECS: seq<ExportPath> := [Root, Roms, Bios]

  function SetOf(s: seq<Address>): set<Address> {
    set a | a in s
  }

  function Listed(peers: map<Peer, Record>): set<Address> {
    set id, a | id in peers && a in peers[id].addresses :: a
  }

  function Elsewhere(peers: map<Peer, Record>, id: Peer): set<Address> {
    set other, a | other in peers && other != id && a in peers[other].addresses :: a
  }

  function AddressesOf(peers: map<Peer, Record>, id: Peer): set<Address> {
    if id in peers then SetOf(peers[id].addresses) else {}
  }

  function Live(grants: set<Grant>): set<Address> {
    set g | g in grants :: g.address
  }

  /** Every address the kernel still serves is listed in some stored record. */
  predicate Owned(t: Table) {
    Live(t.grants) <= Listed(t.peers)
  }

  // ------------------------------------------------------------- one client

  function RolledBack(grants: set<Grant>, id: Peer, a: Address, done: nat, l: Luck): set<Grant>
    requires done <= |SPECS|
  {
    set g | g in grants && !(g.address == a && g.path in SPECS[..done] && l.rollbacks(id, a, g.path))
  }

  function ExportPaths(grants: set<Grant>, id: Peer, a: Address, i: nat, l: Luck): (set<Grant>, bool)
    requires i <= |SPECS|
    decreases |SPECS| - i
  {
    if i == |SPECS| then (grants, true)
    else
      var reply := l.exports(id, a, SPECS[i]);
      var after := if reply.ok || reply.effect then grants + {Grant(a, SPECS[i])} else grants;
      if reply.ok then ExportPaths(after, id, a, i + 1, l)
      else (if l.raises(id, a, SPECS[i]) then after else RolledBack(after, id, a, i, l), false)
  }

  /** All addresses of one Drone, up to the first that fails. */
  function ExportEach(grants: set<Grant>, id: Peer, addresses: seq<Address>, l: Luck): (set<Grant>, bool)
    decreases |addresses|
  {
    if addresses == [] then (grants, true)
    else
      var (after, ok) := ExportPaths(grants, id, addresses[0], 0, l);
      if ok then ExportEach(after, id, addresses[1..], l) else (after, false)
  }

  /** Every path of every one of these clients is tried. */
  function Withdraw(grants: set<Grant>, addresses: set<Address>, l: Luck): set<Grant> {
    set g | g in grants && !(g.address in addresses
                             && (l.unexports(g.address, g.path).ok || l.unexports(g.address, g.path).effect))
  }

  predicate Resists(a: Address, l: Luck) {
    exists p | p in SPECS :: !l.unexports(a, p).ok
  }

  function StuckOf(addresses: set<Address>, l: Luck): set<Address> {
    set a | a in addresses && Resists(a, l)
  }

  function Least(s: set<Address>): (a: Address)
    requires s != {}
    ensures a in s
  {
    HasLeast(s);
    var a :| a in s && forall b | b in s :: a <= b;
    a
  }

  lemma HasLeast(s: set<Address>)
    requires s != {}
    ensures exists a :: a in s && forall b | b in s :: a <= b
  {
    var x :| x in s;
    HasLeastFrom(s, x);
  }

  lemma {:induction false} HasLeastFrom(s: set<Address>, x: Address)
    requires x in s
    ensures exists a :: a in s && forall b | b in s :: a <= b
    decreases x
  {
    if y :| y in s && y < x {
      HasLeastFrom(s, y);
    }
  }

  function Sorted(s: set<Address>): (r: seq<Address>)
    ensures SetOf(r) == s && (r == [] <==> s == {})
    decreases s
  {
    if s == {} then []
    else
      var a := Least(s);
      var rest := Sorted(s - {a});
      assert SetOf([a] + rest) == {a} + SetOf(rest);
      [a] + rest
  }

  // -------------------------------------------------------------- operations

  function Retired(t: Table, id: Peer, addresses: seq<Address>): set<Address> {
    AddressesOf(t.peers, id) - SetOf(addresses) - Elsewhere(t.peers, id)
  }

  /** The record is overwritten before anything is exported. */
  function Authorize(t: Table, id: Peer, addresses: seq<Address>, l: Luck): (Table, Authorization) {
    if addresses == [] then (t, Rejected)
    else if !l.root then (Table(t.peers[id := Record(addresses, Failed)], t.grants, l.binds), ExportFailed)
    else
      var (grants, ok) := ExportEach(t.grants, id, addresses, l);
      if !ok then (Table(t.peers[id := Record(addresses, Failed)], grants, true), ExportFailed)
      else RetirePrior(t, grants, id, addresses, l)
  }

  /** Withdraws the addresses the record no longer needs; one that resists goes back into the record. */
  function RetirePrior(t: Table, grants: set<Grant>, id: Peer, addresses: seq<Address>, l: Luck): (Table, Authorization) {
    var retired := Retired(t, id, addresses);
    var kept := Sorted(StuckOf(retired, l));
    var status := if kept == [] then Active else Failed;
    (Table(t.peers[id := Record(addresses + kept, status)], Withdraw(grants, retired, l), true),
     if kept == [] then Authorized else RetireFailed)
  }

  function MarkFailed(peers: map<Peer, Record>, id: Peer): map<Peer, Record>
    requires id in peers
  {
    peers[id := peers[id].(status := Failed)]
  }

  /** Withdraws what only this record lists; the record goes unless something resisted. */
  function Drop(t: Table, id: Peer, l: Luck): Table
    requires id in t.peers
  {
    var own := AddressesOf(t.peers, id) - Elsewhere(t.peers, id);
    Table(if StuckOf(own, l) != {} then MarkFailed(t.peers, id) else t.peers - {id}, Withdraw(t.grants, own, l), t.binds)
  }

  function Revoke(t: Table, id: Peer, l: Luck): (Table, Revocation) {
    if id !in t.peers then (t, NotFound)
    else
      var after := Drop(t, id, l);
      if id in after.peers then (after, RevokeFailed)
      else (if after.peers == map[] then after.(binds := t.binds && l.binds) else after, Revoked)
  }

  /** The Drones in the order the table lists them. */
  function DropUnpaired(t: Table, paired: set<Peer>, order: seq<Peer>, l: Luck): Table {
    if order == [] then t
    else
      var before := DropUnpaired(t, paired, order[..|order| - 1], l);
      var id := order[|order| - 1];
      if id in paired || id !in before.peers then before else Drop(before, id, l)
  }

  function ReplayOne(t: Table, id: Peer, l: Luck): Table
    requires id in t.peers
  {
    var (grants, ok) := ExportEach(t.grants, id, t.peers[id].addresses, l);
    t.(peers := t.peers[id := t.peers[id].(status := if ok then Active else Failed)], grants := grants)
  }

  function ReplayExports(t: Table, paired: set<Peer>, order: seq<Peer>, l: Luck): Table {
    if order == [] then t
    else
      var before := ReplayExports(t, paired, order[..|order| - 1], l);
      var id := order[|order| - 1];
      if id in paired && id in before.peers then ReplayOne(before, id, l) else before
  }

  function AllFailed(peers: map<Peer, Record>): map<Peer, Record> {
    map id | id in peers :: peers[id].(status := Failed)
  }

  function Restore(t: Table, paired: set<Peer>, order: seq<Peer>, l: Luck): Table {
    if t.peers == map[] then t
    else
      var left := DropUnpaired(t, paired, order, l);
      if left.peers.Keys !! paired then left.(binds := left.binds && l.binds)
      else if !l.root then Table(AllFailed(left.peers), left.grants, l.binds)
      else ReplayExports(left.(binds := true), paired, order, l)
  }

  /** The kernel's own listing excuses a failed call only where it shows that nothing is left. */
  predicate StillServed(a: Address, grants: set<Grant>, l: Luck) {
    Resists(a, l) && (!l.listing(a) || a in Live(grants))
  }

  function ChangeIdentity(t: Table, l: Luck): (Table, bool) {
    var grants := Withdraw(t.grants, Listed(t.peers), l);
    if exists a | a in Listed(t.peers) :: StillServed(a, grants, l) then (t.(grants := grants), false)
    else if !l.unmounts then (t.(grants := grants, binds := t.binds && l.binds), false)
    else (t.(grants := grants, binds := false), true)
  }

  function Cleanup(t: Table, l: Luck): (Table, bool) {
    var cleaned := StuckOf(Listed(t.peers), l) == {};
    (Table(if cleaned then map[] else t.peers, Withdraw(t.grants, Listed(t.peers), l), t.binds && l.binds), cleaned)
  }

  datatype Operation =
    | Admit(id: Peer, addresses: seq<Address>)
    | Expel(id: Peer)
    | Reload(paired: set<Peer>, order: seq<Peer>)
    | Reidentify
    | Uninstall

  function Step(t: Table, op: Operation, l: Luck): Table {
    match op
    case Admit(id, addresses) => Authorize(t, id, addresses, l).0
    case Expel(id) => Revoke(t, id, l).0
    case Reload(paired, order) => Restore(t, paired, order, l)
    case Reidentify => ChangeIdentity(t, l).0
    case Uninstall => Cleanup(t, l).0
  }

  function Run(t: Table, steps: seq<(Operation, Luck)>): Table {
    if steps == [] then t
    else Step(Run(t, steps[..|steps| - 1]), steps[|steps| - 1].0, steps[|steps| - 1].1)
  }

  // ------------------------------------------------------------------ listing

  lemma ListedSplits(peers: map<Peer, Record>, id: Peer)
    ensures Listed(peers) == Elsewhere(peers, id) + AddressesOf(peers, id)
  {
    forall a | a in Listed(peers)
      ensures a in Elsewhere(peers, id) + AddressesOf(peers, id)
    {
      var owner :| owner in peers && a in peers[owner].addresses;
    }
  }

  lemma ElsewhereIgnores(peers: map<Peer, Record>, id: Peer, r: Record)
    ensures Elsewhere(peers[id := r], id) == Elsewhere(peers, id)
    ensures Listed(peers - {id}) == Elsewhere(peers, id)
  {
    forall a | a in Elsewhere(peers, id)
      ensures a in Listed(peers - {id}) && a in Elsewhere(peers[id := r], id)
    {
      var other :| other in peers && other != id && a in peers[other].addresses;
      assert other in peers - {id} && (peers - {id})[other] == peers[other];
      assert other in peers[id := r] && peers[id := r][other] == peers[other];
    }
  }

  lemma SameAddressesSameListing(peers: map<Peer, Record>, updated: map<Peer, Record>)
    requires peers.Keys == updated.Keys
    requires forall id | id in peers :: peers[id].addresses == updated[id].addresses
    ensures Listed(peers) == Listed(updated)
  {
  }

  lemma WithdrawnOrStuck(grants: set<Grant>, addresses: set<Address>, l: Luck)
    ensures Live(Withdraw(grants, addresses, l)) <= Live(grants)
    ensures Live(Withdraw(grants, addresses, l)) * addresses <= StuckOf(addresses, l)
  {
    forall g | g in Withdraw(grants, addresses, l) && g.address in addresses
      ensures Resists(g.address, l)
    {
      assert g.path == SPECS[0] || g.path == SPECS[1] || g.path == SPECS[2];
    }
  }

  lemma StuckExactly(addresses: set<Address>, l: Luck)
    ensures StuckOf(addresses, l) != {} <==> exists a, p | a in addresses && p in SPECS :: !l.unexports(a, p).ok
  {
    if a, p :| a in addresses && p in SPECS && !l.unexports(a, p).ok {
      assert a in StuckOf(addresses, l);
    }
    if StuckOf(addresses, l) != {} {
      var a :| a in StuckOf(addresses, l);
      assert a in addresses && Resists(a, l);
    }
  }

  lemma NothingLive(grants: set<Grant>)
    requires Live(grants) == {}
    ensures grants == {}
  {
    assert forall g | g in grants :: g.address in Live(grants);
  }

  // --------------------------------------------------------------- exporting

  ghost predicate OthersKept(before: set<Grant>, after: set<Grant>, touched: set<Address>) {
    forall g: Grant | g.address !in touched :: g in after <==> g in before
  }

  /** Every path is granted, or what was granted is undone as far as that works; no other client is touched. */
  lemma {:induction false} ExportingOne(grants: set<Grant>, id: Peer, a: Address, i: nat, l: Luck)
    requires i <= |SPECS|
    ensures var (after, ok) := ExportPaths(grants, id, a, i, l);
            && OthersKept(grants, after, {a})
            && (ok ==> after == grants + set p | p in SPECS[i..] :: Grant(a, p))
    decreases |SPECS| - i
  {
    if i < |SPECS| && l.exports(id, a, SPECS[i]).ok {
      ExportingOne(grants + {Grant(a, SPECS[i])}, id, a, i + 1, l);
      assert SPECS[i..] == [SPECS[i]] + SPECS[i + 1..];
    }
  }

  /** The first call that fails at position k, counted from i. */
  ghost predicate FailsAt(id: Peer, a: Address, i: nat, k: nat, l: Luck) {
    i <= k < |SPECS| && !l.exports(id, a, SPECS[k]).ok && forall m | i <= m < k :: l.exports(id, a, SPECS[m]).ok
  }

  /** A failed export is undone as far as undoing works; a call that timed out leaves what was granted before it. */
  lemma {:induction false} AFailedExportIsUndone(grants: set<Grant>, id: Peer, a: Address, i: nat, k: nat, l: Luck)
    requires FailsAt(id, a, i, k, l)
    requires forall m | 0 <= m < i :: Grant(a, SPECS[m]) in grants
    ensures var (after, ok) := ExportPaths(grants, id, a, i, l);
            && !ok
            && forall m | 0 <= m < k ::
                 Grant(a, SPECS[m]) in after <==> l.raises(id, a, SPECS[k]) || !l.rollbacks(id, a, SPECS[m])
    decreases |SPECS| - i
  {
    if i < k {
      AFailedExportIsUndone(grants + {Grant(a, SPECS[i])}, id, a, i + 1, k, l);
    } else {
      var reply := l.exports(id, a, SPECS[i]);
      var after := if reply.effect then grants + {Grant(a, SPECS[i])} else grants;
      forall m | 0 <= m < k
        ensures Grant(a, SPECS[m]) in RolledBack(after, id, a, i, l) <==> !l.rollbacks(id, a, SPECS[m])
      {
        assert SPECS[m] == SPECS[..i][m];
      }
    }
  }

  lemma {:induction false} ExportingEach(grants: set<Grant>, id: Peer, addresses: seq<Address>, l: Luck)
    ensures var (after, ok) := ExportEach(grants, id, addresses, l);
            && OthersKept(grants, after, SetOf(addresses))
            && (ok ==> grants <= after && forall a, p | a in addresses && p in SPECS :: Grant(a, p) in after)
    decreases |addresses|
  {
    if addresses != [] {
      ExportingOne(grants, id, addresses[0], 0, l);
      var (after, ok) := ExportPaths(grants, id, addresses[0], 0, l);
      assert SPECS[0..] == SPECS;
      if ok {
        ExportingEach(after, id, addresses[1..], l);
      }
    }
  }

  lemma OnlyTheseAreNew(before: set<Grant>, after: set<Grant>, touched: set<Address>)
    requires OthersKept(before, after, touched)
    ensures Live(after) <= Live(before) + touched
  {
    forall g | g in after && g.address !in touched
      ensures g.address in Live(before)
    {
      assert g in before;
    }
  }

  // ------------------------------------------------------------- authorizing

  lemma AuthorizeOutcome(t: Table, id: Peer, addresses: seq<Address>, l: Luck)
    ensures var (after, outcome) := Authorize(t, id, addresses, l);
            && (outcome == Rejected <==> addresses == [])
            && (outcome == Rejected ==> after == t)
            && (outcome != Rejected ==> id in after.peers && after.peers == t.peers[id := after.peers[id]])
            && (outcome == Authorized ==> after.peers[id] == Record(addresses, Active))
            && (outcome in {ExportFailed, RetireFailed} ==> after.peers[id].status == Failed && addresses <= after.peers[id].addresses)
            && (outcome == ExportFailed ==> after.peers[id].addresses == addresses)
            && (outcome != Rejected ==> SetOf(after.peers[id].addresses) <= SetOf(addresses) + AddressesOf(t.peers, id))
            && (outcome != Rejected && l.root ==> after.binds)
  {
    if addresses != [] && l.root && ExportEach(t.grants, id, addresses, l).1 {
      var kept := Sorted(StuckOf(Retired(t, id, addresses), l));
      assert SetOf(addresses + kept) == SetOf(addresses) + SetOf(kept);
    }
  }

  lemma AuthorizeGrants(t: Table, id: Peer, addresses: seq<Address>, l: Luck)
    ensures var (after, outcome) := Authorize(t, id, addresses, l);
            && (outcome == Authorized ==> forall a, p | a in addresses && p in SPECS :: Grant(a, p) in after.grants)
            && (outcome == Authorized ==> Live(after.grants) * Retired(t, id, addresses) == {})
            && (outcome == ExportFailed ==> OthersKept(t.grants, after.grants, SetOf(addresses)))
            && OthersKept(t.grants, after.grants, SetOf(addresses) + Retired(t, id, addresses))
  {
    ExportingEach(t.grants, id, addresses, l);
    if addresses != [] && l.root && ExportEach(t.grants, id, addresses, l).1 {
      WithdrawnOrStuck(ExportEach(t.grants, id, addresses, l).0, Retired(t, id, addresses), l);
    }
  }

  lemma AuthorizeKeepsOwnership(t: Table, id: Peer, addresses: seq<Address>, l: Luck)
    requires Owned(t)
    ensures var (after, outcome) := Authorize(t, id, addresses, l);
            Owned(after) <==>
              outcome != ExportFailed
              || Live(t.grants) * AddressesOf(t.peers, id) <= SetOf(addresses) + Elsewhere(t.peers, id)
  {
    var (after, outcome) := Authorize(t, id, addresses, l);
    if addresses != [] {
      AuthorizeGrants(t, id, addresses, l);
      AuthorizeOutcome(t, id, addresses, l);
      ElsewhereIgnores(t.peers, id, after.peers[id]);
      if outcome == ExportFailed {
        OrphanedOrOwned(t, after, id, SetOf(addresses));
      } else {
        ExportingEach(t.grants, id, addresses, l);
        var grants := ExportEach(t.grants, id, addresses, l).0;
        OnlyTheseAreNew(t.grants, grants, SetOf(addresses));
        WithdrawnOrStuck(grants, Retired(t, id, addresses), l);
        RetiredStaysOwned(t, id, addresses, Sorted(StuckOf(Retired(t, id, addresses), l)), after);
      }
    }
  }

  /** An address that could not be retired stays listed with the record. */
  lemma RetiredStaysOwned(t: Table, id: Peer, addresses: seq<Address>, kept: seq<Address>, after: Table)
    requires Owned(t) && id in after.peers && after.peers == t.peers[id := after.peers[id]]
    requires after.peers[id].addresses == addresses + kept
    requires Live(after.grants) <= Live(t.grants) + SetOf(addresses)
    requires Live(after.grants) * Retired(t, id, addresses) <= SetOf(kept)
    ensures Owned(after)
  {
    ElsewhereIgnores(t.peers, id, after.peers[id]);
    ListedSplits(t.peers, id);
    ListedSplits(after.peers, id);
    forall a | a in Live(after.grants)
      ensures a in Listed(after.peers)
    {
      if a !in addresses && a !in Elsewhere(t.peers, id) {
        assert a in Live(after.grants) * Retired(t, id, addresses);
        assert a in SetOf(kept);
      }
    }
  }

  /** After a failed export, ownership hangs on the old live addresses of the Drone being authorized. */
  lemma OrphanedOrOwned(t: Table, after: Table, id: Peer, wanted: set<Address>)
    requires Owned(t) && OthersKept(t.grants, after.grants, wanted)
    requires AddressesOf(after.peers, id) == wanted && Elsewhere(after.peers, id) == Elsewhere(t.peers, id)
    ensures Owned(after) <==> Live(t.grants) * AddressesOf(t.peers, id) <= wanted + Elsewhere(t.peers, id)
  {
    ListedSplits(t.peers, id);
    ListedSplits(after.peers, id);
    OnlyTheseAreNew(t.grants, after.grants, wanted);
    if Owned(after) {
      forall a | a in Live(t.grants) * AddressesOf(t.peers, id)
        ensures a in wanted + Elsewhere(t.peers, id)
      {
        var g :| g in t.grants && g.address == a;
        if a !in wanted {
          assert g in after.grants && a in Live(after.grants);
        }
      }
    }
    if Live(t.grants) * AddressesOf(t.peers, id) <= wanted + Elsewhere(t.peers, id) {
      OldAddressesAreCovered(Live(after.grants), Live(t.grants), AddressesOf(t.peers, id), wanted, Elsewhere(t.peers, id));
    }
  }

  lemma OldAddressesAreCovered(live: set<Address>, live0: set<Address>, own: set<Address>, wanted: set<Address>, shared: set<Address>)
    requires live <= live0 + wanted && live0 <= shared + own && live0 * own <= wanted + shared
    ensures live <= shared + wanted
  {
    forall a | a in live
      ensures a in shared + wanted
    {
      assert a in live0 * own ==> a in wanted + shared;
    }
  }

  // ----------------------------------------------------- revoking, restoring

  /** What is withdrawn was listed by this record alone; the record goes only when nothing of it is left. */
  lemma DropIsRight(t: Table, id: Peer, l: Luck)
    requires id in t.peers
    ensures var after := Drop(t, id, l);
            && (after.peers == t.peers - {id} || after.peers == MarkFailed(t.peers, id))
            && (id !in after.peers ==> Live(after.grants) * (AddressesOf(t.peers, id) - Elsewhere(t.peers, id)) == {})
            && after.grants <= t.grants
            && (forall g | g in t.grants && g !in after.grants ::
                  g.address in t.peers[id].addresses && g.address !in Elsewhere(t.peers, id))
            && (Owned(t) ==> Owned(after))
  {
    var after := Drop(t, id, l);
    var own := AddressesOf(t.peers, id) - Elsewhere(t.peers, id);
    WithdrawnOrStuck(t.grants, own, l);
    ListedSplits(t.peers, id);
    if id in after.peers {
      SameAddressesSameListing(t.peers, after.peers);
    } else if Owned(t) {
      ElsewhereIgnores(t.peers, id, t.peers[id]);
      forall a | a in Live(after.grants)
        ensures a in Elsewhere(t.peers, id)
      {
        assert a !in Live(after.grants) * own;
      }
    }
  }

  /** A revocation reports what became of the record; with the last one the bind mounts go, if they can. */
  lemma RevokeIsRight(t: Table, id: Peer, l: Luck)
    ensures var (after, outcome) := Revoke(t, id, l);
            && (outcome == NotFound <==> id !in t.peers)
            && (outcome == NotFound ==> after == t)
            && (outcome == RevokeFailed <==>
                id in t.peers && exists a, p | a in t.peers[id].addresses && p in SPECS ::
                  a !in Elsewhere(t.peers, id) && !l.unexports(a, p).ok)
            && (outcome == RevokeFailed ==> after.peers == MarkFailed(t.peers, id))
            && (outcome == Revoked ==> after.peers == t.peers - {id})
            && (after.binds <==> t.binds && (outcome == Revoked && t.peers.Keys == {id} ==> l.binds))
  {
    if id in t.peers {
      DropIsRight(t, id, l);
      StuckExactly(AddressesOf(t.peers, id) - Elsewhere(t.peers, id), l);
      var after := Drop(t, id, l);
      if after.peers == t.peers - {id} {
        assert after.peers.Keys == t.peers.Keys - {id};
        assert after.peers == map[] <==> after.peers.Keys == {};
      }
    }
  }

  /** A table whose records are some of the earlier ones, as far as addresses go. */
  ghost predicate Remains(t: Table, after: Table) {
    after.peers.Keys <= t.peers.Keys && forall id | id in after.peers :: after.peers[id].addresses == t.peers[id].addresses
  }

  /** A grant that some remaining record lists is lost only where an unpaired record alone listed it. */
  ghost predicate LostToTheUnpaired(t: Table, after: Table, paired: set<Peer>) {
    forall g, id | g in t.grants && g !in after.grants && id in after.peers && g.address in after.peers[id].addresses ::
      id !in paired && forall other | other in after.peers && g.address in after.peers[other].addresses :: other == id
  }

  lemma DropLoses(t: Table, before: Table, paired: set<Peer>, id: Peer, l: Luck)
    requires id in before.peers && id !in paired && Remains(t, before) && LostToTheUnpaired(t, before, paired)
    ensures LostToTheUnpaired(t, Drop(before, id, l), paired)
  {
    var after := Drop(before, id, l);
    DropIsRight(before, id, l);
    forall g, who | g in t.grants && g !in after.grants && who in after.peers && g.address in after.peers[who].addresses
      ensures who !in paired && forall other | other in after.peers && g.address in after.peers[other].addresses :: other == who
    {
      assert who in before.peers && g.address in before.peers[who].addresses;
      if g in before.grants {
        forall other | other in after.peers && g.address in after.peers[other].addresses
          ensures other == id
        {
          assert other in before.peers && before.peers[other].addresses == after.peers[other].addresses;
        }
      }
    }
  }

  lemma {:induction false} DropUnpairedIsRight(t: Table, paired: set<Peer>, order: seq<Peer>, l: Luck)
    ensures var after := DropUnpaired(t, paired, order, l);
            && Remains(t, after)
            && (forall id | id in t.peers && id in paired :: id in after.peers && after.peers[id] == t.peers[id])
            && (forall id | id in after.peers && id !in paired && id in order :: after.peers[id].status == Failed)
            && after.grants <= t.grants
            && LostToTheUnpaired(t, after, paired)
            && (Owned(t) ==> Owned(after))
  {
    if order != [] {
      var n := |order| - 1;
      DropUnpairedIsRight(t, paired, order[..n], l);
      var before := DropUnpaired(t, paired, order[..n], l);
      assert order == order[..n] + [order[n]];
      if order[n] !in paired && order[n] in before.peers {
        DropIsRight(before, order[n], l);
        DropLoses(t, before, paired, order[n], l);
      }
    }
  }

  lemma ReplayOneIsRight(t: Table, id: Peer, l: Luck)
    requires id in t.peers
    ensures var after := ReplayOne(t, id, l);
            && Remains(t, after) && after.peers.Keys == t.peers.Keys
            && (t.grants <= after.grants || after.peers[id].status == Failed)
            && OthersKept(t.grants, after.grants, AddressesOf(t.peers, id))
            && (after.peers[id].status == Active ==>
                  forall a, p | a in after.peers[id].addresses && p in SPECS :: Grant(a, p) in after.grants)
            && (Owned(t) ==> Owned(after))
  {
    var after := ReplayOne(t, id, l);
    ExportingEach(t.grants, id, t.peers[id].addresses, l);
    OnlyTheseAreNew(t.grants, after.grants, AddressesOf(t.peers, id));
    SameAddressesSameListing(t.peers, after.peers);
    ListedSplits(t.peers, id);
  }

  /** A live grant that paired records list only goes where one that lists it is marked failed. */
  ghost predicate LossesAreMarked(before: set<Grant>, after: Table, paired: set<Peer>) {
    forall g, id | g in before && g !in after.grants && id in paired && id in after.peers && g.address in after.peers[id].addresses ::
      MarkedFor(g, after, paired)
  }

  ghost predicate MarkedFor(g: Grant, t: Table, paired: set<Peer>) {
    exists id :: id in paired && id in t.peers && g.address in t.peers[id].addresses && t.peers[id].status == Failed
  }

  /** Every lost grant belongs to a record of these that is marked failed. */
  ghost predicate EachLossIsMarked(before: set<Grant>, after: Table, ids: set<Peer>) {
    forall g | g in before && g !in after.grants :: MarkedFor(g, after, ids)
  }

  lemma ReplayMarks(t: Table, before: Table, done: set<Peer>, id: Peer, l: Luck)
    requires id in before.peers && id !in done && EachLossIsMarked(t.grants, before, done)
    ensures EachLossIsMarked(t.grants, ReplayOne(before, id, l), done + {id})
  {
    var after := ReplayOne(before, id, l);
    ReplayOneIsRight(before, id, l);
    forall g | g in t.grants && g !in after.grants
      ensures MarkedFor(g, after, done + {id})
    {
      if g in before.grants {
        assert g.address in AddressesOf(before.peers, id);
        assert id in after.peers && after.peers[id].status == Failed;
      } else {
        var who :| who in done && who in before.peers && g.address in before.peers[who].addresses && before.peers[who].status == Failed;
        assert after.peers[who] == before.peers[who];
      }
    }
  }

  ghost predicate NoRepeats(order: seq<Peer>) {
    forall i, j | 0 <= i < j < |order| :: order[i] != order[j]
  }

  lemma {:induction false} ReplayIsRight(t: Table, paired: set<Peer>, order: seq<Peer>, l: Luck)
    ensures var after := ReplayExports(t, paired, order, l);
            && Remains(t, after) && after.peers.Keys == t.peers.Keys
            && (forall id | id in t.peers && (id !in paired || id !in order) :: after.peers[id] == t.peers[id])
  {
    if order != [] {
      var n := |order| - 1;
      ReplayIsRight(t, paired, order[..n], l);
      assert order == order[..n] + [order[n]];
    }
  }

  function PairedIn(order: seq<Peer>, paired: set<Peer>): set<Peer> {
    set id | id in order && id in paired
  }

  lemma {:induction false} EveryReplayMarks(t: Table, paired: set<Peer>, order: seq<Peer>, l: Luck)
    requires NoRepeats(order)
    ensures EachLossIsMarked(t.grants, ReplayExports(t, paired, order, l), PairedIn(order, paired))
  {
    if order != [] {
      var n := |order| - 1;
      var id := order[n];
      EveryReplayMarks(t, paired, order[..n], l);
      var before := ReplayExports(t, paired, order[..n], l);
      assert order == order[..n] + [id] && id !in order[..n];
      var done := PairedIn(order[..n], paired);
      if id in paired && id in before.peers {
        ReplayMarks(t, before, done, id, l);
        assert done + {id} == PairedIn(order, paired);
      } else {
        MoreMarks(t.grants, before, done, PairedIn(order, paired));
      }
    }
  }

  lemma MoreMarks(before: set<Grant>, after: Table, ids: set<Peer>, more: set<Peer>)
    requires EachLossIsMarked(before, after, ids) && ids <= more
    ensures EachLossIsMarked(before, after, more)
  {
    forall g | g in before && g !in after.grants
      ensures MarkedFor(g, after, more)
    {
      assert MarkedFor(g, after, ids);
    }
  }

  lemma {:induction false} ReplayKeepsOwnership(t: Table, paired: set<Peer>, order: seq<Peer>, l: Luck)
    requires Owned(t)
    ensures Owned(ReplayExports(t, paired, order, l))
  {
    if order != [] {
      ReplayKeepsOwnership(t, paired, order[..|order| - 1], l);
      var before := ReplayExports(t, paired, order[..|order| - 1], l);
      if order[|order| - 1] in before.peers {
        ReplayOneIsRight(before, order[|order| - 1], l);
      }
    }
  }

  /** Replaying keeps every paired record, and marks one where a listed grant is lost. */
  lemma RestoreIsRight(t: Table, paired: set<Peer>, order: seq<Peer>, l: Luck)
    requires NoRepeats(order)
    ensures var after := Restore(t, paired, order, l);
            && Remains(t, after)
            && (forall id | id in t.peers && id in paired :: id in after.peers)
            && (forall id | id in after.peers && id !in paired && id in order :: after.peers[id].status == Failed)
            && LossesAreMarked(t.grants, after, paired)
  {
    if t.peers != map[] {
      var left := DropUnpaired(t, paired, order, l);
      DropUnpairedIsRight(t, paired, order, l);
      if left.peers.Keys !! paired || !l.root {
        RestoreStopsEarly(t, left, paired);
      } else {
        ReplayIsRight(left.(binds := true), paired, order, l);
        EveryReplayMarks(left.(binds := true), paired, order, l);
        RestoreReplays(t, left, Restore(t, paired, order, l), paired, PairedIn(order, paired));
      }
    }
  }

  // ------------------------------------------------ what a replay brings back

  /** Every export of these addresses succeeds. */
  predicate AllExport(id: Peer, addresses: seq<Address>, l: Luck) {
    forall a, p | a in addresses && p in SPECS :: l.exports(id, a, p).ok
  }

  lemma {:induction false} PathsExport(grants: set<Grant>, id: Peer, a: Address, i: nat, l: Luck)
    requires i <= |SPECS|
    ensures ExportPaths(grants, id, a, i, l).1 <==> forall p | p in SPECS[i..] :: l.exports(id, a, p).ok
    decreases |SPECS| - i
  {
    if i < |SPECS| {
      assert SPECS[i..] == [SPECS[i]] + SPECS[i + 1..];
      PathsExport(grants + {Grant(a, SPECS[i])}, id, a, i + 1, l);
    }
  }

  lemma {:induction false} AddressesExport(grants: set<Grant>, id: Peer, addresses: seq<Address>, l: Luck)
    ensures ExportEach(grants, id, addresses, l).1 <==> AllExport(id, addresses, l)
    decreases |addresses|
  {
    if addresses != [] {
      PathsExport(grants, id, addresses[0], 0, l);
      assert SPECS[0..] == SPECS;
      assert addresses == [addresses[0]] + addresses[1..];
      AddressesExport(ExportPaths(grants, id, addresses[0], 0, l).0, id, addresses[1..], l);
    }
  }

  ghost predicate Serves(t: Table, id: Peer)
    requires id in t.peers
  {
    forall a, p | a in t.peers[id].addresses && p in SPECS :: Grant(a, p) in t.grants
  }

  /** An active record has all its grants, unless one that shares an address with it is marked failed. */
  ghost predicate ServedOrMarked(t: Table, id: Peer, ids: set<Peer>)
    requires id in t.peers
  {
    forall a, p | a in t.peers[id].addresses && p in SPECS :: Grant(a, p) in t.grants || MarkedFor(Grant(a, p), t, ids)
  }

  /** What a replay of these records has done to each of them. */
  ghost predicate Brought(t: Table, after: Table, ids: set<Peer>, l: Luck) {
    forall id | id in ids && id in t.peers ::
      && id in after.peers
      && (after.peers[id].status == Active <==> AllExport(id, t.peers[id].addresses, l))
      && (after.peers[id].status == Failed <==> !AllExport(id, t.peers[id].addresses, l))
      && (after.peers[id].status == Active ==> ServedOrMarked(after, id, ids))
  }

  lemma ReplayBrings(t: Table, before: Table, done: set<Peer>, id: Peer, l: Luck)
    requires Remains(t, before) && Brought(t, before, done, l) && id in before.peers && id !in done
    requires before.peers.Keys == t.peers.Keys
    ensures Brought(t, ReplayOne(before, id, l), done + {id}, l)
  {
    var after := ReplayOne(before, id, l);
    ReplayOneIsRight(before, id, l);
    AddressesExport(before.grants, id, before.peers[id].addresses, l);
    forall who | who in done + {id} && who in t.peers && after.peers[who].status == Active
      ensures ServedOrMarked(after, who, done + {id})
    {
      forall a, p | a in after.peers[who].addresses && p in SPECS
        ensures Grant(a, p) in after.grants || MarkedFor(Grant(a, p), after, done + {id})
      {
        if who != id {
          StillServedOrMarked(before, after, done, id, who, a, p);
        }
      }
    }
  }

  lemma StillServedOrMarked(before: Table, after: Table, done: set<Peer>, id: Peer, who: Peer, a: Address, p: ExportPath)
    requires who in before.peers && a in before.peers[who].addresses && p in SPECS && ServedOrMarked(before, who, done)
    requires id in before.peers && id in after.peers && id !in done && after.peers == before.peers[id := after.peers[id]]
    requires after.peers[id].addresses == before.peers[id].addresses
    requires before.grants <= after.grants || after.peers[id].status == Failed
    requires OthersKept(before.grants, after.grants, AddressesOf(before.peers, id))
    ensures Grant(a, p) in after.grants || MarkedFor(Grant(a, p), after, done + {id})
  {
    var g := Grant(a, p);
    if MarkedFor(g, before, done) {
      var other :| other in done && other in before.peers && a in before.peers[other].addresses && before.peers[other].status == Failed;
      assert other in after.peers && after.peers[other] == before.peers[other];
    } else if g !in after.grants {
      assert g in before.grants && a in AddressesOf(before.peers, id);
      assert id in done + {id} && after.peers[id].status == Failed;
    }
  }

  lemma {:induction false} EveryReplayBrings(t: Table, paired: set<Peer>, order: seq<Peer>, l: Luck)
    requires NoRepeats(order)
    ensures Brought(t, ReplayExports(t, paired, order, l), PairedIn(order, paired), l)
  {
    if order != [] {
      var n := |order| - 1;
      var id := order[n];
      EveryReplayBrings(t, paired, order[..n], l);
      ReplayIsRight(t, paired, order[..n], l);
      var before := ReplayExports(t, paired, order[..n], l);
      assert order == order[..n] + [id] && id !in order[..n];
      var done := PairedIn(order[..n], paired);
      if id in paired && id in before.peers {
        ReplayBrings(t, before, done, id, l);
        assert done + {id} == PairedIn(order, paired);
      } else {
        forall who | who in PairedIn(order, paired) && who in t.peers
          ensures who in done
        {
        }
        MoreBrought(t, before, done, PairedIn(order, paired), l);
      }
    }
  }

  lemma MoreBrought(t: Table, after: Table, ids: set<Peer>, more: set<Peer>, l: Luck)
    requires Brought(t, after, ids, l) && ids <= more && forall id | id in more && id in t.peers :: id in ids
    ensures Brought(t, after, more, l)
  {
    forall id | id in more && id in t.peers && after.peers[id].status == Active
      ensures ServedOrMarked(after, id, more)
    {
      forall a, p | a in after.peers[id].addresses && p in SPECS
        ensures Grant(a, p) in after.grants || MarkedFor(Grant(a, p), after, more)
      {
        assert Grant(a, p) in after.grants || MarkedFor(Grant(a, p), after, ids);
      }
    }
  }

  /** The table lists exactly these records, each once. */
  ghost predicate Lists(order: seq<Peer>, t: Table) {
    NoRepeats(order) && forall id :: id in order <==> id in t.peers
  }

  /**
    What a restart brings back, whatever status and grants were there before: a
    paired record ends active exactly when the export root can be built and all
    its exports succeed, and failed otherwise; and any record that ends active
    has all its grants, unless a paired one that shares the address failed.
   */
  lemma RestoreBringsBack(t: Table, paired: set<Peer>, order: seq<Peer>, l: Luck)
    requires Lists(order, t)
    ensures var after := Restore(t, paired, order, l);
            && (forall id | id in t.peers && id in paired ::
                  && id in after.peers
                  && (after.peers[id].status == Active <==> l.root && AllExport(id, t.peers[id].addresses, l))
                  && (after.peers[id].status == Failed <==> !(l.root && AllExport(id, t.peers[id].addresses, l))))
            && (forall id | id in after.peers && after.peers[id].status == Active :: ServedOrMarked(after, id, paired))
  {
    if t.peers != map[] {
      var left := DropUnpaired(t, paired, order, l);
      var after := Restore(t, paired, order, l);
      DropUnpairedIsRight(t, paired, order, l);
      if !(left.peers.Keys !! paired) && l.root {
        var start := left.(binds := true);
        EveryReplayBrings(start, paired, order, l);
        ReplayIsRight(start, paired, order, l);
        forall id | id in after.peers && after.peers[id].status == Active
          ensures id in paired && ServedOrMarked(after, id, paired)
        {
          assert id in order;
          assert id in PairedIn(order, paired);
          ServedAmongMore(after, id, PairedIn(order, paired), paired);
        }
      }
    }
  }

  lemma {:induction false} BindsStay(t: Table, paired: set<Peer>, order: seq<Peer>, l: Luck)
    ensures DropUnpaired(t, paired, order, l).binds == t.binds && ReplayExports(t, paired, order, l).binds == t.binds
  {
    if order != [] {
      BindsStay(t, paired, order[..|order| - 1], l);
    }
  }

  /** The bind mounts are there after a restart when some paired Drone needs them, and go, if they can, when none does. */
  lemma RestoreMounts(t: Table, paired: set<Peer>, order: seq<Peer>, l: Luck)
    ensures Restore(t, paired, order, l).binds <==>
              if t.peers.Keys !! paired then t.binds && (t.peers == map[] || l.binds) else l.root || l.binds
  {
    if t.peers != map[] {
      var left := DropUnpaired(t, paired, order, l);
      DropUnpairedIsRight(t, paired, order, l);
      BindsStay(t, paired, order, l);
      BindsStay(left.(binds := true), paired, order, l);
      assert left.peers.Keys !! paired <==> t.peers.Keys !! paired by {
        if id :| id in t.peers && id in paired {
          assert id in left.peers.Keys && id in paired;
        }
      }
    }
  }

  lemma ServedAmongMore(t: Table, id: Peer, ids: set<Peer>, more: set<Peer>)
    requires id in t.peers && ServedOrMarked(t, id, ids) && ids <= more
    ensures ServedOrMarked(t, id, more)
  {
    forall a, p | a in t.peers[id].addresses && p in SPECS
      ensures Grant(a, p) in t.grants || MarkedFor(Grant(a, p), t, more)
    {
      assert Grant(a, p) in t.grants || MarkedFor(Grant(a, p), t, ids);
    }
  }

  /** So when nothing fails, every paired Drone is served again. */
  lemma AWorkingRestartServesEveryPairedDrone(t: Table, paired: set<Peer>, order: seq<Peer>, l: Luck)
    requires Lists(order, t) && l.root
    requires forall id | id in t.peers && id in paired :: AllExport(id, t.peers[id].addresses, l)
    ensures var after := Restore(t, paired, order, l);
            forall id | id in t.peers && id in paired ::
              id in after.peers && after.peers[id] == Record(t.peers[id].addresses, Active) && Serves(after, id)
  {
    RestoreBringsBack(t, paired, order, l);
    RestoreIsRight(t, paired, order, l);
    var after := Restore(t, paired, order, l);
    forall id, a, p | id in t.peers && id in paired && a in after.peers[id].addresses && p in SPECS
      ensures Grant(a, p) in after.grants
    {
      assert ServedOrMarked(after, id, paired);
      assert forall other | other in paired && other in after.peers :: after.peers[other].status == Active;
    }
  }

  /** An authorization fails while exporting exactly when the root or an export fails, and while retiring exactly when an old address resists. */
  lemma AuthorizeSucceedsExactly(t: Table, id: Peer, addresses: seq<Address>, l: Luck)
    requires addresses != []
    ensures var outcome := Authorize(t, id, addresses, l).1;
            var exported := l.root && AllExport(id, addresses, l);
            var resists := exists a, p | a in AddressesOf(t.peers, id) && p in SPECS ::
                             a !in addresses && a !in Elsewhere(t.peers, id) && !l.unexports(a, p).ok;
            outcome == if !exported then ExportFailed else if resists then RetireFailed else Authorized
  {
    AddressesExport(t.grants, id, addresses, l);
    StuckExactly(Retired(t, id, addresses), l);
  }

  /** When every withdrawal works, a restart forgets exactly the Drones that are not paired any more. */
  lemma ARestartForgetsTheUnpaired(t: Table, paired: set<Peer>, order: seq<Peer>, l: Luck)
    requires Lists(order, t) && forall a, p :: l.unexports(a, p).ok
    ensures Restore(t, paired, order, l).peers.Keys == t.peers.Keys * paired
  {
    if t.peers != map[] {
      var left := DropUnpaired(t, paired, order, l);
      DropUnpairedIsRight(t, paired, order, l);
      EveryUnpairedGoes(t, paired, order, l);
      ReplayIsRight(left.(binds := true), paired, order, l);
      assert left.peers.Keys == t.peers.Keys * paired by {
        forall id
          ensures id in left.peers <==> id in t.peers && id in paired
        {
          assert id in t.peers ==> id in order;
        }
      }
    }
  }

  lemma {:induction false} EveryUnpairedGoes(t: Table, paired: set<Peer>, order: seq<Peer>, l: Luck)
    requires forall a, p :: l.unexports(a, p).ok
    ensures forall id | id in order && id !in paired :: id !in DropUnpaired(t, paired, order, l).peers
  {
    if order != [] {
      var n := |order| - 1;
      EveryUnpairedGoes(t, paired, order[..n], l);
      assert order == order[..n] + [order[n]];
      var before := DropUnpaired(t, paired, order[..n], l);
      if order[n] in before.peers && order[n] !in paired {
        var own := AddressesOf(before.peers, order[n]) - Elsewhere(before.peers, order[n]);
        StuckExactly(own, l);
        assert Drop(before, order[n], l).peers == before.peers - {order[n]};
      }
    }
  }

  lemma RestoreStopsEarly(t: Table, left: Table, paired: set<Peer>)
    requires LostToTheUnpaired(t, left, paired)
    ensures LossesAreMarked(t.grants, left, paired)
    ensures LossesAreMarked(t.grants, left.(peers := AllFailed(left.peers)), paired)
  {
  }

  lemma RestoreReplays(t: Table, left: Table, after: Table, paired: set<Peer>, ids: set<Peer>)
    requires LostToTheUnpaired(t, left, paired) && Remains(left, after) && ids <= paired
    requires EachLossIsMarked(left.grants, after, ids)
    ensures LossesAreMarked(t.grants, after, paired)
  {
    MoreMarks(left.grants, after, ids, paired);
    forall g, id | g in t.grants && g !in after.grants && id in paired && id in after.peers && g.address in after.peers[id].addresses
      ensures MarkedFor(g, after, paired)
    {
      assert id in left.peers && g.address in left.peers[id].addresses;
      assert g in left.grants;
    }
  }

  lemma RestoreKeepsOwnership(t: Table, paired: set<Peer>, order: seq<Peer>, l: Luck)
    requires Owned(t)
    ensures Owned(Restore(t, paired, order, l))
  {
    if t.peers != map[] {
      DropUnpairedIsRight(t, paired, order, l);
      var left := DropUnpaired(t, paired, order, l);
      SameAddressesSameListing(left.peers, AllFailed(left.peers));
      ReplayKeepsOwnership(left.(binds := true), paired, order, l);
    }
  }

  // ------------------------------------------------------- withdrawing it all

  /** Success means that no listed address is served any more. */
  lemma ChangeIdentityIsRight(t: Table, l: Luck)
    ensures var (after, ok) := ChangeIdentity(t, l);
            && after.peers == t.peers && after.grants <= t.grants
            && (ok ==> Live(after.grants) * Listed(t.peers) == {} && !after.binds)
            && (ok && Owned(t) ==> after.grants == {})
            && (Owned(t) ==> Owned(after))
            && (after.binds ==> t.binds)
  {
    var (after, ok) := ChangeIdentity(t, l);
    WithdrawnOrStuck(t.grants, Listed(t.peers), l);
    if ok {
      forall a | a in Live(after.grants)
        ensures a !in Listed(t.peers)
      {
        assert a in StuckOf(Listed(t.peers), l) ==> StillServed(a, after.grants, l);
      }
      if Owned(t) {
        NothingLive(after.grants);
      }
    }
  }

  /** It succeeds exactly when each listed address is withdrawn, or is shown by the kernel to be gone, and the mounts go. */
  lemma ChangeIdentitySucceedsExactly(t: Table, l: Luck)
    ensures var (after, ok) := ChangeIdentity(t, l);
            && (ok <==>
                && l.unmounts
                && forall a | a in Listed(t.peers) ::
                     (forall p | p in SPECS :: l.unexports(a, p).ok) || (l.listing(a) && a !in Live(after.grants)))
            && (forall g | g in t.grants && g.address in Listed(t.peers) ::
                  g in after.grants <==> !l.unexports(g.address, g.path).ok && !l.unexports(g.address, g.path).effect)
  {
    var grants := Withdraw(t.grants, Listed(t.peers), l);
    assert forall a | a in Listed(t.peers) :: Resists(a, l) || forall p | p in SPECS :: l.unexports(a, p).ok;
    assert forall a | a in Listed(t.peers) :: StillServed(a, grants, l) || !StillServed(a, grants, l);
  }

  lemma CleanupIsRight(t: Table, l: Luck)
    ensures var (after, cleaned) := Cleanup(t, l);
            && after.grants <= t.grants
            && (cleaned ==> after.peers == map[] && Live(after.grants) * Listed(t.peers) == {})
            && (!cleaned ==> after.peers == t.peers)
            && (after.binds <==> t.binds && l.binds)
            && (cleaned <==> forall a, p | a in Listed(t.peers) && p in SPECS :: l.unexports(a, p).ok)
            && (Owned(t) ==> Owned(after) && (cleaned ==> after.grants == {}))
  {
    var (after, cleaned) := Cleanup(t, l);
    WithdrawnOrStuck(t.grants, Listed(t.peers), l);
    StuckExactly(Listed(t.peers), l);
    if cleaned && Owned(t) {
      assert Live(after.grants) <= Listed(t.peers);
      assert Live(after.grants) == {};
      NothingLive(after.grants);
    }
  }

  // --------------------------------------------------------- whole histories

  /**
    The one step that loses an address: an authorization that fails while
    exporting, of a Drone one of whose old addresses is live, not asked for
    again and not listed by another Drone.
   */
  predicate Endangers(t: Table, op: Operation, l: Luck) {
    && op.Admit?
    && Authorize(t, op.id, op.addresses, l).1 == ExportFailed
    && !OldAddressesStayListed(t, op.id, op.addresses)
  }

  lemma EveryOtherStepKeepsOwnership(t: Table, op: Operation, l: Luck)
    requires Owned(t)
    ensures Owned(Step(t, op, l)) <==> !Endangers(t, op, l)
  {
    match op {
      case Admit(id, addresses) => AuthorizeKeepsOwnership(t, id, addresses, l);
      case Expel(id) =>
        if id in t.peers {
          DropIsRight(t, id, l);
        }
      case Reload(paired, order) => RestoreKeepsOwnership(t, paired, order, l);
      case Reidentify => ChangeIdentityIsRight(t, l);
      case Uninstall => CleanupIsRight(t, l);
    }
  }

  /** Every old live address of the Drone is asked for again or listed by another one. */
  predicate OldAddressesStayListed(t: Table, id: Peer, addresses: seq<Address>) {
    Live(t.grants) * AddressesOf(t.peers, id) <= SetOf(addresses) + Elsewhere(t.peers, id)
  }

  /** What a caller can check beforehand: exactly then the authorization keeps ownership, whatever fails. */
  lemma AuthorizingKeepsOwnershipWhateverFails(t: Table, id: Peer, addresses: seq<Address>)
    requires Owned(t) && addresses != []
    ensures (forall l :: Owned(Step(t, Admit(id, addresses), l))) <==> OldAddressesStayListed(t, id, addresses)
  {
    var unlucky := Luck(false, (_, _, _) => Reply(false, false), (_, _, _) => false, (_, _, _) => false,
                        (_, _) => Reply(false, false), _ => false, false, false);
    assert Authorize(t, id, addresses, unlucky).1 == ExportFailed;
    EveryOtherStepKeepsOwnership(t, Admit(id, addresses), unlucky);
    forall l | OldAddressesStayListed(t, id, addresses)
      ensures Owned(Step(t, Admit(id, addresses), l))
    {
      EveryOtherStepKeepsOwnership(t, Admit(id, addresses), l);
    }
  }

  ghost predicate NoStepEndangers(t: Table, steps: seq<(Operation, Luck)>) {
    steps != [] ==>
      && NoStepEndangers(t, steps[..|steps| - 1])
      && !Endangers(Run(t, steps[..|steps| - 1]), steps[|steps| - 1].0, steps[|steps| - 1].1)
  }

  ghost predicate AlwaysOwned(t: Table, steps: seq<(Operation, Luck)>) {
    Owned(Run(t, steps)) && (steps != [] ==> AlwaysOwned(t, steps[..|steps| - 1]))
  }

  /**
    The main result, over every sequence of operations with every call free to
    fail: each live grant stays listed all the way exactly when no step is the
    one that loses an address.
   */
  lemma {:induction false} NoLiveExportIsOrphaned(t: Table, steps: seq<(Operation, Luck)>)
    requires Owned(t)
    ensures AlwaysOwned(t, steps) <==> NoStepEndangers(t, steps)
  {
    if steps != [] {
      var n := |steps| - 1;
      NoLiveExportIsOrphaned(t, steps[..n]);
      if AlwaysOwned(t, steps[..n]) {
        EveryOtherStepKeepsOwnership(Run(t, steps[..n]), steps[n].0, steps[n].1);
      }
    }
  }

  /** So after such operations, a successful identity change leaves no grant of a Drone live. */
  lemma AnIdentityChangeLeavesNothingLive(t: Table, steps: seq<(Operation, Luck)>, l: Luck)
    requires Owned(t) && NoStepEndangers(t, steps)
    ensures var (after, ok) := ChangeIdentity(Run(t, steps), l);
            ok ==> after.grants == {} && !after.binds
  {
    NoLiveExportIsOrphaned(t, steps);
    ChangeIdentityIsRight(Run(t, steps), l);
  }

  const EMPTY := Table(map[], {}, false)

  /** A Drone is authorized, moves to a new address, and the export root cannot be built: its old grants are orphaned. */
  lemma AFailedExportCanOrphanAnAddress(lucky: Luck, unlucky: Luck)
    requires lucky.root && !unlucky.root && forall p :: lucky.exports(1, 10, p).ok
    ensures var first, second := (Admit(1, [10]), lucky), (Admit(1, [20]), unlucky);
            Owned(Run(EMPTY, [first])) && !Owned(Run(EMPTY, [first, second]))
  {
    var first, second := (Admit(1, [10]), lucky), (Admit(1, [20]), unlucky);
    RunTwo(EMPTY, first, second);
    var t := Run(EMPTY, [first]);
    AFirstAuthorization(lucky);
    assert 10 in Live(t.grants) * AddressesOf(t.peers, 1);
    assert Elsewhere(t.peers, 1) == {};
    AuthorizeKeepsOwnership(t, 1, [20], unlucky);
  }

  lemma RunTwo(t: Table, a: (Operation, Luck), b: (Operation, Luck))
    ensures Run(t, [a]) == Step(t, a.0, a.1) && Run(t, [a, b]) == Step(Run(t, [a]), b.0, b.1)
  {
    assert [a][..0] == [] && [a, b][..1] == [a];
  }

  lemma AFirstAuthorization(l: Luck)
    requires l.root && forall p :: l.exports(1, 10, p).ok
    ensures var t := Authorize(EMPTY, 1, [10], l).0;
            t.peers == map[1 := Record([10], Active)] && 10 in Live(t.grants) && Owned(t)
  {
    ExportingSucceeds({}, l, 0);
    assert [10][1..] == [];
    assert Retired(EMPTY, 1, [10]) == {} && StuckOf({}, l) == {};
    assert [10] + [] == [10];
    AuthorizeKeepsOwnership(EMPTY, 1, [10], l);
    AuthorizeGrants(EMPTY, 1, [10], l);
    assert Root == SPECS[0] && 10 in [10];
    assert Grant(10, Root) in Authorize(EMPTY, 1, [10], l).0.grants;
  }

  lemma {:induction false} ExportingSucceeds(grants: set<Grant>, l: Luck, i: nat)
    requires i <= |SPECS| && forall p :: l.exports(1, 10, p).ok
    ensures ExportPaths(grants, 1, 10, i, l).1
    decreases |SPECS| - i
  {
    if i < |SPECS| {
      ExportingSucceeds(grants + {Grant(10, SPECS[i])}, l, i + 1);
    }
  }

  // -------------------------------------------------------------- the manager

  class ExportManager {
    var peers: map<Peer, Record>
    var grants: set<Grant>
    var binds: bool

    function Contents(): Table
      reads this
    {
      Table(peers, grants, binds)
    }

    constructor ()
      ensures Contents() == EMPTY
    {
      peers, grants, binds := map[], {}, false;
    }

    // ------------------------------------------------------------ the kernel

    /** exportfs -u: a call that reports failure may still have worked. */
    method UnexportPath(a: Address, p: ExportPath, reply: Reply) returns (failed: bool)
      modifies this`grants
      ensures grants == if reply.ok || reply.effect then old(grants) - {Grant(a, p)} else old(grants)
      ensures failed == !reply.ok
    {
      if reply.ok || reply.effect {
        grants := grants - {Grant(a, p)};
      }
      failed := !reply.ok;
    }

    /** exportfs -i */
    method ExportPathTo(a: Address, p: ExportPath, reply: Reply) returns (ok: bool)
      modifies this`grants
      ensures grants == if reply.ok || reply.effect then old(grants) + {Grant(a, p)} else old(grants)
      ensures ok == reply.ok
    {
      if reply.ok || reply.effect {
        grants := grants + {Grant(a, p)};
      }
      ok := reply.ok;
    }

    /** The kernel's own listing, when it can be read, tells the truth. */
    method ClientExportPresent(a: Address, l: Luck) returns (known: bool, present: bool)
      ensures known == l.listing(a) && present == (a in Live(grants))
    {
      known, present := l.listing(a), a in Live(grants);
    }

    // ---------------------------------------------------------- one client

    /** Grants every path, or undoes what it granted and fails; no other client is touched. */
    method ExportClient(id: Peer, a: Address, l: Luck) returns (ok: bool)
      modifies this`grants
      ensures (grants, ok) == ExportPaths(old(grants), id, a, 0, l)
      ensures ok ==> grants == old(grants) + set p | p in SPECS :: Grant(a, p)
      ensures forall g: Grant | g.address != a :: g in grants <==> g in old(grants)
    {
      ghost var before := grants;
      ExportingOne(before, id, a, 0, l);
      assert SPECS[0..] == SPECS;
      var exported: seq<ExportPath> := [];
      for i := 0 to |SPECS|
        invariant exported == SPECS[..i]
        invariant ExportPaths(before, id, a, 0, l) == ExportPaths(grants, id, a, i, l)
      {
        var granted := ExportPathTo(a, SPECS[i], l.exports(id, a, SPECS[i]));
        if granted {
          exported := exported + [SPECS[i]];
        } else {
          if !l.raises(id, a, SPECS[i]) {
            Rollback(id, a, exported, l);
          }
          return false;
        }
        assert SPECS[..i + 1] == SPECS[..i] + [SPECS[i]];
      }
      ok := true;
    }

    method Rollback(id: Peer, a: Address, exported: seq<ExportPath>, l: Luck)
      modifies this`grants
      ensures grants == set g | g in old(grants) && !(g.address == a && g.path in exported && l.rollbacks(id, a, g.path))
    {
      var i := |exported|;
      while i > 0
        invariant 0 <= i <= |exported|
        invariant grants == set g | g in old(grants) && !(g.address == a && g.path in exported[i..] && l.rollbacks(id, a, g.path))
      {
        i := i - 1;
        var undone := l.rollbacks(id, a, exported[i]);
        var _ := UnexportPath(a, exported[i], Reply(undone, undone));
        assert exported[i..] == [exported[i]] + exported[i + 1..];
      }
    }

    /** Tries every path; success means the client has nothing left. */
    method UnexportClient(a: Address, l: Luck) returns (failed: bool)
      modifies this`grants
      ensures grants == Withdraw(old(grants), {a}, l) && failed == Resists(a, l)
      ensures !failed ==> a !in Live(grants)
    {
      ghost var before := grants;
      failed := false;
      var i := |SPECS|;
      while i > 0
        invariant 0 <= i <= |SPECS|
        invariant forall g :: g in grants <==>
                    g in before && !(g.address == a && g.path in SPECS[i..]
                                     && (l.unexports(a, g.path).ok || l.unexports(a, g.path).effect))
        invariant failed <==> exists p | p in SPECS[i..] :: !l.unexports(a, p).ok
      {
        i := i - 1;
        assert SPECS[i..] == [SPECS[i]] + SPECS[i + 1..];
        var error := UnexportPath(a, SPECS[i], l.unexports(a, SPECS[i]));
        failed := failed || error;
      }
      assert SPECS[0..] == SPECS;
      forall g: Grant
        ensures g.path in SPECS
      {
        assert g.path == SPECS[0] || g.path == SPECS[1] || g.path == SPECS[2];
      }
      assert grants == Withdraw(before, {a}, l);
      WithdrawnOrStuck(before, {a}, l);
      assert !failed ==> a !in Live(grants) * {a};
    }

    /** Unexports a set of clients and says which of them resisted. */
    method UnexportAll(addresses: set<Address>, l: Luck) returns (stuck: set<Address>)
      modifies this`grants
      ensures grants == Withdraw(old(grants), addresses, l) && stuck == StuckOf(addresses, l)
    {
      stuck := {};
      var left := addresses;
      while left != {}
        invariant left <= addresses
        invariant grants == Withdraw(old(grants), addresses - left, l)
        invariant stuck == StuckOf(addresses - left, l)
        decreases left
      {
        var a := Least(left);
        var failed := UnexportClient(a, l);
        left := left - {a};
        if failed {
          stuck := stuck + {a};
        }
      }
      assert addresses - {} == addresses;
    }

    // ------------------------------------------------------------ operations

    /** Authorizes one paired Drone for exactly these addresses. */
    method AuthorizePeer(id: Peer, addresses: seq<Address>, l: Luck) returns (outcome: Authorization)
      modifies this
      ensures (Contents(), outcome) == Authorize(old(Contents()), id, addresses, l)
      ensures outcome == Rejected <==> addresses == []
      ensures outcome == Rejected ==> Contents() == old(Contents())
      ensures outcome != Rejected ==> id in peers && peers == old(peers)[id := peers[id]]
      ensures outcome == Authorized ==> peers[id] == Record(addresses, Active)
      ensures outcome == Authorized ==> forall a, p | a in addresses && p in SPECS :: Grant(a, p) in grants
      ensures outcome == Authorized ==>
                Live(grants) * (AddressesOf(old(peers), id) - SetOf(addresses) - Elsewhere(old(peers), id)) == {}
      ensures outcome in {ExportFailed, RetireFailed} ==> peers[id].status == Failed && addresses <= peers[id].addresses
      ensures outcome == ExportFailed ==> peers[id].addresses == addresses
      ensures outcome == ExportFailed ==> OthersKept(old(grants), grants, SetOf(addresses))
      ensures outcome != Rejected ==> SetOf(peers[id].addresses) <= SetOf(addresses) + AddressesOf(old(peers), id)
      ensures forall g: Grant | g.address in Elsewhere(old(peers), id) && g.address !in addresses :: g in grants <==> g in old(grants)
      ensures Owned(old(Contents())) ==>
                (Owned(Contents()) <==>
                 outcome != ExportFailed ||
                 Live(old(grants)) * AddressesOf(old(peers), id) <= SetOf(addresses) + Elsewhere(old(peers), id))
    {
      ghost var before := Contents();
      AuthorizeOutcome(before, id, addresses, l);
      AuthorizeGrants(before, id, addresses, l);
      if Owned(before) {
        AuthorizeKeepsOwnership(before, id, addresses, l);
      }
      outcome := AuthorizeSteps(id, addresses, l);
    }

    method AuthorizeSteps(id: Peer, addresses: seq<Address>, l: Luck) returns (outcome: Authorization)
      modifies this
      ensures (Contents(), outcome) == Authorize(old(Contents()), id, addresses, l)
    {
      if addresses == [] {
        return Rejected;
      }
      var retired := AddressesOf(peers, id) - SetOf(addresses) - Elsewhere(peers, id);
      peers := peers[id := Record(addresses, Authorizing)];
      binds := if l.root then true else l.binds;
      var exported := l.root;
      if exported {
        exported := ExportAddresses(id, addresses, l);
      }
      if !exported {
        peers := peers[id := Record(addresses, Failed)];
        assert peers == old(peers)[id := Record(addresses, Failed)];
        return ExportFailed;
      }
      var stuck := UnexportAll(retired, l);
      var kept := Sorted(stuck);
      if kept != [] {
        peers := peers[id := Record(addresses + kept, Failed)];
        assert peers == old(peers)[id := Record(addresses + kept, Failed)];
        return RetireFailed;
      }
      assert addresses + kept == addresses;
      peers := peers[id := Record(addresses, Active)];
      assert peers == old(peers)[id := Record(addresses, Active)];
      return Authorized;
    }

    /** All addresses, up to the first failure; no other client is touched. */
    method ExportAddresses(id: Peer, addresses: seq<Address>, l: Luck) returns (ok: bool)
      modifies this`grants
      ensures (grants, ok) == ExportEach(old(grants), id, addresses, l)
    {
      for i := 0 to |addresses|
        invariant ExportEach(old(grants), id, addresses, l) == ExportEach(grants, id, addresses[i..], l)
      {
        var exported := ExportClient(id, addresses[i], l);
        if !exported {
          return false;
        }
      }
      ok := true;
    }

    /** Withdraws one Drone, but never an address another record lists. */
    method RevokePeer(id: Peer, l: Luck) returns (outcome: Revocation)
      modifies this
      ensures (Contents(), outcome) == Revoke(old(Contents()), id, l)
      ensures outcome == NotFound <==> id !in old(peers)
      ensures outcome == Revoked ==>
                peers == old(peers) - {id}
                && Live(grants) * (AddressesOf(old(peers), id) - Elsewhere(old(peers), id)) == {}
      ensures outcome == RevokeFailed ==> peers == old(peers)[id := old(peers)[id].(status := Failed)]
      ensures grants <= old(grants)
      ensures forall g: Grant | g.address !in AddressesOf(old(peers), id) || g.address in Elsewhere(old(peers), id) ::
                g in grants <==> g in old(grants)
      ensures Owned(old(Contents())) ==> Owned(Contents())
    {
      if id !in peers {
        return NotFound;
      }
      DropIsRight(Contents(), id, l);
      DropOne(id, l);
      if id in peers {
        return RevokeFailed;
      }
      if peers == map[] {
        binds := binds && l.binds;
      }
      return Revoked;
    }

    method DropOne(id: Peer, l: Luck)
      requires id in peers
      modifies this`peers, this`grants
      ensures Contents() == Drop(old(Contents()), id, l)
    {
      ghost var before := Contents();
      var record := peers[id];
      ElsewhereIgnores(peers, id, record);
      peers := peers - {id};
      var stuck := UnexportAll(SetOf(record.addresses) - Listed(peers), l);
      if stuck != {} {
        peers := peers[id := record.(status := Failed)];
        assert peers == MarkFailed(before.peers, id);
      }
    }

    /** Replays the stored authorizations after a restart; `order` is the one the table lists its records in. */
    method RestoreExports(paired: set<Peer>, order: seq<Peer>, l: Luck)
      requires NoRepeats(order)
      modifies this
      ensures Contents() == Restore(old(Contents()), paired, order, l)
      ensures peers.Keys <= old(peers).Keys
      ensures forall id | id in peers :: peers[id].addresses == old(peers)[id].addresses
      ensures forall id | id in old(peers) && id in paired :: id in peers
      ensures forall id | id in peers && id !in paired && id in order :: peers[id].status == Failed
      ensures LossesAreMarked(old(grants), Contents(), paired)
      ensures Owned(old(Contents())) ==> Owned(Contents())
      ensures Lists(order, old(Contents())) ==> forall id | id in old(peers) && id in paired ::
                peers[id].status == Active <==> l.root && AllExport(id, old(peers)[id].addresses, l)
      ensures Lists(order, old(Contents())) ==> forall id | id in peers && peers[id].status == Active ::
                ServedOrMarked(Contents(), id, paired)
    {
      ghost var before := Contents();
      RestoreIsRight(before, paired, order, l);
      if Lists(order, before) {
        RestoreBringsBack(before, paired, order, l);
      }
      if Owned(before) {
        RestoreKeepsOwnership(before, paired, order, l);
      }
      RestoreSteps(paired, order, l);
    }

    method RestoreSteps(paired: set<Peer>, order: seq<Peer>, l: Luck)
      modifies this
      ensures Contents() == Restore(old(Contents()), paired, order, l)
    {
      if peers == map[] {
        return;
      }
      DropAllUnpaired(paired, order, l);
      if peers.Keys !! paired {
        binds := binds && l.binds;
        return;
      }
      if !l.root {
        peers, binds := AllFailed(peers), l.binds;
        return;
      }
      binds := true;
      ReplayAll(paired, order, l);
    }

    method DropAllUnpaired(paired: set<Peer>, order: seq<Peer>, l: Luck)
      modifies this`peers, this`grants
      ensures Contents() == DropUnpaired(old(Contents()), paired, order, l)
    {
      for i := 0 to |order|
        invariant Contents() == DropUnpaired(old(Contents()), paired, order[..i], l)
      {
        assert order[..i + 1][..i] == order[..i];
        if order[i] !in paired && order[i] in peers {
          DropOne(order[i], l);
        }
      }
      assert order[..|order|] == order;
    }

    method ReplayAll(paired: set<Peer>, order: seq<Peer>, l: Luck)
      modifies this`peers, this`grants
      ensures Contents() == ReplayExports(old(Contents()), paired, order, l)
    {
      for i := 0 to |order|
        invariant Contents() == ReplayExports(old(Contents()), paired, order[..i], l)
      {
        assert order[..i + 1][..i] == order[..i];
        var id := order[i];
        if id in paired && id in peers {
          var ok := ExportAddresses(id, peers[id].addresses, l);
          peers := peers[id := peers[id].(status := if ok then Active else Failed)];
        }
      }
      assert order[..|order|] == order;
    }

    /** Withdraws every live grant before the ownership rows go; keeps the rows when it cannot. */
    method RevokeForIdentityChange(l: Luck) returns (ok: bool)
      modifies this`grants, this`binds
      ensures (Contents(), ok) == ChangeIdentity(old(Contents()), l)
      ensures grants <= old(grants)
      ensures ok ==> Live(grants) * Listed(peers) == {}
      ensures ok && Owned(old(Contents())) ==> grants == {}
      ensures ok ==> !binds
    {
      ghost var before := Contents();
      ChangeIdentityIsRight(before, l);
      var resisted := WithdrawListed(l);
      if resisted {
        return false;
      }
      if !l.unmounts {
        binds := binds && l.binds;
        return false;
      }
      binds := false;
      ok := true;
    }

    method WithdrawListed(l: Luck) returns (resisted: bool)
      modifies this`grants
      ensures grants == Withdraw(old(grants), Listed(peers), l)
      ensures resisted <==> exists a | a in Listed(peers) :: StillServed(a, grants, l)
    {
      ghost var before, all := grants, Listed(peers);
      var todo := Listed(peers);
      resisted := false;
      ghost var served: set<Address> := {};
      while todo != {}
        invariant todo <= all
        invariant grants == Withdraw(before, all - todo, l)
        invariant served == set a | a in all - todo && StillServed(a, Withdraw(before, all, l), l)
        invariant resisted <==> served != {}
        decreases todo
      {
        var a := Least(todo);
        var failed := UnexportClient(a, l);
        todo := todo - {a};
        SoonOrLater(before, all, all - todo, a, l);
        if failed {
          var known, present := ClientExportPresent(a, l);
          if !known || present {
            resisted := true;
            served := served + {a};
          }
        }
      }
      assert all - {} == all;
      assert forall a :: a in served <==> a in all && StillServed(a, grants, l);
    }

    /** Uninstall: forget the records only when nothing resisted. */
    method CleanupAllExports(l: Luck) returns (cleaned: bool)
      modifies this
      ensures (Contents(), cleaned) == Cleanup(old(Contents()), l)
      ensures grants <= old(grants)
      ensures cleaned ==> peers == map[] && Live(grants) * Listed(old(peers)) == {}
      ensures !cleaned ==> peers == old(peers)
      ensures Owned(old(Contents())) ==> Owned(Contents()) && (cleaned ==> grants == {})
    {
      CleanupIsRight(Contents(), l);
      var stuck := UnexportAll(Listed(peers), l);
      cleaned := stuck == {};
      if cleaned {
        peers := map[];
      }
      binds := binds && l.binds;
    }

    /** Any sequence of operations, any of whose calls may fail. */
    method Serve(steps: seq<(Operation, Luck)>)
      requires Owned(Contents())
      requires forall i | 0 <= i < |steps| && steps[i].0.Reload? :: NoRepeats(steps[i].0.order)
      modifies this
      ensures Contents() == Run(old(Contents()), steps)
      ensures NoStepEndangers(old(Contents()), steps) ==> Owned(Contents())
    {
      ghost var before := Contents();
      for i := 0 to |steps|
        invariant Contents() == Run(before, steps[..i])
      {
        assert steps[..i + 1][..i] == steps[..i];
        ServeOne(steps[i].0, steps[i].1);
      }
      assert steps[..|steps|] == steps;
      NoLiveExportIsOrphaned(before, steps);
    }

    method ServeOne(op: Operation, l: Luck)
      requires op.Reload? ==> NoRepeats(op.order)
      modifies this
      ensures Contents() == Step(old(Contents()), op, l)
    {
      match op {
        case Admit(id, addresses) =>
          var _ := AuthorizePeer(id, addresses, l);
        case Expel(id) =>
          var _ := RevokePeer(id, l);
        case Reload(paired, order) =>
          RestoreExports(paired, order, l);
        case Reidentify =>
          var _ := RevokeForIdentityChange(l);
        case Uninstall =>
          var _ := CleanupAllExports(l);
      }
    }
  }

  /** What is still served when one client has been tried does not change when the others are. */
  lemma SoonOrLater(grants: set<Grant>, all: set<Address>, some: set<Address>, a: Address, l: Luck)
    requires a in some && some <= all
    ensures StillServed(a, Withdraw(grants, some, l), l) == StillServed(a, Withdraw(grants, all, l), l)
  {
    forall g: Grant | g.address == a
      ensures g in Withdraw(grants, some, l) <==> g in Withdraw(grants, all, l)
    {
    }
  }
}
