/**
  Lifecycle of network references (app/device/network_share_manager.py):
  requests, workers, the watchdog, boot replay and BIOS reconciliation, each
  step atomic under its peer's lock, in any interleaving and with any operation
  failing. The stored state has its current schema.
 */
module ShareLifecycle {
  import opened Options

  type Peer = nat

  datatype Status = Mounted | Unreachable | Failed | Pending | Enabling | Detaching

  datatype Record = Record(enabled: bool, status: Status)

  /** A symlink into a peer's mount. */
  datatype Link = Link(peer: Peer, path: nat)

  /** A thread between two of its locked steps. */
  datatype Task =
    | EnableJob(p: Peer) | EnableFailed(p: Peer)
    | DisableJob(p: Peer) | DisableFailed(p: Peer)
    | BiosStart(p: Peer) | BiosLink(p: Peer) | BiosFailed(p: Peer)
    | Probed(p: Peer, alive: bool) | ProbeFailed(p: Peer)
    | Replay(p: Peer, detach: bool)

  datatype State = State(
    records: map<Peer, Record>,   // durable
    overlay: Option<Peer>,        // the EmulationStation overlay, and whose mount it names
    links: set<Link>,
    mounted: set<Peer>,
    tasks: multiset<Task>)

  /**
    One attempt to restore the local paths and unmount. Only a clean one reports
    no error; it leaves just the links that are hidden from the walk for them.
   */
  datatype Cleanup = Cleanup(clean: bool, lost: set<Link>, hidden: set<Link>, overlayGoes: bool, unmounts: bool)

  /** What happens during one step: which calls succeed. A write that fails raises. */
  datatype Luck = Luck(
    resolves: bool, firstWrite: bool, secondWrite: bool, lastWrite: bool, starts: bool,
    recovery: Cleanup, retreat: Cleanup,
    mounts: bool, readable: bool, installs: bool, nothingSelected: bool, background: bool,
    added: set<Link>, fetches: bool)

  datatype Outcome = Finished | Raised

  // ------------------------------------------------------------ small steps

  predicate Wanted(s: State, p: Peer) {
    p in s.records && s.records[p].enabled && s.records[p].status != Detaching
  }

  /** A record that is on its way out. */
  predicate Leaving(s: State, p: Peer) {
    p in s.records && (!s.records[p].enabled || s.records[p].status == Detaching)
  }

  /** Peers are numbered in the order shares are listed; the first wanted one is the active reference. */
  predicate AnotherIsActive(s: State, p: Peer) {
    exists q | q in s.records :: Wanted(s, q) && q != p && forall r | r in s.records && r < q :: !Wanted(s, r)
  }

  function Upsert(s: State, p: Peer, enabled: bool, status: Status): State {
    s.(records := s.records[p := Record(enabled, status)])
  }

  /** Restores the local paths of a peer and unmounts it. */
  function CleanUp(s: State, p: Peer, c: Cleanup): State {
    var kept := set l | l in s.links && (l.peer != p || (if c.clean then l in c.hidden else l !in c.lost));
    s.(links := kept,
       overlay := if c.clean || c.overlayGoes then None else s.overlay,
       mounted := if c.unmounts then s.mounted - {p} else s.mounted)
  }

  function AddLinks(s: State, p: Peer, added: set<Link>): State {
    s.(links := s.links + set l | l in added && l.peer == p)
  }

  function Add(s: State, t: Task): State {
    s.(tasks := s.tasks + multiset{t})
  }

  function Done(s: State, t: Task): State {
    s.(tasks := s.tasks - multiset{t})
  }

  // -------------------------------------------------------- enable, disable

  /** Enabling, under the lock. */
  function Enable(s: State, p: Peer, l: Luck): (State, Outcome) {
    if !l.resolves || AnotherIsActive(s, p) || Leaving(s, p) then (s, Raised)
    else if p in s.records && s.records[p].status in {Pending, Enabling} then
      var s1 := CleanUp(s, p, l.recovery);
      if !l.firstWrite then (s1, Raised)
      else if !l.recovery.clean then (Upsert(s1, p, true, Failed), Finished)
      else MountAndRefer(s1, p, l)
    else MountAndRefer(s, p, l)
  }

  function MountAndRefer(s: State, p: Peer, l: Luck): (State, Outcome) {
    if !l.secondWrite then (s, Raised)
    else
      var s1 := Upsert(s, p, true, Enabling);
      if p !in s1.mounted && !l.mounts then Retreat(s1, p, l, Unreachable)
      else
        var s2 := s1.(mounted := s1.mounted + {p});
        if !l.readable || !l.installs then Retreat(s2, p, l, Failed)
        else Refer(s2, p, l)
  }

  function Retreat(s: State, p: Peer, l: Luck, status: Status): (State, Outcome) {
    var s1 := CleanUp(s, p, l.retreat);
    if !l.lastWrite then (s1, Raised)
    else (Upsert(s1, p, true, if l.retreat.clean then status else Failed), Finished)
  }

  function Refer(s: State, p: Peer, l: Luck): (State, Outcome) {
    var s1 := if l.nothingSelected then s else s.(overlay := Some(p));
    var s2 := if l.background then s1 else AddLinks(s1, p, l.added);
    if !l.lastWrite then (s2, Raised)
    else
      var s3 := Upsert(s2, p, true, Mounted);
      if !l.background || HasBiosJob(s3, p) then (s3, Finished)
      else if !l.starts then (s3, Raised)
      else (Add(s3, BiosStart(p)), Finished)
  }

  predicate HasBiosJob(s: State, p: Peer) {
    BiosStart(p) in s.tasks || BiosLink(p) in s.tasks || BiosFailed(p) in s.tasks
  }

  /** Disabling, under the lock. The first write is the durable boundary. */
  function Disable(s: State, p: Peer, l: Luck): (State, Outcome) {
    if p !in s.records then (s, Finished)
    else if !l.firstWrite then (s, Raised)
    else
      var s1 := CleanUp(Upsert(s, p, false, Detaching), p, l.retreat);
      if !l.lastWrite then (s1, Raised)
      else if !l.retreat.clean then (Upsert(s1, p, false, Failed), Finished)
      else (s1.(records := s1.records - {p}), Finished)
  }

  // ----------------------------------------------------------------- events

  datatype Event =
    | RequestEnable(p: Peer)
    | RequestDisable(p: Peer)
    | Tick(alive: Peer -> bool)     // the watchdog lists and probes the shares
    | Run(task: Task)
    | Reboot
    | Boot                          // boot replay lists the shares

  function AskEnable(s: State, p: Peer, l: Luck): (State, Outcome) {
    if !l.resolves || AnotherIsActive(s, p) then (s, Raised)
    else if p in s.records && s.records[p] == Record(true, Mounted) then (s, Finished)
    else if Leaving(s, p) || !l.firstWrite then (s, Raised)
    else
      var s1 := Upsert(s, p, true, Enabling);
      if EnableJob(p) in s.tasks || EnableFailed(p) in s.tasks then (s1, Finished)
      else if l.starts then (Add(s1, EnableJob(p)), Finished)
      else (s1, Raised)
  }

  function AskDisable(s: State, p: Peer, l: Luck): (State, Outcome) {
    if p !in s.records then (s, Finished)
    else if !l.firstWrite then (s, Raised)
    else
      var s1 := Upsert(s, p, false, Detaching);
      if DisableJob(p) in s.tasks || DisableFailed(p) in s.tasks then (s1, Finished)
      else if l.starts then (Add(s1, DisableJob(p)), Finished)
      else (s1, Raised)
  }

  function RunEnable(s: State, p: Peer, l: Luck): State {
    var (s1, outcome) := Enable(s, p, l);
    if outcome.Raised? then Add(s1, EnableFailed(p)) else s1
  }

  function RunDisable(s: State, p: Peer, l: Luck): State {
    var (s1, outcome) := Disable(s, p, l);
    if outcome.Raised? then Add(s1, DisableFailed(p)) else s1
  }

  /** The watchdog, under the lock: the probe may be older than a detach. */
  function RunProbed(s: State, p: Peer, alive: bool, l: Luck): State {
    if !Wanted(s, p) then s
    else if alive then
      if s.records[p].status == Mounted || l.firstWrite then Upsert(s, p, true, Mounted) else Add(s, ProbeFailed(p))
    else Remount(if l.recovery.unmounts then s.(mounted := s.mounted - {p}) else s, p, l)
  }

  function Remount(s: State, p: Peer, l: Luck): State {
    var (s1, outcome) := Enable(s, p, l);
    if outcome.Raised? then Add(s1, ProbeFailed(p)) else s1
  }

  /** The next locked step of a thread. */
  function RunTask(s: State, t: Task, l: Luck): State {
    match t
    case EnableJob(p) => RunEnable(s, p, l)
    case EnableFailed(p) => if Wanted(s, p) && l.firstWrite then Upsert(s, p, true, Failed) else s
    case DisableJob(p) => RunDisable(s, p, l)
    case DisableFailed(p) => if p in s.records && l.firstWrite then Upsert(s, p, false, Failed) else s
    case BiosStart(p) =>
      if !Wanted(s, p) || !l.firstWrite then s
      else Add(s, if l.fetches then BiosLink(p) else BiosFailed(p))
    case BiosLink(p) =>
      if p in s.records && s.records[p] == Record(true, Mounted) then AddLinks(s, p, l.added) else s
    case BiosFailed(p) => s
    case Probed(p, alive) => RunProbed(s, p, alive, l)
    case ProbeFailed(p) =>
      if p in s.records && s.records[p].enabled && l.firstWrite then Upsert(s, p, true, Unreachable) else s
    case Replay(p, detach) => if detach then Disable(s, p, l).0 else Enable(s, p, l).0
  }

  function Step(s: State, e: Event, l: Luck): State {
    match e
    case RequestEnable(p) => AskEnable(s, p, l).0
    case RequestDisable(p) => AskDisable(s, p, l).0
    case Tick(alive) =>
      s.(tasks := s.tasks + multiset(set p | p in s.records && Wanted(s, p) :: Probed(p, alive(p))))
    case Run(t) => if t in s.tasks then RunTask(Done(s, t), t, l) else s
    case Reboot => s.(tasks := multiset{}, mounted := {})
    case Boot =>
      s.(tasks := s.tasks + multiset(set p | p in s.records :: Replay(p, Leaving(s, p))))
  }

  function After(s: State, events: seq<(Event, Luck)>): State {
    if events == [] then s
    else Step(After(s, events[..|events| - 1]), events[|events| - 1].0, events[|events| - 1].1)
  }

  // ------------------------------------------- detach intent is a durable boundary

  ghost predicate Detached(s: State, p: Peer) {
    p in s.records && !s.records[p].enabled
  }

  /** Nothing of a peer that was not there before: no mount, no link, no overlay. */
  ghost predicate NothingNew(s: State, s': State, p: Peer) {
    && (p in s'.mounted ==> p in s.mounted)
    && (s'.overlay == Some(p) ==> s.overlay == Some(p))
    && forall l | l in s'.links && l.peer == p :: l in s.links
  }

  ghost predicate NoReferences(s: State, p: Peer) {
    s.overlay != Some(p) && forall l | l in s.links :: l.peer != p
  }

  /** A step on behalf of another peer: this one's record is as it was. */
  ghost predicate Spares(s: State, s': State, p: Peer) {
    && (p in s'.records <==> p in s.records)
    && (p in s.records ==> s'.records[p] == s.records[p])
    && NothingNew(s, s', p)
  }

  /** Enabling queues nothing but BIOS work. */
  ghost predicate OnlyBiosAdded(s: State, s': State, q: Peer) {
    s'.tasks == s.tasks || s'.tasks == s.tasks + multiset{BiosStart(q)}
  }

  lemma CleanUpSpares(s: State, q: Peer, c: Cleanup, p: Peer)
    ensures Spares(s, CleanUp(s, q, c), p)
  {
  }

  lemma RetreatSpares(s: State, q: Peer, l: Luck, status: Status, p: Peer)
    requires p != q
    ensures Spares(s, Retreat(s, q, l, status).0, p) && OnlyBiosAdded(s, Retreat(s, q, l, status).0, q)
  {
    CleanUpSpares(s, q, l.retreat, p);
  }

  lemma ReferSpares(s: State, q: Peer, l: Luck, p: Peer)
    requires p != q
    ensures Spares(s, Refer(s, q, l).0, p) && OnlyBiosAdded(s, Refer(s, q, l).0, q)
  {
  }

  lemma MountAndReferSpares(s: State, q: Peer, l: Luck, p: Peer)
    requires p != q
    ensures Spares(s, MountAndRefer(s, q, l).0, p) && OnlyBiosAdded(s, MountAndRefer(s, q, l).0, q)
  {
    var s1 := Upsert(s, q, true, Enabling);
    var s2 := s1.(mounted := s1.mounted + {q});
    RetreatSpares(s1, q, l, Unreachable, p);
    RetreatSpares(s2, q, l, Failed, p);
    ReferSpares(s2, q, l, p);
  }

  lemma EnableSpares(s: State, q: Peer, l: Luck, p: Peer)
    requires p != q
    ensures Spares(s, Enable(s, q, l).0, p) && OnlyBiosAdded(s, Enable(s, q, l).0, q)
  {
    var s1 := CleanUp(s, q, l.recovery);
    CleanUpSpares(s, q, l.recovery, p);
    MountAndReferSpares(s1, q, l, p);
    MountAndReferSpares(s, q, l, p);
  }

  lemma DisableSpares(s: State, q: Peer, l: Luck, p: Peer)
    requires p != q
    ensures Spares(s, Disable(s, q, l).0, p) && Disable(s, q, l).0.tasks == s.tasks
  {
    if q in s.records {
      CleanUpSpares(Upsert(s, q, false, Detaching), q, l.retreat, p);
    }
  }

  /** What a task of one peer may queue: its own next step, never an enable. */
  ghost predicate OnlyNextStepAdded(s: State, s': State, q: Peer) {
    forall t | t in s'.tasks :: t in s.tasks || (t.p == q && !t.EnableJob? && !t.Replay?)
  }

  lemma RunEnableSpares(s: State, q: Peer, l: Luck, p: Peer)
    requires p != q
    ensures Spares(s, RunEnable(s, q, l), p) && OnlyNextStepAdded(s, RunEnable(s, q, l), q)
  {
    EnableSpares(s, q, l, p);
  }

  lemma RunDisableSpares(s: State, q: Peer, l: Luck, p: Peer)
    requires p != q
    ensures Spares(s, RunDisable(s, q, l), p) && OnlyNextStepAdded(s, RunDisable(s, q, l), q)
  {
    DisableSpares(s, q, l, p);
  }

  lemma RemountSpares(s: State, q: Peer, l: Luck, p: Peer)
    requires p != q
    ensures Spares(s, Remount(s, q, l), p) && OnlyNextStepAdded(s, Remount(s, q, l), q)
  {
    EnableSpares(s, q, l, p);
  }

  lemma RunProbedSpares(s: State, q: Peer, alive: bool, l: Luck, p: Peer)
    requires p != q
    ensures Spares(s, RunProbed(s, q, alive, l), p) && OnlyNextStepAdded(s, RunProbed(s, q, alive, l), q)
  {
    if !alive {
      var s1 := if l.recovery.unmounts then s.(mounted := s.mounted - {q}) else s;
      assert Spares(s, s1, p) && s1.tasks == s.tasks;
      RemountSpares(s1, q, l, p);
    }
  }

  lemma ReplaySpares(s: State, q: Peer, detach: bool, l: Luck, p: Peer)
    requires p != q
    ensures Spares(s, RunTask(s, Replay(q, detach), l), p) && OnlyNextStepAdded(s, RunTask(s, Replay(q, detach), l), q)
  {
    EnableSpares(s, q, l, p);
    DisableSpares(s, q, l, p);
  }

  /** No thread of one peer touches another. */
  lemma ATaskSparesOtherPeers(s: State, t: Task, l: Luck, p: Peer)
    requires p != t.p
    ensures Spares(s, RunTask(s, t, l), p) && OnlyNextStepAdded(s, RunTask(s, t, l), t.p)
  {
    match t
    case EnableJob(q) => RunEnableSpares(s, q, l, p);
    case DisableJob(q) => RunDisableSpares(s, q, l, p);
    case Probed(q, alive) => RunProbedSpares(s, q, alive, l, p);
    case Replay(q, detach) => ReplaySpares(s, q, detach, l, p);
    case _ =>
  }

  /** No link of this peer is hidden from the walk of this cleanup. */
  ghost predicate NothingHidden(s: State, p: Peer, c: Cleanup) {
    forall l | l in s.links && l.peer == p :: l !in c.hidden
  }

  /** Still detached, or deleted: then without its overlay, and without a link exactly when none was hidden. */
  ghost predicate StaysDetached(s: State, s': State, p: Peer, c: Cleanup) {
    && (p in s'.records ==> Detached(s', p))
    && (p !in s'.records ==> s'.overlay != Some(p) && (NoReferences(s', p) <==> NothingHidden(s, p, c)))
    && NothingNew(s, s', p)
  }

  /** For the detached peer itself: enabling is refused, and disabling deletes it only after a clean cleanup. */
  lemma ItsOwnStepsKeepItDetached(s: State, l: Luck, p: Peer)
    requires Detached(s, p)
    ensures Enable(s, p, l) == (s, Raised)
    ensures StaysDetached(s, Disable(s, p, l).0, p, l.retreat)
  {
  }

  lemma ItsOwnTaskKeepsItDetached(s: State, t: Task, l: Luck)
    requires Detached(s, t.p)
    ensures StaysDetached(s, RunTask(s, t, l), t.p, l.retreat)
  {
    ItsOwnStepsKeepItDetached(s, l, t.p);
  }

  /** Whichever step comes next, a detached peer gets no mount, link or overlay, and is deleted only after a clean cleanup. */
  lemma NoStepRevivesADetachedPeer(s: State, e: Event, l: Luck, p: Peer)
    requires Detached(s, p)
    ensures StaysDetached(s, Step(s, e, l), p, l.retreat)
  {
    if !e.Run? {
      NoRequestRevivesADetachedPeer(s, e, l, p);
    } else if e.task in s.tasks {
      NoTaskRevivesADetachedPeer(s, e.task, l, p);
    }
  }

  lemma NoRequestRevivesADetachedPeer(s: State, e: Event, l: Luck, p: Peer)
    requires Detached(s, p) && !e.Run?
    ensures StaysDetached(s, Step(s, e, l), p, l.retreat)
  {
  }

  lemma NoTaskRevivesADetachedPeer(s: State, t: Task, l: Luck, p: Peer)
    requires Detached(s, p)
    ensures StaysDetached(s, RunTask(Done(s, t), t, l), p, l.retreat)
  {
    if t.p == p {
      ItsOwnTaskKeepsItDetached(Done(s, t), t, l);
    } else {
      ATaskSparesOtherPeers(Done(s, t), t, l, p);
    }
  }

  /** The main result, over every interleaving and across reboots. */
  lemma {:induction false} DetachIntentIsADurableBoundary(s: State, events: seq<(Event, Luck)>, p: Peer)
    requires Detached(s, p)
    requires forall k | 0 <= k <= |events| :: p in After(s, events[..k]).records
    ensures Detached(After(s, events), p) && NothingNew(s, After(s, events), p)
  {
    if events != [] {
      var n := |events| - 1;
      forall k | 0 <= k <= n
        ensures p in After(s, events[..n][..k]).records
      {
        assert events[..n][..k] == events[..k];
      }
      DetachIntentIsADurableBoundary(s, events[..n], p);
      assert events[..|events|] == events;
      NoStepRevivesADetachedPeer(After(s, events[..n]), events[n].0, events[n].1, p);
    }
  }

  // ------------------------------------------------------ after the record is gone

  /** No record, and no thread that would enable the peer. */
  ghost predicate Gone(s: State, p: Peer) {
    p !in s.records && EnableJob(p) !in s.tasks && Replay(p, false) !in s.tasks
  }

  lemma ItsOwnTaskKeepsItGone(s: State, t: Task, l: Luck)
    requires t.p !in s.records && !t.EnableJob? && t != Replay(t.p, false)
    ensures RunTask(s, t, l) == s
  {
  }

  lemma NoTaskRevivesAGonePeer(s: State, t: Task, l: Luck, p: Peer)
    requires Gone(s, p) && t in s.tasks
    ensures Gone(RunTask(Done(s, t), t, l), p) && NothingNew(s, RunTask(Done(s, t), t, l), p)
  {
    if t.p == p {
      ItsOwnTaskKeepsItGone(Done(s, t), t, l);
    } else {
      ATaskSparesOtherPeers(Done(s, t), t, l, p);
    }
  }

  lemma NoRequestForAnotherRevivesAGonePeer(s: State, e: Event, l: Luck, p: Peer)
    requires Gone(s, p) && e != RequestEnable(p) && !e.Run?
    ensures Gone(Step(s, e, l), p) && NothingNew(s, Step(s, e, l), p)
  {
  }

  lemma NoStepRevivesAGonePeer(s: State, e: Event, l: Luck, p: Peer)
    requires Gone(s, p) && e != RequestEnable(p)
    ensures Gone(Step(s, e, l), p) && NothingNew(s, Step(s, e, l), p)
  {
    if !e.Run? {
      NoRequestForAnotherRevivesAGonePeer(s, e, l, p);
    } else if e.task in s.tasks {
      NoTaskRevivesAGonePeer(s, e.task, l, p);
    }
  }

  /** Once the record is deleted and no enable is queued, only a new request brings the peer back. */
  lemma {:induction false} OnlyARequestBringsAPeerBack(s: State, events: seq<(Event, Luck)>, p: Peer)
    requires Gone(s, p) && forall i | 0 <= i < |events| :: events[i].0 != RequestEnable(p)
    ensures Gone(After(s, events), p) && NothingNew(s, After(s, events), p)
  {
    if events != [] {
      var n := |events| - 1;
      OnlyARequestBringsAPeerBack(s, events[..n], p);
      NoStepRevivesAGonePeer(After(s, events[..n]), events[n].0, events[n].1, p);
    }
  }

  const CLEAN := Cleanup(true, {}, {}, true, true)

  /** Every call succeeds. */
  const LUCKY := Luck(true, true, true, true, true, CLEAN, CLEAN, true, true, true, false, true, {}, true)

  lemma ALuckyEnableMounts(s: State, p: Peer)
    requires p !in s.records && !AnotherIsActive(s, p)
    ensures p in Enable(s, p, LUCKY).0.mounted
  {
  }

  ghost predicate EnableIsQueued(s: State, p: Peer) {
    EnableJob(p) in s.tasks || Replay(p, false) in s.tasks
  }

  /** A way to go on without a new request for the peer. */
  ghost predicate WithoutARequest(events: seq<(Event, Luck)>, p: Peer) {
    forall i | 0 <= i < |events| :: events[i].0 != RequestEnable(p)
  }

  ghost predicate CanComeBack(s: State, p: Peer) {
    exists events :: WithoutARequest(events, p) && p in After(s, events).mounted
  }

  /** Exactly when a deleted peer can come back without a request: if and only if an enable of it is still queued. */
  lemma OnlyAQueuedEnableBringsItBack(s: State, p: Peer)
    requires p !in s.records && p !in s.mounted
    ensures CanComeBack(s, p) <==> EnableIsQueued(s, p)
  {
    if EnableIsQueued(s, p) {
      AQueuedEnableCanMount(s, p, if EnableJob(p) in s.tasks then EnableJob(p) else Replay(p, false));
    } else if CanComeBack(s, p) {
      var events :| WithoutARequest(events, p) && p in After(s, events).mounted;
      NothingQueuedStaysAway(s, p, events);
    }
  }

  function WantedPeers(s: State): set<Peer> {
    set q | q in s.records && Wanted(s, q)
  }

  /** Whatever other references are active are detached first, by request; then the queued enable runs. */
  lemma {:induction false} AQueuedEnableCanMount(s: State, p: Peer, t: Task)
    requires p !in s.records && t in s.tasks && (t == EnableJob(p) || t == Replay(p, false))
    ensures CanComeBack(s, p)
    decreases |WantedPeers(s)|
  {
    if WantedPeers(s) == {} {
      assert !AnotherIsActive(s, p) by {
        assert forall q | q in s.records :: q !in WantedPeers(s);
      }
      ItMountsAtOnce(s, p, t);
    } else {
      var q :| q in WantedPeers(s);
      var ask := (RequestDisable(q), LUCKY);
      AskingToDetach(s, q, t);
      AQueuedEnableCanMount(Step(s, ask.0, LUCKY), p, t);
      OneMoreEventFirst(s, ask, p);
    }
  }

  lemma ItMountsAtOnce(s: State, p: Peer, t: Task)
    requires p !in s.records && !AnotherIsActive(s, p)
    requires t in s.tasks && (t == EnableJob(p) || t == Replay(p, false))
    ensures CanComeBack(s, p)
  {
    var run := (Run(t), LUCKY);
    RunningMounts(s, p, t);
    AfterOneOnly(s, run);
    assert WithoutARequest([run], p) && p in After(s, [run]).mounted;
  }

  lemma RunningMounts(s: State, p: Peer, t: Task)
    requires p !in s.records && !AnotherIsActive(s, p)
    requires t in s.tasks && (t == EnableJob(p) || t == Replay(p, false))
    ensures p in Step(s, Run(t), LUCKY).mounted
  {
    var s0 := Done(s, t);
    assert s0.records == s.records && !AnotherIsActive(s0, p);
    ALuckyEnableMounts(s0, p);
    var s1 := RunTask(s0, t, LUCKY);
    assert Step(s, Run(t), LUCKY) == s1;
    assert s1.mounted == Enable(s0, p, LUCKY).0.mounted;
  }

  lemma AskingToDetach(s: State, q: Peer, t: Task)
    requires q in WantedPeers(s) && t in s.tasks
    ensures var s' := Step(s, RequestDisable(q), LUCKY);
            && s'.records == s.records[q := Record(false, Detaching)]
            && t in s'.tasks
            && WantedPeers(s') == WantedPeers(s) - {q} && |WantedPeers(s')| < |WantedPeers(s)|
  {
    var s' := Step(s, RequestDisable(q), LUCKY);
    assert s'.records == s.records[q := Record(false, Detaching)];
    forall r
      ensures r in WantedPeers(s') <==> r in WantedPeers(s) - {q}
    {
    }
    assert WantedPeers(s') == WantedPeers(s) - {q};
  }

  lemma OneMoreEventFirst(s: State, first: (Event, Luck), p: Peer)
    requires first.0 != RequestEnable(p) && CanComeBack(Step(s, first.0, first.1), p)
    ensures CanComeBack(s, p)
  {
    var events :| WithoutARequest(events, p) && p in After(Step(s, first.0, first.1), events).mounted;
    AfterFirst(s, first, events);
    assert WithoutARequest([first] + events, p) && p in After(s, [first] + events).mounted;
  }

  lemma {:induction false} AfterFirst(s: State, first: (Event, Luck), events: seq<(Event, Luck)>)
    ensures After(s, [first] + events) == After(Step(s, first.0, first.1), events)
  {
    if events == [] {
      assert [first] + events == [first];
      AfterOneOnly(s, first);
    } else {
      var n := |events| - 1;
      AfterFirst(s, first, events[..n]);
      AfterOne(s, [first] + events[..n], events[n]);
      assert [first] + events[..n] + [events[n]] == [first] + events;
    }
  }

  lemma AfterOneOnly(s: State, event: (Event, Luck))
    ensures After(s, [event]) == Step(s, event.0, event.1)
  {
    AfterOne(s, [], event);
    assert [] + [event] == [event];
  }

  lemma NothingQueuedStaysAway(s: State, p: Peer, events: seq<(Event, Luck)>)
    requires p !in s.records && p !in s.mounted && !EnableIsQueued(s, p) && WithoutARequest(events, p)
    ensures p !in After(s, events).mounted
  {
    OnlyARequestBringsAPeerBack(s, events, p);
  }

  lemma ACleanDisableCompletes(s: State, p: Peer, l: Luck)
    requires Detached(s, p) && l.firstWrite && l.lastWrite && l.retreat.clean
    ensures var s' := Disable(s, p, l).0;
            && s'.records == s.records - {p} && s'.tasks == s.tasks && s'.overlay != Some(p)
            && (p in s'.mounted <==> p in s.mounted && !l.retreat.unmounts)
            && (NoReferences(s', p) <==> NothingHidden(s, p, l.retreat))
  {
  }

  lemma AfterTwo(s: State, a: (Event, Luck), b: (Event, Luck))
    ensures After(s, [a, b]) == Step(Step(s, a.0, a.1), b.0, b.1)
  {
    AfterOneOnly(s, a);
    AfterOne(s, [a], b);
    assert [a] + [b] == [a, b];
  }

  lemma AfterOne(s: State, events: seq<(Event, Luck)>, last: (Event, Luck))
    ensures After(s, events + [last]) == Step(After(s, events), last.0, last.1)
  {
    assert (events + [last])[..|events|] == events;
  }

  /** An enable requested and then a detach, before either worker has run. */
  lemma BothAreQueued(p: Peer) returns (s: State)
    ensures s == Step(Step(State(map[], None, {}, {}, multiset{}), RequestEnable(p), LUCKY), RequestDisable(p), LUCKY)
    ensures s.records == map[p := Record(false, Detaching)] && EnableJob(p) in s.tasks && DisableJob(p) in s.tasks
  {
    var s0 := State(map[], None, {}, {}, multiset{});
    assert !AnotherIsActive(s0, p);
    s := Step(Step(s0, RequestEnable(p), LUCKY), RequestDisable(p), LUCKY);
    assert s == Add(Upsert(Add(Upsert(s0, p, true, Enabling), EnableJob(p)), p, false, Detaching), DisableJob(p));
  }

  /** The condition matters: an enable still queued when the detach completes mounts the peer again. */
  lemma AQueuedEnableOutlivesTheDetach(p: Peer)
    ensures var s := State(map[], None, {}, {}, multiset{});
            var events := [(RequestEnable(p), LUCKY), (RequestDisable(p), LUCKY), (Run(DisableJob(p)), LUCKY)];
            && p !in After(s, events).records
            && p in After(s, events + [(Run(EnableJob(p)), LUCKY)]).mounted
  {
    var s := State(map[], None, {}, {}, multiset{});
    var ask, detach, disable := (RequestEnable(p), LUCKY), (RequestDisable(p), LUCKY), (Run(DisableJob(p)), LUCKY);
    var s2 := BothAreQueued(p);
    AfterTwo(s, ask, detach);
    assert After(s, [ask, detach]) == s2;
    var s3 := TheDetachCompletes(s2, p);
    AfterOne(s, [ask, detach], disable);
    assert [ask, detach] + [disable] == [ask, detach, disable];
    assert After(s, [ask, detach, disable]) == s3;
    AfterOne(s, [ask, detach, disable], (Run(EnableJob(p)), LUCKY));
    RunningMounts(s3, p, EnableJob(p));
  }

  lemma TheDetachCompletes(s2: State, p: Peer) returns (s3: State)
    requires s2.records == map[p := Record(false, Detaching)] && EnableJob(p) in s2.tasks && DisableJob(p) in s2.tasks
    ensures s3 == Step(s2, Run(DisableJob(p)), LUCKY)
    ensures s3.records == map[] && EnableJob(p) in s3.tasks
  {
    s3 := Step(s2, Run(DisableJob(p)), LUCKY);
    ACleanDisableCompletes(Done(s2, DisableJob(p)), p, LUCKY);
  }

  // ------------------------------------------------------- a detach completes

  /**
    However a detach was interrupted, also by a reboot, boot replay completes it
    when its calls succeed; no link is left exactly when none was hidden.
   */
  lemma BootReplayCompletesTheDetach(s: State, p: Peer, l: Luck)
    requires Detached(s, p) && l.firstWrite && l.lastWrite && l.retreat.clean
    ensures var s' := After(s, [(Reboot, l), (Boot, l), (Run(Replay(p, true)), l)]);
            && Gone(s', p) && s'.overlay != Some(p) && p !in s'.mounted
            && (NoReferences(s', p) <==> NothingHidden(s, p, l.retreat))
  {
    var s2 := ReplayIsQueued(s, p, l);
    ACleanDisableCompletes(Done(s2, Replay(p, true)), p, l);
    var reboot, boot, replay := (Reboot, l), (Boot, l), (Run(Replay(p, true)), l);
    AfterTwo(s, reboot, boot);
    AfterOne(s, [reboot, boot], replay);
    assert [reboot, boot] + [replay] == [reboot, boot, replay];
  }

  lemma ReplayIsQueued(s: State, p: Peer, l: Luck) returns (s2: State)
    requires Detached(s, p)
    ensures s2 == Step(Step(s, Reboot, l), Boot, l) && s2.links == s.links && s2.mounted == {}
    ensures Detached(s2, p) && Replay(p, true) in s2.tasks && Replay(p, false) !in s2.tasks && EnableJob(p) !in s2.tasks
  {
    var s1 := Step(s, Reboot, l);
    s2 := Step(s1, Boot, l);
    assert Leaving(s1, p);
    var replays := set q | q in s1.records :: Replay(q, Leaving(s1, q));
    assert s2.tasks == multiset(replays);
    assert Replay(p, true) in replays && Replay(p, false) !in replays;
  }

  /** Until then, a new reference to the peer is refused and changes nothing. */
  lemma AReferenceIsRefusedWhileDetaching(s: State, p: Peer, l: Luck)
    requires Detached(s, p)
    ensures AskEnable(s, p, l) == (s, Raised) && Enable(s, p, l) == (s, Raised)
  {
  }

  // --------------------------------------------- how an enable and a probe end

  /** Everything of other peers, and every task but those of this one, as it was. */
  ghost predicate OnlyThisPeer(s: State, s': State, p: Peer) {
    && (forall q | q != p :: (q in s'.records <==> q in s.records) && (q in s.records ==> s'.records[q] == s.records[q]))
    && s'.mounted - {p} == s.mounted - {p}
    && (forall l: Link | l.peer != p :: l in s'.links <==> l in s.links)
    && (forall t: Task | t.p != p :: s'.tasks[t] == s.tasks[t])
  }

  ghost predicate WritesSucceed(l: Luck) {
    l.firstWrite && l.secondWrite && l.lastWrite
  }

  /** An earlier enable was cut short: it is undone first. */
  predicate Recovers(s: State, p: Peer) {
    p in s.records && (s.records[p].status == Pending || s.records[p].status == Enabling)
  }

  ghost predicate Refused(s: State, p: Peer, l: Luck) {
    !l.resolves || AnotherIsActive(s, p) || Leaving(s, p)
  }

  /** Whether the mount is there once such an undoing is through. */
  ghost predicate StillMounted(s: State, p: Peer, l: Luck) {
    p in s.mounted && !(Recovers(s, p) && l.recovery.unmounts)
  }

  /** The peer's share can be had and takes the overlay. */
  ghost predicate CanRefer(mounted: bool, l: Luck) {
    (mounted || l.mounts) && l.readable && l.installs
  }

  /** A record, mount and overlay as an enable leaves them that could mount, or could not, with all its writes. */
  ghost predicate Ended(s: State, s': State, p: Peer, mounted: bool, l: Luck) {
    && OnlyThisPeer(s, s', p)
    && p in s'.records
    && s'.records[p] == Record(true, if CanRefer(mounted, l) then Mounted
                                     else if !mounted && !l.mounts && l.retreat.clean then Unreachable else Failed)
    && (p in s'.mounted <==> if CanRefer(mounted, l) then true else (mounted || l.mounts) && !l.retreat.unmounts)
    && (CanRefer(mounted, l) && !l.nothingSelected ==> s'.overlay == Some(p))
    && (CanRefer(mounted, l) && l.background && l.starts ==> HasBiosJob(s', p))
    && (CanRefer(mounted, l) ==> forall x: Link | x.peer == p :: x in s'.links <==> x in s.links || (!l.background && x in l.added))
    && (!CanRefer(mounted, l) && l.retreat.clean ==> s'.overlay.None?)
    && (!CanRefer(mounted, l) ==> forall x: Link | x.peer == p ::
          x in s'.links <==> x in s.links && (if l.retreat.clean then x in l.retreat.hidden else x !in l.retreat.lost))
  }

  lemma MountAndReferEnds(s: State, p: Peer, l: Luck)
    requires l.secondWrite && l.lastWrite
    ensures Ended(s, MountAndRefer(s, p, l).0, p, p in s.mounted, l)
  {
    var s1 := Upsert(s, p, true, Enabling);
    var s2 := s1.(mounted := s1.mounted + {p});
    var s' := MountAndRefer(s, p, l).0;
    if p !in s.mounted && !l.mounts {
      RetreatEnds(s1, p, l, Unreachable);
      EndsByRetreat(s, s1, s', p, l, Unreachable);
    } else if !l.readable || !l.installs {
      RetreatEnds(s2, p, l, Failed);
      EndsByRetreat(s, s2, s', p, l, Failed);
    } else {
      ReferEnds(s2, p, l);
    }
  }

  lemma EndsByRetreat(s: State, s1: State, s': State, p: Peer, l: Luck, status: Status)
    requires OnlyThisPeer(s, s1, p) && s1.links == s.links && OnlyThisPeer(s1, s', p) && !CanRefer(p in s.mounted, l)
    requires status == (if p !in s.mounted && !l.mounts then Unreachable else Failed)
    requires p in s1.mounted <==> p in s.mounted || l.mounts
    requires p in s'.records && s'.records[p] == Record(true, if l.retreat.clean then status else Failed)
    requires p in s'.mounted <==> p in s1.mounted && !l.retreat.unmounts
    requires l.retreat.clean ==> s'.overlay.None?
    requires forall x: Link | x.peer == p ::
               x in s'.links <==> x in s1.links && (if l.retreat.clean then x in l.retreat.hidden else x !in l.retreat.lost)
    ensures Ended(s, s', p, p in s.mounted, l)
  {
  }

  lemma RetreatEnds(s: State, p: Peer, l: Luck, status: Status)
    requires l.lastWrite
    ensures var s' := Retreat(s, p, l, status).0;
            && OnlyThisPeer(s, s', p)
            && p in s'.records && s'.records[p] == Record(true, if l.retreat.clean then status else Failed)
            && (p in s'.mounted <==> p in s.mounted && !l.retreat.unmounts)
            && (l.retreat.clean ==> s'.overlay.None?)
            && (forall x: Link | x.peer == p ::
                  x in s'.links <==> x in s.links && (if l.retreat.clean then x in l.retreat.hidden else x !in l.retreat.lost))
  {
  }

  lemma ReferEnds(s: State, p: Peer, l: Luck)
    requires l.lastWrite
    ensures var s' := Refer(s, p, l).0;
            && OnlyThisPeer(s, s', p)
            && p in s'.records && s'.records[p] == Record(true, Mounted)
            && s'.mounted == s.mounted
            && (!l.nothingSelected ==> s'.overlay == Some(p))
            && (l.background && l.starts ==> HasBiosJob(s', p))
            && (forall x: Link | x.peer == p :: x in s'.links <==> x in s.links || (!l.background && x in l.added))
  {
  }

  lemma MountAndReferRaises(s: State, p: Peer, l: Luck)
    ensures MountAndRefer(s, p, l).1.Raised? <==>
              !l.secondWrite || !l.lastWrite
              || (CanRefer(p in s.mounted, l) && l.background && !HasBiosJob(s, p) && !l.starts)
  {
  }

  /**
    How an enable ends that nothing refuses and no write fails: referred to
    when the mount is there or can be made, is readable and takes the overlay;
    otherwise unreachable or failed, with the mount given up.
   */
  lemma AnEnableEnds(s: State, p: Peer, l: Luck)
    requires !Refused(s, p, l) && WritesSucceed(l)
    ensures !Recovers(s, p) ==> Ended(s, Enable(s, p, l).0, p, p in s.mounted, l)
    ensures Recovers(s, p) && l.recovery.clean ==>
              Ended(CleanUp(s, p, l.recovery), Enable(s, p, l).0, p, StillMounted(s, p, l), l)
    ensures Recovers(s, p) && !l.recovery.clean ==>
              Enable(s, p, l) == (Upsert(CleanUp(s, p, l.recovery), p, true, Failed), Finished)
  {
    MountAndReferEnds(CleanUp(s, p, l.recovery), p, l);
    MountAndReferEnds(s, p, l);
  }

  /** It raises exactly when it is refused, a write it needs fails, or the BIOS worker it needs cannot be started. */
  lemma AnEnableRaisesExactly(s: State, p: Peer, l: Luck)
    ensures Enable(s, p, l).1.Raised? <==>
              || Refused(s, p, l)
              || (Recovers(s, p) && !l.firstWrite)
              || ((Recovers(s, p) ==> l.recovery.clean)
                  && (!l.secondWrite || !l.lastWrite
                      || (CanRefer(StillMounted(s, p, l), l) && l.background && !HasBiosJob(s, p) && !l.starts)))
    ensures Refused(s, p, l) ==> Enable(s, p, l).0 == s
  {
    MountAndReferRaises(CleanUp(s, p, l.recovery), p, l);
    MountAndReferRaises(s, p, l);
  }

  /** A live share is left alone; only its status is set right, if the write succeeds. */
  lemma ALiveProbeChangesNothingElse(s: State, p: Peer, l: Luck)
    requires p in s.records && s.records[p].enabled && s.records[p].status != Detaching && Probed(p, true) in s.tasks
    ensures var s' := Step(s, Run(Probed(p, true)), l);
            && s'.mounted == s.mounted && s'.links == s.links && s'.overlay == s.overlay
            && OnlyThisPeer(s, s', p)
            && p in s'.records
            && (s.records[p].status == Mounted || l.firstWrite ==> s'.records[p] == Record(true, Mounted))
            && (s.records[p].status != Mounted && !l.firstWrite ==> s'.records[p] == s.records[p] && ProbeFailed(p) in s'.tasks)
  {
  }

  /** A dead share loses its old mount. */
  function Unmounted(s: State, p: Peer, l: Luck): State {
    if l.recovery.unmounts then s.(mounted := s.mounted - {p}) else s
  }

  /**
    A dead share loses its old mount and is enabled again: mounted with its
    overlay if the calls succeed; without a mount, and unreachable or failed,
    if the peer cannot be mounted.
   */
  lemma ADeadProbeRemounts(s: State, p: Peer, l: Luck)
    requires p in s.records && s.records[p].enabled && s.records[p].status != Detaching
    requires Probed(p, false) in s.tasks && !AnotherIsActive(s, p)
    requires l.resolves && WritesSucceed(l) && l.recovery.unmounts && (Recovers(s, p) ==> l.recovery.clean)
    ensures var s' := Step(s, Run(Probed(p, false)), l);
            && p in s'.records
            && s'.records[p] == Record(true, if l.mounts && l.readable && l.installs then Mounted
                                             else if !l.mounts && l.retreat.clean then Unreachable else Failed)
            && (p in s'.mounted <==> l.mounts && ((l.readable && l.installs) || !l.retreat.unmounts))
            && (l.mounts && l.readable && l.installs && !l.nothingSelected ==> s'.overlay == Some(p))
  {
    var s1 := Unmounted(Done(s, Probed(p, false)), p, l);
    ADeadProbeEnables(s, p, l);
    SameRefusal(s, s1, p, l);
    AnEnableEnds(s1, p, l);
    NotMountedThen(s1, p, l, Enable(s1, p, l).0);
  }

  lemma NotMountedThen(s: State, p: Peer, l: Luck, s': State)
    requires p !in s.mounted
    requires Ended(s, s', p, p in s.mounted, l) || Ended(CleanUp(s, p, l.recovery), s', p, StillMounted(s, p, l), l)
    ensures Ended(s, s', p, false, l) || Ended(CleanUp(s, p, l.recovery), s', p, false, l)
  {
  }

  lemma SameRefusal(s: State, s': State, p: Peer, l: Luck)
    requires s.records == s'.records
    ensures (AnotherIsActive(s, p) <==> AnotherIsActive(s', p)) && (Leaving(s, p) <==> Leaving(s', p))
    ensures Recovers(s, p) <==> Recovers(s', p)
  {
  }

  /** Whatever fails, a dead probe of a wanted share is an enable without the old mount; its failure is left to be recorded. */
  lemma ADeadProbeEnables(s: State, p: Peer, l: Luck)
    requires Wanted(s, p) && Probed(p, false) in s.tasks
    ensures var (s', outcome) := Enable(Unmounted(Done(s, Probed(p, false)), p, l), p, l);
            Step(s, Run(Probed(p, false)), l) == if outcome.Raised? then Add(s', ProbeFailed(p)) else s'
  {
    var s0 := Done(s, Probed(p, false));
    assert Wanted(s0, p);
    assert RunTask(s0, Probed(p, false), l) == Remount(Unmounted(s0, p, l), p, l);
  }

  /** Each turn of the watchdog probes every share that is enabled and not being detached, once, and nothing else. */
  lemma TheWatchdogProbesEveryShare(s: State, alive: Peer -> bool, l: Luck, t: Task)
    ensures var s' := Step(s, Tick(alive), l);
            && s' == s.(tasks := s'.tasks)
            && s'.tasks[t] == s.tasks[t]
                              + if t.Probed? && t.alive == alive(t.p) && t.p in s.records
                                   && s.records[t.p].enabled && s.records[t.p].status != Detaching then 1 else 0
  {
    var probes := set p | p in s.records && Wanted(s, p) :: Probed(p, alive(p));
    assert Step(s, Tick(alive), l).tasks == s.tasks + multiset(probes);
    assert t in probes <==> t.Probed? && t.alive == alive(t.p) && t.p in s.records && Wanted(s, t.p);
  }

  /** Boot replay takes up every share once: to finish a detach, or to enable it again. */
  lemma BootReplaysEveryShare(s: State, l: Luck, t: Task)
    ensures var s' := Step(s, Boot, l);
            && s' == s.(tasks := s'.tasks)
            && s'.tasks[t] == s.tasks[t]
                              + if t.Replay? && t.p in s.records
                                   && (t.detach <==> !s.records[t.p].enabled || s.records[t.p].status == Detaching) then 1 else 0
  {
    var replays := set p | p in s.records :: Replay(p, Leaving(s, p));
    assert Step(s, Boot, l).tasks == s.tasks + multiset(replays);
    assert t in replays <==> t.Replay? && t.p in s.records && t.detach == Leaving(s, t.p);
  }

  /** A replay is that disable or enable; a reboot leaves only what is durable, the overlay and the links. */
  lemma AReplayIsOne(s: State, p: Peer, detach: bool, l: Luck)
    ensures Replay(p, detach) in s.tasks ==>
              Step(s, Run(Replay(p, detach)), l)
              == if detach then Disable(Done(s, Replay(p, true)), p, l).0 else Enable(Done(s, Replay(p, false)), p, l).0
    ensures Step(s, Reboot, l) == State(s.records, s.overlay, s.links, {}, multiset{})
  {
  }

  /** A probe that was overtaken by a detach does nothing at all. */
  lemma AStaleProbeDoesNothing(s: State, p: Peer, alive: bool, l: Luck)
    requires p in s.records ==> !s.records[p].enabled || s.records[p].status == Detaching
    requires Probed(p, alive) in s.tasks
    ensures Step(s, Run(Probed(p, alive)), l) == Done(s, Probed(p, alive))
  {
  }

  // -------------------------------------------------- how requests are answered

  lemma {:induction false} FirstWanted(s: State, q: Peer) returns (first: Peer)
    requires Wanted(s, q)
    ensures Wanted(s, first) && forall r | r in s.records && r < first :: !Wanted(s, r)
    decreases q
  {
    if r :| r in s.records && r < q && Wanted(s, r) {
      first := FirstWanted(s, r);
    } else {
      first := q;
    }
  }

  /** Another reference stands in the way exactly when another peer is wanted, and this one is not wanted before it. */
  lemma AnotherIsActiveExactly(s: State, p: Peer)
    ensures AnotherIsActive(s, p) <==>
              (exists q :: Wanted(s, q) && q != p) && !(Wanted(s, p) && forall q | Wanted(s, q) :: p <= q)
  {
    if q :| Wanted(s, q) && q != p {
      var first := FirstWanted(s, q);
      assert Wanted(s, p) && first == p ==> forall q | Wanted(s, q) :: p <= q;
    }
  }

  /** The tasks a request to enable finds or starts. */
  ghost predicate EnableRuns(s: State, p: Peer) {
    EnableJob(p) in s.tasks || EnableFailed(p) in s.tasks
  }

  ghost predicate DisableRuns(s: State, p: Peer) {
    DisableJob(p) in s.tasks || DisableFailed(p) in s.tasks
  }

  /** A refused request changes nothing; an accepted one is on record, and answered with success exactly when a thread works on it. */
  lemma ARequestToEnableIsAnswered(s: State, p: Peer, l: Luck)
    ensures var (s', outcome) := AskEnable(s, p, l);
            var already := p in s.records && s.records[p] == Record(true, Mounted);
            if Refused(s, p, l) then (s', outcome) == (s, Raised)
            else if already then (s', outcome) == (s, Finished)
            else if !l.firstWrite then (s', outcome) == (s, Raised)
            else
              && s'.records == s.records[p := Record(true, Enabling)]
              && s' == s.(records := s'.records, tasks := s'.tasks)
              && (outcome.Finished? <==> EnableRuns(s', p))
              && s'.tasks == s.tasks + if EnableRuns(s, p) || !l.starts then multiset{} else multiset{EnableJob(p)}
  {
  }

  lemma ARequestToDisableIsAnswered(s: State, p: Peer, l: Luck)
    ensures var (s', outcome) := AskDisable(s, p, l);
            if p !in s.records then (s', outcome) == (s, Finished)
            else if !l.firstWrite then (s', outcome) == (s, Raised)
            else
              && Detached(s', p) && s'.records[p].status == Detaching
              && s'.records == s.records[p := s'.records[p]]
              && s' == s.(records := s'.records, tasks := s'.tasks)
              && (outcome.Finished? <==> DisableRuns(s', p))
              && s'.tasks == s.tasks + if DisableRuns(s, p) || !l.starts then multiset{} else multiset{DisableJob(p)}
  {
  }

  /** A disable raises exactly when a write of it fails; else the record is gone after a clean cleanup, and failed after any other. */
  lemma ADisableEnds(s: State, p: Peer, l: Luck)
    ensures var (s', outcome) := Disable(s, p, l);
            && OnlyThisPeer(s, s', p)
            && (outcome.Raised? <==> p in s.records && (!l.firstWrite || !l.lastWrite))
            && (p !in s.records || !l.firstWrite ==> s' == s)
            && (p in s.records && l.firstWrite ==>
                  && (p in s'.mounted <==> p in s.mounted && !l.retreat.unmounts)
                  && (forall x: Link | x.peer == p ::
                        x in s'.links <==> x in s.links && (if l.retreat.clean then x in l.retreat.hidden else x !in l.retreat.lost))
                  && (p !in s'.records <==> l.lastWrite && l.retreat.clean)
                  && (p in s'.records ==> s'.records[p] == Record(false, if l.lastWrite then Failed else Detaching)))
  {
  }

  // ----------------------------------------------------- what a status is worth

  /** No record says mounted unless it said so before, or the mount was just made, or just found alive. */
  ghost predicate Earned(s: State, s': State, p: Peer) {
    p in s'.records && s'.records[p].status == Mounted ==>
      (p in s.records && s.records[p].status == Mounted) || (p in s'.mounted && s'.records[p].enabled)
  }

  lemma AnEnableIsEarned(s: State, p: Peer, l: Luck)
    ensures Earned(s, Enable(s, p, l).0, p)
  {
    MountAndReferIsEarned(s, p, l);
    MountAndReferIsEarned(CleanUp(s, p, l.recovery), p, l);
  }

  lemma MountAndReferIsEarned(s: State, p: Peer, l: Luck)
    ensures Earned(s, MountAndRefer(s, p, l).0, p)
  {
  }

  lemma ATaskIsEarned(s: State, t: Task, l: Luck)
    requires t != Probed(t.p, true)
    ensures Earned(s, RunTask(s, t, l), t.p)
  {
    AnEnableIsEarned(s, t.p, l);
    AnEnableIsEarned(Unmounted(s, t.p, l), t.p, l);
  }

  /** Whichever step comes next, a record comes to say mounted only by a mount or by a live probe. */
  lemma AStatusIsEarned(s: State, e: Event, l: Luck, p: Peer)
    requires e != Run(Probed(p, true))
    ensures Earned(s, Step(s, e, l), p)
  {
    if !e.Run? {
      ARequestIsEarned(s, e, l, p);
    } else if e.task in s.tasks {
      ATasksStepIsEarned(s, e.task, l, p);
    }
  }

  lemma ARequestIsEarned(s: State, e: Event, l: Luck, p: Peer)
    requires !e.Run?
    ensures Earned(s, Step(s, e, l), p)
  {
  }

  lemma ATasksStepIsEarned(s: State, t: Task, l: Luck, p: Peer)
    requires t != Probed(p, true)
    ensures Earned(s, RunTask(Done(s, t), t, l), p)
  {
    if t.p == p {
      ATaskIsEarned(Done(s, t), t, l);
    } else {
      ATaskSparesOtherPeers(Done(s, t), t, l, p);
    }
  }

  // ------------------------------------------------------ one thread of a kind

  function EnableThreads(s: State, p: Peer): nat {
    s.tasks[EnableJob(p)] + s.tasks[EnableFailed(p)]
  }

  function DisableThreads(s: State, p: Peer): nat {
    s.tasks[DisableJob(p)] + s.tasks[DisableFailed(p)]
  }

  function BiosThreads(s: State, p: Peer): nat {
    s.tasks[BiosStart(p)] + s.tasks[BiosLink(p)] + s.tasks[BiosFailed(p)]
  }

  /** At most one thread of each kind works for a peer. */
  ghost predicate OneThreadEach(s: State, p: Peer) {
    EnableThreads(s, p) <= 1 && DisableThreads(s, p) <= 1 && BiosThreads(s, p) <= 1
  }

  /** These tasks, and perhaps a BIOS worker where there was none. */
  ghost predicate PerhapsABiosWorker(before: multiset<Task>, after: multiset<Task>, q: Peer) {
    || after == before
    || (after == before + multiset{BiosStart(q)} && BiosStart(q) !in before && BiosLink(q) !in before && BiosFailed(q) !in before)
  }

  lemma AnEnableStartsOneWorker(s: State, q: Peer, l: Luck)
    ensures PerhapsABiosWorker(s.tasks, Enable(s, q, l).0.tasks, q)
  {
    MountAndReferStartsOneWorker(s, q, l);
    MountAndReferStartsOneWorker(CleanUp(s, q, l.recovery), q, l);
  }

  lemma MountAndReferStartsOneWorker(s: State, q: Peer, l: Luck)
    ensures PerhapsABiosWorker(s.tasks, MountAndRefer(s, q, l).0.tasks, q)
  {
  }

  /** What may take a thread's place: what its call started, and its own next step. */
  function NextSteps(t: Task): set<Task> {
    match t
    case EnableJob(q) => {EnableFailed(q)}
    case DisableJob(q) => {DisableFailed(q)}
    case BiosStart(q) => {BiosLink(q), BiosFailed(q)}
    case Probed(q, _) => {ProbeFailed(q)}
    case _ => {}
  }

  ghost predicate TakesItsPlace(before: multiset<Task>, after: multiset<Task>, t: Task) {
    if t.EnableJob? || t.Probed? || t.Replay? then
      exists tasks :: PerhapsABiosWorker(before, tasks, t.p) && Followed(tasks, after, t)
    else Followed(before, after, t)
  }

  ghost predicate Followed(tasks: multiset<Task>, after: multiset<Task>, t: Task) {
    after == tasks || exists next :: next in NextSteps(t) && after == tasks + multiset{next}
  }

  lemma AnEnableIsFollowed(s: State, t: Task, l: Luck, after: multiset<Task>)
    requires t.EnableJob? || t.Probed? || t.Replay?
    requires Followed(Enable(s, t.p, l).0.tasks, after, t)
    ensures TakesItsPlace(s.tasks, after, t)
  {
    AnEnableStartsOneWorker(s, t.p, l);
  }

  lemma Unfollowed(tasks: multiset<Task>, t: Task)
    ensures Followed(tasks, tasks, t) && TakesItsPlace(tasks, tasks, t)
  {
    assert PerhapsABiosWorker(tasks, tasks, t.p);
  }

  lemma FollowedBy(tasks: multiset<Task>, t: Task, next: Task)
    requires next in NextSteps(t)
    ensures Followed(tasks, tasks + multiset{next}, t)
  {
  }

  lemma AnEnableJobIsFollowed(s: State, q: Peer, l: Luck)
    ensures TakesItsPlace(s.tasks, RunEnable(s, q, l).tasks, EnableJob(q))
  {
    var enabled := Enable(s, q, l).0.tasks;
    Unfollowed(enabled, EnableJob(q));
    FollowedBy(enabled, EnableJob(q), EnableFailed(q));
    AnEnableIsFollowed(s, EnableJob(q), l, RunEnable(s, q, l).tasks);
  }

  lemma ARemountIsFollowed(s: State, q: Peer, l: Luck)
    ensures TakesItsPlace(s.tasks, Remount(s, q, l).tasks, Probed(q, false))
  {
    var enabled := Enable(s, q, l).0.tasks;
    Unfollowed(enabled, Probed(q, false));
    FollowedBy(enabled, Probed(q, false), ProbeFailed(q));
    AnEnableIsFollowed(s, Probed(q, false), l, Remount(s, q, l).tasks);
  }

  lemma ALiveProbeIsFollowed(s: State, q: Peer, l: Luck)
    ensures Followed(s.tasks, RunProbed(s, q, true, l).tasks, Probed(q, true))
  {
    FollowedBy(s.tasks, Probed(q, true), ProbeFailed(q));
  }

  lemma AProbeIsFollowed(s: State, q: Peer, alive: bool, l: Luck)
    ensures TakesItsPlace(s.tasks, RunProbed(s, q, alive, l).tasks, Probed(q, alive))
  {
    if alive {
      ALiveProbeIsFollowed(s, q, l);
      assert PerhapsABiosWorker(s.tasks, s.tasks, q);
    } else if Wanted(s, q) {
      ARemountIsFollowed(Unmounted(s, q, l), q, l);
    } else {
      Unfollowed(s.tasks, Probed(q, alive));
    }
  }

  lemma AReplayIsFollowed(s: State, q: Peer, detach: bool, l: Luck)
    ensures TakesItsPlace(s.tasks, RunTask(s, Replay(q, detach), l).tasks, Replay(q, detach))
  {
    Unfollowed(s.tasks, Replay(q, detach));
    Unfollowed(Enable(s, q, l).0.tasks, Replay(q, detach));
    AnEnableIsFollowed(s, Replay(q, detach), l, Enable(s, q, l).0.tasks);
  }

  lemma ATaskIsFollowed(s: State, t: Task, l: Luck)
    ensures TakesItsPlace(s.tasks, RunTask(s, t, l).tasks, t)
  {
    match t {
      case EnableJob(q) => AnEnableJobIsFollowed(s, q, l);
      case Probed(q, alive) => AProbeIsFollowed(s, q, alive, l);
      case Replay(q, detach) => AReplayIsFollowed(s, q, detach, l);
      case DisableJob(q) => ADisableJobIsFollowed(s, q, l);
      case BiosStart(q) => ABiosStartIsFollowed(s, q, l);
      case _ => ALastStepIsNotFollowed(s, t, l);
    }
  }

  lemma ADisableJobIsFollowed(s: State, q: Peer, l: Luck)
    ensures TakesItsPlace(s.tasks, RunDisable(s, q, l).tasks, DisableJob(q))
  {
    Unfollowed(s.tasks, DisableJob(q));
    FollowedBy(s.tasks, DisableJob(q), DisableFailed(q));
  }

  lemma ABiosStartIsFollowed(s: State, q: Peer, l: Luck)
    ensures TakesItsPlace(s.tasks, RunTask(s, BiosStart(q), l).tasks, BiosStart(q))
  {
    Unfollowed(s.tasks, BiosStart(q));
    FollowedBy(s.tasks, BiosStart(q), BiosLink(q));
    FollowedBy(s.tasks, BiosStart(q), BiosFailed(q));
  }

  lemma ALastStepIsNotFollowed(s: State, t: Task, l: Luck)
    requires t.EnableFailed? || t.DisableFailed? || t.ProbeFailed? || t.BiosLink? || t.BiosFailed?
    ensures TakesItsPlace(s.tasks, RunTask(s, t, l).tasks, t)
  {
    Unfollowed(s.tasks, t);
    assert RunTask(s, t, l).tasks == s.tasks;
  }

  lemma AWorkerMakesOne(before: multiset<Task>, after: multiset<Task>, q: Peer, p: Peer)
    requires PerhapsABiosWorker(before, after, q)
    ensures after[EnableJob(p)] == before[EnableJob(p)] && after[EnableFailed(p)] == before[EnableFailed(p)]
    ensures after[DisableJob(p)] == before[DisableJob(p)] && after[DisableFailed(p)] == before[DisableFailed(p)]
    ensures var n, m := before[BiosStart(p)] + before[BiosLink(p)] + before[BiosFailed(p)],
                        after[BiosStart(p)] + after[BiosLink(p)] + after[BiosFailed(p)];
            m == n || (n == 0 && m == 1 && p == q)
  {
  }

  lemma ANextStepMakesOne(before: multiset<Task>, after: multiset<Task>, t: Task, p: Peer)
    requires Followed(before, after, t)
    ensures after[EnableJob(p)] == before[EnableJob(p)] && after[DisableJob(p)] == before[DisableJob(p)]
    ensures after[EnableFailed(p)] <= before[EnableFailed(p)] + if t == EnableJob(p) then 1 else 0
    ensures after[DisableFailed(p)] <= before[DisableFailed(p)] + if t == DisableJob(p) then 1 else 0
    ensures after[BiosStart(p)] == before[BiosStart(p)]
    ensures after[BiosLink(p)] + after[BiosFailed(p)] <= before[BiosLink(p)] + before[BiosFailed(p)] + if t == BiosStart(p) then 1 else 0
  {
  }

  lemma OneFewer(s: State, t: Task, u: Task)
    requires t in s.tasks
    ensures Done(s, t).tasks[u] == s.tasks[u] - if u == t then 1 else 0
  {
  }

  lemma ATaskKeepsOneThreadEach(s: State, t: Task, l: Luck, p: Peer)
    requires OneThreadEach(s, p) && t in s.tasks
    ensures OneThreadEach(RunTask(Done(s, t), t, l), p)
  {
    var s0 := Done(s, t);
    ATaskIsFollowed(s0, t, l);
    OneThreadStays(s, t, RunTask(s0, t, l), p);
  }

  lemma OneThreadStays(s: State, t: Task, s': State, p: Peer)
    requires OneThreadEach(s, p) && t in s.tasks && TakesItsPlace(Done(s, t).tasks, s'.tasks, t)
    ensures OneThreadEach(s', p)
  {
    var before := Done(s, t).tasks;
    OneFewer(s, t, EnableJob(p));
    OneFewer(s, t, EnableFailed(p));
    OneFewer(s, t, DisableJob(p));
    OneFewer(s, t, DisableFailed(p));
    OneFewer(s, t, BiosStart(p));
    OneFewer(s, t, BiosLink(p));
    OneFewer(s, t, BiosFailed(p));
    if t.EnableJob? || t.Probed? || t.Replay? {
      var tasks :| PerhapsABiosWorker(before, tasks, t.p) && Followed(tasks, s'.tasks, t);
      AWorkerMakesOne(before, tasks, t.p, p);
      ANextStepMakesOne(tasks, s'.tasks, t, p);
    } else {
      ANextStepMakesOne(before, s'.tasks, t, p);
    }
  }

  lemma ARequestKeepsOneThreadEach(s: State, e: Event, l: Luck, p: Peer)
    requires OneThreadEach(s, p) && (e.RequestEnable? || e.RequestDisable? || e.Reboot?)
    ensures OneThreadEach(Step(s, e, l), p)
  {
  }

  lemma OthersKeepOneThreadEach(s: State, s': State, more: multiset<Task>, p: Peer)
    requires OneThreadEach(s, p) && s'.tasks == s.tasks + more && forall t: Task | t in more :: t.Probed? || t.Replay?
    ensures OneThreadEach(s', p)
  {
    assert forall t: Task | !t.Probed? && !t.Replay? :: s'.tasks[t] == s.tasks[t];
  }

  lemma OneStepKeepsOneThreadEach(s: State, e: Event, l: Luck, p: Peer)
    requires OneThreadEach(s, p)
    ensures OneThreadEach(Step(s, e, l), p)
  {
    match e {
      case Run(t) =>
        if t in s.tasks {
          ATaskKeepsOneThreadEach(s, t, l, p);
        }
      case Tick(alive) =>
        OthersKeepOneThreadEach(s, Step(s, e, l), multiset(set q | q in s.records && Wanted(s, q) :: Probed(q, alive(q))), p);
      case Boot =>
        OthersKeepOneThreadEach(s, Step(s, e, l), multiset(set q | q in s.records :: Replay(q, Leaving(s, q))), p);
      case _ =>
        ARequestKeepsOneThreadEach(s, e, l, p);
    }
  }

  /** Over every interleaving: however often it is asked, one thread at a time enables, disables or links the BIOS of a peer. */
  lemma {:induction false} OneThreadOfAKind(s: State, events: seq<(Event, Luck)>, p: Peer)
    requires OneThreadEach(s, p)
    ensures OneThreadEach(After(s, events), p)
  {
    if events != [] {
      var n := |events| - 1;
      OneThreadOfAKind(s, events[..n], p);
      OneStepKeepsOneThreadEach(After(s, events[..n]), events[n].0, events[n].1, p);
    }
  }

  // ------------------------------------------------ failures, and the BIOS worker

  /** A thread whose call raised leaves a record of it, unless the peer is on its way out or the write fails. */
  lemma AFailureIsRecorded(s: State, p: Peer, l: Luck)
    ensures EnableFailed(p) in s.tasks ==>
              Step(s, Run(EnableFailed(p)), l)
              == if Wanted(s, p) && l.firstWrite then Upsert(Done(s, EnableFailed(p)), p, true, Failed) else Done(s, EnableFailed(p))
    ensures DisableFailed(p) in s.tasks ==>
              Step(s, Run(DisableFailed(p)), l)
              == if p in s.records && l.firstWrite then Upsert(Done(s, DisableFailed(p)), p, false, Failed) else Done(s, DisableFailed(p))
    ensures ProbeFailed(p) in s.tasks ==>
              Step(s, Run(ProbeFailed(p)), l)
              == if p in s.records && s.records[p].enabled && l.firstWrite
                 then Upsert(Done(s, ProbeFailed(p)), p, true, Unreachable) else Done(s, ProbeFailed(p))
  {
  }

  /** A thread that enables or disables leaves its failure to be recorded exactly when its call raised. */
  lemma AThreadReportsItsFailure(s: State, p: Peer, l: Luck)
    ensures EnableJob(p) in s.tasks ==>
              var (s', outcome) := Enable(Done(s, EnableJob(p)), p, l);
              Step(s, Run(EnableJob(p)), l) == if outcome.Raised? then Add(s', EnableFailed(p)) else s'
    ensures DisableJob(p) in s.tasks ==>
              var (s', outcome) := Disable(Done(s, DisableJob(p)), p, l);
              Step(s, Run(DisableJob(p)), l) == if outcome.Raised? then Add(s', DisableFailed(p)) else s'
  {
  }

  /** The BIOS worker goes on only while the peer is wanted ... */
  lemma TheBiosWorkerStarts(s: State, p: Peer, l: Luck)
    requires BiosStart(p) in s.tasks
    ensures Step(s, Run(BiosStart(p)), l)
            == if Wanted(s, p) && l.firstWrite then Add(Done(s, BiosStart(p)), if l.fetches then BiosLink(p) else BiosFailed(p))
               else Done(s, BiosStart(p))
  {
  }

  /** ... and links just what it was given, and only while the reference stands mounted. */
  lemma TheBiosWorkerLinks(s: State, p: Peer, l: Luck, x: Link)
    requires BiosLink(p) in s.tasks
    ensures var s' := Step(s, Run(BiosLink(p)), l);
            && s' == Done(s, BiosLink(p)).(links := s'.links)
            && (x in s'.links <==>
                x in s.links || (p in s.records && s.records[p] == Record(true, Mounted) && x.peer == p && x in l.added))
  {
    var s0 := Done(s, BiosLink(p));
    assert s0.links == s.links && s0.records == s.records;
  }

  // ------------------------------------------------------------ the manager

  class ShareManager {
    var records: map<Peer, Record>
    var overlay: Option<Peer>
    var links: set<Link>
    var mounted: set<Peer>
    var tasks: multiset<Task>

    function Contents(): State
      reads this
    {
      State(records, overlay, links, mounted, tasks)
    }

    constructor ()
      ensures Contents() == State(map[], None, {}, {}, multiset{})
    {
      records, overlay, links, mounted, tasks := map[], None, {}, {}, multiset{};
    }

    method RestoreLocalFallback(p: Peer, c: Cleanup)
      modifies this
      ensures Contents() == CleanUp(old(Contents()), p, c)
    {
      links := set l | l in links && (l.peer != p || (if c.clean then l in c.hidden else l !in c.lost));
      if c.clean || c.overlayGoes {
        overlay := None;
      }
      if c.unmounts {
        mounted := mounted - {p};
      }
    }

    method UpsertRecord(p: Peer, enabled: bool, status: Status)
      modifies this
      ensures Contents() == Upsert(old(Contents()), p, enabled, status)
    {
      records := records[p := Record(enabled, status)];
    }

    method EnableLocked(p: Peer, l: Luck) returns (outcome: Outcome)
      modifies this
      ensures (Contents(), outcome) == Enable(old(Contents()), p, l)
    {
      if !l.resolves || AnotherIsActive(Contents(), p) || Leaving(Contents(), p) {
        return Raised;
      }
      if p in records && records[p].status in {Pending, Enabling} {
        RestoreLocalFallback(p, l.recovery);
        if !l.firstWrite {
          return Raised;
        }
        if !l.recovery.clean {
          UpsertRecord(p, true, Failed);
          return Finished;
        }
      }
      outcome := MountAndInstall(p, l);
    }

    method MountAndInstall(p: Peer, l: Luck) returns (outcome: Outcome)
      modifies this
      ensures (Contents(), outcome) == MountAndRefer(old(Contents()), p, l)
    {
      if !l.secondWrite {
        return Raised;
      }
      UpsertRecord(p, true, Enabling);
      if p !in mounted && !l.mounts {
        outcome := GiveUp(p, l, Unreachable);
        return;
      }
      mounted := mounted + {p};
      if !l.readable || !l.installs {
        outcome := GiveUp(p, l, Failed);
        return;
      }
      outcome := InstallOverlay(p, l);
    }

    method GiveUp(p: Peer, l: Luck, status: Status) returns (outcome: Outcome)
      modifies this
      ensures (Contents(), outcome) == Retreat(old(Contents()), p, l, status)
    {
      RestoreLocalFallback(p, l.retreat);
      if !l.lastWrite {
        return Raised;
      }
      UpsertRecord(p, true, if l.retreat.clean then status else Failed);
      return Finished;
    }

    method InstallOverlay(p: Peer, l: Luck) returns (outcome: Outcome)
      modifies this
      ensures (Contents(), outcome) == Refer(old(Contents()), p, l)
    {
      if !l.nothingSelected {
        overlay := Some(p);
      }
      if !l.background {
        links := links + set x | x in l.added && x.peer == p;
      }
      if !l.lastWrite {
        return Raised;
      }
      UpsertRecord(p, true, Mounted);
      if l.background && !HasBiosJob(Contents(), p) {
        if !l.starts {
          return Raised;
        }
        tasks := tasks + multiset{BiosStart(p)};
      }
      return Finished;
    }

    method DisableLocked(p: Peer, l: Luck) returns (outcome: Outcome)
      modifies this
      ensures (Contents(), outcome) == Disable(old(Contents()), p, l)
    {
      if p !in records {
        return Finished;
      }
      if !l.firstWrite {
        return Raised;
      }
      UpsertRecord(p, false, Detaching);
      RestoreLocalFallback(p, l.retreat);
      if !l.lastWrite {
        return Raised;
      }
      if !l.retreat.clean {
        UpsertRecord(p, false, Failed);
      } else {
        records := records - {p};
      }
      return Finished;
    }

    method AcceptEnable(p: Peer, l: Luck) returns (outcome: Outcome)
      modifies this
      ensures (Contents(), outcome) == AskEnable(old(Contents()), p, l)
    {
      if !l.resolves || AnotherIsActive(Contents(), p) {
        return Raised;
      }
      if p in records && records[p].enabled && records[p].status == Mounted {
        return Finished;
      }
      if Leaving(Contents(), p) || !l.firstWrite {
        return Raised;
      }
      UpsertRecord(p, true, Enabling);
      if EnableJob(p) in tasks || EnableFailed(p) in tasks {
        return Finished;
      }
      if !l.starts {
        return Raised;
      }
      tasks := tasks + multiset{EnableJob(p)};
      return Finished;
    }

    method AcceptDisable(p: Peer, l: Luck) returns (outcome: Outcome)
      modifies this
      ensures (Contents(), outcome) == AskDisable(old(Contents()), p, l)
    {
      if p !in records {
        return Finished;
      }
      if !l.firstWrite {
        return Raised;
      }
      UpsertRecord(p, false, Detaching);
      if DisableJob(p) in tasks || DisableFailed(p) in tasks {
        return Finished;
      }
      if !l.starts {
        return Raised;
      }
      tasks := tasks + multiset{DisableJob(p)};
      return Finished;
    }

    /** The watchdog, which re-checks the record under the lock before it remounts. */
    method HandleProbe(p: Peer, alive: bool, l: Luck)
      modifies this
      ensures Contents() == RunProbed(old(Contents()), p, alive, l)
    {
      if !Wanted(Contents(), p) {
        return;
      }
      if alive {
        if records[p].status != Mounted {
          if !l.firstWrite {
            tasks := tasks + multiset{ProbeFailed(p)};
            return;
          }
        }
        UpsertRecord(p, true, Mounted);
        return;
      }
      if l.recovery.unmounts {
        mounted := mounted - {p};
      }
      var outcome := EnableLocked(p, l);
      if outcome.Raised? {
        tasks := tasks + multiset{ProbeFailed(p)};
      }
    }

    /** The body of the thread that a request to enable starts. */
    method FinishEnable(p: Peer, l: Luck)
      modifies this
      ensures Contents() == RunEnable(old(Contents()), p, l)
    {
      var outcome := EnableLocked(p, l);
      if outcome.Raised? {
        tasks := tasks + multiset{EnableFailed(p)};
      }
    }

    method FinishDisable(p: Peer, l: Luck)
      modifies this
      ensures Contents() == RunDisable(old(Contents()), p, l)
    {
      var outcome := DisableLocked(p, l);
      if outcome.Raised? {
        tasks := tasks + multiset{DisableFailed(p)};
      }
    }

    /** What a thread does when its call raised. */
    method HandleFailure(t: Task, l: Luck)
      requires t.EnableFailed? || t.DisableFailed? || t.ProbeFailed?
      modifies this
      ensures Contents() == RunTask(old(Contents()), t, l)
    {
      var p := t.p;
      if !l.firstWrite || p !in records {
        return;
      }
      if t.DisableFailed? {
        UpsertRecord(p, false, Failed);
      } else if t.EnableFailed? && Wanted(Contents(), p) {
        UpsertRecord(p, true, Failed);
      } else if t.ProbeFailed? && records[p].enabled {
        UpsertRecord(p, true, Unreachable);
      }
    }

    method ReconcileBios(t: Task, l: Luck)
      requires t.BiosStart? || t.BiosLink? || t.BiosFailed?
      modifies this
      ensures Contents() == RunTask(old(Contents()), t, l)
    {
      var p := t.p;
      if t.BiosStart? && Wanted(Contents(), p) && l.firstWrite {
        tasks := tasks + multiset{if l.fetches then BiosLink(p) else BiosFailed(p)};
      }
      if t.BiosLink? && p in records && records[p].enabled && records[p].status == Mounted {
        links := links + set x | x in l.added && x.peer == p;
      }
    }

    /** Boot replay goes by the snapshot it took. */
    method ReplayShare(p: Peer, detach: bool, l: Luck)
      modifies this
      ensures Contents() == RunTask(old(Contents()), Replay(p, detach), l)
    {
      var outcome;
      if detach {
        outcome := DisableLocked(p, l);
      } else {
        outcome := EnableLocked(p, l);
      }
    }

    /** Runs a thread's next locked step. */
    method Continue(t: Task, l: Luck)
      requires t in tasks
      modifies this
      ensures Contents() == Step(old(Contents()), Run(t), l)
    {
      tasks := tasks - multiset{t};
      match t {
        case EnableJob(p) => FinishEnable(p, l);
        case DisableJob(p) => FinishDisable(p, l);
        case Probed(p, alive) => HandleProbe(p, alive, l);
        case Replay(p, detach) => ReplayShare(p, detach, l);
        case BiosStart(_) => ReconcileBios(t, l);
        case BiosLink(_) => ReconcileBios(t, l);
        case BiosFailed(_) => ReconcileBios(t, l);
        case _ => HandleFailure(t, l);
      }
    }

    /** Whatever comes next: a request, a turn of the watchdog, a thread's step, a reboot or boot replay. */
    method Handle(e: Event, l: Luck)
      modifies this
      ensures Contents() == Step(old(Contents()), e, l)
    {
      match e {
        case RequestEnable(p) =>
          var _ := AcceptEnable(p, l);
        case RequestDisable(p) =>
          var _ := AcceptDisable(p, l);
        case Tick(alive) =>
          tasks := tasks + multiset(set p | p in records && Wanted(Contents(), p) :: Probed(p, alive(p)));
        case Run(t) =>
          if t in tasks {
            Continue(t, l);
          }
        case Reboot =>
          tasks, mounted := multiset{}, {};
        case Boot =>
          tasks := tasks + multiset(set p | p in records :: Replay(p, Leaving(Contents(), p)));
      }
    }

    method HandleAll(events: seq<(Event, Luck)>)
      modifies this
      ensures Contents() == After(old(Contents()), events)
    {
      for i := 0 to |events|
        invariant Contents() == After(old(Contents()), events[..i])
      {
        assert events[..i + 1][..i] == events[..i];
        Handle(events[i].0, events[i].1);
      }
      assert events[..|events|] == events;
    }
  }

  /** The detach boundary, read off the running manager: any events, as long as the record is there. */
  method HandleAllWhileDetaching(manager: ShareManager, p: Peer, events: seq<(Event, Luck)>)
    requires Detached(manager.Contents(), p)
    modifies manager
    ensures (forall k | 0 <= k <= |events| :: p in After(old(manager.Contents()), events[..k]).records) ==>
              Detached(manager.Contents(), p) && NothingNew(old(manager.Contents()), manager.Contents(), p)
  {
    ghost var before := manager.Contents();
    manager.HandleAll(events);
    if forall k | 0 <= k <= |events| :: p in After(before, events[..k]).records {
      DetachIntentIsADurableBoundary(before, events, p);
    }
  }

  /** One more event, whichever it is. */
  method HandleWhileDetaching(manager: ShareManager, p: Peer, e: Event, l: Luck)
    requires Detached(manager.Contents(), p)
    modifies manager
    ensures StaysDetached(old(manager.Contents()), manager.Contents(), p, l.retreat)
  {
    ghost var before := manager.Contents();
    manager.Handle(e, l);
    NoStepRevivesADetachedPeer(before, e, l, p);
  }
}
