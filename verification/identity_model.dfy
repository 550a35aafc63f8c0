/**
  The identity lifecycle as functions on durable state
  (app/common/identity_provisioning.py).

  A run is a World: the disk as it stands and every disk state it has passed
  through. Power can fail between any two durable writes, so the states a boot
  may leave behind are exactly the ones in its trace.
 */
module IdentityModel {
  import opened Options
  import opened HardwareIdentity

  // ------------------------------------------------------------ durable state

  /** What the validators can tell about a JSON value that should be an identifier. */
  datatype Text = NotText | Blank | Garbled | Id(n: nat)

  datatype Json<+T> = Absent | Corrupt | Object(value: T)

  /** A key or certificate file; Holds(n) is half of the pair number n. */
  datatype PairFile = Missing | Damaged | Holds(n: nat)

  datatype Reason = Initial | Clone | OperatorNewIdentity | OtherReason
  datatype JournalState = CloneDetected | Provisioning | OtherState
  datatype Step = Retired | SwarmReset | TailnetCleared | CertificateIssued
  datatype TailnetStatus = NotInstalled | Reset | Held | Error

  datatype Journal = Journal(
    reason: Reason,
    state: JournalState,
    stepsIsObject: bool,
    startedAt: Text,
    previousDevice: Text,
    previousInstallation: Text,
    previousFingerprint: Text,
    hardware: Option<Evidence>,
    newDevice: Option<Text>,          // None for an absent field and for JSON null
    steps: set<Step>,
    tailnet: Option<TailnetStatus>)

  datatype BindingDocument = BindingDocument(
    schemaVersion: Option<int>,
    installation: Text,
    device: Text,
    fingerprint: Text,
    hardware: Option<Evidence>,
    hardwareBound: bool,              // the document says evidence was once recorded
    retired: seq<Text>,
    tailnetResetPending: bool)

  datatype Binding = Binding(
    installation: Text,
    device: nat,
    fingerprint: nat,
    hardware: Option<Evidence>,
    retired: seq<Text>,
    tailnetResetPending: bool)

  datatype RecoveryReason =
    | BindingUnreadable | BindingInvalid | BindingEvidenceMissing
    | JournalUnreadable | JournalHardwareUnverified
    | InsufficientEvidence | ContradictoryEvidence
    | CertificateInvalid | CertificateMismatch | TailnetResetFailed
    | ProvisioningFailed

  datatype Marker = Marker(reason: RecoveryReason, tailnetHeld: bool)

  datatype Disk = Disk(
    key: PairFile,
    certificate: PairFile,
    deviceFile: Option<nat>,
    binding: Json<BindingDocument>,
    journal: Json<Journal>,
    recovery: Json<Marker>,
    authorization: Option<nat>,       // the time the pending authorization expires
    swarm: set<nat>,                  // peers, pins, roster rows and tokens
    node: Option<nat>)                // the Tailscale node key on the disk

  // -------------------------------------------------------------- one boot

  datatype ResetOutcome = Complete | Incomplete | Raises

  /** Everything a boot meets that the disk does not determine. */
  datatype Boot = Boot(
    reading: Reading,
    settingsDevice: nat,              // the device id the settings carry
    pinned: bool,                     // ... because the environment pins it
    now: nat,
    expired: set<nat>,                // certificates past their end date
    freshCertificate: Option<nat>,    // None: openssl fails
    freshDevice: nat,
    deviceWritable: bool,
    freshInstallation: nat,
    reset: ResetOutcome,
    swarmLeft: set<nat>,              // what an unfinished reset may leave
    tailnet: TailnetStatus,
    holds: bool)                      // tailscale down succeeds

  datatype Pair = Pair(present: bool, valid: bool, fingerprint: Text)

  function PairStatus(d: Disk, expired: set<nat>): Pair {
    var present := d.key != Missing || d.certificate != Missing;
    if d.key == Missing || !d.certificate.Holds? then Pair(present, false, Blank)
    else Pair(present, d.key == d.certificate && d.certificate.n !in expired, Id(d.certificate.n))
  }

  datatype World = World(disk: Disk, trace: seq<Disk>) {
    function Put(d: Disk): World { World(d, trace + [d]) }
    function PutJournal(j: Journal): World { Put(disk.(journal := Object(j))) }
    function PutBinding(b: Binding): World { Put(disk.(binding := Object(Document(b)))) }
  }

  datatype Outcome = Ready(device: nat) | RecoveryRequired(reason: RecoveryReason) | Raised | Refused

  datatype Exec = Exec(world: World, outcome: Outcome)

  // --------------------------------------------------------------- binding

  const HISTORY_LIMIT := 20

  datatype Loaded = NoBinding | Problem(reason: RecoveryReason) | Bound(binding: Binding)

  function LoadBinding(file: Json<BindingDocument>): Loaded {
    match file
    case Absent => NoBinding
    case Corrupt => Problem(BindingUnreadable)
    case Object(raw) =>
      if raw.schemaVersion.None? || raw.schemaVersion.value < 1 then Problem(BindingInvalid)
      else if raw.installation in {NotText, Blank} || !raw.device.Id? || !raw.fingerprint.Id? then Problem(BindingInvalid)
      else if raw.hardwareBound && (raw.hardware.None? || raw.hardware.value.components == map[]) then
        Problem(BindingEvidenceMissing)
      else Bound(Binding(raw.installation, raw.device.n, raw.fingerprint.n, raw.hardware, raw.retired, raw.tailnetResetPending))
  }

  function Document(b: Binding): BindingDocument {
    BindingDocument(Some(1), b.installation, Id(b.device), Id(b.fingerprint), b.hardware,
                    b.hardware.Some? && b.hardware.value.components != map[], b.retired, b.tailnetResetPending)
  }

  /** What is saved is what is loaded back; in particular a saved binding never reads as damaged. */
  lemma LoadInvertsSave(b: Binding)
    requires b.installation !in {NotText, Blank}
    ensures LoadBinding(Object(Document(b))) == Bound(b)
  {
  }

  function LastOf(s: seq<Text>): seq<Text> {
    if |s| <= HISTORY_LIMIT then s else s[|s| - HISTORY_LIMIT..]
  }

  /** The binding fields provisioning takes over from what was there before. */
  datatype Prior = Prior(fingerprint: Text, device: Text, installation: Text, retired: seq<Text>)

  const NOTHING_PRIOR := Prior(Blank, Blank, Blank, [])

  function PriorOf(loaded: Loaded): Prior {
    match loaded
    case Bound(b) => Prior(Id(b.fingerprint), Id(b.device), b.installation, b.retired)
    case _ => NOTHING_PRIOR
  }

  // --------------------------------------------------------------- journal

  predicate ValidJournal(j: Journal) {
    && j.reason != OtherReason
    && j.state != OtherState
    && j.stepsIsObject
    && j.startedAt !in {NotText, Blank}
    && j.previousDevice != NotText
    && j.previousInstallation != NotText
    && j.previousFingerprint !in {NotText, Garbled}
    && j.hardware.Some?
    && (j.newDevice.Some? ==> j.newDevice.value.Id?)
  }

  // ---------------------------------------------------------- provisioning

  /** A file is overwritten before it is unlinked. */
  function WipeKey(w: World): World {
    if w.disk.key == Missing then w
    else
      var w1 := w.Put(w.disk.(key := Damaged));
      w1.Put(w1.disk.(key := Missing))
  }

  function WipeCertificate(w: World): World {
    if w.disk.certificate == Missing then w
    else
      var w1 := w.Put(w.disk.(certificate := Damaged));
      w1.Put(w1.disk.(certificate := Missing))
  }

  /** Zeroes and removes the inherited key and certificate; a resumed run removes the inherited ones only. */
  function RetireOldIdentity(w: World, j: Journal, b: Boot): World {
    var current := PairStatus(w.disk, b.expired);
    if current.present && (Retired !in j.steps || !current.valid || current.fingerprint == j.previousFingerprint) then
      WipeCertificate(WipeKey(w))
    else w
  }

  /** A resumed run keeps the journaled id; otherwise the old id file goes and a random id is stored. */
  function ChooseDevice(w: World, j: Journal, b: Boot): (World, Option<nat>) {
    match j.newDevice
    case Some(Id(n)) => (w, Some(n))
    case Some(_) => (w, None)
    case None =>
      var w1 := w.Put(w.disk.(deviceFile := None));
      (if b.deviceWritable then w1.Put(w1.disk.(deviceFile := Some(b.freshDevice))) else w1, Some(b.freshDevice))
  }

  function SwarmAfterReset(swarm: set<nat>, b: Boot): set<nat> {
    if b.reset == Complete then {} else swarm * b.swarmLeft
  }

  /** Without an installed client nothing looks at the daemon's state, and a node key that is there stays. */
  function NodeAfter(node: Option<nat>, status: TailnetStatus): Option<nat> {
    if status == Reset then None else node
  }

  /** The status that lets provisioning go on, if there is one. */
  function ConfirmedTailnet(b: Boot): Option<TailnetStatus> {
    if b.tailnet != Error then Some(b.tailnet) else if b.holds then Some(Held) else None
  }

  function GenerateCertificate(w: World, n: nat): World {
    var w1 := w.Put(w.disk.(key := Holds(n)));
    w1.Put(w1.disk.(certificate := Holds(n)))
  }

  /** The journal of this run, written twice before anything is destroyed. */
  function OpenJournal(w: World, device: nat, reason: Reason, prior: Prior, resumed: Option<Journal>, b: Boot): (World, Journal) {
    match resumed
    case Some(j) =>
      var j1 := j.(state := Provisioning);
      (w.PutJournal(j1), j1)
    case None =>
      var j0 := NewJournal(w.disk, device, reason, prior, b);
      var j1 := j0.(state := Provisioning);
      (w.PutJournal(j0).PutJournal(j1), j1)
  }

  function NewJournal(d: Disk, device: nat, reason: Reason, prior: Prior, b: Boot): Journal {
    Journal(reason, if reason == Clone then CloneDetected else Provisioning, true, Id(b.now),
            if prior.device == Blank then Id(device) else prior.device,
            prior.installation,
            if prior.fingerprint == Blank then PairStatus(d, b.expired).fingerprint else prior.fingerprint,
            Some(b.reading.evidence), None, {}, None)
  }

  function Provision(w: World, device: nat, reason: Reason, prior: Prior, resumed: Option<Journal>, b: Boot): Exec {
    var (w1, j1) := OpenJournal(w, device, reason, prior, resumed, b);
    if reason == Initial then
      if j1.newDevice.Some? && j1.newDevice.value.Id? then IssueAndBind(w1, j1.newDevice.value.n, reason, prior, j1, b)
      else IssueAndBind(w1, device, reason, prior, j1, b)
    else ReplaceIdentity(w1, reason, prior, j1, b)
  }

  /** The destructive steps, each recorded in the journal before the next one starts. */
  function ReplaceIdentity(w: World, reason: Reason, prior: Prior, j1: Journal, b: Boot): Exec {
    var w2 := RetireOldIdentity(w, j1, b);
    var j2 := j1.(steps := j1.steps + {Retired});
    var w3 := w2.PutJournal(j2);
    var w4 := w3.Put(w3.disk.(swarm := SwarmAfterReset(w3.disk.swarm, b)));
    if b.reset == Raises then Exec(w4, Raised)
    else
      var j3 := j2.(steps := j2.steps + {SwarmReset});
      var w5 := w4.PutJournal(j3);
      if b.reset == Incomplete then Exec(w5, Raised)
      else
        var (w6, chosen) := ChooseDevice(w5, j3, b);
        if chosen.None? then Exec(w6, Raised)
        else NameAndDetach(w6, chosen.value, reason, prior, j3, b)
  }

  function NameAndDetach(w6: World, device: nat, reason: Reason, prior: Prior, j3: Journal, b: Boot): Exec {
    var j4 := j3.(newDevice := Some(Id(device)));
    var w7 := w6.PutJournal(j4);
    var w8 := w7.Put(w7.disk.(node := NodeAfter(w7.disk.node, b.tailnet)));
    var status := ConfirmedTailnet(b);
    if status.None? then Exec(w8, Raised)
    else
      var j5 := j4.(steps := j4.steps + {TailnetCleared}, tailnet := status);
      IssueAndBind(w8.PutJournal(j5), device, reason, prior, j5, b)
  }

  /** Makes or reuses the certificate, then commits the binding and drops the journal. */
  function IssueAndBind(w: World, device: nat, reason: Reason, prior: Prior, j: Journal, b: Boot): Exec {
    var current := PairStatus(w.disk, b.expired);
    var keep := current.valid && (reason == Initial || current.fingerprint != j.previousFingerprint);
    if !keep && b.freshCertificate.None? then Exec(w, Raised)
    else
      var w1 := if keep then w else GenerateCertificate(w, b.freshCertificate.value);
      var pair := PairStatus(w1.disk, b.expired);
      if !pair.valid || (reason != Initial && pair.fingerprint == j.previousFingerprint) then Exec(w1, Raised)
      else
        var j6 := j.(steps := j.steps + {CertificateIssued});
        Exec(CommitBinding(w1.PutJournal(j6), device, reason, prior, j6, pair.fingerprint.n, b), Ready(device))
  }

  function RetiredAfter(retired: seq<Text>, reason: Reason, device: nat, j: Journal): seq<Text> {
    var inherited := j.previousDevice;
    LastOf(if reason != Initial && inherited !in {NotText, Blank, Id(device)} && inherited !in retired then retired + [inherited] else retired)
  }

  function NewBinding(device: nat, hardware: Evidence, fingerprint: nat, installation: nat, retired: seq<Text>, pending: bool): Binding {
    Binding(Id(installation), device, fingerprint,
            if hardware.components == map[] then None else Some(hardware), retired, pending)
  }

  function CommitBinding(w: World, device: nat, reason: Reason, prior: Prior, j: Journal, fingerprint: nat, b: Boot): World {
    var binding := NewBinding(device, b.reading.evidence, fingerprint, b.freshInstallation,
                              RetiredAfter(prior.retired, reason, device, j), j.tailnet == Some(Held));
    var w1 := w.PutBinding(binding);
    var w2 := w1.Put(w1.disk.(journal := Absent));
    w2.Put(w2.disk.(recovery := Absent))
  }

  // -------------------------------------------------------------- recovery

  function EnterRecovery(w: World, reason: RecoveryReason, b: Boot): Exec {
    var held := b.holds || (w.disk.recovery.Object? && w.disk.recovery.value.tailnetHeld);
    Exec(w.Put(w.disk.(recovery := Object(Marker(reason, held)))), RecoveryRequired(reason))
  }

  function ReleaseAfterRecovery(w: World): World {
    if w.disk.recovery.Absent? then w else w.Put(w.disk.(recovery := Absent))
  }

  // ------------------------------------------------------ the boot decision

  function ResumeJournal(w: World, j: Journal, loaded: Loaded, b: Boot, administrator: bool): Exec {
    var verdict := CompareHardware(j.hardware, b.reading);
    if verdict == Same then Provision(w, b.settingsDevice, j.reason, PriorOf(loaded), Some(j), b)
    else if verdict == Different || (j.hardware.Some? && j.hardware.value.components == map[]) || administrator then
      Provision(w, b.settingsDevice, Clone, PriorForRestart(w.disk, j, loaded, b), None, b)
    else EnterRecovery(w, JournalHardwareUnverified, b)
  }

  function WithRetired(retired: seq<Text>, t: Text): seq<Text> {
    if t in {NotText, Blank} || t in retired then retired else retired + [t]
  }

  function PriorForRestart(d: Disk, j: Journal, loaded: Loaded, b: Boot): Prior {
    var pair := PairStatus(d, b.expired);
    var base := PriorOf(loaded);
    Prior(if pair.fingerprint == Blank then j.previousFingerprint else pair.fingerprint,
          Id(b.settingsDevice), base.installation,
          WithRetired(WithRetired(base.retired, j.previousDevice), if j.newDevice.Some? then j.newDevice.value else Blank))
  }

  /** Reconciles binding, certificate and device id; writes only when something differs. */
  function Verified(w: World, binding: Binding, b: Boot): Exec {
    var pair := PairStatus(w.disk, b.expired);
    if pair.valid then
      if pair.fingerprint != Id(binding.fingerprint) then EnterRecovery(w, CertificateMismatch, b)
      else VerifiedDevice(w, binding, false, b)
    else if b.freshCertificate.None? then Exec(w, Raised)
    else
      var w1 := GenerateCertificate(w, b.freshCertificate.value);
      if !PairStatus(w1.disk, b.expired).valid then Exec(w1, Raised)
      else VerifiedDevice(w1, binding.(fingerprint := b.freshCertificate.value), true, b)
  }

  function VerifiedDevice(w: World, binding: Binding, changed: bool, b: Boot): Exec {
    if binding.device == b.settingsDevice then VerifiedTailnet(w, binding, b.settingsDevice, changed, b)
    else if b.pinned && Id(b.settingsDevice) !in binding.retired then
      VerifiedTailnet(w, binding.(device := b.settingsDevice), b.settingsDevice, true, b)
    else
      var w1 := if b.deviceWritable then w.Put(w.disk.(deviceFile := Some(binding.device))) else w;
      VerifiedTailnet(w1, binding, binding.device, true, b)
  }

  function VerifiedTailnet(w: World, binding: Binding, device: nat, changed: bool, b: Boot): Exec {
    if !binding.tailnetResetPending then Exec(if changed then w.PutBinding(binding) else w, Ready(device))
    else
      var w1 := w.Put(w.disk.(node := NodeAfter(w.disk.node, b.tailnet)));
      match b.tailnet
      case Error => EnterRecovery(w1, TailnetResetFailed, b)
      case Held => Exec(if changed then w1.PutBinding(binding) else w1, Ready(device))
      case _ => Exec(w1.PutBinding(binding.(tailnetResetPending := false)), Ready(device))
  }

  function AdoptBaseline(w: World, binding: Binding, b: Boot): Exec {
    var bound := binding.(hardware := Some(b.reading.evidence));
    Verified(w.PutBinding(bound), bound, b)
  }

  function Authorized(d: Disk, now: nat): bool {
    d.authorization.Some? && now < d.authorization.value
  }

  function RebindAuthorized(w: World, binding: Binding, b: Boot): Exec {
    var pair := PairStatus(w.disk, b.expired);
    if !pair.valid then EnterRecovery(w, CertificateInvalid, b)
    else if pair.fingerprint != Id(binding.fingerprint) then EnterRecovery(w, CertificateMismatch, b)
    else
      var bound := binding.(hardware := Some(b.reading.evidence));
      var w1 := w.PutBinding(bound);
      var w2 := w1.Put(w1.disk.(authorization := None));
      Verified(ReleaseAfterRecovery(w2), bound, b)
  }

  /** An installation that predates the binding keeps its identity. */
  function MigrateExisting(w: World, b: Boot): Exec {
    var current := PairStatus(w.disk, b.expired);
    if !current.valid && b.freshCertificate.None? then Exec(w, Raised)
    else
      var w1 := if current.valid then w else GenerateCertificate(w, b.freshCertificate.value);
      var pair := PairStatus(w1.disk, b.expired);
      if !pair.valid then Exec(w1, Raised)
      else Exec(w1.PutBinding(NewBinding(b.settingsDevice, b.reading.evidence, pair.fingerprint.n, b.freshInstallation, [], false)),
                Ready(b.settingsDevice))
  }

  /** A journal that proves nothing: the binding and the hardware decide. */
  function WithoutJournal(w: World, b: Boot): Exec {
    match LoadBinding(w.disk.binding)
    case NoBinding => EnterRecovery(w, JournalUnreadable, b)
    case Problem(reason) => EnterRecovery(w, reason, b)
    case Bound(binding) =>
      var verdict := CompareHardware(binding.hardware, b.reading);
      var pair := PairStatus(w.disk, b.expired);
      if verdict == Different then Provision(w, b.settingsDevice, Clone, PriorOf(Bound(binding)), None, b)
      else if verdict == Same && pair.valid && pair.fingerprint == Id(binding.fingerprint) && b.settingsDevice == binding.device then
        var e := Verified(w, binding, b);
        if e.outcome.Ready? then Exec(e.world.Put(e.world.disk.(journal := Absent)), e.outcome) else e
      else EnterRecovery(w, JournalUnreadable, b)
  }

  function DecideByBinding(w: World, b: Boot): Exec {
    match LoadBinding(w.disk.binding)
    case NoBinding =>
      if !PairStatus(w.disk, b.expired).present then Provision(w, b.settingsDevice, Initial, NOTHING_PRIOR, None, b)
      else MigrateExisting(w, b)
    case Problem(reason) => EnterRecovery(w, reason, b)
    case Bound(binding) =>
      var verdict := CompareHardware(binding.hardware, b.reading);
      if binding.hardware.None? || binding.hardware.value.components == map[] then
        if verdict == Baseline then AdoptBaseline(w, binding, b) else Verified(w, binding, b)
      else match verdict {
        case Same => Verified(ReleaseAfterRecovery(w), binding, b)
        case Different =>
          if b.reading.Usable() && Authorized(w.disk, b.now) then RebindAuthorized(w, binding, b)
          else Provision(w, b.settingsDevice, Clone, PriorOf(Bound(binding)), None, b)
        case Insufficient => EnterRecovery(w, InsufficientEvidence, b)
        case _ => EnterRecovery(w, ContradictoryEvidence, b)
      }
  }

  /** The journal that counts: readable and written by this state machine. */
  function TrustedJournal(d: Disk): Option<Journal> {
    if d.journal.Object? && ValidJournal(d.journal.value) then Some(d.journal.value) else None
  }

  function EnsureLocked(w: World, b: Boot): Exec {
    if w.disk.journal.Absent? then DecideByBinding(w, b)
    else match TrustedJournal(w.disk)
      case None => WithoutJournal(w, b)
      case Some(j) => ResumeJournal(w, j, LoadBinding(w.disk.binding), b, false)
  }

  /** The read-only gate of the separately started tailnet service. */
  predicate TailnetStartPermitted(d: Disk, settingsDevice: nat, reading: Reading, expired: set<nat>) {
    && d.journal.Absent?
    && d.recovery.Absent?
    && var loaded := LoadBinding(d.binding);
       && loaded.Bound?
       && loaded.binding.hardware.Some?
       && !loaded.binding.tailnetResetPending
       && CompareHardware(loaded.binding.hardware, reading) == Same
       && var pair := PairStatus(d, expired);
          && pair.valid
          && pair.fingerprint == Id(loaded.binding.fingerprint)
          && settingsDevice == loaded.binding.device
  }

  // ------------------------------------------------ administrator decisions

  function ResolveNew(w: World, b: Boot): Exec {
    match TrustedJournal(w.disk)
    case Some(j) => ResumeJournal(w, j, LoadBinding(w.disk.binding), b, true)
    case None => Provision(w, b.settingsDevice, OperatorNewIdentity, PriorOf(LoadBinding(w.disk.binding)), None, b)
  }

  function ResolveKeep(w: World, b: Boot): Exec {
    var pair := PairStatus(w.disk, b.expired);
    if !w.disk.recovery.Object? then Exec(w, Refused)
    else if w.disk.recovery.value.reason in {ProvisioningFailed, JournalHardwareUnverified} then Exec(w, Refused)
    else if TrustedJournal(w.disk).Some? || !pair.valid then Exec(w, Refused)
    else
      var kept := match LoadBinding(w.disk.binding)
        case Bound(binding) =>
          binding.(hardware := if b.reading.Usable() then Some(b.reading.evidence) else binding.hardware,
                   fingerprint := pair.fingerprint.n)
        case _ => NewBinding(b.settingsDevice, b.reading.evidence, pair.fingerprint.n, b.freshInstallation, [], false);
      Exec(ReleaseAfterRecovery(w.PutBinding(kept)), Ready(kept.device))
  }

  // ----------------------------------------------------- boots that are cut short

  /** How a boot ends: by itself, by power loss, or by an exception out of any helper or write. */
  datatype Stop =
    | Finished
    | PowerLoss(writes: nat)
    | Failure(writes: nat, marked: bool)   // marked: the handler could write the recovery marker

  function DiskAfterWrites(d: Disk, trace: seq<Disk>, writes: nat): Disk {
    if writes == 0 || trace == [] then d
    else if writes <= |trace| then trace[writes - 1] else trace[|trace| - 1]
  }

  function MarkFailed(d: Disk): Disk {
    d.(recovery := Object(Marker(ProvisioningFailed, false)))
  }

  function BootExec(d: Disk, b: Boot): Exec { EnsureLocked(World(d, []), b) }

  function AfterStop(d: Disk, e: Exec, stop: Stop): Disk {
    match stop
    case Finished => if e.outcome.Raised? then MarkFailed(e.world.disk) else e.world.disk
    case PowerLoss(n) => DiskAfterWrites(d, e.world.trace, n)
    case Failure(n, marked) =>
      var left := DiskAfterWrites(d, e.world.trace, n);
      if marked then MarkFailed(left) else left
  }

  function AfterBoot(d: Disk, b: Boot, stop: Stop): Disk { AfterStop(d, BootExec(d, b), stop) }

  /** Swarm networking is switched on by this boot. */
  predicate NetworkingEnabled(d: Disk, b: Boot, stop: Stop) {
    stop.Finished? && BootExec(d, b).outcome.Ready?
  }
}
