/**
  Hardware evidence and the judgement "is this the machine the evidence was
  recorded on?" (app/common/hardware_identity.py).

  A digest is modelled by a number: SHA-256 is taken to be injective, so two
  identifiers are the same exactly when their digests are.
 */
module HardwareIdentity {
  import opened Options

  datatype Kind = ProductUuid | PlatformSerial | BoardSerial | ProductSerial | ChassisSerial

  /** Identifiers that are unique per unit by design. */
  const PRIMARY: set<Kind> := {ProductUuid, PlatformSerial}

  /** Serials that vendors often leave at one value for a whole product line. */
  const SECONDARY: set<Kind> := {BoardSerial, ProductSerial, ChassisSerial}

  const ALL_KINDS: seq<Kind> := [ProductUuid, BoardSerial, ProductSerial, ChassisSerial, PlatformSerial]

  const FINGERPRINT_VERSION := 1

  type Identifiers = map<Kind, nat>

  /** What is stored: the ambiguity flag of a reading is not part of it. */
  datatype Evidence = Evidence(components: Identifiers, version: int)

  /** What one boot sees. */
  datatype Reading = Reading(evidence: Evidence, ambiguous: bool) {
    predicate Usable() {
      evidence.components != map[] && !ambiguous
    }
  }

  datatype Verdict = Same | Different | Insufficient | Contradictory | Baseline

  function Comparable(kinds: set<Kind>, stored: Identifiers, current: Identifiers): set<Kind> {
    set k | k in kinds && k in stored && k in current
  }

  function CompareHardware(recorded: Option<Evidence>, current: Reading): Verdict {
    if current.ambiguous then Contradictory
    else if recorded.None? || recorded.value.components == map[] then
      if current.evidence.components != map[] then Baseline else Insufficient
    else if current.evidence.components == map[] then Insufficient
    else if recorded.value.version != current.evidence.version then Insufficient
    else
      var stored, now := recorded.value.components, current.evidence.components;
      var primary := Comparable(PRIMARY, stored, now);
      var secondary := Comparable(SECONDARY, stored, now);
      if primary != {} then
        if forall k | k in primary :: stored[k] == now[k] then
          if exists k | k in secondary :: stored[k] != now[k] then Contradictory else Same
        else if forall k | k in primary :: stored[k] != now[k] then Different
        else Contradictory
      else if secondary != {} then
        if forall k | k in secondary :: stored[k] == now[k] then Same
        else if forall k | k in secondary :: stored[k] != now[k] then Different
        else Contradictory
      else Insufficient
  }

  /** Both readings could have been taken from a machine with these identifiers. */
  ghost predicate ReadFrom(truth: Identifiers, seen: Identifiers) {
    forall k | k in seen :: k in truth && seen[k] == truth[k]
  }

  /** Recorded evidence of some machine that shares no identifier with this one. */
  ghost predicate ForeignTo(truth: Identifiers, seen: Identifiers) {
    && seen != map[]
    && forall k | k in seen && k in truth :: seen[k] != truth[k]
  }

  /** The two readings have evidence that may be held against each other. */
  ghost predicate Weighable(recorded: Option<Evidence>, current: Reading) {
    && !current.ambiguous
    && recorded.Some?
    && recorded.value.version == current.evidence.version
  }

  lemma KindsAreRanked(k: Kind)
    ensures k in PRIMARY || k in SECONDARY
  {
  }

  /** "Same" is exactly: something can be compared, and all of it agrees. */
  lemma SameExactly(recorded: Option<Evidence>, current: Reading)
    ensures CompareHardware(recorded, current) == Same <==>
            && Weighable(recorded, current)
            && (exists k :: k in recorded.value.components && k in current.evidence.components)
            && (forall k | k in recorded.value.components && k in current.evidence.components ::
                  recorded.value.components[k] == current.evidence.components[k])
  {
    if Weighable(recorded, current) {
      var stored, now := recorded.value.components, current.evidence.components;
      forall k | k in stored && k in now
        ensures k in Comparable(PRIMARY, stored, now) || k in Comparable(SECONDARY, stored, now)
      {
        KindsAreRanked(k);
      }
      if exists k :: k in stored && k in now {
        assert stored != map[] && now != map[];
      }
    }
  }

  /** "Different" is exactly: the strongest comparable rank disagrees throughout. */
  lemma DifferentExactly(recorded: Option<Evidence>, current: Reading)
    ensures CompareHardware(recorded, current) == Different <==>
            && Weighable(recorded, current)
            && var primary := Comparable(PRIMARY, recorded.value.components, current.evidence.components);
               var secondary := Comparable(SECONDARY, recorded.value.components, current.evidence.components);
               var deciding := if primary != {} then primary else secondary;
               && deciding != {}
               && forall k | k in deciding ::
                    recorded.value.components[k] != current.evidence.components[k]
  {
    if Weighable(recorded, current) {
      var stored, now := recorded.value.components, current.evidence.components;
      var primary, secondary := Comparable(PRIMARY, stored, now), Comparable(SECONDARY, stored, now);
      if primary != {} || secondary != {} {
        var k :| k in primary + secondary;
        assert stored != map[] && now != map[] by { assert k in stored && k in now; }
      }
    }
  }

  ghost predicate HasEvidence(recorded: Option<Evidence>) {
    recorded.Some? && recorded.value.components != map[]
  }

  /** "Baseline" is exactly: nothing was recorded yet, and now there is something, clear of contradictions. */
  lemma BaselineExactly(recorded: Option<Evidence>, current: Reading)
    ensures CompareHardware(recorded, current) == Baseline <==>
            !HasEvidence(recorded) && current.evidence.components != map[] && !current.ambiguous
  {
  }

  /** "Insufficient" is exactly: no contradiction within the reading, and nothing to hold against each other. */
  lemma InsufficientExactly(recorded: Option<Evidence>, current: Reading)
    ensures CompareHardware(recorded, current) == Insufficient <==>
            && !current.ambiguous
            && if HasEvidence(recorded) then
                 || recorded.value.version != current.evidence.version
                 || forall k | k in recorded.value.components :: k !in current.evidence.components
               else current.evidence.components == map[]
  {
    if HasEvidence(recorded) {
      var stored, now := recorded.value.components, current.evidence.components;
      forall k | k in stored && k in now
        ensures k in Comparable(PRIMARY, stored, now) || k in Comparable(SECONDARY, stored, now)
      {
        KindsAreRanked(k);
      }
      var k :| k in stored;
      assert now == map[] ==> k !in now;
    }
  }

  /** "Contradictory" is exactly: the reading contradicts itself, or in the deciding rank one agrees while some other does not. */
  lemma ContradictoryExactly(recorded: Option<Evidence>, current: Reading)
    ensures CompareHardware(recorded, current) == Contradictory <==>
            || current.ambiguous
            || (&& Weighable(recorded, current)
                && var stored, now := recorded.value.components, current.evidence.components;
                   var primary := Comparable(PRIMARY, stored, now);
                   var deciding := if primary != {} then primary else Comparable(SECONDARY, stored, now);
                   && (exists k :: k in deciding && stored[k] == now[k])
                   && (exists k :: k in stored && k in now && stored[k] != now[k]))
  {
    if Weighable(recorded, current) {
      var stored, now := recorded.value.components, current.evidence.components;
      var primary, secondary := Comparable(PRIMARY, stored, now), Comparable(SECONDARY, stored, now);
      forall k | k in stored && k in now
        ensures k in primary || k in secondary
      {
        KindsAreRanked(k);
      }
      if primary != {} || secondary != {} {
        var k :| k in primary + secondary;
        assert stored != map[] && now != map[] by { assert k in stored && k in now; }
      }
    }
  }

  /** A machine is never mistaken for another one because a sensor came and went. */
  lemma FlakySensorsAreNeverDifferent(truth: Identifiers, recorded: Option<Evidence>, current: Reading)
    requires recorded.Some? ==> ReadFrom(truth, recorded.value.components)
    requires ReadFrom(truth, current.evidence.components)
    ensures CompareHardware(recorded, current) != Different
  {
    DifferentExactly(recorded, current);
  }

  /** Another machine is never taken for the recorded one, whatever it manages to read. */
  lemma ForeignMachineIsNeverSame(truth: Identifiers, recorded: Evidence, current: Reading)
    requires ForeignTo(truth, recorded.components)
    requires ReadFrom(truth, current.evidence.components)
    ensures CompareHardware(Some(recorded), current) !in {Same, Baseline}
  {
    SameExactly(Some(recorded), current);
  }

  /** A reading recognises itself exactly when it is usable. */
  lemma RecognisesItselfIffUsable(r: Reading)
    ensures CompareHardware(Some(r.evidence), r) == Same <==> r.Usable()
  {
    SameExactly(Some(r.evidence), r);
    if r.evidence.components != map[] {
      var k :| k in r.evidence.components;
    }
  }

  // ------------------------------------------------------------- collecting

  /** The raw sources of one boot; an unreadable source is simply absent. */
  datatype Sources = Sources(
    readable: bool,                  // false in a container, or when evidence is disabled
    dmi: map<Kind, string>,
    devicetree: Option<string>,
    cpuinfo: set<string>)            // the distinct Serial values of /proc/cpuinfo

  /** Turns a raw value into its canonical spelling, or rejects it as filler. */
  type Normalizer = (Kind, string) -> Option<string>
  type Digester = (Kind, string) -> nat

  function PlatformCandidates(s: Sources, normalize: Normalizer): set<string> {
    (if s.devicetree.Some? && normalize(PlatformSerial, s.devicetree.value).Some?
     then {normalize(PlatformSerial, s.devicetree.value).value} else {}) +
    (if |s.cpuinfo| == 1 then set v | v in s.cpuinfo && normalize(PlatformSerial, v).Some? :: normalize(PlatformSerial, v).value
     else {})
  }

  /** The serials of the platform: what the device tree says, and what /proc/cpuinfo says where it says one thing only. */
  lemma PlatformCandidatesAre(s: Sources, normalize: Normalizer, v: string)
    ensures v in PlatformCandidates(s, normalize) <==>
              || (s.devicetree.Some? && normalize(PlatformSerial, s.devicetree.value) == Some(v))
              || (exists w :: s.cpuinfo == {w} && normalize(PlatformSerial, w) == Some(v))
  {
    if |s.cpuinfo| == 1 {
      var w :| w in s.cpuinfo;
      SingletonOf(s.cpuinfo, w);
    }
  }

  /** Every source that can be read and is not filler reports the machine's own identifier. */
  ghost predicate Truthful(truth: Identifiers, s: Sources, normalize: Normalizer, digest: Digester) {
    && (forall k | k in s.dmi && normalize(k, s.dmi[k]).Some? ::
          k in truth && truth[k] == digest(k, normalize(k, s.dmi[k]).value))
    && (forall v | v in PlatformCandidates(s, normalize) && normalize(PlatformSerial, v).Some? ::
          && PlatformSerial in truth
          && truth[PlatformSerial] == digest(PlatformSerial, normalize(PlatformSerial, v).value))
  }

  /** Gathers the evidence of one boot: two platform serials that disagree decide nothing. */
  method Collect(s: Sources, normalize: Normalizer, digest: Digester) returns (r: Reading)
    requires forall k | k in s.dmi :: k != PlatformSerial
    ensures !s.readable ==> r == Reading(Evidence(map[], FINGERPRINT_VERSION), false)
    ensures s.readable ==> (r.ambiguous <==> |s.cpuinfo| > 1 || |PlatformCandidates(s, normalize)| > 1)
    ensures r.evidence.version == FINGERPRINT_VERSION
    ensures s.readable ==> forall k | k != PlatformSerial ::
              k in r.evidence.components <==> k in s.dmi && normalize(k, s.dmi[k]).Some?
    ensures s.readable ==> forall k | k != PlatformSerial && k in r.evidence.components ::
              r.evidence.components[k] == digest(k, normalize(k, s.dmi[k]).value)
    ensures PlatformSerial in r.evidence.components ==>
              exists v | v in PlatformCandidates(s, normalize) ::
                && PlatformCandidates(s, normalize) == {v}
                && normalize(PlatformSerial, v).Some?
                && r.evidence.components[PlatformSerial] == digest(PlatformSerial, normalize(PlatformSerial, v).value)
    ensures s.readable ==> forall v | PlatformCandidates(s, normalize) == {v} && normalize(PlatformSerial, v).Some? ::
              PlatformSerial in r.evidence.components
    ensures forall truth: Identifiers | Truthful(truth, s, normalize, digest) ::
              ReadFrom(truth, r.evidence.components)
  {
    if !s.readable {
      return Reading(Evidence(map[], FINGERPRINT_VERSION), false);
    }
    var raw := s.dmi;
    var ambiguous := |s.cpuinfo| > 1;
    var candidates := PlatformCandidates(s, normalize);
    if |candidates| > 1 {
      ambiguous := true;
    } else if |candidates| == 1 {
      var v :| v in candidates;
      SingletonOf(candidates, v);
      raw := raw[PlatformSerial := v];
    }
    var components: Identifiers := map[];
    for i := 0 to |ALL_KINDS|
      invariant forall k :: k in components <==> k in ALL_KINDS[..i] && k in raw && normalize(k, raw[k]).Some?
      invariant forall k | k in components :: components[k] == digest(k, normalize(k, raw[k]).value)
    {
      var kind := ALL_KINDS[i];
      if kind in raw && normalize(kind, raw[kind]).Some? {
        components := components[kind := digest(kind, normalize(kind, raw[kind]).value)];
      }
      assert ALL_KINDS[..i + 1] == ALL_KINDS[..i] + [kind];
    }
    assert forall k: Kind :: k in ALL_KINDS[..|ALL_KINDS|] by { EveryKindIsListed(); }
    r := Reading(Evidence(components, FINGERPRINT_VERSION), ambiguous);
  }

  lemma EveryKindIsListed()
    ensures forall k: Kind :: k in ALL_KINDS[..|ALL_KINDS|]
  {
    assert ALL_KINDS[..|ALL_KINDS|] == ALL_KINDS;
    forall k: Kind
      ensures k in ALL_KINDS
    {
      match k
      case ProductUuid => assert ALL_KINDS[0] == k;
      case BoardSerial => assert ALL_KINDS[1] == k;
      case ProductSerial => assert ALL_KINDS[2] == k;
      case ChassisSerial => assert ALL_KINDS[3] == k;
      case PlatformSerial => assert ALL_KINDS[4] == k;
    }
  }

  lemma SingletonOf<T>(s: set<T>, x: T)
    requires |s| == 1 && x in s
    ensures s == {x}
  {
    assert |s - {x}| == 0;
  }
}
