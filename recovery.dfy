/**
 * The recovery-room models of the second backend: the stay statuses and
 * their stored text, the default status of a new stay, the pain and
 * consciousness scales, the two validators (a discharge strictly after
 * the admission, a positive observation sequence number) and
 * `requires_intervention`. Date-times are minutes.
 */
module Recovery {
  import opened Wrappers

  datatype RecoveryStatus = Admitted | Stable | Improving | Deteriorating | ReadyForDischarge | Discharged | Transferred

  const AdmittedText: string := "admitted"
  const StableText: string := "stable"
  const ImprovingText: string := "improving"
  const DeterioratingText: string := "deteriorating"
  const ReadyForDischargeText: string := "ready_for_discharge"
  const DischargedText: string := "discharged"
  const TransferredText: string := "transferred"

  /** The enum's value, which is what a stay document stores. */
  function StatusText(s: RecoveryStatus): string
  {
    match s
    case Admitted => AdmittedText
    case Stable => StableText
    case Improving => ImprovingText
    case Deteriorating => DeterioratingText
    case ReadyForDischarge => ReadyForDischargeText
    case Discharged => DischargedText
    case Transferred => TransferredText
  }

  /** `RecoveryStatus(text)`: the status a stored text names, if any. */
  function ParseStatus(t: string): (r: Option<RecoveryStatus>)
    ensures r.Some? ==> StatusText(r.value) == t
  {
    if t == AdmittedText then Some(Admitted)
    else if t == StableText then Some(Stable)
    else if t == ImprovingText then Some(Improving)
    else if t == DeterioratingText then Some(Deteriorating)
    else if t == ReadyForDischargeText then Some(ReadyForDischarge)
    else if t == DischargedText then Some(Discharged)
    else if t == TransferredText then Some(Transferred)
    else None
  }

  /** Every status reads back from its text, so different statuses store different texts. */
  lemma ParseStatusText(s: RecoveryStatus)
    ensures ParseStatus(StatusText(s)) == Some(s)
  {
  }

  lemma StatusTextInjective(a: RecoveryStatus, b: RecoveryStatus)
    requires StatusText(a) == StatusText(b)
    ensures a == b
  {
    ParseStatusText(a);
    ParseStatusText(b);
  }

  /** `status: RecoveryStatus = Field(default=RecoveryStatus.ADMITTED)`. */
  const DefaultStatus: RecoveryStatus := Admitted

  const InvalidStatusError: string := "value is not a valid enumeration member"

  /** The status field of a stay being built: ADMITTED when absent, otherwise a valid member's text. */
  function StayStatus(given: Option<string>): (r: Result<RecoveryStatus>)
    ensures given.None? ==> r == Ok(Admitted)
    ensures given.Some? ==> (r.Ok? <==> ParseStatus(given.value).Some?)
    ensures given.Some? && r.Ok? ==> StatusText(r.value) == given.value
  {
    if given.None? then Ok(DefaultStatus)
    else match ParseStatus(given.value)
      case Some(s) => Ok(s)
      case None => Err(InvalidStatusError)
  }

  datatype PainScale = NoPain | Mild | Moderate | Severe | Worst

  const NoPainText: string := "0"
  const MildText: string := "1-3"
  const ModerateText: string := "4-6"
  const SevereText: string := "7-9"
  const WorstText: string := "10"

  function PainText(p: PainScale): string
  {
    match p
    case NoPain => NoPainText
    case Mild => MildText
    case Moderate => ModerateText
    case Severe => SevereText
    case Worst => WorstText
  }

  function ParsePain(t: string): (r: Option<PainScale>)
    ensures r.Some? ==> PainText(r.value) == t
  {
    if t == NoPainText then Some(NoPain)
    else if t == MildText then Some(Mild)
    else if t == ModerateText then Some(Moderate)
    else if t == SevereText then Some(Severe)
    else if t == WorstText then Some(Worst)
    else None
  }

  lemma ParsePainText(p: PainScale)
    ensures ParsePain(PainText(p)) == Some(p)
  {
  }

  datatype ConsciousnessLevel = Alert | Confused | Drowsy | Stuporous | Unconscious

  const AlertText: string := "alert"
  const ConfusedText: string := "confused"
  const DrowsyText: string := "drowsy"
  const StuporousText: string := "stuporous"
  const UnconsciousText: string := "unconscious"

  function ConsciousnessText(c: ConsciousnessLevel): string
  {
    match c
    case Alert => AlertText
    case Confused => ConfusedText
    case Drowsy => DrowsyText
    case Stuporous => StuporousText
    case Unconscious => UnconsciousText
  }

  function ParseConsciousness(t: string): (r: Option<ConsciousnessLevel>)
    ensures r.Some? ==> ConsciousnessText(r.value) == t
  {
    if t == AlertText then Some(Alert)
    else if t == ConfusedText then Some(Confused)
    else if t == DrowsyText then Some(Drowsy)
    else if t == StuporousText then Some(Stuporous)
    else if t == UnconsciousText then Some(Unconscious)
    else None
  }

  lemma ParseConsciousnessText(c: ConsciousnessLevel)
    ensures ParseConsciousness(ConsciousnessText(c)) == Some(c)
  {
  }

  const DischargeError: string := "Discharge time must be after admission time"
  const SequenceError: string := "Sequence number must be positive"

  /**
   * validate_discharge_after_admit. A given date-time is always truthy;
   * `admitTime` is None when the admission time failed its own validation
   * and so is missing from the values the validator sees.
   */
  function ValidateDischargeAfterAdmit(v: Option<int>, admitTime: Option<int>): (r: Result<Option<int>>)
    ensures r.Err? <==> v.Some? && admitTime.Some? && v.value <= admitTime.value
    ensures r.Ok? ==> r.value == v
    ensures r.Err? ==> r.message == DischargeError
  {
    if v.Some? && admitTime.Some? && v.value <= admitTime.value then Err(DischargeError) else Ok(v)
  }

  /** An accepted stay with both times has a positive length. */
  lemma AcceptedStayHasPositiveLength(discharge: int, admit: int)
    requires ValidateDischargeAfterAdmit(Some(discharge), Some(admit)).Ok?
    ensures discharge - admit > 0
  {
  }

  /** validate_sequence: sequence numbers start at 1. */
  function ValidateSequence(v: int): (r: Result<int>)
    ensures r.Ok? <==> v >= 1
    ensures r.Ok? ==> r.value == v
    ensures r.Err? ==> r.message == SequenceError
  {
    if v < 1 then Err(SequenceError) else Ok(v)
  }

  /** The fields of a RecoveryObservation `requires_intervention` reads. */
  datatype Observation = Observation(
    isCritical: bool,
    painScore: Option<PainScale>,
    consciousnessLevel: Option<ConsciousnessLevel>,
    alertPhysician: bool)

  /** The list literal of critical indicators, in requires_intervention's list order. */
  function CriticalIndicators(o: Observation): (r: seq<bool>)
    ensures |r| == 4
  {
    [o.isCritical,
     o.painScore == Some(Severe) || o.painScore == Some(Worst),
     o.consciousnessLevel == Some(Stuporous) || o.consciousnessLevel == Some(Unconscious),
     o.alertPhysician]
  }

  /** Python's `any` over a list, left to right. */
  function AnyTrue(bs: seq<bool>): bool
  {
    if bs == [] then false else bs[0] || AnyTrue(bs[1..])
  }

  /** `any` is true exactly when some element is. */
  lemma {:induction false} AnyTrueIff(bs: seq<bool>)
    ensures AnyTrue(bs) <==> exists i :: 0 <= i < |bs| && bs[i]
  {
    if bs != [] {
      AnyTrueIff(bs[1..]);
      if AnyTrue(bs[1..]) {
        var i :| 0 <= i < |bs[1..]| && bs[1..][i];
        assert bs[i + 1];
      }
      if exists i :: 0 <= i < |bs| && bs[i] {
        var i :| 0 <= i < |bs| && bs[i];
        if i > 0 {
          assert bs[1..][i - 1];
        }
      }
    }
  }

  /** requires_intervention. */
  function RequiresIntervention(o: Observation): bool
  {
    AnyTrue(CriticalIndicators(o))
  }

  /**
   * An observation needs intervention exactly when it is critical, the pain
   * is SEVERE or WORST, the patient is STUPOROUS or UNCONSCIOUS, or the
   * physician was alerted.
   */
  lemma RequiresInterventionIff(o: Observation)
    ensures RequiresIntervention(o) <==>
      o.isCritical ||
      o.painScore == Some(Severe) || o.painScore == Some(Worst) ||
      o.consciousnessLevel == Some(Stuporous) || o.consciousnessLevel == Some(Unconscious) ||
      o.alertPhysician
  {
    var bs := CriticalIndicators(o);
    AnyTrueIff(bs);
    if o.isCritical { assert bs[0]; }
    if o.painScore == Some(Severe) || o.painScore == Some(Worst) { assert bs[1]; }
    if o.consciousnessLevel == Some(Stuporous) || o.consciousnessLevel == Some(Unconscious) { assert bs[2]; }
    if o.alertPhysician { assert bs[3]; }
  }
}
