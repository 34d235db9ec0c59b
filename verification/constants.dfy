/** The fixed tables of the application: stage lists per contracting method,
    display labels and the alert thresholds. */
module Constants {
  import opened Wrappers
  import opened Domain

  /** The seven stages of the competitive flow (and of open negotiation). */
  const Competitive: seq<string> := ["공고준비", "공고중", "개찰완료", "계약준비", "계약완료", "지출준비", "집행완료"]

  /** The four stages of private negotiation. */
  const Private: seq<string> := ["계약준비", "계약완료", "지출준비", "집행완료"]

  /** The stage at which a contract is executed and the flow ends. */
  const Executed: string := "집행완료"

  /** The stage at which the contract is signed and its end date starts to matter. */
  const Signed: string := "계약완료"

  /** Stage lists keyed by the Korean method label. */
  const MethodStages: map<string, seq<string>> := map[
    "일반경쟁" := Competitive,
    "제한경쟁" := Competitive,
    "지명경쟁" := Competitive,
    "공개수의" := Competitive,
    "비공개수의" := Private]

  /** `METHOD_STAGES[label] || []`: the stage list of a method label, empty when the label is unknown. */
  function StagesByLabel(name: string): (r: seq<string>)
    ensures name in MethodStages ==> r != [] && r[|r| - 1] == Executed
    ensures name !in MethodStages ==> r == []
  {
    if name in MethodStages then MethodStages[name] else []
  }

  /** `METHOD_LABELS`; the same table is `getMethodLabel` in the tool layer and the contracts route. */
  function MethodLabel(m: Method): (r: string)
    ensures r in MethodStages
  {
    match m
    case OpenBid => "일반경쟁"
    case RestrictedBid => "제한경쟁"
    case NominatedBid => "지명경쟁"
    case OpenNegotiation => "공개수의"
    case PrivateNegotiation => "비공개수의"
  }

  /** The stage list that applies to a contract with method `m`. */
  function StagesOf(m: Method): seq<string> {
    StagesByLabel(MethodLabel(m))
  }

  /** `STATUS_LABELS`. */
  function StatusLabel(s: Status): string {
    match s
    case BeforeStart => "시작 전"
    case InProgress => "진행 중"
    case Waiting => "대기"
    case Delayed => "지연"
    case Completed => "완료"
    case Deleted => "삭제"
  }

  /** `CATEGORY_LABELS`. */
  function CategoryLabel(c: Category): string {
    match c
    case GoodsPurchase => "물품(구매)"
    case GoodsManufacture => "물품(제조)"
    case Service => "용역"
    case Construction => "공사"
  }

  /** `ALERT_THRESHOLDS`, in days. */
  const AlertThresholds: map<string, int> := map[
    "CRITICAL_DAYS" := 3,
    "WARNING_DAYS" := 7,
    "WAITING_DAYS" := 7]

  /** A property read on `ALERT_THRESHOLDS`: `None` is JavaScript's `undefined`. */
  function Threshold(key: string): (r: Option<int>)
    ensures r.Some? <==> key in AlertThresholds
  {
    if key in AlertThresholds then Some(AlertThresholds[key]) else None
  }

  const CriticalDays: int := 3
  const WarningDays: int := 7
  const WaitingDays: int := 7

  /** The four bidding-style methods use the seven-stage list and private
      negotiation the four-stage list. */
  lemma MethodStageGroups(m: Method)
    ensures StagesOf(m) == if m == PrivateNegotiation then Private else Competitive
  {
  }

  /** The private flow is the tail of the competitive flow from 계약준비 on. */
  lemma PrivateIsCompetitiveTail()
    ensures Private == Competitive[3..]
  {
  }

  /** Both lists end at 집행완료 and list no stage twice. */
  lemma StageListsWellFormed()
    ensures Competitive[|Competitive| - 1] == Executed && Private[|Private| - 1] == Executed
    ensures forall i, j :: 0 <= i < j < |Competitive| ==> Competitive[i] != Competitive[j]
    ensures forall i, j :: 0 <= i < j < |Private| ==> Private[i] != Private[j]
  {
  }

  /** `METHOD_LABELS` is one-to-one from the five methods onto the keys of `METHOD_STAGES`. */
  lemma MethodLabelsBijective()
    ensures forall m1: Method, m2: Method :: MethodLabel(m1) == MethodLabel(m2) ==> m1 == m2
    ensures forall name :: name in MethodStages <==> exists m: Method :: MethodLabel(m) == name
  {
    assert MethodLabel(OpenBid) == "일반경쟁" && MethodLabel(RestrictedBid) == "제한경쟁";
    assert MethodLabel(NominatedBid) == "지명경쟁" && MethodLabel(OpenNegotiation) == "공개수의";
    assert MethodLabel(PrivateNegotiation) == "비공개수의";
  }

  /** The six statuses have six different labels. */
  lemma StatusLabelsDistinct()
    ensures forall s1: Status, s2: Status :: StatusLabel(s1) == StatusLabel(s2) ==> s1 == s2
  {
  }

  /** The critical window is inside the warning window, waiting alerts start at
      seven days, and no contract-end threshold is defined. */
  lemma ThresholdFacts()
    ensures Threshold("CRITICAL_DAYS") == Some(CriticalDays) && Threshold("WARNING_DAYS") == Some(WarningDays)
    ensures Threshold("WAITING_DAYS") == Some(WaitingDays) && WaitingDays == 7
    ensures CriticalDays < WarningDays
    ensures Threshold("CONTRACT_END_WARNING") == None
  {
  }
}
