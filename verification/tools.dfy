/** The assistant's contract tools: keyword mappers, the contract-id counter,
    contract creation, the update change builder, the progress percentage and
    note tagging. */
module Tools {
  import opened Wrappers
  import opened Text
  import opened Domain
  import opened Constants
  import opened Amount
  import opened Store
  import opened Json

  // ---------------------------------------------------------------------
  // Keyword mappers

  /** `mapCategory`: manufacturing words first, then purchase words, then
      construction words; anything else is a service contract. */
  function MapCategory(input: string): (r: Category)
    ensures var s := Lower(input);
      r == GoodsManufacture <==> Contains(s, "제조") || Contains(s, "제작")
    ensures var s := Lower(input);
      r == GoodsPurchase <==>
        !(Contains(s, "제조") || Contains(s, "제작")) && (Contains(s, "물품") || Contains(s, "구매"))
    ensures var s := Lower(input);
      r == Construction <==>
        !(Contains(s, "제조") || Contains(s, "제작")) && !(Contains(s, "물품") || Contains(s, "구매"))
        && (Contains(s, "공사") || Contains(s, "시설") || Contains(s, "건설"))
    ensures r == Service <==>
      !Contains(Lower(input), "제조") && !Contains(Lower(input), "제작") && !Contains(Lower(input), "물품")
      && !Contains(Lower(input), "구매") && !Contains(Lower(input), "공사") && !Contains(Lower(input), "시설")
      && !Contains(Lower(input), "건설")
  {
    var s := Lower(input);
    if Contains(s, "제조") || Contains(s, "제작") then GoodsManufacture
    else if Contains(s, "물품") || Contains(s, "구매") then GoodsPurchase
    else if Contains(s, "공사") || Contains(s, "시설") || Contains(s, "건설") then Construction
    else Service
  }

  /** `mapMethod` as written: 제한, 지명, 공개수의, then 수의 or 비공개; the
      default is open bidding. Any text containing 공개수의 (and neither 제한
      nor 지명) is open negotiation, even "비공개수의". */
  function MapMethod(input: string): (r: Method)
    ensures Contains(Lower(input), "공개수의") && !Contains(Lower(input), "제한") && !Contains(Lower(input), "지명")
      ==> r == OpenNegotiation
    ensures var s := Lower(input); r == RestrictedBid <==> Contains(s, "제한")
    ensures var s := Lower(input); r == NominatedBid <==> !Contains(s, "제한") && Contains(s, "지명")
    ensures var s := Lower(input);
      r == OpenNegotiation <==> !Contains(s, "제한") && !Contains(s, "지명") && Contains(s, "공개수의")
    ensures var s := Lower(input);
      r == PrivateNegotiation <==>
        !Contains(s, "제한") && !Contains(s, "지명") && !Contains(s, "공개수의")
        && (Contains(s, "수의") || Contains(s, "비공개"))
    ensures r == OpenBid <==>
      !Contains(Lower(input), "제한") && !Contains(Lower(input), "지명") && !Contains(Lower(input), "공개수의")
      && !Contains(Lower(input), "수의") && !Contains(Lower(input), "비공개")
  {
    var s := Lower(input);
    if Contains(s, "제한") then RestrictedBid
    else if Contains(s, "지명") then NominatedBid
    else if Contains(s, "공개수의") then OpenNegotiation
    else if Contains(s, "수의") || Contains(s, "비공개") then PrivateNegotiation
    else OpenBid
  }

  /** `mapMethod` with 비공개 tested before 공개수의, so that the label of
      private negotiation maps back to private negotiation. */
  function MapMethodCorrected(input: string): (r: Method)
    ensures !Contains(Lower(input), "비공개") ==> r == MapMethod(input)
  {
    var s := Lower(input);
    if Contains(s, "제한") then RestrictedBid
    else if Contains(s, "지명") then NominatedBid
    else if Contains(s, "비공개") then PrivateNegotiation
    else if Contains(s, "공개수의") then OpenNegotiation
    else if Contains(s, "수의") then PrivateNegotiation
    else OpenBid
  }

  /** The test of one status in `mapStatus`: its Korean keyword occurs in
      the lower-cased text, or the text is exactly its English name. */
  predicate NamesStatus(s: string, keyword: string, name: string) {
    Contains(s, keyword) || s == name
  }

  /** `mapStatus`: Korean keywords or the exact English names, tested in the
      order in progress, waiting, delayed, completed; the first that holds
      wins and the default is "before start", so a deleted status can never
      be requested. */
  function MapStatus(input: string): (r: Status)
    ensures r != Deleted
    ensures r == InProgress <==> NamesStatus(Lower(input), "진행", "in_progress")
    ensures r == Waiting <==> (!NamesStatus(Lower(input), "진행", "in_progress")
                               && NamesStatus(Lower(input), "대기", "waiting"))
    ensures r == Delayed <==> (!NamesStatus(Lower(input), "진행", "in_progress")
                               && !NamesStatus(Lower(input), "대기", "waiting")
                               && NamesStatus(Lower(input), "지연", "delayed"))
    ensures r == Completed <==> (!NamesStatus(Lower(input), "진행", "in_progress")
                                 && !NamesStatus(Lower(input), "대기", "waiting")
                                 && !NamesStatus(Lower(input), "지연", "delayed")
                                 && NamesStatus(Lower(input), "완료", "completed"))
    ensures r == BeforeStart <==> (!NamesStatus(Lower(input), "진행", "in_progress")
                                   && !NamesStatus(Lower(input), "대기", "waiting")
                                   && !NamesStatus(Lower(input), "지연", "delayed")
                                   && !NamesStatus(Lower(input), "완료", "completed"))
  {
    var s := Lower(input);
    if NamesStatus(s, "진행", "in_progress") then InProgress
    else if NamesStatus(s, "대기", "waiting") then Waiting
    else if NamesStatus(s, "지연", "delayed") then Delayed
    else if NamesStatus(s, "완료", "completed") then Completed
    else BeforeStart
  }

  /** A word occurs in a text that holds it at `i`. */
  lemma Occurs(s: string, w: string, i: nat)
    requires i + |w| <= |s| && s[i..i + |w|] == w
    ensures Contains(s, w)
  {
    assert StartsAt(s, w, i);
  }

  /** Hangul labels are unchanged by lower-casing. */
  lemma LowerHangul(s: string)
    requires forall i :: 0 <= i < |s| ==> s[i] >= 'ᄀ'
    ensures Lower(s) == s
  {
    LowerKeeps(s);
  }

  /** The category mapper reads every category label back to its category. */
  lemma MapCategoryInvertsLabels(c: Category)
    ensures MapCategory(CategoryLabel(c)) == c
  {
    var s := CategoryLabel(c);
    LowerKeeps(s);
    ContainsFirst(s, "제조");
    ContainsFirst(s, "제작");
    ContainsFirst(s, "물품");
    ContainsFirst(s, "구매");
    match c
    case GoodsPurchase => Occurs(s, "물품", 0);
    case GoodsManufacture => Occurs(s, "제조", 3);
    case Service =>
      ContainsFirst(s, "공사");
      ContainsFirst(s, "시설");
      ContainsFirst(s, "건설");
    case Construction => Occurs(s, "공사", 0);
  }

  /** As written, the method mapper reads four of the five method labels back
      to their method. */
  lemma MapMethodInvertsOtherLabels(m: Method)
    requires m != PrivateNegotiation
    ensures MapMethod(MethodLabel(m)) == m
  {
    var s := MethodLabel(m);
    LowerHangul(s);
    ContainsFirst(s, "제한");
    ContainsFirst(s, "지명");
    ContainsFirst(s, "공개수의");
    ContainsFirst(s, "수의");
    ContainsFirst(s, "비공개");
    match m
    case OpenBid =>
    case RestrictedBid => Occurs(s, "제한", 0);
    case NominatedBid => Occurs(s, "지명", 0);
    case OpenNegotiation => Occurs(s, "공개수의", 0);
  }

  /** As written, the label of private negotiation maps to open negotiation:
      "비공개수의" contains "공개수의", which is tested first. */
  lemma MapMethodPrivateLabelIsOpen()
    ensures MapMethod(MethodLabel(PrivateNegotiation)) == OpenNegotiation
  {
    var s := MethodLabel(PrivateNegotiation);
    LowerHangul(s);
    ContainsFirst(s, "제한");
    ContainsFirst(s, "지명");
    Occurs(s, "공개수의", 1);
  }

  /** The corrected mapper reads every method label back to its method. */
  lemma MapMethodCorrectedInvertsLabels(m: Method)
    ensures MapMethodCorrected(MethodLabel(m)) == m
  {
    var s := MethodLabel(m);
    LowerHangul(s);
    ContainsFirst(s, "비공개");
    if m == PrivateNegotiation {
      ContainsFirst(s, "제한");
      ContainsFirst(s, "지명");
      Occurs(s, "비공개", 0);
    } else {
      MapMethodInvertsOtherLabels(m);
    }
  }

  /** The status mapper reads every live status label back to its status. */
  lemma MapStatusInvertsLabels(st: Status)
    requires st != Deleted
    ensures MapStatus(StatusLabel(st)) == st
  {
    var s := StatusLabel(st);
    LowerKeeps(s);
    ContainsFirst(s, "진행");
    ContainsFirst(s, "대기");
    ContainsFirst(s, "지연");
    ContainsFirst(s, "완료");
    match st
    case BeforeStart =>
    case InProgress => Occurs(s, "진행", 0);
    case Waiting => Occurs(s, "대기", 0);
    case Delayed => Occurs(s, "지연", 0);
    case Completed => Occurs(s, "완료", 0);
  }

  /** The status mapper also reads the English name of every live status
      back to it; "before_start" falls through to the default. */
  lemma MapStatusReadsNames(st: Status)
    requires st != Deleted
    ensures MapStatus(StatusName(st)) == st
  {
    var s := Lower(StatusName(st));
    LatinNamesHoldNoKeyword(s);
    match st
    case BeforeStart => assert s == "before_start";
    case InProgress => assert s == "in_progress";
    case Waiting => assert s == "waiting";
    case Delayed => assert s == "delayed";
    case Completed => assert s == "completed";
  }

  /** Text below U+0100 holds none of the Korean status keywords. */
  lemma LatinNamesHoldNoKeyword(s: string)
    requires forall i :: 0 <= i < |s| ==> s[i] < '\U{0100}'
    ensures !Contains(s, "진행") && !Contains(s, "대기") && !Contains(s, "지연") && !Contains(s, "완료")
  {
    ContainsFirst(s, "진행");
    ContainsFirst(s, "대기");
    ContainsFirst(s, "지연");
    ContainsFirst(s, "완료");
  }

  // ---------------------------------------------------------------------
  // Stages and progress

  /** `getInitialStage`: the first stage of the method's list. */
  function InitialStage(m: Method): (r: string)
    ensures StagesOf(m) != [] && r == StagesOf(m)[0]
  {
    if m == PrivateNegotiation then "계약준비" else "공고준비"
  }

  /** `stages.indexOf(stage)`: the first position of `stage`, or -1. */
  function IndexOf(stages: seq<string>, stage: string): (i: int)
    ensures -1 <= i < |stages|
    ensures i >= 0 ==> stages[i] == stage && forall j :: 0 <= j < i ==> stages[j] != stage
    ensures i == -1 <==> stage !in stages
  {
    if stages == [] then -1
    else if stages[0] == stage then 0
    else
      var k := IndexOf(stages[1..], stage);
      if k == -1 then -1 else k + 1
  }

  /** `Math.round(num / den * 100)` for a non-negative fraction. */
  function RoundPercent(num: nat, den: nat): nat
    requires den > 0
  {
    (200 * num + den) / (2 * den)
  }

  /** A fraction between 0 and 1 rounds to a percentage between 0 and 100,
      with 0 and 1 exact. */
  lemma RoundPercentBounds(num: nat, den: nat)
    requires den > 0 && num <= den
    ensures RoundPercent(num, den) <= 100
    ensures num == 0 ==> RoundPercent(num, den) == 0
    ensures num == den ==> RoundPercent(num, den) == 100
  {
    var x := 200 * num + den;
    var q := x / (2 * den);
    assert x == q * (2 * den) + x % (2 * den);
    if q > 100 { MulMono(101, q, 2 * den); }
    if num == 0 { QuotientIs(x, 2 * den, 0); }
    if num == den { QuotientIs(x, 2 * den, 100); }
  }

  /** Rounding keeps the order of fractions with the same denominator. */
  lemma RoundPercentMonotone(a: nat, b: nat, den: nat)
    requires den > 0 && a <= b
    ensures RoundPercent(a, den) <= RoundPercent(b, den)
  {
    var x, y := 200 * a + den, 200 * b + den;
    var qa, qb := x / (2 * den), y / (2 * den);
    assert x == qa * (2 * den) + x % (2 * den);
    assert y == qb * (2 * den) + y % (2 * den);
    if qa > qb { MulMono(qb + 1, qa, 2 * den); }
  }

  /** The progress of a contract at `stage` along `stages`, in percent. */
  function Progress(stages: seq<string>, stage: string): (p: nat)
    ensures p <= 100
    ensures stage !in stages ==> p == 0
  {
    if |stages| > 0 then
      RoundPercentBounds(IndexOf(stages, stage) + 1, |stages|);
      RoundPercent(IndexOf(stages, stage) + 1, |stages|)
    else 0
  }

  /** A contract at the last stage of its method is 100% done, and progress
      never decreases along the stage list. */
  lemma ProgressAlongStages(m: Method, i: nat, j: nat)
    requires i <= j < |StagesOf(m)|
    ensures Progress(StagesOf(m), StagesOf(m)[i]) <= Progress(StagesOf(m), StagesOf(m)[j])
    ensures Progress(StagesOf(m), Executed) == 100
  {
    MethodStagesShape(m);
    ProgressMonotone(StagesOf(m), i, j);
    ProgressAtLast(StagesOf(m));
  }

  lemma ProgressMonotone(stages: seq<string>, i: nat, j: nat)
    requires i <= j < |stages|
    requires forall a, b :: 0 <= a < b < |stages| ==> stages[a] != stages[b]
    ensures Progress(stages, stages[i]) <= Progress(stages, stages[j])
  {
    ProgressAt(stages, i);
    ProgressAt(stages, j);
    RoundPercentMonotone(i + 1, j + 1, |stages|);
  }

  lemma ProgressAtLast(stages: seq<string>)
    requires |stages| > 0
    requires forall a, b :: 0 <= a < b < |stages| ==> stages[a] != stages[b]
    ensures Progress(stages, stages[|stages| - 1]) == 100
  {
    ProgressAt(stages, |stages| - 1);
    RoundPercentBounds(|stages|, |stages|);
  }

  /** Each method's stage list lists no stage twice and ends at 집행완료. */
  lemma MethodStagesShape(m: Method)
    ensures |StagesOf(m)| > 0 && StagesOf(m)[|StagesOf(m)| - 1] == Executed
    ensures forall i, j :: 0 <= i < j < |StagesOf(m)| ==> StagesOf(m)[i] != StagesOf(m)[j]
  {
    StageListsWellFormed();
    MethodStageGroups(m);
  }

  /** In a list without repeats the stage at index `i` is `i + 1` steps along. */
  lemma ProgressAt(stages: seq<string>, i: nat)
    requires i < |stages|
    requires forall a, b :: 0 <= a < b < |stages| ==> stages[a] != stages[b]
    ensures Progress(stages, stages[i]) == RoundPercent(i + 1, |stages|)
  {
    assert IndexOf(stages, stages[i]) == i;
  }

  // ---------------------------------------------------------------------
  // Contract ids

  function CounterKey(year: nat): string {
    "id_counter_" + NatToString(year)
  }

  /** `C{yy}-{counter padded to three digits}`: 'C', the last two digits of
      the year, a dash, then the counter text left-padded with zeros to three
      characters. */
  function ContractId(year: nat, counter: string): (id: string)
    ensures |id| >= 5 && id[0] == 'C'
  {
    "C" + LastTwo(NatToString(year)) + "-" + PadStart(counter, 3, '0')
  }

  /** For a year of two or more digits the id is 'C', the year's last two
      digits, a dash at index 3 and the padded counter from index 4 on. */
  lemma ContractIdFormat(year: nat, counter: string)
    requires year >= 10
    ensures var id := ContractId(year, counter);
      && |id| >= 7 && id[0] == 'C' && id[1..3] == LastTwo(NatToString(year)) && id[3] == '-'
      && id[4..] == PadStart(counter, 3, '0')
  {
    YearHasTwoDigits(year);
    IdLayout(LastTwo(NatToString(year)), PadStart(counter, 3, '0'));
  }

  lemma YearHasTwoDigits(year: nat)
    requires year >= 10
    ensures |LastTwo(NatToString(year))| == 2
  {
    assert NatToString(year) == NatToString(year / 10) + [DigitChar(year % 10)];
  }

  lemma IdLayout(y: string, p: string)
    requires |y| == 2
    ensures var id := "C" + y + "-" + p;
      |id| == 4 + |p| && id[0] == 'C' && id[1..3] == y && id[3] == '-' && id[4..] == p
  {
    var id := "C" + y + "-" + p;
    assert id[1..3] == y;
    assert id[4..] == p;
  }

  /** The last two digits of a year of two or more digits are its value modulo 100. */
  lemma LastTwoDigits(year: nat)
    requires year >= 10
    ensures AllDigits(LastTwo(NatToString(year)))
    ensures DigitsValue(LastTwo(NatToString(year))) == year % 100
  {
    var h := NatToString(year / 10);
    var lo := DigitChar(year % 10);
    var hi := DigitChar(year / 10 % 10);
    assert NatToString(year) == h + [lo];
    assert h[|h| - 1] == hi;
    var t := LastTwo(NatToString(year));
    assert t == [hi, lo];
    assert t[..1] == [hi] && [hi][..0] == [];
    assert DigitsValue([hi]) == DigitValue(hi);
    assert DigitsValue(t) == DigitValue(hi) * 10 + DigitValue(lo);
    TwoLowDigits(year);
  }

  /** The tens digit and the units digit make up the value modulo 100. */
  lemma TwoLowDigits(n: nat)
    ensures (n / 10 % 10) * 10 + n % 10 == n % 100
  {
    var q := n / 10;
    var low := (q % 10) * 10 + n % 10;
    assert n == 10 * q + n % 10;
    assert q == 10 * (q / 10) + q % 10;
    assert n == 100 * (q / 10) + low;
    assert 0 <= low < 100;
  }

  /** Read back, the id of a counter `n` in a year of two or more digits names
      the year modulo 100 and the counter. */
  lemma ContractIdFields(year: nat, n: nat)
    requires year >= 10
    ensures AllDigits(ContractId(year, IntToString(n))[1..3]) && AllDigits(ContractId(year, IntToString(n))[4..])
    ensures DigitsValue(ContractId(year, IntToString(n))[1..3]) == year % 100
    ensures DigitsValue(ContractId(year, IntToString(n))[4..]) == n
  {
    ContractIdFormat(year, IntToString(n));
    LastTwoDigits(year);
    PaddedValue(NatToString(n), 3);
    DigitsOfNat(n);
  }

  /** The text of `parseInt(value)`, which is "NaN" when nothing parses. */
  function NumberText(v: Option<int>): string {
    match v
    case Some(n) => IntToString(n)
    case None => "NaN"
  }

  /** `NumberText` of the successor. */
  function SuccessorText(v: Option<int>): string {
    match v
    case Some(n) => IntToString(n + 1)
    case None => "NaN"
  }

  /** The id handed out and the configuration table after one call of
      `generateContractId`: a missing counter starts at "1". */
  function IdStep(config: map<string, string>, year: nat): (string, map<string, string>) {
    var key := CounterKey(year);
    var stored := if key in config then config[key] else "1";
    var counter := ParseInt(stored);
    (ContractId(year, NumberText(counter)), config[key := SuccessorText(counter)])
  }

  /** `generateContractId`: read (or create) the year's counter, store its
      successor and format the id from the value read. */
  method GenerateContractId(db: Db, year: nat) returns (id: string)
    modifies db
    ensures (id, db.config) == IdStep(old(db.config), year)
    ensures db.contracts == old(db.contracts) && db.logs == old(db.logs) && db.notes == old(db.notes)
  {
    var key := CounterKey(year);
    if key !in db.config {
      OverwriteTwice(db.config, key, "1", SuccessorText(ParseInt("1")));
      db.config := db.config[key := "1"];
    }
    var counter := ParseInt(db.config[key]);
    db.config := db.config[key := SuccessorText(counter)];
    id := ContractId(year, NumberText(counter));
  }

  lemma OverwriteTwice(m: map<string, string>, k: string, a: string, b: string)
    ensures m[k := a][k := b] == m[k := b]
  {
  }

  lemma CancelPrefix(p: string, a: string, b: string)
    requires p + a == p + b
    ensures a == b
  {
    assert a == (p + a)[|p|..];
    assert b == (p + b)[|p|..];
  }

  /** Zero padding keeps the value of a digit string. */
  lemma PaddedValue(s: string, n: nat)
    requires AllDigits(s)
    ensures AllDigits(PadStart(s, n, '0')) && DigitsValue(PadStart(s, n, '0')) == DigitsValue(s)
  {
    var r := PadStart(s, n, '0');
    LeadingZeros(r[..|r| - |s|], s);
    assert r[..|r| - |s|] + s == r;
  }

  /** Different non-negative counters give different ids in the same year. */
  lemma ContractIdInjective(year: nat, a: nat, b: nat)
    requires ContractId(year, IntToString(a)) == ContractId(year, IntToString(b))
    ensures a == b
  {
    var prefix := "C" + LastTwo(NatToString(year)) + "-";
    var sa, sb := NatToString(a), NatToString(b);
    assert ContractId(year, IntToString(a)) == prefix + PadStart(sa, 3, '0');
    assert ContractId(year, IntToString(b)) == prefix + PadStart(sb, 3, '0');
    CancelPrefix(prefix, PadStart(sa, 3, '0'), PadStart(sb, 3, '0'));
    PaddedValue(sa, 3);
    PaddedValue(sb, 3);
    DigitsOfNat(a);
    DigitsOfNat(b);
  }

  /** Two calls in a row hand out different ids, as long as the stored counter
      reads as a non-negative number. */
  lemma SuccessiveIdsDiffer(config: map<string, string>, year: nat)
    requires CounterKey(year) in config ==>
      ParseInt(config[CounterKey(year)]).Some? && ParseInt(config[CounterKey(year)]).value >= 0
    ensures IdStep(config, year).0 != IdStep(IdStep(config, year).1, year).0
  {
    var key := CounterKey(year);
    var stored := if key in config then config[key] else "1";
    if key !in config {
      assert ParseInt("1") == Some(1) by { ParseIntOfString(1); }
    }
    var n := ParseInt(stored).value;
    ParseIntOfString(n + 1);
    if IdStep(config, year).0 == IdStep(IdStep(config, year).1, year).0 {
      ContractIdInjective(year, n, n + 1);
    }
  }

  // ---------------------------------------------------------------------
  // Creation

  /** `text ? (parseKoreanAmount(text) ?? 0) : 0`. */
  function AmountArg(text: string): nat {
    if text == "" then 0 else KoreanAmount(text).GetOr(0)
  }

  method ParseAmountArg(text: string) returns (v: nat)
    ensures v == AmountArg(text)
  {
    v := 0;
    if text != "" {
      var parsed := ParseKoreanAmount(text);
      v := parsed.GetOr(0);
    }
  }

  /** `text || null`. */
  function OptionalText(text: string): Option<string> {
    if text == "" then None else Some(text)
  }

  /** `text ? new Date(text) : null`. */
  function OptionalDate(text: string, host: Host): Option<int> {
    if text == "" then None else Some(host.parseDay(text))
  }

  /** Arguments of the creation tool; "" stands for an absent argument. */
  datatype CreateArgs = CreateArgs(
    title: string, category: string, methodText: string,
    amount: string, budget: string, contractAmount: string,
    requester: string, deadline: string, requestDate: string, contractEnd: string)

  /** The record the creation tool stores under `id`, with `methodOf` as the
      method mapper (`MapMethod` in the tool as written). */
  function NewContract(id: string, args: CreateArgs, methodOf: string -> Method, host: Host, now: int): (c: Contract)
    ensures c.id == id && c.title == args.title && c.category == MapCategory(args.category)
    ensures c.contractMethod == methodOf(args.methodText)
    ensures c.status == BeforeStart && c.stage == InitialStage(c.contractMethod) && c.stage in StagesOf(c.contractMethod)
    ensures c.amount == AmountArg(args.amount) && c.budget == AmountArg(args.budget)
    ensures c.contractAmount == AmountArg(args.contractAmount) && c.executionAmount == 0
    ensures c.requester == OptionalText(args.requester) && c.requesterContact.None? && c.contractor.None?
  {
    var m := methodOf(args.methodText);
    Contract(id, args.title, MapCategory(args.category), m,
      AmountArg(args.amount), AmountArg(args.budget), AmountArg(args.contractAmount), 0,
      OptionalText(args.requester), None, None, InitialStage(m), BeforeStart,
      OptionalDate(args.deadline, host), OptionalDate(args.requestDate, host),
      OptionalDate(args.contractEnd, host), None, now)
  }

  /** As written, asking for "비공개수의" creates an open-negotiation contract
      at the first stage of the competitive flow. */
  lemma CreatesPrivateAsOpen(id: string, args: CreateArgs, host: Host, now: int)
    requires args.methodText == MethodLabel(PrivateNegotiation)
    ensures NewContract(id, args, MapMethod, host, now).contractMethod == OpenNegotiation
    ensures NewContract(id, args, MapMethod, host, now).stage == "공고준비"
  {
    MapMethodPrivateLabelIsOpen();
  }

  /** With the corrected mapper the same request creates a private-negotiation
      contract at 계약준비, the first stage of its four-stage flow. */
  lemma CreatesPrivateCorrected(id: string, args: CreateArgs, host: Host, now: int)
    requires args.methodText == MethodLabel(PrivateNegotiation)
    ensures NewContract(id, args, MapMethodCorrected, host, now).contractMethod == PrivateNegotiation
    ensures NewContract(id, args, MapMethodCorrected, host, now).stage == "계약준비"
  {
    MapMethodCorrectedInvertsLabels(PrivateNegotiation);
  }

  /** The `toValue` text of a creation log: `JSON.stringify` of the title,
      the category and method names and the amount. */
  function CreatePayload(title: string, category: Category, m: Method, amount: nat): string {
    "{\"title\":" + Quote(title) + ",\"category\":" + Quote(CategoryName(category))
      + ",\"method\":" + Quote(MethodName(m)) + ",\"amount\":" + NatToString(amount) + "}"
  }

  /** The single creation log of a contract. */
  function CreationLog(c: Contract): ChangeLog {
    ChangeLog(Some(c.id), CreateLog, "계약 생성: " + c.title, None,
      Some(CreatePayload(c.title, c.category, c.contractMethod, c.amount)))
  }

  /** The failure reported when the store rejects the new row (its unique id). */
  const CreateFailed: string := "계약 생성 실패"

  /** The `createContract` tool: take an id, store the mapped contract at its
      initial stage and log the creation. A clash with an existing id fails
      after the counter has moved on. */
  method CreateContract(db: Db, args: CreateArgs, methodOf: string -> Method, year: nat, host: Host, now: int) returns (r: Result<Contract, string>)
    modifies db
    ensures db.config == IdStep(old(db.config), year).1 && db.notes == old(db.notes)
    ensures var id := IdStep(old(db.config), year).0;
      HasId(old(db.contracts), id) ==>
        r == Err(CreateFailed) && db.contracts == old(db.contracts) && db.logs == old(db.logs)
    ensures var id := IdStep(old(db.config), year).0;
      !HasId(old(db.contracts), id) ==>
        r == Ok(NewContract(id, args, methodOf, host, now))
        && db.contracts == old(db.contracts) + [r.value]
        && db.logs == old(db.logs) + [CreationLog(r.value)]
    ensures old(db.IdsUnique()) ==> db.IdsUnique()
  {
    var id := GenerateContractId(db, year);
    ghost var step := IdStep(old(db.config), year);
    assert id == step.0 && db.config == step.1;
    var c := NewContract(id, args, methodOf, host, now);
    var amount := ParseAmountArg(args.amount);
    assert amount == c.amount;
    var ok := db.Insert(c);
    if !ok {
      return Err(CreateFailed);
    }
    db.AddLog(CreationLog(c));
    r := Ok(c);
  }

  // ---------------------------------------------------------------------
  // Updates

  /** Arguments of the update tool; "" stands for an absent argument. */
  datatype UpdateArgs = UpdateArgs(
    contractId: string, stage: string, status: string, contractor: string,
    amount: string, budget: string, contractAmount: string, executionAmount: string,
    paymentDate: string)

  /** The `updates` record: the fields to write. */
  datatype Updates = Updates(
    stage: Option<string>, status: Option<Status>, contractor: Option<string>,
    amount: Option<nat>, budget: Option<nat>, contractAmount: Option<nat>,
    executionAmount: Option<nat>, paymentDate: Option<int>)

  const NoUpdates: Updates := Updates(None, None, None, None, None, None, None, None)

  /** One entry of `changes`. */
  datatype Change = Change(field: string, from: string, to: string)

  /** No updatable argument was given. */
  predicate NothingGiven(args: UpdateArgs) {
    args.stage == "" && args.status == "" && args.contractor == "" && args.amount == ""
    && args.budget == "" && args.contractAmount == "" && args.executionAmount == "" && args.paymentDate == ""
  }

  function InvalidStage(m: Method): string {
    "유효하지 않은 단계입니다. 가능한 단계: " + Join(StagesOf(m), ", ")
  }

  const NothingToUpdate: string := "변경할 항목이 없습니다."

  /** Why an update is refused: a stage outside the method's list, or no field. */
  function UpdateError(c: Contract, args: UpdateArgs): Option<string> {
    if args.stage != "" && args.stage !in StagesOf(c.contractMethod) then Some(InvalidStage(c.contractMethod))
    else if NothingGiven(args) then Some(NothingToUpdate)
    else None
  }

  /** The stage written: 집행완료 when a payment date is given, else the requested stage. */
  function FinalStage(args: UpdateArgs): Option<string> {
    if args.paymentDate != "" then Some(Executed)
    else if args.stage != "" then Some(args.stage)
    else None
  }

  /** The status written: the payment date forces completion; otherwise an
      explicit status wins; otherwise 집행완료 completes and any other new
      stage starts a contract that had not started. */
  function FinalStatus(c: Contract, args: UpdateArgs): Option<Status> {
    if args.paymentDate != "" then Some(Completed)
    else if args.status != "" then Some(MapStatus(args.status))
    else if args.stage == Executed then Some(Completed)
    else if args.stage != "" && c.status == BeforeStart && args.stage != c.stage then Some(InProgress)
    else None
  }

  function Given(text: string, v: nat): Option<nat> {
    if text == "" then None else Some(v)
  }

  /** The status the stage section sets, if any. */
  function StageStatus(c: Contract, args: UpdateArgs): Option<Status> {
    if args.stage == "" then None
    else if args.stage == Executed then Some(Completed)
    else if c.status == BeforeStart && args.stage != c.stage then Some(InProgress)
    else None
  }

  function PlannedUpdates(c: Contract, args: UpdateArgs, host: Host): Updates {
    Updates(FinalStage(args), FinalStatus(c, args), OptionalText(args.contractor),
      Given(args.amount, AmountArg(args.amount)), Given(args.budget, AmountArg(args.budget)),
      Given(args.contractAmount, AmountArg(args.contractAmount)),
      Given(args.executionAmount, AmountArg(args.executionAmount)),
      OptionalDate(args.paymentDate, host))
  }

  /** `value || '없음'`. */
  function OrNone(v: Option<string>): string {
    if v.None? || v.value == "" then "없음" else v.value
  }

  function StageChanges(c: Contract, args: UpdateArgs): seq<Change> {
    if args.stage == "" then []
    else
      [Change("단계", c.stage, args.stage)]
      + (if args.stage == Executed then [Change("상태", StatusName(c.status), "완료")]
         else if c.status == BeforeStart && args.stage != c.stage then [Change("상태", "시작 전", "진행 중")]
         else [])
  }

  function AmountChange(field: string, text: string, previous: nat, host: Host): seq<Change> {
    if text == "" then []
    else [Change(field, FormatAmountShort(previous, host), FormatAmountShort(AmountArg(text), host))]
  }

  function PaymentChanges(c: Contract, args: UpdateArgs, host: Host): seq<Change> {
    if args.paymentDate == "" then []
    else
      var from := OrNone(match c.paymentDate case Some(t) => Some(host.isoDay(t)) case None => None);
      [Change("대금집행일", from, args.paymentDate),
       Change("단계", c.stage, Executed),
       Change("상태", StatusName(c.status), "완료")]
  }

  function StatusChange(c: Contract, args: UpdateArgs): seq<Change> {
    if args.status == "" then [] else [Change("상태", StatusName(c.status), args.status)]
  }

  function ContractorChange(c: Contract, args: UpdateArgs): seq<Change> {
    if args.contractor == "" then [] else [Change("계약상대방", OrNone(c.contractor), args.contractor)]
  }

  function FieldChanges(c: Contract, args: UpdateArgs, host: Host): seq<Change> {
    StatusChange(c, args) + ContractorChange(c, args)
    + AmountChange("금액", args.amount, c.amount, host)
    + AmountChange("예산", args.budget, c.budget, host)
    + AmountChange("계약금액", args.contractAmount, c.contractAmount, host)
    + AmountChange("집행금액", args.executionAmount, c.executionAmount, host)
  }

  /** The `changes` list, in the order the tool builds it. */
  function PlannedChanges(c: Contract, args: UpdateArgs, host: Host): seq<Change> {
    StageChanges(c, args) + FieldChanges(c, args, host) + PaymentChanges(c, args, host)
  }

  /** The stage section of `updateContract`: validate the stage, set it, and
      derive the status it implies. */
  method StageSection(c: Contract, args: UpdateArgs) returns (r: Result<(Updates, seq<Change>), string>)
    ensures args.stage != "" && args.stage !in StagesOf(c.contractMethod) ==> r == Err(InvalidStage(c.contractMethod))
    ensures !(args.stage != "" && args.stage !in StagesOf(c.contractMethod)) ==>
      r == Ok((NoUpdates.(stage := OptionalText(args.stage), status := StageStatus(c, args)), StageChanges(c, args)))
  {
    var updates := NoUpdates;
    var changes: seq<Change> := [];
    if args.stage != "" {
      var validStages := StagesOf(c.contractMethod);
      if args.stage !in validStages {
        return Err(InvalidStage(c.contractMethod));
      }
      updates := updates.(stage := Some(args.stage));
      changes := [Change("단계", c.stage, args.stage)];
      if args.stage == Executed {
        updates := updates.(status := Some(Completed));
        changes := changes + [Change("상태", StatusName(c.status), "완료")];
      } else if c.status == BeforeStart && args.stage != c.stage {
        updates := updates.(status := Some(InProgress));
        changes := changes + [Change("상태", "시작 전", "진행 중")];
      }
      assert updates == NoUpdates.(stage := OptionalText(args.stage), status := StageStatus(c, args));
      assert changes == StageChanges(c, args);
    }
    return Ok((updates, changes));
  }

  /** One amount section of `updateContract`: parse the argument when given
      and record the change in short won notation. */
  method AmountSection(field: string, text: string, previous: nat, host: Host) returns (v: Option<nat>, change: seq<Change>)
    ensures v == Given(text, AmountArg(text))
    ensures change == AmountChange(field, text, previous, host)
    ensures text == "" <==> change == []
  {
    if text == "" {
      return None, [];
    }
    var parsed := ParseAmountArg(text);
    v := Some(parsed);
    change := [Change(field, FormatAmountShort(previous, host), FormatAmountShort(parsed, host))];
  }

  /** The status, contractor and amount sections of `updateContract`. */
  method FieldSections(c: Contract, args: UpdateArgs, host: Host, updates: Updates, changes: seq<Change>)
    returns (updates': Updates, changes': seq<Change>)
    ensures updates' == updates.(
      status := if args.status != "" then Some(MapStatus(args.status)) else updates.status,
      contractor := if args.contractor != "" then Some(args.contractor) else updates.contractor,
      amount := Given(args.amount, AmountArg(args.amount)),
      budget := Given(args.budget, AmountArg(args.budget)),
      contractAmount := Given(args.contractAmount, AmountArg(args.contractAmount)),
      executionAmount := Given(args.executionAmount, AmountArg(args.executionAmount)))
    ensures changes' == changes + FieldChanges(c, args, host)
  {
    var status := updates.status;
    var fieldChanges := StatusChange(c, args) + ContractorChange(c, args);
    if args.status != "" {
      status := Some(MapStatus(args.status));
    }
    var amount, amountChange := AmountSection("금액", args.amount, c.amount, host);
    var budget, budgetChange := AmountSection("예산", args.budget, c.budget, host);
    var contractAmount, contractChange := AmountSection("계약금액", args.contractAmount, c.contractAmount, host);
    var executionAmount, executionChange := AmountSection("집행금액", args.executionAmount, c.executionAmount, host);
    updates' := updates.(
      status := status,
      contractor := if args.contractor != "" then Some(args.contractor) else updates.contractor,
      amount := amount, budget := budget, contractAmount := contractAmount, executionAmount := executionAmount);
    changes' := changes + (fieldChanges + amountChange + budgetChange + contractChange + executionChange);
  }

  /** The payment-date section of `updateContract`: record the date and force
      the last stage and completion. */
  method PaymentSection(c: Contract, args: UpdateArgs, host: Host, updates: Updates, changes: seq<Change>)
    returns (updates': Updates, changes': seq<Change>)
    ensures args.paymentDate == "" ==> updates' == updates
    ensures args.paymentDate != "" ==> updates' == updates.(
      paymentDate := Some(host.parseDay(args.paymentDate)), stage := Some(Executed), status := Some(Completed))
    ensures changes' == changes + PaymentChanges(c, args, host)
  {
    updates', changes' := updates, changes;
    if args.paymentDate != "" {
      updates' := updates'.(paymentDate := Some(host.parseDay(args.paymentDate)));
      var from := OrNone(match c.paymentDate case Some(t) => Some(host.isoDay(t)) case None => None);
      changes' := changes' + [Change("대금집행일", from, args.paymentDate)];
      updates' := updates'.(stage := Some(Executed), status := Some(Completed));
      changes' := changes' + [Change("단계", c.stage, Executed)];
      changes' := changes' + [Change("상태", StatusName(c.status), "완료")];
    }
  }

  /** The change builder of `updateContract`: each argument in turn sets its
      field and records a change; the result is refused when the stage is not
      one of the method's stages or when nothing is to be written. */
  method BuildUpdate(c: Contract, args: UpdateArgs, host: Host) returns (r: Result<(Updates, seq<Change>), string>)
    ensures UpdateError(c, args).Some? ==> r == Err(UpdateError(c, args).value)
    ensures UpdateError(c, args).None? ==> r == Ok((PlannedUpdates(c, args, host), PlannedChanges(c, args, host)))
  {
    var staged := StageSection(c, args);
    if staged.Err? {
      return Err(staged.error);
    }
    var (updates, changes) := staged.value;
    updates, changes := FieldSections(c, args, host, updates, changes);
    updates, changes := PaymentSection(c, args, host, updates, changes);
    assert updates == PlannedUpdates(c, args, host);
    assert changes == PlannedChanges(c, args, host);
    NoUpdatesIffNothingGiven(c, args, host);
    if updates == NoUpdates {
      return Err(NothingToUpdate);
    }
    return Ok((updates, changes));
  }

  /** The planned record writes nothing exactly when no argument is given. */
  lemma NoUpdatesIffNothingGiven(c: Contract, args: UpdateArgs, host: Host)
    ensures PlannedUpdates(c, args, host) == NoUpdates <==> NothingGiven(args)
  {
  }

  /** A refused update is refused for one of the two reasons; an accepted one
      records at least one change and keeps the stage inside the method's list. */
  lemma UpdatePlanWellFormed(c: Contract, args: UpdateArgs, host: Host)
    ensures UpdateError(c, args).Some? <==>
      (args.stage != "" && args.stage !in StagesOf(c.contractMethod)) || NothingGiven(args)
    ensures UpdateError(c, args).None? ==> |PlannedChanges(c, args, host)| >= 1
    ensures UpdateError(c, args).None? && FinalStage(args).Some? ==>
      FinalStage(args).value in StagesOf(c.contractMethod)
  {
    var stages := StagesOf(c.contractMethod);
    assert stages[|stages| - 1] == Executed;
  }

  /** A payment date completes the contract whatever else is asked, and its
      three changes close the change list. */
  lemma PaymentDateCompletes(c: Contract, args: UpdateArgs, host: Host)
    requires args.paymentDate != ""
    ensures FinalStage(args) == Some(Executed) && FinalStatus(c, args) == Some(Completed)
    ensures var ch := PlannedChanges(c, args, host);
      |ch| >= 3 && ch[|ch| - 3].field == "대금집행일" && ch[|ch| - 2] == Change("단계", c.stage, Executed)
      && ch[|ch| - 1] == Change("상태", StatusName(c.status), "완료")
  {
  }

  /** Without a payment date, an explicit status overrides the status the new
      stage would imply, even 집행완료's completion. */
  lemma ExplicitStatusOverrides(c: Contract, args: UpdateArgs)
    requires args.paymentDate == "" && args.status != ""
    ensures FinalStatus(c, args) == Some(MapStatus(args.status))
    ensures FinalStatus(c, args) != Some(Deleted)
  {
  }

  /** Without a payment date or an explicit status, 집행완료 completes the
      contract and any other change of stage starts one that had not started;
      otherwise the status is left alone. */
  lemma StageDrivesStatus(c: Contract, args: UpdateArgs)
    requires args.paymentDate == "" && args.status == ""
    ensures args.stage == Executed ==> FinalStatus(c, args) == Some(Completed)
    ensures args.stage != "" && args.stage != Executed && c.status == BeforeStart && args.stage != c.stage
      ==> FinalStatus(c, args) == Some(InProgress)
    ensures FinalStatus(c, args).Some? ==> args.stage != ""
  {
  }

  /** The contract after the update is written; the store stamps `updatedAt`. */
  function Apply(c: Contract, u: Updates, now: int): Contract {
    c.(stage := u.stage.GetOr(c.stage),
       status := u.status.GetOr(c.status),
       contractor := if u.contractor.Some? then u.contractor else c.contractor,
       amount := u.amount.GetOr(c.amount),
       budget := u.budget.GetOr(c.budget),
       contractAmount := u.contractAmount.GetOr(c.contractAmount),
       executionAmount := u.executionAmount.GetOr(c.executionAmount),
       paymentDate := if u.paymentDate.Some? then u.paymentDate else c.paymentDate,
       updatedAt := now)
  }

  /** The log action of a change: 단계 is a stage change, 상태 a status
      change, anything else a plain update. */
  function ActionOf(field: string): Action {
    if field == "단계" then StageLog else if field == "상태" then StatusLog else UpdateLog
  }

  function LogOf(id: string, ch: Change): ChangeLog {
    ChangeLog(Some(id), ActionOf(ch.field), ch.field + " 변경", Some(ch.from), Some(ch.to))
  }

  /** One log record per change, in order. */
  function LogsOf(id: string, changes: seq<Change>): (logs: seq<ChangeLog>)
    ensures |logs| == |changes|
    ensures forall i :: 0 <= i < |changes| ==> logs[i] == LogOf(id, changes[i])
  {
    if changes == [] then []
    else LogsOf(id, changes[..|changes| - 1]) + [LogOf(id, changes[|changes| - 1])]
  }

  function NotFound(key: string): string {
    "계약을 찾을 수 없습니다: " + key
  }

  /** The `updateContract` tool: find the first live contract by id or title,
      build the update, write it and log every change. */
  method UpdateContract(db: Db, args: UpdateArgs, host: Host, now: int) returns (r: Result<Contract, string>)
    modifies db
    ensures FindLive(old(db.contracts), args.contractId).None? ==>
      r == Err(NotFound(args.contractId)) && unchanged(db)
    ensures FindLive(old(db.contracts), args.contractId).Some? ==>
      var i := FindLive(old(db.contracts), args.contractId).value;
      var c := old(db.contracts)[i];
      && (UpdateError(c, args).Some? ==> r == Err(UpdateError(c, args).value) && unchanged(db))
      && (UpdateError(c, args).None? ==>
            r == Ok(Apply(c, PlannedUpdates(c, args, host), now))
            && db.contracts == old(db.contracts)[i := r.value]
            && db.logs == old(db.logs) + LogsOf(c.id, PlannedChanges(c, args, host))
            && db.notes == old(db.notes) && db.config == old(db.config))
  {
    var found := FindLive(db.contracts, args.contractId);
    if found.None? {
      return Err(NotFound(args.contractId));
    }
    var i := found.value;
    var c := db.contracts[i];
    var plan := BuildUpdate(c, args, host);
    if plan.Err? {
      return Err(plan.error);
    }
    var (updates, changes) := plan.value;
    var updated := Apply(c, updates, now);
    db.contracts := db.contracts[i := updated];
    AppendLogs(db, c.id, changes);
    r := Ok(updated);
  }

  /** The `for (const change of changes)` loop of `updateContract`: one log
      record per change, in order. */
  method AppendLogs(db: Db, contractId: string, changes: seq<Change>)
    modifies db
    ensures db.logs == old(db.logs) + LogsOf(contractId, changes)
    ensures db.contracts == old(db.contracts) && db.notes == old(db.notes) && db.config == old(db.config)
  {
    for k := 0 to |changes|
      invariant db.logs == old(db.logs) + LogsOf(contractId, changes[..k])
      invariant db.contracts == old(db.contracts) && db.notes == old(db.notes) && db.config == old(db.config)
    {
      assert changes[..k + 1][..k] == changes[..k];
      db.logs := db.logs + [LogOf(contractId, changes[k])];
    }
    assert changes[..|changes|] == changes;
  }

  // ---------------------------------------------------------------------
  // Notes

  const Keywords: seq<string> := ["검토", "완료", "승인", "요청", "회의", "수정", "확인", "보류", "긴급"]

  /** The keywords of `keywords` that `content` contains, in list order. */
  function KeywordsIn(content: string, keywords: seq<string>): (r: seq<string>)
    ensures forall k :: k in r <==> k in keywords && Contains(content, k)
    ensures |r| <= |keywords|
  {
    if keywords == [] then []
    else
      var last := keywords[|keywords| - 1];
      assert keywords == keywords[..|keywords| - 1] + [last];
      KeywordsIn(content, keywords[..|keywords| - 1]) + (if Contains(content, last) then [last] else [])
  }

  /** Tagging a concatenated keyword list tags each part in turn, so the tags
      follow the order of the list and repeat a repeated keyword. */
  lemma {:induction false} KeywordsInAppend(content: string, ks: seq<string>, more: seq<string>)
    ensures KeywordsIn(content, ks + more) == KeywordsIn(content, ks) + KeywordsIn(content, more)
    decreases |more|
  {
    if more != [] {
      var last := more[|more| - 1];
      var front := more[..|more| - 1];
      assert (ks + more)[..|ks + more| - 1] == ks + front;
      assert (ks + more)[|ks + more| - 1] == last;
      KeywordsInAppend(content, ks, front);
    } else {
      assert ks + more == ks;
    }
  }

  /** The tags a note is stored with. */
  function NoteTags(content: string, tags: Option<seq<string>>): seq<string> {
    if tags.Some? && tags.value != [] then tags.value else KeywordsIn(content, Keywords)
  }

  /** The tag extraction of `addNote`: given tags are kept as they are;
      without tags, every keyword the content contains is pushed in turn. */
  method ExtractTags(content: string, tags: Option<seq<string>>) returns (r: seq<string>)
    ensures tags.Some? && tags.value != [] ==> r == tags.value
    ensures tags.None? || tags.value == [] ==> r == KeywordsIn(content, Keywords)
  {
    r := tags.GetOr([]);
    if tags.None? || |tags.value| == 0 {
      for k := 0 to |Keywords|
        invariant r == KeywordsIn(content, Keywords[..k])
      {
        assert Keywords[..k + 1][..k] == Keywords[..k];
        if Contains(content, Keywords[k]) {
          r := r + [Keywords[k]];
        }
      }
      assert Keywords[..|Keywords|] == Keywords;
    }
  }

  /** The `addNote` tool: find the contract, store the note with its tags and
      log it. */
  method AddNote(db: Db, key: string, content: string, tags: Option<seq<string>>) returns (r: Result<Note, string>)
    modifies db
    ensures FindLive(old(db.contracts), key).None? ==> r == Err(NotFound(key)) && unchanged(db)
    ensures FindLive(old(db.contracts), key).Some? ==>
      var c := old(db.contracts)[FindLive(old(db.contracts), key).value];
      r == Ok(Note(c.id, content, NoteTags(content, tags)))
      && db.notes == old(db.notes) + [r.value]
      && db.logs == old(db.logs) + [ChangeLog(Some(c.id), NoteLog, "메모 추가", None, Some(content))]
      && db.contracts == old(db.contracts) && db.config == old(db.config)
  {
    var found := FindLive(db.contracts, key);
    if found.None? {
      return Err(NotFound(key));
    }
    var c := db.contracts[found.value];
    var extracted := ExtractTags(content, tags);
    var note := Note(c.id, content, extracted);
    db.notes := db.notes + [note];
    db.logs := db.logs + [ChangeLog(Some(c.id), NoteLog, "메모 추가", None, Some(content))];
    r := Ok(note);
  }
}
