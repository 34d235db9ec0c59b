/** The request schemas of the contract API: what a JSON body or query must
    look like to be accepted, and the values it is read as, defaults filled. */
module Validation {
  import opened Wrappers
  import opened Domain

  /** A JSON value; `JFraction` is any number that is not an integer (its
      value never matters to the schemas, which only accept integers). */
  datatype Json =
    | JNull
    | JBool(b: bool)
    | JInt(i: int)
    | JFraction
    | JString(s: string)
    | JArray(items: seq<Json>)
    | JObject(fields: map<string, Json>)

  /** The body keys the schemas read (zod drops every other key). */
  datatype Key =
    | TitleKey | CategoryKey | MethodKey
    | AmountKey | BudgetKey | ContractAmountKey | ExecutionAmountKey
    | RequesterKey | RequesterContactKey | ContractorKey
    | DeadlineKey | RequestDateKey | AnnouncementStartKey | AnnouncementEndKey
    | OpeningDateKey | ContractStartKey | ContractEndKey | PaymentDateKey
    | StageKey | StatusKey | ContentKey | TagsKey
    | LimitKey | OffsetKey | SortKey | OrderKey | SearchKey

  /** A request body: the fields present; an absent key is `undefined`. */
  type Object = map<Key, Json>

  // ---------------------------------------------------------------------
  // Enumerations

  /** `categorySchema`. */
  function CategoryOf(v: Json): (r: Option<Category>)
    ensures r.Some? ==> v == JString(CategoryName(r.value))
  {
    match v
    case JString(s) =>
      if s == "GOODS_PURCHASE" then Some(GoodsPurchase)
      else if s == "GOODS_MANUFACTURE" then Some(GoodsManufacture)
      else if s == "SERVICE" then Some(Service)
      else if s == "CONSTRUCTION" then Some(Construction)
      else None
    case _ => None
  }

  /** `methodSchema`. */
  function MethodOf(v: Json): (r: Option<Method>)
    ensures r.Some? ==> v == JString(MethodName(r.value))
  {
    match v
    case JString(s) =>
      if s == "OPEN_BID" then Some(OpenBid)
      else if s == "RESTRICTED_BID" then Some(RestrictedBid)
      else if s == "NOMINATED_BID" then Some(NominatedBid)
      else if s == "OPEN_NEGOTIATION" then Some(OpenNegotiation)
      else if s == "PRIVATE_NEGOTIATION" then Some(PrivateNegotiation)
      else None
    case _ => None
  }

  /** `statusSchema`: all six statuses, DELETED included. */
  function StatusOf(v: Json): (r: Option<Status>)
    ensures r.Some? ==> v == JString(StatusName(r.value))
  {
    match v
    case JString(s) =>
      if s == "BEFORE_START" then Some(BeforeStart)
      else if s == "IN_PROGRESS" then Some(InProgress)
      else if s == "WAITING" then Some(Waiting)
      else if s == "DELAYED" then Some(Delayed)
      else if s == "COMPLETED" then Some(Completed)
      else if s == "DELETED" then Some(Deleted)
      else None
    case _ => None
  }

  /** Each enumeration accepts exactly the names of its values. */
  lemma EnumsAcceptTheirNames(c: Category, m: Method, s: Status)
    ensures CategoryOf(JString(CategoryName(c))) == Some(c)
    ensures MethodOf(JString(MethodName(m))) == Some(m)
    ensures StatusOf(JString(StatusName(s))) == Some(s)
  {
  }

  // ---------------------------------------------------------------------
  // Field rules. `Some(v)` is the value read, `None` a validation failure.

  /** `z.string().min(1)`. */
  function NonEmptyText(v: Json): (r: Option<string>)
    ensures r.Some? <==> v.JString? && v.s != ""
    ensures r.Some? ==> r.value == v.s
  {
    if v.JString? && v.s != "" then Some(v.s) else None
  }

  /** `z.number().int().nonnegative()`. */
  function WholeNumber(v: Json): (r: Option<nat>)
    ensures r.Some? <==> v.JInt? && v.i >= 0
    ensures r.Some? ==> r.value == v.i
  {
    if v.JInt? && v.i >= 0 then Some(v.i) else None
  }

  /** `z.string().optional().nullable()`: absent and null both read as `None`. */
  function NullableText(obj: Object, key: Key): (r: Option<Option<string>>)
    ensures r.Some? <==> key !in obj || obj[key].JNull? || obj[key].JString?
    ensures r.Some? && r.value.Some? <==> key in obj && obj[key].JString?
  {
    if key !in obj || obj[key].JNull? then Some(None)
    else if obj[key].JString? then Some(Some(obj[key].s))
    else None
  }

  /** `.optional().default(d)` over a whole-number rule. */
  function WholeOrDefault(obj: Object, key: Key, d: nat): (r: Option<nat>)
    ensures key !in obj ==> r == Some(d)
    ensures key in obj ==> r == WholeNumber(obj[key])
  {
    if key !in obj then Some(d) else WholeNumber(obj[key])
  }

  /** `.optional()` over a whole-number rule: absent reads as `None`. */
  function OptionalWhole(obj: Object, key: Key): (r: Option<Option<nat>>)
    ensures key !in obj ==> r == Some(None)
    ensures key in obj ==> (r.Some? <==> WholeNumber(obj[key]).Some?)
    ensures key in obj && r.Some? ==> r.value == WholeNumber(obj[key])
  {
    if key !in obj then Some(None)
    else match WholeNumber(obj[key])
      case Some(n) => Some(Some(n))
      case None => None
  }

  // ---------------------------------------------------------------------
  // createContractSchema

  /** The date fields every contract schema carries, all `string | null`. */
  datatype Dates = Dates(
    deadline: Option<string>, requestDate: Option<string>,
    announcementStart: Option<string>, announcementEnd: Option<string>,
    openingDate: Option<string>, contractStart: Option<string>,
    contractEnd: Option<string>, paymentDate: Option<string>)

  /** The eight `string | null` date fields; `None` when one of them is neither. */
  function ReadDates(obj: Object): Option<Dates>
  {
    var d0, d1, d2, d3 := NullableText(obj, DeadlineKey), NullableText(obj, RequestDateKey),
      NullableText(obj, AnnouncementStartKey), NullableText(obj, AnnouncementEndKey);
    var d4, d5, d6, d7 := NullableText(obj, OpeningDateKey), NullableText(obj, ContractStartKey),
      NullableText(obj, ContractEndKey), NullableText(obj, PaymentDateKey);
    if d0.Some? && d1.Some? && d2.Some? && d3.Some? && d4.Some? && d5.Some? && d6.Some? && d7.Some? then
      Some(Dates(d0.value, d1.value, d2.value, d3.value, d4.value, d5.value, d6.value, d7.value))
    else None
  }

  /** The four amount fields, each a whole number of won. */
  datatype Amounts = Amounts(amount: nat, budget: nat, contractAmount: nat, executionAmount: nat)

  /** The three free-text party fields, each `string | null`. */
  datatype Parties = Parties(requester: Option<string>, requesterContact: Option<string>, contractor: Option<string>)

  /** The value `createContractSchema.parse` returns. */
  datatype CreateInput = CreateInput(
    title: string, category: Category, contractMethod: Method,
    amounts: Amounts, parties: Parties, dates: Dates)

  /** An amount field read as `v`: the integer sent, or 0 when absent. */
  predicate AmountRead(obj: Object, k: Key, v: nat) {
    if k in obj then obj[k] == JInt(v) else v == 0
  }

  /** The amount fields, each `.optional().default(0)`. */
  function ReadAmounts(obj: Object): (r: Option<Amounts>)
    ensures r.Some? ==> (AmountRead(obj, AmountKey, r.value.amount) && AmountRead(obj, BudgetKey, r.value.budget)
      && AmountRead(obj, ContractAmountKey, r.value.contractAmount) && AmountRead(obj, ExecutionAmountKey, r.value.executionAmount))
  {
    var amount, budget := WholeOrDefault(obj, AmountKey, 0), WholeOrDefault(obj, BudgetKey, 0);
    var contractAmount, executionAmount := WholeOrDefault(obj, ContractAmountKey, 0), WholeOrDefault(obj, ExecutionAmountKey, 0);
    if amount.Some? && budget.Some? && contractAmount.Some? && executionAmount.Some? then
      Some(Amounts(amount.value, budget.value, contractAmount.value, executionAmount.value))
    else None
  }

  /** The party fields, each `.optional().nullable()`. */
  function ReadParties(obj: Object): Option<Parties> {
    var requester, contact, contractor := NullableText(obj, RequesterKey), NullableText(obj, RequesterContactKey), NullableText(obj, ContractorKey);
    if requester.Some? && contact.Some? && contractor.Some? then
      Some(Parties(requester.value, contact.value, contractor.value))
    else None
  }

  /** `createContractSchema.parse(body)`; `None` is a `ZodError`. */
  function ParseCreate(obj: Object): (r: Option<CreateInput>)
    ensures r.Some? ==> r.value.title != "" && TitleKey in obj && obj[TitleKey] == JString(r.value.title)
    ensures r.Some? ==> CategoryKey in obj && obj[CategoryKey] == JString(CategoryName(r.value.category))
    ensures r.Some? ==> MethodKey in obj && obj[MethodKey] == JString(MethodName(r.value.contractMethod))
    ensures r.Some? ==> ReadAmounts(obj) == Some(r.value.amounts)
  {
    if TitleKey !in obj || CategoryKey !in obj || MethodKey !in obj then None
    else
      var title, category, m := NonEmptyText(obj[TitleKey]), CategoryOf(obj[CategoryKey]), MethodOf(obj[MethodKey]);
      var amounts, parties, dates := ReadAmounts(obj), ReadParties(obj), ReadDates(obj);
      if title.Some? && category.Some? && m.Some? && amounts.Some? && parties.Some? && dates.Some?
      then Some(CreateInput(title.value, category.value, m.value, amounts.value, parties.value, dates.value))
      else None
  }

  /** The JSON a well-formed creation request carries. */
  function TextField(v: Option<string>): Json {
    match v
    case Some(s) => JString(s)
    case None => JNull
  }

  function CreateObject(x: CreateInput): Object {
    map[TitleKey := JString(x.title), CategoryKey := JString(CategoryName(x.category)),
      MethodKey := JString(MethodName(x.contractMethod)),
      AmountKey := JInt(x.amounts.amount), BudgetKey := JInt(x.amounts.budget),
      ContractAmountKey := JInt(x.amounts.contractAmount), ExecutionAmountKey := JInt(x.amounts.executionAmount),
      RequesterKey := TextField(x.parties.requester), RequesterContactKey := TextField(x.parties.requesterContact),
      ContractorKey := TextField(x.parties.contractor),
      DeadlineKey := TextField(x.dates.deadline), RequestDateKey := TextField(x.dates.requestDate),
      AnnouncementStartKey := TextField(x.dates.announcementStart), AnnouncementEndKey := TextField(x.dates.announcementEnd),
      OpeningDateKey := TextField(x.dates.openingDate), ContractStartKey := TextField(x.dates.contractStart),
      ContractEndKey := TextField(x.dates.contractEnd), PaymentDateKey := TextField(x.dates.paymentDate)]
  }

  /** `obj` sends the dates `d`, each as a string or null. */
  predicate CarriesDates(obj: Object, d: Dates) {
    && DeadlineKey in obj && obj[DeadlineKey] == TextField(d.deadline)
    && RequestDateKey in obj && obj[RequestDateKey] == TextField(d.requestDate)
    && AnnouncementStartKey in obj && obj[AnnouncementStartKey] == TextField(d.announcementStart)
    && AnnouncementEndKey in obj && obj[AnnouncementEndKey] == TextField(d.announcementEnd)
    && OpeningDateKey in obj && obj[OpeningDateKey] == TextField(d.openingDate)
    && ContractStartKey in obj && obj[ContractStartKey] == TextField(d.contractStart)
    && ContractEndKey in obj && obj[ContractEndKey] == TextField(d.contractEnd)
    && PaymentDateKey in obj && obj[PaymentDateKey] == TextField(d.paymentDate)
  }

  /** The dates are read back from any object that carries them. */
  lemma ReadDatesBack(d: Dates, obj: Object)
    requires CarriesDates(obj, d)
    ensures ReadDates(obj) == Some(d)
  {
    assert NullableText(obj, DeadlineKey) == Some(d.deadline);
    assert NullableText(obj, RequestDateKey) == Some(d.requestDate);
    assert NullableText(obj, AnnouncementStartKey) == Some(d.announcementStart);
    assert NullableText(obj, AnnouncementEndKey) == Some(d.announcementEnd);
    assert NullableText(obj, OpeningDateKey) == Some(d.openingDate);
    assert NullableText(obj, ContractStartKey) == Some(d.contractStart);
    assert NullableText(obj, ContractEndKey) == Some(d.contractEnd);
    assert NullableText(obj, PaymentDateKey) == Some(d.paymentDate);
  }

  lemma ReadAmountsBack(a: Amounts, obj: Object)
    requires AmountKey in obj && obj[AmountKey] == JInt(a.amount)
    requires BudgetKey in obj && obj[BudgetKey] == JInt(a.budget)
    requires ContractAmountKey in obj && obj[ContractAmountKey] == JInt(a.contractAmount)
    requires ExecutionAmountKey in obj && obj[ExecutionAmountKey] == JInt(a.executionAmount)
    ensures ReadAmounts(obj) == Some(a)
  {
  }

  lemma ReadPartiesBack(p: Parties, obj: Object)
    requires RequesterKey in obj && obj[RequesterKey] == TextField(p.requester)
    requires RequesterContactKey in obj && obj[RequesterContactKey] == TextField(p.requesterContact)
    requires ContractorKey in obj && obj[ContractorKey] == TextField(p.contractor)
    ensures ReadParties(obj) == Some(p)
  {
    assert NullableText(obj, RequesterKey) == Some(p.requester);
    assert NullableText(obj, RequesterContactKey) == Some(p.requesterContact);
    assert NullableText(obj, ContractorKey) == Some(p.contractor);
  }

  /** `obj` sends every field of `x`, as `CreateObject` does. */
  predicate Encodes(obj: Object, x: CreateInput) {
    && TitleKey in obj && obj[TitleKey] == JString(x.title)
    && CategoryKey in obj && obj[CategoryKey] == JString(CategoryName(x.category))
    && MethodKey in obj && obj[MethodKey] == JString(MethodName(x.contractMethod))
    && AmountKey in obj && obj[AmountKey] == JInt(x.amounts.amount)
    && BudgetKey in obj && obj[BudgetKey] == JInt(x.amounts.budget)
    && ContractAmountKey in obj && obj[ContractAmountKey] == JInt(x.amounts.contractAmount)
    && ExecutionAmountKey in obj && obj[ExecutionAmountKey] == JInt(x.amounts.executionAmount)
    && RequesterKey in obj && obj[RequesterKey] == TextField(x.parties.requester)
    && RequesterContactKey in obj && obj[RequesterContactKey] == TextField(x.parties.requesterContact)
    && ContractorKey in obj && obj[ContractorKey] == TextField(x.parties.contractor)
    && CarriesDates(obj, x.dates)
  }

  /** Any body that sends the fields of a value with a non-empty title parses to that value. */
  lemma ParseEncoded(obj: Object, x: CreateInput)
    requires x.title != "" && Encodes(obj, x)
    ensures ParseCreate(obj) == Some(x)
  {
    assert NonEmptyText(obj[TitleKey]) == Some(x.title);
    assert CategoryOf(obj[CategoryKey]) == Some(x.category) && MethodOf(obj[MethodKey]) == Some(x.contractMethod) by {
      EnumsAcceptTheirNames(x.category, x.contractMethod, BeforeStart);
    }
    assert ReadAmounts(obj) == Some(x.amounts) by { ReadAmountsBack(x.amounts, obj); }
    assert ReadParties(obj) == Some(x.parties) by { ReadPartiesBack(x.parties, obj); }
    assert ReadDates(obj) == Some(x.dates) by { ReadDatesBack(x.dates, obj); }
  }

  /** Every value with a non-empty title is accepted back from its own JSON. */
  lemma CreateRoundTrip(x: CreateInput)
    requires x.title != ""
    ensures ParseCreate(CreateObject(x)) == Some(x)
  {
    assert Encodes(CreateObject(x), x);
    ParseEncoded(CreateObject(x), x);
  }

  /** A missing or empty title, or an amount that is negative or not an
      integer, is refused. */
  lemma CreateRejects(obj: Object)
    requires TitleKey !in obj || obj[TitleKey] == JString("")
      || (AmountKey in obj && (obj[AmountKey] == JFraction || (obj[AmountKey].JInt? && obj[AmountKey].i < 0)))
    ensures ParseCreate(obj) == None
  {
    if TitleKey in obj && obj[TitleKey] != JString("") {
      assert ReadAmounts(obj) == None;
    }
  }

  // ---------------------------------------------------------------------
  // updateContractSchema

  /** A field of `string | null | undefined` as an update reads it: `None`
      when absent (the column is left alone), `Some(None)` when sent as null
      (the column is cleared), `Some(Some(s))` when sent as a string. */
  type Nullable = Option<Option<string>>

  /** `z.string().optional().nullable()` in an update: absent and null stay
      apart. */
  function UpdateText(obj: Object, key: Key): (r: Option<Nullable>)
    ensures r.Some? <==> key !in obj || obj[key].JNull? || obj[key].JString?
    ensures r.Some? ==> Carries(obj, key, r.value)
  {
    if key !in obj then Some(None)
    else if obj[key].JNull? then Some(Some(None))
    else if obj[key].JString? then Some(Some(Some(obj[key].s)))
    else None
  }

  /** `v` is what the body holds under `key`: nothing, null or that string. */
  predicate Carries(obj: Object, key: Key, v: Nullable) {
    && (key !in obj <==> v.None?)
    && (key in obj && obj[key].JNull? <==> v == Some(None))
    && (v.Some? && v.value.Some? ==> key in obj && obj[key] == JString(v.value.value))
  }

  /** The eight date fields of an update. */
  datatype UpdateDates = UpdateDates(
    deadline: Nullable, requestDate: Nullable,
    announcementStart: Nullable, announcementEnd: Nullable,
    openingDate: Nullable, contractStart: Nullable,
    contractEnd: Nullable, paymentDate: Nullable)

  /** The eight date fields as an update reads them; `None` when one of
      them is neither absent, null nor a string. */
  function ReadUpdateDates(obj: Object): (r: Option<UpdateDates>)
    ensures r.Some? ==>
      && Carries(obj, DeadlineKey, r.value.deadline) && Carries(obj, RequestDateKey, r.value.requestDate)
      && Carries(obj, AnnouncementStartKey, r.value.announcementStart)
      && Carries(obj, AnnouncementEndKey, r.value.announcementEnd)
      && Carries(obj, OpeningDateKey, r.value.openingDate) && Carries(obj, ContractStartKey, r.value.contractStart)
      && Carries(obj, ContractEndKey, r.value.contractEnd) && Carries(obj, PaymentDateKey, r.value.paymentDate)
  {
    var d0, d1, d2, d3 := UpdateText(obj, DeadlineKey), UpdateText(obj, RequestDateKey),
      UpdateText(obj, AnnouncementStartKey), UpdateText(obj, AnnouncementEndKey);
    var d4, d5, d6, d7 := UpdateText(obj, OpeningDateKey), UpdateText(obj, ContractStartKey),
      UpdateText(obj, ContractEndKey), UpdateText(obj, PaymentDateKey);
    if d0.Some? && d1.Some? && d2.Some? && d3.Some? && d4.Some? && d5.Some? && d6.Some? && d7.Some? then
      Some(UpdateDates(d0.value, d1.value, d2.value, d3.value, d4.value, d5.value, d6.value, d7.value))
    else None
  }

  /** The value `updateContractSchema.parse` returns; every field optional,
      `None` when the key is absent. */
  datatype UpdateInput = UpdateInput(
    title: Option<string>, category: Option<Category>, contractMethod: Option<Method>,
    amount: Option<nat>, budget: Option<nat>, contractAmount: Option<nat>, executionAmount: Option<nat>,
    requester: Nullable, requesterContact: Nullable, contractor: Nullable,
    stage: Option<string>, status: Option<Status>, dates: UpdateDates)

  /** `.optional()` over any rule: absent reads as `None`, present must pass. */
  function OptionalOf<T>(obj: Object, key: Key, rule: Json -> Option<T>): (r: Option<Option<T>>)
    ensures key !in obj ==> r == Some(None)
    ensures key in obj ==> (r.Some? <==> rule(obj[key]).Some?)
    ensures key in obj && r.Some? ==> r.value == rule(obj[key])
  {
    if key !in obj then Some(None)
    else match rule(obj[key])
      case Some(v) => Some(Some(v))
      case None => None
  }

  /** `z.string()`. */
  function AnyText(v: Json): Option<string> {
    if v.JString? then Some(v.s) else None
  }

  /** `v` is what an optional field reads as: present exactly when `key` is
      sent, and then the value `rule` reads from it. */
  predicate Sends<T(==)>(obj: Object, key: Key, rule: Json -> Option<T>, v: Option<T>) {
    && (key in obj <==> v.Some?)
    && (v.Some? ==> rule(obj[key]) == Some(v.value))
  }

  /** The field `key` is sent with a value `rule` refuses. */
  predicate Refuses<T>(obj: Object, key: Key, rule: Json -> Option<T>) {
    key in obj && rule(obj[key]).None?
  }

  /** `updateContractSchema.parse(body)`. */
  function ParseUpdate(obj: Object): (r: Option<UpdateInput>)
    ensures r.Some? ==> (TitleKey in obj <==> r.value.title.Some?)
    ensures r.Some? && r.value.title.Some? ==>
      TitleKey in obj && obj[TitleKey] == JString(r.value.title.value) && r.value.title.value != ""
    ensures r.Some? ==> (StatusKey in obj <==> r.value.status.Some?)
    ensures r.Some? && r.value.status.Some? ==> StatusOf(obj[StatusKey]) == Some(r.value.status.value)
    ensures r.Some? ==> Carries(obj, RequesterKey, r.value.requester)
    ensures r.Some? ==> Carries(obj, RequesterContactKey, r.value.requesterContact)
    ensures r.Some? ==> Carries(obj, ContractorKey, r.value.contractor)
    ensures r.Some? ==> ReadUpdateDates(obj) == Some(r.value.dates)
    ensures (RequesterKey in obj && !obj[RequesterKey].JNull? && !obj[RequesterKey].JString?) ==> r.None?
    ensures (StatusKey in obj && StatusOf(obj[StatusKey]).None?) ==> r.None?
  {
    var title, category, m := OptionalOf(obj, TitleKey, NonEmptyText), OptionalOf(obj, CategoryKey, CategoryOf), OptionalOf(obj, MethodKey, MethodOf);
    var amount, budget := OptionalWhole(obj, AmountKey), OptionalWhole(obj, BudgetKey);
    var contractAmount, executionAmount := OptionalWhole(obj, ContractAmountKey), OptionalWhole(obj, ExecutionAmountKey);
    var requester, contact, contractor := UpdateText(obj, RequesterKey), UpdateText(obj, RequesterContactKey), UpdateText(obj, ContractorKey);
    var stage, status := OptionalOf(obj, StageKey, AnyText), OptionalOf(obj, StatusKey, StatusOf);
    var dates := ReadUpdateDates(obj);
    if title.Some? && category.Some? && m.Some? && amount.Some? && budget.Some? && contractAmount.Some?
      && executionAmount.Some? && requester.Some? && contact.Some? && contractor.Some?
      && stage.Some? && status.Some? && dates.Some?
    then Some(UpdateInput(title.value, category.value, m.value, amount.value, budget.value,
      contractAmount.value, executionAmount.value, requester.value, contact.value, contractor.value,
      stage.value, status.value, dates.value))
    else None
  }

  /** The enumerations, amounts and stage of an accepted update are the
      values sent, and absent exactly when not sent. */
  lemma UpdateKeepsSentFields(obj: Object)
    requires ParseUpdate(obj).Some?
    ensures var u := ParseUpdate(obj).value;
      && Sends(obj, CategoryKey, CategoryOf, u.category) && Sends(obj, MethodKey, MethodOf, u.contractMethod)
      && Sends(obj, StageKey, AnyText, u.stage)
    ensures var u := ParseUpdate(obj).value;
      && Sends(obj, AmountKey, WholeNumber, u.amount) && Sends(obj, BudgetKey, WholeNumber, u.budget)
      && Sends(obj, ContractAmountKey, WholeNumber, u.contractAmount)
      && Sends(obj, ExecutionAmountKey, WholeNumber, u.executionAmount)
  {
  }

  /** An update with a field its rule refuses is refused as a whole. */
  lemma UpdateRefusesBadField(obj: Object)
    ensures (|| Refuses(obj, TitleKey, NonEmptyText) || Refuses(obj, CategoryKey, CategoryOf)
             || Refuses(obj, MethodKey, MethodOf) || Refuses(obj, StageKey, AnyText))
      ==> ParseUpdate(obj).None?
    ensures (|| Refuses(obj, AmountKey, WholeNumber) || Refuses(obj, BudgetKey, WholeNumber)
             || Refuses(obj, ContractAmountKey, WholeNumber) || Refuses(obj, ExecutionAmountKey, WholeNumber))
      ==> ParseUpdate(obj).None?
  {
  }

  /** The empty body is a valid update that changes nothing, and an update may
      set any of the six statuses, DELETED included. */
  lemma UpdateAcceptsEmptyAndAnyStatus(s: Status)
    ensures ParseUpdate(map[]) == Some(UpdateInput(None, None, None, None, None, None, None, None, None, None,
      None, None, UpdateDates(None, None, None, None, None, None, None, None)))
    ensures var r := ParseUpdate(map[StatusKey := JString(StatusName(s))]);
      r.Some? && r.value.status == Some(s)
  {
    EnumsAcceptTheirNames(GoodsPurchase, OpenBid, s);
    var obj := map[StatusKey := JString(StatusName(s))];
    assert ReadUpdateDates(obj) == Some(UpdateDates(None, None, None, None, None, None, None, None));
  }

  /** A requester sent as null reads as `Some(None)` (clear the column),
      unlike the empty body, where it reads as `None` (leave it alone). */
  lemma UpdateNullIsNotAbsent()
    ensures ParseUpdate(map[RequesterKey := JNull]) == Some(UpdateInput(None, None, None, None, None, None, None,
      Some(None), None, None, None, None, UpdateDates(None, None, None, None, None, None, None, None)))
  {
    var obj := map[RequesterKey := JNull];
    assert ReadUpdateDates(obj) == Some(UpdateDates(None, None, None, None, None, None, None, None));
  }

  // ---------------------------------------------------------------------
  // createNoteSchema

  datatype NoteInput = NoteInput(content: string, tags: seq<string>)

  /** `z.array(z.string())` on the items of an array. */
  function TextItems(items: seq<Json>): (r: Option<seq<string>>)
    ensures r.Some? <==> forall i :: 0 <= i < |items| ==> items[i].JString?
    ensures r.Some? ==> |r.value| == |items| && forall i :: 0 <= i < |items| ==> items[i] == JString(r.value[i])
  {
    if items == [] then Some([])
    else
      var last := items[|items| - 1];
      match TextItems(items[..|items| - 1])
      case None => None
      case Some(front) =>
        if last.JString? then Some(front + [last.s]) else None
  }

  function TextList(v: Json): (r: Option<seq<string>>)
    ensures r.Some? ==> v.JArray? && |r.value| == |v.items|
  {
    if v.JArray? then TextItems(v.items) else None
  }

  /** `createNoteSchema.parse(body)`: non-empty content, tags default to []. */
  function ParseNote(obj: Object): (r: Option<NoteInput>)
    ensures r.Some? <==> (ContentKey in obj && NonEmptyText(obj[ContentKey]).Some?
      && (TagsKey in obj ==> TextList(obj[TagsKey]).Some?))
    ensures r.Some? ==> r.value.content != "" && (TagsKey !in obj ==> r.value.tags == [])
  {
    if ContentKey !in obj then None
    else match NonEmptyText(obj[ContentKey])
      case None => None
      case Some(content) =>
        if TagsKey !in obj then Some(NoteInput(content, []))
        else match TextList(obj[TagsKey])
          case None => None
          case Some(tags) => Some(NoteInput(content, tags))
  }

  // ---------------------------------------------------------------------
  // listContractsQuerySchema

  datatype Sort = ByUpdatedAt | ByCreatedAt | ByDeadline | ByAmount
  datatype Order = Asc | Desc

  datatype ListQuery = ListQuery(
    status: Option<Status>, category: Option<Category>, contractMethod: Option<Method>,
    limit: nat, offset: nat, sort: Sort, order: Order, search: Option<string>)

  function SortOf(v: Json): Option<Sort> {
    match v
    case JString(s) =>
      if s == "updatedAt" then Some(ByUpdatedAt)
      else if s == "createdAt" then Some(ByCreatedAt)
      else if s == "deadline" then Some(ByDeadline)
      else if s == "amount" then Some(ByAmount)
      else None
    case _ => None
  }

  function OrderOf(v: Json): Option<Order> {
    match v
    case JString(s) => if s == "asc" then Some(Asc) else if s == "desc" then Some(Desc) else None
    case _ => None
  }

  /** `z.number().int().positive()`. */
  function PositiveNumber(v: Json): (r: Option<nat>)
    ensures r.Some? ==> r.value > 0
  {
    if v.JInt? && v.i > 0 then Some(v.i) else None
  }

  /** `listContractsQuerySchema.parse(query)`: limit 20, offset 0, sort
      updatedAt and order desc when absent. */
  function ParseListQuery(obj: Object): (r: Option<ListQuery>)
    ensures r.Some? ==> r.value.limit > 0
    ensures r.Some? && LimitKey !in obj ==> r.value.limit == 20
    ensures r.Some? && OffsetKey !in obj ==> r.value.offset == 0
    ensures r.Some? && SortKey !in obj ==> r.value.sort == ByUpdatedAt
    ensures r.Some? && OrderKey !in obj ==> r.value.order == Desc
    ensures r.Some? && LimitKey in obj ==> PositiveNumber(obj[LimitKey]) == Some(r.value.limit)
    ensures r.Some? && OffsetKey in obj ==> WholeNumber(obj[OffsetKey]) == Some(r.value.offset)
    ensures r.Some? && SortKey in obj ==> SortOf(obj[SortKey]) == Some(r.value.sort)
    ensures r.Some? && OrderKey in obj ==> OrderOf(obj[OrderKey]) == Some(r.value.order)
    ensures r.Some? ==> (StatusKey in obj <==> r.value.status.Some?)
    ensures r.Some? && r.value.status.Some? ==> StatusOf(obj[StatusKey]) == Some(r.value.status.value)
    ensures r.Some? ==> (CategoryKey in obj <==> r.value.category.Some?)
    ensures r.Some? && r.value.category.Some? ==> CategoryOf(obj[CategoryKey]) == Some(r.value.category.value)
    ensures r.Some? ==> (MethodKey in obj <==> r.value.contractMethod.Some?)
    ensures r.Some? && r.value.contractMethod.Some? ==> MethodOf(obj[MethodKey]) == Some(r.value.contractMethod.value)
    ensures r.Some? ==> (SearchKey in obj <==> r.value.search.Some?)
    ensures r.Some? && r.value.search.Some? ==> obj[SearchKey] == JString(r.value.search.value)
    ensures LimitKey in obj && PositiveNumber(obj[LimitKey]).None? ==> r.None?
    ensures OffsetKey in obj && WholeNumber(obj[OffsetKey]).None? ==> r.None?
    ensures (|| (StatusKey in obj && StatusOf(obj[StatusKey]).None?)
             || (CategoryKey in obj && CategoryOf(obj[CategoryKey]).None?)
             || (MethodKey in obj && MethodOf(obj[MethodKey]).None?))
      ==> r.None?
  {
    var status, category, m := OptionalOf(obj, StatusKey, StatusOf), OptionalOf(obj, CategoryKey, CategoryOf), OptionalOf(obj, MethodKey, MethodOf);
    var limit := if LimitKey in obj then PositiveNumber(obj[LimitKey]) else Some(20);
    var offset := WholeOrDefault(obj, OffsetKey, 0);
    var sort := if SortKey in obj then SortOf(obj[SortKey]) else Some(ByUpdatedAt);
    var order := if OrderKey in obj then OrderOf(obj[OrderKey]) else Some(Desc);
    var search := OptionalOf(obj, SearchKey, AnyText);
    if status.Some? && category.Some? && m.Some? && limit.Some? && offset.Some? && sort.Some? && order.Some? && search.Some?
    then Some(ListQuery(status.value, category.value, m.value, limit.value, offset.value, sort.value, order.value, search.value))
    else None
  }

  /** The empty query is the default listing, and a zero or negative limit is refused. */
  lemma ListQueryDefaults(n: int)
    requires n <= 0
    ensures ParseListQuery(map[]) == Some(ListQuery(None, None, None, 20, 0, ByUpdatedAt, Desc, None))
    ensures ParseListQuery(map[LimitKey := JInt(n)]) == None
  {
  }
}
