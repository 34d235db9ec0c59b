/** The contract collection endpoint: listing with filters, search and
    paging, and creation from a validated body. */
module ContractsApi {
  import opened Wrappers
  import opened Text
  import opened Domain
  import opened Constants
  import opened Store
  import opened Validation
  import opened Amount
  import opened Tools

  // ---------------------------------------------------------------------
  // The `where` filter of GET

  /** The status condition: `{ not: DELETED }` by default, an exact status when asked. */
  datatype StatusFilter = NotStatus(excluded: Status) | IsStatus(wanted: Status)

  datatype Where = Where(
    status: StatusFilter, category: Option<Category>, contractMethod: Option<Method>,
    search: Option<string>)

  /** Prisma's `contains` with `mode: 'insensitive'`, on ASCII case. */
  predicate ContainsInsensitive(s: string, term: string) {
    Contains(Lower(s), Lower(term))
  }

  /** The `OR` clause: title, requester or contractor contains the term. */
  predicate SearchHit(c: Contract, term: string) {
    || ContainsInsensitive(c.title, term)
    || (c.requester.Some? && ContainsInsensitive(c.requester.value, term))
    || (c.contractor.Some? && ContainsInsensitive(c.contractor.value, term))
  }

  /** A row the database returns for `where`. */
  predicate Selects(w: Where, c: Contract) {
    && (match w.status
        case NotStatus(s) => c.status != s
        case IsStatus(s) => c.status == s)
    && (w.category.Some? ==> c.category == w.category.value)
    && (w.contractMethod.Some? ==> c.contractMethod == w.contractMethod.value)
    && (w.search.Some? ==> SearchHit(c, w.search.value))
  }

  /** Which contracts a listing query asks for: live ones unless a status is
      named (DELETED included), narrowed by each given filter and by a
      non-empty search term. */
  predicate Listed(q: ListQuery, c: Contract) {
    && (if q.status.Some? then c.status == q.status.value else c.status != Deleted)
    && (q.category.None? || c.category == q.category.value)
    && (q.contractMethod.None? || c.contractMethod == q.contractMethod.value)
    && (q.search.None? || q.search.value == "" || SearchHit(c, q.search.value))
  }

  /** The `where` object, built by successive assignments. */
  method BuildWhere(q: ListQuery) returns (w: Where)
    ensures forall c :: Selects(w, c) <==> Listed(q, c)
  {
    w := Where(NotStatus(Deleted), None, None, None);
    if q.status.Some? {
      w := w.(status := IsStatus(q.status.value));
    }
    if q.category.Some? {
      w := w.(category := q.category);
    }
    if q.contractMethod.Some? {
      w := w.(contractMethod := q.contractMethod);
    }
    if q.search.Some? && q.search.value != "" {
      w := w.(search := q.search);
    }
  }

  /** Without a status filter nothing deleted is listed; naming DELETED lists
      exactly the deleted contracts. */
  lemma DeletedOnlyWhenAsked(q: ListQuery, c: Contract)
    ensures q.status.None? && Listed(q, c) ==> c.status != Deleted
    ensures q.status == Some(Deleted) && Listed(q, c) ==> c.status == Deleted
    ensures q.status == Some(Deleted) && q.category.None? && q.contractMethod.None? && q.search.None?
      ==> (Listed(q, c) <==> c.status == Deleted)
  {
  }

  // ---------------------------------------------------------------------
  // findMany / count

  /** `skip: offset, take: limit`. */
  function Window(rows: seq<Contract>, offset: nat, limit: nat): (r: seq<Contract>)
    ensures |r| <= limit
    ensures offset + limit <= |rows| ==> |r| == limit
    ensures offset <= |rows| && |rows| < offset + limit ==> |r| == |rows| - offset
    ensures offset >= |rows| ==> r == []
    ensures forall k :: 0 <= k < |r| ==> offset + k < |rows| && r[k] == rows[offset + k]
  {
    var start := if offset < |rows| then offset else |rows|;
    var end := if offset + limit < |rows| then offset + limit else |rows|;
    rows[start..end]
  }

  // ---------------------------------------------------------------------
  // The listed rows

  datatype Row = Row(
    id: string, title: string, category: Category, contractMethod: Method,
    amount: nat, amountFormatted: string, status: Status, stage: string, progress: nat,
    requester: Option<string>, contractor: Option<string>, deadline: Option<string>)

  /** One formatted row: progress along the method's stage list. */
  function RowOf(c: Contract, host: Host): (r: Row)
    ensures r.id == c.id && r.stage == c.stage && r.status == c.status && r.amount == c.amount
    ensures r.progress <= 100
    ensures c.stage !in StagesOf(c.contractMethod) ==> r.progress == 0
    ensures c.stage == Executed ==> r.progress == 100
  {
    var stages := StagesByLabel(MethodLabel(c.contractMethod));
    MethodStageGroups(c.contractMethod);
    ProgressAlongStages(c.contractMethod, 0, 0);
    Row(c.id, c.title, c.category, c.contractMethod, c.amount, FormatAmountShort(c.amount, host),
      c.status, c.stage, Progress(stages, c.stage), c.requester, c.contractor,
      match c.deadline case Some(t) => Some(host.isoDay(t)) case None => None)
  }

  /** Along the stage list, later stages show at least as much progress. */
  lemma RowProgressMonotone(c: Contract, d: Contract, host: Host, i: nat, j: nat)
    requires c.contractMethod == d.contractMethod && i <= j < |StagesOf(c.contractMethod)|
    requires c.stage == StagesOf(c.contractMethod)[i] && d.stage == StagesOf(c.contractMethod)[j]
    ensures RowOf(c, host).progress <= RowOf(d, host).progress
  {
    ProgressAlongStages(c.contractMethod, i, j);
  }

  datatype Listing = Listing(contracts: seq<Row>, total: nat, hasMore: bool)

  /** GET: filter, count, page and format. `hasMore` says whether rows remain
      past this page. */
  method ListContracts(db: Db, q: ListQuery, host: Host) returns (r: Listing)
    ensures var matching := FilterBy(db.contracts, c => Listed(q, c));
      && r.total == |matching|
      && r.contracts == seq(|Window(matching, q.offset, q.limit)|,
           i requires 0 <= i < |Window(matching, q.offset, q.limit)| => RowOf(Window(matching, q.offset, q.limit)[i], host))
      && (r.hasMore <==> q.offset + q.limit < |matching|)
    ensures r.hasMore ==> |r.contracts| == q.limit
    ensures !r.hasMore && q.offset <= r.total ==> q.offset + |r.contracts| == r.total
    ensures forall i :: 0 <= i < |r.contracts| ==> r.contracts[i].progress <= 100
  {
    var w := BuildWhere(q);
    var matching := FilterBy(db.contracts, c => Selects(w, c));
    FilterByAgrees(db.contracts, c => Selects(w, c), c => Listed(q, c));
    var page := Window(matching, q.offset, q.limit);
    var total := |matching|;
    var rows := seq(|page|, i requires 0 <= i < |page| => RowOf(page[i], host));
    r := Listing(rows, total, q.offset + q.limit < total);
  }

  // ---------------------------------------------------------------------
  // POST

  /** `value || null`: the empty string is stored as null. */
  function OrNull(v: Option<string>): (r: Option<string>)
    ensures r.Some? ==> r == v && r.value != ""
    ensures v.Some? && v.value != "" ==> r == v
  {
    if v.Some? && v.value != "" then v else None
  }

  /** The row POST stores: the validated fields the route copies, the initial
      stage of the method and BEFORE_START; the other columns keep their
      defaults. */
  function PostedContract(id: string, input: CreateInput, host: Host, now: int): (c: Contract)
    ensures c.id == id && c.title == input.title && c.status == BeforeStart
    ensures c.stage == InitialStage(input.contractMethod) && c.stage in StagesOf(c.contractMethod)
    ensures c.amount == input.amounts.amount && c.budget == 0 && c.contractAmount == 0 && c.executionAmount == 0
    ensures c.contractEnd.None? && c.paymentDate.None? && c.requestDate.None?
  {
    Contract(id, input.title, input.category, input.contractMethod,
      input.amounts.amount, 0, 0, 0,
      OrNull(input.parties.requester), OrNull(input.parties.requesterContact), OrNull(input.parties.contractor),
      InitialStage(input.contractMethod), BeforeStart,
      match OrNull(input.dates.deadline) case Some(d) => Some(host.parseDay(d)) case None => None,
      None, None, None, now)
  }

  /** POST: take an id, store the row and write its one CREATE log. */
  method PostContract(db: Db, input: CreateInput, year: nat, host: Host, now: int) returns (r: Result<Contract, string>)
    modifies db
    ensures db.config == IdStep(old(db.config), year).1 && db.notes == old(db.notes)
    ensures var id := IdStep(old(db.config), year).0;
      HasId(old(db.contracts), id) ==>
        r == Err(CreateFailed) && db.contracts == old(db.contracts) && db.logs == old(db.logs)
    ensures var id := IdStep(old(db.config), year).0;
      !HasId(old(db.contracts), id) ==>
        r == Ok(PostedContract(id, input, host, now))
        && db.contracts == old(db.contracts) + [r.value]
        && db.logs == old(db.logs) + [CreationLog(r.value)]
    ensures old(db.IdsUnique()) ==> db.IdsUnique()
  {
    var id := GenerateContractId(db, year);
    ghost var step := IdStep(old(db.config), year);
    assert id == step.0 && db.config == step.1;
    var c := PostedContract(id, input, host, now);
    var ok := db.Insert(c);
    if !ok {
      return Err(CreateFailed);
    }
    db.AddLog(CreationLog(c));
    r := Ok(c);
  }
}
