/** The daily deadline job: every signed contract whose end date has passed
    and that is still open is switched to DELAYED, with a STATUS log. */
module CheckDeadlines {
  import opened Wrappers
  import opened Text
  import opened Domain
  import opened Constants
  import opened Store

  const Unauthorized: string := "Unauthorized"
  const SweepDetail: string := "계약종료일 경과로 자동 지연 처리"

  /** A configured secret (a non-empty `CRON_SECRET`) must be presented as
      `Bearer <secret>`; without one every caller is let through. */
  predicate Authorized(secret: Option<string>, header: Option<string>) {
    secret.None? || secret.value == "" || header == Some("Bearer " + secret.value)
  }

  /** The `findMany` filter: at the signed stage, with an end date before
      `today` (local midnight), and not COMPLETED, DELETED or DELAYED. */
  predicate Overdue(c: Contract, today: int) {
    && c.stage == Signed
    && c.contractEnd.Some? && c.contractEnd.value < today
    && c.status != Completed && c.status != Deleted && c.status != Delayed
  }

  function IdsOf(cs: seq<Contract>): (ids: seq<string>)
    ensures |ids| == |cs| && forall i :: 0 <= i < |cs| ==> ids[i] == cs[i].id
  {
    seq(|cs|, i requires 0 <= i < |cs| => cs[i].id)
  }

  /** The table after `update({ where: { id }, data: { status: DELAYED } })`
      for each id in `ids`: the rows with those ids become DELAYED and are
      stamped `now`; every other row is left alone. */
  function DelayAll(cs: seq<Contract>, ids: seq<string>, now: int): (r: seq<Contract>)
    ensures |r| == |cs|
    ensures forall i :: 0 <= i < |cs| ==> r[i].id == cs[i].id
    ensures forall i :: 0 <= i < |cs| && cs[i].id !in ids ==> r[i] == cs[i]
    ensures forall i :: 0 <= i < |cs| && cs[i].id in ids ==> r[i] == cs[i].(status := Delayed, updatedAt := now)
  {
    seq(|cs|, i requires 0 <= i < |cs| => if cs[i].id in ids then cs[i].(status := Delayed, updatedAt := now) else cs[i])
  }

  /** The reference outcome: exactly the overdue contracts are delayed. */
  function Swept(cs: seq<Contract>, today: int, now: int): (r: seq<Contract>)
    ensures |r| == |cs|
  {
    seq(|cs|, i requires 0 <= i < |cs| => if Overdue(cs[i], today) then cs[i].(status := Delayed, updatedAt := now) else cs[i])
  }

  /** The STATUS log written for one delayed contract: from its old status to DELAYED. */
  function SweepLog(c: Contract): (l: ChangeLog)
    ensures l.contractId == Some(c.id) && l.action == StatusLog
    ensures l.toValue == Some(StatusName(Delayed)) && l.fromValue == Some(StatusName(c.status))
  {
    ChangeLog(Some(c.id), StatusLog, SweepDetail, Some(StatusName(c.status)), Some(StatusName(Delayed)))
  }

  function SweepLogs(cs: seq<Contract>): (r: seq<ChangeLog>)
    ensures |r| == |cs| && forall i :: 0 <= i < |cs| ==> r[i] == SweepLog(cs[i])
  {
    seq(|cs|, i requires 0 <= i < |cs| => SweepLog(cs[i]))
  }

  /** `"${n}건의 계약이 지연 상태로 변경되었습니다."`. */
  function SweepMessage(n: nat): string {
    NatToString(n) + "건의 계약이 지연 상태로 변경되었습니다."
  }

  datatype Sweep = Sweep(message: string, updatedContracts: seq<string>)

  /** Delaying one more id after a batch is delaying the longer batch. */
  lemma DelayAllStep(cs: seq<Contract>, ids: seq<string>, id: string, now: int)
    ensures DelayAll(DelayAll(cs, ids, now), [id], now) == DelayAll(cs, ids + [id], now)
  {
    var once, twice := DelayAll(cs, ids, now), DelayAll(DelayAll(cs, ids, now), [id], now);
    forall i | 0 <= i < |cs|
      ensures twice[i] == DelayAll(cs, ids + [id], now)[i]
    {
      assert cs[i].id in ids + [id] <==> cs[i].id in ids || cs[i].id == id;
    }
  }

  /** With unique ids, the rows whose ids the filter returned are exactly
      the overdue rows, so the job delays the overdue contracts and nothing
      else. */
  lemma SweepDelaysExactlyOverdue(cs: seq<Contract>, overdue: seq<Contract>, today: int, now: int)
    requires forall i, j :: 0 <= i < j < |cs| ==> cs[i].id != cs[j].id
    requires forall c :: c in overdue <==> c in cs && Overdue(c, today)
    ensures DelayAll(cs, IdsOf(overdue), now) == Swept(cs, today, now)
  {
    var ids := IdsOf(overdue);
    forall i | 0 <= i < |cs|
      ensures cs[i].id in ids <==> Overdue(cs[i], today)
    {
      if Overdue(cs[i], today) {
        assert cs[i] in overdue;
        var j :| 0 <= j < |overdue| && overdue[j] == cs[i];
        assert ids[j] == cs[i].id;
      }
      if cs[i].id in ids {
        var j :| 0 <= j < |ids| && ids[j] == cs[i].id;
        assert overdue[j] in overdue;
        var m :| 0 <= m < |cs| && cs[m] == overdue[j];
        assert m == i;
      }
    }
  }

  /** After the sweep nothing is overdue any more. */
  lemma NothingOverdueAfterSweep(cs: seq<Contract>, today: int, now: int)
    ensures forall i :: 0 <= i < |cs| ==> !Overdue(Swept(cs, today, now)[i], today)
  {
  }

  /** Running the job twice on the same day changes nothing the first run
      did not, and it keeps ids where they were. */
  lemma SweepIdempotent(cs: seq<Contract>, today: int, now: int, later: int)
    ensures Swept(Swept(cs, today, now), today, later) == Swept(cs, today, now)
    ensures forall i :: 0 <= i < |cs| ==> Swept(cs, today, now)[i].id == cs[i].id
  {
    var once := Swept(cs, today, now);
    forall i | 0 <= i < |cs|
      ensures Swept(once, today, later)[i] == once[i]
    {
      assert !Overdue(once[i], today);
    }
  }

  /** Open contracts at other stages, or without a past end date, are never
      touched. */
  lemma SweepSpares(cs: seq<Contract>, today: int, now: int, i: nat)
    requires i < |cs|
    requires cs[i].stage != Signed || cs[i].contractEnd.None? || cs[i].contractEnd.value >= today
    ensures Swept(cs, today, now)[i] == cs[i]
  {
  }

  /** GET: check the secret, find the overdue contracts, delay each one and
      log it, and report the ids. `today` is local midnight and `now` the
      clock reading the store stamps. */
  method CheckDeadlines(db: Db, secret: Option<string>, header: Option<string>, today: int, now: int)
    returns (r: Result<Sweep, string>)
    modifies db
    ensures !Authorized(secret, header) ==> r == Err(Unauthorized) && unchanged(db)
    ensures Authorized(secret, header) ==>
      var overdue := FilterBy(old(db.contracts), c => Overdue(c, today));
      && r == Ok(Sweep(SweepMessage(|overdue|), IdsOf(overdue)))
      && db.contracts == DelayAll(old(db.contracts), IdsOf(overdue), now)
      && db.logs == old(db.logs) + SweepLogs(overdue)
      && db.notes == old(db.notes) && db.config == old(db.config)
    ensures Authorized(secret, header) && old(db.IdsUnique()) ==>
      db.contracts == Swept(old(db.contracts), today, now) && db.IdsUnique()
  {
    if !Authorized(secret, header) {
      return Err(Unauthorized);
    }
    var overdue := FilterBy(db.contracts, c => Overdue(c, today));
    ghost var before := db.contracts;
    var updates: seq<string> := [];
    for k := 0 to |overdue|
      invariant updates == IdsOf(overdue[..k])
      invariant db.contracts == DelayAll(before, updates, now)
      invariant db.logs == old(db.logs) + SweepLogs(overdue[..k])
      invariant db.notes == old(db.notes) && db.config == old(db.config)
    {
      var c := overdue[k];
      DelayAllStep(before, updates, c.id, now);
      db.contracts := DelayAll(db.contracts, [c.id], now);
      db.logs := db.logs + [SweepLog(c)];
      updates := updates + [c.id];
      assert overdue[..k + 1] == overdue[..k] + [c];
      assert IdsOf(overdue[..k + 1]) == IdsOf(overdue[..k]) + [c.id];
      assert SweepLogs(overdue[..k + 1]) == SweepLogs(overdue[..k]) + [SweepLog(c)];
    }
    assert overdue[..|overdue|] == overdue;
    r := Ok(Sweep(SweepMessage(|updates|), updates));
    if old(db.IdsUnique()) {
      SweepDelaysExactlyOverdue(before, overdue, today, now);
    }
  }
}
