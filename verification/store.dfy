/** The persisted tables, held in memory: contracts, change logs, notes and
    the key-value configuration table. */
module Store {
  import opened Wrappers
  import opened Text
  import opened Domain

  class Db {
    var contracts: seq<Contract>
    var logs: seq<ChangeLog>
    var notes: seq<Note>
    var config: map<string, string>

    /** The primary key: no two contracts share an id. */
    predicate IdsUnique()
      reads this
    {
      UniqueIds(contracts)
    }

    constructor(contracts: seq<Contract>, config: map<string, string>)
      ensures this.contracts == contracts && this.config == config
      ensures logs == [] && notes == []
    {
      this.contracts := contracts;
      this.config := config;
      logs := [];
      notes := [];
    }

    /** `contract.create`: store a row unless its id is taken; the unique id
        column makes a clash fail and leaves the table as it was. */
    method Insert(c: Contract) returns (ok: bool)
      modifies this
      ensures ok <==> !HasId(old(contracts), c.id)
      ensures contracts == if ok then old(contracts) + [c] else old(contracts)
      ensures logs == old(logs) && notes == old(notes) && config == old(config)
      ensures old(IdsUnique()) ==> IdsUnique()
    {
      if HasId(contracts, c.id) {
        return false;
      }
      if UniqueIds(contracts) {
        AppendFreshId(contracts, c);
      }
      contracts := contracts + [c];
      ok := true;
    }

    /** `changeLog.create`: append one log entry. */
    method AddLog(log: ChangeLog)
      modifies this
      ensures logs == old(logs) + [log]
      ensures contracts == old(contracts) && notes == old(notes) && config == old(config)
    {
      logs := logs + [log];
    }
  }

  /** No two contracts of `cs` share an id. */
  predicate UniqueIds(cs: seq<Contract>) {
    forall i, j :: 0 <= i < j < |cs| ==> cs[i].id != cs[j].id
  }

  /** Appending a contract whose id is not taken keeps the ids unique. */
  lemma AppendFreshId(cs: seq<Contract>, c: Contract)
    requires UniqueIds(cs) && !HasId(cs, c.id)
    ensures UniqueIds(cs + [c])
  {
    var cs' := cs + [c];
    forall i, j | 0 <= i < j < |cs'| ensures cs'[i].id != cs'[j].id {
      if j == |cs| {
        assert cs'[i] == cs[i];
      }
    }
  }

  /** Whether a contract id is taken. */
  predicate HasId(cs: seq<Contract>, id: string) {
    exists i :: 0 <= i < |cs| && cs[i].id == id
  }

  /** The `findFirst` filter of the tools: a live contract whose id is `key`
      or whose title contains `key`. */
  predicate Matches(c: Contract, key: string) {
    c.status != Deleted && (c.id == key || Contains(c.title, key))
  }

  /** The first contract at or after `from` that `Matches` the key. */
  function FindLive(cs: seq<Contract>, key: string, from: nat := 0): (r: Option<nat>)
    requires from <= |cs|
    ensures r.Some? ==> from <= r.value < |cs| && Matches(cs[r.value], key)
    ensures r.Some? ==> forall j :: from <= j < r.value ==> !Matches(cs[j], key)
    ensures r.None? ==> forall j :: from <= j < |cs| ==> !Matches(cs[j], key)
    decreases |cs| - from
  {
    if from == |cs| then None
    else if Matches(cs[from], key) then Some(from)
    else FindLive(cs, key, from + 1)
  }

  /** The rows of `cs`, in table order, that satisfy `p`: a `findMany` over `where: p`. */
  function FilterBy(cs: seq<Contract>, p: Contract -> bool): (r: seq<Contract>)
    ensures |r| <= |cs|
    ensures forall c :: c in r <==> c in cs && p(c)
    ensures |cs| == 1 ==> r == if p(cs[0]) then cs else []
  {
    if cs == [] then []
    else FilterBy(cs[..|cs| - 1], p) + (if p(cs[|cs| - 1]) then [cs[|cs| - 1]] else [])
  }

  /** Filtering a concatenation filters each part in turn: rows keep their
      table order and a row listed twice is kept twice. */
  lemma {:induction false} FilterByAppend(cs: seq<Contract>, more: seq<Contract>, p: Contract -> bool)
    ensures FilterBy(cs + more, p) == FilterBy(cs, p) + FilterBy(more, p)
    decreases |more|
  {
    if more == [] {
      assert cs + more == cs;
    } else {
      var front := more[..|more| - 1];
      assert (cs + more)[..|cs + more| - 1] == cs + front;
      assert (cs + more)[|cs + more| - 1] == more[|more| - 1];
      FilterByAppend(cs, front, p);
    }
  }

  /** Filtering depends only on the values of the predicate. */
  lemma {:induction false} FilterByAgrees(cs: seq<Contract>, p: Contract -> bool, p': Contract -> bool)
    requires forall c :: p(c) == p'(c)
    ensures FilterBy(cs, p) == FilterBy(cs, p')
  {
    if cs != [] {
      FilterByAgrees(cs[..|cs| - 1], p, p');
    }
  }
}
