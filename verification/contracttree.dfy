/** The contract list grouped by requesting department: groups in
    comparator order with the unassigned group last, per-group totals, and
    the set of expanded groups. */
module ContractTree {
  import opened Wrappers
  import opened Domain
  import opened Amount

  /** The group of contracts without a requester. */
  const Unassigned: string := "미지정"

  /** The fields of a listed contract the tree uses. */
  datatype Row = Row(id: string, amount: int, requester: Option<string>)

  /** One entry of `sortedGroups`: a department and its contracts. */
  datatype Group = Group(key: string, items: seq<Row>)

  /** `contract.requester || '미지정'`: a missing or empty requester falls
      into the unassigned group. */
  function KeyOf(r: Row): (k: string)
    ensures k != []
  {
    if r.requester.None? || r.requester.value == [] then Unassigned else r.requester.value
  }

  predicate Distinct(s: seq<string>) {
    forall i, j :: 0 <= i < j < |s| ==> s[i] != s[j]
  }

  /** The contracts of one department, in list order. */
  function Members(rows: seq<Row>, key: string): (r: seq<Row>)
    ensures |r| <= |rows|
  {
    if rows == [] then []
    else
      var last := rows[|rows| - 1];
      assert rows == rows[..|rows| - 1] + [last];
      Members(rows[..|rows| - 1], key) + if KeyOf(last) == key then [last] else []
  }

  /** The departments in the order they first occur: the key order of the
      `groups` object. */
  function KeysInOrder(rows: seq<Row>): (ks: seq<string>)
    ensures |ks| <= |rows|
  {
    if rows == [] then []
    else
      var last := rows[|rows| - 1];
      var ks := KeysInOrder(rows[..|rows| - 1]);
      if KeyOf(last) in ks then ks else ks + [KeyOf(last)]
  }

  /** A missing or empty requester falls into the unassigned group; any
      other requester is its own group. */
  lemma KeyOfRule(r: Row)
    ensures KeyOf(r) == Unassigned <==> r.requester.None? || r.requester.value == [] || r.requester.value == Unassigned
    ensures r.requester.Some? && r.requester.value != [] ==> KeyOf(r) == r.requester.value
  {
  }

  /** A department's list holds exactly the rows of that department. */
  lemma {:induction false} MembersAre(rows: seq<Row>, key: string)
    ensures forall x :: x in Members(rows, key) <==> x in rows && KeyOf(x) == key
  {
    if rows != [] {
      var init, last := rows[..|rows| - 1], rows[|rows| - 1];
      assert rows == init + [last];
      MembersAre(init, key);
    }
  }

  /** The key order lists each department that occurs, once. */
  lemma {:induction false} KeysInOrderAre(rows: seq<Row>)
    ensures Distinct(KeysInOrder(rows))
    ensures forall x :: x in rows ==> KeyOf(x) in KeysInOrder(rows)
    ensures forall k :: k in KeysInOrder(rows) ==> exists x :: x in rows && KeyOf(x) == k
  {
    if rows != [] {
      var init, last := rows[..|rows| - 1], rows[|rows| - 1];
      assert rows == init + [last];
      KeysInOrderAre(init);
      var ks := KeysInOrder(init);
      if KeyOf(last) !in ks {
        forall i, j | 0 <= i < j < |ks| + 1
          ensures (ks + [KeyOf(last)])[i] != (ks + [KeyOf(last)])[j]
        {
          if j == |ks| {
            assert ks[i] in ks;
          }
        }
      }
    }
  }

  /** The sort comparator: the unassigned group after everything, other
      departments by `compare` (`localeCompare(b, 'ko')`). */
  function Order(compare: (string, string) -> int, a: string, b: string): int {
    if a == Unassigned then 1
    else if b == Unassigned then -1
    else compare(a, b)
  }

  /** One step of a stable sort: `k` goes before the first key that orders
      strictly after it. */
  function Insert(compare: (string, string) -> int, k: string, sorted: seq<string>): (r: seq<string>)
    ensures |r| == |sorted| + 1
    ensures multiset(r) == multiset(sorted) + multiset{k}
  {
    if sorted == [] then [k]
    else if Order(compare, sorted[0], k) <= 0 then
      assert sorted == [sorted[0]] + sorted[1..];
      [sorted[0]] + Insert(compare, k, sorted[1..])
    else [k] + sorted
  }

  /** `Object.keys(groups).sort(...)`: a stable sort by `Order`. */
  function SortKeys(compare: (string, string) -> int, keys: seq<string>): (r: seq<string>)
    ensures |r| == |keys|
  {
    if keys == [] then []
    else Insert(compare, keys[|keys| - 1], SortKeys(compare, keys[..|keys| - 1]))
  }

  function GroupsOf(rows: seq<Row>, keys: seq<string>): (gs: seq<Group>)
    ensures |gs| == |keys|
    ensures forall j :: 0 <= j < |keys| ==> gs[j] == Group(keys[j], Members(rows, keys[j]))
  {
    if keys == [] then [] else [Group(keys[0], Members(rows, keys[0]))] + GroupsOf(rows, keys[1..])
  }

  /** `groupedContracts`: the groups in sorted key order. */
  function Tree(rows: seq<Row>, compare: (string, string) -> int): seq<Group> {
    GroupsOf(rows, SortKeys(compare, KeysInOrder(rows)))
  }

  /** The `forEach` that pushes each contract onto its department's list. */
  method GroupByRequester(rows: seq<Row>) returns (keys: seq<string>, groups: map<string, seq<Row>>)
    ensures keys == KeysInOrder(rows)
    ensures forall k :: k in groups <==> k in keys
    ensures forall k :: k in groups ==> groups[k] == Members(rows, k)
  {
    keys := [];
    groups := map[];
    for i := 0 to |rows|
      invariant GroupedUpTo(rows, i, keys, groups)
    {
      var row := rows[i];
      var key := KeyOf(row);
      ghost var keys0, groups0 := keys, groups;
      if key !in groups {
        groups := groups[key := []];
        keys := keys + [key];
      }
      groups := groups[key := groups[key] + [row]];
      GroupStep(rows, i, keys0, groups0, keys, groups);
    }
    assert rows[..|rows|] == rows;
  }

  /** `keys` and `groups` are the grouping of the first `i` rows. */
  ghost predicate GroupedUpTo(rows: seq<Row>, i: nat, keys: seq<string>, groups: map<string, seq<Row>>)
    requires i <= |rows|
  {
    && keys == KeysInOrder(rows[..i])
    && (forall k :: k in groups <==> k in keys)
    && (forall k :: k in groups ==> groups[k] == Members(rows[..i], k))
  }

  /** Pushing row `i` onto its department's list, creating the list first
      when the department is new, groups one more row. */
  lemma GroupStep(rows: seq<Row>, i: nat, keys: seq<string>, groups: map<string, seq<Row>>,
                  keys': seq<string>, groups': map<string, seq<Row>>)
    requires i < |rows| && GroupedUpTo(rows, i, keys, groups)
    requires var key := KeyOf(rows[i]);
      var g := if key in groups then groups else groups[key := []];
      && keys' == (if key in groups then keys else keys + [key])
      && groups' == g[key := g[key] + [rows[i]]]
    ensures GroupedUpTo(rows, i + 1, keys', groups')
  {
    PrefixStep(rows, i);
    var key := KeyOf(rows[i]);
    if key !in groups {
      MembersOfAbsent(rows[..i], key);
    }
  }

  /** One more row: its department is added to the key order if new, and the
      row is appended to that department's list only. */
  lemma PrefixStep(rows: seq<Row>, i: nat)
    requires i < |rows|
    ensures var ks := KeysInOrder(rows[..i]);
      KeysInOrder(rows[..i + 1]) == if KeyOf(rows[i]) in ks then ks else ks + [KeyOf(rows[i])]
    ensures forall k :: Members(rows[..i + 1], k) == Members(rows[..i], k) + if KeyOf(rows[i]) == k then [rows[i]] else []
  {
    assert rows[..i + 1][..i] == rows[..i];
  }

  lemma MembersOfAbsent(rows: seq<Row>, key: string)
    requires key !in KeysInOrder(rows)
    ensures Members(rows, key) == []
  {
    KeysInOrderAre(rows);
    MembersAre(rows, key);
  }

  /** `groupedContracts`: group, sort the department names, and rebuild the
      groups in that order. */
  method GroupedContracts(rows: seq<Row>, compare: (string, string) -> int) returns (sortedGroups: seq<Group>)
    ensures sortedGroups == Tree(rows, compare)
  {
    var keys, groups := GroupByRequester(rows);
    var sorted := SortKeys(compare, keys);
    SortedFromKeys(compare, keys);
    sortedGroups := [];
    for j := 0 to |sorted|
      invariant |sortedGroups| == j
      invariant forall m :: 0 <= m < j ==> sortedGroups[m] == Group(sorted[m], Members(rows, sorted[m]))
    {
      assert sorted[j] in groups;
      sortedGroups := sortedGroups + [Group(sorted[j], groups[sorted[j]])];
    }
    assert sortedGroups == GroupsOf(rows, sorted);
  }

  lemma SortedFromKeys(compare: (string, string) -> int, keys: seq<string>)
    ensures forall k :: k in SortKeys(compare, keys) ==> k in keys
  {
    SortKeysPermutes(compare, keys);
    forall k | k in SortKeys(compare, keys)
      ensures k in keys
    {
      assert k in multiset(keys);
    }
  }

  /** `getGroupStats`. */
  datatype GroupStats = GroupStats(count: nat, totalAmount: int, totalAmountFormatted: string)

  function AmountOf(r: Row): int {
    r.amount
  }

  function One(r: Row): int {
    1
  }

  /** `items.reduce((sum, c) => sum + f(c), 0)`. */
  function SumOf(rows: seq<Row>, f: Row -> int): int {
    if rows == [] then 0 else SumOf(rows[..|rows| - 1], f) + f(rows[|rows| - 1])
  }

  function Stats(items: seq<Row>, host: Host): (s: GroupStats)
    ensures s.count == |items| == SumOf(items, One)
    ensures s.totalAmount == SumOf(items, AmountOf)
    ensures s.totalAmountFormatted == FormatAmountShort(s.totalAmount, host)
  {
    CountIsSumOfOnes(items);
    var total := SumOf(items, AmountOf);
    GroupStats(|items|, total, FormatAmountShort(total, host))
  }

  lemma {:induction false} CountIsSumOfOnes(items: seq<Row>)
    ensures SumOf(items, One) == |items|
  {
    if items != [] {
      CountIsSumOfOnes(items[..|items| - 1]);
    }
  }

  /** The sum of `f` over every group's items. */
  function GroupsTotal(gs: seq<Group>, f: Row -> int): int {
    if gs == [] then 0 else SumOf(gs[0].items, f) + GroupsTotal(gs[1..], f)
  }

  /** The list of expanded departments. */
  class ExpandedGroups {
    var expanded: set<string>

    constructor()
      ensures expanded == {}
    {
      expanded := {};
    }

    /** `toggleGroup(key)`: a copy of the set with `key` removed when present
        and added when absent. */
    method ToggleGroup(key: string)
      modifies this
      ensures expanded == Toggle(old(expanded), key)
    {
      var next := expanded;
      if key in next {
        next := next - {key};
      } else {
        next := next + {key};
      }
      expanded := next;
    }
  }

  function Toggle(s: set<string>, key: string): set<string> {
    if key in s then s - {key} else s + {key}
  }

  // ---------------------------------------------------------------------
  // Properties

  /** Toggling flips the membership of that key only, and toggling twice
      restores the set. */
  lemma ToggleFlipsOnlyKey(s: set<string>, key: string)
    ensures key in Toggle(s, key) <==> key !in s
    ensures forall k :: k != key ==> (k in Toggle(s, key) <==> k in s)
    ensures Toggle(Toggle(s, key), key) == s
  {
  }

  /** The sort keeps every key exactly as often as it occurs. */
  lemma {:induction false} SortKeysPermutes(compare: (string, string) -> int, keys: seq<string>)
    ensures multiset(SortKeys(compare, keys)) == multiset(keys)
  {
    if keys != [] {
      SortKeysPermutes(compare, keys[..|keys| - 1]);
      assert keys == keys[..|keys| - 1] + [keys[|keys| - 1]];
    }
  }

  lemma DistinctCons(a: string, b: seq<string>)
    requires a !in b && Distinct(b)
    ensures Distinct([a] + b)
  {
    var s := [a] + b;
    forall i, j | 0 <= i < j < |s|
      ensures s[i] != s[j]
    {
      assert s[j] == b[j - 1];
      if i > 0 {
        assert s[i] == b[i - 1];
      }
    }
  }

  lemma {:induction false} InsertDistinct(compare: (string, string) -> int, k: string, sorted: seq<string>)
    requires Distinct(sorted) && k !in sorted
    ensures Distinct(Insert(compare, k, sorted))
  {
    if sorted != [] {
      assert Distinct(sorted[1..]);
      if Order(compare, sorted[0], k) <= 0 {
        InsertDistinct(compare, k, sorted[1..]);
        var rest := Insert(compare, k, sorted[1..]);
        assert sorted[0] !in multiset(rest);
        DistinctCons(sorted[0], rest);
      } else {
        DistinctCons(k, sorted);
      }
    }
  }

  /** Sorting keeps distinct keys distinct. */
  lemma {:induction false} SortKeysDistinct(compare: (string, string) -> int, keys: seq<string>)
    requires Distinct(keys)
    ensures Distinct(SortKeys(compare, keys))
  {
    if keys != [] {
      var init, k := keys[..|keys| - 1], keys[|keys| - 1];
      assert keys == init + [k];
      SortKeysDistinct(compare, init);
      SortKeysPermutes(compare, init);
      assert k !in multiset(SortKeys(compare, init));
      InsertDistinct(compare, k, SortKeys(compare, init));
    }
  }

  /** Inserting the unassigned key puts it at the end of a list that does
      not hold it; inserting any other key keeps an unassigned key at the end. */
  lemma {:induction false} InsertKeepsUnassignedLast(compare: (string, string) -> int, k: string, sorted: seq<string>)
    requires sorted != [] && sorted[|sorted| - 1] == Unassigned ==> k != Unassigned
    requires k == Unassigned ==> Unassigned !in sorted
    ensures var r := Insert(compare, k, sorted);
      (k == Unassigned || (sorted != [] && sorted[|sorted| - 1] == Unassigned)) ==> r[|r| - 1] == Unassigned
  {
    if sorted != [] && Order(compare, sorted[0], k) <= 0 {
      InsertKeepsUnassignedLast(compare, k, sorted[1..]);
    }
  }

  /** After sorting distinct keys the unassigned group, when present, is last. */
  lemma {:induction false} UnassignedLast(compare: (string, string) -> int, keys: seq<string>)
    requires Distinct(keys) && Unassigned in keys
    ensures var r := SortKeys(compare, keys); r[|r| - 1] == Unassigned
  {
    var init, k := keys[..|keys| - 1], keys[|keys| - 1];
    var s := SortKeys(compare, init);
    SortKeysPermutes(compare, init);
    assert keys == init + [k];
    if k == Unassigned {
      assert Unassigned !in init;
      assert Unassigned !in multiset(s);
      InsertKeepsUnassignedLast(compare, k, s);
    } else {
      assert Distinct(init) && Unassigned in init;
      UnassignedLast(compare, init);
      InsertKeepsUnassignedLast(compare, k, s);
    }
  }

  /** `compare` never says both `a > b` and `b > a` of two departments. */
  predicate Consistent(compare: (string, string) -> int, keys: seq<string>) {
    forall a, b :: a in keys && b in keys && a != b && compare(a, b) > 0 ==> compare(b, a) <= 0
  }

  /** `Order` puts `a` after `b` only if it puts `b` no later than `a`. */
  predicate Total(compare: (string, string) -> int, a: string, b: string) {
    Order(compare, a, b) > 0 ==> Order(compare, b, a) <= 0
  }

  /** Every neighbour pair is in comparator order. */
  predicate Sorted(compare: (string, string) -> int, s: seq<string>) {
    |s| < 2 || (Order(compare, s[0], s[1]) <= 0 && Sorted(compare, s[1..]))
  }

  lemma {:induction false} InsertSorted(compare: (string, string) -> int, k: string, sorted: seq<string>)
    requires Sorted(compare, sorted) && forall x :: x in sorted ==> Total(compare, x, k)
    ensures Sorted(compare, Insert(compare, k, sorted))
    ensures Insert(compare, k, sorted)[0] == k || (sorted != [] && Insert(compare, k, sorted)[0] == sorted[0])
  {
    if sorted != [] {
      assert sorted[0] in sorted;
      if Order(compare, sorted[0], k) <= 0 {
        InsertSorted(compare, k, sorted[1..]);
        var rest := Insert(compare, k, sorted[1..]);
        assert ([sorted[0]] + rest)[1..] == rest;
      } else {
        assert ([k] + sorted)[1..] == sorted;
      }
    }
  }

  /** Distinct keys come out in comparator order, provided `compare` is
      consistent on them. */
  lemma {:induction false} SortKeysSorted(compare: (string, string) -> int, keys: seq<string>)
    requires Distinct(keys) && Consistent(compare, keys)
    ensures Sorted(compare, SortKeys(compare, keys))
  {
    if keys != [] {
      var init, k := keys[..|keys| - 1], keys[|keys| - 1];
      assert keys == init + [k];
      assert Consistent(compare, init);
      SortKeysSorted(compare, init);
      var s := SortKeys(compare, init);
      SortKeysPermutes(compare, init);
      forall x | x in s
        ensures Total(compare, x, k)
      {
        assert x in multiset(init);
        assert x in keys && x != k;
      }
      InsertSorted(compare, k, s);
    }
  }

  lemma {:induction false} SortedNeighbours(compare: (string, string) -> int, s: seq<string>)
    requires Sorted(compare, s)
    ensures forall i :: 0 <= i < |s| - 1 ==> Order(compare, s[i], s[i + 1]) <= 0
  {
    if |s| >= 2 {
      SortedNeighbours(compare, s[1..]);
      forall i | 1 <= i < |s| - 1
        ensures Order(compare, s[i], s[i + 1]) <= 0
      {
        assert s[i] == s[1..][i - 1] && s[i + 1] == s[1..][i];
      }
    }
  }

  /** When some contract has no requester, its group comes last. */
  lemma UnassignedGroupLast(rows: seq<Row>, compare: (string, string) -> int)
    requires exists x :: x in rows && KeyOf(x) == Unassigned
    ensures var t := Tree(rows, compare); t[|t| - 1].key == Unassigned
  {
    KeysInOrderAre(rows);
    UnassignedLast(compare, KeysInOrder(rows));
  }

  /** Before the unassigned group the departments follow `compare`,
      provided it is consistent on them. */
  lemma GroupsFollowComparator(rows: seq<Row>, compare: (string, string) -> int)
    requires Consistent(compare, KeysInOrder(rows))
    ensures var t := Tree(rows, compare);
      forall j :: 0 <= j < |t| - 1 && t[j + 1].key != Unassigned ==> compare(t[j].key, t[j + 1].key) <= 0
  {
    var keys := KeysInOrder(rows);
    var sorted := SortKeys(compare, keys);
    KeysInOrderAre(rows);
    SortKeysSorted(compare, keys);
    SortedNeighbours(compare, sorted);
  }

  /** Each contract is in exactly one group: the one whose key is its
      department; the groups have distinct keys. */
  lemma EachRowInOneGroup(rows: seq<Row>, compare: (string, string) -> int)
    ensures var t := Tree(rows, compare);
      && (forall j, m :: 0 <= j < m < |t| ==> t[j].key != t[m].key)
      && (forall i, j :: 0 <= i < |rows| && 0 <= j < |t| ==> (rows[i] in t[j].items <==> t[j].key == KeyOf(rows[i])))
      && (forall i :: 0 <= i < |rows| ==> exists j :: 0 <= j < |t| && t[j].key == KeyOf(rows[i]))
  {
    var keys := KeysInOrder(rows);
    var sorted := SortKeys(compare, keys);
    KeysInOrderAre(rows);
    SortKeysPermutes(compare, keys);
    SortKeysDistinct(compare, keys);
    var t := Tree(rows, compare);
    forall j | 0 <= j < |t|
      ensures forall x :: x in t[j].items <==> x in rows && KeyOf(x) == t[j].key
    {
      MembersAre(rows, sorted[j]);
    }
    forall i | 0 <= i < |rows|
      ensures exists j :: 0 <= j < |t| && t[j].key == KeyOf(rows[i])
    {
      assert KeyOf(rows[i]) in keys;
      assert KeyOf(rows[i]) in multiset(sorted);
      var j :| 0 <= j < |sorted| && sorted[j] == KeyOf(rows[i]);
      assert t[j].key == KeyOf(rows[i]);
    }
  }

  /** The total of `f` over the groups of distinct keys that cover every
      row's department is the total over the rows. */
  lemma {:induction false} GroupsCoverRows(rows: seq<Row>, keys: seq<string>, f: Row -> int)
    requires Distinct(keys) && forall x :: x in rows ==> KeyOf(x) in keys
    ensures GroupsTotal(GroupsOf(rows, keys), f) == SumOf(rows, f)
  {
    if rows != [] {
      var init, last := rows[..|rows| - 1], rows[|rows| - 1];
      assert rows == init + [last];
      assert last in rows;
      assert forall x :: x in init ==> x in rows;
      GroupsCoverRows(init, keys, f);
      GroupsGrow(init, last, keys, f);
      assert SumOf(rows, f) == SumOf(init, f) + f(last);
    } else {
      NoRowsNoTotal(keys, f);
    }
  }

  lemma {:induction false} NoRowsNoTotal(keys: seq<string>, f: Row -> int)
    ensures GroupsTotal(GroupsOf([], keys), f) == 0
  {
    if keys != [] {
      NoRowsNoTotal(keys[1..], f);
      assert GroupsOf([], keys)[1..] == GroupsOf([], keys[1..]);
    }
  }

  /** Adding one row adds its `f` to the group of its department. */
  lemma {:induction false} GroupsGrow(init: seq<Row>, last: Row, keys: seq<string>, f: Row -> int)
    requires Distinct(keys)
    ensures GroupsTotal(GroupsOf(init + [last], keys), f)
      == GroupsTotal(GroupsOf(init, keys), f) + if KeyOf(last) in keys then f(last) else 0
  {
    var rows := init + [last];
    assert rows[..|rows| - 1] == init;
    if keys != [] {
      assert Distinct(keys[1..]);
      GroupsGrow(init, last, keys[1..], f);
      assert GroupsOf(rows, keys)[1..] == GroupsOf(rows, keys[1..]);
      assert GroupsOf(init, keys)[1..] == GroupsOf(init, keys[1..]);
      var m := Members(rows, keys[0]);
      if KeyOf(last) == keys[0] {
        assert m == Members(init, keys[0]) + [last];
        assert m[..|m| - 1] == Members(init, keys[0]);
        assert KeyOf(last) !in keys[1..];
      } else {
        assert m == Members(init, keys[0]);
        assert KeyOf(last) in keys <==> KeyOf(last) in keys[1..];
      }
    }
  }

  /** The sorted keys are distinct and name every row's department. */
  lemma SortedKeysCover(rows: seq<Row>, compare: (string, string) -> int)
    ensures var sorted := SortKeys(compare, KeysInOrder(rows));
      Distinct(sorted) && forall x :: x in rows ==> KeyOf(x) in sorted
  {
    var keys := KeysInOrder(rows);
    KeysInOrderAre(rows);
    SortKeysPermutes(compare, keys);
    SortKeysDistinct(compare, keys);
    forall x | x in rows
      ensures KeyOf(x) in SortKeys(compare, keys)
    {
      assert KeyOf(x) in multiset(keys);
    }
  }

  /** The group counts add up to the number of contracts and the group
      totals to the total amount. */
  lemma GroupTotalsAddUp(rows: seq<Row>, compare: (string, string) -> int)
    ensures GroupsTotal(Tree(rows, compare), One) == |rows|
    ensures GroupsTotal(Tree(rows, compare), AmountOf) == SumOf(rows, AmountOf)
  {
    var sorted := SortKeys(compare, KeysInOrder(rows));
    SortedKeysCover(rows, compare);
    GroupsCoverRows(rows, sorted, One);
    GroupsCoverRows(rows, sorted, AmountOf);
    CountIsSumOfOnes(rows);
  }
}
