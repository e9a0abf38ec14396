/**
 * The popup's record list (`DataList`): the search filter over every field
 * value, and the grouping of what survives by one field.
 */
module DataList {
  import opened Wrappers
  import opened Text
  import opened JsValues
  import opened Seqs

  /** `Object.values(item).some(val => String(val).toLowerCase().includes(lower))`. */
  predicate Matches(item: Record, lower: string) {
    exists key :: key in item && Contains(ToLower(ToJsString(item[key])), lower)
  }

  function MatchesTerm(searchTerm: string): Record -> bool {
    item => Matches(item, ToLower(searchTerm))
  }

  /** `filteredData`: everything for an empty search term, else the items
   *  with a value containing the term, ignoring ASCII case. */
  function FilteredData(data: seq<Record>, searchTerm: string): (r: seq<Record>)
    ensures |r| <= |data|
    ensures forall item :: item in r <==> item in data && (searchTerm == "" || Matches(item, ToLower(searchTerm)))
  {
    if searchTerm == "" then data else FilterSeq(data, MatchesTerm(searchTerm))
  }

  lemma EmptyTermKeepsAll(data: seq<Record>)
    ensures FilteredData(data, "") == data
  {
  }

  /** An item is kept exactly when some value's lowercase string form
   *  contains the lowercase term; survivors keep their order and their
   *  multiplicity. */
  lemma FilterKeepsExactlyTheMatches(data: seq<Record>, searchTerm: string)
    requires searchTerm != ""
    ensures forall item :: item in FilteredData(data, searchTerm) <==>
      item in data && Matches(item, ToLower(searchTerm))
    ensures IsSubsequence(FilteredData(data, searchTerm), data)
    ensures forall item :: Matches(item, ToLower(searchTerm)) ==>
      multiset(FilteredData(data, searchTerm))[item] == multiset(data)[item]
  {
    FilterSeqOrder(data, MatchesTerm(searchTerm));
  }

  /** Whatever the term, the result is an order-preserving subsequence. */
  lemma FilteredIsSubsequence(data: seq<Record>, searchTerm: string)
    ensures IsSubsequence(FilteredData(data, searchTerm), data)
  {
    if searchTerm == "" {
      SubsequenceOfItself(data);
    } else {
      FilterSeqOrder(data, MatchesTerm(searchTerm));
    }
  }

  lemma {:induction false} SubsequenceOfItself(s: seq<Record>)
    ensures IsSubsequence(s, s)
    decreases |s|
  {
    if s != [] {
      SubsequenceOfItself(s[1..]);
    }
  }

  // ----- Grouping ---------------------------------------------------------------

  /** `item[groupBy] || 'Uncategorized'`, as the property name it becomes. */
  function GroupKey(item: Record, groupBy: string): (r: string)
    ensures r != ""
    ensures !FieldTruthy(item, groupBy) ==> r == "Uncategorized"
    ensures FieldTruthy(item, groupBy) && item[groupBy].Str? ==> r == item[groupBy].s
  {
    if FieldTruthy(item, groupBy) then ToJsString(item[groupBy]) else "Uncategorized"
  }

  /** What the `reduce` has built after the items `items`. */
  function Grouping(items: seq<Record>, groupBy: string): (r: map<string, seq<Record>>)
    ensures forall k :: k in r ==> r[k] != []
    ensures forall k, item :: k in r && item in r[k] ==> item in items && GroupKey(item, groupBy) == k
    decreases |items|
  {
    if |items| == 0 then map[]
    else
      var acc := Grouping(items[..|items| - 1], groupBy);
      var item := items[|items| - 1];
      assert forall x :: x in items[..|items| - 1] ==> x in items;
      var key := GroupKey(item, groupBy);
      acc[key := (if key in acc then acc[key] else []) + [item]]
  }

  /** The group keys in the order they first appear. */
  function KeyOrder(items: seq<Record>, groupBy: string): seq<string>
    decreases |items|
  {
    if |items| == 0 then []
    else
      var ks := KeyOrder(items[..|items| - 1], groupBy);
      var key := GroupKey(items[|items| - 1], groupBy);
      if key in ks then ks else ks + [key]
  }

  function HasKey(groupBy: string, key: string): Record -> bool {
    item => GroupKey(item, groupBy) == key
  }

  /** `groupedData`: one group `All` without a `groupBy`, else the reduce. */
  method GroupedData(filtered: seq<Record>, groupBy: Option<string>) returns (groups: map<string, seq<Record>>)
    ensures !TruthyText(groupBy) ==> groups == map["All" := filtered]
    ensures TruthyText(groupBy) ==> groups == Grouping(filtered, groupBy.value)
  {
    if !TruthyText(groupBy) {
      return map["All" := filtered];
    }
    var acc: map<string, seq<Record>> := map[];
    var i := 0;
    while i < |filtered|
      invariant 0 <= i <= |filtered|
      invariant acc == Grouping(filtered[..i], groupBy.value)
    {
      assert filtered[..i + 1][..i] == filtered[..i];
      var item := filtered[i];
      var key := GroupKey(item, groupBy.value);
      if key !in acc {
        acc := acc[key := []];
      }
      acc := acc[key := acc[key] + [item]];
      i := i + 1;
    }
    assert filtered[..i] == filtered;
    return acc;
  }

  /** The groups are the keys met, each once, in first-appearance order. */
  lemma {:induction false} GroupKeysInOrder(items: seq<Record>, groupBy: string)
    ensures forall k :: k in Grouping(items, groupBy) <==> k in KeyOrder(items, groupBy)
    ensures NoDuplicates(KeyOrder(items, groupBy))
    decreases |items|
  {
    if |items| > 0 {
      GroupKeysInOrder(items[..|items| - 1], groupBy);
    }
  }

  /** Each group holds exactly the items with its key, in their order; a
   *  key without a group has no items. */
  lemma {:induction false} GroupIsFilter(items: seq<Record>, groupBy: string, k: string)
    ensures k in Grouping(items, groupBy) ==> Grouping(items, groupBy)[k] == FilterSeq(items, HasKey(groupBy, k))
    ensures k !in Grouping(items, groupBy) ==> FilterSeq(items, HasKey(groupBy, k)) == []
    decreases |items|
  {
    if |items| > 0 {
      var prefix := items[..|items| - 1];
      var item := items[|items| - 1];
      var p := HasKey(groupBy, k);
      assert items == prefix + [item];
      GroupIsFilter(prefix, groupBy, k);
      FilterSeqAppend(prefix, [item], p);
      assert FilterSeq([item], p) == if p(item) then [item] else [] by {
        assert [item][1..] == [];
      }
    }
  }

  /** Every item lands in exactly one group: the one of its key. */
  lemma ItemInExactlyOneGroup(items: seq<Record>, groupBy: string, item: Record)
    requires item in items
    ensures GroupKey(item, groupBy) in Grouping(items, groupBy)
    ensures item in Grouping(items, groupBy)[GroupKey(item, groupBy)]
    ensures forall k :: k in Grouping(items, groupBy) && item in Grouping(items, groupBy)[k] ==> k == GroupKey(item, groupBy)
  {
    var k := GroupKey(item, groupBy);
    GroupIsFilter(items, groupBy, k);
    assert item in FilterSeq(items, HasKey(groupBy, k));
    forall k' | k' in Grouping(items, groupBy) && item in Grouping(items, groupBy)[k']
      ensures k' == k
    {
      GroupIsFilter(items, groupBy, k');
    }
  }

  /** The group sizes add up to the number of items grouped. */
  lemma {:induction false} GroupSizesSum(items: seq<Record>, groupBy: string)
    ensures forall k :: k in KeyOrder(items, groupBy) ==> k in Grouping(items, groupBy)
    ensures SumSizes(Grouping(items, groupBy), KeyOrder(items, groupBy)) == |items|
    decreases |items|
  {
    GroupKeysInOrder(items, groupBy);
    if |items| > 0 {
      var prefix := items[..|items| - 1];
      var acc := Grouping(prefix, groupBy);
      var ks := KeyOrder(prefix, groupBy);
      var key := GroupKey(items[|items| - 1], groupBy);
      GroupSizesSum(prefix, groupBy);
      GroupKeysInOrder(prefix, groupBy);
      var v := (if key in acc then acc[key] else []) + [items[|items| - 1]];
      if key in ks {
        SumSizesUpdate(acc, ks, key, v);
      } else {
        SumSizesFrame(acc, ks, key, v);
        SumSizesSnoc(acc[key := v], ks, key);
      }
    }
  }

  // ----- Sums of group sizes ----------------------------------------------------

  lemma {:induction false} SumSizesFrame(groups: map<string, seq<Record>>, ks: seq<string>, key: string, v: seq<Record>)
    requires forall k :: k in ks ==> k in groups
    requires key !in ks
    ensures SumSizes(groups[key := v], ks) == SumSizes(groups, ks)
    decreases |ks|
  {
    if |ks| > 0 {
      SumSizesFrame(groups, ks[1..], key, v);
    }
  }

  lemma {:induction false} SumSizesUpdate(groups: map<string, seq<Record>>, ks: seq<string>, key: string, v: seq<Record>)
    requires forall k :: k in ks ==> k in groups
    requires key in ks && NoDuplicates(ks)
    ensures SumSizes(groups[key := v], ks) == SumSizes(groups, ks) - |groups[key]| + |v|
    decreases |ks|
  {
    if ks[0] == key {
      assert key !in ks[1..] by {
        forall j | 0 <= j < |ks[1..]| ensures ks[1..][j] != key {
          assert ks[1..][j] == ks[j + 1];
        }
      }
      SumSizesFrame(groups, ks[1..], key, v);
    } else {
      assert NoDuplicates(ks[1..]) by {
        forall i, j | 0 <= i < j < |ks[1..]| ensures ks[1..][i] != ks[1..][j] {
          assert ks[1..][i] == ks[i + 1] && ks[1..][j] == ks[j + 1];
        }
      }
      SumSizesUpdate(groups, ks[1..], key, v);
    }
  }

  lemma {:induction false} SumSizesSnoc(groups: map<string, seq<Record>>, ks: seq<string>, key: string)
    requires forall k :: k in ks ==> k in groups
    requires key in groups
    ensures SumSizes(groups, ks + [key]) == SumSizes(groups, ks) + |groups[key]|
    decreases |ks|
  {
    if |ks| == 0 {
      assert ks + [key] == [key];
    } else {
      assert (ks + [key])[1..] == ks[1..] + [key];
      SumSizesSnoc(groups, ks[1..], key);
    }
  }
}
