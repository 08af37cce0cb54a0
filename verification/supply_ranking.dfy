/** The supply ranking of `useSupplyData`: count how often each supply name
    occurs across all machines, order the names by count, keep the four most
    common and attach the catalogue description of each. */
module SupplyRanking {
  import opened Schema
  import Seqs

  /** One entry of `Object.entries(supplyCounts)`. */
  datatype SupplyCount = SupplyCount(supply: string, count: nat)

  /** The icons of the supply catalogue. */
  datatype Icon = Milk | Package | Apple | Gift

  /** One card of the ranking as the hook returns it. */
  datatype SupplyItem = SupplyItem(icon: Icon, name: string, description: string, count: nat)

  /** How many of the most common supplies are kept. */
  const TopCount: nat := 4

  /** The icon and description of a supply missing from the catalogue. */
  const DefaultIcon: Icon := Package
  const DefaultDescription: string := "Essential baby supplies"

  /** The fixed catalogue `supplyMap`. */
  const Catalogue: map<string, (Icon, string)> := map[
    "Baby Formula" := (Milk, "Infant and toddler formulas"),
    "Diapers" := (Package, "Various sizes available"),
    "Baby Food" := (Apple, "Pouches and jars"),
    "Pacifiers" := (Gift, "Different sizes and styles"),
    "Wipes" := (Package, "Gentle cleaning wipes"),
    "Bottles" := (Milk, "Feeding bottles"),
    "Toys" := (Gift, "Safe travel toys"),
    "Clothing" := (Package, "Emergency clothing")
  ]

  /** Reference count: the number of times `name` is listed in the `supplies`
      of all machines together, machine by machine. */
  ghost function Occurrences(ms: seq<VendingMachine>, name: string): nat {
    if ms == [] then 0 else multiset(ms[0].supplies)[name] + Occurrences(ms[1..], name)
  }

  /** The supply names in the order the nested `forEach` loops visit them. */
  function AllSupplies(ms: seq<VendingMachine>): (r: seq<string>)
    ensures forall name :: multiset(r)[name] == Occurrences(ms, name)
  {
    if ms == [] then [] else ms[0].supplies + AllSupplies(ms[1..])
  }

  /** `supplyCounts[name] || 0`: the count recorded for `name`, 0 when there is none. */
  function CountOf(t: seq<SupplyCount>, name: string): nat {
    if t == [] then 0 else if t[0].supply == name then t[0].count else CountOf(t[1..], name)
  }

  /** The names a tally has keys for. */
  function NameSet(t: seq<SupplyCount>): set<string> {
    if t == [] then {} else {t[0].supply} + NameSet(t[1..])
  }

  /** What an object used as a counter can hold: one key per name, each
      counted at least once. */
  ghost predicate WellFormed(t: seq<SupplyCount>) {
    t == [] || (t[0].count >= 1 && t[0].supply !in NameSet(t[1..]) && WellFormed(t[1..]))
  }

  /** `supplyCounts[s] = (supplyCounts[s] || 0) + 1`: a new key goes last. */
  function Bump(t: seq<SupplyCount>, s: string): (r: seq<SupplyCount>)
    requires WellFormed(t)
    ensures WellFormed(r)
    ensures forall name :: CountOf(r, name) == CountOf(t, name) + (if name == s then 1 else 0)
    ensures NameSet(r) == NameSet(t) + {s}
  {
    if t == [] then [SupplyCount(s, 1)]
    else if t[0].supply == s then [t[0].(count := t[0].count + 1)] + t[1..]
    else [t[0]] + Bump(t[1..], s)
  }

  /** The counter object after visiting `items` in order. */
  function Tally(items: seq<string>): (t: seq<SupplyCount>)
    ensures WellFormed(t)
    ensures forall name :: CountOf(t, name) == multiset(items)[name]
    ensures forall name :: name in NameSet(t) <==> name in items
  {
    if items == [] then []
    else
      var init := items[..|items| - 1];
      var last := items[|items| - 1];
      assert items == init + [last];
      Bump(Tally(init), last)
  }

  /** A well-formed tally has one entry per name, each positive, and its
      name set is exactly the names of its entries. */
  lemma {:induction false} WellFormedEntries(t: seq<SupplyCount>)
    requires WellFormed(t)
    ensures forall i, j :: 0 <= i < j < |t| ==> t[i].supply != t[j].supply
    ensures forall k :: 0 <= k < |t| ==> t[k].count >= 1 && t[k].supply in NameSet(t)
    ensures forall name :: name in NameSet(t) ==> exists k :: 0 <= k < |t| && t[k].supply == name
  {
    if t != [] {
      WellFormedEntries(t[1..]);
      forall name | name in NameSet(t) ensures exists k :: 0 <= k < |t| && t[k].supply == name {
        if name != t[0].supply {
          var k :| 0 <= k < |t[1..]| && t[1..][k].supply == name;
          assert t[k + 1].supply == name;
        }
      }
    }
  }

  /** In a well-formed tally each entry carries the count recorded for its name. */
  lemma {:induction false} EntryIsCount(t: seq<SupplyCount>, k: int)
    requires WellFormed(t) && 0 <= k < |t|
    ensures CountOf(t, t[k].supply) == t[k].count
  {
    if k > 0 {
      WellFormedEntries(t[1..]);
      assert t[1..][k - 1] == t[k];
      EntryIsCount(t[1..], k - 1);
    }
  }

  /** The count key the ranking sorts on. */
  function CountKey(e: SupplyCount): int {
    e.count
  }

  /** All counted supplies, most common first. */
  function Ranked(ms: seq<VendingMachine>): (r: seq<SupplyCount>)
    ensures multiset(r) == multiset(Tally(AllSupplies(ms)))
    ensures Seqs.SortedDescBy(r, CountKey)
  {
    Seqs.SortDescBy(Tally(AllSupplies(ms)), CountKey)
  }

  /** The catalogue entry of a supply, or the default icon and description. */
  function Describe(name: string): (Icon, string) {
    if name in Catalogue then Catalogue[name] else (DefaultIcon, DefaultDescription)
  }

  /** The result of the `useMemo` body: the four most common supplies with
      their catalogue data. */
  function SupplyData(ms: seq<VendingMachine>): (r: seq<SupplyItem>)
    ensures |r| <= TopCount
  {
    var top := Seqs.Take(Ranked(ms), TopCount);
    seq(|top|, k requires 0 <= k < |top| =>
      SupplyItem(Describe(top[k].supply).0, top[k].supply, Describe(top[k].supply).1, top[k].count))
  }

  /** The ranking is the first entries of the sorted tally, with names and counts kept. */
  lemma TopOfRanked(ms: seq<VendingMachine>)
    ensures |SupplyData(ms)| == Seqs.Min(TopCount, |Ranked(ms)|)
    ensures forall k :: 0 <= k < |SupplyData(ms)| ==>
      SupplyData(ms)[k].name == Ranked(ms)[k].supply && SupplyData(ms)[k].count == Ranked(ms)[k].count
  {
  }

  /** The names of a ranking. */
  function ItemNames(r: seq<SupplyItem>): (names: seq<string>)
    ensures |names| == |r|
    ensures forall k :: 0 <= k < |r| ==> names[k] == r[k].name
  {
    seq(|r|, k requires 0 <= k < |r| => r[k].name)
  }

  /** Every entry of the ranked list is an entry of the tally. */
  lemma RankedEntryInTally(ms: seq<VendingMachine>, k: int)
    requires 0 <= k < |Ranked(ms)|
    ensures Ranked(ms)[k] in Tally(AllSupplies(ms))
  {
    assert Ranked(ms)[k] in multiset(Ranked(ms));
  }

  /** The ranked list names each supply once and counts it correctly. */
  lemma {:induction false} RankedCounts(ms: seq<VendingMachine>)
    ensures forall k :: 0 <= k < |Ranked(ms)| ==>
      Ranked(ms)[k].count == Occurrences(ms, Ranked(ms)[k].supply) >= 1
    ensures forall i, j :: 0 <= i < j < |Ranked(ms)| ==> Ranked(ms)[i].supply != Ranked(ms)[j].supply
  {
    var t := Tally(AllSupplies(ms));
    var r := Ranked(ms);
    WellFormedEntries(t);
    forall k | 0 <= k < |r| ensures r[k].count == Occurrences(ms, r[k].supply) >= 1 {
      RankedEntryInTally(ms, k);
      var a :| 0 <= a < |t| && t[a] == r[k];
      EntryIsCount(t, a);
    }
    assert Seqs.NoDuplicates(t);
    Seqs.PermutationKeepsNoDuplicates(t, r);
    forall i, j | 0 <= i < j < |r| ensures r[i].supply != r[j].supply {
      RankedEntryInTally(ms, i);
      RankedEntryInTally(ms, j);
      var a :| 0 <= a < |t| && t[a] == r[i];
      var b :| 0 <= b < |t| && t[b] == r[j];
      assert a != b;
    }
  }

  /** Every supply that occurs somewhere is in the ranked list. */
  lemma {:induction false} RankedIsComplete(ms: seq<VendingMachine>, name: string)
    requires Occurrences(ms, name) > 0
    ensures exists k :: 0 <= k < |Ranked(ms)| && Ranked(ms)[k].supply == name
  {
    var t := Tally(AllSupplies(ms));
    assert name in AllSupplies(ms);
    WellFormedEntries(t);
    var a :| 0 <= a < |t| && t[a].supply == name;
    assert t[a] in multiset(Ranked(ms));
  }

  /** The count shown for each supply is the number of times it occurs across
      all machines, and is at least one. */
  lemma {:induction false} CountsAreOccurrences(ms: seq<VendingMachine>)
    ensures forall k :: 0 <= k < |SupplyData(ms)| ==>
      SupplyData(ms)[k].count == Occurrences(ms, SupplyData(ms)[k].name) >= 1
  {
    TopOfRanked(ms);
    RankedCounts(ms);
  }

  /** The ranking is ordered by non-increasing count. */
  lemma {:induction false} RankingIsOrdered(ms: seq<VendingMachine>)
    ensures forall i, j :: 0 <= i < j < |SupplyData(ms)| ==> SupplyData(ms)[i].count >= SupplyData(ms)[j].count
  {
    TopOfRanked(ms);
    var r := Ranked(ms);
    forall i, j | 0 <= i < j < |SupplyData(ms)| ensures SupplyData(ms)[i].count >= SupplyData(ms)[j].count {
      assert CountKey(r[i]) >= CountKey(r[j]);
    }
  }

  /** No supply is listed twice, and every listed supply occurs in some machine. */
  lemma {:induction false} NamesAreDistinctAndPresent(ms: seq<VendingMachine>)
    ensures forall i, j :: 0 <= i < j < |SupplyData(ms)| ==> SupplyData(ms)[i].name != SupplyData(ms)[j].name
    ensures forall k :: 0 <= k < |SupplyData(ms)| ==>
      exists m :: m in ms && SupplyData(ms)[k].name in m.supplies
  {
    var r, out := Ranked(ms), SupplyData(ms);
    TopOfRanked(ms);
    RankedCounts(ms);
    forall i, j | 0 <= i < j < |out| ensures out[i].name != out[j].name {
      assert out[i].name == r[i].supply && out[j].name == r[j].supply;
    }
    forall k | 0 <= k < |SupplyData(ms)|
      ensures exists m :: m in ms && SupplyData(ms)[k].name in m.supplies
    {
      OccurringNameIsListed(ms, SupplyData(ms)[k].name);
    }
  }

  /** A supply that occurs is in the `supplies` of some machine. */
  lemma {:induction false} OccurringNameIsListed(ms: seq<VendingMachine>, name: string)
    requires Occurrences(ms, name) > 0
    ensures exists m :: m in ms && name in m.supplies
  {
    if multiset(ms[0].supplies)[name] > 0 {
      assert ms[0] in ms;
    } else {
      OccurringNameIsListed(ms[1..], name);
      var m :| m in ms[1..] && name in m.supplies;
      assert m in ms;
    }
  }

  /** A supply left out of the ranking is no more common than any supply in
      it, and something is left out only when the ranking is full. */
  lemma {:induction false} LeftOutIsNoMoreCommon(ms: seq<VendingMachine>, name: string)
    requires Occurrences(ms, name) > 0
    requires name !in ItemNames(SupplyData(ms))
    ensures |SupplyData(ms)| == TopCount
    ensures forall k :: 0 <= k < |SupplyData(ms)| ==> Occurrences(ms, name) <= SupplyData(ms)[k].count
  {
    var r := Ranked(ms);
    var out := SupplyData(ms);
    TopOfRanked(ms);
    RankedIsComplete(ms, name);
    var j :| 0 <= j < |r| && r[j].supply == name;
    assert forall k :: 0 <= k < |out| ==> r[k].supply == ItemNames(out)[k];
    assert j >= |out|;
    RankedCounts(ms);
    forall k | 0 <= k < |out| ensures Occurrences(ms, name) <= out[k].count {
      assert CountKey(r[k]) >= CountKey(r[j]);
    }
  }

  /** Each card carries the catalogue icon and description of its supply, and
      the default pair for a supply the catalogue does not list. */
  lemma {:induction false} DescriptionsComeFromCatalogue(ms: seq<VendingMachine>)
    ensures forall k :: 0 <= k < |SupplyData(ms)| ==>
      var item := SupplyData(ms)[k];
      if item.name in Catalogue then (item.icon, item.description) == Catalogue[item.name]
      else item.icon == Package && item.description == "Essential baby supplies"
  {
  }

  /** Without machines there is nothing to rank. */
  lemma {:induction false} NoMachinesNoSupplies()
    ensures SupplyData([]) == []
  {
  }
}
