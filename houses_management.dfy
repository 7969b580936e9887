/** The admin houses screen (src/components/admin/HousesManagement.tsx): the
    search over all houses, their grouping by floor and section, and the
    vacancy switch of one house. */
module HousesManagement {
  import opened Collections
  import opened Records
  import opened Text

  /** `filteredHouses`' condition: the term occurs in the room name, the
      floor or the section, ignoring case. */
  predicate SearchMatches(h: House, term: string)
  {
    IncludesIgnoringCase(h.roomName, term) || IncludesIgnoringCase(h.floor, term) ||
    IncludesIgnoringCase(h.section, term)
  }

  function MatchesFn(term: string): House -> bool
  {
    (h: House) => SearchMatches(h, term)
  }

  function FilteredHouses(houses: seq<House>, term: string): (r: seq<House>)
    ensures forall h :: h in r <==> h in houses && SearchMatches(h, term)
  {
    Filter(houses, MatchesFn(term))
  }

  /** The search has no guard for an empty term, which occurs in every text:
      an empty search shows every house. */
  lemma EmptySearchShowsAll(houses: seq<House>)
    ensures FilteredHouses(houses, "") == houses
  {
    forall h | h in houses ensures SearchMatches(h, "")
    {
      IncludesEmpty(Lower(h.roomName));
    }
    FilterKeepsAll(houses, MatchesFn(""));
  }

  /** The key of a house's group: `${floor} - ${section}`. */
  function GroupKey(h: House): string
  {
    h.floor + " - " + h.section
  }

  function KeyIs(k: string): House -> bool
  {
    (h: House) => GroupKey(h) == k
  }

  /** The keys that occur among some houses. */
  function KeysOf(houses: seq<House>): set<string>
  {
    set i | 0 <= i < |houses| :: GroupKey(houses[i])
  }

  /** A dictionary of groups: one entry per key that occurs, holding the
      houses with that key in their order. */
  predicate IsGrouping(groups: map<string, seq<House>>, houses: seq<House>)
  {
    groups.Keys == KeysOf(houses) && forall k :: k in groups ==> groups[k] == Filter(houses, KeyIs(k))
  }

  lemma KeysOfAppend(houses: seq<House>, h: House)
    ensures KeysOf(houses + [h]) == KeysOf(houses) + {GroupKey(h)}
  {
    var s := houses + [h];
    forall k | k in KeysOf(s) ensures k in KeysOf(houses) + {GroupKey(h)}
    {
      var i :| 0 <= i < |s| && GroupKey(s[i]) == k;
      if i < |houses| {
        assert s[i] == houses[i];
      }
    }
    forall k | k in KeysOf(houses) ensures k in KeysOf(s)
    {
      var i :| 0 <= i < |houses| && GroupKey(houses[i]) == k;
      assert s[i] == houses[i];
    }
    assert s[|houses|] == h;
  }

  lemma AbsentKeyHasNoHouses(houses: seq<House>, k: string)
    requires k !in KeysOf(houses)
    ensures Filter(houses, KeyIs(k)) == []
  {
    if Filter(houses, KeyIs(k)) != [] {
      FilterHeadKept(houses, KeyIs(k));
    }
  }

  /** The keys in the order their first house creates them. A JavaScript
      object remembers that order, and `Object.entries` lays the sections
      out in it; a key holds " - ", so it is never an array index, which
      would be listed first. */
  function KeyOrder(houses: seq<House>): (keys: seq<string>)
    ensures forall k :: k in keys <==> k in KeysOf(houses)
    ensures forall i, j :: 0 <= i < j < |keys| ==> keys[i] != keys[j]
  {
    if houses == [] then []
    else
      var p := houses[..|houses| - 1];
      var h := houses[|houses| - 1];
      assert houses == p + [h];
      KeysOfAppend(p, h);
      var ks := KeyOrder(p);
      if GroupKey(h) in ks then ks else ks + [GroupKey(h)]
  }

  /** Some house with key `k` comes before every house with key `l`. */
  predicate ComesFirst(houses: seq<House>, k: string, l: string)
  {
    exists a :: 0 <= a < |houses| && GroupKey(houses[a]) == k &&
      forall b :: 0 <= b <= a ==> GroupKey(houses[b]) != l
  }

  lemma ComesFirstExtends(p: seq<House>, h: House, k: string, l: string)
    requires ComesFirst(p, k, l)
    ensures ComesFirst(p + [h], k, l)
  {
    var s := p + [h];
    var a :| 0 <= a < |p| && GroupKey(p[a]) == k && forall b :: 0 <= b <= a ==> GroupKey(p[b]) != l;
    assert s[a] == p[a];
    forall b | 0 <= b <= a ensures GroupKey(s[b]) != l
    {
      assert s[b] == p[b];
    }
  }

  /** The sections appear in the order of their first house: of two keys, the
      earlier one has a house before any house of the later one. */
  lemma {:induction false} KeyOrderIsFirstOccurrence(houses: seq<House>)
    ensures forall i, j :: 0 <= i < j < |KeyOrder(houses)| ==>
      ComesFirst(houses, KeyOrder(houses)[i], KeyOrder(houses)[j])
  {
    if houses != [] {
      var p := houses[..|houses| - 1];
      var h := houses[|houses| - 1];
      assert houses == p + [h];
      KeyOrderIsFirstOccurrence(p);
      var ks := KeyOrder(p);
      var keys := KeyOrder(houses);
      assert forall i :: 0 <= i < |ks| ==> keys[i] == ks[i];
      forall i, j | 0 <= i < j < |keys| ensures ComesFirst(houses, keys[i], keys[j])
      {
        if j < |ks| {
          ComesFirstExtends(p, h, ks[i], ks[j]);
        } else {
          assert keys[j] == GroupKey(h) && GroupKey(h) !in KeysOf(p);
          assert ks[i] in KeysOf(p);
          var a :| 0 <= a < |p| && GroupKey(p[a]) == ks[i];
          assert houses[a] == p[a];
          forall b | 0 <= b <= a ensures GroupKey(houses[b]) != keys[j]
          {
            assert houses[b] == p[b];
            assert GroupKey(p[b]) in KeysOf(p);
          }
        }
      }
    }
  }

  lemma KeyOrderAppend(p: seq<House>, h: House)
    ensures KeyOrder(p + [h]) == if GroupKey(h) in KeysOf(p) then KeyOrder(p) else KeyOrder(p) + [GroupKey(h)]
  {
    assert (p + [h])[..|p + [h]| - 1] == p;
  }

  /** One step of the `reduce`: push `h` onto the list of its key, creating
      the list on first use. */
  function Pushed(groups: map<string, seq<House>>, h: House): map<string, seq<House>>
  {
    var key := GroupKey(h);
    groups[key := (if key in groups then groups[key] else []) + [h]]
  }

  lemma PushedGroups(groups: map<string, seq<House>>, p: seq<House>, h: House)
    requires IsGrouping(groups, p)
    ensures IsGrouping(Pushed(groups, h), p + [h])
  {
    var key := GroupKey(h);
    KeysOfAppend(p, h);
    forall k | k in KeysOf(p + [h])
      ensures Filter(p + [h], KeyIs(k)) == Filter(p, KeyIs(k)) + (if k == key then [h] else [])
    {
      FilterConcat(p, [h], KeyIs(k));
    }
    if key !in groups {
      AbsentKeyHasNoHouses(p, key);
    }
  }

  /** A step of the `reduce` keeps the dictionary a grouping and the key
      list in the order of first houses. */
  lemma GroupStep(groups: map<string, seq<House>>, keys: seq<string>, p: seq<House>, h: House)
    requires IsGrouping(groups, p) && keys == KeyOrder(p)
    ensures IsGrouping(Pushed(groups, h), p + [h])
    ensures (if GroupKey(h) in groups then keys else keys + [GroupKey(h)]) == KeyOrder(p + [h])
  {
    PushedGroups(groups, p, h);
    KeyOrderAppend(p, h);
  }

  /** `groupedHouses`: the `reduce` that pushes each house onto the list of
      its key, creating the list on first use. The object is the dictionary
      `groups` together with `keys`, the order its keys were created in. */
  method GroupHouses(houses: seq<House>) returns (groups: map<string, seq<House>>, keys: seq<string>)
    ensures IsGrouping(groups, houses)
    ensures keys == KeyOrder(houses)
  {
    groups := map[];
    keys := [];
    var i := 0;
    while i < |houses|
      invariant 0 <= i <= |houses|
      invariant IsGrouping(groups, houses[..i])
      invariant keys == KeyOrder(houses[..i])
    {
      var h := houses[i];
      var key := GroupKey(h);
      assert houses[..i + 1] == houses[..i] + [h];
      GroupStep(groups, keys, houses[..i], h);
      var list := [];
      if key in groups {
        list := groups[key];
      } else {
        keys := keys + [key];
      }
      groups := groups[key := list + [h]];
      i := i + 1;
    }
    assert houses[..i] == houses;
  }

  /** No group is empty: a key exists only because a house has it. */
  lemma NoGroupEmpty(groups: map<string, seq<House>>, houses: seq<House>, k: string)
    requires IsGrouping(groups, houses) && k in groups
    ensures groups[k] != []
  {
    var i :| 0 <= i < |houses| && GroupKey(houses[i]) == k;
    assert houses[i] in Filter(houses, KeyIs(k));
  }

  /** Every house is in the group of its own key and in no other, and the
      groups hold nothing but the houses, each group in their order. */
  lemma EachHouseInOneGroup(groups: map<string, seq<House>>, houses: seq<House>, h: House)
    requires IsGrouping(groups, houses)
    ensures h in houses ==> GroupKey(h) in groups && h in groups[GroupKey(h)]
    ensures forall k :: k in groups && h in groups[k] ==> h in houses && k == GroupKey(h)
    ensures forall k :: k in groups ==> IsSubsequence(groups[k], houses)
  {
    if h in houses {
      var i :| 0 <= i < |houses| && houses[i] == h;
      assert GroupKey(houses[i]) in KeysOf(houses);
    }
    forall k | k in groups ensures IsSubsequence(groups[k], houses)
    {
      FilterIsSubsequence(houses, KeyIs(k));
    }
  }

  /** `toggleVacancy(houseId, currentStatus)`: store the opposite of the flag
      the screen shows; a failed update changes nothing. */
  method ToggleVacancy(store: Store, houseId: string, currentStatus: bool, updateOk: bool)
    modifies store
    ensures store.houses == if updateOk then SetVacancy(old(store.houses), houseId, !currentStatus) else old(store.houses)
    ensures store.assignments == old(store.assignments) && store.payments == old(store.payments)
    ensures store.requests == old(store.requests)
  {
    if updateOk {
      store.houses := SetVacancy(store.houses, houseId, !currentStatus);
    }
  }

  /** With the flag the screen shows up to date, the switch flips the house's
      flag and leaves every other house as it was; doing it twice restores
      the table. */
  lemma ToggleFlips(houses: seq<House>, k: int)
    requires 0 <= k < |houses|
    ensures var after := SetVacancy(houses, houses[k].id, !houses[k].isVacant);
      after[k].isVacant == !houses[k].isVacant &&
      (forall j :: 0 <= j < |houses| && houses[j].id != houses[k].id ==> after[j] == houses[j])
    ensures (forall j :: 0 <= j < |houses| && houses[j].id == houses[k].id ==> houses[j].isVacant == houses[k].isVacant) ==>
      SetVacancy(SetVacancy(houses, houses[k].id, !houses[k].isVacant), houses[k].id, houses[k].isVacant) == houses
  {
    var id := houses[k].id;
    var once := SetVacancy(houses, id, !houses[k].isVacant);
    if forall j :: 0 <= j < |houses| && houses[j].id == id ==> houses[j].isVacant == houses[k].isVacant {
      var twice := SetVacancy(once, id, houses[k].isVacant);
      assert forall j :: 0 <= j < |houses| ==> twice[j] == houses[j];
    }
  }
}
