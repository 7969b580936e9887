/** The public room search (src/components/home/HouseSearch.tsx): the vacant
    houses narrowed by a search term, a floor and a price band. */
module HouseSearch {
  import opened Collections
  import opened Records
  import opened Text

  /** The search term occurs in the room name or the section, ignoring case. */
  predicate SearchMatches(h: House, term: string)
  {
    IncludesIgnoringCase(h.roomName, term) || IncludesIgnoringCase(h.section, term)
  }

  /** The `switch (priceFilter)`: three bands, and every other value keeps
      the house. */
  function InPriceBand(price: int, band: string): (kept: bool)
    ensures band == "under-5000" ==> (kept <==> price < 5000)
    ensures band == "5000-8000" ==> (kept <==> 5000 <= price <= 8000)
    ensures band == "over-8000" ==> (kept <==> price > 8000)
    ensures band !in {"under-5000", "5000-8000", "over-8000"} ==> kept
  {
    if band == "under-5000" then price < 5000
    else if band == "5000-8000" then price >= 5000 && price <= 8000
    else if band == "over-8000" then price > 8000
    else true
  }

  /** Every price is in exactly one of the three bands. */
  lemma PriceBandsPartition(price: int)
    ensures InPriceBand(price, "under-5000") || InPriceBand(price, "5000-8000") || InPriceBand(price, "over-8000")
    ensures !(InPriceBand(price, "under-5000") && InPriceBand(price, "5000-8000"))
    ensures !(InPriceBand(price, "under-5000") && InPriceBand(price, "over-8000"))
    ensures !(InPriceBand(price, "5000-8000") && InPriceBand(price, "over-8000"))
  {
  }

  /** Each stage as a filter that lets everything through when switched off
      (an empty term, the floor or price set to "all"). */
  function SearchStage(term: string): House -> bool
  {
    (h: House) => term == "" || SearchMatches(h, term)
  }

  function FloorStage(floor: string): House -> bool
  {
    (h: House) => floor == "all" || h.floor == floor
  }

  function PriceStage(band: string): House -> bool
  {
    (h: House) => band == "all" || InPriceBand(h.price, band)
  }

  /** A house is shown exactly when it passes every active filter. */
  predicate Keep(h: House, term: string, floor: string, band: string)
  {
    SearchStage(term)(h) && FloorStage(floor)(h) && PriceStage(band)(h)
  }

  function KeepFn(term: string, floor: string, band: string): House -> bool
  {
    (h: House) => Keep(h, term, floor, band)
  }

  function SearchAndFloor(term: string, floor: string): House -> bool
  {
    (h: House) => SearchStage(term)(h) && FloorStage(floor)(h)
  }

  /** `filterHouses`: up to three filters, each applied only when it is set. */
  method FilterHouses(houses: seq<House>, term: string, floor: string, band: string) returns (filtered: seq<House>)
    ensures filtered == Filter(houses, KeepFn(term, floor, band))
  {
    filtered := houses;
    if term != "" {
      filtered := Filter(filtered, (h: House) => SearchMatches(h, term));
      FilterAgrees(houses, (h: House) => SearchMatches(h, term), SearchStage(term));
    } else {
      FilterKeepsAll(houses, SearchStage(term));
    }
    assert filtered == Filter(houses, SearchStage(term));
    ghost var afterSearch := filtered;
    if floor != "all" {
      filtered := Filter(filtered, (h: House) => h.floor == floor);
      FilterAgrees(afterSearch, (h: House) => h.floor == floor, FloorStage(floor));
    } else {
      FilterKeepsAll(afterSearch, FloorStage(floor));
    }
    FilterTwice(houses, SearchStage(term), FloorStage(floor), SearchAndFloor(term, floor));
    assert filtered == Filter(houses, SearchAndFloor(term, floor));
    ghost var afterFloor := filtered;
    if band != "all" {
      filtered := Filter(filtered, (h: House) => InPriceBand(h.price, band));
      FilterAgrees(afterFloor, (h: House) => InPriceBand(h.price, band), PriceStage(band));
    } else {
      FilterKeepsAll(afterFloor, PriceStage(band));
    }
    FilterTwice(houses, SearchAndFloor(term, floor), PriceStage(band), KeepFn(term, floor, band));
  }

  /** With no term and both selects on "all", every house is shown. */
  lemma NoFiltersShowsAll(houses: seq<House>)
    ensures Filter(houses, KeepFn("", "all", "all")) == houses
  {
    FilterKeepsAll(houses, KeepFn("", "all", "all"));
  }

  /** The shown houses keep the order in which they were fetched. */
  lemma FilteredInOrder(houses: seq<House>, term: string, floor: string, band: string)
    ensures IsSubsequence(Filter(houses, KeepFn(term, floor, band)), houses)
  {
    FilterIsSubsequence(houses, KeepFn(term, floor, band));
  }

  /** The stages can run in any order: price, then floor, then search gives
      the same list. */
  lemma StageOrderIrrelevant(houses: seq<House>, term: string, floor: string, band: string)
    ensures Filter(Filter(Filter(houses, PriceStage(band)), FloorStage(floor)), SearchStage(term)) ==
            Filter(houses, KeepFn(term, floor, band))
  {
    var pf := (h: House) => PriceStage(band)(h) && FloorStage(floor)(h);
    FilterTwice(houses, PriceStage(band), FloorStage(floor), pf);
    FilterTwice(houses, pf, SearchStage(term), KeepFn(term, floor, band));
  }
}
