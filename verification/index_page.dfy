/** The landing page of `src/pages/Index.tsx`: a search answered from two
    hard-coded machines, and the flags that drive the results section. */
module IndexPage {
  import Text
  import SearchBar

  /** A mock machine. The floating-point `rating` is not modelled. */
  datatype MockMachine = MockMachine(
    id: nat,
    airport: string,
    terminal: string,
    location: string,
    hours: string,
    supplies: seq<string>,
    distance: string)

  /** `mockVendingMachines`. */
  const MockMachines: seq<MockMachine> := [
    MockMachine(1, "JFK", "Terminal 4", "Near Gate A12", "24/7",
      ["Diapers", "Formula", "Baby Food", "Pacifiers", "Wipes"], "0.2 miles from your location"),
    MockMachine(2, "JFK", "Terminal 1", "Food Court", "6 AM - 11 PM",
      ["Diapers", "Formula", "Wipes", "Baby Bottles"], "0.5 miles from your location")
  ]

  datatype State = State(searchResults: seq<MockMachine>, hasSearched: bool, showDiscountPopup: bool)

  /** No results, nothing searched yet, popup hidden. */
  const Initial: State := State([], false, false)

  /** The lower-cased query contains `word`. */
  ghost predicate Mentions(query: string, word: string) {
    exists i :: Text.OccursAt(Text.Lower(query), word, i)
  }

  /** `handleSearch(query)`: any search marks the page as searched; a query
      mentioning "jfk" or "kennedy" in any case yields both mock machines,
      any other query none. */
  function HandleSearch(s: State, query: string): (t: State)
    ensures t.hasSearched
    ensures t.showDiscountPopup == s.showDiscountPopup
    ensures t.searchResults == MockMachines <==> Mentions(query, "jfk") || Mentions(query, "kennedy")
    ensures t.searchResults == [] <==> !(Mentions(query, "jfk") || Mentions(query, "kennedy"))
  {
    s.(hasSearched := true, searchResults := if MatchesMock(query) then MockMachines else [])
  }

  /** The mock search condition. */
  function MatchesMock(query: string): (b: bool)
    ensures b <==> Mentions(query, "jfk") || Mentions(query, "kennedy")
  {
    var q := Text.Lower(query);
    Text.Contains(q, "jfk") || Text.Contains(q, "kennedy")
  }

  /** A word none of whose letters is whitespace. */
  ghost predicate SolidWord(word: string) {
    word != [] && forall k :: 0 <= k < |word| ==> !Text.IsJsSpace(word[k])
  }

  /** An occurrence of a solid word in the lower-cased string lies inside the
      trimmed slice: its first and last letters are not whitespace. */
  lemma OccurrenceInsideTrim(query: string, r: string, i0: int, word: string, i: int)
    requires SolidWord(word) && Text.SliceBetweenSpace(query, r, i0)
    requires Text.OccursAt(Text.Lower(query), word, i)
    ensures i0 <= i && i + |word| <= i0 + |r|
  {
    var lq := Text.Lower(query);
    var e := i + |word| - 1;
    assert lq[i] == word[0] && lq[e] == word[|word| - 1];
    assert !Text.IsJsSpace(query[i]) && !Text.IsJsSpace(query[e]);
    assert forall k :: 0 <= k < i0 ==> query[..i0][k] == query[k];
    assert forall k :: i0 + |r| <= k < |query| ==> query[i0 + |r|..][k - i0 - |r|] == query[k];
  }

  /** An occurrence in the string is an occurrence in its trimmed slice. */
  lemma OccurrenceMovesIntoTrim(query: string, r: string, i0: int, word: string, i: int)
    requires SolidWord(word) && Text.SliceBetweenSpace(query, r, i0)
    requires Text.OccursAt(Text.Lower(query), word, i)
    ensures Text.OccursAt(Text.Lower(r), word, i - i0)
  {
    OccurrenceInsideTrim(query, r, i0, word, i);
    Text.LowerSlice(query, i0, i0 + |r|);
    var lq := Text.Lower(query);
    assert Text.Lower(r)[i - i0..i - i0 + |word|] == lq[i..i + |word|];
  }

  /** An occurrence in the trimmed slice is an occurrence in the string. */
  lemma OccurrenceMovesOutOfTrim(query: string, r: string, i0: int, word: string, j: int)
    requires Text.SliceBetweenSpace(query, r, i0)
    requires Text.OccursAt(Text.Lower(r), word, j)
    ensures Text.OccursAt(Text.Lower(query), word, i0 + j)
  {
  }

  /** A solid word occurs in a string exactly when it occurs in its trimmed slice. */
  lemma {:induction false} WordSurvivesTrim(query: string, word: string)
    requires SolidWord(word)
    ensures Mentions(query, word) <==> Mentions(Text.Trim(query), word)
  {
    var r := Text.Trim(query);
    var i0 :| Text.SliceBetweenSpace(query, r, i0);
    if Mentions(query, word) {
      var i :| Text.OccursAt(Text.Lower(query), word, i);
      OccurrenceMovesIntoTrim(query, r, i0, word, i);
    }
    if Mentions(r, word) {
      var j :| Text.OccursAt(Text.Lower(r), word, j);
      OccurrenceMovesOutOfTrim(query, r, i0, word, j);
    }
  }

  /** Trimming a query never changes whether it matches the mock search. */
  lemma {:induction false} MockMatchSurvivesTrim(query: string)
    ensures MatchesMock(Text.Trim(query)) == MatchesMock(query)
  {
    assert SolidWord("jfk") && SolidWord("kennedy");
    WordSurvivesTrim(query, "jfk");
    WordSurvivesTrim(query, "kennedy");
  }

  /** Searching through the search bar: surrounding whitespace, which the bar
      trims away, never changes which results the page shows. */
  lemma {:induction false} TrimmingKeepsMockResults(s: State, bar: SearchBar.State)
    requires |SearchBar.HandleSubmit(bar, true).1| == 1
    ensures HandleSearch(s, SearchBar.HandleSubmit(bar, true).1[0]).searchResults
         == HandleSearch(s, bar.query).searchResults
  {
    MockMatchSurvivesTrim(bar.query);
  }

  /** Concrete searches: the airport code in capitals, the name in mixed
      case, and another airport. */
  lemma {:induction false} SampleSearches(s: State)
    ensures HandleSearch(s, "JFK").searchResults == MockMachines
    ensures HandleSearch(s, "Kennedy").searchResults == MockMachines
    ensures HandleSearch(s, "LAX").searchResults == []
  {
    assert Text.Lower("JFK") == "jfk";
    assert Text.OccursAt(Text.Lower("JFK"), "jfk", 0);
    assert Text.Lower("Kennedy") == "kennedy";
    assert Text.OccursAt(Text.Lower("Kennedy"), "kennedy", 0);
    var lax := Text.Lower("LAX");
    assert lax == "lax";
    assert forall i :: Text.OccursAt(lax, "jfk", i) ==> i == 0;
    assert lax[0..3][0] == 'l';
  }
}
