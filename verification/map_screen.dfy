/** The map screen's search box (`src/screens/MapScreen.js`): the loaded list,
    the list shown, and the text typed. Every keystroke filters the loaded list
    afresh. */
module MapScreen {
  import opened Seqs
  import opened Text
  import opened LegacyParkings

  datatype MapState = MapState(parkings: seq<MockParking>, filtered: seq<MockParking>, searchQuery: string)

  const Initial: MapState := MapState([], [], "")

  /** `loadParkings`: the loaded list is both kept and shown. */
  function LoadParkings(st: MapState, data: seq<MockParking>): (r: MapState)
    ensures r.parkings == data && r.filtered == data && r.searchQuery == st.searchQuery
  {
    st.(parkings := data, filtered := data)
  }

  /** `handleSearch`: a blank text shows the whole loaded list; otherwise the
      loaded parkings whose lowercased name or address contains the lowercased
      text, untrimmed, in order. */
  function HandleSearch(st: MapState, text: string): (r: MapState)
    ensures r.searchQuery == text && r.parkings == st.parkings
    ensures AllSpace(text) ==> r.filtered == st.parkings
    ensures !AllSpace(text) ==> Subseq(r.filtered, st.parkings)
    ensures !AllSpace(text) ==>
              forall p :: p in r.filtered <==> p in st.parkings && MatchesSearch(p, Lower(text))
    ensures !AllSpace(text) ==> |r.filtered| == Count(st.parkings, SearchTest(Lower(text)))
  {
    TrimEmptyIffBlank(text);
    if Trim(text) == "" then st.(searchQuery := text, filtered := st.parkings)
    else st.(searchQuery := text, filtered := SearchIn(st.parkings, text))
  }

  /** The list shown depends only on the loaded list and the latest text. */
  lemma SearchForgetsHistory(st: MapState, earlier: string, text: string)
    ensures HandleSearch(HandleSearch(st, earlier), text) == HandleSearch(st, text)
  {
  }

  /** With the dataset loaded, a non-blank search shows what the service's
      `searchParkings` returns. */
  lemma SearchAgreesWithService(text: string)
    requires !AllSpace(text)
    ensures HandleSearch(LoadParkings(Initial, GetAllParkings()), text).filtered == SearchParkings(text)
  {
    var all := GetAllParkings();
    SearchOfLoaded(all, text);
  }

  lemma SearchOfLoaded(ps: seq<MockParking>, text: string)
    requires !AllSpace(text)
    ensures HandleSearch(LoadParkings(Initial, ps), text).filtered == SearchIn(ps, text)
  {
    TrimEmptyIffBlank(text);
  }

  /** A text longer than the searched string never occurs in it. */
  lemma LongerNotIncluded(s: string, t: string)
    requires |t| > |s|
    ensures !Includes(s, t)
  {
  }

  /** The text is not trimmed: `" Plaza"` misses a parking named `"Plaza"` at
      `"Main"`, which `"Plaza"` finds. */
  lemma UntrimmedQueryMisses()
    ensures var st := LoadParkings(Initial, [MockParking("9", "Plaza", "Main", 0.0, 0.0, 1, 1, 1.0, 1.0, [])]);
            && HandleSearch(st, " Plaza").filtered == []
            && |HandleSearch(st, "Plaza").filtered| == 1
  {
    var p := MockParking("9", "Plaza", "Main", 0.0, 0.0, 1, 1, 1.0, 1.0, []);
    assert !IsSpace(" Plaza"[1]);
    LongerNotIncluded(Lower(p.name), Lower(" Plaza"));
    LongerNotIncluded(Lower(p.address), Lower(" Plaza"));
    assert !SearchTest(Lower(" Plaza"))(p);
    assert !IsSpace("Plaza"[0]);
    assert OccursAt(Lower(p.name), Lower("Plaza"), 0);
    assert SearchTest(Lower("Plaza"))(p);
  }
}
