/** `SearchBar`: one text field whose submit hands the trimmed query to the
    optional `onSearch` callback, and never an empty one. */
module SearchBar {
  import Text

  datatype State = State(query: string)

  /** The field starts empty. */
  const Initial: State := State("")

  /** `handleSubmit`, where `hasOnSearch` says whether a callback was given.
      Returns the state after the submit and the calls made to `onSearch`. */
  function HandleSubmit(s: State, hasOnSearch: bool): (r: (State, seq<string>))
    ensures r.0 == s
    ensures |r.1| <= 1
    ensures |r.1| == 1 <==> hasOnSearch && exists k :: 0 <= k < |s.query| && !Text.IsJsSpace(s.query[k])
    ensures |r.1| == 1 ==> r.1[0] == Text.Trim(s.query)
    ensures |r.1| == 1 ==> r.1[0] != [] && Text.Tight(r.1[0])
  {
    Text.TrimEmptyIffAllSpace(s.query);
    var trimmed := Text.Trim(s.query);
    if trimmed != [] && hasOnSearch then (s, [trimmed]) else (s, [])
  }

  /** Whatever is typed, submitting the same text twice makes the same calls:
      the argument is already trimmed, so trimming it again is harmless. */
  lemma {:induction false} SubmittedQueryIsStable(s: State)
    requires |HandleSubmit(s, true).1| == 1
    ensures HandleSubmit(State(HandleSubmit(s, true).1[0]), true).1 == HandleSubmit(s, true).1
  {
  }
}
