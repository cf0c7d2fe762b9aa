/** The two validation gates around the pipeline: a topical filter on the query and a phrase filter on the report. */
module Guardrails {
  import opened Outcomes
  import opened Text

  /** The topical marker a lower-cased query must contain. */
  const Marker := "agentic ai"
  const InputRejected := "Query must relate to Agentic AI trends."
  const OutputRejected := "Response contains speculative or unverifiable claims."
  /** The two alternatives of the pattern `\b(no data|future prediction)\b`. */
  const NoData := "no data"
  const FuturePrediction := "future prediction"

  /**
   * The input gate: the query passes, unchanged, exactly when its lower-cased form
   * contains the marker; otherwise it fails with the fixed message.
   */
  function InputGuardrail(query: string): (r: Result<string>)
    ensures r.Ok? <==> IsSubstring(Marker, Lower(query))
    ensures r.Ok? ==> r.value == query
    ensures r.Err? ==> r.msg == InputRejected
  {
    ContainsIff(Lower(query), Marker);
    if Contains(Lower(query), Marker) then Ok(query) else Err(InputRejected)
  }

  /** The verdict of the input gate does not depend on letter case. */
  lemma InputVerdictIgnoresCase(a: string, b: string)
    requires |a| == |b|
    requires forall i :: 0 <= i < |a| ==> LowerChar(a[i]) == LowerChar(b[i])
    ensures InputGuardrail(a).Ok? <==> InputGuardrail(b).Ok?
  {
    LowerIgnoresCase(a, b);
  }

  /** Lower-casing a query first does not change the input gate's verdict. */
  lemma InputVerdictOfLowered(query: string)
    ensures InputGuardrail(Lower(query)).Ok? <==> InputGuardrail(query).Ok?
  {
    LowerIdempotent(query);
  }

  /** A query the gate accepts is accepted again, unchanged. */
  lemma InputGuardrailIdempotent(query: string)
    requires InputGuardrail(query).Ok?
    ensures InputGuardrail(InputGuardrail(query).value) == InputGuardrail(query)
  {
  }

  /** Regex `\w`, restricted to ASCII: a letter, a digit or `_`. */
  predicate IsWordChar(c: char) {
    'a' <= c <= 'z' || 'A' <= c <= 'Z' || '0' <= c <= '9' || c == '_'
  }

  /** Position `i` holds a word character (positions outside the string do not). */
  predicate WordAt(s: string, i: int) {
    0 <= i < |s| && IsWordChar(s[i])
  }

  /** Regex `\b` at position `i`: the characters on its two sides differ in being word characters. */
  predicate Boundary(s: string, i: int) {
    WordAt(s, i - 1) != WordAt(s, i)
  }

  /** `\b` + `phrase` + `\b` matches `s` starting at position `i`. */
  predicate BoundedAt(s: string, phrase: string, i: nat) {
    Boundary(s, i) && OccursAt(s, phrase, i) && Boundary(s, i + |phrase|)
  }

  /** `re.search(r"\b(no data|future prediction)\b", s)` finds a match. */
  ghost predicate Flagged(s: string) {
    exists i: nat :: BoundedAt(s, NoData, i) || BoundedAt(s, FuturePrediction, i)
  }

  /**
   * The test the search makes at one start position, for a phrase that begins and ends
   * with a word character: the phrase is there, and the characters just outside it are
   * absent or are not word characters.
   */
  predicate MatchesAt(s: string, phrase: string, i: nat) {
    OccursAt(s, phrase, i)
    && (i == 0 || !IsWordChar(s[i - 1]))
    && (i + |phrase| == |s| || !IsWordChar(s[i + |phrase|]))
  }

  /** Scans the start positions from `i` on and reports whether either phrase matches at one. */
  function SearchFrom(s: string, i: nat): (found: bool)
    requires i <= |s|
    ensures found <==> exists j: nat :: i <= j <= |s| && (MatchesAt(s, NoData, j) || MatchesAt(s, FuturePrediction, j))
    decreases |s| - i
  {
    if MatchesAt(s, NoData, i) || MatchesAt(s, FuturePrediction, i) then true
    else if i == |s| then false
    else SearchFrom(s, i + 1)
  }

  /** For a phrase with a word character at both ends, `\b` on its outer sides is the simple test of `MatchesAt`. */
  lemma BoundedAtIffMatchesAt(s: string, phrase: string, i: nat)
    requires |phrase| > 0 && IsWordChar(phrase[0]) && IsWordChar(phrase[|phrase| - 1])
    ensures BoundedAt(s, phrase, i) <==> MatchesAt(s, phrase, i)
  {
    if OccursAt(s, phrase, i) {
      assert s[i] == s[i..i + |phrase|][0];
      assert s[i + |phrase| - 1] == s[i..i + |phrase|][|phrase| - 1];
    }
  }

  /** The scan from position 0 decides the regex search. */
  lemma FlaggedIffSearch(s: string)
    ensures Flagged(s) <==> SearchFrom(s, 0)
  {
    forall j: nat
      ensures BoundedAt(s, NoData, j) <==> MatchesAt(s, NoData, j)
      ensures BoundedAt(s, FuturePrediction, j) <==> MatchesAt(s, FuturePrediction, j)
    {
      BoundedAtIffMatchesAt(s, NoData, j);
      BoundedAtIffMatchesAt(s, FuturePrediction, j);
    }
  }

  /**
   * The output gate: the report fails, with the fixed message, exactly when its lower-cased
   * form matches one of the two phrases at word boundaries; otherwise it passes unchanged.
   */
  function OutputGuardrail(response: string): (r: Result<string>)
    ensures r.Err? <==> Flagged(Lower(response))
    ensures r.Ok? ==> r.value == response
    ensures r.Err? ==> r.msg == OutputRejected
  {
    FlaggedIffSearch(Lower(response));
    if SearchFrom(Lower(response), 0) then Err(OutputRejected) else Ok(response)
  }

  /** A string with no upper-case ASCII letter is its own lower-cased form. */
  lemma LowerOfLowercase(s: string)
    requires forall i :: 0 <= i < |s| ==> !('A' <= s[i] <= 'Z')
    ensures Lower(s) == s
  {
  }

  /** With no match at any start position, the scan finds nothing. */
  lemma NoMatchNoHit(s: string)
    requires forall j: nat :: j <= |s| ==> !MatchesAt(s, NoData, j) && !MatchesAt(s, FuturePrediction, j)
    ensures !SearchFrom(s, 0)
  {
  }

  /** A lower-case report in which neither phrase matches at any position passes unchanged. */
  lemma PassesWhenNoMatch(s: string)
    requires forall i :: 0 <= i < |s| ==> !('A' <= s[i] <= 'Z')
    requires forall j: nat :: j <= |s| ==> !MatchesAt(s, NoData, j) && !MatchesAt(s, FuturePrediction, j)
    ensures OutputGuardrail(s) == Ok(s)
  {
    LowerOfLowercase(s);
    NoMatchNoHit(s);
  }

  /** "No Data" in any case, standing as words, is rejected. */
  lemma RejectsNoData()
    ensures OutputGuardrail("No Data") == Err(OutputRejected)
  {
    var s := Lower("No Data");
    assert s[0] == 'n' && s[3] == 'd';
    assert s == NoData;
    assert BoundedAt(s, NoData, 0);
  }

  /** "no database" passes: the phrase is followed by a word character. */
  lemma AcceptsNoDatabase()
    ensures OutputGuardrail("no database") == Ok("no database")
  {
    var s := "no database";
    forall j: nat | j <= |s|
      ensures !MatchesAt(s, NoData, j) && !MatchesAt(s, FuturePrediction, j)
    {
      if OccursAt(s, NoData, j) {
        OccursAtChar(s, NoData, j, 0);
      }
    }
    PassesWhenNoMatch(s);
  }

  /** "futures prediction" passes: "future prediction" does not occur in it. */
  lemma AcceptsFuturesPrediction()
    ensures OutputGuardrail("futures prediction") == Ok("futures prediction")
  {
    var s := "futures prediction";
    forall j: nat | j <= |s|
      ensures !MatchesAt(s, NoData, j) && !MatchesAt(s, FuturePrediction, j)
    {
      if OccursAt(s, NoData, j) {
        OccursAtChar(s, NoData, j, 0);
      }
      if OccursAt(s, FuturePrediction, j) {
        OccursAtChar(s, FuturePrediction, j, 6);
      }
    }
    PassesWhenNoMatch(s);
  }

  /** "near-future predictions" holds no "no": "no data" matches nowhere in it. */
  lemma NearFutureLacksNoData(s: string)
    requires s == "near-future predictions"
    ensures forall j: nat :: j <= |s| ==> !MatchesAt(s, NoData, j)
  {
    forall j: nat | j <= |s| && OccursAt(s, NoData, j) ensures false {
      OccursAtChar(s, NoData, j, 0);
      OccursAtChar(s, NoData, j, 1);
    }
  }

  /** In "near-future predictions" the phrase "future prediction" is followed by a word character. */
  lemma NearFutureUnbounded(s: string)
    requires s == "near-future predictions"
    ensures forall j: nat :: j <= |s| ==> !MatchesAt(s, FuturePrediction, j)
  {
    forall j: nat | j <= |s| && OccursAt(s, FuturePrediction, j) ensures !MatchesAt(s, FuturePrediction, j) {
      OccursAtChar(s, FuturePrediction, j, 0);
    }
  }

  /** "near-future predictions" passes: the trailing `s` leaves no boundary after the phrase. */
  lemma AcceptsNearFuturePredictions()
    ensures OutputGuardrail("near-future predictions") == Ok("near-future predictions")
  {
    var s := "near-future predictions";
    NearFutureLacksNoData(s);
    NearFutureUnbounded(s);
    PassesWhenNoMatch(s);
  }
}
