/** `SentimentAnalyzer`: VADER scores of reviews, normalised to [0, 1],
    collected per place, and the places with the best average score. */
module Sentiment {
  import opened Wrappers
  import opened Stats
  import opened Ordering
  import opened Tables

  /** VADER's `polarity_scores(text)['compound']`; `None` when the analyzer
      raises. */
  type Polarity = string -> Option<real>

  /** The neutral score returned when a text cannot be scored. */
  const NEUTRAL: real := 0.5

  /** How many places `analyze_reviews` asks `get_top_places` for. */
  const ANALYZE_TOP: int := 3

  /** VADER's compound score lies in [-1, 1]. */
  ghost predicate CompoundInRange(polarity: Polarity) {
    forall text: string :: polarity(text).Some? ==> -1.0 <= polarity(text).value <= 1.0
  }

  /** `(compound + 1) / 2`: the affine map of [-1, 1] onto [0, 1]. */
  function Normalized(compound: real): (r: real)
    ensures 2.0 * r - 1.0 == compound
    ensures -1.0 <= compound <= 1.0 ==> 0.0 <= r <= 1.0
  {
    (compound + 1.0) / 2.0
  }

  /** The normalised score of `text`, when it is a string (`Some`) that the
      analyzer scores without raising. */
  function Analyze(polarity: Polarity, text: Option<string>): (r: Option<real>)
    ensures r.Some? <==> text.Some? && polarity(text.value).Some?
    ensures r.Some? ==> 2.0 * r.value - 1.0 == polarity(text.value).value
    ensures CompoundInRange(polarity) && r.Some? ==> 0.0 <= r.value <= 1.0
  {
    if text.None? then None
    else match polarity(text.value)
      case Some(compound) => Some(Normalized(compound))
      case None => None
  }

  /** What `predict_sentiment` returns: the score, or neutral. */
  function Predicted(polarity: Polarity, text: Option<string>): (r: real)
    ensures CompoundInRange(polarity) ==> 0.0 <= r <= 1.0
    ensures Analyze(polarity, text).None? ==> r == NEUTRAL
    ensures text.Some? && polarity(text.value).Some? ==> r == Normalized(polarity(text.value).value)
  {
    Analyze(polarity, text).GetOr(NEUTRAL)
  }

  /** Python truthiness of an optional string: present and non-empty. */
  predicate Truthy(name: Option<string>) {
    name.Some? && name.value != ""
  }

  // ---------------------------------------------------------------------
  // `defaultdict(list)` keyed by place, in insertion order

  datatype ScoreDict = ScoreDict(keys: seq<string>, lists: map<string, seq<real>>)

  const EMPTY: ScoreDict := ScoreDict([], map[])

  /** Keys are distinct and are exactly the keys of the map. */
  ghost predicate ValidDict(d: ScoreDict) {
    && (forall i, j :: 0 <= i < j < |d.keys| ==> d.keys[i] != d.keys[j])
    && (forall k :: k in d.lists <==> k in d.keys)
  }

  /** `d[k]` of a `defaultdict(list)`: the empty list for an absent key. */
  function ListOf(d: ScoreDict, k: string): seq<real> {
    if k in d.lists then d.lists[k] else []
  }

  /** `d[k].append(x)`: a new key goes to the end of the key order. */
  function Append(d: ScoreDict, k: string, x: real): (r: ScoreDict)
    ensures ListOf(r, k) == ListOf(d, k) + [x]
    ensures forall other :: other != k ==> ListOf(r, other) == ListOf(d, other)
    ensures ValidDict(d) ==> ValidDict(r)
    ensures ValidDict(d) ==> r.keys == if k in d.keys then d.keys else d.keys + [k]
  {
    ScoreDict(if k in d.lists then d.keys else d.keys + [k], d.lists[k := ListOf(d, k) + [x]])
  }

  /** Every list is non-empty and holds scores in [0, 1]: what the analyzer
      ever stores. */
  ghost predicate Tidy(d: ScoreDict) {
    forall k :: k in d.keys ==> ListOf(d, k) != [] && forall x :: x in ListOf(d, k) ==> 0.0 <= x <= 1.0
  }

  /** The dictionary after `predict_sentiment(text, place_name)`: the score
      is stored only when there is one and the place name is truthy. */
  function Recorded(polarity: Polarity, d: ScoreDict, text: Option<string>, placeName: Option<string>): ScoreDict {
    match Analyze(polarity, text)
    case Some(score) => if Truthy(placeName) then Append(d, placeName.value, score) else d
    case None => d
  }

  /** Does `analyze_reviews` score this row? Both cells must be truthy. */
  predicate Considered(row: Record) {
    row.place != "" && row.review != ""
  }

  /** `place_sentiments` after `analyze_reviews(rows)`: reset, then every
      considered row in order. */
  function ScoreRows(polarity: Polarity, rows: seq<Record>): ScoreDict {
    if rows == [] then EMPTY
    else
      var d := ScoreRows(polarity, rows[..|rows| - 1]);
      var row := rows[|rows| - 1];
      if Considered(row) then Recorded(polarity, d, Some(row.review), Some(row.place)) else d
  }

  /** An independent, per-place reading of the same rows: the scores of the
      considered rows about `place` that the analyzer can score. */
  function Contributions(polarity: Polarity, rows: seq<Record>, place: string): seq<real> {
    if rows == [] then []
    else
      var row := rows[0];
      var own := if Considered(row) && row.place == place then Analyze(polarity, Some(row.review)) else None;
      (if own.Some? then [own.value] else []) + Contributions(polarity, rows[1..], place)
  }

  // ---------------------------------------------------------------------
  // `get_top_places`

  datatype PlaceScore = PlaceScore(name: string, score: real)

  function ScoreOf(p: PlaceScore): real { p.score }

  function NameOf(p: PlaceScore): string { p.name }

  function NamesOf(ps: seq<PlaceScore>): set<string> {
    set p | p in ps :: p.name
  }

  /** `place_averages` built over `keys`: the mean of every non-empty list. */
  function Averages(d: ScoreDict, keys: seq<string>): seq<PlaceScore> {
    if keys == [] then []
    else
      var k := keys[|keys| - 1];
      Averages(d, keys[..|keys| - 1])
      + (if ListOf(d, k) != [] then [PlaceScore(k, Mean(ListOf(d, k)))] else [])
  }

  /** The selection loop over the sorted averages: skip a seen name, stop as
      soon as the result holds `n` places. */
  function TakeTop(rest: seq<PlaceScore>, acc: seq<PlaceScore>, n: int): seq<PlaceScore>
    decreases |rest|
  {
    if rest == [] then acc
    else if rest[0].name in NamesOf(acc) then TakeTop(rest[1..], acc, n)
    else if |acc| + 1 == n then acc + [rest[0]]
    else TakeTop(rest[1..], acc + [rest[0]], n)
  }

  /** What `get_top_places(places_dict, n)` returns. */
  function TopPlaces(d: ScoreDict, n: int): seq<PlaceScore> {
    TakeTop(SortDesc(Averages(d, d.keys), ScoreOf), [], n)
  }

  /** How many of `len` sorted places the selection keeps: `n` of them, or
      all when there are fewer, or when `n` is never reached (`n <= 0`). */
  function Limit(n: int, len: nat): (r: nat)
    ensures r <= len
    ensures 0 < n ==> r <= n
    ensures r < len ==> r == n
  {
    if n <= 0 || n > len then len else n
  }

  // ---------------------------------------------------------------------
  // The analyzer

  class SentimentAnalyzer {
    const polarity: Polarity
    var placeSentiments: ScoreDict

    ghost predicate Valid()
      reads this
    {
      CompoundInRange(polarity) && ValidDict(placeSentiments) && Tidy(placeSentiments)
    }

    constructor(polarity: Polarity)
      requires CompoundInRange(polarity)
      ensures Valid()
      ensures this.polarity == polarity && placeSentiments == EMPTY
    {
      this.polarity := polarity;
      placeSentiments := EMPTY;
    }

    /** `predict_sentiment(text, place_name)`; `text` is `None` when the
        argument is not a string. */
    method PredictSentiment(text: Option<string>, placeName: Option<string>) returns (score: real)
      requires Valid()
      modifies this
      ensures Valid()
      ensures score == Predicted(polarity, text)
      ensures placeSentiments == Recorded(polarity, old(placeSentiments), text, placeName)
    {
      if text.None? {
        return NEUTRAL;
      }
      var compound := polarity(text.value);
      if compound.None? {
        return NEUTRAL;
      }
      var normalized := Normalized(compound.value);
      if Truthy(placeName) {
        RecordedTidy(polarity, placeSentiments, text, placeName);
        placeSentiments := Append(placeSentiments, placeName.value, normalized);
      }
      score := normalized;
    }

    /** `get_top_places(places_dict, n)`: average every non-empty list, sort
        by average, highest first, and keep the first `n` distinct places. */
    method GetTopPlaces(placesDict: ScoreDict, n: int) returns (top: seq<PlaceScore>)
      ensures top == TopPlaces(placesDict, n)
    {
      var averages: seq<PlaceScore> := [];
      for i := 0 to |placesDict.keys|
        invariant averages == Averages(placesDict, placesDict.keys[..i])
      {
        var place := placesDict.keys[i];
        var scores := ListOf(placesDict, place);
        if scores != [] {
          averages := averages + [PlaceScore(place, Mean(scores))];
        }
        assert placesDict.keys[..i + 1][..i] == placesDict.keys[..i];
      }
      assert placesDict.keys[..|placesDict.keys|] == placesDict.keys;
      var sorted := SortDesc(averages, ScoreOf);
      top := [];
      var seen: set<string> := {};
      var i := 0;
      while i < |sorted|
        invariant i <= |sorted|
        invariant seen == NamesOf(top)
        invariant TakeTop(sorted[i..], top, n) == TakeTop(sorted, [], n)
      {
        var p := sorted[i];
        assert sorted[i..][1..] == sorted[i + 1..];
        if p.name !in seen {
          top := top + [p];
          seen := seen + {p.name};
          if |top| == n {
            break;
          }
        }
        i := i + 1;
      }
    }

    /** `reset_sentiments()` */
    method ResetSentiments()
      requires Valid()
      modifies this
      ensures Valid()
      ensures placeSentiments == EMPTY
    {
      placeSentiments := EMPTY;
    }

    /** `analyze_reviews(reviews_df)`: reset, score every row whose place
        and review are truthy, and return the top three places. */
    method AnalyzeReviews(rows: seq<Record>) returns (top: seq<PlaceScore>)
      requires Valid()
      modifies this
      ensures Valid()
      ensures placeSentiments == ScoreRows(polarity, rows)
      ensures top == TopPlaces(placeSentiments, ANALYZE_TOP)
    {
      ResetSentiments();
      for i := 0 to |rows|
        invariant Valid()
        invariant placeSentiments == ScoreRows(polarity, rows[..i])
      {
        var row := rows[i];
        if row.place != "" && row.review != "" {
          var _ := PredictSentiment(Some(row.review), Some(row.place));
        }
        assert rows[..i + 1][..i] == rows[..i];
      }
      assert rows[..|rows|] == rows;
      top := GetTopPlaces(placeSentiments, ANALYZE_TOP);
    }
  }

  // ---------------------------------------------------------------------
  // What is stored

  /** Storing a score keeps the dictionary valid and tidy. */
  lemma RecordedTidy(polarity: Polarity, d: ScoreDict, text: Option<string>, placeName: Option<string>)
    requires CompoundInRange(polarity) && ValidDict(d) && Tidy(d)
    ensures ValidDict(Recorded(polarity, d, text, placeName))
    ensures Tidy(Recorded(polarity, d, text, placeName))
  {
    var r := Recorded(polarity, d, text, placeName);
    if Analyze(polarity, text).Some? && Truthy(placeName) {
      var k := placeName.value;
      var s := Analyze(polarity, text).value;
      forall key | key in r.keys
        ensures ListOf(r, key) != [] && forall x :: x in ListOf(r, key) ==> 0.0 <= x <= 1.0
      {
        if key != k {
          assert key in d.keys;
        }
      }
    }
  }

  lemma {:induction false} ScoreRowsTidy(polarity: Polarity, rows: seq<Record>)
    requires CompoundInRange(polarity)
    ensures ValidDict(ScoreRows(polarity, rows)) && Tidy(ScoreRows(polarity, rows))
  {
    if rows != [] {
      var row := rows[|rows| - 1];
      ScoreRowsTidy(polarity, rows[..|rows| - 1]);
      RecordedTidy(polarity, ScoreRows(polarity, rows[..|rows| - 1]), Some(row.review), Some(row.place));
    }
  }

  lemma {:induction false} ContributionsAppend(polarity: Polarity, rows: seq<Record>, row: Record, place: string)
    ensures Contributions(polarity, rows + [row], place)
      == Contributions(polarity, rows, place) + Contributions(polarity, [row], place)
  {
    if rows != [] {
      ContributionsAppend(polarity, rows[1..], row, place);
      assert (rows + [row])[1..] == rows[1..] + [row];
    }
  }

  /** The score list the analyzer holds for a place is exactly that place's
      contributions, in row order. */
  lemma {:induction false} ScoreRowsLists(polarity: Polarity, rows: seq<Record>, place: string)
    ensures ListOf(ScoreRows(polarity, rows), place) == Contributions(polarity, rows, place)
  {
    if rows != [] {
      var init := rows[..|rows| - 1];
      var row := rows[|rows| - 1];
      ScoreRowsLists(polarity, init, place);
      ContributionsAppend(polarity, init, row, place);
      assert init + [row] == rows;
    }
  }

  /** A place is a key exactly when at least one of its rows was scored. */
  lemma ScoreRowsKeys(polarity: Polarity, rows: seq<Record>, place: string)
    requires CompoundInRange(polarity)
    ensures place in ScoreRows(polarity, rows).keys <==> Contributions(polarity, rows, place) != []
  {
    ScoreRowsTidy(polarity, rows);
    ScoreRowsLists(polarity, rows, place);
  }

  // ---------------------------------------------------------------------
  // What `get_top_places` returns

  lemma {:induction false} AveragesMembers(d: ScoreDict, keys: seq<string>)
    ensures forall p :: p in Averages(d, keys) <==>
      p.name in keys && ListOf(d, p.name) != [] && p.score == Mean(ListOf(d, p.name))
  {
    if keys != [] {
      var init := keys[..|keys| - 1];
      AveragesMembers(d, init);
      assert keys == init + [keys[|keys| - 1]];
    }
  }

  lemma {:induction false} AveragesDistinct(d: ScoreDict, keys: seq<string>)
    requires forall i, j :: 0 <= i < j < |keys| ==> keys[i] != keys[j]
    ensures DistinctBy(Averages(d, keys), NameOf)
  {
    if keys != [] {
      var init := keys[..|keys| - 1];
      var k := keys[|keys| - 1];
      AveragesDistinct(d, init);
      AveragesMembers(d, init);
      var prev := Averages(d, init);
      forall i | 0 <= i < |prev| ensures prev[i].name != k {
        assert prev[i] in prev;
      }
    }
  }

  /** With distinct names, the selection keeps a prefix of what is left. */
  lemma {:induction false} TakeTopPrefix(rest: seq<PlaceScore>, acc: seq<PlaceScore>, n: int)
    requires DistinctBy(rest, NameOf)
    requires forall p :: p in rest ==> p.name !in NamesOf(acc)
    requires n <= 0 || |acc| < n
    ensures TakeTop(rest, acc, n) == acc + rest[..Limit(n - |acc|, |rest|)]
  {
    if rest != [] {
      var p := rest[0];
      assert p in rest;
      if |acc| + 1 != n {
        var acc' := acc + [p];
        DistinctHead(rest, NameOf);
        assert NamesOf(acc') == NamesOf(acc) + {p.name};
        TakeTopPrefix(rest[1..], acc', n);
        ConsPrefix(acc, rest, Limit(n - |acc|, |rest|));
      }
    }
  }

  /** `get_top_places` returns the first `Limit(n, …)` entries of the
      averages sorted best first. */
  lemma TopPlacesPrefix(d: ScoreDict, n: int)
    requires ValidDict(d)
    ensures var sorted := SortDesc(Averages(d, d.keys), ScoreOf);
      TopPlaces(d, n) == sorted[..Limit(n, |sorted|)]
  {
    var sorted := SortDesc(Averages(d, d.keys), ScoreOf);
    AveragesDistinct(d, d.keys);
    SortDescDistinct(Averages(d, d.keys), ScoreOf, NameOf);
    assert NamesOf([]) == {};
    TakeTopPrefix(sorted, [], n);
    assert [] + sorted[..Limit(n, |sorted|)] == sorted[..Limit(n, |sorted|)];
  }

  /** The result of `get_top_places`: at most `n` places when `n` is
      positive, every place otherwise; distinct names; scores never
      increasing; every entry a place with a non-empty list together with
      the mean of that list. */
  lemma TopPlacesSpec(d: ScoreDict, n: int)
    requires ValidDict(d)
    ensures var r := TopPlaces(d, n);
      var all := Averages(d, d.keys);
      && |r| == Limit(n, |all|)
      && (n <= 0 ==> multiset(r) == multiset(all))
      && DistinctBy(r, NameOf)
      && NonIncreasing(r, ScoreOf)
      && (forall p :: p in r ==>
            p.name in d.keys && ListOf(d, p.name) != [] && p.score == Mean(ListOf(d, p.name)))
  {
    var all := Averages(d, d.keys);
    var sorted := SortDesc(all, ScoreOf);
    var k := Limit(n, |sorted|);
    TopPlacesPrefix(d, n);
    SortDescSpec(all, ScoreOf);
    AveragesDistinct(d, d.keys);
    SortDescDistinct(all, ScoreOf, NameOf);
    PrefixKeeps(sorted, k);
    SortDescMembers(all, ScoreOf);
    AveragesMembers(d, d.keys);
    if n <= 0 {
      assert sorted[..k] == sorted;
    }
  }

  /** A prefix of a sorted, name-distinct ranking is one too. */
  lemma PrefixKeeps(s: seq<PlaceScore>, k: nat)
    requires k <= |s| && DistinctBy(s, NameOf) && NonIncreasing(s, ScoreOf)
    ensures DistinctBy(s[..k], NameOf) && NonIncreasing(s[..k], ScoreOf)
    ensures forall p :: p in s[..k] ==> p in s
  {
  }

  /** Nothing left out scores better: a place with scores that is not
      returned only misses the cut because `n` places were already kept,
      each scoring at least as well. */
  lemma TopPlacesComplete(d: ScoreDict, n: int, p: PlaceScore)
    requires ValidDict(d)
    requires p in Averages(d, d.keys) && p !in TopPlaces(d, n)
    ensures |TopPlaces(d, n)| == n
    ensures forall q :: q in TopPlaces(d, n) ==> q.score >= p.score
  {
    var all := Averages(d, d.keys);
    var sorted := SortDesc(all, ScoreOf);
    var k := Limit(n, |sorted|);
    TopPlacesPrefix(d, n);
    SortDescMembers(all, ScoreOf);
    SortDescOrdered(all, ScoreOf);
    var j :| 0 <= j < |sorted| && sorted[j] == p;
    InPrefix(sorted, k, j);
    PrefixAtLeast(sorted, ScoreOf, k, j);
  }

  /** Ties keep the order in which places were first stored. */
  lemma TopPlacesStable(d: ScoreDict, n: int, v: real)
    requires ValidDict(d)
    ensures WithKey(TopPlaces(d, n), ScoreOf, v) <= WithKey(Averages(d, d.keys), ScoreOf, v)
  {
    var all := Averages(d, d.keys);
    var sorted := SortDesc(all, ScoreOf);
    TopPlacesPrefix(d, n);
    SortDescSpec(all, ScoreOf);
    WithKeyOfPrefix(sorted, Limit(n, |sorted|), ScoreOf, v);
  }

  /** Averages of stored scores stay in [0, 1]. */
  lemma TopPlacesInUnit(d: ScoreDict, n: int)
    requires ValidDict(d) && Tidy(d)
    ensures forall p :: p in TopPlaces(d, n) ==> 0.0 <= p.score <= 1.0
  {
    TopPlacesSpec(d, n);
    forall p | p in TopPlaces(d, n) ensures 0.0 <= p.score <= 1.0 {
      var s := ListOf(d, p.name);
      assert forall i :: 0 <= i < |s| ==> s[i] in s;
      MeanBounds(s, 0.0, 1.0);
    }
  }
}
