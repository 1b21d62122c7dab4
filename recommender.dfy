/** `TourismRecommender`: cleaned review tables for dining spots and tourist
    spots, reduced to the rows of their top places, stamped with those
    places' sentiment scores, and ranked per searched location. */
module Recommender {
  import opened Wrappers
  import opened Text
  import opened Stats
  import opened Ordering
  import opened Tables
  import opened Schema
  import opened Sentiment

  const DINING: string := "dining"
  const SPOT: string := "spot"

  /** A row of a processed table: the three canonical cells and the stamped
      `sentiment_score`. */
  datatype ScoredRecord = ScoredRecord(place: string, location: string, review: string, score: real)

  /** `_process_dataframe`'s result; `category` is the `type` column. */
  datatype ProcessedTable = ProcessedTable(rows: seq<ScoredRecord>, category: string)

  /** One entry of `_get_top_recommendations`' result. */
  datatype Candidate = Candidate(name: string, location: string, score: real, review: string)

  /** One entry of `format_recommendations`' result. */
  datatype Recommendation = Recommendation(name: string, location: string, score: real, rating: real, sampleReview: string)

  /** The rows of a raw table once it is normalised. */
  function CleanRecords(t: Table): (rs: seq<Record>)
    requires WellFormed(t) && Normalize(t).Success?
    ensures |rs| == t.nrows
    ensures forall i :: 0 <= i < |rs| ==> LowerStrip(rs[i].location) == rs[i].location
  {
    NormalizeClean(t);
    Records(Normalize(t).value)
  }

  /** Record `i` carries row `i`'s cleaned `Place`, `Location` and `Review`
      cells, each read from the column that cleaning resolved for it: the
      relabelled column, or the fallback's copy. */
  lemma CleanRecordsCells(t: Table)
    requires WellFormed(t) && Normalize(t).Success?
    ensures Resolvable(Mapped(t).columns, PLACE)
    ensures Resolvable(Mapped(t).columns, LOCATION)
    ensures Resolvable(Mapped(t).columns, REVIEW)
    ensures var rs := CleanRecords(t);
      && |SourceCells(Mapped(t).columns, PLACE)| == |rs|
      && |SourceCells(Mapped(t).columns, LOCATION)| == |rs|
      && |SourceCells(Mapped(t).columns, REVIEW)| == |rs|
      && forall i :: 0 <= i < |rs| ==>
        && rs[i].place == CleanedCell(PLACE, SourceCells(Mapped(t).columns, PLACE)[i])
        && rs[i].location == CleanedCell(LOCATION, SourceCells(Mapped(t).columns, LOCATION)[i])
        && rs[i].review == CleanedCell(REVIEW, SourceCells(Mapped(t).columns, REVIEW)[i])
  {
    NormalizeClean(t);
    NormalizeCells(t, PLACE);
    NormalizeCells(t, LOCATION);
    NormalizeCells(t, REVIEW);
  }

  // ---------------------------------------------------------------------
  // `_process_dataframe`

  /** `df[df['Place'].isin(names)]` */
  function Kept(records: seq<Record>, names: set<string>): (r: seq<Record>)
    ensures forall x :: x in r <==> x in records && x.place in names
  {
    if records == [] then []
    else (if records[0].place in names then [records[0]] else []) + Kept(records[1..], names)
  }

  /** Filtering keeps the order and the multiplicity of the kept rows. */
  lemma {:induction false} KeptAppend(a: seq<Record>, b: seq<Record>, names: set<string>)
    ensures Kept(a + b, names) == Kept(a, names) + Kept(b, names)
    ensures |a| == 1 ==> Kept(a, names) == if a[0].place in names then a else []
  {
    if a == [] {
      assert a + b == b;
    } else {
      var head := if a[0].place in names then [a[0]] else [];
      assert (a + b)[0] == a[0] && (a + b)[1..] == a[1..] + b;
      assert Kept(a + b, names) == head + Kept(a[1..] + b, names);
      KeptAppend(a[1..], b, names);
      assert Kept(a, names) == head + Kept(a[1..], names);
      ConcatAssoc(head, Kept(a[1..], names), Kept(b, names));
    }
  }

  /** The score the stamping loop leaves on a row about `place`: that of the
      last top entry with this name. */
  function ScoreFor(top: seq<PlaceScore>, place: string): (r: Option<real>)
    ensures r.Some? <==> place in NamesOf(top)
  {
    if top == [] then None
    else if top[|top| - 1].name == place then Some(top[|top| - 1].score)
    else
      assert top == top[..|top| - 1] + [top[|top| - 1]];
      ScoreFor(top[..|top| - 1], place)
  }

  lemma ScoreForSnoc(top: seq<PlaceScore>, p: PlaceScore)
    ensures forall place :: ScoreFor(top + [p], place) == if p.name == place then Some(p.score) else ScoreFor(top, place)
  {
    assert (top + [p])[..|top|] == top;
  }

  /** The stamping loop of `_process_dataframe`: for each top place in
      turn, write its score on the rows about it. */
  method StampRows(filtered: seq<Record>, topPlaces: seq<PlaceScore>) returns (rows: seq<ScoredRecord>)
    requires forall x :: x in filtered ==> x.place in NamesOf(topPlaces)
    ensures rows == Stamp(filtered, topPlaces)
  {
    var stamps: seq<Option<real>> := seq(|filtered|, i => None);
    for j := 0 to |topPlaces|
      invariant |stamps| == |filtered|
      invariant forall i :: 0 <= i < |filtered| ==> stamps[i] == ScoreFor(topPlaces[..j], filtered[i].place)
    {
      var place := topPlaces[j];
      ScoreForSnoc(topPlaces[..j], place);
      assert topPlaces[..j + 1] == topPlaces[..j] + [place];
      stamps := seq(|filtered|, i requires 0 <= i < |filtered| =>
        if filtered[i].place == place.name then Some(place.score) else stamps[i]);
    }
    assert topPlaces[..|topPlaces|] == topPlaces;
    forall i | 0 <= i < |filtered| ensures stamps[i] == ScoreFor(topPlaces, filtered[i].place) && stamps[i].Some? {
      assert filtered[i] in filtered;
    }
    rows := seq(|filtered|, i requires 0 <= i < |filtered| =>
      ScoredRecord(filtered[i].place, filtered[i].location, filtered[i].review, stamps[i].value));
  }

  function Stamp(records: seq<Record>, top: seq<PlaceScore>): seq<ScoredRecord>
    requires forall x :: x in records ==> x.place in NamesOf(top)
  {
    seq(|records|, i requires 0 <= i < |records| =>
      assert records[i] in records;
      ScoredRecord(records[i].place, records[i].location, records[i].review, ScoreFor(top, records[i].place).value))
  }

  /** What `_process_dataframe(df, category)` returns: the rows about the
      analyzer's top places, each with its place's average score. */
  function ProcessedOf(polarity: Polarity, records: seq<Record>, category: string): ProcessedTable {
    var top := TopPlaces(ScoreRows(polarity, records), ANALYZE_TOP);
    ProcessedTable(Stamp(Kept(records, NamesOf(top)), top), category)
  }

  // ---------------------------------------------------------------------
  // `_get_top_recommendations`

  function PlacesIn(rows: seq<ScoredRecord>): set<string> {
    set r | r in rows :: r.place
  }

  function PlaceOf(r: ScoredRecord): string { r.place }
  function LocationOf(r: ScoredRecord): string { r.location }

  /** The rows whose `key` column holds `value`, in order: one
      `groupby('Place')` group with `PlaceOf`, and
      `df[df['Location'] == location]` with `LocationOf`. */
  function Where(rows: seq<ScoredRecord>, key: ScoredRecord -> string, value: string): (r: seq<ScoredRecord>)
    ensures forall x :: x in r <==> x in rows && key(x) == value
  {
    if rows == [] then []
    else (if key(rows[0]) == value then [rows[0]] else []) + Where(rows[1..], key, value)
  }

  /** Selecting keeps the order and the multiplicity of the selected rows,
      which decide a group's first row and the scores its mean counts. */
  lemma {:induction false} WhereAppend(a: seq<ScoredRecord>, b: seq<ScoredRecord>, key: ScoredRecord -> string, value: string)
    ensures Where(a + b, key, value) == Where(a, key, value) + Where(b, key, value)
    ensures |a| == 1 ==> Where(a, key, value) == if key(a[0]) == value then a else []
  {
    if a == [] {
      assert a + b == b;
    } else {
      var head := if key(a[0]) == value then [a[0]] else [];
      assert (a + b)[0] == a[0] && (a + b)[1..] == a[1..] + b;
      assert Where(a + b, key, value) == head + Where(a[1..] + b, key, value);
      WhereAppend(a[1..], b, key, value);
      assert Where(a, key, value) == head + Where(a[1..], key, value);
      ConcatAssoc(head, Where(a[1..], key, value), Where(b, key, value));
    }
  }

  function ScoresOf(rows: seq<ScoredRecord>): (r: seq<real>)
    ensures |r| == |rows|
    ensures forall i :: 0 <= i < |rows| ==> r[i] == rows[i].score
  {
    seq(|rows|, i requires 0 <= i < |rows| => rows[i].score)
  }

  /** The group keys, each once, in order of first appearance. */
  function PlaceOrder(rows: seq<ScoredRecord>): (r: seq<string>)
    ensures forall p :: p in r <==> p in PlacesIn(rows)
    ensures forall i, j :: 0 <= i < j < |r| ==> r[i] != r[j]
  {
    if rows == [] then []
    else
      var init := rows[..|rows| - 1];
      var last := rows[|rows| - 1];
      var prev := PlaceOrder(init);
      assert rows == init + [last];
      if last.place in prev then prev else prev + [last.place]
  }

  /** One row of `groupby('Place').agg(...)`: the mean score of the group,
      and the location and review of its first row. */
  function GroupOf(rows: seq<ScoredRecord>, place: string): (c: Candidate)
    requires place in PlacesIn(rows)
    ensures c.name == place
  {
    var rs := Where(rows, PlaceOf, place);
    assert rs != [] by {
      var r :| r in rows && r.place == place;
      assert r in rs;
    }
    Candidate(place, rs[0].location, Mean(ScoresOf(rs)), rs[0].review)
  }

  function Groups(rows: seq<ScoredRecord>): seq<Candidate> {
    var order := PlaceOrder(rows);
    seq(|order|, i requires 0 <= i < |order| => assert order[i] in order; GroupOf(rows, order[i]))
  }

  function CandidateScore(c: Candidate): real { c.score }

  function CandidateName(c: Candidate): string { c.name }

  function CandidateNames(cs: seq<Candidate>): set<string> {
    set c | c in cs :: c.name
  }

  /** The first loop: skip a seen place; append, and stop once the result
      holds `topN` entries (checked after appending). */
  function PickRanked(rest: seq<Candidate>, acc: seq<Candidate>, topN: int): seq<Candidate>
    decreases |rest|
  {
    if rest == [] then acc
    else if rest[0].name in CandidateNames(acc) then PickRanked(rest[1..], acc, topN)
    else if |acc| + 1 >= topN then acc + [rest[0]]
    else PickRanked(rest[1..], acc + [rest[0]], topN)
  }

  /** `df[~df['Place'].isin(seen)]` */
  function Unseen(rows: seq<ScoredRecord>, seen: set<string>): (r: seq<ScoredRecord>)
    ensures forall x :: x in r <==> x in rows && x.place !in seen
  {
    if rows == [] then []
    else (if rows[0].place !in seen then [rows[0]] else []) + Unseen(rows[1..], seen)
  }

  /** `drop_duplicates('Place')`: the first row of every place. */
  function FirstPerPlace(rows: seq<ScoredRecord>): seq<ScoredRecord> {
    if rows == [] then []
    else
      var init := rows[..|rows| - 1];
      var last := rows[|rows| - 1];
      FirstPerPlace(init) + (if last.place in PlacesIn(init) then [] else [last])
  }

  /** The back-fill loop: stop once `topN` entries are there; a row brings
      its own score. */
  function BackFill(rest: seq<ScoredRecord>, acc: seq<Candidate>, topN: int): seq<Candidate>
    decreases |rest|
  {
    if rest == [] || |acc| >= topN then acc
    else BackFill(rest[1..], acc + [Candidate(rest[0].place, rest[0].location, rest[0].score, rest[0].review)], topN)
  }

  /** Python's `s[:n]`, a negative `n` counting from the end. */
  function PySlice<T>(s: seq<T>, n: int): (r: seq<T>)
    ensures r <= s
    ensures 0 <= n ==> |r| == if n < |s| then n else |s|
    ensures n < 0 ==> |r| == if |s| + n < 0 then 0 else |s| + n
  {
    if 0 <= n then (if n < |s| then s[..n] else s)
    else if |s| + n < 0 then [] else s[..|s| + n]
  }

  /** What `_get_top_recommendations(df, top_n)` returns. */
  function Ranked(rows: seq<ScoredRecord>, topN: int): seq<Candidate> {
    var sorted := SortDesc(Groups(rows), CandidateScore);
    var picked := PickRanked(sorted, [], topN);
    var filled :=
      if |picked| < topN then BackFill(FirstPerPlace(Unseen(rows, CandidateNames(picked))), picked, topN)
      else picked;
    PySlice(filled, topN)
  }

  /** `_get_top_recommendations(df, top_n)`, loop by loop. */
  method TopRecommendations(df: seq<ScoredRecord>, topN: int) returns (recommendations: seq<Candidate>)
    ensures recommendations == Ranked(df, topN)
  {
    var placeGroups := SortDesc(Groups(df), CandidateScore);
    recommendations := [];
    var seen: set<string> := {};
    var i := 0;
    while i < |placeGroups|
      invariant i <= |placeGroups|
      invariant seen == CandidateNames(recommendations)
      invariant PickRanked(placeGroups[i..], recommendations, topN) == PickRanked(placeGroups, [], topN)
    {
      var row := placeGroups[i];
      assert placeGroups[i..][1..] == placeGroups[i + 1..];
      if row.name in seen {
        i := i + 1;
        continue;
      }
      recommendations := recommendations + [row];
      seen := seen + {row.name};
      if |recommendations| >= topN {
        break;
      }
      i := i + 1;
    }
    ghost var picked := recommendations;
    if |recommendations| < topN {
      var remaining := FirstPerPlace(Unseen(df, seen));
      var j := 0;
      while j < |remaining|
        invariant j <= |remaining|
        invariant BackFill(remaining[j..], recommendations, topN) == BackFill(remaining, picked, topN)
      {
        if |recommendations| >= topN {
          break;
        }
        var row := remaining[j];
        assert remaining[j..][1..] == remaining[j + 1..];
        recommendations := recommendations + [Candidate(row.place, row.location, row.score, row.review)];
        seen := seen + {row.place};
        j := j + 1;
      }
    }
    recommendations := PySlice(recommendations, topN);
  }

  // ---------------------------------------------------------------------
  // `format_recommendations` and `_sentiment_to_rating`

  /** `1 + 4 * score`: [0, 1] onto the five-star scale [1, 5]. */
  function SentimentToRating(score: real): (rating: real)
    ensures (rating - 1.0) / 4.0 == score
    ensures 0.0 <= score <= 1.0 ==> 1.0 <= rating <= 5.0
  {
    1.0 + score * 4.0
  }

  /** The API shape of a list of candidates. */
  function FormatRecommendations(recs: seq<Candidate>): (out: seq<Recommendation>)
    ensures |out| == |recs|
  {
    seq(|recs|, i requires 0 <= i < |recs| =>
      Recommendation(recs[i].name, Title(recs[i].location), recs[i].score,
                     SentimentToRating(recs[i].score), recs[i].review))
  }

  // ---------------------------------------------------------------------
  // The recommender

  ghost predicate ScoresInUnit(rows: seq<ScoredRecord>) {
    forall r :: r in rows ==> 0.0 <= r.score <= 1.0
  }

  class TourismRecommender {
    var diningDf: ProcessedTable
    var spotsDf: ProcessedTable
    const sentimentAnalyzer: SentimentAnalyzer

    ghost predicate Valid()
      reads this, sentimentAnalyzer
    {
      && sentimentAnalyzer.Valid()
      && diningDf.category == DINING && ScoresInUnit(diningDf.rows)
      && spotsDf.category == SPOT && ScoresInUnit(spotsDf.rows)
    }

    /** The part of `__init__` after cleaning: process the dining table,
        then the spots table, with the shared analyzer. */
    constructor(dining: seq<Record>, spots: seq<Record>, analyzer: SentimentAnalyzer)
      requires analyzer.Valid()
      modifies analyzer
      ensures Valid() && sentimentAnalyzer == analyzer
      ensures diningDf == ProcessedOf(analyzer.polarity, dining, DINING)
      ensures spotsDf == ProcessedOf(analyzer.polarity, spots, SPOT)
      ensures analyzer.placeSentiments == ScoreRows(analyzer.polarity, spots)
    {
      sentimentAnalyzer := analyzer;
      new;
      diningDf := ProcessDataframe(dining, DINING);
      spotsDf := ProcessDataframe(spots, SPOT);
      ProcessedInUnit(analyzer.polarity, dining, DINING);
      ProcessedInUnit(analyzer.polarity, spots, SPOT);
    }

    /** `TourismRecommender(dining_df, spots_df, sentiment_analyzer)`:
        clean the dining table, then the spots table, raising the first
        cleaning error; then process both. */
    static method Create(diningRaw: Table, spotsRaw: Table, analyzer: SentimentAnalyzer)
      returns (r: Result<TourismRecommender, SchemaError>)
      requires WellFormed(diningRaw) && WellFormed(spotsRaw) && analyzer.Valid()
      modifies analyzer
      ensures Normalize(diningRaw).Failure? ==> r == Failure(Normalize(diningRaw).error)
      ensures Normalize(diningRaw).Success? && Normalize(spotsRaw).Failure? ==> r == Failure(Normalize(spotsRaw).error)
      ensures r.Failure? ==> analyzer.placeSentiments == old(analyzer.placeSentiments)
      ensures analyzer.Valid()
      ensures Normalize(diningRaw).Success? && Normalize(spotsRaw).Success? ==>
        && r.Success? && fresh(r.value) && r.value.Valid()
        && r.value.sentimentAnalyzer == analyzer
        && r.value.diningDf == ProcessedOf(analyzer.polarity, CleanRecords(diningRaw), DINING)
        && r.value.spotsDf == ProcessedOf(analyzer.polarity, CleanRecords(spotsRaw), SPOT)
        && analyzer.placeSentiments == ScoreRows(analyzer.polarity, CleanRecords(spotsRaw))
    {
      var dining := CleanDataframe(diningRaw);
      if dining.Failure? {
        return Failure(dining.error);
      }
      var spots := CleanDataframe(spotsRaw);
      if spots.Failure? {
        return Failure(spots.error);
      }
      NormalizeClean(diningRaw);
      NormalizeClean(spotsRaw);
      var recommender := new TourismRecommender(Records(dining.value), Records(spots.value), analyzer);
      r := Success(recommender);
    }

    /** `_process_dataframe(df, category)`: score the reviews, keep the rows
        of the top places and stamp each place's score on its rows. */
    method ProcessDataframe(records: seq<Record>, category: string) returns (processed: ProcessedTable)
      requires sentimentAnalyzer.Valid()
      modifies sentimentAnalyzer
      ensures sentimentAnalyzer.Valid()
      ensures sentimentAnalyzer.placeSentiments == ScoreRows(sentimentAnalyzer.polarity, records)
      ensures processed == ProcessedOf(sentimentAnalyzer.polarity, records, category)
    {
      var topPlaces := sentimentAnalyzer.AnalyzeReviews(records);
      var filtered := Kept(records, NamesOf(topPlaces));
      var rows := StampRows(filtered, topPlaces);
      processed := ProcessedTable(rows, category);
    }

    /** `get_recommendations(search_location, top_n)`: the ranked tourist
        spots and dining spots at the lower-cased, stripped location. */
    method GetRecommendations(searchLocation: string, topN: int)
      returns (touristPlaces: seq<Candidate>, diningSpots: seq<Candidate>)
      requires Valid()
      ensures touristPlaces == Ranked(Where(spotsDf.rows, LocationOf, LowerStrip(searchLocation)), topN)
      ensures diningSpots == Ranked(Where(diningDf.rows, LocationOf, LowerStrip(searchLocation)), topN)
      ensures forall c :: c in touristPlaces + diningSpots ==>
        c.location == LowerStrip(searchLocation) && 0.0 <= c.score <= 1.0
    {
      var location := LowerStrip(searchLocation);
      var touristPlacesDf := Where(spotsDf.rows, LocationOf, location);
      var diningSpotsDf := Where(diningDf.rows, LocationOf, location);
      touristPlaces := TopRecommendations(touristPlacesDf, topN);
      diningSpots := TopRecommendations(diningSpotsDf, topN);
      RankedAtLocation(spotsDf.rows, location, topN);
      RankedAtLocation(diningDf.rows, location, topN);
    }
  }

  // ---------------------------------------------------------------------
  // What processing keeps

  lemma {:induction false} ScoreForDistinct(top: seq<PlaceScore>, p: PlaceScore)
    requires DistinctBy(top, NameOf) && p in top
    ensures ScoreFor(top, p.name) == Some(p.score)
  {
    var init := top[..|top| - 1];
    if top[|top| - 1] != p {
      assert p in init;
      assert top[|top| - 1].name != p.name;
      ScoreForDistinct(init, p);
    }
  }

  /** The processed rows are exactly the records about one of the top three
      places, in their order, each stamped with the mean of its place's
      stored scores. */
  lemma ProcessedSpec(polarity: Polarity, records: seq<Record>, category: string)
    ensures var d := ScoreRows(polarity, records);
      var top := TopPlaces(d, ANALYZE_TOP);
      var out := ProcessedOf(polarity, records, category);
      && out.category == category
      && |out.rows| == |Kept(records, NamesOf(top))|
      && (forall i :: 0 <= i < |out.rows| ==>
            var rec := Kept(records, NamesOf(top))[i];
            out.rows[i].place == rec.place && out.rows[i].location == rec.location
            && out.rows[i].review == rec.review)
      && (forall r :: r in out.rows ==> ListOf(d, r.place) != [] && r.score == Mean(ListOf(d, r.place)))
  {
    var d := ScoreRows(polarity, records);
    var top := TopPlaces(d, ANALYZE_TOP);
    var kept := Kept(records, NamesOf(top));
    var out := ProcessedOf(polarity, records, category);
    ScoreRowsValid(polarity, records);
    TopPlacesSpec(d, ANALYZE_TOP);
    forall r | r in out.rows ensures ListOf(d, r.place) != [] && r.score == Mean(ListOf(d, r.place)) {
      var i :| 0 <= i < |out.rows| && out.rows[i] == r;
      assert kept[i] in kept;
      var p :| p in top && p.name == r.place;
      ScoreForDistinct(top, p);
    }
  }

  /** Keys stay distinct whatever the analyzer. */
  lemma {:induction false} ScoreRowsValid(polarity: Polarity, records: seq<Record>)
    ensures ValidDict(ScoreRows(polarity, records))
  {
    if records != [] {
      ScoreRowsValid(polarity, records[..|records| - 1]);
    }
  }

  /** A record stays exactly when its place is one of the top three. */
  lemma ProcessedKeeps(polarity: Polarity, records: seq<Record>, category: string, rec: Record)
    requires rec in records
    ensures var top := TopPlaces(ScoreRows(polarity, records), ANALYZE_TOP);
      (exists r :: r in ProcessedOf(polarity, records, category).rows && r.place == rec.place && r.location == rec.location && r.review == rec.review)
      <==> rec.place in NamesOf(top)
  {
    var top := TopPlaces(ScoreRows(polarity, records), ANALYZE_TOP);
    var kept := Kept(records, NamesOf(top));
    var out := ProcessedOf(polarity, records, category);
    ProcessedSpec(polarity, records, category);
    if rec.place in NamesOf(top) {
      var i :| 0 <= i < |kept| && kept[i] == rec;
      assert out.rows[i] in out.rows;
    } else {
      forall r | r in out.rows ensures !(r.place == rec.place) {
        var i :| 0 <= i < |out.rows| && out.rows[i] == r;
        assert kept[i] in kept;
      }
    }
  }

  /** The places of a processed table are among the analyzer's top
      places, of which there are at most three. */
  lemma ProcessedPlaces(polarity: Polarity, records: seq<Record>, category: string)
    ensures var top := TopPlaces(ScoreRows(polarity, records), ANALYZE_TOP);
      && PlacesIn(ProcessedOf(polarity, records, category).rows) <= NamesOf(top)
      && |NamesOf(top)| <= ANALYZE_TOP
  {
    var d := ScoreRows(polarity, records);
    var top := TopPlaces(d, ANALYZE_TOP);
    var kept := Kept(records, NamesOf(top));
    var out := ProcessedOf(polarity, records, category);
    ProcessedSpec(polarity, records, category);
    forall p | p in PlacesIn(out.rows) ensures p in NamesOf(top) {
      var r :| r in out.rows && r.place == p;
      var i :| 0 <= i < |out.rows| && out.rows[i] == r;
      assert kept[i] in kept;
    }
    ScoreRowsValid(polarity, records);
    TopPlacesSpec(d, ANALYZE_TOP);
    NamesOfSize(top);
  }

  /** A location of a processed table offers at most three places. */
  lemma PlacesAtLocation(polarity: Polarity, records: seq<Record>, category: string, location: string)
    ensures |PlacesIn(Where(ProcessedOf(polarity, records, category).rows, LocationOf, location))| <= ANALYZE_TOP
  {
    var top := TopPlaces(ScoreRows(polarity, records), ANALYZE_TOP);
    var rows := ProcessedOf(polarity, records, category).rows;
    var here := PlacesIn(Where(rows, LocationOf, location));
    ProcessedPlaces(polarity, records, category);
    assert here <= PlacesIn(rows);
    SubsetSize(here, NamesOf(top));
  }

  lemma SubsetSize<T>(a: set<T>, b: set<T>)
    requires a <= b
    ensures |a| <= |b|
  {
    assert b == a + (b - a);
  }

  /** A sequence of places names at most as many places as it is long. */
  lemma {:induction false} NamesOfSize(ps: seq<PlaceScore>)
    ensures |NamesOf(ps)| <= |ps|
  {
    if ps != [] {
      var init := ps[..|ps| - 1];
      NamesOfSize(init);
      assert ps == init + [ps[|ps| - 1]];
      assert NamesOf(ps) == NamesOf(init) + {ps[|ps| - 1].name};
    }
  }

  /** With a VADER-like analyzer every stamped score lies in [0, 1]. */
  lemma ProcessedInUnit(polarity: Polarity, records: seq<Record>, category: string)
    requires CompoundInRange(polarity)
    ensures ScoresInUnit(ProcessedOf(polarity, records, category).rows)
  {
    var d := ScoreRows(polarity, records);
    ProcessedSpec(polarity, records, category);
    ScoreRowsTidy(polarity, records);
    forall r | r in ProcessedOf(polarity, records, category).rows ensures 0.0 <= r.score <= 1.0 {
      var s := ListOf(d, r.place);
      assert forall i :: 0 <= i < |s| ==> s[i] in s;
      MeanBounds(s, 0.0, 1.0);
    }
  }

  // ---------------------------------------------------------------------
  // What the ranking returns

  lemma GroupsSpec(rows: seq<ScoredRecord>)
    ensures DistinctBy(Groups(rows), CandidateName)
    ensures forall c :: c in Groups(rows) ==> c.name in PlacesIn(rows) && c == GroupOf(rows, c.name)
    ensures CandidateNames(Groups(rows)) == PlacesIn(rows)
  {
    var order := PlaceOrder(rows);
    var g := Groups(rows);
    forall p | p in PlacesIn(rows) ensures p in CandidateNames(g) {
      var i :| 0 <= i < |order| && order[i] == p;
      assert g[i] in g;
    }
  }

  /** With distinct names, the first loop keeps a prefix of what is left:
      one entry when `topN` is at most what it already holds plus one. */
  lemma {:induction false} PickRankedPrefix(rest: seq<Candidate>, acc: seq<Candidate>, topN: int)
    requires DistinctBy(rest, CandidateName)
    requires forall c :: c in rest ==> c.name !in CandidateNames(acc)
    requires acc == [] || |acc| < topN
    ensures PickRanked(rest, acc, topN) == acc + rest[..Picks(topN - |acc|, |rest|)]
  {
    if rest != [] {
      var c := rest[0];
      assert c in rest;
      if |acc| + 1 < topN {
        var acc' := acc + [c];
        DistinctHead(rest, CandidateName);
        assert CandidateNames(acc') == CandidateNames(acc) + {c.name};
        PickRankedPrefix(rest[1..], acc', topN);
        ConsPrefix(acc, rest, Picks(topN - |acc|, |rest|));
      }
    }
  }

  /** How many of `len` entries the first loop takes when it may add `m`:
      at least one, as the bound is checked after appending. */
  function Picks(m: int, len: nat): (k: nat)
    ensures k <= len
    ensures 1 < m ==> k == if m < len then m else len
  {
    if len == 0 then 0 else if m <= 1 then 1 else if m < len then m else len
  }

  /** The sorted groups carry every place of the table, once each. */
  lemma SortedGroupsSpec(rows: seq<ScoredRecord>)
    ensures var sorted := SortDesc(Groups(rows), CandidateScore);
      && DistinctBy(sorted, CandidateName)
      && NonIncreasing(sorted, CandidateScore)
      && CandidateNames(sorted) == PlacesIn(rows)
      && (forall c :: c in sorted ==> c.name in PlacesIn(rows) && c == GroupOf(rows, c.name))
  {
    var groups := Groups(rows);
    var sorted := SortDesc(groups, CandidateScore);
    GroupsSpec(rows);
    SortDescDistinct(groups, CandidateScore, CandidateName);
    SortDescSpec(groups, CandidateScore);
    SortDescMembers(groups, CandidateScore);
    forall p | p in PlacesIn(rows) ensures p in CandidateNames(sorted) {
      var c :| c in groups && c.name == p;
    }
  }

  /** The first loop takes a prefix of the sorted groups. */
  lemma PickedPrefix(rows: seq<ScoredRecord>, topN: int)
    ensures var sorted := SortDesc(Groups(rows), CandidateScore);
      PickRanked(sorted, [], topN) == sorted[..Picks(topN, |sorted|)]
  {
    SortedGroupsSpec(rows);
    PickRankedPrefix(SortDesc(Groups(rows), CandidateScore), [], topN);
  }

  /** The back-fill is dead code: the first loop stops short of `topN` only
      after taking every group, so no row of an unseen place is left. */
  lemma BackFillDead(rows: seq<ScoredRecord>, topN: int)
    ensures var picked := PickRanked(SortDesc(Groups(rows), CandidateScore), [], topN);
      |picked| < topN ==> FirstPerPlace(Unseen(rows, CandidateNames(picked))) == []
  {
    var sorted := SortDesc(Groups(rows), CandidateScore);
    var picked := PickRanked(sorted, [], topN);
    PickedPrefix(rows, topN);
    SortedGroupsSpec(rows);
    if |picked| < topN {
      assert picked == sorted;
      UnseenOfSeen(rows, CandidateNames(picked));
    }
  }

  lemma UnseenOfSeen(rows: seq<ScoredRecord>, seen: set<string>)
    requires PlacesIn(rows) <= seen
    ensures Unseen(rows, seen) == []
  {
  }

  /** A ranking is the first `topN` groups, best average first, and none
      for `topN <= 0`. */
  lemma RankedPrefix(rows: seq<ScoredRecord>, topN: int)
    ensures var sorted := SortDesc(Groups(rows), CandidateScore);
      Ranked(rows, topN) == if topN <= 0 then [] else sorted[..if topN < |sorted| then topN else |sorted|]
  {
    PickedPrefix(rows, topN);
    BackFillDead(rows, topN);
  }

  /** Prefixes keep distinct names and the order of scores. */
  lemma PrefixOfSorted(sorted: seq<Candidate>, k: nat)
    requires k <= |sorted|
    requires DistinctBy(sorted, CandidateName) && NonIncreasing(sorted, CandidateScore)
    ensures DistinctBy(sorted[..k], CandidateName) && NonIncreasing(sorted[..k], CandidateScore)
    ensures forall c :: c in sorted[..k] ==> c in sorted
  {
  }

  /** A ranking has at most `topN` entries, distinct places, scores never
      increasing, and each entry is its place's group. */
  lemma RankedSpec(rows: seq<ScoredRecord>, topN: int)
    ensures var r := Ranked(rows, topN);
      && |r| <= (if topN < 0 then 0 else topN)
      && DistinctBy(r, CandidateName)
      && NonIncreasing(r, CandidateScore)
      && (forall c :: c in r ==> c.name in PlacesIn(rows) && c == GroupOf(rows, c.name))
  {
    var sorted := SortDesc(Groups(rows), CandidateScore);
    RankedPrefix(rows, topN);
    SortedGroupsSpec(rows);
    PrefixOfSorted(sorted, if topN <= 0 then 0 else if topN < |sorted| then topN else |sorted|);
  }

  /** Nothing left out ranks better: a place of the table that is missing
      from a ranking with `topN >= 1` was cut because `topN` better-or-equal
      places were already taken. */
  lemma RankedComplete(rows: seq<ScoredRecord>, topN: int, place: string)
    requires 1 <= topN && place in PlacesIn(rows)
    requires place !in CandidateNames(Ranked(rows, topN))
    ensures |Ranked(rows, topN)| == topN
    ensures forall c :: c in Ranked(rows, topN) ==> c.score >= GroupOf(rows, place).score
  {
    var sorted := SortDesc(Groups(rows), CandidateScore);
    var k := if topN < |sorted| then topN else |sorted|;
    var r := Ranked(rows, topN);
    RankedPrefix(rows, topN);
    assert r == sorted[..k];
    SortedGroupsSpec(rows);
    var g :| g in sorted && g.name == place;
    assert g == GroupOf(rows, place);
    var j :| 0 <= j < |sorted| && sorted[j] == g;
    NameInPrefix(sorted, k, j);
    PrefixAtLeast(sorted, CandidateScore, k, j);
  }

  /** An entry before the cut lends its name to the prefix. */
  lemma NameInPrefix(sorted: seq<Candidate>, k: nat, j: nat)
    requires k <= |sorted| && j < |sorted|
    ensures j < k ==> sorted[j].name in CandidateNames(sorted[..k])
  {
    if j < k {
      assert sorted[..k][j] == sorted[j];
    }
  }


  /** A group of rows sharing a location and scored in [0, 1] keeps both. */
  lemma GroupOfAt(rows: seq<ScoredRecord>, place: string, location: string)
    requires place in PlacesIn(rows)
    requires ScoresInUnit(rows)
    requires forall r :: r in rows ==> r.location == location
    ensures GroupOf(rows, place).location == location
    ensures 0.0 <= GroupOf(rows, place).score <= 1.0
  {
    var rs := Where(rows, PlaceOf, place);
    var r :| r in rows && r.place == place;
    assert r in rs;
    assert rs[0] in rs;
    var s := ScoresOf(rs);
    forall i | 0 <= i < |s| ensures 0.0 <= s[i] <= 1.0 {
      assert rs[i] in rs;
    }
    MeanBounds(s, 0.0, 1.0);
  }

  /** A group is named after its place, takes the location and review of
      the place's first row in table order, and scores the mean over all of
      the place's rows (`'Sentiment_Score': 'mean'`, `'first'` otherwise). */
  lemma GroupOfFirst(rows: seq<ScoredRecord>, place: string)
    requires place in PlacesIn(rows)
    ensures var c := GroupOf(rows, place);
      var i := FirstRow(rows, place);
      && c.name == place
      && c.score == Mean(ScoresOf(Where(rows, PlaceOf, place)))
      && c.location == rows[i].location && c.review == rows[i].review
  {
    WhereFirst(rows, place);
  }

  /** The index of the place's first row. */
  ghost function FirstRow(rows: seq<ScoredRecord>, place: string): (i: nat)
    requires place in PlacesIn(rows)
    ensures i < |rows| && rows[i].place == place
    ensures forall k :: 0 <= k < i ==> rows[k].place != place
  {
    if rows[0].place == place then 0
    else
      var r :| r in rows && r.place == place;
      assert r in rows[1..];
      1 + FirstRow(rows[1..], place)
  }

  /** The first row selected for a place is the place's first row. */
  lemma {:induction false} WhereFirst(rows: seq<ScoredRecord>, place: string)
    requires place in PlacesIn(rows)
    ensures Where(rows, PlaceOf, place) != []
    ensures Where(rows, PlaceOf, place)[0] == rows[FirstRow(rows, place)]
  {
    if rows[0].place != place {
      var r :| r in rows && r.place == place;
      assert r in rows[1..];
      WhereFirst(rows[1..], place);
      assert Where(rows, PlaceOf, place) == Where(rows[1..], PlaceOf, place);
    }
  }

  /** A group whose rows all carry the same score has that score as its
      mean. */
  lemma GroupOfUniform(rows: seq<ScoredRecord>, place: string, s: real)
    requires place in PlacesIn(rows)
    requires forall r :: r in rows && r.place == place ==> r.score == s
    ensures GroupOf(rows, place).score == s
  {
    var rs := Where(rows, PlaceOf, place);
    var r :| r in rows && r.place == place;
    assert r in rs;
    var scores := ScoresOf(rs);
    forall i | 0 <= i < |scores| ensures scores[i] == s {
      assert rs[i] in rs;
    }
    MeanOfConstant(scores, s);
  }

  /** Every place the recommender ranks at a location scores the mean of
      all the analyzer stored for it, whatever the location. */
  lemma RankedScoresAreMeans(polarity: Polarity, records: seq<Record>, category: string, location: string, topN: int)
    ensures var d := ScoreRows(polarity, records);
      var here := Where(ProcessedOf(polarity, records, category).rows, LocationOf, location);
      forall c :: c in Ranked(here, topN) ==> ListOf(d, c.name) != [] && c.score == Mean(ListOf(d, c.name))
  {
    var d := ScoreRows(polarity, records);
    var here := Where(ProcessedOf(polarity, records, category).rows, LocationOf, location);
    RankedSpec(here, topN);
    ProcessedSpec(polarity, records, category);
    forall c | c in Ranked(here, topN) ensures ListOf(d, c.name) != [] && c.score == Mean(ListOf(d, c.name)) {
      var r :| r in here && r.place == c.name;
      GroupOfUniform(here, c.name, Mean(ListOf(d, c.name)));
    }
  }

  /** Every entry of a ranking at a location carries that location and a
      score in [0, 1]. */
  lemma RankedAtLocation(rows: seq<ScoredRecord>, location: string, topN: int)
    requires ScoresInUnit(rows)
    ensures forall c :: c in Ranked(Where(rows, LocationOf, location), topN) ==>
      c.location == location && 0.0 <= c.score <= 1.0
  {
    var here := Where(rows, LocationOf, location);
    RankedSpec(here, topN);
    forall c | c in Ranked(here, topN) ensures c.location == location && 0.0 <= c.score <= 1.0 {
      GroupOfAt(here, c.name, location);
    }
  }

  // ---------------------------------------------------------------------
  // What formatting keeps

  /** A higher score never gives a lower rating. */
  lemma RatingMonotone(a: real, b: real)
    requires a <= b
    ensures SentimentToRating(a) <= SentimentToRating(b)
  {
  }

  /** Formatting keeps the order, names, scores and reviews, only changes
      the case of locations, and rates scores of [0, 1] between 1 and 5 in
      the order of the scores. */
  lemma FormatSpec(recs: seq<Candidate>)
    ensures var out := FormatRecommendations(recs);
      && (forall i :: 0 <= i < |recs| ==>
            out[i].name == recs[i].name && out[i].score == recs[i].score
            && out[i].sampleReview == recs[i].review
            && Lower(out[i].location) == Lower(recs[i].location))
      && ((forall c :: c in recs ==> 0.0 <= c.score <= 1.0) ==>
            forall o :: o in out ==> 1.0 <= o.rating <= 5.0)
      && (NonIncreasing(recs, CandidateScore) ==>
            forall i, j :: 0 <= i < j < |out| ==> out[i].rating >= out[j].rating)
  {
    var out := FormatRecommendations(recs);
    forall i | 0 <= i < |recs| ensures Lower(out[i].location) == Lower(recs[i].location) {
      LowerOfTitle(recs[i].location, false);
    }
    if forall c :: c in recs ==> 0.0 <= c.score <= 1.0 {
      forall o | o in out ensures 1.0 <= o.rating <= 5.0 {
        var i :| 0 <= i < |out| && out[i] == o;
        assert recs[i] in recs;
      }
    }
  }
}
