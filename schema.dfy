/** The table normaliser of `TourismRecommender._clean_dataframe`: it maps
    arbitrary column labels onto the canonical `Place`, `Location` and
    `Review`, raises when one of them cannot be found, when the column the
    fallback picks is doubled or when `Location` is doubled, and fills
    nulls. */
module Schema {
  import opened Wrappers
  import opened Text
  import opened Tables
  import opened Ordering

  const PLACE: string := "Place"
  const LOCATION: string := "Location"
  const REVIEW: string := "Review"

  const NO_REVIEW: string := "No review available"
  const UNKNOWN_LOCATION: string := "Unknown"
  const UNKNOWN_PLACE: string := "Unknown Place"

  /** What `_clean_dataframe` raises: the `ValueError` when a canonical
      column is still missing; the `ValueError` of `df[missing_col] =
      df[possible_cols[0]]` when two columns carry the label the fallback
      picks (the right-hand side is then a two-column table); or the
      `AttributeError` of `.str` when two columns carry the label `Location`
      (`df['Location']` is then a table, not a column). */
  datatype SchemaError =
    | MissingColumns(missing: seq<string>)
    | AmbiguousSource(target: string)
    | LocationNotText

  /** `column_mapping`: the exact (lower-case) synonyms of the canonical
      labels. */
  predicate IsSynonym(name: string) {
    Rename(name) != name
  }

  /** `df.rename(columns=column_mapping)` on one label: a synonym becomes
      its canonical label, any other label is kept. */
  function Rename(name: string): (r: string)
    ensures r == name || r == PLACE || r == LOCATION || r == REVIEW
  {
    match name
    case "name" | "place_name" | "place" => PLACE
    case "location" | "city" | "address" => LOCATION
    case "review" | "reviews" | "comment" => REVIEW
    case _ => name
  }

  /** The substring fallback: may column `name` stand in for the canonical
      column `missing`? (case-sensitive `in`) */
  predicate Suggests(missing: string, name: string) {
    if missing == PLACE then Contains(name, "name") || Contains(name, "place")
    else if missing == LOCATION then
      Contains(name, "city") || Contains(name, "location") || Contains(name, "address")
    else if missing == REVIEW then
      Contains(name, "review") || Contains(name, "comment") || Contains(name, "feedback")
    else false
  }

  // ---------------------------------------------------------------------
  // The steps, in the order the source applies them

  /** `df.loc[:, ~df.columns.str.contains('^Unnamed')]` */
  function DropUnnamed(cols: seq<Column>): (r: seq<Column>)
    ensures |r| <= |cols|
    ensures forall c :: c in r <==> c in cols && !StartsWith(c.name, "Unnamed")
  {
    if cols == [] then []
    else (if StartsWith(cols[0].name, "Unnamed") then [] else [cols[0]]) + DropUnnamed(cols[1..])
  }

  /** Dropping keeps the order and the multiplicity of the kept columns: it
      distributes over concatenation, and keeps or drops a single column. */
  lemma {:induction false} DropUnnamedAppend(a: seq<Column>, b: seq<Column>)
    ensures DropUnnamed(a + b) == DropUnnamed(a) + DropUnnamed(b)
    ensures |a| == 1 ==> DropUnnamed(a) == if StartsWith(a[0].name, "Unnamed") then [] else a
  {
    if a == [] {
      assert a + b == b;
    } else {
      var head := if StartsWith(a[0].name, "Unnamed") then [] else [a[0]];
      assert (a + b)[0] == a[0] && (a + b)[1..] == a[1..] + b;
      assert DropUnnamed(a + b) == head + DropUnnamed(a[1..] + b);
      DropUnnamedAppend(a[1..], b);
      assert DropUnnamed(a) == head + DropUnnamed(a[1..]);
      ConcatAssoc(head, DropUnnamed(a[1..]), DropUnnamed(b));
    }
  }

  /** `df.columns = df.columns.str.lower().str.strip()` */
  function LowerStripNames(cols: seq<Column>): seq<Column> {
    seq(|cols|, i requires 0 <= i < |cols| => Column(LowerStrip(cols[i].name), cols[i].cells))
  }

  /** `df.rename(columns=column_mapping)` */
  function RenameColumns(cols: seq<Column>): seq<Column> {
    seq(|cols|, i requires 0 <= i < |cols| => Column(Rename(cols[i].name), cols[i].cells))
  }

  /** The table after dropping, lowering/stripping and renaming labels. */
  function Mapped(t: Table): Table {
    Table(t.nrows, RenameColumns(LowerStripNames(DropUnnamed(t.columns))))
  }

  /** `[col for col in required_columns if col not in df.columns]` */
  function Missing(names: seq<string>): seq<string> {
    (if PLACE in names then [] else [PLACE])
    + (if LOCATION in names then [] else [LOCATION])
    + (if REVIEW in names then [] else [REVIEW])
  }

  /** How many labels equal `x`. */
  function Occurrences(names: seq<string>, x: string): (n: nat)
    ensures n <= |names|
    ensures n == 0 <==> x !in names
  {
    if names == [] then 0
    else (if names[0] == x then 1 else 0) + Occurrences(names[1..], x)
  }

  /** `possible_cols[0]`, if there is one. */
  function FirstSuggesting(cols: seq<Column>, missing: string): (r: Option<Column>)
    ensures r.Some? ==> r.value in cols && Suggests(missing, r.value.name)
  {
    if cols == [] then None
    else if Suggests(missing, cols[0].name) then Some(cols[0])
    else FirstSuggesting(cols[1..], missing)
  }

  /** Two columns carry the label the fallback picks for `missing`, so
      `df[possible_cols[0]]` selects both and the assignment raises. */
  predicate Ambiguous(cols: seq<Column>, missing: string) {
    match FirstSuggesting(cols, missing)
    case Some(c) => Occurrences(Names(cols), c.name) > 1
    case None => false
  }

  /** The first missing label, in loop order, whose fallback raises. */
  function FirstAmbiguous(cols: seq<Column>, missing: seq<string>): (r: Option<string>)
    ensures r.Some? ==> r.value in missing && Ambiguous(cols, r.value)
    ensures r.None? <==> forall m :: m in missing ==> !Ambiguous(cols, m)
  {
    if missing == [] then None
    else if Ambiguous(cols, missing[0]) then Some(missing[0])
    else
      assert forall m :: m in missing ==> m == missing[0] || m in missing[1..];
      FirstAmbiguous(cols, missing[1..])
  }

  /** One turn of the fallback loop: `df[missing_col] = df[possible_cols[0]]`
      appends a copy of the first suggesting column under the canonical label. */
  function ResolveOne(t: Table, missing: string): (r: Table)
    ensures r.nrows == t.nrows
  {
    match FirstSuggesting(t.columns, missing)
    case Some(c) => Table(t.nrows, t.columns + [Column(missing, c.cells)])
    case None => t
  }

  /** The fallback loop over `missing_columns`. */
  function ResolveAll(t: Table, missing: seq<string>): (r: Table)
    ensures r.nrows == t.nrows
  {
    if missing == [] then t
    else ResolveOne(ResolveAll(t, missing[..|missing| - 1]), missing[|missing| - 1])
  }

  function FillCells(cells: seq<Cell>, default: string): seq<Cell> {
    seq(|cells|, i requires 0 <= i < |cells| => Some(cells[i].GetOr(default)))
  }

  /** `df[name] = df[name].fillna(default)` */
  function FillColumn(cols: seq<Column>, name: string, default: string): seq<Column> {
    seq(|cols|, i requires 0 <= i < |cols| =>
      if cols[i].name == name then Column(name, FillCells(cols[i].cells, default)) else cols[i])
  }

  /** The three `fillna` calls, in source order. */
  function FillNulls(cols: seq<Column>): seq<Column> {
    FillColumn(FillColumn(FillColumn(cols, REVIEW, NO_REVIEW), LOCATION, UNKNOWN_LOCATION), PLACE, UNKNOWN_PLACE)
  }

  function LowerCells(cells: seq<Cell>): seq<Cell> {
    seq(|cells|, i requires 0 <= i < |cells| =>
      match cells[i] case Some(s) => Some(LowerStrip(s)) case None => None)
  }

  /** `df['Location'] = df['Location'].str.lower().str.strip()` */
  function LowerLocation(cols: seq<Column>): seq<Column> {
    seq(|cols|, i requires 0 <= i < |cols| =>
      if cols[i].name == LOCATION then Column(LOCATION, LowerCells(cols[i].cells)) else cols[i])
  }

  /** What `_clean_dataframe` returns or raises. */
  function Normalize(t: Table): Result<Table, SchemaError> {
    var mapped := Mapped(t);
    var missing := Missing(Names(mapped.columns));
    match FirstAmbiguous(mapped.columns, missing)
    case Some(m) => Failure(AmbiguousSource(m))
    case None =>
      var resolved := ResolveAll(mapped, missing);
      var stillMissing := Missing(Names(resolved.columns));
      if stillMissing != [] then Failure(MissingColumns(stillMissing))
      else if Occurrences(Names(resolved.columns), LOCATION) > 1 then Failure(LocationNotText)
      else Success(Table(t.nrows, LowerLocation(FillNulls(resolved.columns))))
  }

  /** `_clean_dataframe`, step by step. */
  method CleanDataframe(df: Table) returns (r: Result<Table, SchemaError>)
    ensures r == Normalize(df)
  {
    var cols := DropUnnamed(df.columns);
    cols := LowerStripNames(cols);
    cols := RenameColumns(cols);
    var mapped := Table(df.nrows, cols);
    assert mapped == Mapped(df);
    var missing := Missing(Names(cols));
    var t := mapped;
    MissingSpec(Names(cols));
    for k := 0 to |missing|
      invariant t == ResolveAll(mapped, missing[..k])
      invariant FirstAmbiguous(cols, missing[..k]) == None
    {
      var m := missing[k];
      ghost var before := t;
      assert forall x :: x in missing[..k] ==> x in missing;
      AmbiguousResolved(mapped, missing[..k], m);
      FirstAmbiguousTurn(cols, missing, k);
      var possible := FirstSuggesting(t.columns, m);
      if possible.Some? {
        if Occurrences(Names(t.columns), possible.value.name) > 1 {
          NormalizeAmbiguous(df, m);
          return Failure(AmbiguousSource(m));
        }
        t := Table(t.nrows, t.columns + [Column(m, possible.value.cells)]);
      }
      assert t == ResolveOne(before, m);
      assert missing[..k + 1][..k] == missing[..k] && missing[..k + 1][k] == m;
    }
    assert missing[..|missing|] == missing;
    NormalizeUnambiguous(df, t);
    missing := Missing(Names(t.columns));
    if missing != [] {
      return Failure(MissingColumns(missing));
    }
    if Occurrences(Names(t.columns), LOCATION) > 1 {
      return Failure(LocationNotText);
    }
    cols := FillColumn(t.columns, REVIEW, NO_REVIEW);
    cols := FillColumn(cols, LOCATION, UNKNOWN_LOCATION);
    cols := FillColumn(cols, PLACE, UNKNOWN_PLACE);
    cols := LowerLocation(cols);
    r := Success(Table(t.nrows, cols));
  }

  /** Turn `k` of the fallback loop, when no earlier turn raised: it is
      the first raising turn when it raises, and otherwise no turn up to it
      raises. */
  lemma FirstAmbiguousTurn(cols: seq<Column>, missing: seq<string>, k: nat)
    requires k < |missing| && FirstAmbiguous(cols, missing[..k]) == None
    ensures Ambiguous(cols, missing[k]) ==> FirstAmbiguous(cols, missing) == Some(missing[k])
    ensures !Ambiguous(cols, missing[k]) ==> FirstAmbiguous(cols, missing[..k + 1]) == None
  {
    var init := missing[..k];
    var rest := missing[k..];
    assert init + rest == missing;
    assert rest[0] == missing[k];
    FirstAmbiguousAppend(cols, init, rest);
    assert missing[..k + 1] == init + [missing[k]];
    FirstAmbiguousAppend(cols, init, [missing[k]]);
  }

  lemma NormalizeUnambiguous(t: Table, resolved: Table)
    requires FirstAmbiguous(Mapped(t).columns, Missing(Names(Mapped(t).columns))) == None
    requires resolved == ResolveAll(Mapped(t), Missing(Names(Mapped(t).columns)))
    ensures Normalize(t) ==
      var stillMissing := Missing(Names(resolved.columns));
      if stillMissing != [] then Failure(MissingColumns(stillMissing))
      else if Occurrences(Names(resolved.columns), LOCATION) > 1 then Failure(LocationNotText)
      else Success(Table(t.nrows, LowerLocation(FillNulls(resolved.columns))))
  {
  }

  /** With no canonical label missing, the fallback loop does nothing. */
  lemma NormalizeComplete(t: Table)
    requires Missing(Names(Mapped(t).columns)) == []
    ensures Normalize(t) ==
      if Occurrences(Names(Mapped(t).columns), LOCATION) > 1 then Failure(LocationNotText)
      else Success(Table(t.nrows, LowerLocation(FillNulls(Mapped(t).columns))))
  {
    assert ResolveAll(Mapped(t), []) == Mapped(t);
    NormalizeUnambiguous(t, Mapped(t));
  }

  lemma NormalizeAmbiguous(t: Table, m: string)
    requires FirstAmbiguous(Mapped(t).columns, Missing(Names(Mapped(t).columns))) == Some(m)
    ensures Normalize(t) == Failure(AmbiguousSource(m))
  {
  }

  // ---------------------------------------------------------------------
  // The normalised table and its rows

  /** What every successful normalisation guarantees of its result. */
  ghost predicate Clean(t: Table) {
    && WellFormed(t)
    && PLACE in Names(t.columns) && LOCATION in Names(t.columns) && REVIEW in Names(t.columns)
    && (forall c, x :: c in t.columns && c.name in {PLACE, LOCATION, REVIEW} && x in c.cells ==> x.Some?)
    && (forall c, x :: c in t.columns && c.name == LOCATION && x in c.cells ==> x.Some? && LowerStrip(x.value) == x.value)
  }

  /** `row['Place']`, `row['Location']` and `row['Review']` of every row. */
  function Records(t: Table): (rs: seq<Record>)
    requires Clean(t)
    ensures |rs| == t.nrows
    ensures forall i :: 0 <= i < |rs| ==> LowerStrip(rs[i].location) == rs[i].location
  {
    var place := CleanColumn(t, PLACE);
    var location := CleanColumn(t, LOCATION);
    var review := CleanColumn(t, REVIEW);
    seq(t.nrows, i requires 0 <= i < t.nrows =>
      Record(place[i].value, location[i].value, review[i].value))
  }

  /** The cells of a canonical column of a clean table: one per row, none
      null, and `Location` normalised. */
  function CleanColumn(t: Table, m: string): (cells: seq<Cell>)
    requires Clean(t) && m in {PLACE, LOCATION, REVIEW}
    ensures |cells| == t.nrows
    ensures forall i :: 0 <= i < |cells| ==> cells[i].Some?
    ensures m == LOCATION ==> forall i :: 0 <= i < |cells| ==> LowerStrip(cells[i].value) == cells[i].value
  {
    var c := ColumnNamed(t.columns, m);
    assert forall i :: 0 <= i < |c.cells| ==> c.cells[i] in c.cells;
    c.cells
  }

  // ---------------------------------------------------------------------
  // Which canonical columns can be found

  /** A canonical column is found when a label maps to it exactly or some
      label contains one of its fallback substrings. */
  ghost predicate Resolvable(cols: seq<Column>, m: string) {
    m in Names(cols) || exists c :: c in cols && Suggests(m, c.name)
  }

  /** The canonical columns that can be found neither way, in source order. */
  ghost function Unresolved(cols: seq<Column>): seq<string> {
    (if Resolvable(cols, PLACE) then [] else [PLACE])
    + (if Resolvable(cols, LOCATION) then [] else [LOCATION])
    + (if Resolvable(cols, REVIEW) then [] else [REVIEW])
  }

  /** `c` does not occur in `s` (a form the verifier evaluates on literals). */
  ghost predicate Lacks(s: string, c: char) {
    s == [] || (s[0] != c && Lacks(s[1..], c))
  }

  lemma NotContains(s: string, p: string, c: char)
    requires c in p && Lacks(s, c)
    ensures !Contains(s, p)
  {
    assert c !in s by { LacksSpec(s, c); }
    if Contains(s, p) {
      ContainsChars(s, p, c);
    }
  }

  lemma {:induction false} LacksSpec(s: string, c: char)
    requires Lacks(s, c)
    ensures c !in s
  {
    if s != [] {
      LacksSpec(s[1..], c);
      assert s == [s[0]] + s[1..];
    }
  }

  /** No canonical label contains a fallback substring (they are capitalised),
      so a column added by the fallback is never picked by a later turn. */
  lemma CanonicalSuggestsNothing(m: string, name: string)
    requires name in {PLACE, LOCATION, REVIEW}
    ensures !Suggests(m, name)
  {
    if name == PLACE {
      PlaceSuggestsNothing();
    } else if name == LOCATION {
      LocationSuggestsNothing();
    } else {
      ReviewSuggestsNothing();
    }
  }

  lemma PlaceSuggestsNothing()
    ensures forall m :: !Suggests(m, PLACE)
  {
    assert "name"[2] == 'm' && "place"[0] == 'p' && "city"[3] == 'y' && "location"[4] == 't';
    assert "address"[1] == 'd' && "review"[0] == 'r' && "comment"[2] == 'm' && "feedback"[0] == 'f';
    assert Lacks(PLACE, 'm') && Lacks(PLACE, 'p') && Lacks(PLACE, 'y') && Lacks(PLACE, 't');
    assert Lacks(PLACE, 'd') && Lacks(PLACE, 'r') && Lacks(PLACE, 'f');
    NotContains(PLACE, "name", 'm');
    NotContains(PLACE, "place", 'p');
    NotContains(PLACE, "city", 'y');
    NotContains(PLACE, "location", 't');
    NotContains(PLACE, "address", 'd');
    NotContains(PLACE, "review", 'r');
    NotContains(PLACE, "comment", 'm');
    NotContains(PLACE, "feedback", 'f');
  }

  lemma LocationSuggestsNothing()
    ensures forall m :: !Suggests(m, LOCATION)
  {
    assert "name"[2] == 'm' && "place"[0] == 'p' && "city"[3] == 'y' && "location"[0] == 'l';
    assert "address"[1] == 'd' && "review"[0] == 'r' && "comment"[2] == 'm' && "feedback"[0] == 'f';
    assert Lacks(LOCATION, 'm') && Lacks(LOCATION, 'p') && Lacks(LOCATION, 'y') && Lacks(LOCATION, 'l');
    assert Lacks(LOCATION, 'd') && Lacks(LOCATION, 'r') && Lacks(LOCATION, 'f');
    NotContains(LOCATION, "name", 'm');
    NotContains(LOCATION, "place", 'p');
    NotContains(LOCATION, "city", 'y');
    NotContains(LOCATION, "location", 'l');
    NotContains(LOCATION, "address", 'd');
    NotContains(LOCATION, "review", 'r');
    NotContains(LOCATION, "comment", 'm');
    NotContains(LOCATION, "feedback", 'f');
  }

  lemma ReviewSuggestsNothing()
    ensures forall m :: !Suggests(m, REVIEW)
  {
    assert "name"[2] == 'm' && "place"[0] == 'p' && "city"[3] == 'y' && "location"[0] == 'l';
    assert "address"[1] == 'd' && "review"[0] == 'r' && "comment"[2] == 'm' && "feedback"[0] == 'f';
    assert Lacks(REVIEW, 'm') && Lacks(REVIEW, 'p') && Lacks(REVIEW, 'y') && Lacks(REVIEW, 'l');
    assert Lacks(REVIEW, 'd') && Lacks(REVIEW, 'r') && Lacks(REVIEW, 'f');
    NotContains(REVIEW, "name", 'm');
    NotContains(REVIEW, "place", 'p');
    NotContains(REVIEW, "city", 'y');
    NotContains(REVIEW, "location", 'l');
    NotContains(REVIEW, "address", 'd');
    NotContains(REVIEW, "review", 'r');
    NotContains(REVIEW, "comment", 'm');
    NotContains(REVIEW, "feedback", 'f');
  }

  lemma {:induction false} FirstSuggestingAppend(cols: seq<Column>, extra: seq<Column>, m: string)
    requires forall c :: c in extra ==> !Suggests(m, c.name)
    ensures FirstSuggesting(cols + extra, m) == FirstSuggesting(cols, m)
  {
    if cols != [] {
      assert (cols + extra)[1..] == cols[1..] + extra;
      FirstSuggestingAppend(cols[1..], extra, m);
    }
  }

  /** `FirstAmbiguous` names the first raising label: the loop raises at
      turn `k` when no earlier turn raised. */
  lemma {:induction false} FirstAmbiguousAt(cols: seq<Column>, missing: seq<string>, k: nat)
    requires k < |missing| && Ambiguous(cols, missing[k])
    requires forall i :: 0 <= i < k ==> !Ambiguous(cols, missing[i])
    ensures FirstAmbiguous(cols, missing) == Some(missing[k])
  {
    if k > 0 {
      assert !Ambiguous(cols, missing[0]);
      FirstAmbiguousAt(cols, missing[1..], k - 1);
    }
  }

  /** The first raising label of a concatenation comes from its first
      part when that part has one. */
  lemma {:induction false} FirstAmbiguousAppend(cols: seq<Column>, a: seq<string>, b: seq<string>)
    ensures FirstAmbiguous(cols, a + b)
      == if FirstAmbiguous(cols, a).Some? then FirstAmbiguous(cols, a) else FirstAmbiguous(cols, b)
  {
    if a == [] {
      assert a + b == b;
    } else {
      assert (a + b)[0] == a[0] && (a + b)[1..] == a[1..] + b;
      FirstAmbiguousAppend(cols, a[1..], b);
    }
  }

  /** A label that contains a fallback substring is not canonical. */
  lemma SuggestingNotCanonical(m: string, name: string)
    requires Suggests(m, name)
    ensures name !in {PLACE, LOCATION, REVIEW}
  {
    PlaceSuggestsNothing();
    LocationSuggestsNothing();
    ReviewSuggestsNothing();
  }

  /** Earlier turns of the fallback loop only append canonical columns, so
      they change neither the column a later turn picks nor how often its
      label occurs: whether a turn raises is decided by the relabelled
      columns. */
  lemma AmbiguousResolved(mapped: Table, missing: seq<string>, m: string)
    requires forall x :: x in missing ==> x in {PLACE, LOCATION, REVIEW}
    ensures Ambiguous(ResolveAll(mapped, missing).columns, m) == Ambiguous(mapped.columns, m)
    ensures FirstSuggesting(ResolveAll(mapped, missing).columns, m) == FirstSuggesting(mapped.columns, m)
  {
    ResolveAllSpec(mapped, missing);
    var added := Added(mapped.columns, missing);
    AddedCanonical(mapped.columns, missing);
    CanonicalColumnsSuggestNothing(added, m);
    FirstSuggestingAppend(mapped.columns, added, m);
    match FirstSuggesting(mapped.columns, m)
    case None =>
    case Some(c) =>
      SuggestingNotCanonical(m, c.name);
      assert c.name !in Names(added) by {
        forall i | 0 <= i < |added| ensures Names(added)[i] != c.name {
          assert added[i] in added;
        }
      }
      NamesConcat(mapped.columns, added);
      OccurrencesAppend(Names(mapped.columns), Names(added), c.name);
  }

  /** The columns the fallback loop appends, one per missing label that some
      original column suggests. */
  function Added(cols: seq<Column>, missing: seq<string>): seq<Column> {
    if missing == [] then []
    else
      var m := missing[|missing| - 1];
      Added(cols, missing[..|missing| - 1]) + Copied(cols, m)
  }

  /** The copy one turn of the fallback loop appends for `m`, if any. */
  function Copied(cols: seq<Column>, m: string): (r: seq<Column>)
    ensures Names(r) == if FirstSuggesting(cols, m).Some? then [m] else []
  {
    match FirstSuggesting(cols, m) case Some(c) => [Column(m, c.cells)] case None => []
  }

  /** The fallback finds a column exactly when some label contains one of
      the listed substrings. */
  lemma {:induction false} FirstSuggestingFinds(cols: seq<Column>, m: string)
    ensures FirstSuggesting(cols, m).Some? <==> exists c :: c in cols && Suggests(m, c.name)
  {
    if cols != [] && !Suggests(m, cols[0].name) {
      FirstSuggestingFinds(cols[1..], m);
      assert cols == [cols[0]] + cols[1..];
    }
  }

  lemma {:induction false} AddedSpec(cols: seq<Column>, missing: seq<string>)
    ensures forall x :: x in Names(Added(cols, missing)) <==> x in missing && FirstSuggesting(cols, x).Some?
  {
    if missing != [] {
      var init := missing[..|missing| - 1];
      var m := missing[|missing| - 1];
      AddedSpec(cols, init);
      assert missing == init + [m];
      var prev := Added(cols, init);
      var step := Copied(cols, m);
      assert Added(cols, missing) == prev + step;
      NamesOfAppend(prev, step);
      assert forall x :: x in Names(step) <==> x == m && FirstSuggesting(cols, m).Some?;
      assert forall x :: x in missing <==> x in init || x == m;
    }
  }

  lemma {:induction false} AddedCanonical(cols: seq<Column>, missing: seq<string>)
    requires forall m :: m in missing ==> m in {PLACE, LOCATION, REVIEW}
    ensures forall a :: a in Added(cols, missing) ==> a.name in {PLACE, LOCATION, REVIEW}
  {
    if missing != [] {
      var init := missing[..|missing| - 1];
      assert forall x :: x in init ==> x in missing;
      AddedCanonical(cols, init);
      assert missing[|missing| - 1] in missing;
    }
  }

  lemma CanonicalColumnsSuggestNothing(extra: seq<Column>, m: string)
    requires forall a :: a in extra ==> a.name in {PLACE, LOCATION, REVIEW}
    ensures forall a :: a in extra ==> !Suggests(m, a.name)
  {
    forall a | a in extra ensures !Suggests(m, a.name) {
      CanonicalSuggestsNothing(m, a.name);
    }
  }

  /** The fallback loop keeps every column and appends `Added`. */
  lemma {:induction false} ResolveAllSpec(t: Table, missing: seq<string>)
    requires forall m :: m in missing ==> m in {PLACE, LOCATION, REVIEW}
    ensures ResolveAll(t, missing).columns == t.columns + Added(t.columns, missing)
  {
    if missing != [] {
      var init := missing[..|missing| - 1];
      var m := missing[|missing| - 1];
      assert forall x :: x in init ==> x in missing;
      ResolveAllSpec(t, init);
      AddedCanonical(t.columns, init);
      var extra := Added(t.columns, init);
      CanonicalColumnsSuggestNothing(extra, m);
      FirstSuggestingAppend(t.columns, extra, m);
      ResolveStep(t, ResolveAll(t, init), missing);
    }
  }

  lemma ResolveStep(t: Table, prev: Table, missing: seq<string>)
    requires missing != []
    requires prev == ResolveAll(t, missing[..|missing| - 1])
    requires prev.columns == t.columns + Added(t.columns, missing[..|missing| - 1])
    requires FirstSuggesting(prev.columns, missing[|missing| - 1]) == FirstSuggesting(t.columns, missing[|missing| - 1])
    ensures ResolveAll(t, missing).columns == t.columns + Added(t.columns, missing)
  {
  }

  lemma MissingSpec(names: seq<string>)
    ensures forall x :: x in Missing(names) <==> x in {PLACE, LOCATION, REVIEW} && x !in names
  {
  }

  /** After the fallback loop a canonical label is present exactly when it
      was resolvable from the renamed labels. */
  lemma ResolvedNames(mapped: Table, m: string)
    requires m in {PLACE, LOCATION, REVIEW}
    ensures m in Names(ResolveAll(mapped, Missing(Names(mapped.columns))).columns) <==> Resolvable(mapped.columns, m)
  {
    var names := Names(mapped.columns);
    var missing := Missing(names);
    MissingSpec(names);
    assert m in missing <==> m !in names;
    ResolveAllSpec(mapped, missing);
    var added := Added(mapped.columns, missing);
    NamesOfAppend(mapped.columns, added);
    AddedSpec(mapped.columns, missing);
    FirstSuggestingFinds(mapped.columns, m);
  }

  lemma NamesOfAppend(a: seq<Column>, b: seq<Column>)
    ensures forall x :: x in Names(a + b) <==> x in Names(a) || x in Names(b)
  {
    assert Names(a + b) == Names(a) + Names(b);
  }

  /** Normalisation succeeds exactly when no turn of the fallback picks a
      doubled label, every canonical column can be found and at most one
      relabelled column is `Location`. It raises in that order: the first
      doubled pick, then the missing-column error naming exactly the
      columns that cannot be found, then the `Location` error. */
  lemma NormalizeOutcome(t: Table)
    ensures var cols := Mapped(t).columns;
      Normalize(t).Success? <==>
        && (forall m :: m in Missing(Names(cols)) ==> !Ambiguous(cols, m))
        && Unresolved(cols) == [] && Occurrences(Names(cols), LOCATION) <= 1
    ensures var cols := Mapped(t).columns;
      FirstAmbiguous(cols, Missing(Names(cols))).Some? ==>
        Normalize(t) == Failure(AmbiguousSource(FirstAmbiguous(cols, Missing(Names(cols))).value))
    ensures var cols := Mapped(t).columns;
      Normalize(t).Failure? && FirstAmbiguous(cols, Missing(Names(cols))).None? && Unresolved(cols) != [] ==>
        Normalize(t).error == MissingColumns(Unresolved(cols))
    ensures var cols := Mapped(t).columns;
      Normalize(t).Failure? && FirstAmbiguous(cols, Missing(Names(cols))).None? && Unresolved(cols) == [] ==>
        Normalize(t).error == LocationNotText
    ensures Normalize(t).Success? ==>
      var names := Names(Normalize(t).value.columns);
      PLACE in names && LOCATION in names && REVIEW in names
      && Occurrences(names, LOCATION) == 1
  {
    var mapped := Mapped(t);
    var resolved := ResolveAll(mapped, Missing(Names(mapped.columns)));
    ResolvedNames(mapped, PLACE);
    ResolvedNames(mapped, LOCATION);
    ResolvedNames(mapped, REVIEW);
    assert Missing(Names(resolved.columns)) == Unresolved(mapped.columns);
    ResolvedLocations(mapped);
    NamesKept(resolved.columns);
  }

  /** The fallback loop adds a `Location` column only when there is none,
      so it never creates a second one. */
  lemma ResolvedLocations(mapped: Table)
    ensures var resolved := ResolveAll(mapped, Missing(Names(mapped.columns)));
      Occurrences(Names(resolved.columns), LOCATION) > 1 <==> Occurrences(Names(mapped.columns), LOCATION) > 1
  {
    var missing := Missing(Names(mapped.columns));
    MissingSpec(Names(mapped.columns));
    ResolveAllSpec(mapped, missing);
    AddedLocations(mapped.columns, missing);
  }

  lemma AddedLocations(cols: seq<Column>, missing: seq<string>)
    requires missing == Missing(Names(cols))
    ensures Occurrences(Names(cols + Added(cols, missing)), LOCATION) > 1 <==> Occurrences(Names(cols), LOCATION) > 1
  {
    var added := Added(cols, missing);
    NamesConcat(cols, added);
    OccurrencesAppend(Names(cols), Names(added), LOCATION);
    AddedOccurrences(cols, missing, LOCATION);
    MissingLocations(Names(cols));
  }

  lemma NamesConcat(a: seq<Column>, b: seq<Column>)
    ensures Names(a + b) == Names(a) + Names(b)
  {
  }

  lemma MissingLocations(names: seq<string>)
    ensures Occurrences(Missing(names), LOCATION) == if LOCATION in names then 0 else 1
  {
    var p: seq<string> := if PLACE in names then [] else [PLACE];
    var l: seq<string> := if LOCATION in names then [] else [LOCATION];
    var r: seq<string> := if REVIEW in names then [] else [REVIEW];
    OccurrencesAppend(p + l, r, LOCATION);
    OccurrencesAppend(p, l, LOCATION);
    assert Occurrences(p, LOCATION) == 0;
    assert Occurrences(r, LOCATION) == 0;
  }

  lemma {:induction false} OccurrencesAppend(a: seq<string>, b: seq<string>, x: string)
    ensures Occurrences(a + b, x) == Occurrences(a, x) + Occurrences(b, x)
  {
    if a != [] {
      OccurrencesAppend(a[1..], b, x);
      assert (a + b)[0] == a[0] && (a + b)[1..] == a[1..] + b;
    } else {
      assert a + b == b;
    }
  }

  /** Each label of `Added` is a distinct missing label. */
  lemma {:induction false} AddedOccurrences(cols: seq<Column>, missing: seq<string>, x: string)
    ensures Occurrences(Names(Added(cols, missing)), x) <= Occurrences(missing, x)
  {
    if missing != [] {
      var init := missing[..|missing| - 1];
      var m := missing[|missing| - 1];
      AddedOccurrences(cols, init, x);
      assert missing == init + [m];
      OccurrencesAppend(init, [m], x);
      var prev := Added(cols, init);
      var step := Copied(cols, m);
      assert Added(cols, missing) == prev + step;
      NamesConcat(prev, step);
      OccurrencesAppend(Names(prev), Names(step), x);
      assert Occurrences(Names(step), x) <= Occurrences([m], x);
    }
  }

  /** Filling and lowering cells never changes the labels. */
  lemma NamesKept(cols: seq<Column>)
    ensures Names(LowerLocation(FillNulls(cols))) == Names(cols)
  {
  }

  // ---------------------------------------------------------------------
  // The normalised cells

  lemma ResolveAllWellFormed(t: Table, missing: seq<string>)
    requires WellFormed(t)
    ensures WellFormed(ResolveAll(t, missing))
  {
    if missing != [] {
      ResolveAllWellFormed(t, missing[..|missing| - 1]);
    }
  }

  lemma MappedWellFormed(t: Table)
    requires WellFormed(t)
    ensures WellFormed(Mapped(t))
  {
    var kept := DropUnnamed(t.columns);
    forall c | c in Mapped(t).columns ensures |c.cells| == t.nrows {
      var i :| 0 <= i < |kept| && Mapped(t).columns[i] == c;
      assert kept[i] in kept;
    }
  }

  /** Filling and lowering leave every canonical cell non-null and every
      `Location` cell in lower-stripped form. */
  lemma FinishClean(cols: seq<Column>, n: nat)
    requires forall c :: c in cols ==> |c.cells| == n
    requires PLACE in Names(cols) && LOCATION in Names(cols) && REVIEW in Names(cols)
    ensures Clean(Table(n, LowerLocation(FillNulls(cols))))
  {
    FinishedColumns(cols);
    FinishedClean(cols, LowerLocation(FillNulls(cols)), n);
  }

  lemma FinishedClean(cols: seq<Column>, r: seq<Column>, n: nat)
    requires forall c :: c in cols ==> |c.cells| == n
    requires PLACE in Names(cols) && LOCATION in Names(cols) && REVIEW in Names(cols)
    requires |r| == |cols|
    requires forall i :: 0 <= i < |cols| ==> r[i] == Column(cols[i].name, Finished(cols[i].name, cols[i].cells))
    ensures Clean(Table(n, r))
  {
    forall c | c in r ensures |c.cells| == n {
      var i :| 0 <= i < |r| && r[i] == c;
      assert cols[i] in cols;
    }
    forall c | c in r && c.name in {PLACE, LOCATION, REVIEW}
      ensures forall x :: x in c.cells ==> x.Some? && (c.name == LOCATION ==> LowerStrip(x.value) == x.value)
    {
      var i :| 0 <= i < |r| && r[i] == c;
      FinishedCellsClean(cols[i].name, cols[i].cells);
    }
    assert Names(r) == Names(cols);
  }

  /** Finished canonical cells are never null, and finished locations are
      lower-cased and stripped. */
  lemma FinishedCellsClean(name: string, cells: seq<Cell>)
    requires name in {PLACE, LOCATION, REVIEW}
    ensures forall x :: x in Finished(name, cells) ==> x.Some? && (name == LOCATION ==> LowerStrip(x.value) == x.value)
  {
    var f := Finished(name, cells);
    forall x | x in f ensures x.Some? && (name == LOCATION ==> LowerStrip(x.value) == x.value) {
      var j :| 0 <= j < |f| && f[j] == x;
      if name == LOCATION {
        LowerStripIdempotent(cells[j].GetOr(UNKNOWN_LOCATION));
      }
    }
  }

  /** A successful normalisation keeps the row count and yields a clean
      table: canonical columns present, never null, `Location` normalised. */
  lemma NormalizeClean(t: Table)
    requires WellFormed(t)
    requires Normalize(t).Success?
    ensures Normalize(t).value.nrows == t.nrows
    ensures Clean(Normalize(t).value)
  {
    var mapped := Mapped(t);
    var resolved := ResolveAll(mapped, Missing(Names(mapped.columns)));
    NormalizeOutcome(t);
    MappedWellFormed(t);
    ResolveAllWellFormed(mapped, Missing(Names(mapped.columns)));
    NamesKept(resolved.columns);
    FinishClean(resolved.columns, t.nrows);
  }

  /** The `fillna` default of a canonical column. */
  function Default(m: string): string {
    if m == PLACE then UNKNOWN_PLACE else if m == LOCATION then UNKNOWN_LOCATION else NO_REVIEW
  }

  /** What cleaning makes of one cell of the canonical column `m`: a null
      becomes the column's default, and a `Location` is then lower-cased and
      stripped. */
  function CleanedCell(m: string, x: Cell): string {
    var filled := x.GetOr(Default(m));
    if m == LOCATION then LowerStrip(filled) else filled
  }

  /** Null cells become `Unknown Place`, `unknown` (the lowered `Unknown`)
      and `No review available`; present `Place` and `Review` cells are kept
      verbatim and present `Location` cells lower-cased and stripped. */
  lemma CleanedCellValues(s: string)
    ensures CleanedCell(PLACE, None) == "Unknown Place"
    ensures CleanedCell(LOCATION, None) == "unknown"
    ensures CleanedCell(REVIEW, None) == "No review available"
    ensures CleanedCell(PLACE, Some(s)) == s && CleanedCell(REVIEW, Some(s)) == s
    ensures CleanedCell(LOCATION, Some(s)) == LowerStrip(s)
  {
    LowerStripOfTrimmed(UNKNOWN_LOCATION);
    assert Lower(UNKNOWN_LOCATION) == "unknown";
  }

  /** The cells a canonical label is read from after relabelling: its own
      (first) column when present, else a copy of the first column whose
      label suggests it. */
  ghost function SourceCells(cols: seq<Column>, m: string): seq<Cell>
    requires Resolvable(cols, m)
  {
    if m in Names(cols) then ColumnNamed(cols, m).cells
    else
      FirstSuggestingFinds(cols, m);
      FirstSuggesting(cols, m).value.cells
  }

  /** The cells of every canonical output column: one per row, each the
      cleaned cell of its source column in the same row. */
  lemma NormalizeCells(t: Table, m: string)
    requires WellFormed(t) && Normalize(t).Success?
    requires m in {PLACE, LOCATION, REVIEW}
    ensures Resolvable(Mapped(t).columns, m)
    ensures m in Names(Normalize(t).value.columns)
    ensures var out := ColumnNamed(Normalize(t).value.columns, m).cells;
      var src := SourceCells(Mapped(t).columns, m);
      && |out| == |src| == t.nrows
      && forall j :: 0 <= j < |src| ==> out[j] == Some(CleanedCell(m, src[j]))
  {
    var mapped := Mapped(t);
    var missing := Missing(Names(mapped.columns));
    var resolved := ResolveAll(mapped, missing);
    NormalizeOutcome(t);
    assert Resolvable(mapped.columns, m);
    MissingSpec(Names(mapped.columns));
    ResolveAllSpec(mapped, missing);
    SourceOfResolved(mapped.columns, Added(mapped.columns, missing), missing, m);
    MappedWellFormed(t);
    ResolveAllWellFormed(mapped, missing);
    assert Normalize(t).value.columns == LowerLocation(FillNulls(resolved.columns));
    FinishedCells(resolved.columns, t.nrows, m);
  }

  /** The finished cells of a canonical column, one per row. */
  lemma FinishedCells(cols: seq<Column>, n: nat, m: string)
    requires forall c :: c in cols ==> |c.cells| == n
    requires m in Names(cols) && m in {PLACE, LOCATION, REVIEW}
    ensures m in Names(LowerLocation(FillNulls(cols)))
    ensures var out := ColumnNamed(LowerLocation(FillNulls(cols)), m).cells;
      var src := ColumnNamed(cols, m).cells;
      && |out| == |src| == n
      && forall j :: 0 <= j < |src| ==> out[j] == Some(CleanedCell(m, src[j]))
  {
    FinishedColumns(cols);
    ColumnNamedFinished(cols, LowerLocation(FillNulls(cols)), m);
    assert ColumnNamed(cols, m) in cols;
  }

  /** Where a canonical label's column comes from after the fallback. */
  lemma SourceOfResolved(cols: seq<Column>, added: seq<Column>, missing: seq<string>, m: string)
    requires added == Added(cols, missing)
    requires forall x :: x in missing <==> x in {PLACE, LOCATION, REVIEW} && x !in Names(cols)
    requires m in {PLACE, LOCATION, REVIEW} && Resolvable(cols, m)
    ensures m in Names(cols + added)
    ensures ColumnNamed(cols + added, m).cells == SourceCells(cols, m)
  {
    NamesOfAppend(cols, added);
    AddedSpec(cols, missing);
    FirstSuggestingFinds(cols, m);
    ColumnNamedAppend(cols, added, m);
    if m !in Names(cols) {
      AddedCells(cols, missing);
      assert ColumnNamed(added, m) in added;
    }
  }

  /** `df[name]` on two lists of columns: the first list wins. */
  lemma {:induction false} ColumnNamedAppend(a: seq<Column>, b: seq<Column>, m: string)
    requires m in Names(a + b)
    ensures m in Names(a) ==> ColumnNamed(a + b, m) == ColumnNamed(a, m)
    ensures m !in Names(a) ==> m in Names(b) && ColumnNamed(a + b, m) == ColumnNamed(b, m)
  {
    if a == [] {
      assert a + b == b;
    } else {
      assert (a + b)[0] == a[0] && (a + b)[1..] == a[1..] + b;
      if a[0].name != m {
        assert forall x :: x in Names(a) <==> x == a[0].name || x in Names(a[1..]);
        NamesOfAppend(a[1..], b);
        NamesOfAppend(a, b);
        ColumnNamedAppend(a[1..], b, m);
      }
    }
  }

  /** Every added column copies the cells of the column that suggested it. */
  lemma {:induction false} AddedCells(cols: seq<Column>, missing: seq<string>)
    ensures forall a :: a in Added(cols, missing) ==>
      FirstSuggesting(cols, a.name).Some? && a.cells == FirstSuggesting(cols, a.name).value.cells
  {
    if missing != [] {
      AddedCells(cols, missing[..|missing| - 1]);
    }
  }

  /** The cells of a column once filled and lowered. */
  function Finished(name: string, cells: seq<Cell>): seq<Cell> {
    if name in {PLACE, LOCATION, REVIEW} then
      seq(|cells|, j requires 0 <= j < |cells| => Some(CleanedCell(name, cells[j])))
    else cells
  }

  /** Filling and lowering finish every column in place, keeping its label. */
  lemma FinishedColumns(cols: seq<Column>)
    ensures var out := LowerLocation(FillNulls(cols));
      && |out| == |cols|
      && forall i :: 0 <= i < |cols| ==> out[i] == Column(cols[i].name, Finished(cols[i].name, cols[i].cells))
  {
    var out := LowerLocation(FillNulls(cols));
    forall i | 0 <= i < |cols| ensures out[i] == Column(cols[i].name, Finished(cols[i].name, cols[i].cells)) {
      var c := cols[i];
      if c.name == PLACE {
        assert out[i].cells == FillCells(c.cells, UNKNOWN_PLACE);
      } else if c.name == LOCATION {
        assert out[i].cells == LowerCells(FillCells(c.cells, UNKNOWN_LOCATION));
      } else if c.name == REVIEW {
        assert out[i].cells == FillCells(c.cells, NO_REVIEW);
      }
    }
  }

  /** `df[name]` after a label-keeping, column-wise finishing. */
  lemma {:induction false} ColumnNamedFinished(cols: seq<Column>, out: seq<Column>, m: string)
    requires m in Names(cols)
    requires |out| == |cols|
    requires forall i :: 0 <= i < |cols| ==> out[i] == Column(cols[i].name, Finished(cols[i].name, cols[i].cells))
    ensures m in Names(out)
    ensures ColumnNamed(out, m).cells == Finished(m, ColumnNamed(cols, m).cells)
  {
    assert Names(out) == Names(cols);
    if cols[0].name != m {
      assert Names(cols[1..]) == Names(cols)[1..];
      ColumnNamedFinished(cols[1..], out[1..], m);
    }
  }

  // ---------------------------------------------------------------------
  // The normalised labels

  /** A label that normalising maps to itself and does not drop. */
  ghost predicate LabelFixed(name: string) {
    Rename(LowerStrip(name)) == name && !StartsWith(name, "Unnamed")
  }

  lemma CanonicalLabelsFixed()
    ensures LabelFixed(PLACE) && LabelFixed(LOCATION) && LabelFixed(REVIEW)
  {
    PlaceLabelFixed();
    LocationLabelFixed();
    ReviewLabelFixed();
  }

  lemma PlaceLabelFixed() ensures LabelFixed(PLACE) {
    LabelFixedByLowering(PLACE, "place");
  }

  lemma LocationLabelFixed() ensures LabelFixed(LOCATION) {
    LabelFixedByLowering(LOCATION, "location");
  }

  lemma ReviewLabelFixed() ensures LabelFixed(REVIEW) {
    LabelFixedByLowering(REVIEW, "review");
  }

  /** A canonical label whose lowered form is its own synonym. */
  lemma LabelFixedByLowering(canon: string, lowered: string)
    requires canon != [] && !IsSpace(canon[0]) && !IsSpace(canon[|canon| - 1])
    requires canon[0] != 'U'
    requires Lower(canon) == lowered && Rename(lowered) == canon
    ensures LabelFixed(canon)
  {
    LowerStripOfTrimmed(canon);
  }

  /** Every label the renaming produces is fixed: a synonym becomes its
      canonical label, anything else is already lower-case and stripped. */
  lemma RenamedLabelFixed(name: string)
    ensures LabelFixed(Rename(LowerStrip(name)))
  {
    var l := LowerStrip(name);
    if IsSynonym(l) {
      CanonicalLabelsFixed();
    } else {
      PlainLabelFixed(name);
    }
  }

  /** A lowered, stripped label that is no synonym is its own renaming and
      cannot start with the upper-case `Unnamed`. */
  lemma PlainLabelFixed(name: string)
    requires !IsSynonym(LowerStrip(name))
    ensures LabelFixed(LowerStrip(name))
  {
    var l := LowerStrip(name);
    LowerStripIdempotent(name);
    assert Rename(LowerStrip(l)) == l;
    LowerStripHasNoUpper(name);
    NotUnnamedOfNoUpper(l);
  }

  /** Only a label with an upper-case first letter can start with `Unnamed`. */
  lemma NotUnnamedOfNoUpper(s: string)
    requires forall i :: 0 <= i < |s| ==> !IsUpper(s[i])
    ensures !StartsWith(s, "Unnamed")
  {
    assert "Unnamed"[0] == 'U';
  }

  /** Renaming keeps the kept columns in order, with their cells, under
      fixed labels. */
  lemma MappedLabels(t: Table)
    ensures var kept := DropUnnamed(t.columns);
      var cols := Mapped(t).columns;
      && |cols| == |kept|
      && (forall i :: 0 <= i < |kept| ==>
            cols[i].name == Rename(LowerStrip(kept[i].name)) && cols[i].cells == kept[i].cells)
      && (forall c :: c in cols ==> LabelFixed(c.name))
  {
    var kept := DropUnnamed(t.columns);
    var lowered := LowerStripNames(kept);
    var cols := RenameColumns(lowered);
    assert Mapped(t).columns == cols;
    forall i | 0 <= i < |kept|
      ensures cols[i].name == Rename(LowerStrip(kept[i].name)) && cols[i].cells == kept[i].cells
    {
      assert lowered[i] == Column(LowerStrip(kept[i].name), kept[i].cells);
    }
    RenamedColumnsFixed(kept, cols);
  }

  lemma RenamedColumnsFixed(kept: seq<Column>, cols: seq<Column>)
    requires |cols| == |kept|
    requires forall i :: 0 <= i < |kept| ==> cols[i].name == Rename(LowerStrip(kept[i].name))
    ensures forall c :: c in cols ==> LabelFixed(c.name)
  {
    forall c | c in cols ensures LabelFixed(c.name) {
      var i :| 0 <= i < |cols| && cols[i] == c;
      RenamedLabelFixed(kept[i].name);
    }
  }

  lemma CanonicalColumnsFixed(added: seq<Column>)
    requires forall a :: a in added ==> a.name in {PLACE, LOCATION, REVIEW}
    ensures forall a :: a in added ==> LabelFixed(a.name)
  {
    forall a | a in added ensures LabelFixed(a.name) {
      if a.name == PLACE {
        PlaceLabelFixed();
      } else if a.name == LOCATION {
        LocationLabelFixed();
      } else {
        ReviewLabelFixed();
      }
    }
  }

  /** The labels of the normalised table, index by index, are those after
      the fallback loop: the renamed ones, then the added ones. */
  lemma NormalizedLabelsResolved(t: Table)
    requires Normalize(t).Success?
    ensures var mapped := Mapped(t);
      var missing := Missing(Names(mapped.columns));
      var cols := mapped.columns + Added(mapped.columns, missing);
      var out := Normalize(t).value.columns;
      && (forall m :: m in missing ==> m in {PLACE, LOCATION, REVIEW})
      && |out| == |cols|
      && (forall i :: 0 <= i < |out| ==> out[i].name == cols[i].name)
  {
    var mapped := Mapped(t);
    var missing := Missing(Names(mapped.columns));
    var resolved := ResolveAll(mapped, missing);
    MissingSpec(Names(mapped.columns));
    ResolveAllSpec(mapped, missing);
    NamesKept(resolved.columns);
    var out := Normalize(t).value.columns;
    forall i | 0 <= i < |out| ensures out[i].name == resolved.columns[i].name {
      assert Names(out)[i] == Names(resolved.columns)[i];
    }
  }

  /** The output labels: the kept input labels, lowered, stripped and
      renamed, in their order, followed by canonical labels the fallback
      added. */
  lemma NormalizeLabels(t: Table)
    requires Normalize(t).Success?
    ensures var out := Normalize(t).value.columns;
      var kept := DropUnnamed(t.columns);
      && |kept| <= |out|
      && (forall i :: 0 <= i < |kept| ==> out[i].name == Rename(LowerStrip(kept[i].name)))
      && (forall i :: |kept| <= i < |out| ==> out[i].name in {PLACE, LOCATION, REVIEW})
  {
    var mapped := Mapped(t);
    var missing := Missing(Names(mapped.columns));
    var added := Added(mapped.columns, missing);
    NormalizedLabelsResolved(t);
    AddedCanonical(mapped.columns, missing);
    MappedLabels(t);
    LabelsOfConcat(DropUnnamed(t.columns), mapped.columns, added, Normalize(t).value.columns);
  }

  lemma LabelsOfConcat(kept: seq<Column>, mapped: seq<Column>, added: seq<Column>, out: seq<Column>)
    requires |mapped| == |kept|
    requires forall i :: 0 <= i < |kept| ==> mapped[i].name == Rename(LowerStrip(kept[i].name))
    requires forall a :: a in added ==> a.name in {PLACE, LOCATION, REVIEW}
    requires |out| == |mapped + added|
    requires forall i :: 0 <= i < |out| ==> out[i].name == (mapped + added)[i].name
    ensures |kept| <= |out|
    ensures forall i :: 0 <= i < |kept| ==> out[i].name == Rename(LowerStrip(kept[i].name))
    ensures forall i :: |kept| <= i < |out| ==> out[i].name in {PLACE, LOCATION, REVIEW}
  {
    forall i | |kept| <= i < |out| ensures out[i].name in {PLACE, LOCATION, REVIEW} {
      assert (mapped + added)[i] == added[i - |mapped|];
      assert added[i - |mapped|] in added;
    }
  }

  lemma AddedLabelsFixed(cols: seq<Column>, missing: seq<string>)
    requires forall m :: m in missing ==> m in {PLACE, LOCATION, REVIEW}
    ensures forall a :: a in Added(cols, missing) ==> LabelFixed(a.name)
  {
    AddedCanonical(cols, missing);
    CanonicalColumnsFixed(Added(cols, missing));
  }

  /** Fixed labels carried over, index by index, to a sequence of columns. */
  lemma FixedLabelsCarried(cols: seq<Column>, out: seq<Column>)
    requires forall c :: c in cols ==> LabelFixed(c.name)
    requires |out| == |cols|
    requires forall i :: 0 <= i < |out| ==> out[i].name == cols[i].name
    ensures forall c :: c in out ==> LabelFixed(c.name)
  {
    forall c | c in out ensures LabelFixed(c.name) {
      var i :| 0 <= i < |out| && out[i] == c;
      assert cols[i] in cols;
    }
  }

  /** Every output label is fixed under normalising it again. */
  lemma NormalizedLabelsFixed(t: Table)
    requires Normalize(t).Success?
    ensures forall c :: c in Normalize(t).value.columns ==> LabelFixed(c.name)
  {
    var mapped := Mapped(t);
    var missing := Missing(Names(mapped.columns));
    var added := Added(mapped.columns, missing);
    NormalizedLabelsResolved(t);
    AddedLabelsFixed(mapped.columns, missing);
    MappedLabels(t);
    FixedLabelsCarried(mapped.columns + added, Normalize(t).value.columns);
  }




  // ---------------------------------------------------------------------
  // Normalising twice

  lemma {:induction false} DropUnnamedNone(cols: seq<Column>)
    requires forall c :: c in cols ==> !StartsWith(c.name, "Unnamed")
    ensures DropUnnamed(cols) == cols
  {
    if cols != [] {
      assert cols[0] in cols;
      assert forall c :: c in cols[1..] ==> c in cols;
      DropUnnamedNone(cols[1..]);
      assert DropUnnamed(cols) == [cols[0]] + DropUnnamed(cols[1..]);
      assert cols == [cols[0]] + cols[1..];
    }
  }

  /** Columns under fixed labels survive dropping and renaming untouched. */
  lemma MappedOfFixed(t: Table)
    requires forall c :: c in t.columns ==> LabelFixed(c.name)
    ensures Mapped(t) == t
  {
    DropUnnamedNone(t.columns);
    var cols := RenameColumns(LowerStripNames(t.columns));
    forall i | 0 <= i < |cols| ensures cols[i] == t.columns[i] {
      assert t.columns[i] in t.columns;
    }
  }

  lemma FillColumnOfFilled(cols: seq<Column>, name: string, default: string)
    requires forall c, x :: c in cols && c.name == name && x in c.cells ==> x.Some?
    ensures FillColumn(cols, name, default) == cols
  {
    var r := FillColumn(cols, name, default);
    forall i | 0 <= i < |cols| ensures r[i] == cols[i] {
      if cols[i].name == name {
        assert cols[i] in cols;
        FillCellsOfFilled(cols[i].cells, default);
      }
    }
  }

  lemma FillCellsOfFilled(cells: seq<Cell>, default: string)
    requires forall x :: x in cells ==> x.Some?
    ensures FillCells(cells, default) == cells
  {
    forall j | 0 <= j < |cells| ensures FillCells(cells, default)[j] == cells[j] {
      assert cells[j] in cells;
    }
  }

  lemma LowerLocationOfLowered(cols: seq<Column>)
    requires forall c, x :: c in cols && c.name == LOCATION && x in c.cells ==> x.Some? && LowerStrip(x.value) == x.value
    ensures LowerLocation(cols) == cols
  {
    var r := LowerLocation(cols);
    forall i | 0 <= i < |cols| ensures r[i] == cols[i] {
      if cols[i].name == LOCATION {
        assert cols[i] in cols;
        LowerCellsOfLowered(cols[i].cells);
      }
    }
  }

  lemma LowerCellsOfLowered(cells: seq<Cell>)
    requires forall x :: x in cells ==> x.Some? && LowerStrip(x.value) == x.value
    ensures LowerCells(cells) == cells
  {
    forall j | 0 <= j < |cells| ensures LowerCells(cells)[j] == cells[j] {
      assert cells[j] in cells;
    }
  }

  /** Normalising a normalised table changes nothing. */
  lemma NormalizeIdempotent(t: Table)
    requires WellFormed(t)
    requires Normalize(t).Success?
    ensures Normalize(Normalize(t).value) == Normalize(t)
  {
    var r := Normalize(t).value;
    NormalizeOutcome(t);
    NormalizeClean(t);
    NormalizedLabelsFixed(t);
    MappedOfFixed(r);
    assert Missing(Names(r.columns)) == [];
    NormalizeComplete(r);
    FillColumnOfFilled(r.columns, REVIEW, NO_REVIEW);
    FillColumnOfFilled(r.columns, LOCATION, UNKNOWN_LOCATION);
    FillColumnOfFilled(r.columns, PLACE, UNKNOWN_PLACE);
    LowerLocationOfLowered(r.columns);
  }

  // ---------------------------------------------------------------------
  // The fallback on an example

  /** The fallback takes the first column, in column order, whose label
      contains one of the substrings listed for the missing label. */
  lemma {:induction false} FirstSuggestingIsFirst(cols: seq<Column>, m: string, i: nat)
    requires i < |cols| && Suggests(m, cols[i].name)
    requires forall j :: 0 <= j < i ==> !Suggests(m, cols[j].name)
    ensures FirstSuggesting(cols, m) == Some(cols[i])
  {
    if i > 0 {
      FirstSuggestingIsFirst(cols[1..], m, i - 1);
    }
  }

  lemma ExampleLabelRenamed()
    ensures Rename(LowerStrip("city")) == LOCATION
  {
    LowerStripOfTrimmed("city");
    assert Lower("city") == "city";
  }

  /** `spot_name` holds none of the substrings listed for `Review`. */
  lemma SpotNameSuggestsNoReview()
    ensures !Suggests(REVIEW, "spot_name")
  {
    assert "review"[2] == 'v' && "comment"[0] == 'c' && "feedback"[0] == 'f';
    assert Lacks("spot_name", 'v') && Lacks("spot_name", 'c') && Lacks("spot_name", 'f');
    NotContains("spot_name", "review", 'v');
    NotContains("spot_name", "comment", 'c');
    NotContains("spot_name", "feedback", 'f');
  }

  lemma FallbackResolved(x: string, y: string, a: seq<Cell>, b: seq<Cell>, c: seq<Cell>)
    requires x !in {PLACE, LOCATION, REVIEW} && y !in {PLACE, LOCATION, REVIEW}
    requires Suggests(PLACE, x) && !Suggests(REVIEW, x) && Suggests(REVIEW, y)
    ensures var mapped := [Column(x, a), Column(y, b), Column(LOCATION, c)];
      && Missing(Names(mapped)) == [PLACE, REVIEW]
      && ResolveAll(Table(|a|, mapped), [PLACE, REVIEW]).columns
         == [Column(x, a), Column(y, b), Column(LOCATION, c), Column(PLACE, a), Column(REVIEW, b)]
  {
    var mapped := [Column(x, a), Column(y, b), Column(LOCATION, c)];
    var t := Table(|a|, mapped);
    assert Names(mapped) == [x, y, LOCATION];
    FirstSuggestingIsFirst(mapped, PLACE, 0);
    var once := mapped + [Column(PLACE, a)];
    FirstSuggestingIsFirst(once, REVIEW, 1);
    assert [PLACE, REVIEW][..1] == [PLACE];
    assert [PLACE][..0] == [];
    assert ResolveAll(t, []) == t;
    assert ResolveAll(t, [PLACE]) == ResolveOne(t, PLACE) == Table(|a|, once);
    assert ResolveAll(t, [PLACE, REVIEW]) == ResolveOne(Table(|a|, once), REVIEW);
    assert once + [Column(REVIEW, b)] == [Column(x, a), Column(y, b), Column(LOCATION, c), Column(PLACE, a), Column(REVIEW, b)];
  }

  lemma FallbackFinished(x: string, y: string, a: seq<Cell>, b: seq<Cell>, c: seq<Cell>)
    requires x !in {PLACE, LOCATION, REVIEW} && y !in {PLACE, LOCATION, REVIEW}
    ensures var resolved := [Column(x, a), Column(y, b), Column(LOCATION, c), Column(PLACE, a), Column(REVIEW, b)];
      && Missing(Names(resolved)) == []
      && Occurrences(Names(resolved), LOCATION) == 1
      && LowerLocation(FillNulls(resolved))
         == [Column(x, a), Column(y, b), Column(LOCATION, LowerCells(FillCells(c, UNKNOWN_LOCATION))),
             Column(PLACE, FillCells(a, UNKNOWN_PLACE)), Column(REVIEW, FillCells(b, NO_REVIEW))]
  {
    var resolved := [Column(x, a), Column(y, b), Column(LOCATION, c), Column(PLACE, a), Column(REVIEW, b)];
    assert Names(resolved) == [x, y, LOCATION, PLACE, REVIEW];
    FallbackLocations(x, y);
  }

  /** The example's labels carry `Location` once. */
  lemma FallbackLocations(x: string, y: string)
    requires x != LOCATION && y != LOCATION
    ensures Occurrences([x, y, LOCATION, PLACE, REVIEW], LOCATION) == 1
  {
    assert LOCATION !in [PLACE, REVIEW];
    assert [LOCATION, PLACE, REVIEW][1..] == [PLACE, REVIEW];
    assert Occurrences([LOCATION, PLACE, REVIEW], LOCATION) == 1;
    assert [y, LOCATION, PLACE, REVIEW][1..] == [LOCATION, PLACE, REVIEW];
    assert [x, y, LOCATION, PLACE, REVIEW][1..] == [y, LOCATION, PLACE, REVIEW];
  }

  lemma ExampleLabelsDiffer()
    ensures "spot_name" !in {PLACE, LOCATION, REVIEW} && "feedback" !in {PLACE, LOCATION, REVIEW}
  {
  }

  lemma ExampleSuggestions()
    ensures Suggests(PLACE, "spot_name") && Suggests(REVIEW, "feedback")
  {
  }

  /** Whenever relabelling yields two plain columns and `Location`, the
      first plain column that mentions a place becomes `Place`, the first
      that mentions a review becomes `Review`, and every canonical column
      is filled (and `Location` lower-cased). */
  lemma FallbackNormalized(t: Table, x: string, y: string, a: seq<Cell>, b: seq<Cell>, c: seq<Cell>)
    requires t.nrows == |a|
    requires Mapped(t) == Table(|a|, [Column(x, a), Column(y, b), Column(LOCATION, c)])
    requires x !in {PLACE, LOCATION, REVIEW} && y !in {PLACE, LOCATION, REVIEW}
    requires Suggests(PLACE, x) && !Suggests(REVIEW, x) && Suggests(REVIEW, y)
    ensures Normalize(t) == Success(Table(|a|, [
           Column(x, a), Column(y, b), Column(LOCATION, LowerCells(FillCells(c, UNKNOWN_LOCATION))),
           Column(PLACE, FillCells(a, UNKNOWN_PLACE)), Column(REVIEW, FillCells(b, NO_REVIEW))]))
  {
    var mapped := Mapped(t);
    FallbackResolved(x, y, a, b, c);
    var resolved := ResolveAll(mapped, [PLACE, REVIEW]);
    var cols := [Column(x, a), Column(y, b), Column(LOCATION, c), Column(PLACE, a), Column(REVIEW, b)];
    assert resolved.columns == cols;
    FallbackFinished(x, y, a, b, c);
    FallbackUnambiguous(x, y, a, b, c);
    NormalizeOfResolved(t, resolved);
  }

  /** Neither fallback turn of the example picks a doubled label. */
  lemma FallbackUnambiguous(x: string, y: string, a: seq<Cell>, b: seq<Cell>, c: seq<Cell>)
    requires x !in {PLACE, LOCATION, REVIEW} && y !in {PLACE, LOCATION, REVIEW}
    requires Suggests(PLACE, x) && !Suggests(REVIEW, x) && Suggests(REVIEW, y)
    ensures FirstAmbiguous([Column(x, a), Column(y, b), Column(LOCATION, c)], [PLACE, REVIEW]) == None
  {
    var cols := [Column(x, a), Column(y, b), Column(LOCATION, c)];
    var names := [x, y, LOCATION];
    assert Names(cols) == names;
    assert x != y;
    FirstSuggestingIsFirst(cols, PLACE, 0);
    FirstSuggestingIsFirst(cols, REVIEW, 1);
    assert names[1..] == [y, LOCATION] && names[1..][1..] == [LOCATION];
    assert Occurrences(names, x) == 1;
    assert Occurrences(names, y) == 1;
    assert [PLACE, REVIEW][1..] == [REVIEW];
  }

  lemma NormalizeOfResolved(t: Table, resolved: Table)
    requires FirstAmbiguous(Mapped(t).columns, Missing(Names(Mapped(t).columns))) == None
    requires resolved == ResolveAll(Mapped(t), Missing(Names(Mapped(t).columns)))
    requires Missing(Names(resolved.columns)) == [] && Occurrences(Names(resolved.columns), LOCATION) <= 1
    ensures Normalize(t) == Success(Table(t.nrows, LowerLocation(FillNulls(resolved.columns))))
  {
  }

  /** Labels `spot_name`, `feedback` and `city` (the last relabelled
      `Location`): `Place` is copied from `spot_name`, which contains
      `name`, and `Review` from `feedback`; both source columns stay. */
  lemma FallbackExample(t: Table, a: seq<Cell>, b: seq<Cell>, c: seq<Cell>)
    requires t.nrows == |a|
    requires Mapped(t) == Table(|a|, [Column("spot_name", a), Column("feedback", b), Column(LOCATION, c)])
    ensures Normalize(t) == Success(Table(|a|, [
           Column("spot_name", a), Column("feedback", b), Column(LOCATION, LowerCells(FillCells(c, UNKNOWN_LOCATION))),
           Column(PLACE, FillCells(a, UNKNOWN_PLACE)), Column(REVIEW, FillCells(b, NO_REVIEW))]))
  {
    ExampleLabelsDiffer();
    ExampleSuggestions();
    SpotNameSuggestsNoReview();
    FallbackNormalized(t, "spot_name", "feedback", a, b, c);
  }

  /** Two columns that both relabel to `Location` (say `city` and
      `Location`) make cleaning raise, even with `Place` and `Review`
      present. */
  lemma DuplicateLocationRaises(t: Table, a: seq<Cell>, b: seq<Cell>, c: seq<Cell>, d: seq<Cell>)
    requires Mapped(t).columns == [Column(PLACE, a), Column(LOCATION, b), Column(LOCATION, c), Column(REVIEW, d)]
    ensures Normalize(t) == Failure(LocationNotText)
  {
    DuplicateLocationResolved(Mapped(t).columns, a, b, c, d);
    assert Missing(Names(Mapped(t).columns)) == [];
    NormalizeComplete(t);
  }

  /** Two columns under one plain label that mentions a place (say
      `spot_name` twice), with `Location` and `Review` present: the fallback
      for `Place` picks that label, selects both columns and raises, though
      `Location` and `Review` need no fallback. */
  lemma DuplicateSourceRaises(t: Table, x: string, a: seq<Cell>, b: seq<Cell>, c: seq<Cell>, d: seq<Cell>)
    requires x !in {PLACE, LOCATION, REVIEW} && Suggests(PLACE, x)
    requires Mapped(t).columns == [Column(x, a), Column(x, b), Column(LOCATION, c), Column(REVIEW, d)]
    ensures Normalize(t) == Failure(AmbiguousSource(PLACE))
  {
    DuplicateSourceAmbiguous(Mapped(t).columns, x, a, b, c, d);
    NormalizeAmbiguous(t, PLACE);
  }

  lemma DuplicateSourceAmbiguous(cols: seq<Column>, x: string, a: seq<Cell>, b: seq<Cell>, c: seq<Cell>, d: seq<Cell>)
    requires x !in {PLACE, LOCATION, REVIEW} && Suggests(PLACE, x)
    requires cols == [Column(x, a), Column(x, b), Column(LOCATION, c), Column(REVIEW, d)]
    ensures Missing(Names(cols)) == [PLACE]
    ensures FirstAmbiguous(cols, [PLACE]) == Some(PLACE)
  {
    var names := [x, x, LOCATION, REVIEW];
    DuplicateSourceLabels(cols, x, a, b, c, d);
    FirstSuggestingIsFirst(cols, PLACE, 0);
    assert names[1..] == [x, LOCATION, REVIEW];
    assert Occurrences(names, x) >= 2;
    FirstAmbiguousAt(cols, [PLACE], 0);
  }

  lemma DuplicateSourceLabels(cols: seq<Column>, x: string, a: seq<Cell>, b: seq<Cell>, c: seq<Cell>, d: seq<Cell>)
    requires x !in {PLACE, LOCATION, REVIEW}
    requires cols == [Column(x, a), Column(x, b), Column(LOCATION, c), Column(REVIEW, d)]
    ensures Names(cols) == [x, x, LOCATION, REVIEW]
    ensures Missing(Names(cols)) == [PLACE]
  {
    assert Names(cols) == [x, x, LOCATION, REVIEW];
  }

  /** The same with the label `spot_name`. */
  lemma DuplicateSpotNameRaises(t: Table, a: seq<Cell>, b: seq<Cell>, c: seq<Cell>, d: seq<Cell>)
    requires Mapped(t).columns
      == [Column("spot_name", a), Column("spot_name", b), Column(LOCATION, c), Column(REVIEW, d)]
    ensures Normalize(t) == Failure(AmbiguousSource(PLACE))
  {
    ExampleLabelsDiffer();
    ExampleSuggestions();
    DuplicateSourceRaises(t, "spot_name", a, b, c, d);
  }

  lemma DuplicateLocationResolved(cols: seq<Column>, a: seq<Cell>, b: seq<Cell>, c: seq<Cell>, d: seq<Cell>)
    requires cols == [Column(PLACE, a), Column(LOCATION, b), Column(LOCATION, c), Column(REVIEW, d)]
    ensures Unresolved(cols) == [] && Occurrences(Names(cols), LOCATION) == 2
  {
    DuplicateLocationLabels(a, b, c, d);
    TwoLocations();
  }

  lemma DuplicateLocationLabels(a: seq<Cell>, b: seq<Cell>, c: seq<Cell>, d: seq<Cell>)
    ensures Names([Column(PLACE, a), Column(LOCATION, b), Column(LOCATION, c), Column(REVIEW, d)])
      == [PLACE, LOCATION, LOCATION, REVIEW]
  {
  }

  lemma TwoLocations()
    ensures Occurrences([PLACE, LOCATION, LOCATION, REVIEW], LOCATION) == 2
  {
    var names := [PLACE, LOCATION, LOCATION, REVIEW];
    assert names[1..] == [LOCATION, LOCATION, REVIEW];
    assert names[1..][1..] == [LOCATION, REVIEW];
    assert names[1..][1..][1..] == [REVIEW];
    assert Occurrences([REVIEW], LOCATION) == 0;
    assert Occurrences([LOCATION, REVIEW], LOCATION) == 1;
    assert Occurrences([LOCATION, LOCATION, REVIEW], LOCATION) == 2;
    assert |PLACE| != |LOCATION|;
  }
}
