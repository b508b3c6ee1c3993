/**
 * `codematic:inci:show`: look an ingredient up by name and print its basic
 * information table, its resources one per line and its detail-page URL.
 * The command has no way to change the catalog.
 */
module ShowCommand {
  import opened Wrappers
  import opened PhpString
  import opened InciCatalog
  import opened Console

  // ---------------------------------------------------------------------------
  // The basic information table
  // ---------------------------------------------------------------------------

  /** The rows the table can have, in the order they are appended. */
  datatype Info =
    | NameRow | PolishNameRow | SlugRow | AlternativeNamesRow | CasNumberRow
    | OriginRow | MainFunctionsRow | SafetyRatingRow | ActiveRow

  function InfoRank(f: Info): nat {
    match f
    case NameRow => 0
    case PolishNameRow => 1
    case SlugRow => 2
    case AlternativeNamesRow => 3
    case CasNumberRow => 4
    case OriginRow => 5
    case MainFunctionsRow => 6
    case SafetyRatingRow => 7
    case ActiveRow => 8
  }

  /** The table shows a row: Name and Active always, text rows when truthy, Origin and Safety Rating when not null. */
  predicate Shows(r: Inci, f: Info) {
    match f
    case NameRow => true
    case PolishNameRow => Truthy(r.polishName)
    case SlugRow => Truthy(r.slug)
    case AlternativeNamesRow => Truthy(r.alternativeNames)
    case CasNumberRow => Truthy(r.casNumber)
    case OriginRow => r.natural.Some?
    case MainFunctionsRow => Truthy(r.mainFunctions)
    case SafetyRatingRow => r.rating.Some?
    case ActiveRow => true
  }

  /** The `match` on the rating: the three known ratings by name, anything else as "Unknown". */
  function RatingLabel(n: int): Bytes {
    if n == 1 then "Good (1)"
    else if n == 2 then "Average (2)"
    else if n == 3 then "Bad (3)"
    else "Unknown"
  }

  /** The row for `f` when it is shown. */
  function InfoRow(r: Inci, f: Info): Row {
    match f
    case NameRow => Row("Name", OrEmpty(r.name))
    case PolishNameRow => Row("Polish Name", OrEmpty(r.polishName))
    case SlugRow => Row("Slug", OrEmpty(r.slug))
    case AlternativeNamesRow => Row("Alternative Names", OrEmpty(r.alternativeNames))
    case CasNumberRow => Row("CAS Number", OrEmpty(r.casNumber))
    case OriginRow => Row("Origin", if r.natural == Some(true) then "Natural" else "Synthetic")
    case MainFunctionsRow => Row("Main Functions", OrEmpty(r.mainFunctions))
    case SafetyRatingRow => Row("Safety Rating", RatingLabel(r.rating.GetOr(0)))
    case ActiveRow => Row("Active", YesNo(r.active == Some(true)))
  }

  function Opt(r: Inci, f: Info): seq<Info> {
    if Shows(r, f) then [f] else []
  }

  /** The rows shown for `r`, in table order. */
  function ShownInfo(r: Inci): seq<Info> {
    [NameRow] + Opt(r, PolishNameRow) + Opt(r, SlugRow) + Opt(r, AlternativeNamesRow)
    + Opt(r, CasNumberRow) + Opt(r, OriginRow) + Opt(r, MainFunctionsRow)
    + Opt(r, SafetyRatingRow) + [ActiveRow]
  }

  /** The row for `f`, if it is shown. */
  function OptRow(r: Inci, f: Info): seq<Row> {
    if Shows(r, f) then [InfoRow(r, f)] else []
  }

  /** `$basicInfo`: the rows shown for `r`, in table order. */
  function InfoRows(r: Inci): seq<Row> {
    [InfoRow(r, NameRow)] + OptRow(r, PolishNameRow) + OptRow(r, SlugRow) + OptRow(r, AlternativeNamesRow)
    + OptRow(r, CasNumberRow) + OptRow(r, OriginRow) + OptRow(r, MainFunctionsRow)
    + OptRow(r, SafetyRatingRow) + [InfoRow(r, ActiveRow)]
  }

  /** `rows` are the rows of the fields `fs`, one for one. */
  ghost predicate Corresponds(r: Inci, rows: seq<Row>, fs: seq<Info>) {
    |rows| == |fs| && forall i :: 0 <= i < |fs| ==> rows[i] == InfoRow(r, fs[i])
  }

  lemma CorrespondsAppend(r: Inci, rows: seq<Row>, fs: seq<Info>, g: Info)
    requires Corresponds(r, rows, fs)
    ensures Corresponds(r, rows + OptRow(r, g), fs + Opt(r, g))
  {
  }

  /** Row `i` of the table is the row of the `i`-th shown field. */
  lemma InfoRowsOfShown(r: Inci)
    ensures Corresponds(r, InfoRows(r), ShownInfo(r))
  {
    var rows := [InfoRow(r, NameRow)];
    var fs := [NameRow];
    CorrespondsAppend(r, rows, fs, PolishNameRow);
    rows, fs := rows + OptRow(r, PolishNameRow), fs + Opt(r, PolishNameRow);
    CorrespondsAppend(r, rows, fs, SlugRow);
    rows, fs := rows + OptRow(r, SlugRow), fs + Opt(r, SlugRow);
    CorrespondsAppend(r, rows, fs, AlternativeNamesRow);
    rows, fs := rows + OptRow(r, AlternativeNamesRow), fs + Opt(r, AlternativeNamesRow);
    CorrespondsAppend(r, rows, fs, CasNumberRow);
    rows, fs := rows + OptRow(r, CasNumberRow), fs + Opt(r, CasNumberRow);
    CorrespondsAppend(r, rows, fs, OriginRow);
    rows, fs := rows + OptRow(r, OriginRow), fs + Opt(r, OriginRow);
    CorrespondsAppend(r, rows, fs, MainFunctionsRow);
    rows, fs := rows + OptRow(r, MainFunctionsRow), fs + Opt(r, MainFunctionsRow);
    CorrespondsAppend(r, rows, fs, SafetyRatingRow);
    rows, fs := rows + OptRow(r, SafetyRatingRow), fs + Opt(r, SafetyRatingRow);
    CorrespondsAppend(r, rows, fs, ActiveRow);
    rows, fs := rows + OptRow(r, ActiveRow), fs + Opt(r, ActiveRow);
    assert rows == InfoRows(r);
    assert fs == ShownInfo(r);
  }

  ghost predicate InfoRanked(fs: seq<Info>) {
    forall i, j :: 0 <= i < j < |fs| ==> InfoRank(fs[i]) < InfoRank(fs[j])
  }

  /** Appending the optional row `g`, of a later rank than every row so far, keeps the order. */
  lemma InfoAppend(r: Inci, s: seq<Info>, g: Info)
    requires InfoRanked(s) && forall x :: x in s ==> InfoRank(x) < InfoRank(g)
    ensures InfoRanked(s + Opt(r, g))
    ensures forall x :: x in s + Opt(r, g) ==> InfoRank(x) <= InfoRank(g)
  {
    var t := s + Opt(r, g);
    forall i, j | 0 <= i < j < |t| ensures InfoRank(t[i]) < InfoRank(t[j]) {
      if j >= |s| {
        assert t[i] in s && t[j] == g;
      }
    }
  }

  /**
   * Name comes first and Active last; every other row appears exactly when its
   * field is set, and all of them come in the fixed table order.
   */
  lemma ShownInfoFacts(r: Inci)
    ensures InfoRanked(ShownInfo(r))
    ensures ShownInfo(r)[0] == NameRow && ShownInfo(r)[|ShownInfo(r)| - 1] == ActiveRow
  {
    var s0 := [NameRow];
    var s1 := s0 + Opt(r, PolishNameRow);
    InfoAppend(r, s0, PolishNameRow);
    var s2 := s1 + Opt(r, SlugRow);
    InfoAppend(r, s1, SlugRow);
    var s3 := s2 + Opt(r, AlternativeNamesRow);
    InfoAppend(r, s2, AlternativeNamesRow);
    var s4 := s3 + Opt(r, CasNumberRow);
    InfoAppend(r, s3, CasNumberRow);
    var s5 := s4 + Opt(r, OriginRow);
    InfoAppend(r, s4, OriginRow);
    var s6 := s5 + Opt(r, MainFunctionsRow);
    InfoAppend(r, s5, MainFunctionsRow);
    var s7 := s6 + Opt(r, SafetyRatingRow);
    InfoAppend(r, s6, SafetyRatingRow);
    var s8 := s7 + Opt(r, ActiveRow);
    InfoAppend(r, s7, ActiveRow);
    assert s8 == ShownInfo(r);
    assert s8[0] == s0[0];
  }

  /** A row is in the table exactly when it is shown. */
  lemma ShownInfoMember(r: Inci, f: Info)
    ensures f in ShownInfo(r) <==> Shows(r, f)
  {
    var s := ShownInfo(r);
    match f
    case NameRow => assert s[0] == NameRow;
    case PolishNameRow =>
    case SlugRow =>
    case AlternativeNamesRow =>
    case CasNumberRow =>
    case OriginRow =>
    case MainFunctionsRow =>
    case SafetyRatingRow =>
    case ActiveRow => assert s[|s| - 1] == ActiveRow;
  }

  /**
   * The table's first row is the name and its last the active flag (null shows
   * as No); Origin is shown exactly when `natural` is not null, as Natural or
   * Synthetic; Safety Rating exactly when the rating is not null.
   */
  lemma InfoRowsShape(r: Inci)
    ensures var rows := InfoRows(r);
      && |rows| >= 2
      && rows[0] == Row("Name", OrEmpty(r.name))
      && rows[|rows| - 1] == Row("Active", YesNo(r.active == Some(true)))
      && (Row("Origin", "Natural") in rows <==> r.natural == Some(true))
      && (Row("Origin", "Synthetic") in rows <==> r.natural == Some(false))
      && (r.rating.Some? <==> Row("Safety Rating", RatingLabel(r.rating.GetOr(0))) in rows)
  {
    ShownInfoFacts(r);
    ShownInfoMember(r, OriginRow);
    ShownInfoMember(r, SafetyRatingRow);
    InfoRowsOfShown(r);
    var fs := ShownInfo(r);
    var rows := InfoRows(r);
    assert fs[0] != fs[|fs| - 1];
    forall i | 0 <= i < |rows| && rows[i].field == "Origin" ensures fs[i] == OriginRow {
      CaptionOrigin(r, fs[i]);
    }
    forall i | 0 <= i < |rows| && rows[i].field == "Safety Rating" ensures fs[i] == SafetyRatingRow {
      CaptionSafetyRating(r, fs[i]);
    }
    if r.natural.Some? {
      var i :| 0 <= i < |fs| && fs[i] == OriginRow;
      assert rows[i] == InfoRow(r, OriginRow);
      assert Row("Origin", if r.natural.value then "Natural" else "Synthetic") in rows;
    }
    forall v | Row("Origin", v) in rows ensures r.natural.Some? && v == InfoRow(r, OriginRow).value {
      var i :| 0 <= i < |rows| && rows[i] == Row("Origin", v);
      assert fs[i] == OriginRow;
    }
    assert "Natural" != "Synthetic";
    if r.rating.Some? {
      var i :| 0 <= i < |fs| && fs[i] == SafetyRatingRow;
      assert rows[i] == InfoRow(r, SafetyRatingRow);
    }
  }

  lemma CaptionOrigin(r: Inci, f: Info)
    requires InfoRow(r, f).field == "Origin"
    ensures f == OriginRow
  {
    match f
    case NameRow =>
    case PolishNameRow =>
    case SlugRow =>
    case AlternativeNamesRow =>
    case CasNumberRow =>
    case OriginRow =>
    case MainFunctionsRow =>
    case SafetyRatingRow =>
    case ActiveRow =>
  }

  lemma CaptionSafetyRating(r: Inci, f: Info)
    requires InfoRow(r, f).field == "Safety Rating"
    ensures f == SafetyRatingRow
  {
    match f
    case NameRow =>
    case PolishNameRow =>
    case SlugRow =>
    case AlternativeNamesRow =>
    case CasNumberRow =>
    case OriginRow =>
    case MainFunctionsRow =>
    case SafetyRatingRow =>
    case ActiveRow =>
  }

  /**
   * The label names the three known ratings and shows the number in brackets;
   * every other value is "Unknown". A generated rating (1 to 3) is never Unknown.
   */
  lemma RatingLabelFacts(n: int)
    ensures RatingLabel(n) == "Unknown" <==> !(1 <= n <= 3)
    ensures 1 <= n <= 3 ==>
      var l := RatingLabel(n);
      |l| >= 4 && l[|l| - 3..] == "(" + NatText(n) + ")"
  {
    if n == 1 {
      assert RatingLabel(n)[5..] == "(1)";
    } else if n == 2 {
      assert RatingLabel(n)[8..] == "(2)";
    } else if n == 3 {
      assert RatingLabel(n)[4..] == "(3)";
    }
  }

  /** `if (...) { $basicInfo[] = [...]; }`: the row of `f` is appended only when shown. */
  method AppendRow(rows: seq<Row>, r: Inci, f: Info) returns (rows': seq<Row>)
    ensures rows' == rows + OptRow(r, f)
  {
    rows' := rows;
    if Shows(r, f) {
      rows' := rows' + [InfoRow(r, f)];
    }
  }

  /** Builds the table row by row, as the command appends to `$basicInfo`. */
  method BasicInfo(r: Inci) returns (rows: seq<Row>)
    ensures rows == InfoRows(r)
  {
    rows := [InfoRow(r, NameRow)];
    rows := AppendRow(rows, r, PolishNameRow);
    rows := AppendRow(rows, r, SlugRow);
    rows := AppendRow(rows, r, AlternativeNamesRow);
    rows := AppendRow(rows, r, CasNumberRow);
    rows := AppendRow(rows, r, OriginRow);
    rows := AppendRow(rows, r, MainFunctionsRow);
    rows := AppendRow(rows, r, SafetyRatingRow);
    rows := rows + [InfoRow(r, ActiveRow)];
  }

  // ---------------------------------------------------------------------------
  // Resources
  // ---------------------------------------------------------------------------

  /** The entries that are not PHP-empty, in order. */
  function NonEmpty(ts: seq<Bytes>): seq<Bytes>
    decreases |ts|
  {
    if ts == [] then []
    else NonEmpty(ts[..|ts| - 1]) + (if IsEmpty(ts[|ts| - 1]) then [] else [ts[|ts| - 1]])
  }

  /** Each piece trimmed. */
  function Trims(pieces: seq<Bytes>): (ts: seq<Bytes>)
    ensures |ts| == |pieces|
  {
    seq(|pieces|, i requires 0 <= i < |pieces| => Trim(pieces[i]))
  }

  /** The resources section: one line per comma-separated entry. */
  function ResourceList(resources: Option<Bytes>): seq<Bytes> {
    if Truthy(resources) then NonEmpty(Trims(Explode(',', resources.value))) else []
  }

  /** The filter keeps exactly the non-empty entries, and nothing it did not get. */
  lemma {:induction false} NonEmptyFacts(ts: seq<Bytes>)
    ensures forall l :: l in NonEmpty(ts) <==> l in ts && !IsEmpty(l)
    decreases |ts|
  {
    if ts != [] {
      var init := ts[..|ts| - 1];
      NonEmptyFacts(init);
      assert ts == init + [ts[|ts| - 1]];
    }
  }

  /** The filter applied to one more entry. */
  lemma NonEmptySnoc(ts: seq<Bytes>, t: Bytes)
    ensures NonEmpty(ts + [t]) == NonEmpty(ts) + if IsEmpty(t) then [] else [t]
  {
    assert (ts + [t])[..|ts|] == ts;
  }

  /** A list of non-empty entries is kept whole. */
  lemma {:induction false} NonEmptyAll(ts: seq<Bytes>)
    requires forall i :: 0 <= i < |ts| ==> !IsEmpty(ts[i])
    ensures NonEmpty(ts) == ts
    decreases |ts|
  {
    if ts != [] {
      var init := ts[..|ts| - 1];
      NonEmptyAll(init);
      assert init + [ts[|ts| - 1]] == ts;
    }
  }

  /**
   * Every resource line is the trim of an entry between commas and non-empty in
   * PHP's sense; every entry whose trim is non-empty gives a line.
   */
  lemma ResourceListFacts(resources: Bytes)
    ensures var pieces := Explode(',', resources);
      && (forall l :: l in ResourceList(Some(resources)) ==> !IsEmpty(l) && l in Trims(pieces))
      && (Truthy(Some(resources)) ==>
            forall i :: 0 <= i < |pieces| && !IsEmpty(Trim(pieces[i])) ==> Trim(pieces[i]) in ResourceList(Some(resources)))
  {
    var pieces := Explode(',', resources);
    TrimmedFacts(pieces);
  }

  /** The kept entries are exactly the non-empty trims of the pieces. */
  lemma TrimmedFacts(pieces: seq<Bytes>)
    ensures forall l :: l in NonEmpty(Trims(pieces)) ==> !IsEmpty(l) && l in Trims(pieces)
    ensures forall i :: 0 <= i < |pieces| && !IsEmpty(Trim(pieces[i])) ==> Trim(pieces[i]) in NonEmpty(Trims(pieces))
  {
    var ts := Trims(pieces);
    NonEmptyFacts(ts);
    forall i | 0 <= i < |pieces| && !IsEmpty(Trim(pieces[i])) ensures Trim(pieces[i]) in ts {
      assert ts[i] == Trim(pieces[i]);
    }
  }

  /** A resource line has no surrounding whitespace and no comma. */
  lemma ResourceLineClean(resources: Bytes, l: Bytes)
    requires l in ResourceList(Some(resources))
    ensures Trim(l) == l && ',' !in l
  {
    ResourceListFacts(resources);
    var pieces := Explode(',', resources);
    var ts := Trims(pieces);
    var i :| 0 <= i < |ts| && ts[i] == l;
    assert l == Trim(pieces[i]);
    TrimBytesIdempotent(pieces[i], Whitespace);
    TrimBytesKeeps(pieces[i], Whitespace);
  }

  /**
   * Resources stored as a comma-joined list of clean entries are printed back
   * as exactly those entries, in order.
   */
  lemma ResourceListRoundTrip(items: seq<Bytes>)
    requires |items| >= 1
    requires forall i :: 0 <= i < |items| ==> ',' !in items[i] && !IsEmpty(items[i]) && Trim(items[i]) == items[i]
    ensures ResourceList(Some(Join(items, ','))) == items
  {
    ExplodeJoin(',', items);
    assert Trims(items) == items;
    NonEmptyAll(items);
    JoinNonEmpty(items);
  }

  /** A join of non-empty entries is itself non-empty in PHP's sense. */
  lemma JoinNonEmpty(items: seq<Bytes>)
    requires |items| >= 1
    requires forall i :: 0 <= i < |items| ==> ',' !in items[i] && !IsEmpty(items[i])
    ensures !IsEmpty(Join(items, ','))
  {
    if |items| > 1 {
      var j := Join(items, ',');
      assert j == items[0] + [','] + Join(items[1..], ',');
      assert j[|items[0]|] == ',';
      assert |j| > 1;
    }
  }

  /** The loop over the exploded resources. */
  method ResourceLines(resources: Option<Bytes>) returns (lines: seq<Bytes>)
    ensures lines == ResourceList(resources)
  {
    lines := [];
    if Truthy(resources) {
      lines := TrimmedLines(Explode(',', resources.value));
    }
  }

  /** The filter over the trimmed entries grows by the next entry's trim, unless that is empty. */
  lemma TrimmedStep(pieces: seq<Bytes>, i: nat)
    requires i < |pieces|
    ensures var t := Trim(pieces[i]);
      NonEmpty(Trims(pieces)[..i + 1]) == NonEmpty(Trims(pieces)[..i]) + if IsEmpty(t) then [] else [t]
  {
    var ts := Trims(pieces);
    assert ts[..i + 1] == ts[..i] + [ts[i]];
    NonEmptySnoc(ts[..i], ts[i]);
  }

  /** The loop over the entries: each is trimmed and printed unless empty. */
  method TrimmedLines(pieces: seq<Bytes>) returns (lines: seq<Bytes>)
    ensures lines == NonEmpty(Trims(pieces))
  {
    lines := [];
    for i := 0 to |pieces|
      invariant lines == NonEmpty(Trims(pieces)[..i])
    {
      var resource := Trim(pieces[i]);
      TrimmedStep(pieces, i);
      if !IsEmpty(resource) {
        lines := lines + [resource];
      }
    }
    assert Trims(pieces)[..|pieces|] == Trims(pieces);
  }


  // ---------------------------------------------------------------------------
  // URL
  // ---------------------------------------------------------------------------

  /** The storefront route of the detail page. */
  const UrlPrefix: Bytes := "/inci/"

  function DetailUrl(slug: Option<Bytes>): Bytes {
    UrlPrefix + OrEmpty(slug)
  }

  // ---------------------------------------------------------------------------
  // execute
  // ---------------------------------------------------------------------------

  /**
   * `execute`. The method has no modifies clause: Show cannot change the
   * catalog. `target` is the record found.
   */
  method Execute(repo: Repository, rawName: Bytes)
    returns (status: Status, info: seq<Row>, resources: seq<Bytes>, url: Bytes, ghost target: Option<Id>)
    ensures var name := Trim(rawName);
      && (target.Some? <==> !IsEmpty(name) && NameTaken(repo.records, name))
      && (target.Some? ==> target.value in repo.records && repo.records[target.value].name == Some(name))
    ensures target.None? ==> status == Failure && info == [] && resources == [] && url == []
    ensures target.Some? ==>
      var r := repo.records[target.value];
      status == Success && info == InfoRows(r) && resources == ResourceList(r.resources) && url == DetailUrl(r.slug)
  {
    info, resources, url := [], [], [];
    target := None;
    var name := Trim(rawName);
    if IsEmpty(name) {
      return Failure, info, resources, url, target;
    }
    var found := FindByName(repo.records, name);
    if found.None? {
      return Failure, info, resources, url, target;
    }
    target := found;
    var ingredient := repo.records[found.value];
    info := BasicInfo(ingredient);
    resources := ResourceLines(ingredient.resources);
    url := UrlPrefix + OrEmpty(ingredient.slug);
    status := Success;
  }
}
