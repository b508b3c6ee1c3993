/**
 * `codematic:inci:remove`: look an ingredient up by name, show its details,
 * ask for confirmation unless forced, and delete that one record.
 */
module RemoveCommand {
  import opened Wrappers
  import opened PhpString
  import opened InciCatalog
  import opened Console
  import opened AddCommand

  // ---------------------------------------------------------------------------
  // The details table
  // ---------------------------------------------------------------------------

  const NotSet: Bytes := "Not set"

  /** `$value ?: 'Not set'`: a PHP-empty text shows as "Not set". */
  function TextOrNotSet(v: Option<Bytes>): Bytes {
    if Truthy(v) then v.value else NotSet
  }

  /** `$rating ? $rating . '/3' : 'Not set'`: a null or zero rating shows as "Not set". */
  function RatingCell(rating: Option<int>): Bytes {
    if rating.Some? && rating.value != 0 then IntText(rating.value) + "/3" else NotSet
  }

  /** `$flag !== null ? ($flag ? 'Yes' : 'No') : 'Not set'` */
  function TriState(flag: Option<bool>): Bytes {
    match flag
    case None => NotSet
    case Some(b) => YesNo(b)
  }

  /** `showIngredientDetails`: the eight rows of the table, in order. */
  function DetailRows(id: Id, r: Inci): seq<Row> {
    [ Row("ID", id),
      Row("Name", OrEmpty(r.name)),
      Row("Slug", OrEmpty(r.slug)),
      Row("Polish Name", TextOrNotSet(r.polishName)),
      Row("CAS Number", TextOrNotSet(r.casNumber)),
      Row("Rating", RatingCell(r.rating)),
      Row("Natural", TriState(r.natural)),
      Row("Active", TriState(r.active)) ]
  }

  /** How a reader of the table reads a Yes/No/Not set cell. */
  function ReadTriState(cell: Bytes): Option<bool> {
    if cell == NotSet then None else Some(cell == "Yes")
  }

  /** The three states print differently: the cell gives the flag back. */
  lemma TriStateRoundTrip(flag: Option<bool>)
    ensures ReadTriState(TriState(flag)) == flag
  {
    match flag
    case None =>
    case Some(b) =>
      assert YesNo(b) != NotSet by {
        assert |YesNo(b)| < |NotSet|;
      }
  }

  /** The leading digits of a rating cell, when it has that form. */
  function ReadRating(cell: Bytes): Option<nat> {
    if |cell| > 2 && cell[|cell| - 2..] == "/3" && AllDigits(cell[..|cell| - 2])
    then Some(DigitsValue(cell[..|cell| - 2]))
    else None
  }

  /**
   * A positive rating is printed as its number over 3 and can be read back;
   * no rating and a zero rating both print "Not set", which has no number.
   */
  lemma RatingCellRoundTrip(rating: Option<int>)
    ensures rating.Some? && rating.value > 0 ==> ReadRating(RatingCell(rating)) == Some(rating.value)
    ensures RatingCell(rating) == NotSet <==> rating.None? || rating.value == 0
    ensures ReadRating(RatingCell(rating)).None? <==> rating.None? || rating.value <= 0
  {
    if rating.Some? && rating.value != 0 {
      var n := rating.value;
      var cell := RatingCell(rating);
      if n > 0 {
        var t := NatText(n);
        assert cell == t + "/3";
        assert cell[..|cell| - 2] == t && cell[|cell| - 2..] == "/3";
        NatTextValue(n);
      } else {
        assert cell[0] == '-' && !IsDigit(cell[0]);
        assert cell[..|cell| - 2][0] == '-';
      }
      assert cell[|cell| - 1] == '3' != NotSet[|NotSet| - 1];
    } else {
      assert NotSet[|NotSet| - 2..] != "/3";
    }
  }

  // ---------------------------------------------------------------------------
  // Catalog invariant
  // ---------------------------------------------------------------------------

  /** Deleting records keeps every remaining name and slug paired and unique. */
  lemma RemovePreservesConsistent(before: map<Id, Inci>, after: map<Id, Inci>)
    requires Consistent(before)
    requires after.Keys <= before.Keys && forall id :: id in after ==> after[id] == before[id]
    ensures Consistent(after)
  {
  }

  // ---------------------------------------------------------------------------
  // execute
  // ---------------------------------------------------------------------------

  /**
   * `execute`. `confirm` is the user's answer to the removal question, asked
   * only without `force`; `target` is the record found.
   */
  method Execute(repo: Repository, rawName: Bytes, force: bool, confirm: bool)
    returns (status: Status, details: seq<Row>, ghost target: Option<Id>)
    modifies repo
    ensures var name := Trim(rawName);
      && (target.Some? <==> !IsEmpty(name) && NameTaken(old(repo.records), name))
      && (target.Some? ==> target.value in old(repo.records) && old(repo.records)[target.value].name == Some(name))
    // No ingredient: failure, nothing shown, nothing deleted.
    ensures target.None? ==>
      status == Failure && details == [] && repo.records == old(repo.records) && repo.writes == old(repo.writes)
    // An ingredient: its details are shown and the command succeeds ...
    ensures target.Some? ==>
      status == Success && details == DetailRows(target.value, old(repo.records)[target.value])
    // ... deleting nothing when the user declines ...
    ensures target.Some? && !force && !confirm ==>
      repo.records == old(repo.records) && repo.writes == old(repo.writes)
    // ... and otherwise exactly that record.
    ensures target.Some? && (force || confirm) ==>
      && repo.records == old(repo.records) - {target.value}
      && repo.writes == old(repo.writes) + [Deleted([target.value])]
    ensures Consistent(old(repo.records)) ==> Consistent(repo.records)
  {
    details := [];
    target := None;
    var name := Trim(rawName);
    if IsEmpty(name) {
      return Failure, details, target;
    }
    var found := FindByName(repo.records, name);
    if found.None? {
      return Failure, details, target;
    }
    target := found;
    var id := found.value;
    details := DetailRows(id, repo.records[id]);
    if !force && !confirm {
      return Success, details, target;
    }
    ghost var before := repo.records;
    repo.Delete([id]);
    assert repo.records == before - {id};
    if Consistent(before) {
      RemovePreservesConsistent(before, repo.records);
    }
    status := Success;
  }
}
