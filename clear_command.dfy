/**
 * `codematic:inci:clear`: count every ingredient, list them when there are
 * few, ask twice for confirmation unless forced, and delete them all.
 */
module ClearCommand {
  import opened Wrappers
  import opened PhpString
  import opened InciCatalog
  import opened Console

  /** At most this many ingredients are listed one by one before deletion. */
  const ListLimit: nat := 20

  /**
   * The bytes that start every listed line: the UTF-8 encoding of "•" read as
   * Windows-1252 and encoded to UTF-8 again, then a space.
   */
  const Bullet: Bytes := "\U{C3}\U{A2}\U{E2}\U{82}\U{AC}\U{C2}\U{A2} "

  /** The bullet, the name, then the slug in parentheses: a null name or slug interpolates as nothing. */
  function ListLine(r: Inci): Bytes {
    Bullet + OrEmpty(r.name) + " (" + OrEmpty(r.slug) + ")"
  }

  /** What the command prints about the records it is about to remove. */
  datatype Listing =
    | NoListing           // the catalog was empty
    | Listed(lines: seq<Bytes>)
    | TooMany(total: nat)  // "Too many ingredients to list"

  /** `lines` names every record of `records` and nothing else. */
  ghost predicate ListsAll(records: map<Id, Inci>, lines: seq<Bytes>) {
    && (forall id :: id in records ==> ListLine(records[id]) in lines)
    && (forall l :: l in lines ==> exists id :: id in records && l == ListLine(records[id]))
  }

  /** The `foreach` printing one line per entity of the search result. */
  method ListLines(records: map<Id, Inci>, ids: seq<Id>) returns (lines: seq<Bytes>)
    requires forall id :: id in ids ==> id in records
    ensures |lines| == |ids| && forall i :: 0 <= i < |ids| ==> lines[i] == ListLine(records[ids[i]])
  {
    lines := [];
    for i := 0 to |ids|
      invariant |lines| == i && forall k :: 0 <= k < i ==> lines[k] == ListLine(records[ids[k]])
    {
      lines := lines + [ListLine(records[ids[i]])];
    }
  }

  /** One line per record, for a result that holds every record: the listing shows them all. */
  lemma ListLinesAll(records: map<Id, Inci>, ids: seq<Id>, lines: seq<Bytes>)
    requires forall id :: id in records <==> id in ids
    requires |lines| == |ids| && forall i :: 0 <= i < |ids| ==> lines[i] == ListLine(records[ids[i]])
    ensures ListsAll(records, lines)
  {
    forall id | id in records ensures ListLine(records[id]) in lines {
      var i :| 0 <= i < |ids| && ids[i] == id;
      assert lines[i] == ListLine(records[id]);
    }
    forall l | l in lines ensures exists id :: id in records && l == ListLine(records[id]) {
      var i :| 0 <= i < |lines| && lines[i] == l;
      assert ids[i] in records;
    }
  }

  /** Up to twenty records are listed, every one of them; more are only counted. */
  method Preview(records: map<Id, Inci>, ids: seq<Id>) returns (listing: Listing)
    requires |ids| == |records| && forall id :: id in records <==> id in ids
    ensures |ids| <= ListLimit ==> listing.Listed? && |listing.lines| == |ids| && ListsAll(records, listing.lines)
    ensures |ids| > ListLimit ==> listing == TooMany(|ids|)
  {
    if |ids| <= ListLimit {
      var lines := ListLines(records, ids);
      ListLinesAll(records, ids, lines);
      listing := Listed(lines);
    } else {
      listing := TooMany(|ids|);
    }
  }

  /** The `foreach` collecting `['id' => ...]` for every entity of the search result. */
  method CollectIds(ids: seq<Id>) returns (collected: seq<Id>)
    ensures collected == ids
  {
    collected := [];
    for i := 0 to |ids|
      invariant collected == ids[..i]
    {
      assert ids[..i + 1] == ids[..i] + [ids[i]];
      collected := collected + [ids[i]];
    }
  }

  /**
   * `execute`. `confirm` and `confirmAgain` are the user's answers to the two
   * questions, asked only without `force` (the second only after a yes to the
   * first). `ids` is the search result, every record once.
   */
  method Execute(repo: Repository, force: bool, confirm: bool, confirmAgain: bool)
    returns (status: Status, total: nat, listing: Listing, ghost ids: seq<Id>)
    modifies repo
    ensures status == Success
    ensures total == |old(repo.records)| == |ids|
    ensures forall id :: id in old(repo.records) <==> id in ids
    // Nothing to remove: nothing listed, nothing deleted.
    ensures total == 0 ==>
      listing == NoListing && repo.records == old(repo.records) && repo.writes == old(repo.writes)
    // Up to twenty ingredients are listed, every one of them; more are only counted.
    ensures 0 < total <= ListLimit ==>
      listing.Listed? && |listing.lines| == total && ListsAll(old(repo.records), listing.lines)
    ensures total > ListLimit ==> listing == TooMany(total)
    // A "no" to either question deletes nothing ...
    ensures total > 0 && !force && !(confirm && confirmAgain) ==>
      repo.records == old(repo.records) && repo.writes == old(repo.writes)
    // ... otherwise every record is deleted in one write.
    ensures total > 0 && (force || (confirm && confirmAgain)) ==>
      repo.records == map[] && repo.writes == old(repo.writes) + [Deleted(ids)]
  {
    var found := ListIds(repo.records);
    ids := found;
    total := |found|;
    if total == 0 {
      return Success, total, NoListing, ids;
    }
    listing := Preview(repo.records, found);
    if !force {
      if !confirm {
        return Success, total, listing, ids;
      }
      if !confirmAgain {
        return Success, total, listing, ids;
      }
    }
    var toDelete := CollectIds(found);
    if toDelete != [] {
      repo.Delete(toDelete);
    }
    assert repo.records.Keys == {};
    status := Success;
  }
}
