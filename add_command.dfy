/**
 * `codematic:inci:add`: the slug derivation (`createSlug`), the existence check
 * and the validation/create path of `execute`, and the catalog invariant that
 * this path guards: every stored slug is derived from the stored name and no two
 * records share a slug.
 */
module AddCommand {
  import opened Wrappers
  import opened PhpString
  import opened InciCatalog
  import opened Console

  // ---------------------------------------------------------------------------
  // createSlug
  // ---------------------------------------------------------------------------

  predicate IsUpper(c: Byte) {
    'A' <= c <= 'Z'
  }

  /** A byte of the class `[a-z0-9]`. */
  predicate IsSlugAlnum(c: Byte) {
    'a' <= c <= 'z' || '0' <= c <= '9'
  }

  /** A byte of the class `[a-z0-9\-]`. */
  predicate IsSlugByte(c: Byte) {
    IsSlugAlnum(c) || c == '-'
  }

  function LowerByte(c: Byte): Byte {
    if IsUpper(c) then (c as int + 32) as char else c
  }

  /** `strtolower`: ASCII letters only, byte by byte. */
  function AsciiLower(s: Bytes): Bytes {
    seq(|s|, i requires 0 <= i < |s| => LowerByte(s[i]))
  }

  /** `preg_replace('/[^a-z0-9\-]/', '-', $s)`: each byte outside the class becomes '-'. */
  function HyphenateDisallowed(s: Bytes): Bytes {
    seq(|s|, i requires 0 <= i < |s| => if IsSlugByte(s[i]) then s[i] else '-')
  }

  /** The letters and digits of `s`, in order. */
  function Alnums(s: Bytes): Bytes
    decreases |s|
  {
    if s == [] then [] else (if IsSlugAlnum(s[0]) then [s[0]] else []) + Alnums(s[1..])
  }

  /** Bytes `i` and `i + 1` are both hyphens. */
  predicate DoubleHyphenAt(s: Bytes, i: int)
    requires 0 <= i < |s| - 1
  {
    s[i] == '-' && s[i + 1] == '-'
  }

  predicate NoDoubleHyphen(s: Bytes) {
    forall i :: 0 <= i < |s| - 1 ==> !DoubleHyphenAt(s, i)
  }

  /** `preg_replace('/-+/', '-', $s)`: every run of hyphens becomes one hyphen. */
  function CollapseHyphens(s: Bytes): Bytes
    decreases |s|
  {
    if |s| <= 1 then s
    else if s[0] == '-' && s[1] == '-' then CollapseHyphens(s[1..])
    else [s[0]] + CollapseHyphens(s[1..])
  }

  /** Slug bytes only. */
  predicate AllSlugBytes(s: Bytes) {
    forall i :: 0 <= i < |s| ==> IsSlugByte(s[i])
  }

  lemma NoDoubleHyphenTail(s: Bytes)
    requires |s| > 0 && NoDoubleHyphen(s)
    ensures NoDoubleHyphen(s[1..])
  {
    forall i | 0 <= i < |s| - 2 ensures !DoubleHyphenAt(s[1..], i) {
      assert !DoubleHyphenAt(s, i + 1);
    }
  }

  /**
   * Collapsing keeps the first byte and the letters and digits, leaves no "--",
   * keeps the string inside `[a-z0-9-]` and changes nothing when there is no "--".
   */
  lemma {:induction false} CollapseHyphensFacts(s: Bytes)
    ensures var r := CollapseHyphens(s);
      && (|s| > 0 ==> |r| > 0 && r[0] == s[0])
      && NoDoubleHyphen(r)
      && (AllSlugBytes(s) ==> AllSlugBytes(r))
      && Alnums(r) == Alnums(s)
      && (NoDoubleHyphen(s) ==> r == s)
    decreases |s|
  {
    if |s| <= 1 {
    } else if s[0] == '-' && s[1] == '-' {
      CollapseHyphensFacts(s[1..]);
      assert DoubleHyphenAt(s, 0);
      assert AllSlugBytes(s) ==> AllSlugBytes(s[1..]) by {
        if AllSlugBytes(s) {
          forall i | 0 <= i < |s| - 1 ensures IsSlugByte(s[1..][i]) {
            assert s[1..][i] == s[i + 1];
          }
        }
      }
    } else {
      var t := CollapseHyphens(s[1..]);
      CollapseHyphensFacts(s[1..]);
      var r := [s[0]] + t;
      assert r == CollapseHyphens(s);
      assert r[1..] == t;
      forall i | 0 <= i < |r| - 1 ensures !DoubleHyphenAt(r, i) {
        if i == 0 {
          assert r[1] == t[0] == s[1];
        } else {
          assert !DoubleHyphenAt(t, i - 1);
          assert r[i] == t[i - 1] && r[i + 1] == t[i];
        }
      }
      if AllSlugBytes(s) {
        forall i | 0 <= i < |s| - 1 ensures IsSlugByte(s[1..][i]) {
          assert s[1..][i] == s[i + 1];
        }
        forall i | 0 <= i < |r| ensures IsSlugByte(r[i]) {
          if i > 0 {
            assert r[i] == t[i - 1];
          }
        }
      }
      if NoDoubleHyphen(s) {
        NoDoubleHyphenTail(s);
        assert r == [s[0]] + s[1..] == s;
      }
    }
  }

  /** `trim($s, '-')` */
  function TrimHyphens(s: Bytes): Bytes {
    TrimBytes(s, {'-'})
  }

  /** `createSlug`: lowercase, hyphenate disallowed bytes, collapse hyphen runs, trim hyphens. */
  function CreateSlug(name: Bytes): Bytes {
    TrimHyphens(CollapseHyphens(HyphenateDisallowed(AsciiLower(name))))
  }

  /** The shape every derived slug has. */
  predicate IsSlug(s: Bytes) {
    && AllSlugBytes(s)
    && NoDoubleHyphen(s)
    && (s != [] ==> s[0] != '-' && s[|s| - 1] != '-')
  }

  lemma {:induction false} AlnumsConcat(a: Bytes, b: Bytes)
    ensures Alnums(a + b) == Alnums(a) + Alnums(b)
    decreases |a|
  {
    if a != [] {
      AlnumsConcat(a[1..], b);
      assert (a + b)[1..] == a[1..] + b;
      var head := if IsSlugAlnum(a[0]) then [a[0]] else [];
      calc {
        Alnums(a + b);
        head + Alnums(a[1..] + b);
        head + (Alnums(a[1..]) + Alnums(b));
        (head + Alnums(a[1..])) + Alnums(b);
      }
    } else {
      assert a + b == b;
    }
  }

  lemma {:induction false} AlnumsOfHyphens(s: Bytes)
    requires forall i :: 0 <= i < |s| ==> s[i] == '-'
    ensures Alnums(s) == []
    decreases |s|
  {
    if s != [] {
      assert forall i :: 0 <= i < |s| - 1 ==> s[1..][i] == s[i + 1];
      AlnumsOfHyphens(s[1..]);
    }
  }

  lemma {:induction false} AlnumsEmpty(s: Bytes)
    ensures Alnums(s) == [] <==> forall i :: 0 <= i < |s| ==> !IsSlugAlnum(s[i])
    decreases |s|
  {
    if s != [] {
      AlnumsEmpty(s[1..]);
      assert forall i :: 1 <= i < |s| ==> s[i] == s[1..][i - 1];
    }
  }

  lemma {:induction false} HyphenateKeepsAlnums(s: Bytes)
    ensures Alnums(HyphenateDisallowed(s)) == Alnums(s)
    decreases |s|
  {
    if s != [] {
      HyphenateKeepsAlnums(s[1..]);
      assert HyphenateDisallowed(s)[1..] == HyphenateDisallowed(s[1..]);
    }
  }

  /** Cutting hyphens off both ends of a collapsed string of slug bytes. */
  lemma {:induction false} SliceBetweenHyphens(s: Bytes, i: int, j: int)
    requires AllSlugBytes(s) && NoDoubleHyphen(s)
    requires 0 <= i <= j <= |s|
    requires forall k :: 0 <= k < i ==> s[k] in {'-'}
    requires forall k :: j <= k < |s| ==> s[k] in {'-'}
    ensures AllSlugBytes(s[i..j]) && NoDoubleHyphen(s[i..j])
    ensures Alnums(s[i..j]) == Alnums(s)
  {
    var pre, r, post := s[..i], s[i..j], s[j..];
    assert s == pre + r + post;
    forall k | 0 <= k < |pre| ensures pre[k] == '-' {
      assert s[k] in {'-'};
    }
    forall k | 0 <= k < |post| ensures post[k] == '-' {
      assert s[j + k] in {'-'};
    }
    AlnumsOfHyphens(pre);
    AlnumsOfHyphens(post);
    AlnumsConcat(pre + r, post);
    AlnumsConcat(pre, r);
    forall k | 0 <= k < |r| ensures IsSlugByte(r[k]) {
      assert r[k] == s[i + k];
    }
    forall k | 0 <= k < |r| - 1 ensures !DoubleHyphenAt(r, k) {
      assert !DoubleHyphenAt(s, i + k);
    }
  }

  /** Trimming hyphens from a hyphen-collapsed string of slug bytes gives a slug with the same letters and digits. */
  lemma TrimHyphensFacts(s: Bytes)
    requires AllSlugBytes(s)
    requires NoDoubleHyphen(s)
    ensures IsSlug(TrimHyphens(s))
    ensures Alnums(TrimHyphens(s)) == Alnums(s)
  {
    var r := TrimHyphens(s);
    var i, j := TrimBytesSlice(s, {'-'});
    SliceBetweenHyphens(s, i, j);
    assert r == s[i..j];
  }

  /** A derived slug uses only `[a-z0-9-]`, has no "--" and neither starts nor ends with '-'. */
  lemma SlugShape(name: Bytes)
    ensures IsSlug(CreateSlug(name))
  {
    var h := HyphenateDisallowed(AsciiLower(name));
    var c := CollapseHyphens(h);
    CollapseHyphensFacts(h);
    TrimHyphensFacts(c);
  }

  /** The slug keeps the lowercased name's letters and digits, in order, and adds no others. */
  lemma SlugKeepsAlnums(name: Bytes)
    ensures Alnums(CreateSlug(name)) == Alnums(AsciiLower(name))
  {
    var h := HyphenateDisallowed(AsciiLower(name));
    var c := CollapseHyphens(h);
    CollapseHyphensFacts(h);
    TrimHyphensFacts(c);
    HyphenateKeepsAlnums(AsciiLower(name));
  }

  /** The slug is empty exactly when the name has no ASCII letter or digit. */
  lemma SlugEmptyIff(name: Bytes)
    ensures CreateSlug(name) == [] <==> forall i :: 0 <= i < |name| ==> !IsSlugAlnum(LowerByte(name[i]))
  {
    var slug := CreateSlug(name);
    SlugShape(name);
    SlugKeepsAlnums(name);
    AlnumsEmpty(slug);
    AlnumsEmpty(AsciiLower(name));
    assert forall i :: 0 <= i < |name| ==> AsciiLower(name)[i] == LowerByte(name[i]);
  }

  /** A string that already has slug shape is its own slug. */
  lemma SlugOfSlug(s: Bytes)
    requires IsSlug(s)
    ensures CreateSlug(s) == s
  {
    assert AsciiLower(s) == s;
    assert HyphenateDisallowed(s) == s;
    CollapseHyphensFacts(s);
    TrimBytesNoop(s, {'-'});
  }

  /** `createSlug` is idempotent. */
  lemma SlugIdempotent(name: Bytes)
    ensures CreateSlug(CreateSlug(name)) == CreateSlug(name)
  {
    SlugShape(name);
    SlugOfSlug(CreateSlug(name));
  }

  /** A name whose lowered, hyphenated form already has slug shape gets that form as its slug. */
  lemma SlugOfShaped(name: Bytes)
    requires IsSlug(HyphenateDisallowed(AsciiLower(name)))
    ensures CreateSlug(name) == HyphenateDisallowed(AsciiLower(name))
  {
    var h := HyphenateDisallowed(AsciiLower(name));
    CollapseHyphensFacts(h);
    TrimBytesNoop(h, {'-'});
  }

  lemma SlugExampleSteps()
    ensures HyphenateDisallowed(AsciiLower("Pentylene Glycol")) == "pentylene-glycol"
  {
    assert AsciiLower("Pentylene Glycol") == "pentylene glycol";
  }

  lemma SlugExampleShape()
    ensures IsSlug("pentylene-glycol")
  {
  }

  /** The documented example: "Pentylene Glycol" becomes "pentylene-glycol". */
  lemma SlugExample()
    ensures CreateSlug("Pentylene Glycol") == "pentylene-glycol"
  {
    SlugExampleSteps();
    SlugExampleShape();
    SlugOfShaped("Pentylene Glycol");
  }


  // ---------------------------------------------------------------------------
  // The catalog invariant guarded by Add
  // ---------------------------------------------------------------------------

  /** Every record has a name and the slug derived from it, and no two records share a slug. */
  ghost predicate Consistent(records: map<Id, Inci>) {
    && (forall id :: id in records ==>
          records[id].name.Some? && records[id].slug == Some(CreateSlug(records[id].name.value)))
    && (forall id1, id2 :: id1 in records && id2 in records && records[id1].slug == records[id2].slug ==> id1 == id2)
  }

  /** Replacing a record by one with the same name and slug keeps the catalog consistent. */
  lemma ReplaceKeepsConsistent(records: map<Id, Inci>, id: Id, r: Inci)
    requires Consistent(records) && id in records
    requires r.name == records[id].name && r.slug == records[id].slug
    ensures Consistent(records[id := r])
  {
    var updated := records[id := r];
    forall other | other in updated
      ensures updated[other].name.Some? && updated[other].slug == Some(CreateSlug(updated[other].name.value))
    {
      if other != id {
        assert updated[other] == records[other];
      }
    }
    forall id1, id2 | id1 in updated && id2 in updated && id1 != id2
      ensures updated[id1].slug != updated[id2].slug
    {
      assert updated[id1].slug == records[id1].slug && updated[id2].slug == records[id2].slug;
    }
  }

  /** In a consistent catalog no two records share a name. */
  lemma ConsistentNamesUnique(records: map<Id, Inci>, id1: Id, id2: Id)
    requires Consistent(records)
    requires id1 in records && id2 in records && records[id1].name == records[id2].name
    ensures id1 == id2
  {
  }

  /** The record Add creates: name, slug and active flag; no content fields. */
  function NewRecord(name: Bytes, slug: Bytes, active: bool): Inci {
    Inci(Some(name), Some(slug), None, None, None, None, None, None, None, None, None, Some(active))
  }

  /** Adding a record whose slug is not taken keeps the catalog consistent. */
  lemma AddPreservesConsistent(records: map<Id, Inci>, id: Id, name: Bytes, active: bool)
    requires Consistent(records)
    requires id !in records && !SlugTaken(records, CreateSlug(name))
    ensures Consistent(records[id := NewRecord(name, CreateSlug(name), active)])
  {
    var slug := CreateSlug(name);
    var added := records[id := NewRecord(name, slug, active)];
    forall other | other in added
      ensures added[other].name.Some? && added[other].slug == Some(CreateSlug(added[other].name.value))
    {
      if other != id {
        assert added[other] == records[other];
      }
    }
    forall id1, id2 | id1 in added && id2 in added && id1 != id2
      ensures added[id1].slug != added[id2].slug
    {
      if id1 != id && id2 != id {
        assert added[id1] == records[id1] && added[id2] == records[id2];
      } else {
        var other := if id1 == id then id2 else id1;
        assert other in records && records[other].slug != Some(slug);
        assert added[other].slug != added[id].slug;
      }
    }
  }

  // ---------------------------------------------------------------------------
  // execute
  // ---------------------------------------------------------------------------

  /**
   * `execute`: `newId` is the random UUID the command draws for the record.
   * Fails, creating nothing, on an empty trimmed name or a slug already taken;
   * otherwise creates exactly one record.
   */
  method Execute(repo: Repository, rawName: Bytes, inactive: bool, newId: Id) returns (status: Status)
    requires newId !in repo.records
    modifies repo
    ensures var name := Trim(rawName);
            IsEmpty(name) || SlugTaken(old(repo.records), CreateSlug(name)) ==>
              status == Failure && repo.records == old(repo.records) && repo.writes == old(repo.writes)
    ensures var name := Trim(rawName); var slug := CreateSlug(name);
            !IsEmpty(name) && !SlugTaken(old(repo.records), slug) ==>
              && status == Success
              && repo.records == old(repo.records)[newId := NewRecord(name, slug, !inactive)]
              && repo.writes == old(repo.writes) + [Created(newId, NewRecord(name, slug, !inactive))]
    ensures Consistent(old(repo.records)) ==> Consistent(repo.records)
  {
    var name := Trim(rawName);
    var active := !inactive;
    if IsEmpty(name) {
      return Failure;
    }
    var slug := CreateSlug(name);
    if SlugTaken(repo.records, slug) {
      return Failure;
    }
    ghost var before := repo.records;
    repo.Create(newId, NewRecord(name, slug, active));
    if Consistent(before) {
      AddPreservesConsistent(before, newId, name, active);
    }
    status := Success;
  }
}
