/**
 * Byte strings and the PHP string functions the plugin relies on: `trim`,
 * `empty`, `str_contains`, `str_replace`, `explode` and the integer/decimal
 * conversions. PHP strings are byte strings and none of the calls used here
 * are multibyte-aware, so a string is a sequence of bytes.
 */
module PhpString {
  import opened Wrappers

  /** One byte: a char below 256 stands for the byte with that value. */
  type Byte = c: char | c as int < 256 witness 'a'
  type Bytes = seq<Byte>

  /** PHP `empty()` on a string: "" and "0" are empty. */
  predicate IsEmpty(s: Bytes) {
    s == [] || s == "0"
  }

  /** PHP truthiness of a nullable string (`if ($x)`). */
  predicate Truthy(v: Option<Bytes>) {
    v.Some? && !IsEmpty(v.value)
  }

  /** A nullable string interpolated or passed where a string is expected. */
  function OrEmpty(v: Option<Bytes>): Bytes {
    v.GetOr([])
  }

  // ---------------------------------------------------------------------------
  // trim
  // ---------------------------------------------------------------------------

  /** The bytes `trim()` strips when given no character list: " \t\n\r\0\x0B". */
  const Whitespace: set<Byte> := {' ', '\t', '\n', '\r', '\0', '\U{0B}'}

  /** Strips leading bytes of `strip`; the result is a suffix of `s`. */
  function TrimLeft(s: Bytes, strip: set<Byte>): (r: Bytes)
    ensures |r| <= |s| && r == s[|s| - |r|..]
    ensures forall k :: 0 <= k < |s| - |r| ==> s[k] in strip
    ensures r != [] ==> r[0] !in strip
    decreases |s|
  {
    if s != [] && s[0] in strip then TrimLeft(s[1..], strip) else s
  }

  /** Strips trailing bytes of `strip`; the result is a prefix of `s`. */
  function TrimRight(s: Bytes, strip: set<Byte>): (r: Bytes)
    ensures |r| <= |s| && r == s[..|r|]
    ensures forall k :: |r| <= k < |s| ==> s[k] in strip
    ensures r != [] ==> r[|r| - 1] !in strip
    decreases |s|
  {
    if s != [] && s[|s| - 1] in strip then TrimRight(s[..|s| - 1], strip) else s
  }

  /** `trim($s, $chars)`: `s` without its leading and trailing bytes of `strip`. */
  function TrimBytes(s: Bytes, strip: set<Byte>): (r: Bytes)
    ensures |r| <= |s|
    ensures r != [] ==> r[0] !in strip && r[|r| - 1] !in strip
  {
    TrimRight(TrimLeft(s, strip), strip)
  }

  /** The trimmed string is a slice of `s` with only stripped bytes cut from either end. */
  lemma TrimBytesSlice(s: Bytes, strip: set<Byte>) returns (i: nat, j: nat)
    ensures i <= j <= |s| && TrimBytes(s, strip) == s[i..j]
    ensures forall k :: 0 <= k < i ==> s[k] in strip
    ensures forall k :: j <= k < |s| ==> s[k] in strip
  {
    var left := TrimLeft(s, strip);
    var r := TrimRight(left, strip);
    i := |s| - |left|;
    j := i + |r|;
    assert r == s[i..j];
  }

  /** `trim($s)` */
  function Trim(s: Bytes): Bytes {
    TrimBytes(s, Whitespace)
  }

  /** Trimming a string that neither starts nor ends with a stripped byte changes nothing. */
  lemma {:induction false} TrimBytesNoop(s: Bytes, strip: set<Byte>)
    requires s != [] ==> s[0] !in strip && s[|s| - 1] !in strip
    ensures TrimBytes(s, strip) == s
  {
  }

  /** Trimming is idempotent. */
  lemma TrimBytesIdempotent(s: Bytes, strip: set<Byte>)
    ensures TrimBytes(TrimBytes(s, strip), strip) == TrimBytes(s, strip)
  {
    TrimBytesNoop(TrimBytes(s, strip), strip);
  }

  /** Trimming keeps no byte the string did not have. */
  lemma TrimBytesKeeps(s: Bytes, strip: set<Byte>)
    ensures forall c :: c in TrimBytes(s, strip) ==> c in s
  {
    var r := TrimBytes(s, strip);
    var i, j := TrimBytesSlice(s, strip);
    forall c | c in r ensures c in s {
      var k :| 0 <= k < |r| && r[k] == c;
      assert s[i + k] == c;
    }
  }

  // ---------------------------------------------------------------------------
  // str_contains
  // ---------------------------------------------------------------------------

  /** `p` occurs in `s` starting at index `i`. */
  predicate OccursAt(s: Bytes, p: Bytes, i: int) {
    0 <= i && i + |p| <= |s| && s[i..i + |p|] == p
  }

  /** `str_contains($s, $p)` */
  predicate Contains(s: Bytes, p: Bytes)
    decreases |s|
  {
    if |p| > |s| then false
    else if s[..|p|] == p then true
    else |s| > 0 && Contains(s[1..], p)
  }

  /** `Contains` finds exactly the occurrences at some index. */
  lemma {:induction false} ContainsIffOccurs(s: Bytes, p: Bytes)
    ensures Contains(s, p) <==> exists i :: OccursAt(s, p, i)
    decreases |s|
  {
    if |p| > |s| {
    } else if s[..|p|] == p {
      assert OccursAt(s, p, 0);
    } else {
      ContainsIffOccurs(s[1..], p);
      forall i | OccursAt(s[1..], p, i)
        ensures OccursAt(s, p, i + 1)
      {
        assert s[i + 1..i + 1 + |p|] == s[1..][i..i + |p|];
      }
      forall i | OccursAt(s, p, i)
        ensures OccursAt(s[1..], p, i - 1)
      {
        assert i != 0;
        assert s[1..][i - 1..i - 1 + |p|] == s[i..i + |p|];
      }
    }
  }

  /** `p` cannot occur in `s` when one of its bytes is missing from `s`. */
  lemma ContainsNeedsByte(s: Bytes, p: Bytes, c: Byte)
    requires c in p && c !in s
    ensures !Contains(s, p)
  {
    ContainsIffOccurs(s, p);
    var k :| 0 <= k < |p| && p[k] == c;
    forall i ensures !OccursAt(s, p, i) {
      if 0 <= i && i + |p| <= |s| {
        assert s[i..i + |p|][k] == s[i + k] != c;
      }
    }
  }

  // ---------------------------------------------------------------------------
  // str_replace
  // ---------------------------------------------------------------------------

  /**
   * `str_replace($p, $r, $s)` for a non-empty search string: one left-to-right
   * pass; every match found is replaced and the replacement is not searched again.
   */
  function ReplaceAll(s: Bytes, p: Bytes, r: Bytes): Bytes
    requires |p| > 0
    decreases |s|
  {
    if |s| < |p| then s
    else if s[..|p|] == p then r + ReplaceAll(s[|p|..], p, r)
    else [s[0]] + ReplaceAll(s[1..], p, r)
  }

  /** A subject in which the search string does not occur is returned unchanged. */
  lemma {:induction false} ReplaceAllAbsent(s: Bytes, p: Bytes, r: Bytes)
    requires |p| > 0 && !Contains(s, p)
    ensures ReplaceAll(s, p, r) == s
    decreases |s|
  {
    if |s| >= |p| {
      ReplaceAllAbsent(s[1..], p, r);
      assert [s[0]] + s[1..] == s;
    }
  }

  /** A subject without the first byte of the search string is returned unchanged. */
  lemma ReplaceAllNoLead(s: Bytes, p: Bytes, r: Bytes)
    requires |p| > 0 && p[0] !in s
    ensures ReplaceAll(s, p, r) == s
  {
    forall i | 0 <= i && i + |p| <= |s|
      ensures !OccursAt(s, p, i)
    {
      assert s[i..i + |p|][0] == s[i];
    }
    ContainsIffOccurs(s, p);
    ReplaceAllAbsent(s, p, r);
  }

  /** Replacing the search string by itself is the identity. */
  lemma {:induction false} ReplaceAllIdentity(s: Bytes, p: Bytes)
    requires |p| > 0
    ensures ReplaceAll(s, p, p) == s
    decreases |s|
  {
    if |s| < |p| {
    } else if s[..|p|] == p {
      ReplaceAllIdentity(s[|p|..], p);
      assert s[..|p|] + s[|p|..] == s;
    } else {
      ReplaceAllIdentity(s[1..], p);
      assert [s[0]] + s[1..] == s;
    }
  }

  /**
   * The first occurrence, preceded only by bytes that cannot start a match, is
   * replaced, and the inserted replacement is not searched again.
   */
  lemma {:induction false} ReplaceAllFirst(a: Bytes, p: Bytes, r: Bytes, b: Bytes)
    requires |p| > 0 && p[0] !in a
    ensures ReplaceAll(a + p + b, p, r) == a + r + ReplaceAll(b, p, r)
    decreases |a|
  {
    var s := a + p + b;
    if a == [] {
      assert s[..|p|] == p && s[|p|..] == b;
    } else {
      assert s[..|p|][0] == a[0] != p[0];
      assert s[1..] == a[1..] + p + b;
      calc {
        ReplaceAll(s, p, r);
        [a[0]] + ReplaceAll(s[1..], p, r);
        { ReplaceAllFirst(a[1..], p, r, b); }
        [a[0]] + (a[1..] + r + ReplaceAll(b, p, r));
        { assert [a[0]] + a[1..] == a; }
        a + r + ReplaceAll(b, p, r);
      }
    }
  }

  /**
   * A byte that starts the search string but not a match there is kept, and the
   * search resumes right after it.
   */
  lemma {:induction false} ReplaceAllPast(a: Bytes, b: Bytes, p: Bytes, r: Bytes)
    requires |p| > 0 && p[0] !in a
    requires |b| > 0 && b[0] == p[0] && !(|b| >= |p| && b[..|p|] == p)
    ensures ReplaceAll(a + b, p, r) == a + [b[0]] + ReplaceAll(b[1..], p, r)
    decreases |a|
  {
    if a == [] {
      assert a + b == b;
      ReplaceAllKeep(b, p, r);
    } else {
      var s := a + b;
      assert s[0] == a[0] != p[0];
      assert !(|s| >= |p| && s[..|p|] == p) by {
        assert |s| >= |p| ==> s[..|p|][0] == a[0];
      }
      ReplaceAllKeep(s, p, r);
      assert s[1..] == a[1..] + b;
      ReplaceAllPast(a[1..], b, p, r);
      var rest := ReplaceAll(b[1..], p, r);
      assert [a[0]] + (a[1..] + [b[0]] + rest) == a + [b[0]] + rest;
    }
  }

  /** Where no match starts, the byte is kept and the search moves on by one. */
  lemma ReplaceAllKeep(s: Bytes, p: Bytes, r: Bytes)
    requires |p| > 0 && |s| > 0 && !(|s| >= |p| && s[..|p|] == p)
    ensures ReplaceAll(s, p, r) == [s[0]] + ReplaceAll(s[1..], p, r)
  {
    if |s| < |p| {
      assert [s[0]] + s[1..] == s;
    }
  }


  /** A search string met at a byte it does not start a match at, and never again, leaves the subject alone. */
  lemma ReplaceAllSkip(a: Bytes, b: Bytes, p: Bytes, r: Bytes)
    requires |p| > 0 && p[0] !in a
    requires |b| > 0 && b[0] == p[0] && !(|b| >= |p| && b[..|p|] == p) && p[0] !in b[1..]
    ensures ReplaceAll(a + b, p, r) == a + b
  {
    ReplaceAllPast(a, b, p, r);
    ReplaceAllNoLead(b[1..], p, r);
    assert a + [b[0]] + b[1..] == a + b;
  }

  /** A subject that is exactly the search string becomes the replacement. */
  lemma ReplaceAllWhole(p: Bytes, r: Bytes)
    requires |p| > 0
    ensures ReplaceAll(p, p, r) == r
  {
    assert p[..|p|] == p && p[|p|..] == [];
  }

  // ---------------------------------------------------------------------------
  // explode / implode
  // ---------------------------------------------------------------------------

  /** `explode($d, $s)` for a one-byte delimiter: the pieces between delimiters. */
  function Explode(d: Byte, s: Bytes): (pieces: seq<Bytes>)
    ensures |pieces| >= 1
    ensures forall i :: 0 <= i < |pieces| ==> d !in pieces[i]
    decreases |s|
  {
    if s == [] then [[]]
    else
      var rest := Explode(d, s[1..]);
      if s[0] == d then [[]] + rest else [[s[0]] + rest[0]] + rest[1..]
  }

  /** `implode($d, $pieces)` for a one-byte glue. */
  function Join(pieces: seq<Bytes>, d: Byte): Bytes
    decreases |pieces|
  {
    if pieces == [] then []
    else if |pieces| == 1 then pieces[0]
    else pieces[0] + [d] + Join(pieces[1..], d)
  }

  /** Joining the pieces with the delimiter gives back the exploded string. */
  lemma {:induction false} JoinExplode(d: Byte, s: Bytes)
    ensures Join(Explode(d, s), d) == s
    decreases |s|
  {
    if s != [] {
      var rest := Explode(d, s[1..]);
      JoinExplode(d, s[1..]);
      if s[0] == d {
        assert Join([[]] + rest, d) == [] + [d] + Join(rest, d);
      } else if |rest| == 1 {
        assert Join([[s[0]] + rest[0]], d) == [s[0]] + rest[0];
      } else {
        var ps := [[s[0]] + rest[0]] + rest[1..];
        assert ps[1..] == rest[1..];
        assert Join(rest, d) == rest[0] + [d] + Join(rest[1..], d);
      }
      assert [s[0]] + s[1..] == s;
    }
  }

  /** A piece without the delimiter, followed by the delimiter, is split off whole. */
  lemma {:induction false} ExplodeLeading(d: Byte, a: Bytes, t: Bytes)
    requires d !in a
    ensures Explode(d, a + [d] + t) == [a] + Explode(d, t)
    decreases |a|
  {
    var s := a + [d] + t;
    if a == [] {
      assert s[1..] == t;
    } else {
      assert s[1..] == a[1..] + [d] + t;
      ExplodeLeading(d, a[1..], t);
      assert [a[0]] + a[1..] == a;
    }
  }

  /** A string without the delimiter explodes to itself. */
  lemma {:induction false} ExplodeSingle(d: Byte, a: Bytes)
    requires d !in a
    ensures Explode(d, a) == [a]
    decreases |a|
  {
    if a != [] {
      ExplodeSingle(d, a[1..]);
      assert [a[0]] + a[1..] == a;
    }
  }

  /** Exploding a join of delimiter-free pieces gives back the pieces. */
  lemma {:induction false} ExplodeJoin(d: Byte, pieces: seq<Bytes>)
    requires |pieces| >= 1
    requires forall i :: 0 <= i < |pieces| ==> d !in pieces[i]
    ensures Explode(d, Join(pieces, d)) == pieces
    decreases |pieces|
  {
    if |pieces| == 1 {
      ExplodeSingle(d, pieces[0]);
    } else {
      ExplodeJoin(d, pieces[1..]);
      ExplodeLeading(d, pieces[0], Join(pieces[1..], d));
      assert [pieces[0]] + pieces[1..] == pieces;
    }
  }

  // ---------------------------------------------------------------------------
  // Decimal digits
  // ---------------------------------------------------------------------------

  /** PCRE `\d` without the `u` modifier: an ASCII digit. */
  predicate IsDigit(c: Byte) {
    '0' <= c <= '9'
  }

  predicate AllDigits(s: Bytes) {
    forall i :: 0 <= i < |s| ==> IsDigit(s[i])
  }

  function DigitChar(n: nat): Byte
    requires n < 10
  {
    ('0' as int + n) as char
  }

  /** `(int) $digits`: the decimal value of a run of digits (leading zeros allowed). */
  function DigitsValue(ds: Bytes): nat
    requires AllDigits(ds)
    decreases |ds|
  {
    if ds == [] then 0
    else 10 * DigitsValue(ds[..|ds| - 1]) + (ds[|ds| - 1] as int - '0' as int)
  }

  /** The decimal text of a natural number, as `(string) $n` prints it. */
  function NatText(n: nat): (r: Bytes)
    ensures |r| > 0 && AllDigits(r)
    decreases n
  {
    if n < 10 then [DigitChar(n)] else NatText(n / 10) + [DigitChar(n % 10)]
  }

  /** The decimal text of an integer, with a leading '-' when negative. */
  function IntText(n: int): Bytes {
    if n < 0 then "-" + NatText(-n) else NatText(n)
  }

  /** Reading back the decimal text of `n` gives `n`. */
  lemma {:induction false} NatTextValue(n: nat)
    ensures DigitsValue(NatText(n)) == n
    decreases n
  {
    if n >= 10 {
      NatTextValue(n / 10);
      var t := NatText(n);
      assert t[..|t| - 1] == NatText(n / 10);
    }
  }
}
