/**
 * The pieces of the Amazon S3 multipart-upload API the drivers use, as values:
 * the completed-part entries sent to CompleteMultipartUpload (parts are
 * numbered from 1 and must be listed in ascending order), the outcomes of
 * UploadPart and ListParts, and sort.Slice ordering the entries by part number.
 */
module S3 {
  import opened Wrappers

  /** s3types.CompletedPart. */
  datatype CompletedPart = CompletedPart(partNumber: int, eTag: string)

  /** How UploadPart ended after utils.Retry: failed, answered without an ETag, or uploaded. */
  datatype PartResult = PartFailed | PartWithoutETag | PartUploaded(eTag: string)

  predicate Ascending(ps: seq<CompletedPart>) {
    forall i, j :: 0 <= i < j < |ps| ==> ps[i].partNumber <= ps[j].partNumber
  }

  predicate StrictlyAscending(ps: seq<CompletedPart>) {
    forall i, j :: 0 <= i < j < |ps| ==> ps[i].partNumber < ps[j].partNumber
  }

  /** No part number occurs twice. */
  predicate DistinctNumbers(ps: seq<CompletedPart>) {
    forall i, j :: 0 <= i < j < |ps| ==> ps[i].partNumber != ps[j].partNumber
  }

  function Numbers(ps: seq<CompletedPart>): set<int> {
    set i | 0 <= i < |ps| :: ps[i].partNumber
  }

  /** Puts p into an ascending list before the first entry with a larger number. */
  function Insert(p: CompletedPart, ps: seq<CompletedPart>): (r: seq<CompletedPart>)
    requires Ascending(ps)
    ensures Ascending(r)
    ensures multiset(r) == multiset(ps) + multiset{p}
    ensures |r| == |ps| + 1
  {
    if ps == [] then [p]
    else if p.partNumber < ps[0].partNumber then [p] + ps
    else
      var rest := Insert(p, ps[1..]);
      InsertBehindHead(p, ps, rest);
      [ps[0]] + rest
  }

  /** Putting p after the head of an ascending list keeps the head in front. */
  lemma InsertBehindHead(p: CompletedPart, ps: seq<CompletedPart>, rest: seq<CompletedPart>)
    requires Ascending(ps) && ps != [] && ps[0].partNumber <= p.partNumber
    requires Ascending(rest) && multiset(rest) == multiset(ps[1..]) + multiset{p}
    ensures Ascending([ps[0]] + rest)
    ensures multiset([ps[0]] + rest) == multiset(ps) + multiset{p}
  {
    assert ps == [ps[0]] + ps[1..];
    forall i | 0 <= i < |rest|
      ensures ps[0].partNumber <= rest[i].partNumber
    {
      assert rest[i] in multiset(rest);
      if rest[i] != p {
        assert rest[i] in multiset(ps[1..]);
        var k :| 0 <= k < |ps[1..]| && ps[1..][k] == rest[i];
        assert ps[k + 1] == rest[i];
      }
    }
    var r := [ps[0]] + rest;
    forall i, j | 0 <= i < j < |r|
      ensures r[i].partNumber <= r[j].partNumber
    {
      if i > 0 {
        assert r[i] == rest[i - 1] && r[j] == rest[j - 1];
      } else {
        assert r[j] == rest[j - 1];
      }
    }
  }

  /**
   * sort.Slice by part number: the same entries, in ascending order of part
   * number. (sort.Slice is not stable; with distinct part numbers, the only
   * case the drivers produce, the order it yields is unique.)
   */
  function SortByPartNumber(ps: seq<CompletedPart>): (r: seq<CompletedPart>)
    ensures Ascending(r)
    ensures multiset(r) == multiset(ps)
    ensures |r| == |ps|
  {
    if ps == [] then []
    else
      assert ps == ps[..|ps| - 1] + [ps[|ps| - 1]];
      Insert(ps[|ps| - 1], SortByPartNumber(ps[..|ps| - 1]))
  }

  /** Sorting an already ascending list changes nothing. */
  lemma {:induction false} SortAscendingIsIdentity(ps: seq<CompletedPart>)
    requires Ascending(ps)
    ensures SortByPartNumber(ps) == ps
  {
    if ps != [] {
      var init := ps[..|ps| - 1];
      assert Ascending(init);
      SortAscendingIsIdentity(init);
      InsertAtEnd(ps[|ps| - 1], init);
      assert init + [ps[|ps| - 1]] == ps;
    }
  }

  lemma {:induction false} InsertAtEnd(p: CompletedPart, ps: seq<CompletedPart>)
    requires Ascending(ps)
    requires forall i :: 0 <= i < |ps| ==> ps[i].partNumber <= p.partNumber
    ensures Insert(p, ps) == ps + [p]
  {
    if ps != [] {
      InsertAtEnd(p, ps[1..]);
      assert [ps[0]] + (ps[1..] + [p]) == ps + [p];
    }
  }

  /** An ascending list without repeated numbers is strictly ascending. */
  lemma AscendingDistinctIsStrict(ps: seq<CompletedPart>)
    requires Ascending(ps) && DistinctNumbers(ps)
    ensures StrictlyAscending(ps)
  {
  }

  /** Sorting keeps the set of part numbers, and keeps them distinct when they were. */
  lemma SortKeepsNumbers(ps: seq<CompletedPart>)
    ensures Numbers(SortByPartNumber(ps)) == Numbers(ps)
    ensures DistinctNumbers(ps) ==> StrictlyAscending(SortByPartNumber(ps))
  {
    var r := SortByPartNumber(ps);
    forall n | n in Numbers(ps)
      ensures n in Numbers(r)
    {
      var i :| 0 <= i < |ps| && ps[i].partNumber == n;
      assert ps[i] in multiset(ps);
      assert ps[i] in multiset(r);
      var j :| 0 <= j < |r| && r[j] == ps[i];
    }
    forall n | n in Numbers(r)
      ensures n in Numbers(ps)
    {
      var j :| 0 <= j < |r| && r[j].partNumber == n;
      assert r[j] in multiset(r);
      assert r[j] in multiset(ps);
      var i :| 0 <= i < |ps| && ps[i] == r[j];
    }
    if DistinctNumbers(ps) {
      DistinctPermutation(ps, r);
      AscendingDistinctIsStrict(r);
    }
  }

  /** A permutation of a list with distinct part numbers has distinct part numbers. */
  lemma DistinctPermutation(ps: seq<CompletedPart>, r: seq<CompletedPart>)
    requires DistinctNumbers(ps) && multiset(r) == multiset(ps)
    ensures DistinctNumbers(r)
  {
    forall i, j | 0 <= i < j < |r|
      ensures r[i].partNumber != r[j].partNumber
    {
      assert r[i] in multiset(ps) && r[j] in multiset(ps);
      var a :| 0 <= a < |ps| && ps[a] == r[i];
      var b :| 0 <= b < |ps| && ps[b] == r[j];
      if r[i].partNumber == r[j].partNumber {
        assert a == b;
        OnlyOnce(ps, a);
        TwiceInR(r, i, j);
      }
    }
  }

  /** In a list with distinct part numbers, each entry occurs once. */
  lemma OnlyOnce(ps: seq<CompletedPart>, a: int)
    requires DistinctNumbers(ps) && 0 <= a < |ps|
    ensures multiset(ps)[ps[a]] == 1
  {
    var rest := ps[..a] + ps[a + 1..];
    assert ps == ps[..a] + [ps[a]] + ps[a + 1..];
    forall k | 0 <= k < |rest|
      ensures rest[k] != ps[a]
    {
      if k < a { assert rest[k] == ps[k]; } else { assert rest[k] == ps[k + 1]; }
    }
    assert multiset(ps) == multiset(rest) + multiset{ps[a]};
  }

  lemma TwiceInR(r: seq<CompletedPart>, i: int, j: int)
    requires 0 <= i < j < |r|
    ensures multiset(r)[r[i]] >= 1 + if r[i] == r[j] then 1 else 0
  {
    var rest := r[..i] + r[i + 1..];
    assert r == r[..i] + [r[i]] + r[i + 1..];
    assert rest[j - 1] == r[j];
    assert multiset(r) == multiset(rest) + multiset{r[i]};
  }
  /** Numbers of a list with one more entry. */
  lemma NumbersAppend(ps: seq<CompletedPart>, p: CompletedPart)
    ensures Numbers(ps + [p]) == Numbers(ps) + {p.partNumber}
  {
    NumbersConcat(ps, [p]);
    assert [p][0] == p;
    assert Numbers([p]) == {p.partNumber};
  }

  lemma NumbersConcat(a: seq<CompletedPart>, b: seq<CompletedPart>)
    ensures Numbers(a + b) == Numbers(a) + Numbers(b)
  {
    var q := a + b;
    forall n | n in Numbers(q)
      ensures n in Numbers(a) + Numbers(b)
    {
      var i :| 0 <= i < |q| && q[i].partNumber == n;
      if i < |a| {
        assert q[i] == a[i];
      } else {
        assert q[i] == b[i - |a|];
      }
    }
    forall n | n in Numbers(a) + Numbers(b)
      ensures n in Numbers(q)
    {
      if n in Numbers(a) {
        var i :| 0 <= i < |a| && a[i].partNumber == n;
        assert q[i] == a[i];
      } else {
        var i :| 0 <= i < |b| && b[i].partNumber == n;
        assert q[|a| + i] == b[i];
      }
    }
  }

  /** ps lists the entries of the part map m: each part once, with its ETag, and no other part. */
  predicate EntriesOf(ps: seq<CompletedPart>, m: map<int, string>) {
    && DistinctNumbers(ps)
    && Numbers(ps) == m.Keys
    && (forall i :: 0 <= i < |ps| ==> ps[i].partNumber in m && ps[i].eTag == m[ps[i].partNumber])
  }

  /** One more entry, for a part not yet in the map, is an entry of the map extended with it. */
  lemma EntriesAppend(ps: seq<CompletedPart>, m: map<int, string>, e: CompletedPart)
    requires EntriesOf(ps, m) && e.partNumber !in m
    ensures EntriesOf(ps + [e], m[e.partNumber := e.eTag])
  {
    var qs := ps + [e];
    var m' := m[e.partNumber := e.eTag];
    NumbersAppend(ps, e);
    forall i, j | 0 <= i < j < |qs|
      ensures qs[i].partNumber != qs[j].partNumber
    {
      if j < |ps| {
        assert qs[i] == ps[i] && qs[j] == ps[j];
      } else {
        assert qs[i] == ps[i] && qs[j] == e;
      }
    }
    forall i | 0 <= i < |qs|
      ensures qs[i].partNumber in m' && qs[i].eTag == m'[qs[i].partNumber]
    {
      if i < |ps| {
        assert qs[i] == ps[i];
      }
    }
  }

  /** The entries of two maps with no part in common, one list after the other, are the entries of their union. */
  lemma EntriesConcat(a: seq<CompletedPart>, m1: map<int, string>, b: seq<CompletedPart>, m2: map<int, string>)
    requires EntriesOf(a, m1) && EntriesOf(b, m2) && m1.Keys !! m2.Keys
    ensures EntriesOf(a + b, m1 + m2)
  {
    NumbersConcat(a, b);
    var q := a + b;
    forall i | 0 <= i < |q|
      ensures q[i].partNumber in m1 + m2 && q[i].eTag == (m1 + m2)[q[i].partNumber]
    {
      if i < |a| {
        assert q[i] == a[i];
      } else {
        assert q[i] == b[i - |a|];
      }
    }
    forall i, j | 0 <= i < j < |q|
      ensures q[i].partNumber != q[j].partNumber
    {
      if j < |a| {
        assert q[i] == a[i] && q[j] == a[j];
      } else if i >= |a| {
        assert q[i] == b[i - |a|] && q[j] == b[j - |a|];
      } else {
        assert q[i] == a[i] && q[j] == b[j - |a|];
      }
    }
  }

  /**
   * Sorting the entries of a part map gives the entries of that map in
   * strictly ascending order of part number: the list CompleteMultipartUpload
   * expects.
   */
  lemma SortedEntries(ps: seq<CompletedPart>, m: map<int, string>)
    requires EntriesOf(ps, m)
    ensures EntriesOf(SortByPartNumber(ps), m)
    ensures StrictlyAscending(SortByPartNumber(ps))
  {
    var r := SortByPartNumber(ps);
    SortKeepsNumbers(ps);
    forall i | 0 <= i < |r|
      ensures r[i].partNumber in m && r[i].eTag == m[r[i].partNumber]
    {
      assert r[i] in multiset(ps);
      var j :| 0 <= j < |ps| && ps[j] == r[i];
    }
  }
}
