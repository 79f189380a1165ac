/** Retrieved documents as the retrieval chain hands them back, and the
    first-seen, order-preserving deduplication both answer modes apply to
    their `source` paths. */
module Retrieval {

  import opened Util

  /** One page or passage with its metadata: the file path it came from and
      the zero-based page index, absent when the loader records none. */
  datatype Document = Document(text: string, source: string, page: Option<int>)

  function SourceOf(d: Document): string
  {
    d.source
  }

  /** The `source` path of every document, in rank order. */
  function Sources(docs: seq<Document>): seq<string>
  {
    Map(SourceOf, docs)
  }

  lemma SourcesSnoc(docs: seq<Document>, d: Document)
    ensures Sources(docs + [d]) == Sources(docs) + [d.source]
  {
  }

  lemma SourcesCons(d: Document, docs: seq<Document>)
    ensures Sources([d] + docs) == [d.source] + Sources(docs)
  {
  }

  ghost predicate Distinct(s: seq<string>)
  {
    forall i, j :: 0 <= i < j < |s| ==> s[i] != s[j]
  }

  /** The position of the first occurrence of `x` in `s`. */
  function FirstIndex(s: seq<string>, x: string): (i: nat)
    requires x in s
    ensures i < |s| && s[i] == x && x !in s[..i]
  {
    if s[0] == x then 0
    else
      assert x in s[1..];
      var j := FirstIndex(s[1..], x);
      assert s[..j + 1] == [s[0]] + s[1..][..j];
      j + 1
  }

  /** The first occurrence of `x` in a prefix that holds it is its first
      occurrence in the whole sequence. */
  lemma FirstIndexPrefix(s: seq<string>, n: nat, x: string)
    requires n <= |s| && x in s[..n]
    ensures FirstIndex(s, x) == FirstIndex(s[..n], x)
  {
    var i, j := FirstIndex(s, x), FirstIndex(s[..n], x);
    assert s[..n][j] == x;
  }

  /** Keeps the first occurrence of every element, in the order first seen:
      what the `duplicate_check_list` and `file_path_list` loops build. */
  function Dedup(s: seq<string>): (d: seq<string>)
    ensures forall x :: x in d <==> x in s
    ensures Distinct(d)
    ensures |d| <= |s|
  {
    if s == [] then []
    else
      var p := s[..|s| - 1];
      var d := Dedup(p);
      assert forall x :: x in s <==> x in p || x == s[|s| - 1] by {
        assert s == p + [s[|s| - 1]];
      }
      if s[|s| - 1] in d then d else d + [s[|s| - 1]]
  }

  lemma DedupSnoc(s: seq<string>, x: string)
    ensures Dedup(s + [x]) == if x in s then Dedup(s) else Dedup(s) + [x]
  {
    assert (s + [x])[..|s + [x]| - 1] == s;
  }

  lemma FirstIndexSnoc(p: seq<string>, x: string, y: string)
    requires y in p + [x]
    ensures y in p ==> FirstIndex(p + [x], y) == FirstIndex(p, y) < |p|
    ensures y !in p ==> FirstIndex(p + [x], y) == |p|
  {
    if y in p {
      assert (p + [x])[..|p|] == p;
      FirstIndexPrefix(p + [x], |p|, y);
    } else {
      assert (p + [x])[..|p|] == p;
    }
  }

  ghost predicate FirstSeenOrdered(s: seq<string>, d: seq<string>)
    requires forall x :: x in d ==> x in s
  {
    forall i, j :: 0 <= i < j < |d| ==> FirstIndex(s, d[i]) < FirstIndex(s, d[j])
  }

  lemma FirstSeenOrderKept(p: seq<string>, x: string, d: seq<string>)
    requires forall y :: y in d ==> y in p
    requires FirstSeenOrdered(p, d)
    ensures forall i :: 0 <= i < |d| ==> FirstIndex(p + [x], d[i]) == FirstIndex(p, d[i]) < |p|
    ensures FirstSeenOrdered(p + [x], d)
  {
    forall i | 0 <= i < |d|
      ensures FirstIndex(p + [x], d[i]) == FirstIndex(p, d[i]) < |p|
    {
      FirstIndexSnoc(p, x, d[i]);
    }
  }

  lemma FirstSeenOrderNew(p: seq<string>, x: string, d: seq<string>)
    requires forall y :: y in d ==> y in p
    requires FirstSeenOrdered(p, d)
    requires x !in p
    ensures FirstSeenOrdered(p + [x], d + [x])
  {
    FirstSeenOrderKept(p, x, d);
    FirstIndexSnoc(p, x, x);
    var d' := d + [x];
    assert forall i :: 0 <= i < |d| ==> d'[i] == d[i];
  }

  lemma FirstSeenOrderStep(p: seq<string>, x: string)
    requires FirstSeenOrdered(p, Dedup(p))
    ensures FirstSeenOrdered(p + [x], Dedup(p + [x]))
  {
    DedupSnoc(p, x);
    if x in p {
      FirstSeenOrderKept(p, x, Dedup(p));
    } else {
      FirstSeenOrderNew(p, x, Dedup(p));
    }
  }

  /** The kept elements appear in the order of their first occurrences. */
  lemma {:induction false} DedupFirstSeenOrder(s: seq<string>)
    ensures FirstSeenOrdered(s, Dedup(s))
  {
    if s != [] {
      var p := s[..|s| - 1];
      assert s == p + [s[|s| - 1]];
      DedupFirstSeenOrder(p);
      FirstSeenOrderStep(p, s[|s| - 1]);
    }
  }

  /** Deduplicating a sequence without repeats changes nothing, so
      deduplication is idempotent. */
  lemma {:induction false} DedupOfDistinct(s: seq<string>)
    requires Distinct(s)
    ensures Dedup(s) == s
  {
    if s != [] {
      var p, x := s[..|s| - 1], s[|s| - 1];
      assert s == p + [x];
      assert Distinct(p);
      DedupOfDistinct(p);
      DedupSnoc(p, x);
    }
  }

  lemma DedupIdempotent(s: seq<string>)
    ensures Dedup(Dedup(s)) == Dedup(s)
  {
    DedupOfDistinct(Dedup(s));
  }

  /** `s` with every occurrence of `x` removed, order kept. */
  function Without(s: seq<string>, x: string): (r: seq<string>)
    ensures forall y :: y in r <==> y in s && y != x
  {
    if s == [] then []
    else
      var p := s[..|s| - 1];
      assert s == p + [s[|s| - 1]];
      if s[|s| - 1] == x then Without(p, x) else Without(p, x) + [s[|s| - 1]]
  }

  lemma WithoutSnoc(s: seq<string>, y: string, x: string)
    ensures Without(s + [y], x) == if y == x then Without(s, x) else Without(s, x) + [y]
  {
    assert (s + [y])[..|s + [y]| - 1] == s;
  }

  lemma DedupConsStep(m: string, p: seq<string>, x: string)
    requires Dedup([m] + p) == [m] + Without(Dedup(p), m)
    ensures Dedup([m] + p + [x]) == [m] + Without(Dedup(p + [x]), m)
  {
    DedupSnoc([m] + p, x);
    DedupSnoc(p, x);
    if x !in p {
      WithoutSnoc(Dedup(p), x, m);
    }
  }

  /** Deduplicating a sequence that starts with `m` gives `m` followed by the
      deduplicated rest with `m` removed. */
  lemma {:induction false} DedupCons(m: string, s: seq<string>)
    ensures Dedup([m] + s) == [m] + Without(Dedup(s), m)
  {
    if s == [] {
      assert [m] + s == [] + [m];
      DedupSnoc([], m);
    } else {
      var p := s[..|s| - 1];
      assert s == p + [s[|s| - 1]];
      DedupCons(m, p);
      DedupConsStep(m, p, s[|s| - 1]);
      assert [m] + s == [m] + p + [s[|s| - 1]];
    }
  }
}
