/** Newest-first ordering by `submissionDate`, the order both the store
    queries (`sort({ submissionDate: -1 })`) and the status view of the
    client (`forms.sort(...)`) put records in. The store queries leave the
    order of equal dates unspecified; the client's sort is stable, and so is
    the insertion sort here. */
module Ordering {
  import opened FormModel

  /** Submission dates never increase along the sequence. */
  predicate NewestFirst(s: seq<Form>) {
    forall i, j :: 0 <= i < j < |s| ==> s[i].submissionDate >= s[j].submissionDate
  }

  /** Puts `f` into a newest-first sequence, ahead of every record that is
      not newer than it. */
  function Insert(f: Form, s: seq<Form>): (r: seq<Form>)
    requires NewestFirst(s)
    ensures NewestFirst(r)
    ensures multiset(r) == multiset(s) + multiset{f}
    ensures forall x :: x in r <==> x == f || x in s
  {
    if s == [] || f.submissionDate >= s[0].submissionDate then [f] + s
    else
      var rest := Insert(f, s[1..]);
      assert s == [s[0]] + s[1..];
      assert forall x :: x in s[1..] ==> x.submissionDate <= s[0].submissionDate;
      PrependNewest(s[0], rest);
      [s[0]] + rest
  }

  /** A record no older than any of a newest-first sequence can lead it. */
  lemma PrependNewest(x: Form, t: seq<Form>)
    requires NewestFirst(t)
    requires forall y :: y in t ==> y.submissionDate <= x.submissionDate
    ensures NewestFirst([x] + t)
  {
  }

  /** The records of `s`, newest first. */
  function SortNewestFirst(s: seq<Form>): (r: seq<Form>)
    ensures NewestFirst(r)
    ensures multiset(r) == multiset(s)
  {
    if s == [] then []
    else
      assert s == [s[0]] + s[1..];
      Insert(s[0], SortNewestFirst(s[1..]))
  }

  /** Sorting keeps the records: the same ones, each as often as before. */
  lemma SortKeepsRecords(s: seq<Form>)
    ensures |SortNewestFirst(s)| == |s|
    ensures forall f :: f in SortNewestFirst(s) <==> f in s
  {
    var r := SortNewestFirst(s);
    assert |multiset(r)| == |multiset(s)|;
    forall f ensures f in r <==> f in s {
      assert f in r <==> f in multiset(r);
      assert f in s <==> f in multiset(s);
    }
  }

  /** A sequence that is already newest first is left as it is, so the
      client's re-sort of a list the server has sorted changes nothing. */
  lemma {:induction false} SortOfSortedIsIdentity(s: seq<Form>)
    requires NewestFirst(s)
    ensures SortNewestFirst(s) == s
  {
    if s != [] {
      SortOfSortedIsIdentity(s[1..]);
      assert s == [s[0]] + s[1..];
    }
  }
}
