/** Deduplication by URL with the semantics of a dict built from the records in order:
    each URL keeps the position where it first appeared and the value assigned last. */
module Deduplication {
  import opened PdcTypes

  /** The first index whose record has this URL, or -1. */
  function IndexOfUrl(s: seq<Opp>, url: string): (k: int)
    ensures -1 <= k < |s|
    ensures k >= 0 ==> s[k].url == url && forall j :: 0 <= j < k ==> s[j].url != url
    ensures k < 0 ==> forall j :: 0 <= j < |s| ==> s[j].url != url
  {
    if s == [] then -1
    else if s[0].url == url then 0
    else
      var k := IndexOfUrl(s[1..], url);
      if k < 0 then -1 else k + 1
  }

  /** The last index whose record has this URL, or -1. */
  function LastIndexOfUrl(s: seq<Opp>, url: string): (k: int)
    ensures -1 <= k < |s|
    ensures k >= 0 ==> s[k].url == url && forall j :: k < j < |s| ==> s[j].url != url
    ensures k < 0 ==> forall j :: 0 <= j < |s| ==> s[j].url != url
  {
    if s == [] then -1
    else if s[|s| - 1].url == url then |s| - 1
    else LastIndexOfUrl(s[..|s| - 1], url)
  }

  ghost function Urls(s: seq<Opp>): set<string> {
    set i | 0 <= i < |s| :: s[i].url
  }

  ghost predicate DistinctUrls(s: seq<Opp>) {
    forall i, j :: 0 <= i < j < |s| ==> s[i].url != s[j].url
  }

  /** `d[o.url] = o` on an insertion-ordered dict kept as a sequence of its values. */
  function Upsert(d: seq<Opp>, o: Opp): seq<Opp> {
    var k := IndexOfUrl(d, o.url);
    if k < 0 then d + [o] else d[k := o]
  }

  /** `{opp['url']: opp for opp in found}.values()`. */
  function Dedup(s: seq<Opp>): seq<Opp> {
    if s == [] then [] else Upsert(Dedup(s[..|s| - 1]), s[|s| - 1])
  }

  /** Assignment to a present key replaces that value in place; to a new key, appends. */
  lemma UpsertEffect(d: seq<Opp>, o: Opp)
    requires DistinctUrls(d)
    ensures DistinctUrls(Upsert(d, o))
    ensures Urls(Upsert(d, o)) == Urls(d) + {o.url}
    ensures o.url !in Urls(d) ==> Upsert(d, o) == d + [o]
    ensures o.url in Urls(d) ==>
              |Upsert(d, o)| == |d| &&
              forall i :: 0 <= i < |d| ==> Upsert(d, o)[i] == if d[i].url == o.url then o else d[i]
  {
    var k := IndexOfUrl(d, o.url);
    var r := Upsert(d, o);
    if k < 0 {
      assert o.url !in Urls(d);
      assert r == d + [o];
      assert Urls(r) == Urls(d) + {o.url} by {
        forall u | u in Urls(r) ensures u in Urls(d) + {o.url} {
          var i :| 0 <= i < |r| && r[i].url == u;
          if i < |d| { assert d[i].url == u; }
        }
        forall u | u in Urls(d) ensures u in Urls(r) {
          var i :| 0 <= i < |d| && d[i].url == u;
          assert r[i].url == u;
        }
        assert r[|d|].url == o.url;
      }
    } else {
      assert o.url in Urls(d);
      assert Urls(r) == Urls(d) + {o.url} by {
        forall u | u in Urls(r) ensures u in Urls(d) + {o.url} {
          var i :| 0 <= i < |r| && r[i].url == u;
          if i != k { assert d[i].url == u; }
        }
        forall u | u in Urls(d) ensures u in Urls(r) {
          var i :| 0 <= i < |d| && d[i].url == u;
          assert r[i].url == u;
        }
      }
    }
  }

  /** The URLs left are pairwise distinct and are exactly the URLs that were found. */
  lemma {:induction false} DedupUrls(s: seq<Opp>)
    ensures DistinctUrls(Dedup(s))
    ensures Urls(Dedup(s)) == Urls(s)
    ensures |Dedup(s)| <= |s|
  {
    if s != [] {
      var front, last := s[..|s| - 1], s[|s| - 1];
      DedupUrls(front);
      UpsertEffect(Dedup(front), last);
      assert Urls(s) == Urls(front) + {last.url} by {
        assert s == front + [last];
        forall u | u in Urls(s) ensures u in Urls(front) + {last.url} {
          var i :| 0 <= i < |s| && s[i].url == u;
          if i < |front| { assert front[i].url == u; }
        }
        forall u | u in Urls(front) ensures u in Urls(s) {
          var i :| 0 <= i < |front| && front[i].url == u;
          assert s[i].url == u;
        }
      }
    }
  }

  /** The record kept for each URL is the last one found with that URL. */
  lemma {:induction false} DedupKeepsLast(s: seq<Opp>)
    ensures forall i :: 0 <= i < |Dedup(s)| ==>
              LastIndexOfUrl(s, Dedup(s)[i].url) >= 0 &&
              Dedup(s)[i] == s[LastIndexOfUrl(s, Dedup(s)[i].url)]
  {
    if s != [] {
      var front, last := s[..|s| - 1], s[|s| - 1];
      var d := Dedup(front);
      DedupKeepsLast(front);
      DedupUrls(front);
      UpsertEffect(d, last);
      var r := Dedup(s);
      forall i | 0 <= i < |r|
        ensures LastIndexOfUrl(s, r[i].url) >= 0 && r[i] == s[LastIndexOfUrl(s, r[i].url)]
      {
        if r[i].url == last.url {
          assert r[i] == last;
        } else {
          assert i < |d| && r[i] == d[i];
          assert LastIndexOfUrl(s, r[i].url) == LastIndexOfUrl(front, r[i].url);
        }
      }
    }
  }

  /** Extending the list leaves the first occurrence of an already-present URL where it was. */
  lemma IndexOfUrlSnoc(s: seq<Opp>, o: Opp, url: string)
    ensures IndexOfUrl(s + [o], url) ==
              if IndexOfUrl(s, url) >= 0 then IndexOfUrl(s, url)
              else if o.url == url then |s| else -1
  {
    assert forall j :: 0 <= j < |s| ==> (s + [o])[j] == s[j];
    assert (s + [o])[|s|] == o;
  }

  /** The records of `r` come in the order in which their URLs first appear in `s`. */
  ghost predicate FirstSeenOrdered(r: seq<Opp>, s: seq<Opp>) {
    forall i, j :: 0 <= i < j < |r| ==> 0 <= IndexOfUrl(s, r[i].url) < IndexOfUrl(s, r[j].url)
  }

  /** One dict assignment keeps the records in first-seen order of the extended list. */
  lemma UpsertFirstSeenOrdered(d: seq<Opp>, front: seq<Opp>, last: Opp)
    requires FirstSeenOrdered(d, front) && DistinctUrls(d) && Urls(d) == Urls(front)
    ensures FirstSeenOrdered(Upsert(d, last), front + [last])
  {
    var s := front + [last];
    var r := Upsert(d, last);
    UpsertEffect(d, last);
    forall i | 0 <= i < |r|
      ensures IndexOfUrl(s, r[i].url) == if i < |d| then IndexOfUrl(front, d[i].url) else |front|
    {
      IndexOfUrlSnoc(front, last, r[i].url);
      if i < |d| {
        assert r[i].url == d[i].url;
        assert d[i].url in Urls(front);
      } else {
        assert r[i] == last && last.url !in Urls(front);
      }
    }
    forall i | 0 <= i < |d| ensures 0 <= IndexOfUrl(front, d[i].url) < |front| {
      assert d[i].url in Urls(front);
    }
  }

  /** The kept records come in the order in which their URLs first appeared. */
  lemma {:induction false} DedupFirstSeenOrder(s: seq<Opp>)
    ensures FirstSeenOrdered(Dedup(s), s)
  {
    if s != [] {
      var front, last := s[..|s| - 1], s[|s| - 1];
      DedupFirstSeenOrder(front);
      DedupUrls(front);
      UpsertFirstSeenOrdered(Dedup(front), front, last);
      assert s == front + [last];
    }
  }

  lemma {:induction false} DistinctUrlsOccurOnce(s: seq<Opp>, k: nat)
    requires DistinctUrls(s) && k < |s|
    ensures multiset(s)[s[k]] == 1
  {
    assert s == s[..k] + [s[k]] + s[k + 1..];
    assert s[k] !in s[..k];
    assert s[k] !in s[k + 1..] by {
      var rest := s[k + 1..];
      forall j | 0 <= j < |rest| ensures rest[j] != s[k] {
        assert rest[j] == s[k + 1 + j];
      }
    }
  }

  lemma RepeatedOccursTwice(s: seq<Opp>, i: nat, j: nat)
    requires i < j < |s| && s[i] == s[j]
    ensures multiset(s)[s[i]] >= 2
  {
    assert s == s[..i] + [s[i]] + s[i + 1..j] + [s[j]] + s[j + 1..];
  }

  /** Reordering a list of records changes neither its URL set nor the distinctness of its URLs. */
  lemma PermutationKeepsUrls(a: seq<Opp>, b: seq<Opp>)
    requires multiset(a) == multiset(b) && DistinctUrls(a)
    ensures DistinctUrls(b)
    ensures Urls(b) == Urls(a)
  {
    forall i, j | 0 <= i < j < |b| ensures b[i].url != b[j].url {
      assert b[i] in multiset(a) && b[j] in multiset(a);
      var p :| 0 <= p < |a| && a[p] == b[i];
      var q :| 0 <= q < |a| && a[q] == b[j];
      if p == q {
        RepeatedOccursTwice(b, i, j);
        DistinctUrlsOccurOnce(a, p);
        assert false;
      }
    }
    forall u | u in Urls(b) ensures u in Urls(a) {
      var i :| 0 <= i < |b| && b[i].url == u;
      assert b[i] in multiset(a);
      var p :| 0 <= p < |a| && a[p] == b[i];
    }
    forall u | u in Urls(a) ensures u in Urls(b) {
      var p :| 0 <= p < |a| && a[p].url == u;
      assert a[p] in multiset(b);
      var i :| 0 <= i < |b| && b[i] == a[p];
    }
  }
}
