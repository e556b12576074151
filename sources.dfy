/** The three feed readers. Each turns the entries its feed returned into records and appends
    them, in feed order, to the accumulated list. */
module Sources {
  import opened PdcTypes
  import opened Recency
  import opened Text

  /** HoopDirt looks at the first 10 entries of its feed. */
  const HoopDirtLimit: nat := 10
  /** Each Google query contributes at most its first 4 entries. */
  const QueryLimit: nat := 4

  function HoopDirtRecord(e: Entry): Opp {
    Opp("HoopDirt", e.title, e.link, "\U{1F3C0} Industry News", Industry)
  }

  /** One Google News query with the label and type its results are tagged with. */
  datatype Search = Search(query: string, summary: string, kind: OppType)

  /** Job vacancies. */
  const JobsSearch: Search :=
    Search("Basketball Coach (Hiring OR Vacancy OR 'Player Development')",
           "\U{1F4F0} Job Vacancy", Industry)
  /** Wealth-management partners. */
  const PartnersSearch: Search :=
    Search("(Wealth Management OR Financial Advisor) AND (NIL OR Student Athletes)",
           "\U{1F91D} Potential Partner", Partner)
  /** Parents discussing their children's basketball on Reddit. */
  const ParentsSearch: Search :=
    Search("site:reddit.com (basketball OR youth sports) AND (son OR daughter) AND (quit OR confidence OR coach)",
           "\U{2764}\U{FE0F} Parent Discussion", Pain)
  /** High-net-worth parents looking at prep schools. */
  const WealthSearch: Search :=
    Search("site:collegeconfidential.com OR site:reddit.com (prep school OR tuition OR boarding school) basketball",
           "\U{1F4B0} HNW Lead", Wealth)

  /** The four queries, in the order they run. */
  const Searches: seq<Search> := [JobsSearch, PartnersSearch, ParentsSearch, WealthSearch]

  function GoogleRecord(s: Search, e: Entry): Opp {
    Opp("Google Alert", e.title, e.link, s.summary, s.kind)
  }

  function NcaaRecord(e: Entry): Opp {
    Opp("NCAA Market", e.title, e.link, "\U{1F393} Collegiate Role", Industry)
  }

  /** Lower-cased titles containing one of these are fundraising posts and are skipped. */
  const Ignore: seq<string> := ["fundraising", "donor", "gift", "advancement", "annual fund"]

  /** The NCAA title filter: a basketball or player-development role that is not fundraising. */
  predicate NcaaAccepts(title: string) {
    var t := Lower(title);
    (Contains(t, "basketball") || Contains(t, "player development")) && !ContainsAny(t, Ignore)
  }

  /** The records the HoopDirt loop appends for the entries it visits. */
  function KeepRecent(es: seq<Entry>, now: int): seq<Opp> {
    if es == [] then []
    else
      var e := es[|es| - 1];
      KeepRecent(es[..|es| - 1], now) + (if IsRecent(e.published, now) then [HoopDirtRecord(e)] else [])
  }

  /** Everything `get_hoopdirt` appends. */
  function HoopDirtOpps(es: seq<Entry>, now: int): seq<Opp> {
    KeepRecent(Take(es, HoopDirtLimit), now)
  }

  /** The records one Google query appends for the entries it visits. */
  function QueryOpps(s: Search, es: seq<Entry>): (r: seq<Opp>)
    ensures |r| == |es|
    ensures forall i :: 0 <= i < |es| ==> r[i] == GoogleRecord(s, es[i])
  {
    if es == [] then [] else QueryOpps(s, es[..|es| - 1]) + [GoogleRecord(s, es[|es| - 1])]
  }

  /** What the first n queries append, given the feed each query returned. */
  function GoogleOppsUpTo(feeds: seq<seq<Entry>>, n: nat): seq<Opp>
    requires n <= |Searches| && n <= |feeds|
  {
    if n == 0 then []
    else GoogleOppsUpTo(feeds, n - 1) + QueryOpps(Searches[n - 1], Take(feeds[n - 1], QueryLimit))
  }

  /** Everything `get_google_smart_search` appends. */
  function GoogleOpps(feeds: seq<seq<Entry>>): seq<Opp>
    requires |feeds| == |Searches|
  {
    GoogleOppsUpTo(feeds, |Searches|)
  }

  /** Everything `get_ncaa_market` appends. */
  function NcaaOpps(es: seq<Entry>): seq<Opp> {
    if es == [] then []
    else
      var e := es[|es| - 1];
      NcaaOpps(es[..|es| - 1]) + (if NcaaAccepts(e.title) then [NcaaRecord(e)] else [])
  }

  /** A HoopDirt record is appended exactly for each recent entry among those visited. */
  lemma {:induction false} KeepRecentMembers(es: seq<Entry>, now: int)
    ensures |KeepRecent(es, now)| <= |es|
    ensures forall o :: o in KeepRecent(es, now) <==>
              exists i :: 0 <= i < |es| && IsRecent(es[i].published, now) && o == HoopDirtRecord(es[i])
  {
    if es != [] {
      var front := es[..|es| - 1];
      KeepRecentMembers(front, now);
      assert forall i :: 0 <= i < |front| ==> front[i] == es[i];
    }
  }

  /** Visiting entries in two stretches appends the two stretches' records in that order. */
  lemma {:induction false} KeepRecentConcat(a: seq<Entry>, b: seq<Entry>, now: int)
    ensures KeepRecent(a + b, now) == KeepRecent(a, now) + KeepRecent(b, now)
  {
    if b != [] {
      assert (a + b)[..|a + b| - 1] == a + b[..|b| - 1];
      KeepRecentConcat(a, b[..|b| - 1], now);
    } else {
      assert a + b == a;
    }
  }

  /** HoopDirt appends at most 10 records, one per recent entry among the first 10, and
      every one of them is tagged as industry news. */
  lemma HoopDirtOppsBound(es: seq<Entry>, now: int)
    ensures |HoopDirtOpps(es, now)| <= HoopDirtLimit
    ensures forall o :: o in HoopDirtOpps(es, now) <==>
              exists i :: 0 <= i < Min(|es|, HoopDirtLimit) && IsRecent(es[i].published, now) && o == HoopDirtRecord(es[i])
    ensures forall o :: o in HoopDirtOpps(es, now) ==> o.kind == Industry && o.source == "HoopDirt"
  {
    var visited := Take(es, HoopDirtLimit);
    KeepRecentMembers(visited, now);
    assert forall i :: 0 <= i < |visited| ==> visited[i] == es[i];
  }

  /** Each query appends one record per entry among its first 4, with its own label and type
      and whatever the entries' dates. */
  lemma QueryOppsBound(s: Search, feed: seq<Entry>)
    ensures |QueryOpps(s, Take(feed, QueryLimit))| == Min(|feed|, QueryLimit)
    ensures forall o :: o in QueryOpps(s, Take(feed, QueryLimit)) ==>
              o.source == "Google Alert" && o.summary == s.summary && o.kind == s.kind
  {
  }

  /** The first n queries together append at most 4 records each. */
  lemma {:induction false} GoogleOppsUpToBound(feeds: seq<seq<Entry>>, n: nat)
    requires n <= |Searches| && n <= |feeds|
    ensures |GoogleOppsUpTo(feeds, n)| <= QueryLimit * n
    ensures forall o :: o in GoogleOppsUpTo(feeds, n) ==>
              exists q :: 0 <= q < n && o.summary == Searches[q].summary && o.kind == Searches[q].kind
  {
    if n > 0 {
      GoogleOppsUpToBound(feeds, n - 1);
      QueryOppsBound(Searches[n - 1], feeds[n - 1]);
    }
  }

  /** The whole Google search appends at most 16 records, each tagged like one of the queries. */
  lemma GoogleOppsBound(feeds: seq<seq<Entry>>)
    requires |feeds| == |Searches|
    ensures |GoogleOpps(feeds)| <= 16
    ensures forall o :: o in GoogleOpps(feeds) ==>
              exists q :: 0 <= q < |Searches| && o.summary == Searches[q].summary && o.kind == Searches[q].kind
  {
    GoogleOppsUpToBound(feeds, |Searches|);
  }

  /** An NCAA entry gives a record exactly when its title passes the filter; the record is an
      industry one and keeps the title as it was written. */
  lemma {:induction false} NcaaOppsMembers(es: seq<Entry>)
    ensures |NcaaOpps(es)| <= |es|
    ensures forall o :: o in NcaaOpps(es) <==>
              exists i :: 0 <= i < |es| && NcaaAccepts(es[i].title) && o == NcaaRecord(es[i])
    ensures forall o :: o in NcaaOpps(es) ==>
              o.kind == Industry && o.source == "NCAA Market" && exists i :: 0 <= i < |es| && o.title == es[i].title
  {
    if es != [] {
      var front := es[..|es| - 1];
      NcaaOppsMembers(front);
      assert forall i :: 0 <= i < |front| ==> front[i] == es[i];
    }
  }

  /** The NCAA filter does not see letter case. */
  lemma NcaaCaseInsensitive(title: string)
    ensures NcaaAccepts(Lower(title)) == NcaaAccepts(title)
  {
    LowerIdempotent(title);
  }

  /** Visiting NCAA entries in two stretches appends the two stretches' records in that order. */
  lemma {:induction false} NcaaOppsConcat(a: seq<Entry>, b: seq<Entry>)
    ensures NcaaOpps(a + b) == NcaaOpps(a) + NcaaOpps(b)
  {
    if b != [] {
      assert (a + b)[..|a + b| - 1] == a + b[..|b| - 1];
      NcaaOppsConcat(a, b[..|b| - 1]);
    } else {
      assert a + b == a;
    }
  }

  /** The module-level list `found_opps` that the three readers append to. */
  class Collector {
    var found: seq<Opp>

    constructor ()
      ensures found == []
    {
      found := [];
    }

    /** `get_hoopdirt`, given the entries its feed returned. */
    method AddHoopDirt(entries: seq<Entry>, now: int)
      modifies this
      ensures found == old(found) + HoopDirtOpps(entries, now)
    {
      var feed := Take(entries, HoopDirtLimit);
      var i := 0;
      while i < |feed|
        invariant 0 <= i <= |feed|
        invariant found == old(found) + KeepRecent(feed[..i], now)
      {
        var entry := feed[i];
        assert feed[..i + 1][..i] == feed[..i];
        if IsRecent(entry.published, now) {
          found := found + [HoopDirtRecord(entry)];
        }
        i := i + 1;
      }
      assert feed[..i] == feed;
    }

    /** `get_google_smart_search`, given the feed each of the four queries returned. */
    method AddGoogleSmartSearch(feeds: seq<seq<Entry>>)
      requires |feeds| == |Searches|
      modifies this
      ensures found == old(found) + GoogleOpps(feeds)
    {
      var q := 0;
      while q < |Searches|
        invariant 0 <= q <= |Searches|
        invariant found == old(found) + GoogleOppsUpTo(feeds, q)
      {
        ghost var done := GoogleOppsUpTo(feeds, q);
        AppendQueryResults(Searches[q], feeds[q]);
        ghost var step := QueryOpps(Searches[q], Take(feeds[q], QueryLimit));
        assert found == old(found) + done + step;
        assert GoogleOppsUpTo(feeds, q + 1) == done + step;
        q := q + 1;
      }
    }

    /** The body of the query loop: the first 4 entries of one query's feed, each tagged with
        the query's label and type. */
    method AppendQueryResults(search: Search, entries: seq<Entry>)
      modifies this
      ensures found == old(found) + QueryOpps(search, Take(entries, QueryLimit))
    {
      var feed := Take(entries, QueryLimit);
      var i := 0;
      while i < |feed|
        invariant 0 <= i <= |feed|
        invariant found == old(found) + QueryOpps(search, feed[..i])
      {
        assert feed[..i + 1][..i] == feed[..i];
        found := found + [GoogleRecord(search, feed[i])];
        i := i + 1;
      }
      assert feed[..i] == feed;
    }

    /** `get_ncaa_market`, given the entries its feed returned. */
    method AddNcaaMarket(entries: seq<Entry>)
      modifies this
      ensures found == old(found) + NcaaOpps(entries)
    {
      var i := 0;
      while i < |entries|
        invariant 0 <= i <= |entries|
        invariant found == old(found) + NcaaOpps(entries[..i])
      {
        var entry := entries[i];
        assert entries[..i + 1][..i] == entries[..i];
        var title := Lower(entry.title);
        if Contains(title, "basketball") || Contains(title, "player development") {
          if !ContainsAny(title, Ignore) {
            found := found + [NcaaRecord(entry)];
          }
        }
        i := i + 1;
      }
      assert entries[..i] == entries;
    }
  }
}
