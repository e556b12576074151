/** The Slack payload built from the accumulated records: a heartbeat when nothing was found,
    otherwise a header with the unique count, a divider and at most 15 ranked sections. */
module Alert {
  import opened PdcTypes
  import opened Text
  import opened Deduplication
  import opened Ranking

  /** One Slack block: a plain-text header, a divider, or a mrkdwn section. */
  datatype Block = Header(text: string) | Divider | Section(text: string)

  /** At most this many sections, to fit in one Slack message. */
  const MaxSections: nat := 15

  const HeartbeatText: string := "\U{2705} *PDC Monitor Ran:* No new matches found this cycle."

  function Emoji(k: OppType): string {
    match k
    case Wealth => "\U{1F4B0}"
    case Pain => "\U{2764}\U{FE0F}"
    case Partner => "\U{1F91D}"
    case Industry => "\U{1F3C0}"
  }

  /** `{emoji} *{summary}*: <{url}|{title}>` */
  function SectionLine(o: Opp): string {
    Emoji(o.kind) + " *" + o.summary + "*: <" + o.url + "|" + o.title + ">"
  }

  /** `🚀 PDC Monitor: {count} Leads` */
  function HeaderText(count: nat): string {
    "\U{1F680} PDC Monitor: " + NatToString(count) + " Leads"
  }

  /** The payload `send_slack_alert` builds from the accumulated records `found`. */
  ghost predicate IsAlertPayload(found: seq<Opp>, payload: seq<Block>) {
    var unique := Dedup(found);
    var ranked := SortByRank(unique);
    if |unique| == 0 then
      payload == [Section(HeartbeatText)]
    else
      && |payload| == 2 + Min(|unique|, MaxSections)
      && payload[0] == Header(HeaderText(|unique|))
      && payload[1] == Divider
      && forall i :: 0 <= i < |payload| - 2 ==> payload[i + 2] == Section(SectionLine(ranked[i]))
  }

  /** `send_slack_alert` up to the point where the payload is handed to the webhook. */
  method SendSlackAlert(found: seq<Opp>) returns (payload: seq<Block>)
    ensures IsAlertPayload(found, payload)
  {
    var unique := Dedup(found);
    var count := |unique|;
    if count == 0 {
      payload := [Section(HeartbeatText)];
    } else {
      var blocks := [Header(HeaderText(count)), Divider];
      var sorted := SortByRank(unique);
      var shown := Take(sorted, MaxSections);
      var i := 0;
      while i < |shown|
        invariant 0 <= i <= |shown|
        invariant |blocks| == 2 + i
        invariant blocks[0] == Header(HeaderText(count)) && blocks[1] == Divider
        invariant forall j :: 0 <= j < i ==> blocks[j + 2] == Section(SectionLine(sorted[j]))
      {
        var opp := shown[i];
        var emoji := "\U{1F3C0}";
        if opp.kind == Wealth {
          emoji := "\U{1F4B0}";
        } else if opp.kind == Pain {
          emoji := "\U{2764}\U{FE0F}";
        } else if opp.kind == Partner {
          emoji := "\U{1F91D}";
        }
        blocks := blocks + [Section(emoji + " *" + opp.summary + "*: <" + opp.url + "|" + opp.title + ">")];
        i := i + 1;
      }
      payload := blocks;
    }
  }

  /** The heartbeat is sent exactly when nothing was found; otherwise the payload opens with a
      header reporting the full unique count, even when more than 15 records exist. */
  lemma {:induction false} HeartbeatIffNothingFound(found: seq<Opp>, payload: seq<Block>)
    requires IsAlertPayload(found, payload)
    ensures payload == [Section(HeartbeatText)] <==> found == []
    ensures found != [] ==>
              3 <= |payload| <= 2 + MaxSections && payload[0] == Header(HeaderText(|Dedup(found)|))
  {
    DedupUrls(found);
    if found != [] {
      assert found[0].url in Urls(found);
      assert Urls(Dedup(found)) != {};
    }
  }

  /** The ranked records, from whose front the sections are drawn, are the found URLs each
      once, each carried by the last record found with it. */
  lemma RankedRecords(found: seq<Opp>)
    ensures DistinctUrls(SortByRank(Dedup(found)))
    ensures Urls(SortByRank(Dedup(found))) == Urls(found)
    ensures forall i :: 0 <= i < |SortByRank(Dedup(found))| ==>
              LastIndexOfUrl(found, SortByRank(Dedup(found))[i].url) >= 0 &&
              SortByRank(Dedup(found))[i] == found[LastIndexOfUrl(found, SortByRank(Dedup(found))[i].url)]
  {
    var unique := Dedup(found);
    var ranked := SortByRank(unique);
    DedupUrls(found);
    DedupKeepsLast(found);
    SortByRankSpec(unique);
    PermutationKeepsUrls(unique, ranked);
    forall i | 0 <= i < |ranked|
      ensures LastIndexOfUrl(found, ranked[i].url) >= 0 &&
              ranked[i] == found[LastIndexOfUrl(found, ranked[i].url)]
    {
      assert ranked[i] in multiset(unique);
      var k :| 0 <= k < |unique| && unique[k] == ranked[i];
    }
  }

  /** A worked run: a record, a later record with the same URL, then a wealth or pain lead
      with another URL. The later duplicate replaces the first at its position, the lead is
      ranked first, and the header counts two leads. */
  lemma DuplicateThenLead(first: Opp, dup: Opp, lead: Opp, payload: seq<Block>)
    requires first.url == dup.url && lead.url != dup.url
    requires Rank(dup) == 1 && Rank(lead) == 0
    requires IsAlertPayload([first, dup, lead], payload)
    ensures payload == [Header(HeaderText(2)), Divider, Section(SectionLine(lead)), Section(SectionLine(dup))]
    ensures HeaderText(2) == "\U{1F680} PDC Monitor: 2 Leads"
  {
    var found := [first, dup, lead];
    var unique := Dedup(found);
    assert unique == [dup, lead] by {
      assert found[..2] == [first, dup] && [first, dup][..1] == [first];
      assert Dedup([first]) == [first];
      assert IndexOfUrl([first], dup.url) == 0;
      assert Dedup([first, dup]) == [dup];
      assert IndexOfUrl([dup], lead.url) == -1;
    }
    var ranked := SortByRank(unique);
    assert ranked == [lead, dup] by {
      assert unique[..1] == [dup];
      assert SortByRank([dup]) == [dup];
      assert ranked == Insert([dup], lead);
    }
    assert |payload| == 4;
    assert payload[0 + 2] == Section(SectionLine(ranked[0]));
    assert payload[1 + 2] == Section(SectionLine(ranked[1]));
    assert NatToString(2) == "2";
  }
}
