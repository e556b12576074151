/** One run of the monitor: the three readers append to a fresh list, then the alert is built. */
module Monitor {
  import opened PdcTypes
  import opened Sources
  import opened Alert

  /** The script's entry point, given what each feed returned and the current time. */
  method RunMonitor(hoopdirt: seq<Entry>, google: seq<seq<Entry>>, ncaa: seq<Entry>, now: int)
    returns (payload: seq<Block>)
    requires |google| == |Searches|
    ensures IsAlertPayload(HoopDirtOpps(hoopdirt, now) + GoogleOpps(google) + NcaaOpps(ncaa), payload)
  {
    var collector := new Collector();
    collector.AddHoopDirt(hoopdirt, now);
    collector.AddGoogleSmartSearch(google);
    collector.AddNcaaMarket(ncaa);
    assert collector.found == HoopDirtOpps(hoopdirt, now) + GoogleOpps(google) + NcaaOpps(ncaa);
    payload := SendSlackAlert(collector.found);
  }
}
