/** The 48-hour freshness test applied to HoopDirt entries. */
module Recency {
  import opened PdcTypes

  /** `timedelta(hours=48)` in seconds. */
  const MaxAge: int := 48 * 60 * 60

  /** `is_recent`: an unparsable date counts as recent; a parsed one is rejected only when it
      is strictly more than MaxAge seconds before `now`. */
  function IsRecent(published: Option<int>, now: int): (r: bool)
    ensures published.None? ==> r
    ensures published.Some? ==> (r <==> now - MaxAge <= published.value)
  {
    match published
    case None => true
    case Some(dt) => !(now - dt > MaxAge)
  }

  /** The edges of the window: exactly 48 hours old and future dates are kept, one second
      more is not, and an unparsable date is kept whatever the clock says. */
  lemma RecencyBoundary(now: int)
    ensures IsRecent(None, now)
    ensures IsRecent(Some(now - MaxAge), now)
    ensures !IsRecent(Some(now - MaxAge - 1), now)
    ensures forall dt :: dt >= now ==> IsRecent(Some(dt), now)
  {
  }
}
