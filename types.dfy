/** The values the monitor passes around: feed entries and the records built from them. */
module PdcTypes {

  datatype Option<T> = None | Some(value: T)

  /** The closed set of values the `type` key of a record takes. */
  datatype OppType = Industry | Partner | Pain | Wealth

  /** One record appended to the accumulated list (keys source, title, url, summary, type). */
  datatype Opp = Opp(source: string, title: string, url: string, summary: string, kind: OppType)

  /** One feed entry as handed over by the fetcher. `published` is the entry's date already
      parsed to seconds, or None when the date string does not parse. */
  datatype Entry = Entry(title: string, link: string, published: Option<int>)

  function Min(a: int, b: int): int {
    if a <= b then a else b
  }

  /** The slice `s[:n]`: the first n elements, or all of them when there are fewer. */
  function Take<T>(s: seq<T>, n: nat): (r: seq<T>)
    ensures |r| == Min(|s|, n)
    ensures r == s[..|r|]
  {
    if |s| <= n then s else s[..n]
  }
}
