/** `DiscoverAI`: the model's grounding sources turned into source-list
    entries. The model call is a parameter (`sources`, `None` when the
    answer has no sources) and so is the clock (`now`). */
module UseSearch {
  import opened Common
  import opened ClientTypes

  /** A grounding source as the model reports it. */
  datatype SearchSource = SearchSource(id: string, title: string, url: string, sourceType: string)

  function ToFile(s: SearchSource, now: int): (f: ClientFile)
    ensures f.public_id == s.id && f.title == s.title && f.url == s.url && f.format == s.sourceType
    ensures f.checked && f.created_at == Some(now) && f.updated_at == Some(now)
  {
    ClientFile(s.id, s.title, s.url, s.sourceType, true, Some(now), Some(now))
  }

  /** `sources?.map(...) || []`: an array is truthy even when empty. */
  function DiscoverAI(sources: Option<seq<SearchSource>>, now: int): (r: seq<ClientFile>)
    ensures sources.None? ==> r == []
    ensures sources.Some? ==> |r| == |sources.value|
    ensures sources.Some? ==> forall k :: 0 <= k < |r| ==> r[k] == ToFile(sources.value[k], now)
  {
    match sources
    case None => []
    case Some(ss) => seq(|ss|, k requires 0 <= k < |ss| => ToFile(ss[k], now))
  }

  /** Every discovered entry starts ticked, so importing them all posts
      every one of them. */
  lemma DiscoveredAllChecked(sources: Option<seq<SearchSource>>, now: int)
    ensures AllChecked(DiscoverAI(sources, now))
  {
  }
}
