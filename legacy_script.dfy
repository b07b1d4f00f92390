/**
 * script.js: the older copy listener. It reads the copy target's innerHTML, returns
 * without touching the event when that is empty or not a URL, and otherwise deletes
 * a shorter list of tracking parameters and puts the href on the clipboard.
 */
module LegacyScript {
  import opened Wrappers
  import opened SearchParams
  import opened Urls
  import opened Browser

  /** This file's `blacklisted_params`, in the order they are deleted. */
  const BLACKLISTED_PARAMS: seq<string> := [
    "utm_source", "utm_medium", "utm_campaign", "utm_term", "utm_content",
    "fbclid", "gclid", "gclsrc", "dclid", "msclkid", "yclid",
    "utm_referrer", "utm_name", "utm_id",
    "ysclid"
  ]

  /**
   * What the listener puts under `text/plain`, or None when it returns early:
   * no content, or content the URL parser rejects.
   */
  function ClipboardText(api: UrlApi, content: Option<string>): Option<string>
  {
    match content
    case None => None
    case Some(s) =>
      if s == "" then None
      else match api.parse(s)
        case None => None
        case Some(r) => Some(Serialize(AfterDeleting(api, r, BLACKLISTED_PARAMS)))
  }

  /** The listener returns early exactly when the content is missing, empty or not a URL. */
  lemma ReturnsEarly(api: UrlApi, content: Option<string>)
    ensures ClipboardText(api, content).None? <==>
      content.None? || content.value == "" || api.parse(content.value).None?
  {
  }

  /**
   * The `copy` listener. On an early return neither `preventDefault` nor `setData`
   * is called; otherwise both are, and `text/plain` receives the href.
   */
  method OnCopy(api: UrlApi, e: CopyEvent)
    modifies e, e.clipboardData
    ensures ClipboardText(api, e.targetHtml).None? ==>
      e.defaultPrevented == old(e.defaultPrevented) && e.clipboardData.store == old(e.clipboardData.store)
    ensures ClipboardText(api, e.targetHtml).Some? ==>
      e.defaultPrevented &&
      e.clipboardData.store == old(e.clipboardData.store)[TEXT_PLAIN := ClipboardText(api, e.targetHtml).value]
  {
    var content := e.targetHtml;
    if content.None? || content.value == "" {
      // "No content"
      return;
    }
    var parsed := api.parse(content.value);
    if parsed.None? {
      // "Not a URL"
      return;
    }
    var url := new Url(api, parsed.value);
    e.PreventDefault();
    DeleteAll(url, BLACKLISTED_PARAMS);
    DeleteEachIsKeep(SearchList(api, parsed.value), BLACKLISTED_PARAMS);
    e.clipboardData.SetData(TEXT_PLAIN, url.Href());
  }

  /**
   * The href put on the clipboard parses back to the URL whose query holds every
   * tuple of the original query whose name is not in this file's list, in order,
   * and none whose name is.
   */
  lemma CopiedUrlIsClean(api: UrlApi, s: string, r: UrlRecord)
    requires Coherent(api)
    requires s != "" && api.parse(s) == Some(r)
    ensures ClipboardText(api, Some(s)) == Some(Serialize(AfterDeleting(api, r, BLACKLISTED_PARAMS)))
    ensures api.parse(ClipboardText(api, Some(s)).value) == Some(AfterDeleting(api, r, BLACKLISTED_PARAMS))
    ensures SearchList(api, AfterDeleting(api, r, BLACKLISTED_PARAMS)) == Keep(SearchList(api, r), NameSet(BLACKLISTED_PARAMS))
    ensures forall p :: p in SearchList(api, AfterDeleting(api, r, BLACKLISTED_PARAMS)) ==> p.name !in BLACKLISTED_PARAMS
  {
    AfterDeletingStrips(api, r, BLACKLISTED_PARAMS);
    var kept := Keep(SearchList(api, r), NameSet(BLACKLISTED_PARAMS));
    assert AfterDeleting(api, r, BLACKLISTED_PARAMS) == WithList(api, api.parse(s).value, kept);
  }

  /**
   * Duplicated tracking parameters are all removed, while `si` and `share`, which
   * this shorter list lacks, survive in their order.
   */
  lemma ShortListExample()
    ensures Keep([Pair("utm_source", "a"), Pair("si", "b"), Pair("utm_source", "c"), Pair("share", "d")],
                 NameSet(BLACKLISTED_PARAMS))
         == [Pair("si", "b"), Pair("share", "d")]
  {
    assert BLACKLISTED_PARAMS[0] == "utm_source";
    KeepsSiAndShare(NameSet(BLACKLISTED_PARAMS));
  }

  /** Any drop set holding `utm_source` but neither `si` nor `share` filters this list alike. */
  lemma KeepsSiAndShare(drop: set<string>)
    requires "utm_source" in drop && "si" !in drop && "share" !in drop
    ensures Keep([Pair("utm_source", "a"), Pair("si", "b"), Pair("utm_source", "c"), Pair("share", "d")], drop)
         == [Pair("si", "b"), Pair("share", "d")]
  {
    var ps := [Pair("utm_source", "a"), Pair("si", "b"), Pair("utm_source", "c"), Pair("share", "d")];
    assert ps == [ps[0]] + ps[1..];
    assert ps[1..] == [ps[1]] + ps[2..];
    assert ps[2..] == [ps[2]] + ps[3..];
    assert ps[3..] == [ps[3]] + [];
    assert Keep(ps[3..], drop) == [ps[3]];
    assert Keep(ps[2..], drop) == [ps[3]];
    assert Keep(ps[1..], drop) == [ps[1], ps[3]];
  }
}
