/**
 * CleanCopy.user.js: the copy listener, `sanitizeText`, and the wrappers around
 * `navigator.clipboard.write` and `navigator.clipboard.writeText`.
 */
module CleanCopy {
  import opened Wrappers
  import opened SearchParams
  import opened Urls
  import opened Browser
  import LegacyScript

  /** `blacklisted_params`: the tracking parameters deleted, in the order they are deleted. */
  const BLACKLISTED_PARAMS: seq<string> := [
    "utm_source", "utm_medium", "utm_campaign", "utm_term", "utm_content",
    "utm_referrer", "utm_name", "utm_id",
    "fbclid",
    "gclid", "gclsrc",
    "dclid",
    "msclkid",
    "yclid", "ysclid",
    "si",
    "sender_device", "sender_web_id",
    "share", "share_source",
    "is_from_webapp"
  ]

  /** Every name of the list is listed once, so each of its deletions removes a different name. */
  lemma ListedOnce()
    ensures |BLACKLISTED_PARAMS| == 21 && Distinct(BLACKLISTED_PARAMS)
  {
  }

  /**
   * This list keeps every name of the older script.js list, so whatever that script
   * strips from a query is stripped here too: filtering by the older list first
   * changes nothing, and every tuple that survives here survives there.
   */
  lemma ExtendsLegacyList(ps: seq<Pair>)
    ensures NameSet(LegacyScript.BLACKLISTED_PARAMS) <= NameSet(BLACKLISTED_PARAMS)
    ensures Keep(Keep(ps, NameSet(LegacyScript.BLACKLISTED_PARAMS)), NameSet(BLACKLISTED_PARAMS))
         == Keep(ps, NameSet(BLACKLISTED_PARAMS))
    ensures forall p :: p in Keep(ps, NameSet(BLACKLISTED_PARAMS)) ==>
      p in Keep(ps, NameSet(LegacyScript.BLACKLISTED_PARAMS))
  {
    var n := BLACKLISTED_PARAMS;
    assert LegacyScript.BLACKLISTED_PARAMS
        == [n[0], n[1], n[2], n[3], n[4], n[8], n[9], n[10], n[11], n[12], n[13], n[5], n[6], n[7], n[14]];
    var legacy, current := NameSet(LegacyScript.BLACKLISTED_PARAMS), NameSet(n);
    KeepKeep(ps, legacy, current);
    assert legacy + current == current;
  }

  /**
   * What `sanitizeText` returns for a string: the empty string and text the URL
   * parser rejects come back unchanged; a URL comes back as the href left after
   * every blacklisted name was deleted.
   */
  function SanitizedString(api: UrlApi, s: string): string
  {
    if s == "" then s
    else match api.parse(s)
      case None => s
      case Some(r) => Serialize(AfterDeleting(api, r, BLACKLISTED_PARAMS))
  }

  /** What `sanitizeText` returns for any JavaScript value: non-strings come back as they are. */
  function Sanitized(api: UrlApi, v: JsValue): JsValue
  {
    match v
    case JsOther(_) => v
    case JsString(s) => JsString(SanitizedString(api, s))
  }

  /** `sanitizeText(text)`. */
  method SanitizeText(api: UrlApi, text: JsValue) returns (r: JsValue)
    ensures r == Sanitized(api, text)
    ensures text.JsOther? || text == JsString("") ==> r == text
    ensures text.JsString? && api.parse(text.str).None? ==> r == text
    ensures text.JsString? ==> r.JsString?
  {
    if text.JsOther? || text.str == "" {
      return text;
    }
    var parsed := api.parse(text.str);
    if parsed.None? {
      // `new URL(text)` threw: not a URL
      return text;
    }
    var url := new Url(api, parsed.value);
    DeleteAll(url, BLACKLISTED_PARAMS);
    DeleteEachIsKeep(SearchList(api, parsed.value), BLACKLISTED_PARAMS);
    r := JsString(url.Href());
  }

  /**
   * For a URL, the sanitized text parses back to the same URL with the query rebuilt
   * from the surviving tuples: every tuple whose name is not blacklisted, with its
   * value, in its original order, and no tuple whose name is blacklisted.
   */
  lemma SanitizedUrlIsClean(api: UrlApi, s: string, r: UrlRecord)
    requires Coherent(api)
    requires s != "" && api.parse(s) == Some(r)
    ensures api.parse(SanitizedString(api, s)) == Some(AfterDeleting(api, r, BLACKLISTED_PARAMS))
    ensures SearchList(api, AfterDeleting(api, r, BLACKLISTED_PARAMS)) == Keep(SearchList(api, r), NameSet(BLACKLISTED_PARAMS))
    ensures forall p :: p in SearchList(api, AfterDeleting(api, r, BLACKLISTED_PARAMS)) ==> p.name !in BLACKLISTED_PARAMS
  {
    AfterDeletingStrips(api, r, BLACKLISTED_PARAMS);
    var kept := Keep(SearchList(api, r), NameSet(BLACKLISTED_PARAMS));
    assert AfterDeleting(api, r, BLACKLISTED_PARAMS) == WithList(api, api.parse(s).value, kept);
  }

  /** Sanitizing the sanitized text changes nothing. */
  lemma SanitizeIdempotent(api: UrlApi, s: string)
    requires Coherent(api)
    ensures SanitizedString(api, SanitizedString(api, s)) == SanitizedString(api, s)
  {
    if s != "" && api.parse(s).Some? {
      var r := api.parse(s).value;
      var clean := AfterDeleting(api, r, BLACKLISTED_PARAMS);
      SanitizedUrlIsClean(api, s, r);
      AfterDeletingIdempotent(api, r, BLACKLISTED_PARAMS);
      assert SanitizedString(api, s) == Serialize(clean);
      if Serialize(clean) != "" {
        assert api.parse(Serialize(clean)) == Some(clean);
      }
    }
  }

  /**
   * The `copy` listener. It always calls `preventDefault`; it then sets `text/plain`
   * to the empty string when nothing is selected, to the original selection when the
   * selection is not a URL, and otherwise to the sanitized href. `selection` is
   * `document.getSelection()?.toString()`.
   */
  method OnCopy(api: UrlApi, e: CopyEvent, selection: Option<string>)
    modifies e, e.clipboardData
    ensures e.defaultPrevented
    ensures selection.None? || selection == Some("") ==>
      e.clipboardData.store == old(e.clipboardData.store)[TEXT_PLAIN := ""]
    ensures selection.Some? && api.parse(selection.value).None? ==>
      e.clipboardData.store == old(e.clipboardData.store)[TEXT_PLAIN := selection.value]
    ensures e.clipboardData.store ==
      old(e.clipboardData.store)[TEXT_PLAIN := if selection.None? then "" else SanitizedString(api, selection.value)]
  {
    e.PreventDefault();
    var content := selection;
    if content.None? || content.value == "" {
      e.clipboardData.SetData(TEXT_PLAIN, "");
      return;
    }
    var parsed := api.parse(content.value);
    if parsed.None? {
      e.clipboardData.SetData(TEXT_PLAIN, content.value);
      return;
    }
    var url := new Url(api, parsed.value);
    DeleteAll(url, BLACKLISTED_PARAMS);
    DeleteEachIsKeep(SearchList(api, parsed.value), BLACKLISTED_PARAMS);
    e.clipboardData.SetData(TEXT_PLAIN, url.Href());
  }

  /** Every type an item lists can be read with `getType`. */
  ghost predicate Readable(item: ClipboardItem)
  {
    forall t :: t in TypesOf(item) ==> t in item.blobs
  }

  /**
   * The wrapper can rebuild the item: every type it lists can be read, and it lists
   * at least one, since `new ClipboardItem({})` throws a TypeError.
   */
  ghost predicate Rebuildable(item: ClipboardItem)
  {
    Readable(item) && TypesOf(item) != []
  }

  /** No element occurs twice. */
  ghost predicate Distinct(s: seq<string>)
  {
    forall i, j :: 0 <= i < j < |s| ==> s[i] != s[j]
  }

  /** The blob the wrapper puts under `mime`: the sanitized text for `text/plain`, else the original blob. */
  function SanitizedBlob(api: UrlApi, mime: string, blob: Blob): Blob
  {
    if mime == TEXT_PLAIN then Blob(mime, SanitizedString(api, blob.text)) else blob
  }

  /**
   * `out` is the ClipboardItem the `write` wrapper builds from `item`: exactly the
   * same types, each listed once, and under each type the original blob, except that
   * `text/plain` carries the sanitized text.
   */
  ghost predicate IsSanitizedCopy(api: UrlApi, item: ClipboardItem, out: ClipboardItem)
  {
    && out.types.Some?
    && (forall t :: t in out.types.value <==> t in TypesOf(item))
    && Distinct(out.types.value)
    && (forall t :: t in out.blobs <==> t in TypesOf(item))
    && (forall t :: t in out.blobs ==> t in item.blobs && out.blobs[t] == SanitizedBlob(api, t, item.blobs[t]))
  }

  /**
   * The per-item callback of the `write` wrapper: None when a `getType` call
   * rejects or when `newMap` stays empty, else the new ClipboardItem built from `newMap`.
   */
  method SanitizeItem(api: UrlApi, item: ClipboardItem) returns (out: Option<ClipboardItem>)
    ensures out.Some? <==> Rebuildable(item)
    ensures out.Some? ==> IsSanitizedCopy(api, item, out.value)
  {
    var types := TypesOf(item);
    var newMap: map<string, Blob> := map[];
    // the keys of `newMap` in insertion order, which become the new item's types
    var order: seq<string> := [];
    for i := 0 to |types|
      invariant newMap.Keys == NameSet(types[..i])
      invariant NameSet(order) == newMap.Keys
      invariant Distinct(order)
      invariant forall t :: t in newMap ==> t in item.blobs && newMap[t] == SanitizedBlob(api, t, item.blobs[t])
    {
      var mime := types[i];
      var blob := GetType(item, mime);
      if blob.None? {
        // the rejection makes Promise.all reject
        return None;
      }
      var stored := blob.value;
      if mime == TEXT_PLAIN {
        var sanitized := SanitizeText(api, JsString(stored.text));
        stored := Blob(mime, sanitized.str);
      }
      assert stored == SanitizedBlob(api, mime, item.blobs[mime]);
      if mime !in newMap {
        order := order + [mime];
      }
      newMap := newMap[mime := stored];
      assert NameSet(types[..i + 1]) == NameSet(types[..i]) + {mime} by {
        assert types[..i + 1] == types[..i] + [mime];
      }
    }
    assert types[..|types|] == types;
    assert types != [] ==> types[0] in newMap;
    if newMap == map[] {
      // an item without types: `new ClipboardItem({})` throws and Promise.all rejects
      return None;
    }
    assert forall t :: t in order <==> t in types by {
      forall t
        ensures t in order <==> t in types
      {
        assert t in order <==> t in NameSet(order);
        assert t in types <==> t in NameSet(types);
      }
    }
    out := Some(ClipboardItem(Some(order), newMap));
  }

  /**
   * The `navigator.clipboard.write` wrapper: the items handed to the original
   * `write`. When every item can be rebuilt they are the sanitized copies, one per
   * item in the same order; when any `getType` rejects or any item lists no type,
   * the catch hands over the original data instead.
   */
  method Write(api: UrlApi, data: seq<ClipboardItem>) returns (sent: seq<ClipboardItem>)
    ensures (forall i :: 0 <= i < |data| ==> Rebuildable(data[i])) ==>
      |sent| == |data| && forall i :: 0 <= i < |data| ==> IsSanitizedCopy(api, data[i], sent[i])
    ensures (exists i :: 0 <= i < |data| && !Rebuildable(data[i])) ==> sent == data
  {
    var items: seq<ClipboardItem> := [];
    for i := 0 to |data|
      invariant |items| == i
      invariant forall k :: 0 <= k < i ==> Rebuildable(data[k]) && IsSanitizedCopy(api, data[k], items[k])
    {
      var item := SanitizeItem(api, data[i]);
      if item.None? {
        return data;
      }
      items := items + [item.value];
    }
    sent := items;
  }

  /** The `navigator.clipboard.writeText` wrapper: the text handed to the original `writeText`. */
  method WriteText(api: UrlApi, text: JsValue) returns (sent: JsValue)
    ensures text.JsOther? ==> sent == text
    ensures text.JsString? ==> sent == JsString(SanitizedString(api, text.str))
  {
    sent := SanitizeText(api, text);
  }

  /**
   * The example "https://example.com/?utm_source=x&id=5&fbclid=y", which becomes
   * "https://example.com/?id=5": whatever text the browser parses and serializes,
   * a query listing utm_source=x, id=5 and fbclid=y comes out holding id=5 alone.
   */
  lemma StripsTrackingExample(api: UrlApi, u: string, base: string, query: string)
    requires EmptyOnlyForEmptyList(api)
    requires u != "" && api.parse(u) == Some(UrlRecord(base, Some(query), None))
    requires api.parseQuery(query) == [Pair("utm_source", "x"), Pair("id", "5"), Pair("fbclid", "y")]
    ensures SanitizedString(api, u) == base + "?" + api.serializeQuery([Pair("id", "5")])
  {
    ListedNames();
    KeepsOnlyId(NameSet(BLACKLISTED_PARAMS));
    UpdatedQueryNull(api, [Pair("id", "5")]);
  }

  /** Which of the names used in the examples are blacklisted. */
  lemma ListedNames()
    ensures "utm_source" in NameSet(BLACKLISTED_PARAMS) && "fbclid" in NameSet(BLACKLISTED_PARAMS)
    ensures "id" !in NameSet(BLACKLISTED_PARAMS)
  {
    assert BLACKLISTED_PARAMS[0] == "utm_source" && BLACKLISTED_PARAMS[8] == "fbclid";
  }

  /** Any drop set holding `utm_source` and `fbclid` but not `id` filters this list alike. */
  lemma KeepsOnlyId(drop: set<string>)
    requires "utm_source" in drop && "fbclid" in drop && "id" !in drop
    ensures Keep([Pair("utm_source", "x"), Pair("id", "5"), Pair("fbclid", "y")], drop) == [Pair("id", "5")]
  {
    var ps := [Pair("utm_source", "x"), Pair("id", "5"), Pair("fbclid", "y")];
    assert ps == [ps[0]] + ps[1..];
    assert ps[1..] == [ps[1]] + ps[2..];
    assert ps[2..] == [ps[2]] + [];
    assert Keep(ps[2..], drop) == [];
    assert Keep(ps[1..], drop) == [ps[1]];
  }

  /**
   * When every parameter is blacklisted, the update steps null the query and the
   * href loses its "?": "https://example.com/?utm_source=x" becomes "https://example.com/".
   */
  lemma NullsEmptyQueryExample(api: UrlApi, u: string, base: string, query: string)
    requires EmptyOnlyForEmptyList(api)
    requires u != "" && api.parse(u) == Some(UrlRecord(base, Some(query), None))
    requires api.parseQuery(query) == [Pair("utm_source", "x")]
    ensures SanitizedString(api, u) == base
  {
    ListedNames();
    UpdatedQueryNull(api, []);
    assert Keep([Pair("utm_source", "x")], NameSet(BLACKLISTED_PARAMS)) == [];
  }
}
