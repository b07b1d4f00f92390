/**
 * URL objects as the scripts use them: `new URL(text)`, `url.searchParams.delete(name)`
 * and `url.href`. The browser's URL parser and the application/x-www-form-urlencoded
 * parser and serializer are not reproduced; they are the fields of a `UrlApi` value.
 */
module Urls {
  import opened Wrappers
  import opened SearchParams

  /**
   * A URL record (section 4.1 of the WHATWG URL Standard). `base` is the serialization
   * of everything before the query (scheme, credentials, host, port, path); the query
   * and the fragment are null (None) or a string.
   */
  datatype UrlRecord = UrlRecord(base: string, query: Option<string>, fragment: Option<string>)

  /** The host's URL machinery. */
  datatype UrlApi = UrlApi(
    // `new URL(text)` without a base URL: None when the constructor throws
    parse: string -> Option<UrlRecord>,
    // the application/x-www-form-urlencoded parser, which fills a URLSearchParams list
    parseQuery: string -> seq<Pair>,
    // the application/x-www-form-urlencoded serializer used by the update steps
    serializeQuery: seq<Pair> -> string)

  /** The URL serializer (section 4.5 of the URL Standard), which `href` returns. */
  function Serialize(r: UrlRecord): string
  {
    r.base
    + (match r.query case None => "" case Some(q) => "?" + q)
    + (match r.fragment case None => "" case Some(f) => "#" + f)
  }

  /** The index of the first `c` in `s`, or `|s|` when there is none. */
  function IndexOf(s: string, c: char): (i: nat)
    ensures i <= |s|
    ensures i < |s| ==> s[i] == c
    ensures forall k :: 0 <= k < i ==> s[k] != c
  {
    if s == [] || s[0] == c then 0 else 1 + IndexOf(s[1..], c)
  }

  /**
   * Reads a serialization back: the fragment follows the first '#', and the query
   * follows the first '?' before it.
   */
  function Split(s: string): UrlRecord
  {
    var h := IndexOf(s, '#');
    var head := s[..h];
    var q := IndexOf(head, '?');
    UrlRecord(head[..q],
              if q < |head| then Some(head[q + 1..]) else None,
              if h < |s| then Some(s[h + 1..]) else None)
  }

  /** The first `c` of `s` is at `n` when `s[n]` is `c`, or `n` is `|s|`, and no `c` comes before. */
  lemma IndexOfAt(s: string, c: char, n: nat)
    requires n <= |s| && (n < |s| ==> s[n] == c)
    requires forall k :: 0 <= k < n ==> s[k] != c
    ensures IndexOf(s, c) == n
  {
  }

  /**
   * The href can be read back into its parts. The URL parser percent-encodes '?' and
   * '#' before the query and '#' inside it, so the first '#' starts the fragment and
   * the first '?' before it starts the query. This shows only that `Serialize` loses
   * no information: `Split` is not the host's parser, and the lemmas that parse an
   * href again rely on `HrefReparses` instead.
   */
  lemma SerializeSplits(r: UrlRecord)
    requires '?' !in r.base && '#' !in r.base
    requires r.query.Some? ==> '#' !in r.query.value
    ensures Split(Serialize(r)) == r
  {
    var qs := match r.query case None => "" case Some(q) => "?" + q;
    var fs := match r.fragment case None => "" case Some(f) => "#" + f;
    var head := r.base + qs;
    var s := Serialize(r);
    assert s == head + fs;
    assert forall k :: 0 <= k < |head| ==> head[k] != '#' by {
      forall k | 0 <= k < |head|
        ensures head[k] != '#'
      {
        if k >= |r.base| {
          assert head[k] == qs[k - |r.base|];
          if k > |r.base| {
            assert qs[k - |r.base|] == r.query.value[k - |r.base| - 1];
          }
        } else {
          assert head[k] == r.base[k];
        }
      }
    }
    IndexOfAt(s, '#', |head|);
    assert s[..|head|] == head;
    IndexOfAt(head, '?', |r.base|);
    assert head[..|r.base|] == r.base;
    if r.query.Some? {
      assert head[|r.base| + 1..] == r.query.value;
    }
    if r.fragment.Some? {
      assert s[|head| + 1..] == r.fragment.value;
    }
  }

  /** The list a URL's searchParams object starts with: the parsed query, or empty when the query is null. */
  function SearchList(api: UrlApi, r: UrlRecord): seq<Pair>
  {
    match r.query
    case None => []
    case Some(q) => api.parseQuery(q)
  }

  /**
   * The query that the URLSearchParams update steps leave: the serialized list, or
   * null when that serialization is the empty string.
   */
  function UpdatedQuery(api: UrlApi, l: seq<Pair>): Option<string>
  {
    var s := api.serializeQuery(l);
    if s == "" then None else Some(s)
  }

  /** A record whose query the update steps rewrote from the list `l`. */
  function WithList(api: UrlApi, r: UrlRecord, l: seq<Pair>): UrlRecord
  {
    r.(query := UpdatedQuery(api, l))
  }

  /**
   * The record after `names.forEach(n => url.searchParams.delete(n))`: with no names
   * nothing happens; otherwise the query is rebuilt from the filtered list.
   */
  function AfterDeleting(api: UrlApi, r: UrlRecord, names: seq<string>): (r': UrlRecord)
    ensures r'.base == r.base && r'.fragment == r.fragment
  {
    if names == [] then r else WithList(api, r, Keep(SearchList(api, r), NameSet(names)))
  }

  /**
   * The form-urlencoded serializer writes the empty string for the empty list and
   * for no other list: every tuple writes at least its `=`.
   */
  ghost predicate EmptyOnlyForEmptyList(api: UrlApi)
  {
    forall l :: api.serializeQuery(l) == "" <==> l == []
  }

  /** With such a serializer, the update steps null the query exactly when the list is empty. */
  lemma UpdatedQueryNull(api: UrlApi, l: seq<Pair>)
    requires EmptyOnlyForEmptyList(api)
    ensures UpdatedQuery(api, l).None? <==> l == []
  {
    assert api.serializeQuery(l) == "" <==> l == [];
  }

  /** The form-urlencoded parser reads back every list the serializer writes. */
  ghost predicate QueryRoundTrips(api: UrlApi)
  {
    forall l :: api.parseQuery(api.serializeQuery(l)) == l
  }

  /**
   * Parsing the href of a parsed URL whose query the update steps rewrote gives that
   * URL back.
   */
  ghost predicate HrefReparses(api: UrlApi)
  {
    forall t, l | api.parse(t).Some? ::
      api.parse(Serialize(WithList(api, api.parse(t).value, l))) == Some(WithList(api, api.parse(t).value, l))
  }

  /** What the round-trip lemmas assume of the host. */
  ghost predicate Coherent(api: UrlApi)
  {
    QueryRoundTrips(api) && EmptyOnlyForEmptyList(api) && HrefReparses(api)
  }

  /** After the update steps, a fresh searchParams object reads the same list back. */
  lemma SearchListAfterUpdate(api: UrlApi, r: UrlRecord, l: seq<Pair>)
    requires QueryRoundTrips(api) && EmptyOnlyForEmptyList(api)
    ensures SearchList(api, WithList(api, r, l)) == l
  {
    UpdatedQueryNull(api, l);
    if l != [] {
      assert api.parseQuery(api.serializeQuery(l)) == l;
    }
  }

  /**
   * After the deletions, the URL's query holds exactly the tuples whose names were
   * not deleted, in their original order, and none whose name was.
   */
  lemma AfterDeletingStrips(api: UrlApi, r: UrlRecord, names: seq<string>)
    requires QueryRoundTrips(api) && EmptyOnlyForEmptyList(api)
    ensures SearchList(api, AfterDeleting(api, r, names)) == Keep(SearchList(api, r), NameSet(names))
    ensures forall p :: p in SearchList(api, AfterDeleting(api, r, names)) ==> p.name !in names
  {
    if names == [] {
      KeepNothing(SearchList(api, r));
      assert NameSet(names) == {};
    } else {
      SearchListAfterUpdate(api, r, Keep(SearchList(api, r), NameSet(names)));
    }
  }

  /** Deleting the same names from the resulting URL again changes nothing. */
  lemma AfterDeletingIdempotent(api: UrlApi, r: UrlRecord, names: seq<string>)
    requires QueryRoundTrips(api) && EmptyOnlyForEmptyList(api)
    ensures AfterDeleting(api, AfterDeleting(api, r, names), names) == AfterDeleting(api, r, names)
  {
    if names != [] {
      var kept := Keep(SearchList(api, r), NameSet(names));
      SearchListAfterUpdate(api, r, kept);
      KeepIdempotent(SearchList(api, r), NameSet(names));
    }
  }

  /**
   * A JavaScript URL object. The fields of its searchParams object are folded in:
   * `list` is that object's list, which `delete` edits together with `query`.
   */
  class Url {
    const api: UrlApi
    const base: string
    const fragment: Option<string>
    var query: Option<string>
    var list: seq<Pair>

    /** `new URL(text)` once the parser has produced `r`. */
    constructor (api: UrlApi, r: UrlRecord)
      ensures this.api == api && Record() == r
      ensures list == SearchList(api, r)
    {
      this.api := api;
      base := r.base;
      fragment := r.fragment;
      query := r.query;
      list := SearchList(api, r);
    }

    /** The URL record this object stands for. */
    function Record(): UrlRecord
      reads this
    {
      UrlRecord(base, query, fragment)
    }

    /** The `href` getter. */
    function Href(): string
      reads this
    {
      Serialize(Record())
    }

    /** `searchParams.delete(name)`: remove every tuple named `name`, then run the update steps. */
    method Delete(name: string)
      modifies this
      ensures list == SearchParams.Delete(old(list), name)
      ensures query == UpdatedQuery(api, list)
    {
      list := SearchParams.Delete(list, name);
      query := UpdatedQuery(api, list);
    }
  }

  /** `names.forEach((param) => url.searchParams.delete(param))`. */
  method DeleteAll(url: Url, names: seq<string>)
    modifies url
    ensures url.list == DeleteEach(old(url.list), names)
    ensures url.query == if names == [] then old(url.query) else UpdatedQuery(url.api, url.list)
  {
    for i := 0 to |names|
      invariant url.list == DeleteEach(old(url.list), names[..i])
      invariant url.query == if i == 0 then old(url.query) else UpdatedQuery(url.api, url.list)
    {
      url.Delete(names[i]);
      assert names[..i + 1][..i] == names[..i];
    }
    assert names[..|names|] == names;
  }
}
