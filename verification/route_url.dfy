/** Hash URLs of the single-page app (source/routing/route-url-handler.js):
    `role/viewId` with an optional `?key=value&...` query whose values are
    URI-encoded, read back into a role, a view and a parameter dictionary.
    The base URL the handler takes from the page or the app configuration is
    a parameter. */
module RouteUrl {
  import opened Wrappers
  import opened Text
  import opened Js
  import Uri

  // ---------------------------------------------------------------------------
  // Query strings
  // ---------------------------------------------------------------------------

  /** The text a value is written as: `JSON.stringify` for an object,
      `String(value)` otherwise. */
  function ValueText(v: Value): string {
    if TypeOf(v) == "object" && v.Obj? then v.json else ToStr(v)
  }

  /** The `key=value` part `buildQueryString` writes for one entry; `null`
      and `undefined` values are dropped. The key is written as it is. */
  function QueryPart(key: string, v: Value): Option<string> {
    if v == Null || v == Undefined then None
    else Some(key + "=" + Uri.Encode(ValueText(v)))
  }

  function QueryParts(params: seq<(string, Value)>): seq<string> {
    if |params| == 0 then []
    else
      match QueryPart(params[0].0, params[0].1)
      case None => QueryParts(params[1..])
      case Some(part) => [part] + QueryParts(params[1..])
  }

  /** `buildQueryString(params)`. */
  function BuildQueryString(params: seq<(string, Value)>): string {
    Join(QueryParts(params), "&")
  }

  /** The loop of `buildQueryString`. */
  method BuildQuery(params: seq<(string, Value)>) returns (query: string)
    ensures query == BuildQueryString(params)
  {
    var queryParts := [];
    for i := 0 to |params|
      invariant queryParts + QueryParts(params[i..]) == QueryParts(params)
    {
      var part := QueryPart(params[i].0, params[i].1);
      QueryPartsStep(params[i..]);
      assert params[i..][1..] == params[i + 1..];
      if part.Some? {
        queryParts := queryParts + [part.value];
      }
    }
    assert queryParts + [] == queryParts;
    query := Join(queryParts, "&");
  }

  /** One entry of the loop: its part, if any, comes first. */
  lemma QueryPartsStep(rest: seq<(string, Value)>)
    requires |rest| > 0
    ensures QueryPart(rest[0].0, rest[0].1).None? ==> QueryParts(rest) == QueryParts(rest[1..])
    ensures QueryPart(rest[0].0, rest[0].1).Some? ==>
      QueryParts(rest) == [QueryPart(rest[0].0, rest[0].1).value] + QueryParts(rest[1..])
  {
  }

  /** One pair as `parseQueryString` reads it: the key before the first `=`
      and the value up to the next one; `None` when either is empty or
      there is no `=`. */
  function PairOf(pair: string): Option<(string, string)> {
    var kv := Split(pair, "=");
    if |kv| < 2 || kv[0] == "" || kv[1] == "" then None else Some((kv[0], kv[1]))
  }

  /** The loop of `parseQueryString` from the dictionary `acc` on; `None`
      when a key or value is not valid percent-encoding, which empties the
      whole result. A `__proto__` key is dropped: assigning it runs the
      inherited setter and adds no entry. */
  function ParsePairs(pairs: seq<string>, acc: map<string, string>): Option<map<string, string>> {
    if |pairs| == 0 then Some(acc)
    else
      match PairOf(pairs[0])
      case None => ParsePairs(pairs[1..], acc)
      case Some((key, value)) =>
        match (Uri.Decode(key), Uri.Decode(value))
        case (Some(k), Some(v)) => ParsePairs(pairs[1..], if k == ProtoSetter then acc else acc[k := v])
        case _ => None
  }

  /** `parseQueryString(query)`, each value kept as its decoded text. */
  function ParseQueryString(query: string): map<string, string> {
    if query == "" then map[]
    else
      match ParsePairs(Split(query, "&"), map[])
      case Some(params) => params
      case None => map[]
  }

  /** The loop of `parseQueryString`. */
  method ParseQuery(query: string) returns (params: map<string, string>)
    ensures params == ParseQueryString(query)
  {
    if query == "" {
      return map[];
    }
    var pairs := Split(query, "&");
    params := map[];
    while pairs != []
      invariant ParsePairs(Split(query, "&"), map[]) == ParsePairs(pairs, params)
      decreases |pairs|
    {
      var pair := PairOf(pairs[0]);
      if pair.Some? {
        var key := Uri.Decode(pair.value.0);
        var value := Uri.Decode(pair.value.1);
        if key.None? || value.None? {
          return map[];
        }
        if key.value != ProtoSetter {
          params := params[key.value := value.value];
        }
      }
      pairs := pairs[1..];
    }
  }

  /** The dictionary the query of `params` should read back as: each entry
      with a value, in order, later keys overriding earlier ones, and no
      `__proto__` entry, which the reading drops. */
  function Expected(params: seq<(string, Value)>, acc: map<string, string>): map<string, string> {
    if |params| == 0 then acc
    else if params[0].1 == Null || params[0].1 == Undefined || params[0].0 == ProtoSetter then Expected(params[1..], acc)
    else Expected(params[1..], acc[params[0].0 := ValueText(params[0].1)])
  }

  /** A key the query can carry as it is: not empty and free of the
      characters that delimit or escape query text. */
  predicate PlainKey(key: string) {
    key != "" && '&' !in key && '=' !in key && '%' !in key && '?' !in key
  }

  /** One written pair is read back as its key and its value's text. */
  lemma PairRoundTrip(key: string, v: Value)
    requires PlainKey(key) && v != Null && v != Undefined && ValueText(v) != ""
    ensures PairOf(QueryPart(key, v).value) == Some((key, Uri.Encode(ValueText(v))))
    ensures Uri.Decode(key) == Some(key) && Uri.Decode(Uri.Encode(ValueText(v))) == Some(ValueText(v))
  {
    var encoded := Uri.Encode(ValueText(v));
    Uri.EncodeEmpty(ValueText(v));
    assert '=' !in encoded;
    AbsentChar(key, "=", 0);
    AbsentChar(encoded, "=", 0);
    SplitJoin([key, encoded], "=");
    assert Join([key, encoded], "=") == key + "=" + encoded;
    Uri.DecodePlain(key);
    Uri.DecodeEncode(ValueText(v));
  }

  /** The parts of a query hold no `&` and no `?`. */
  lemma QueryPartsPlain(params: seq<(string, Value)>)
    requires forall i :: 0 <= i < |params| ==> PlainKey(params[i].0)
    ensures forall i :: 0 <= i < |QueryParts(params)| ==>
      '&' !in QueryParts(params)[i] && '?' !in QueryParts(params)[i]
    decreases |params|
  {
    if |params| > 0 {
      var tail := params[1..];
      assert forall i :: 0 <= i < |tail| ==> PlainKey(tail[i].0) by {
        forall i | 0 <= i < |tail| ensures PlainKey(tail[i].0) {
          assert tail[i] == params[i + 1];
        }
      }
      QueryPartsPlain(tail);
      QueryPartPlain(params[0].0, params[0].1);
      var head := QueryPart(params[0].0, params[0].1);
      assert QueryParts(params) == (if head.Some? then [head.value] else []) + QueryParts(tail);
    }
  }

  lemma QueryPartPlain(key: string, v: Value)
    requires PlainKey(key)
    ensures QueryPart(key, v).Some? ==> '&' !in QueryPart(key, v).value && '?' !in QueryPart(key, v).value
  {
  }

  /** Every entry a query can carry round-trips. */
  predicate Carried(params: seq<(string, Value)>) {
    forall i :: 0 <= i < |params| ==>
      PlainKey(params[i].0) && (params[i].1 == Null || params[i].1 == Undefined || ValueText(params[i].1) != "")
  }

  lemma {:induction false} ParsePartsRoundTrip(params: seq<(string, Value)>, acc: map<string, string>)
    requires Carried(params)
    ensures ParsePairs(QueryParts(params), acc) == Some(Expected(params, acc))
    decreases |params|
  {
    if |params| > 0 {
      assert Carried(params[1..]) by {
        forall i | 0 <= i < |params[1..]|
          ensures PlainKey(params[1..][i].0) && (params[1..][i].1 == Null || params[1..][i].1 == Undefined || ValueText(params[1..][i].1) != "")
        {
          assert params[1..][i] == params[i + 1];
        }
      }
      var (key, v) := params[0];
      if v != Null && v != Undefined {
        PairRoundTrip(key, v);
        var parts := QueryParts(params);
        assert parts[0] == QueryPart(key, v).value && parts[1..] == QueryParts(params[1..]);
      }
      ParsePartsRoundTrip(params[1..], if v == Null || v == Undefined || key == ProtoSetter then acc else acc[key := ValueText(v)]);
    }
  }

  /** Every part of a query holds a `=`. */
  lemma {:induction false} QueryPartsPaired(params: seq<(string, Value)>)
    ensures forall i :: 0 <= i < |QueryParts(params)| ==> '=' in QueryParts(params)[i]
    decreases |params|
  {
    if |params| > 0 {
      QueryPartsPaired(params[1..]);
      var part := QueryPart(params[0].0, params[0].1);
      if part.Some? {
        assert part.value[|params[0].0|] == '=';
      }
    }
  }

  /** A query with no parts is empty, and one with parts is not. */
  lemma {:induction false} QueryEmpty(params: seq<(string, Value)>)
    ensures BuildQueryString(params) == "" <==> QueryParts(params) == []
    ensures QueryParts(params) == [] ==> Expected(params, map[]) == map[]
    decreases |params|
  {
    if |params| > 0 {
      QueryEmpty(params[1..]);
      var parts := QueryParts(params);
      if parts != [] {
        JoinStartsWith(parts, "&");
        QueryPartsPaired(params);
        assert '=' in parts[0];
      }
    }
  }

  /** `parseQueryString(buildQueryString(params))` gives each carried entry
      back, keyed by its key and holding its value's text. */
  lemma QueryRoundTrip(params: seq<(string, Value)>)
    requires Carried(params)
    ensures '?' !in BuildQueryString(params)
    ensures ParseQueryString(BuildQueryString(params)) == Expected(params, map[])
  {
    var parts := QueryParts(params);
    QueryPartsPlain(params);
    QueryEmpty(params);
    NoCharInJoin(parts, "&", '?');
    if parts != [] {
      forall i | 0 <= i < |parts| ensures !Contains(parts[i], "&") {
        AbsentChar(parts[i], "&", 0);
      }
      SplitJoin(parts, "&");
      ParsePartsRoundTrip(params, map[]);
    }
  }

  /** A query of one plain pair reads back as that pair, except that a
      `__proto__` key gives the empty dictionary; any other inherited name,
      such as `constructor`, is an ordinary entry. */
  lemma SinglePair(key: string, value: string)
    requires PlainKey(key) && value != "" && '&' !in value && '=' !in value && '%' !in value
    ensures ParseQueryString(key + "=" + value) == if key == ProtoSetter then map[] else map[key := value]
  {
    var query := key + "=" + value;
    SinglePairSplits(key, value);
    Uri.DecodePlain(key);
    Uri.DecodePlain(value);
    var acc: map<string, string> := if key == ProtoSetter then map[] else map[key := value];
    assert [query][1..] == [];
    assert ParsePairs([query], map[]) == ParsePairs([], acc);
  }

  /** The text of one plain pair is one part, split at its `=`. */
  lemma SinglePairSplits(key: string, value: string)
    requires PlainKey(key) && value != "" && '&' !in value && '=' !in value
    ensures Split(key + "=" + value, "&") == [key + "=" + value]
    ensures PairOf(key + "=" + value) == Some((key, value))
  {
    var query := key + "=" + value;
    assert forall i :: 0 <= i < |query| ==> query[i] != '&' by {
      forall i | 0 <= i < |query| ensures query[i] != '&' {
        if i < |key| { assert query[i] == key[i]; }
        else if i > |key| { assert query[i] == value[i - |key| - 1]; }
      }
    }
    AbsentChar(query, "&", 0);
    SplitJoin([query], "&");
    AbsentChar(key, "=", 0);
    AbsentChar(value, "=", 0);
    SplitJoin([key, value], "=");
    assert Join([key, value], "=") == query;
  }

  /** `parseQueryString('__proto__=x')` is `{}`, while
      `parseQueryString('constructor=x')` holds the entry. */
  lemma ProtoQueryDropped()
    ensures ParseQueryString("__proto__=x") == map[]
    ensures ParseQueryString("constructor=x") == map["constructor" := "x"]
  {
    var x, ctor := "x", "constructor";
    assert PlainKey(ProtoSetter) && PlainKey(ctor);
    assert '&' !in x && '=' !in x && '%' !in x;
    SinglePair(ProtoSetter, x);
    SinglePair(ctor, x);
    assert ctor != ProtoSetter;
    assert ProtoSetter + "=" + x == "__proto__=x";
    assert ctor + "=" + x == "constructor=x";
  }

  /** A `__proto__` entry with a value is written into the query but does
      not come back. */
  lemma ProtoKeyNotCarried(v: Value)
    requires v != Null && v != Undefined && ValueText(v) != ""
    ensures BuildQueryString([(ProtoSetter, v)]) != ""
    ensures ParseQueryString(BuildQueryString([(ProtoSetter, v)])) == map[]
  {
    var params := [(ProtoSetter, v)];
    assert PlainKey(params[0].0);
    QueryRoundTrip(params);
    QueryEmpty(params);
    assert QueryParts(params) != [];
  }

  /** A character in none of the parts nor the separator is not in the join. */
  lemma {:induction false} NoCharInJoin(parts: seq<string>, sep: string, c: char)
    requires c !in sep && forall i :: 0 <= i < |parts| ==> c !in parts[i]
    ensures c !in Join(parts, sep)
    decreases |parts|
  {
    if |parts| > 1 {
      NoCharInJoin(parts[1..], sep, c);
    }
  }

  // ---------------------------------------------------------------------------
  // Route parts
  // ---------------------------------------------------------------------------

  /** What `parseRoutePart` returns: a role and a view, or (for a route part
      naming an inherited property of the SEO table) a function or object
      with no `role` or `viewId` of its own. */
  datatype RouteParts = RouteParts(role: string, viewId: string) | Inherited

  /** The old SEO names of the merchant dashboard pages, and the view each
      stands for. */
  function SeoView(routePart: string): Option<string> {
    if routePart == "merchant-analytics" then Some("dashboard/analytics")
    else if routePart == "merchant-transactions" then Some("dashboard/transactions")
    else if routePart == "merchant-inventory" then Some("dashboard/inventory")
    else if routePart == "merchant-parties" then Some("dashboard/parties")
    else if routePart == "merchant-posts" then Some("dashboard/posts")
    else if routePart == "merchant-reports" then Some("dashboard/reports")
    else None
  }

  /** `parseRoutePart(routePart)`. */
  function ParseRoutePart(routePart: string): (r: RouteParts)
    ensures SeoView(routePart).Some? ==> r == RouteParts("merchant", SeoView(routePart).value)
    ensures '/' !in routePart && SeoView(routePart).None? && routePart !in PrototypeKeys ==>
      r == RouteParts("guest", if routePart == "" then "home" else routePart)
  {
    if SeoView(routePart).Some? then RouteParts("merchant", SeoView(routePart).value)
    else if routePart in PrototypeKeys then Inherited
    else
      var parts := Split(routePart, "/");
      assert '/' !in routePart ==> parts == [routePart] by {
        if '/' !in routePart {
          AbsentChar(routePart, "/", 0);
        }
      }
      if |parts| >= 2 then RouteParts(parts[0], Join(parts[1..], "/"))
      else RouteParts("guest", if routePart == "" then "home" else routePart)
  }

  /** No SEO name and no inherited property holds a `/`. */
  lemma NamesWithoutSlash(name: string)
    requires SeoView(name).Some? || name in PrototypeKeys
    ensures '/' !in name
  {
    if SeoView(name).Some? {
      SeoNamesWithoutSlash(name);
    } else {
      KeysWithoutSlash(name);
    }
  }

  lemma SeoNamesWithoutSlash(name: string)
    requires SeoView(name).Some?
    ensures '/' !in name
  {
    SlashFree1();
    SlashFree2();
  }

  lemma KeysWithoutSlash(name: string)
    requires name in PrototypeKeys
    ensures '/' !in name
  {
    SlashFree3();
    SlashFree4();
    SlashFree5();
    SlashFree6();
  }

  lemma SlashFree1()
    ensures '/' !in "merchant-analytics" && '/' !in "merchant-transactions" && '/' !in "merchant-inventory"
  {
  }

  lemma SlashFree2()
    ensures '/' !in "merchant-parties" && '/' !in "merchant-posts" && '/' !in "merchant-reports"
  {
  }

  lemma SlashFree3()
    ensures '/' !in "constructor" && '/' !in "__proto__" && '/' !in "__defineGetter__"
  {
  }

  lemma SlashFree4()
    ensures '/' !in "__defineSetter__" && '/' !in "__lookupGetter__" && '/' !in "__lookupSetter__"
  {
  }

  lemma SlashFree5()
    ensures '/' !in "hasOwnProperty" && '/' !in "isPrototypeOf" && '/' !in "propertyIsEnumerable"
  {
  }

  lemma SlashFree6()
    ensures '/' !in "toString" && '/' !in "toLocaleString" && '/' !in "valueOf"
  {
  }

  /** `role/viewId` with a slash-free role reads back as that role and view. */
  lemma RoutePartRoundTrip(role: string, viewId: string)
    requires '/' !in role
    ensures ParseRoutePart(role + "/" + viewId) == RouteParts(role, viewId)
  {
    var routePart := role + "/" + viewId;
    assert routePart[|role|] == '/';
    if SeoView(routePart).Some? || routePart in PrototypeKeys {
      NamesWithoutSlash(routePart);
    }
    AbsentChar(role, "/", 0);
    FindAfterPart(role, "/", viewId);
    assert Split(routePart, "/") == [role] + Split(viewId, "/") by {
      assert routePart[..|role|] == role;
      assert routePart[|role| + 1..] == viewId;
    }
    JoinSplit(viewId, "/");
  }

  // ---------------------------------------------------------------------------
  // Whole URLs
  // ---------------------------------------------------------------------------

  /** The query appended to `url` when there are parameters and the query is
      not empty. */
  function WithQuery(url: string, params: seq<(string, Value)>): string {
    if |params| > 0 && BuildQueryString(params) != "" then url + "?" + BuildQueryString(params) else url
  }

  /** `generateUrl(role, viewId, params)` as the source writes it: a merchant
      view under `dashboard/` is written without its role. */
  function GenerateUrlAsWritten(role: string, viewId: string, params: seq<(string, Value)>): string {
    var url := if role == "merchant" && StartsWith(viewId, "dashboard/") then viewId else role + "/" + viewId;
    WithQuery(url, params)
  }

  /** `generateUrl` as its comments describe it: every view, the merchant
      dashboard pages included, under its role. */
  function GenerateUrl(role: string, viewId: string, params: seq<(string, Value)>): (r: string)
    ensures StartsWith(r, role + "/" + viewId)
  {
    WithQuery(role + "/" + viewId, params)
  }

  /** A merchant dashboard URL as the source writes it reads back with the
      role `dashboard`. */
  lemma DashboardUrlLosesRole(rest: string)
    requires '?' !in rest
    ensures GenerateUrlAsWritten("merchant", "dashboard/" + rest, []) == "dashboard/" + rest
    ensures ParseRoutePart("dashboard/" + rest) == RouteParts("dashboard", rest)
  {
    var viewId := "dashboard/" + rest;
    assert viewId == "dashboard" + "/" + rest;
    assert StartsWith(viewId, "dashboard/") by {
      assert viewId[..10] == "dashboard/";
    }
    assert '/' !in "dashboard";
    RoutePartRoundTrip("dashboard", rest);
  }

  /** Outside the merchant dashboard pages the URL as written is the
      corrected one, and so reads back as its role and view. */
  lemma GeneratedAsWrittenElsewhere(role: string, viewId: string, params: seq<(string, Value)>)
    requires !(role == "merchant" && StartsWith(viewId, "dashboard/"))
    requires '/' !in role && '?' !in role && '?' !in viewId && Carried(params)
    ensures GenerateUrlAsWritten(role, viewId, params) == GenerateUrl(role, viewId, params)
    ensures ParseUrl("/" + GenerateUrlAsWritten(role, viewId, params)) ==
      Some(ParsedUrl(RouteParts(role, viewId), Expected(params, map[])))
  {
    UrlRoundTrip(role, viewId, params);
  }

  /** What `parseUrl` returns. */
  datatype ParsedUrl = ParsedUrl(route: RouteParts, params: map<string, string>)

  /** `parseUrl(url)`: `null` unless the text starts with `/`; the route is
      the part before the first `?` and the query the part up to the next. */
  function ParseUrl(url: string): (r: Option<ParsedUrl>)
    ensures r.Some? <==> StartsWith(url, "/")
  {
    if url == "" || !StartsWith(url, "/") then None
    else
      var pieces := Split(url[1..], "?");
      var params := if |pieces| >= 2 && pieces[1] != "" then ParseQueryString(pieces[1]) else map[];
      Some(ParsedUrl(ParseRoutePart(pieces[0]), params))
  }

  /** The URL `generateUrl` writes has no leading `/`, so reading it back
      with `parseUrl`, as the navigation handlers do with the location hash,
      gives `null`: the round trip holds only behind an added `/`. */
  lemma GeneratedUrlNotParsed(role: string, viewId: string, params: seq<(string, Value)>)
    requires role != "" && role[0] != '/'
    ensures ParseUrl(GenerateUrlAsWritten(role, viewId, params)) == None
  {
    var route := if role == "merchant" && StartsWith(viewId, "dashboard/") then viewId else role + "/" + viewId;
    assert route != "" && route[0] != '/' by {
      if role == "merchant" && StartsWith(viewId, "dashboard/") {
        assert viewId[0] == 'd';
      }
    }
    WithQueryStart(route, params);
    var url := WithQuery(route, params);
    assert GenerateUrlAsWritten(role, viewId, params) == url;
    assert !StartsWith(url, "/") by {
      assert url[..1] != "/" by { assert url[..1][0] == url[0]; }
    }
    NotRootedNotParsed(url);
  }

  lemma NotRootedNotParsed(url: string)
    requires !StartsWith(url, "/")
    ensures ParseUrl(url) == None
  {
  }

  /** The query, when there is one, follows the route. */
  lemma WithQueryStart(route: string, params: seq<(string, Value)>)
    requires route != ""
    ensures var url := WithQuery(route, params); url != "" && url[0] == route[0]
  {
    var query := BuildQueryString(params);
    var url := route + "?" + query;
    assert url[0] == route[0];
  }

  /** The route part of a URL ends at the first `?`. */
  lemma SplitAtQuery(route: string, query: string)
    requires '?' !in route && '?' !in query
    ensures Split(route + "?" + query, "?") == [route, query]
  {
    AbsentChar(route, "?", 0);
    AbsentChar(query, "?", 0);
    SplitJoin([route, query], "?");
    assert Join([route, query], "?") == route + "?" + query;
  }

  /** A generated URL, behind a `/`, parses back to its role, its view and
      the texts of its parameters. */
  lemma UrlRoundTrip(role: string, viewId: string, params: seq<(string, Value)>)
    requires '/' !in role && '?' !in role && '?' !in viewId && Carried(params)
    ensures ParseUrl("/" + GenerateUrl(role, viewId, params)) ==
      Some(ParsedUrl(RouteParts(role, viewId), Expected(params, map[])))
  {
    var route := role + "/" + viewId;
    var query := BuildQueryString(params);
    assert '?' !in route;
    RoutePartRoundTrip(role, viewId);
    QueryRoundTrip(params);
    QueryEmpty(params);
    ParseRouteWithQuery(route, if |params| > 0 && query != "" then query else "");
  }

  /** A route without `?`, with or without a query behind a `?`, parses to
      the route part and the parsed query. */
  lemma ParseRouteWithQuery(route: string, query: string)
    requires '?' !in route && '?' !in query
    ensures var url := if query != "" then route + "?" + query else route;
      ParseUrl("/" + url) == Some(ParsedUrl(ParseRoutePart(route), ParseQueryString(query)))
  {
    var url := if query != "" then route + "?" + query else route;
    assert ("/" + url)[1..] == url;
    if query != "" {
      SplitAtQuery(route, query);
    } else {
      AbsentChar(route, "?", 0);
      assert Split(route, "?") == [route];
    }
  }

  /** `getFullUrl(hash)`: the base URL, then the hash with one `#` in front
      unless it already has one. */
  function GetFullUrl(baseUrl: string, hash: string): (r: string)
    ensures StartsWith(r, baseUrl + "#") && EndsWith(r, hash)
    ensures |r| == |baseUrl| + |hash| <==> StartsWith(hash, "#")
    ensures |r| <= |baseUrl| + |hash| + 1
  {
    var cleanHash := if StartsWith(hash, "#") then hash else "#" + hash;
    assert cleanHash[..1] == "#";
    assert (baseUrl + cleanHash)[..|baseUrl| + 1] == baseUrl + "#";
    baseUrl + cleanHash
  }
}
