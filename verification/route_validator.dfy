/** The route guard of the single-page app (source/routing/route-validator.js).
    A route is valid when the role is one of the four roles, the view is in
    the role's list (exactly, or through a `:param` pattern), the role may
    open the view, and every parameter passes its rule once sanitised. The
    source's authentication, rate-limit and business-rule hooks always pass.
    A `TypeError` the source throws while looking something up is `None`. */
module RouteValidator {
  import opened Wrappers
  import opened Text
  import opened Js

  // ---------------------------------------------------------------------------
  // Configuration
  // ---------------------------------------------------------------------------

  const Roles: seq<string> := ["guest", "consumer", "merchant", "admin"]

  /** `allowedRoutes[role]` for a role that is an own key of the table. */
  function RoutesOf(role: string): seq<string> {
    if role == "guest" then ["home"]
    else if role == "consumer" then
      ["home", "cart", "item-details/:id", "conversation/:id", "merchant-profile/:id",
       "account", "wishlist", "updates", "notifications"]
    else if role == "merchant" then
      ["home", "dashboard", "dashboard/analytics", "dashboard/transactions", "dashboard/inventory",
       "dashboard/parties", "dashboard/posts", "dashboard/reports", "add-item", "add-item/:itemId",
       "profile-edit", "add-invoice"]
    else if role == "admin" then ["home", "users", "analytics", "requests"]
    else []
  }

  const RequiresAuth: seq<string> := ["account", "cart", "dashboard", "add-item", "profile-edit", "add-invoice"]

  /** `roleRequired[viewId]` for a view that is an own key of the table. */
  function RoleRequired(viewId: string): Option<seq<string>> {
    if viewId == "dashboard" || viewId == "add-item" || viewId == "add-invoice" then Some(["merchant"])
    else if viewId == "users" || viewId == "analytics" || viewId == "requests" then Some(["admin"])
    else None
  }

  /** `checkAuthentication()`: the source always answers yes. */
  const Authenticated: bool := true

  /** The regular expressions of `paramRules`. */
  datatype Rule = IdRule | DigitRule

  /** `paramRules[name]` for a name that is an own key of the table. */
  function ParamRule(name: string): Option<Rule> {
    if name == "id" then Some(IdRule)
    else if name == "merchantId" || name == "itemId" then Some(DigitRule)
    else None
  }

  // ---------------------------------------------------------------------------
  // Roles
  // ---------------------------------------------------------------------------

  /** `validateRole(role)`. */
  function ValidateRole(role: string): (r: bool)
    ensures r <==> role == "guest" || role == "consumer" || role == "merchant" || role == "admin"
  {
    role in Roles
  }

  // ---------------------------------------------------------------------------
  // Parameter values
  // ---------------------------------------------------------------------------

  predicate IsIdChar(c: char) {
    IsAsciiLetter(c) || IsDigit(c) || c == '_' || c == '-'
  }

  /** `/^[a-zA-Z0-9_-]+$/.test(s)`. */
  predicate IsIdText(s: string) {
    |s| > 0 && forall i :: 0 <= i < |s| ==> IsIdChar(s[i])
  }

  /** `/^[0-9]+$/.test(s)`. */
  predicate IsDigitText(s: string) {
    |s| > 0 && AllDigits(s)
  }

  /** The substrings `basicValidation` refuses in a lower-cased string. Only
      ASCII letters are lower-cased in this model; no other character
      lower-cases to a run of ASCII letters that completes one of these. */
  const Suspicious: seq<string> := ["<script", "javascript:", "onload=", "onerror="]

  /** `basicValidation(value)`: `null` and `undefined` pass; anything whose
      `typeof` is not string, number or boolean fails; a string fails when
      it is longer than 1000 code units or holds a suspicious substring. */
  predicate BasicValidation(v: Value) {
    if v == Null || v == Undefined then true
    else if TypeOf(v) !in ["string", "number", "boolean"] then false
    else if v.Str? then
      Utf16Length(v.s) <= 1000 && forall k :: 0 <= k < |Suspicious| ==> !Contains(Lower(v.s), Suspicious[k])
    else true
  }

  /** What `basicValidation` accepts, kind of value by kind of value. */
  lemma BasicValidationCases(v: Value)
    ensures v.Null? || v.Undefined? || v.Bool? || v.Num? ==> BasicValidation(v)
    ensures v.Obj? ==> !BasicValidation(v)
    ensures v.Str? ==>
      (BasicValidation(v) <==>
        && Utf16Length(v.s) <= 1000
        && !ContainsIgnoringCase(v.s, "<script") && !ContainsIgnoringCase(v.s, "javascript:")
        && !ContainsIgnoringCase(v.s, "onload=") && !ContainsIgnoringCase(v.s, "onerror="))
  {
    if v.Str? {
      var l := Lower(v.s);
      assert (forall k :: 0 <= k < |Suspicious| ==> !Contains(l, Suspicious[k])) <==>
        !Contains(l, Suspicious[0]) && !Contains(l, Suspicious[1]) && !Contains(l, Suspicious[2]) && !Contains(l, Suspicious[3]);
      SuspiciousLower();
    }
  }

  lemma SuspiciousLower()
    ensures forall k :: 0 <= k < |Suspicious| ==> Lower(Suspicious[k]) == Suspicious[k]
  {
    forall k | 0 <= k < |Suspicious| ensures Lower(Suspicious[k]) == Suspicious[k] {
      LowerOfLowerCase(Suspicious[k]);
    }
  }

  lemma LowerOfLowerCase(s: string)
    requires forall i :: 0 <= i < |s| ==> !IsAsciiUpper(s[i])
    ensures Lower(s) == s
  {
  }

  /** `validateParameterValue(name, value)`. A name that is an inherited
      property of every object finds a function in `paramRules`; calling
      its `test` throws, which is `None`. */
  function ParameterValue(name: string, v: Value): (r: Option<bool>)
    ensures r.None? <==> ParamRule(name).None? && name in PrototypeKeys
    ensures ParamRule(name) == Some(IdRule) ==> r == Some(IsIdText(ToStr(v)))
    ensures ParamRule(name) == Some(DigitRule) ==> r == Some(IsDigitText(ToStr(v)))
  {
    match ParamRule(name)
    case Some(IdRule) => Some(IsIdText(ToStr(v)))
    case Some(DigitRule) => Some(IsDigitText(ToStr(v)))
    case None => if name in PrototypeKeys then None else Some(BasicValidation(v))
  }

  // ---------------------------------------------------------------------------
  // Route patterns
  // ---------------------------------------------------------------------------

  /** One segment agrees: a `:name` segment when the route's segment passes
      the rule for `name`, any other segment when the two are equal. */
  predicate SegmentMatches(patternPart: string, routePart: string) {
    if StartsWith(patternPart, ":") then ParameterValue(patternPart[1..], Str(routePart)) == Some(true)
    else patternPart == routePart
  }

  /** The loop of `matchParameterizedRoute` over equally many segments: it
      stops at the first segment that fails or throws. */
  function MatchSegments(pattern: seq<string>, route: seq<string>): Option<bool>
    requires |pattern| == |route|
  {
    if |pattern| == 0 then Some(true)
    else
      var here :=
        if StartsWith(pattern[0], ":") then ParameterValue(pattern[0][1..], Str(route[0]))
        else Some(pattern[0] == route[0]);
      if here != Some(true) then here else MatchSegments(pattern[1..], route[1..])
  }

  /** `matchParameterizedRoute(pattern, route)`. */
  function Match(pattern: string, route: string): Option<bool> {
    var patternParts := Split(pattern, "/");
    var routeParts := Split(route, "/");
    if |patternParts| != |routeParts| then Some(false) else MatchSegments(patternParts, routeParts)
  }

  lemma {:induction false} MatchSegmentsIff(pattern: seq<string>, route: seq<string>)
    requires |pattern| == |route|
    ensures MatchSegments(pattern, route) == Some(true) <==>
      forall i :: 0 <= i < |pattern| ==> SegmentMatches(pattern[i], route[i])
    decreases |pattern|
  {
    if |pattern| > 0 {
      MatchSegmentsIff(pattern[1..], route[1..]);
      if MatchSegments(pattern, route) == Some(true) {
        forall i | 0 <= i < |pattern| ensures SegmentMatches(pattern[i], route[i]) {
          if i > 0 {
            assert pattern[1..][i - 1] == pattern[i] && route[1..][i - 1] == route[i];
          }
        }
      }
      if forall i :: 0 <= i < |pattern| ==> SegmentMatches(pattern[i], route[i]) {
        assert SegmentMatches(pattern[0], route[0]);
        forall i | 0 <= i < |pattern| - 1 ensures SegmentMatches(pattern[1..][i], route[1..][i]) {
          assert SegmentMatches(pattern[i + 1], route[i + 1]);
        }
      }
    }
  }

  /** A pattern matches a route exactly when both have as many segments and
      every segment agrees. */
  lemma MatchIff(pattern: string, route: string)
    ensures var p := Split(pattern, "/"); var r := Split(route, "/");
      Match(pattern, route) == Some(true) <==>
        |p| == |r| && forall i :: 0 <= i < |p| ==> SegmentMatches(p[i], r[i])
  {
    var p := Split(pattern, "/");
    var r := Split(route, "/");
    if |p| == |r| {
      MatchSegmentsIff(p, r);
    }
  }

  /** No `:name` segment names an inherited property. */
  predicate OwnParams(segments: seq<string>) {
    forall i :: 0 <= i < |segments| && StartsWith(segments[i], ":") ==> segments[i][1..] !in PrototypeKeys
  }

  lemma {:induction false} MatchSegmentsDefined(pattern: seq<string>, route: seq<string>)
    requires |pattern| == |route| && OwnParams(pattern)
    ensures MatchSegments(pattern, route).Some?
    decreases |pattern|
  {
    if |pattern| > 0 {
      assert OwnParams(pattern[1..]) by {
        forall i | 0 <= i < |pattern| - 1 && StartsWith(pattern[1..][i], ":")
          ensures pattern[1..][i][1..] !in PrototypeKeys
        {
          assert pattern[1..][i] == pattern[i + 1];
        }
      }
      MatchSegmentsDefined(pattern[1..], route[1..]);
    }
  }

  /** A pattern without `:` has no parameter segment. */
  lemma LiteralPattern(pattern: string)
    requires ':' !in pattern
    ensures OwnParams(Split(pattern, "/"))
  {
    SplitPartsWithout(pattern, "/", ':');
  }

  /** The segments of `head/:name`. */
  lemma ParamPattern(head: string, name: string)
    requires '/' !in head && '/' !in name
    ensures Split(head + "/:" + name, "/") == [head, ":" + name]
  {
    var parts := [head, ":" + name];
    assert '/' !in ":" + name;
    AbsentChar(head, "/", 0);
    AbsentChar(":" + name, "/", 0);
    assert Separable(parts, "/");
    SplitJoin(parts, "/");
    assert Join(parts, "/") == head + "/:" + name;
  }

  /** A pattern without `:` never throws. */
  lemma LiteralDefined(pattern: string, route: string)
    requires ':' !in pattern
    ensures Match(pattern, route).Some?
  {
    LiteralPattern(pattern);
    if |Split(pattern, "/")| == |Split(route, "/")| {
      MatchSegmentsDefined(Split(pattern, "/"), Split(route, "/"));
    }
  }

  /** Every inherited property name is at least seven characters long. */
  lemma PrototypeKeysLong(name: string)
    requires name in PrototypeKeys
    ensures |name| >= 7
  {
  }

  /** `pattern` splits as `head/:name` at `k`, with a name too short to be
      an inherited property. */
  ghost predicate ParamShape(pattern: string, k: nat) {
    && k + 2 <= |pattern| && pattern[k] == '/' && pattern[k + 1] == ':'
    && '/' !in pattern[..k] && ':' !in pattern[..k] && '/' !in pattern[k + 2..] && |pattern| - k - 2 < 7
  }

  /** A pattern matching against which cannot throw. */
  ghost predicate SafePattern(pattern: string) {
    ':' !in pattern || exists k :: ParamShape(pattern, k)
  }

  lemma ParamDefined(pattern: string, k: nat, route: string)
    requires ParamShape(pattern, k)
    ensures Match(pattern, route).Some?
  {
    var head := pattern[..k];
    var name := pattern[k + 2..];
    assert pattern == head + "/:" + name;
    if name in PrototypeKeys {
      PrototypeKeysLong(name);
    }
    var segments := Split(pattern, "/");
    ParamPattern(head, name);
    assert (":" + name)[1..] == name;
    assert !StartsWith(head, ":") by {
      if |head| > 0 {
        assert head[0] in head;
      }
    }
    if |segments| == |Split(route, "/")| {
      MatchSegmentsDefined(segments, Split(route, "/"));
    }
  }

  lemma {:induction false} SafePatternsDefined(patterns: seq<string>, route: string)
    requires forall p :: p in patterns ==> SafePattern(p)
    ensures forall p :: p in patterns ==> Match(p, route).Some?
  {
    forall p | p in patterns ensures Match(p, route).Some? {
      if ':' in p {
        var k :| ParamShape(p, k);
        ParamDefined(p, k, route);
      } else {
        LiteralDefined(p, route);
      }
    }
  }

  /** The configured patterns name only `id` and `itemId`, so matching
      against them never throws. */
  lemma ConfiguredPatternsDefined(role: string, route: string)
    ensures forall p :: p in RoutesOf(role) ==> Match(p, route).Some?
  {
    if role == "consumer" {
      ConsumerPatternsSafe();
    } else if role == "merchant" {
      MerchantPatternsSafe();
    } else {
      OtherPatternsSafe(role);
    }
    SafePatternsDefined(RoutesOf(role), route);
  }

  lemma ConsumerPatternsSafe()
    ensures forall p :: p in RoutesOf("consumer") ==> SafePattern(p)
  {
    ConsumerLiterals();
    ParamShapes();
  }

  lemma MerchantPatternsSafe()
    ensures forall p :: p in RoutesOf("merchant") ==> SafePattern(p)
  {
    MerchantLiterals1();
    MerchantLiterals2();
    ParamShapes();
  }

  lemma ConsumerLiterals()
    ensures ':' !in "home" && ':' !in "cart" && ':' !in "account"
    ensures ':' !in "wishlist" && ':' !in "updates" && ':' !in "notifications"
  {
  }

  lemma MerchantLiterals1()
    ensures ':' !in "dashboard" && ':' !in "dashboard/analytics" && ':' !in "dashboard/transactions"
    ensures ':' !in "dashboard/inventory" && ':' !in "dashboard/parties"
  {
  }

  lemma MerchantLiterals2()
    ensures ':' !in "dashboard/posts" && ':' !in "dashboard/reports" && ':' !in "add-item"
    ensures ':' !in "profile-edit" && ':' !in "add-invoice" && ':' !in "home"
  {
  }

  lemma ParamShapes()
    ensures ParamShape("item-details/:id", 12) && ParamShape("conversation/:id", 12)
    ensures ParamShape("merchant-profile/:id", 16) && ParamShape("add-item/:itemId", 8)
  {
  }

  lemma OtherPatternsSafe(role: string)
    requires role != "consumer" && role != "merchant"
    ensures forall p :: p in RoutesOf(role) ==> SafePattern(p)
  {
  }

  /** The loop of `matchParameterizedRoute`. */
  method MatchRoute(pattern: string, route: string) returns (r: Option<bool>)
    ensures r == Match(pattern, route)
  {
    var patternParts := Split(pattern, "/");
    var routeParts := Split(route, "/");
    if |patternParts| != |routeParts| {
      return Some(false);
    }
    var i := 0;
    while i < |patternParts|
      invariant 0 <= i <= |patternParts|
      invariant MatchSegments(patternParts, routeParts) == MatchSegments(patternParts[i..], routeParts[i..])
    {
      var patternPart := patternParts[i];
      var routePart := routeParts[i];
      assert patternParts[i..][1..] == patternParts[i + 1..];
      assert routeParts[i..][1..] == routeParts[i + 1..];
      if StartsWith(patternPart, ":") {
        var valid := ParameterValue(patternPart[1..], Str(routePart));
        if valid != Some(true) {
          return valid;
        }
      } else if patternPart != routePart {
        return Some(false);
      }
      i := i + 1;
    }
    return Some(true);
  }

  // ---------------------------------------------------------------------------
  // Route existence
  // ---------------------------------------------------------------------------

  /** The loop over the role's patterns: the first pattern that matches or throws decides. */
  function AnyMatch(patterns: seq<string>, viewId: string): Option<bool> {
    if |patterns| == 0 then Some(false)
    else
      match Match(patterns[0], viewId)
      case None => None
      case Some(true) => Some(true)
      case Some(false) => AnyMatch(patterns[1..], viewId)
  }

  /** `validateRouteExists(role, viewId)`. For a role that names an inherited
      property the lookup finds a function, which has no `includes`. */
  function RouteExists(role: string, viewId: string): Option<bool> {
    if role in PrototypeKeys then None
    else if viewId in RoutesOf(role) then Some(true)
    else AnyMatch(RoutesOf(role), viewId)
  }

  lemma {:induction false} AnyMatchIff(patterns: seq<string>, viewId: string)
    requires forall p :: p in patterns ==> Match(p, viewId).Some?
    ensures AnyMatch(patterns, viewId) == Some(exists p :: p in patterns && Match(p, viewId) == Some(true))
    decreases |patterns|
  {
    if |patterns| > 0 {
      assert forall p :: p in patterns[1..] ==> p in patterns;
      AnyMatchIff(patterns[1..], viewId);
      if Match(patterns[0], viewId) == Some(false) {
        assert forall p :: p in patterns && p != patterns[0] ==> p in patterns[1..];
      }
    }
  }

  /** For one of the four roles a route exists exactly when the view is in
      the role's list or matches one of its patterns; a role outside the
      table and its inherited properties has no routes. */
  lemma RouteExistsIff(role: string, viewId: string)
    ensures role in Roles ==>
      RouteExists(role, viewId) == Some(viewId in RoutesOf(role) ||
        exists p :: p in RoutesOf(role) && Match(p, viewId) == Some(true))
    ensures role !in Roles && role !in PrototypeKeys ==> RouteExists(role, viewId) == Some(false)
  {
    var routes := RoutesOf(role);
    ConfiguredPatternsDefined(role, viewId);
    AnyMatchIff(routes, viewId);
    if role in Roles {
      RolesOwn(role);
    } else {
      assert routes == [];
    }
  }

  /** No role names an inherited property. */
  lemma RolesOwn(role: string)
    requires role in Roles
    ensures role !in PrototypeKeys
  {
    if role in PrototypeKeys {
      PrototypeKeysLong(role);
    }
  }

  /** The loop of `validateRouteExists`. */
  method CheckRouteExists(role: string, viewId: string) returns (r: Option<bool>)
    ensures r == RouteExists(role, viewId)
  {
    if role in PrototypeKeys {
      return None;
    }
    var allowedRoutes := RoutesOf(role);
    if viewId in allowedRoutes {
      return Some(true);
    }
    var rest := allowedRoutes;
    while rest != []
      invariant AnyMatch(allowedRoutes, viewId) == AnyMatch(rest, viewId)
      decreases |rest|
    {
      var matched := MatchRoute(rest[0], viewId);
      if matched != Some(false) {
        return matched;
      }
      rest := rest[1..];
    }
    return Some(false);
  }

  // ---------------------------------------------------------------------------
  // Permissions
  // ---------------------------------------------------------------------------

  /** `validatePermissions(role, viewId)`. A view that names an inherited
      property finds a function in `roleRequired`, which has no `includes`. */
  function Permissions(role: string, viewId: string): (r: Option<bool>)
    ensures r.None? <==> viewId in PrototypeKeys
    ensures viewId !in PrototypeKeys ==>
      (r == Some(true) <==> RoleRequired(viewId).None? || role in RoleRequired(viewId).value)
  {
    if viewId in PrototypeKeys then None
    else if RoleRequired(viewId).Some? && role !in RoleRequired(viewId).value then Some(false)
    else if viewId in RequiresAuth && !Authenticated then Some(false)
    else Some(true)
  }

  // ---------------------------------------------------------------------------
  // Sanitising
  // ---------------------------------------------------------------------------

  /** The length of the text `/<script[^>]*>.*?<\/script>/i` matches at the
      start of the lower-cased `l`, if it matches there: the tag runs to the
      first `>`, and the element ends at the first `</script>` after it,
      provided no line terminator comes in between. */
  function ScriptMatch(l: string): (r: Option<nat>)
    ensures r.Some? ==> 0 < r.value <= |l|
  {
    if !StartsWith(l, "<script") then None
    else
      var gt := Find(l, ">", 7);
      if gt < 0 then None
      else
        var close := Find(l, "</script>", gt + 1);
        if close < 0 || exists k :: gt + 1 <= k < close && IsLineTerminator(l[k]) then None
        else Some(close + 9)
  }

  /** `s.replace(/<script[^>]*>.*?<\/script>/gi, '')`: matches are removed
      left to right, the search going on after each match. */
  function RemoveScripts(s: string): (r: string)
    ensures |r| <= |s|
    decreases |s|
  {
    if |s| == 0 then ""
    else
      match ScriptMatch(Lower(s))
      case Some(n) => RemoveScripts(s[n..])
      case None => [s[0]] + RemoveScripts(s[1..])
  }

  /** `s.replace(/p/gi, '')` for a plain lower-case `p`. */
  function RemoveAll(s: string, p: string): (r: string)
    requires |p| > 0
    ensures |r| <= |s|
    decreases |s|
  {
    if |s| == 0 then ""
    else if StartsWithIgnoringCase(s, p) then RemoveAll(s[|p|..], p)
    else [s[0]] + RemoveAll(s[1..], p)
  }

  /** The value `sanitizeParams` stores for `v`. */
  function Sanitize(v: Value): Value {
    match v
    case Str(t) => Str(Trim(RemoveAll(RemoveScripts(t), "javascript:")))
    case _ => v
  }

  lemma LowerSuffix(s: string)
    requires |s| > 0
    ensures Lower(s[1..]) == Lower(s)[1..]
  {
  }

  /** Text with no `<script` in any case has nothing removed. */
  lemma {:induction false} RemoveScriptsClean(s: string)
    requires !Contains(Lower(s), "<script")
    ensures RemoveScripts(s) == s
    decreases |s|
  {
    if |s| > 0 {
      ContainsIff(Lower(s), "<script");
      assert !OccursAt(Lower(s), "<script", 0);
      LowerSuffix(s);
      SuffixAbsent(Lower(s), Lower(s)[1..], "<script");
      RemoveScriptsClean(s[1..]);
      assert s == [s[0]] + s[1..];
    }
  }

  /** Text without `p` in any case has nothing removed. */
  lemma {:induction false} RemoveAllClean(s: string, p: string)
    requires |p| > 0 && p == Lower(p) && !Contains(Lower(s), p)
    ensures RemoveAll(s, p) == s
    decreases |s|
  {
    if |s| > 0 {
      NoMatchAtStart(s, p);
      CleanTail(s, p);
      RemoveAllClean(s[1..], p);
      assert s == [s[0]] + s[1..];
    }
  }

  lemma NoMatchAtStart(s: string, p: string)
    requires |s| > 0 && |p| > 0 && p == Lower(p) && !Contains(Lower(s), p)
    ensures !StartsWithIgnoringCase(s, p)
  {
    ContainsIff(Lower(s), p);
    assert !OccursAt(Lower(s), p, 0);
    if |p| <= |s| {
      assert Lower(s[..|p|]) == Lower(s)[..|p|];
    }
  }

  lemma CleanTail(s: string, p: string)
    requires |s| > 0 && !Contains(Lower(s), p)
    ensures !Contains(Lower(s[1..]), p)
  {
    LowerSuffix(s);
    SuffixAbsent(Lower(s), Lower(s)[1..], p);
  }

  /** Sanitising leaves alone a string with no script tag, no `javascript:`
      and no surrounding whitespace. */
  lemma SanitizeClean(t: string)
    requires !Contains(Lower(t), "<script") && !Contains(Lower(t), "javascript:")
    requires t == [] || (!IsSpace(t[0]) && !IsSpace(t[|t| - 1]))
    ensures Sanitize(Str(t)) == Str(t)
  {
    RemoveScriptsClean(t);
    assert Lower("javascript:") == "javascript:";
    RemoveAllClean(t, "javascript:");
    TrimOfClean(t);
  }

  /** Text without `<` has no script element to remove. */
  lemma NoTagKept(s: string)
    requires '<' !in s
    ensures RemoveScripts(s) == s
  {
    assert forall i :: 0 <= i < |s| ==> Lower(s)[i] != '<';
    AbsentChar(Lower(s), "<script", 0);
    RemoveScriptsClean(s);
  }

  /** One left-to-right pass of `replace(/javascript:/gi, '')` can join the
      pieces around a removed `javascript:` into a new one: sanitised text
      can still name the protocol, and only the later value check refuses it. */
  lemma ProtocolSurvivesRemoval()
    ensures RemoveAll("javajavascript:script:", "javascript:") == "javascript:"
  {
    RemoveAroundMatch("javascript:", "script:");
    NestedProtocol();
    JoinedProtocol();
  }

  lemma NestedProtocol()
    ensures "java" + "javascript:" + "script:" == "javajavascript:script:"
  {
  }

  lemma JoinedProtocol()
    ensures "java" + "script:" == "javascript:"
  {
  }

  lemma RemoveAroundMatch(p: string, tail: string)
    requires p == "javascript:" && tail == "script:"
    ensures RemoveAll("java" + p + tail, p) == "java" + tail
  {
    RemoveAllShort(tail, p);
    var t := p + tail;
    assert t[..|p|] == p;
    assert t[|p|..] == tail;
    assert RemoveAll(t, p) == tail;
    SkipStart("java", t, p);
    assert "java" + p + tail == "java" + t;
  }

  /** Text shorter than `p` has nothing removed. */
  lemma {:induction false} RemoveAllShort(s: string, p: string)
    requires 0 < |p| && |s| < |p|
    ensures RemoveAll(s, p) == s
    decreases |s|
  {
    if |s| > 0 {
      RemoveAllShort(s[1..], p);
    }
  }

  /** A prefix no match starts in is kept. */
  lemma SkipStart(a: string, t: string, p: string)
    requires |p| > 0 && a == "java" && p == "javascript:" && t == p + "script:"
    ensures RemoveAll(a + t, p) == a + RemoveAll(t, p)
  {
    var s := a + t;
    MismatchAt(s, p, 4);
    MismatchAt(s[1..], p, 0);
    MismatchAt(s[2..], p, 0);
    MismatchAt(s[3..], p, 0);
    assert s[0..] == s;
    KeepPrefix(a, t, p);
  }

  /** A difference at position `k` rules out a match at the start. */
  lemma MismatchAt(s: string, p: string, k: nat)
    requires k < |p| <= |s| && LowerChar(s[k]) != LowerChar(p[k])
    ensures !StartsWithIgnoringCase(s, p)
  {
    assert Lower(s[..|p|])[k] != Lower(p)[k];
  }

  /** A prefix in which no match starts is kept as it is. */
  lemma {:induction false} KeepPrefix(a: string, t: string, p: string)
    requires |p| > 0
    requires forall i :: 0 <= i < |a| ==> !StartsWithIgnoringCase((a + t)[i..], p)
    ensures RemoveAll(a + t, p) == a + RemoveAll(t, p)
    decreases |a|
  {
    var s := a + t;
    if |a| == 0 {
      assert s == t;
    } else {
      assert s[0..] == s;
      assert s[1..] == a[1..] + t;
      forall i | 0 <= i < |a| - 1
        ensures !StartsWithIgnoringCase((a[1..] + t)[i..], p)
      {
        assert (a[1..] + t)[i..] == s[i + 1..];
      }
      KeepPrefix(a[1..], t, p);
      assert a == [a[0]] + a[1..];
    }
  }

  /** `sanitizeParams(params)` as the own entries of the object it builds:
      each entry sanitised, in order, except `__proto__`, whose assignment
      creates no entry. */
  function SanitizedParams(params: seq<(string, Value)>): seq<(string, Value)>
    decreases |params|
  {
    if |params| == 0 then []
    else
      var last := params[|params| - 1];
      SanitizedParams(params[..|params| - 1]) + (if last.0 == ProtoSetter then [] else [(last.0, Sanitize(last.1))])
  }

  /** Every entry `sanitizeParams` keeps is an entry of the input,
      sanitised, and none is `__proto__`. */
  lemma {:induction false} SanitizedSound(params: seq<(string, Value)>)
    ensures |SanitizedParams(params)| <= |params|
    ensures forall e :: e in SanitizedParams(params) ==>
      e.0 != ProtoSetter && exists i :: 0 <= i < |params| && e == (params[i].0, Sanitize(params[i].1))
    decreases |params|
  {
    if |params| > 0 {
      var front := params[..|params| - 1];
      SanitizedSound(front);
      forall e | e in SanitizedParams(front)
        ensures exists i :: 0 <= i < |params| && e == (params[i].0, Sanitize(params[i].1))
      {
        var i :| 0 <= i < |front| && e == (front[i].0, Sanitize(front[i].1));
        assert params[i] == front[i];
      }
    }
  }

  /** Every entry of the input other than `__proto__` is kept, sanitised. */
  lemma {:induction false} SanitizedComplete(params: seq<(string, Value)>)
    ensures forall i :: 0 <= i < |params| && params[i].0 != ProtoSetter ==>
      (params[i].0, Sanitize(params[i].1)) in SanitizedParams(params)
    decreases |params|
  {
    if |params| > 0 {
      var front := params[..|params| - 1];
      SanitizedComplete(front);
      forall i | 0 <= i < |params| && params[i].0 != ProtoSetter
        ensures (params[i].0, Sanitize(params[i].1)) in SanitizedParams(params)
      {
        if i < |front| {
          assert params[i] == front[i];
        }
      }
    }
  }

  /** The loop of `sanitizeParams`. */
  method SanitizeParams(params: seq<(string, Value)>) returns (sanitized: seq<(string, Value)>)
    ensures sanitized == SanitizedParams(params)
  {
    sanitized := [];
    for i := 0 to |params|
      invariant sanitized == SanitizedParams(params[..i])
    {
      var (key, value) := params[i];
      if key != ProtoSetter {
        sanitized := sanitized + [(key, Sanitize(value))];
      }
      assert params[..i + 1][..i] == params[..i];
    }
    assert params[..|params|] == params;
  }

  // ---------------------------------------------------------------------------
  // Parameters and the whole route
  // ---------------------------------------------------------------------------

  /** `validateParameters(viewId, params)`: every sanitised entry passes;
      a throw is caught and counts as a failure. */
  predicate ValidateParameters(params: seq<(string, Value)>) {
    var sanitized := SanitizedParams(params);
    forall i :: 0 <= i < |sanitized| ==> ParameterValue(sanitized[i].0, sanitized[i].1) == Some(true)
  }

  /** The parameters pass exactly when every entry other than `__proto__`
      passes its check once sanitised; a `__proto__` entry is never checked. */
  lemma ValidateParametersIff(params: seq<(string, Value)>)
    ensures ValidateParameters(params) <==>
      forall i :: 0 <= i < |params| && params[i].0 != ProtoSetter ==>
        ParameterValue(params[i].0, Sanitize(params[i].1)) == Some(true)
  {
    SanitizedSound(params);
    SanitizedComplete(params);
    var sanitized := SanitizedParams(params);
    if ValidateParameters(params) {
      forall i | 0 <= i < |params| && params[i].0 != ProtoSetter
        ensures ParameterValue(params[i].0, Sanitize(params[i].1)) == Some(true)
      {
        var e := (params[i].0, Sanitize(params[i].1));
        var j :| 0 <= j < |sanitized| && sanitized[j] == e;
      }
    }
    if forall i :: 0 <= i < |params| && params[i].0 != ProtoSetter ==>
        ParameterValue(params[i].0, Sanitize(params[i].1)) == Some(true) {
      forall j | 0 <= j < |sanitized|
        ensures ParameterValue(sanitized[j].0, sanitized[j].1) == Some(true)
      {
        assert sanitized[j] in sanitized;
      }
    }
  }

  /** An own `__proto__` parameter, whatever its value, is accepted: an
      object value, which fails the basic check under any other name, passes
      under `__proto__`. */
  lemma ProtoParameterAccepted(v: Value)
    ensures ValidateParameters([(ProtoSetter, v)])
    ensures v.Obj? ==> !ValidateParameters([("q", v)])
  {
    ValidateParametersIff([(ProtoSetter, v)]);
    ValidateParametersIff([("q", v)]);
    BasicValidationCases(v);
    if v.Obj? {
      assert "q" !in PrototypeKeys;
      assert ParameterValue([("q", v)][0].0, Sanitize([("q", v)][0].1)) == Some(false);
    }
  }

  /** The loop of `validateParameters`. */
  method CheckParameters(params: seq<(string, Value)>) returns (ok: bool)
    ensures ok == ValidateParameters(params)
  {
    var sanitized := SanitizeParams(params);
    var i := 0;
    while i < |sanitized|
      invariant 0 <= i <= |sanitized|
      invariant forall j :: 0 <= j < i ==> ParameterValue(sanitized[j].0, sanitized[j].1) == Some(true)
    {
      var valid := ParameterValue(sanitized[i].0, sanitized[i].1);
      if valid != Some(true) {
        return false;
      }
      i := i + 1;
    }
    return true;
  }

  /** `validateRoute(role, viewId, params)`: the five checks in order; a
      throw inside any of them is caught and the route refused. */
  predicate ValidateRoute(role: string, viewId: string, params: seq<(string, Value)>) {
    && ValidateRole(role)
    && RouteExists(role, viewId) == Some(true)
    && Permissions(role, viewId) == Some(true)
    && ValidateParameters(params)
  }

  /** What an accepted route guarantees: a known role, a view in its list or
      matching one of its patterns, a role allowed on a restricted view, and
      parameters other than `__proto__` that are safe once sanitised. */
  lemma ValidRouteGuarantees(role: string, viewId: string, params: seq<(string, Value)>)
    requires ValidateRoute(role, viewId, params)
    ensures role in Roles
    ensures viewId in RoutesOf(role) || exists p :: p in RoutesOf(role) && Match(p, viewId) == Some(true)
    ensures RoleRequired(viewId).Some? ==> role in RoleRequired(viewId).value
    ensures forall i :: 0 <= i < |params| && params[i].0 != ProtoSetter && ParamRule(params[i].0).None? && params[i].1.Str? ==>
      var t := Sanitize(params[i].1).s;
      Utf16Length(t) <= 1000 && !ContainsIgnoringCase(t, "javascript:") && !ContainsIgnoringCase(t, "<script")
    ensures forall i :: 0 <= i < |params| && ParamRule(params[i].0) == Some(DigitRule) ==>
      IsDigitText(ToStr(Sanitize(params[i].1)))
    ensures forall i :: 0 <= i < |params| && params[i].0 != ProtoSetter ==>
      params[i].0 !in PrototypeKeys || ParamRule(params[i].0).Some?
  {
    RouteExistsIff(role, viewId);
    ValidateParametersIff(params);
    forall i | 0 <= i < |params| && params[i].0 != ProtoSetter && ParamRule(params[i].0).None? && params[i].1.Str?
      ensures var t := Sanitize(params[i].1).s;
        Utf16Length(t) <= 1000 && !ContainsIgnoringCase(t, "javascript:") && !ContainsIgnoringCase(t, "<script")
    {
      BasicValidationCases(Sanitize(params[i].1));
    }
  }
}
