/**
 * The CORS origin check of the API server (backend/src/server.js): the
 * allowed-origin list built from the environment, and the `origin` callback
 * that accepts a request when some entry matches its Origin header.
 */
module Cors {
  import opened Wrappers
  import opened JsString

  /** An `allowedOrigins` entry: a string compared by equality, or the Vercel regular expression. */
  datatype OriginRule = Exact(origin: string) | VercelPattern

  /** What the callback hands to `cors`: `callback(null, true)` or `callback(new Error(...))`. */
  datatype Decision = Allow | Reject(error: string)

  const DefaultFrontendUrl: string := "http://localhost:3000"
  const NotAllowed: string := "Not allowed by CORS"
  const HttpsPrefix: string := "https://"
  const VercelSuffix: string := ".vercel.app"

  /** The characters JavaScript's `.` does not match. */
  predicate IsLineTerminator(c: char) {
    c == '\n' || c == '\r' || c == '\U{2028}' || c == '\U{2029}'
  }

  /** `/^https:\/\/.*\.vercel\.app$/.test(origin)`, read off the string's ends. */
  predicate MatchesVercel(origin: string) {
    && |origin| >= |HttpsPrefix| + |VercelSuffix|
    && origin[..|HttpsPrefix|] == HttpsPrefix
    && origin[|origin| - |VercelSuffix|..] == VercelSuffix
    && forall k :: |HttpsPrefix| <= k < |origin| - |VercelSuffix| ==> !IsLineTerminator(origin[k])
  }

  /** The regular expression's language: "https://", any line without a break, ".vercel.app". */
  ghost predicate InVercelLanguage(origin: string) {
    exists middle: string :: origin == HttpsPrefix + middle + VercelSuffix
                             && forall k :: 0 <= k < |middle| ==> !IsLineTerminator(middle[k])
  }

  /** The end-reading test accepts exactly the regular expression's language. */
  lemma MatchesVercelIff(origin: string)
    ensures MatchesVercel(origin) <==> InVercelLanguage(origin)
  {
    if MatchesVercel(origin) {
      MatchedInLanguage(origin);
    }
    if InVercelLanguage(origin) {
      var middle: string :| origin == HttpsPrefix + middle + VercelSuffix
                            && forall k :: 0 <= k < |middle| ==> !IsLineTerminator(middle[k]);
      LanguageMatched(middle);
    }
  }

  lemma MatchedInLanguage(origin: string)
    requires MatchesVercel(origin)
    ensures InVercelLanguage(origin)
  {
    var middle := origin[|HttpsPrefix|..|origin| - |VercelSuffix|];
    assert origin == HttpsPrefix + middle + VercelSuffix;
    assert forall k :: 0 <= k < |middle| ==> middle[k] == origin[|HttpsPrefix| + k];
  }

  lemma LanguageMatched(middle: string)
    requires forall k :: 0 <= k < |middle| ==> !IsLineTerminator(middle[k])
    ensures MatchesVercel(HttpsPrefix + middle + VercelSuffix)
  {
    var origin := HttpsPrefix + middle + VercelSuffix;
    assert origin[..|HttpsPrefix|] == HttpsPrefix;
    assert origin[|origin| - |VercelSuffix|..] == VercelSuffix;
    assert forall k :: |HttpsPrefix| <= k < |origin| - |VercelSuffix| ==> origin[k] == middle[k - |HttpsPrefix|];
  }

  /** `[FRONTEND_URL || default, vercel regex, PRODUCTION_URL].filter(Boolean)`. */
  function AllowedOrigins(frontendUrl: Option<string>, productionUrl: Option<string>): (rules: seq<OriginRule>)
    ensures 2 <= |rules| <= 3
    ensures rules[0] == Exact(if Truthy(frontendUrl) then frontendUrl.value else DefaultFrontendUrl)
    ensures rules[1] == VercelPattern
    ensures |rules| == 3 <==> Truthy(productionUrl)
    ensures |rules| == 3 ==> rules[2] == Exact(productionUrl.value)
  {
    [Exact(if Truthy(frontendUrl) then frontendUrl.value else DefaultFrontendUrl), VercelPattern]
      + (if Truthy(productionUrl) then [Exact(productionUrl.value)] else [])
  }

  /** The test the `some` callback applies to one entry. */
  predicate RuleMatches(rule: OriginRule, origin: string) {
    match rule
    case Exact(allowed) => origin == allowed
    case VercelPattern => MatchesVercel(origin)
  }

  /** `allowedOrigins.some(...)`. */
  function AnyMatches(rules: seq<OriginRule>, origin: string): (r: bool)
    ensures r <==> exists i :: 0 <= i < |rules| && RuleMatches(rules[i], origin)
  {
    if rules == [] then false
    else RuleMatches(rules[0], origin) || (assert forall i :: 1 <= i < |rules| ==> rules[i] == rules[1..][i - 1];
                                            AnyMatches(rules[1..], origin))
  }

  /** The `origin` callback for a request with Origin header `origin`. */
  function Decide(rules: seq<OriginRule>, origin: Option<string>): Decision {
    if !Truthy(origin) then Allow
    else if AnyMatches(rules, origin.value) then Allow
    else Reject(NotAllowed)
  }

  /** The `some` over the server's list: the frontend URL, a set production URL, or the Vercel test. */
  lemma AnyMatchesServer(frontendUrl: Option<string>, productionUrl: Option<string>, origin: string)
    ensures AnyMatches(AllowedOrigins(frontendUrl, productionUrl), origin) <==>
      || origin == (if Truthy(frontendUrl) then frontendUrl.value else DefaultFrontendUrl)
      || (Truthy(productionUrl) && origin == productionUrl.value)
      || MatchesVercel(origin)
  {
    var rules := AllowedOrigins(frontendUrl, productionUrl);
    assert RuleMatches(rules[0], origin) <==> origin == (if Truthy(frontendUrl) then frontendUrl.value else DefaultFrontendUrl);
    assert RuleMatches(rules[1], origin) <==> MatchesVercel(origin);
    if Truthy(productionUrl) {
      assert RuleMatches(rules[2], origin) <==> origin == productionUrl.value;
      assert forall i :: 0 <= i < |rules| ==> rules[i] == rules[0] || rules[i] == rules[1] || rules[i] == rules[2];
    } else {
      assert forall i :: 0 <= i < |rules| ==> rules[i] == rules[0] || rules[i] == rules[1];
    }
  }

  /**
   * With the server's list: no Origin is allowed; otherwise an origin is
   * allowed exactly when it equals the frontend URL (or its default), equals
   * a set production URL, or is an https Vercel origin; anything else gets
   * the CORS error.
   */
  lemma DecideServer(frontendUrl: Option<string>, productionUrl: Option<string>, origin: Option<string>)
    ensures var d := Decide(AllowedOrigins(frontendUrl, productionUrl), origin);
      && (!Truthy(origin) ==> d == Allow)
      && (Truthy(origin) ==>
            (d == Allow <==>
               || origin.value == (if Truthy(frontendUrl) then frontendUrl.value else DefaultFrontendUrl)
               || (Truthy(productionUrl) && origin.value == productionUrl.value)
               || InVercelLanguage(origin.value)))
      && (d != Allow ==> d == Reject(NotAllowed))
  {
    if Truthy(origin) {
      MatchesVercelIff(origin.value);
      AnyMatchesServer(frontendUrl, productionUrl, origin.value);
    }
  }

  /** An http:// origin is never let in by the Vercel entry, only by an exact entry. */
  lemma HttpVercelRejected(frontendUrl: Option<string>, productionUrl: Option<string>, host: string)
    requires Truthy(frontendUrl) ==> frontendUrl.value != "http://" + host + VercelSuffix
    requires Truthy(productionUrl) ==> productionUrl.value != "http://" + host + VercelSuffix
    ensures Decide(AllowedOrigins(frontendUrl, productionUrl), Some("http://" + host + VercelSuffix)) == Reject(NotAllowed)
  {
    var o := "http://" + host + VercelSuffix;
    HttpNotVercel(host);
    HttpNotDefault(host);
    AnyMatchesServer(frontendUrl, productionUrl, o);
  }

  lemma HttpNotVercel(host: string)
    ensures !MatchesVercel("http://" + host + VercelSuffix)
  {
    var o := "http://" + host + VercelSuffix;
    assert o[4] == ':';
    if |o| >= |HttpsPrefix| + |VercelSuffix| {
      assert o[..|HttpsPrefix|][4] != HttpsPrefix[4];
    }
  }

  lemma HttpNotDefault(host: string)
    ensures "http://" + host + VercelSuffix != DefaultFrontendUrl
  {
    var o := "http://" + host + VercelSuffix;
    assert o[|o| - 1] == 'p';
    assert DefaultFrontendUrl[|DefaultFrontendUrl| - 1] == '0';
  }
}
