/**
 * `url()`: the conference-server endpoint the upload signature is fetched from.
 * The application id is always in the query; the user identifier and token are
 * added only when a token is set.
 */
module QueryUrl {

  /** The session context given to `init`. */
  datatype AuthData = AuthData(userID: string, sdkAppID: int, token: string)

  /** The fixed endpoint and query key, written in pieces so that its characters can be inspected. */
  const Endpoint: string :=
    "https://sxb.qcloud.com" + "/conf_svr_sdk" + "/conference_server" + "/public/api/conference" + "?sdkappid="

  lemma EndpointHasNoAmp()
    ensures '&' !in Endpoint
  {
  }

  predicate IsDigit(c: char) { '0' <= c <= '9' }

  predicate AllDigits(s: string) { forall k :: 0 <= k < |s| ==> IsDigit(s[k]) }

  /** The decimal digits of `n`, most significant first, as `std::to_wstring` writes them. */
  function NatToString(n: nat): (s: string)
    ensures |s| >= 1 && AllDigits(s)
    ensures |s| > 1 ==> s[0] != '0'
  {
    var d := (n % 10) as char + '0';
    if n < 10 then [d] else NatToString(n / 10) + [d]
  }

  /** `std::to_wstring` of a signed integer. */
  function IntToString(i: int): (s: string)
    ensures |s| >= 1 && '&' !in s
    ensures i < 0 <==> s[0] == '-'
  {
    if i < 0 then "-" + NatToString(-i) else NatToString(i)
  }

  /** The value of a string of decimal digits. */
  function ParseNat(s: string): nat
    requires AllDigits(s)
  {
    if s == [] then 0 else ParseNat(s[..|s| - 1]) * 10 + (s[|s| - 1] - '0') as nat
  }

  /** The value of an optionally negative decimal numeral. */
  function ParseInt(s: string): int
  {
    if |s| > 0 && s[0] == '-' && AllDigits(s[1..]) then 0 - ParseNat(s[1..]) as int
    else if AllDigits(s) then ParseNat(s)
    else 0
  }

  lemma {:induction false} ParseNatToString(n: nat)
    ensures ParseNat(NatToString(n)) == n
  {
    var s := NatToString(n);
    if n >= 10 {
      ParseNatToString(n / 10);
      assert s[..|s| - 1] == NatToString(n / 10);
    }
  }

  /** Reading back the numeral `std::to_wstring` writes gives the number. */
  lemma {:induction false} ParseIntToString(i: int)
    ensures ParseInt(IntToString(i)) == i
  {
    var s := IntToString(i);
    if i < 0 {
      ParseNatToString(-i);
      assert s[1..] == NatToString(-i);
    } else {
      ParseNatToString(i);
    }
  }

  /** The prefix of `s` before its first `'&'` (all of `s` when it has none). */
  function UpToAmp(s: string): (r: string)
    ensures |r| <= |s| && '&' !in r && r == s[..|r|]
    ensures |r| < |s| ==> s[|r|] == '&'
  {
    if s == [] || s[0] == '&' then [] else [s[0]] + UpToAmp(s[1..])
  }

  /** `url()`: the application id, then the identifier and token if a token is set. */
  function Url(auth: AuthData): (r: string)
    ensures |r| > |Endpoint| && r[..|Endpoint|] == Endpoint
    ensures auth.token == [] <==> '&' !in r
    ensures auth.token != [] ==> |r| > |auth.token| && r[|r| - |auth.token|..] == auth.token
  {
    var url := Endpoint + IntToString(auth.sdkAppID);
    EndpointHasNoAmp();
    if auth.token != [] then
      url + ("&identifier=" + auth.userID + "&user_token=" + auth.token)
    else
      url
  }

  /** The application id can be read back from the query: it ends at the first `'&'` or at the end. */
  lemma {:induction false} UrlCarriesAppId(auth: AuthData)
    ensures ParseInt(UpToAmp(Url(auth)[|Endpoint|..])) == auth.sdkAppID
  {
    var num := IntToString(auth.sdkAppID);
    var tail := if auth.token != [] then "&identifier=" + auth.userID + "&user_token=" + auth.token else "";
    var e := Endpoint;
    assert Url(auth) == e + (num + tail);
    DropPrefix(e, num + tail);
    UpToAmpStops(num, tail);
    ParseIntToString(auth.sdkAppID);
  }

  lemma DropPrefix(p: string, x: string)
    ensures (p + x)[|p|..] == x
  {
  }

  lemma {:induction false} UpToAmpStops(x: string, y: string)
    requires '&' !in x
    requires y == [] || y[0] == '&'
    ensures UpToAmp(x + y) == x
    decreases |x|
  {
    if x != [] {
      assert (x + y)[1..] == x[1..] + y;
      UpToAmpStops(x[1..], y);
    }
  }

  /**
   * With a token, the numeral is followed by `&identifier=`, the user identifier,
   * `&user_token=` and the token, in that order and with nothing between them.
   */
  lemma UrlWithToken(auth: AuthData)
    requires auth.token != []
    ensures var q := Url(auth)[|Endpoint| + |IntToString(auth.sdkAppID)|..];
      var u := |auth.userID|;
      && |q| == 24 + u + |auth.token|
      && q[..12] == "&identifier="
      && q[12..12 + u] == auth.userID
      && q[12 + u..24 + u] == "&user_token="
      && q[24 + u..] == auth.token
  {
    var e, num := Endpoint, IntToString(auth.sdkAppID);
    var id, tk := "&identifier=", "&user_token=";
    var q := id + auth.userID + tk + auth.token;
    assert Url(auth) == (e + num) + q;
    DropPrefix(e + num, q);
    FourParts(id, auth.userID, tk, auth.token);
  }

  lemma FourParts(a: string, b: string, c: string, d: string)
    ensures var q, i, j, k := a + b + c + d, |a|, |a| + |b|, |a| + |b| + |c|;
      && |q| == k + |d|
      && q[..i] == a && q[i..j] == b && q[j..k] == c && q[k..] == d
  {
  }

  /** Without a token the URL does not depend on the user identifier. */
  lemma UrlIgnoresUserWithoutToken(auth: AuthData, other: string)
    requires auth.token == []
    ensures Url(auth) == Url(auth.(userID := other))
  {
  }
}
