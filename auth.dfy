/**
 * `validateApiKey` in src/lib/auth.ts: a request is authorised when its
 * Authorization header is "Bearer " followed by the configured API secret.
 * The header and the `API_SECRET` environment variable are given as options
 * (absent, or present with a text).
 */
module Auth {
  import opened Wrappers
  import opened Text

  const BearerPrefix: string := "Bearer "

  function ValidateApiKey(authHeader: Option<string>, apiSecret: Option<string>): (valid: bool)
    ensures valid <==>
      apiSecret.Some? && apiSecret.value != "" && authHeader == Some(BearerPrefix + apiSecret.value)
  {
    if authHeader.None? || authHeader.value == "" || !StartsWith(authHeader.value, BearerPrefix) then false
    else
      var token := authHeader.value[7..];
      if apiSecret.None? || apiSecret.value == "" then false
      else
        assert authHeader.value == BearerPrefix + token;
        token == apiSecret.value
  }

  /** Without a configured secret no header is accepted, and a header is accepted under at most one secret */
  lemma {:induction false} SecretDecides(authHeader: Option<string>, s1: Option<string>, s2: Option<string>)
    ensures !ValidateApiKey(authHeader, None) && !ValidateApiKey(authHeader, Some(""))
    ensures ValidateApiKey(authHeader, s1) && ValidateApiKey(authHeader, s2) ==> s1 == s2
  {
    if ValidateApiKey(authHeader, s1) && ValidateApiKey(authHeader, s2) {
      assert s1.value == authHeader.value[|BearerPrefix|..];
      assert s2.value == authHeader.value[|BearerPrefix|..];
    }
  }

  /** The prefix is case-sensitive and needs the space: "bearer x" and "Bearerx" are refused */
  lemma PrefixIsExact(secret: string)
    ensures !ValidateApiKey(Some("bearer " + secret), Some(secret))
    ensures !ValidateApiKey(Some("Bearer" + secret), Some(secret))
  {
    assert ("bearer " + secret)[0] != BearerPrefix[0];
  }
}
