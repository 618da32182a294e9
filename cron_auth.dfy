/** The secret check that both cron routes (app/api/cron/dividends/route.ts and
    app/api/cron/update-prices/route.ts) run before they touch the database. */
module CronAuth {
  import opened Common

  /** `authHeader?.replace('Bearer ', '') || secretParam`: the Authorization header
      with its first "Bearer " removed; the `secret` query parameter (null when
      absent) when there is no header or nothing is left of it. */
  function ProvidedSecret(authHeader: Option<string>, secretParam: Option<string>): (r: Option<string>)
    ensures authHeader.None? ==> r == secretParam
    ensures r.Some? && r != secretParam ==> r.value != ""
    ensures authHeader.Some? && authHeader.value != "" && (forall j :: !OccursAt(authHeader.value, "Bearer ", j))
      ==> r == authHeader
  {
    match authHeader
    case Some(h) =>
      var stripped := ReplaceFirst(h, "Bearer ", "");
      if stripped != "" then Some(stripped) else secretParam
    case None => secretParam
  }

  /** `providedSecret !== process.env.CRON_SECRET` is refused with 401. The supplied
      secret is a string or null, never `undefined`, so an unset CRON_SECRET refuses
      every request. */
  function Authorized(authHeader: Option<string>, secretParam: Option<string>, cronSecret: Option<string>): (ok: bool)
    ensures cronSecret.None? ==> !ok
    ensures authHeader.None? ==> (ok <==> secretParam.Some? && secretParam == cronSecret)
    ensures ok ==> ProvidedSecret(authHeader, secretParam) == cronSecret
  {
    var provided := ProvidedSecret(authHeader, secretParam);
    provided.Some? && cronSecret.Some? && provided.value == cronSecret.value
  }

  /** A header `Bearer <token>` supplies exactly `<token>`, whatever the parameter. */
  lemma {:induction false} BearerHeaderSuppliesToken(token: string, secretParam: Option<string>, cronSecret: Option<string>)
    requires token != ""
    ensures ProvidedSecret(Some("Bearer " + token), secretParam) == Some(token)
    ensures Authorized(Some("Bearer " + token), secretParam, cronSecret) <==> cronSecret == Some(token)
  {
    var h := "Bearer " + token;
    assert h[0..|"Bearer "|] == "Bearer ";
    assert IndexOf(h, "Bearer ") == Some(0);
    assert h[|"Bearer "|..] == token;
    assert ReplaceFirst(h, "Bearer ", "") == h[..0] + "" + h[|"Bearer "|..];
    assert h[..0] + "" + h[|"Bearer "|..] == token;
  }
}
