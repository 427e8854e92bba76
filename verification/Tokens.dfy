/** OAuth tokens: the in-memory form, the persisted form, and when one is usable. */
module Tokens {
  import opened Basics

  /** Nanoseconds since the zero time. A zero expiry means the token never expires. */
  type Time = int

  const SECOND: Time := 1_000_000_000

  /** x/oauth2 counts a token as expired this long before its expiry. */
  const EARLY: Time := 10 * SECOND

  /** A value beside the standard fields of a token answer. */
  datatype Extra = Text(text: string) | Other(json: string)

  datatype OAuthToken = OAuthToken(
    accessToken: string, refreshToken: string, tokenType: string, expiry: Time,
    extra: map<string, Extra>)

  datatype StoredToken = StoredToken(
    accessToken: string, refreshToken: string, tokenType: string, expiry: Time,
    idToken: string)

  const ID_TOKEN := "id_token"

  function ToOAuth2(s: StoredToken): OAuthToken {
    OAuthToken(s.accessToken, s.refreshToken, s.tokenType, s.expiry,
               if s.idToken != "" then map[ID_TOKEN := Text(s.idToken)] else map[])
  }

  function FromOAuth2(t: OAuthToken): StoredToken {
    StoredToken(t.accessToken, t.refreshToken, t.tokenType, t.expiry,
                if ID_TOKEN in t.extra && t.extra[ID_TOKEN].Text? then t.extra[ID_TOKEN].text else "")
  }

  predicate Valid(t: StoredToken, now: Time) {
    t.accessToken != "" && (t.expiry == 0 || now <= t.expiry - EARLY)
  }

  /** Both conversions keep each of the four fields, and the id token in its own place. */
  lemma ConversionsKeepFields(s: StoredToken, t: OAuthToken)
    ensures var t' := ToOAuth2(s);
            && t'.accessToken == s.accessToken && t'.refreshToken == s.refreshToken
            && t'.tokenType == s.tokenType && t'.expiry == s.expiry
            && t'.extra == if s.idToken == "" then map[] else map[ID_TOKEN := Text(s.idToken)]
    ensures var s' := FromOAuth2(t);
            && s'.accessToken == t.accessToken && s'.refreshToken == t.refreshToken
            && s'.tokenType == t.tokenType && s'.expiry == t.expiry
            && (s'.idToken != "" ==> ID_TOKEN in t.extra && t.extra[ID_TOKEN] == Text(s'.idToken))
            && (forall text :: ID_TOKEN in t.extra && t.extra[ID_TOKEN] == Text(text) ==> s'.idToken == text)
  {
  }

  /** What is persisted comes back whatever it is. */
  lemma PersistedFormRoundTrips(s: StoredToken)
    ensures FromOAuth2(ToOAuth2(s)) == s
  {
  }

  /** The in-memory form comes back exactly when an id token, as non-empty text, is all it carried beside the fields. */
  lemma InMemoryFormRoundTripsIff(t: OAuthToken)
    ensures ToOAuth2(FromOAuth2(t)) == t <==>
            t.extra == map[] ||
            (t.extra.Keys == {ID_TOKEN} && t.extra[ID_TOKEN].Text? && t.extra[ID_TOKEN].text != "")
  {
    var back := ToOAuth2(FromOAuth2(t)).extra;
    if t.extra.Keys == {ID_TOKEN} && t.extra[ID_TOKEN].Text? && t.extra[ID_TOKEN].text != "" {
      assert back == t.extra;
    }
  }
}
