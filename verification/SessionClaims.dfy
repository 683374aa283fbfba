/** The session mapping inside the encrypted cookie (src/app/adapters/security/sessions.py). */
module SessionClaims {
  import opened Basics
  import opened OutboxMessages
  import opened UserStore

  /** claims_to_session; timestamp() of a whole time is that number as a float. */
  function ToSession(claims: Claims): Json {
    JObject(map[
      "user_id" := JInt(claims.userId),
      "session_version" := JInt(claims.version),
      "issued_at" := JFloat(claims.issuedAt as real),
      "expires_at" := JFloat(claims.expiresAt as real)])
  }

  function Field(value: Json, key: string): Json {
    if value.JObject? && key in value.fields then value.fields[key] else JNull
  }

  /** A number that is not a bool. */
  function Number(value: Json): Option<real> {
    match value
    case JInt(n) => Some(n as real)
    case JFloat(x) => Some(x)
    case _ => None
  }

  /** claims_from_session; `fromTimestamp` is datetime.fromtimestamp, None where it raises. */
  function FromSession(value: Json, fromTimestamp: real -> Option<Time>): Option<Claims> {
    var user, version := Field(value, "user_id"), Field(value, "session_version");
    var issued, expires := Number(Field(value, "issued_at")), Number(Field(value, "expires_at"));
    if !user.JInt? || user.number < 1 || !version.JInt? || version.number < 0
       || issued.None? || expires.None? || expires.value <= issued.value
       || fromTimestamp(issued.value).None? || fromTimestamp(expires.value).None?
    then None
    else Some(Claims(user.number, version.number, fromTimestamp(issued.value).value, fromTimestamp(expires.value).value))
  }

  /** What a session mapping has to hold: whole numbers for the user, from 1 on, and the version, from 0 on, and an expiry
      after the issue, both numbers that are dates; the claims are these values. */
  lemma SessionReads(value: Json, fromTimestamp: real -> Option<Time>, user: int, version: int, issued: real, expires: real)
    requires value.JObject? && {"user_id", "session_version", "issued_at", "expires_at"} <= value.fields.Keys
    requires value.fields["user_id"] == JInt(user) && value.fields["session_version"] == JInt(version)
    requires var i := value.fields["issued_at"]; i == JFloat(issued) || (i.JInt? && i.number as real == issued)
    requires var e := value.fields["expires_at"]; e == JFloat(expires) || (e.JInt? && e.number as real == expires)
    ensures var accepted := user >= 1 && version >= 0 && issued < expires
                            && fromTimestamp(issued).Some? && fromTimestamp(expires).Some?;
      && (FromSession(value, fromTimestamp).Some? <==> accepted)
      && (accepted ==>
            FromSession(value, fromTimestamp)
            == Some(Claims(user, version, fromTimestamp(issued).value, fromTimestamp(expires).value)))
  {
  }

  /** Nothing that is not a mapping with whole numbers for user and version, and numbers for the times, is a session. */
  lemma MalformedSession(value: Json, fromTimestamp: real -> Option<Time>)
    ensures FromSession(value, fromTimestamp).Some? ==>
      && value.JObject? && {"user_id", "session_version", "issued_at", "expires_at"} <= value.fields.Keys
      && value.fields["user_id"].JInt? && value.fields["session_version"].JInt?
      && (value.fields["issued_at"].JInt? || value.fields["issued_at"].JFloat?)
      && (value.fields["expires_at"].JInt? || value.fields["expires_at"].JFloat?)
  {
  }

  /** Claims survive the cookie if and only if they name a user and expire after they were issued. */
  lemma SessionRoundTrip(claims: Claims, fromTimestamp: real -> Option<Time>)
    requires fromTimestamp(claims.issuedAt as real) == Some(claims.issuedAt)
    requires fromTimestamp(claims.expiresAt as real) == Some(claims.expiresAt)
    ensures FromSession(ToSession(claims), fromTimestamp)
         == if claims.userId >= 1 && claims.expiresAt > claims.issuedAt then Some(claims) else None
  {
    var session := ToSession(claims);
    var issued, expires := claims.issuedAt as real, claims.expiresAt as real;
    assert Field(session, "user_id") == JInt(claims.userId);
    assert Field(session, "session_version") == JInt(claims.version);
    assert Number(Field(session, "issued_at")) == Some(issued);
    assert Number(Field(session, "expires_at")) == Some(expires);
    assert expires <= issued <==> claims.expiresAt <= claims.issuedAt;
  }
}
