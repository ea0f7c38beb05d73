/** The redaction the HTTP logging interceptor applies to a request body
    before logging it: a copy of the body with every sensitive top-level
    field replaced by a fixed mask. */
module LoggingInterceptor {
  import opened Entities

  /** A parsed JSON value. */
  datatype Json =
    | JNull
    | JBool(b: bool)
    | JNum(n: int)
    | JStr(s: string)
    | JArr(items: seq<Json>)
    | JObj(fields: map<string, Json>)

  /** A request body: a JSON object, or None when there is none (null or
      undefined). */
  type Body = Option<map<string, Json>>

  const SensitiveFields: seq<string> := ["password", "token", "secret", "authorization"]

  const Mask := JStr("***REDACTED***")

  /** The object with every sensitive field masked and every other field as
      it was. */
  function Redacted(fields: map<string, Json>): (r: map<string, Json>)
    ensures r.Keys == fields.Keys
    ensures forall k :: k in fields && k in SensitiveFields ==> r[k] == Mask
    ensures forall k :: k in fields && k !in SensitiveFields ==> r[k] == fields[k]
  {
    map k | k in fields :: if k in SensitiveFields then Mask else fields[k]
  }

  /** `sanitizeBody(body)`: a missing body is returned as it is; otherwise a
      shallow copy in which each sensitive field that is present is set to
      the mask. The caller's body is a value and stays as it was. */
  method SanitizeBody(body: Body) returns (r: Body)
    ensures body.None? ==> r.None?
    ensures body.Some? ==> r == Some(Redacted(body.value))
  {
    if body.None? {
      return body;
    }
    var sanitized := body.value;
    for i := 0 to |SensitiveFields|
      invariant sanitized.Keys == body.value.Keys
      invariant forall k :: k in sanitized ==>
                  sanitized[k] == if k in SensitiveFields[..i] then Mask else body.value[k]
    {
      var field := SensitiveFields[i];
      if field in sanitized {
        sanitized := sanitized[field := Mask];
      }
    }
    assert SensitiveFields[..|SensitiveFields|] == SensitiveFields;
    assert forall k :: k in sanitized ==> sanitized[k] == Redacted(body.value)[k];
    assert sanitized.Keys == Redacted(body.value).Keys;
    assert sanitized == Redacted(body.value);
    r := Some(sanitized);
  }

  /** Sanitising a sanitised body changes nothing. */
  lemma RedactedIdempotent(fields: map<string, Json>)
    ensures Redacted(Redacted(fields)) == Redacted(fields)
  {
    var once := Redacted(fields);
    assert forall k :: k in once ==> Redacted(once)[k] == once[k];
  }

  /** Matching is by exact top-level name: a field that differs only in case
      and a sensitive name inside a nested object are both kept. */
  lemma MatchIsExactAndTopLevel(fields: map<string, Json>, inner: map<string, Json>)
    requires "Password" in fields
    requires "user" in fields && fields["user"] == JObj(inner)
    ensures Redacted(fields)["Password"] == fields["Password"]
    ensures Redacted(fields)["user"] == JObj(inner)
  {
    assert "Password" !in SensitiveFields;
    assert "user" !in SensitiveFields;
  }
}
