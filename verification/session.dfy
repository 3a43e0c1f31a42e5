/**
Session tokens "username:expires:hmac". The MAC is any function from payloads to strings; that it prints in
hexadecimal, so never with a colon, is all that is used of it.
*/
module Session {
  import opened Wrappers
  import opened Decimal

  const SESSION_SECONDS := 24 * 60 * 60

  ghost predicate ColonFree(sign: string -> string) {
    forall payload :: ':' !in sign(payload)
  }

  function Payload(username: string, expires: string): string {
    username + ":" + expires
  }

  /** `now` is the clock in seconds. */
  function CreateSession(sign: string -> string, username: string, now: int): string {
    var payload := Payload(username, Print(now + SESSION_SECONDS));
    payload + ":" + sign(payload)
  }

  predicate VerifySession(sign: string -> string, value: string, now: int) {
    var idx := LastIndex(value, ':');
    if idx < 0 then false
    else
      var payload, sig := value[..idx], value[idx + 1..];
      if sig != sign(payload) then false
      else
        var split := FirstIndex(payload, ':');
        if split == |payload| then false
        else
          var expires := ParseInt64(payload[split + 1..]);
          expires.Some? && now <= expires.value
  }

  /** value is username:expires:signature with a colon-free username, the signature of just that payload, and a 64-bit
      decimal expiry that has not passed. */
  predicate WellSigned(sign: string -> string, value: string, now: int, username: string, expires: string) {
    && ':' !in username
    && value == username + ":" + expires + ":" + sign(username + ":" + expires)
    && ParseInt64(expires).Some? && now <= ParseInt64(expires).value
  }

  lemma AcceptedIsWellSigned(
      sign: string -> string, value: string, now: int) returns (username: string, expires: string)
    requires VerifySession(sign, value, now)
    ensures WellSigned(sign, value, now, username, expires)
  {
    var idx := LastIndex(value, ':');
    var payload := value[..idx];
    var split := FirstIndex(payload, ':');
    username, expires := payload[..split], payload[split + 1..];
    SplitAt(payload, split);
    SplitAt(value, idx);
    assert ':' !in username;
  }

  lemma SplitAt(s: string, i: nat)
    requires i < |s| && s[i] == ':'
    ensures s == s[..i] + ":" + s[i + 1..]
  {
  }

  lemma WellSignedIsAccepted(sign: string -> string, value: string, now: int, username: string, expires: string)
    requires ColonFree(sign) && WellSigned(sign, value, now, username, expires)
    ensures VerifySession(sign, value, now)
  {
    var payload := Payload(username, expires);
    LastAt(payload, ':', sign(payload));
    SplitAround(payload, ':', sign(payload));
    FirstAt(username, ':', expires);
    SplitAround(username, ':', expires);
  }

  /** A value is accepted exactly when it is well signed for some username and expiry. */
  lemma AcceptsExactly(sign: string -> string, value: string, now: int)
    requires ColonFree(sign)
    ensures VerifySession(sign, value, now)
      <==> exists username, expires :: WellSigned(sign, value, now, username, expires)
  {
    if VerifySession(sign, value, now) {
      var username, expires := AcceptedIsWellSigned(sign, value, now);
    }
    if username, expires :| WellSigned(sign, value, now, username, expires) {
      WellSignedIsAccepted(sign, value, now, username, expires);
    }
  }

  /** A token made at one time for a user is good at another exactly until the printed expiry, and only for users
      without a colon in their names. */
  lemma RoundTrip(sign: string -> string, username: string, created: int, now: int)
    requires ColonFree(sign) && MIN_INT64 <= created + 86400 <= MAX_INT64
    ensures VerifySession(sign, CreateSession(sign, username, created), now)
      <==> ':' !in username && now <= created + 86400
    ensures var payload := username + ":" + Print(created + 86400);
      CreateSession(sign, username, created) == payload + ":" + sign(payload)
  {
    var printed := Print(created + SESSION_SECONDS);
    var payload := Payload(username, printed);
    LastAt(payload, ':', sign(payload));
    SplitAround(payload, ':', sign(payload));
    ParseOfPrint(created + SESSION_SECONDS);
    if ':' !in username {
      FirstAt(username, ':', printed);
      SplitAround(username, ':', printed);
    } else {
      var split := FirstIndex(username, ':');
      FirstColonOf(username, printed);
      assert payload[split + 1..] == username[split + 1..] + ":" + printed;
      assert ':' in payload[split + 1..];
    }
  }

  lemma FirstColonOf(username: string, rest: string)
    requires ':' in username
    ensures FirstIndex(username, ':') < |username|
    ensures FirstIndex(Payload(username, rest), ':') == FirstIndex(username, ':')
  {
    var i := FirstIndex(username, ':');
    assert username[..|username|] == username;
    assert Payload(username, rest)[..i] == username[..i];
    FirstIndexIs(Payload(username, rest), ':', i);
  }
}
