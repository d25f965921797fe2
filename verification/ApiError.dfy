/** Which answers of the server the panel takes for a confirmation challenge. */
module ApiErrors {
  import opened Wrappers

  /** `token` and `expires` are what the error's details hold, when of the expected type;
      times are milliseconds. */
  datatype ApiError =
    | ApiRequestError(status: int, code: string, token: Option<string>, expires: Option<int>)
    | OtherError

  datatype Challenge = Challenge(token: string, expiresAt: int)

  const MAX_TTL_MS := 125_000
  const MAX_TOKEN_LENGTH := 2048

  function ChallengeFrom(error: ApiError, now: int): (r: Option<Challenge>)
    ensures r.Some? ==> now < r.value.expiresAt <= now + MAX_TTL_MS && 1 <= |r.value.token| <= MAX_TOKEN_LENGTH
  {
    if error.OtherError? || error.status != 428 || error.code != "CONFIRMATION_REQUIRED" then None
    else if error.token.None? || |error.token.value| == 0 || |error.token.value| > MAX_TOKEN_LENGTH then None
    else if error.expires.None? || !(now < error.expires.value <= now + MAX_TTL_MS) then None
    else Some(Challenge(error.token.value, error.expires.value))
  }

  /** A 401 that asks for a fresh proof of presence. */
  predicate NeedsPresence(error: ApiError) {
    error.ApiRequestError? && error.code == "REAUTH_REQUIRED"
  }
}
