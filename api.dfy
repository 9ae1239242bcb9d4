/**
 * What a handler of the authentication routes writes back, and the request bodies it
 * reads (internal/api/routes/auth/authhandler/model.go). Bodies are given already decoded.
 */
module Api {
  import opened Jwt

  /** The pair `GenerateLogin` returns; signing is not modelled, so the tokens are unsigned. */
  datatype LoginResponse = LoginResponse(session: Jwt, refresh: Jwt)

  /** The response a request ends with. */
  datatype Response =
      /** The handler returned without writing; net/http then sends an empty 200. */
    | Unwritten
      /** `w.WriteHeader(http.StatusOK)`. */
    | Ok
      /** `api.WriteMessage(w, status, key, text)`. */
    | Message(status: int, key: string, text: string)
      /** `api.WriteJSON(w, 200, pair)`. */
    | Tokens(pair: LoginResponse)
      /** `api.WriteInvalidCredentials(w)`: 401. */
    | InvalidCredentials
      /** `api.WriteInternalError(w)`: 500. */
    | InternalError
      /** `http.Error(w, text, status)`. */
    | PlainError(status: int, text: string)

  const AccountLocked: Response := Message(423, "error", "account locked")
  const ExpiredToken: Response := PlainError(401, "expired token, please request a new one")

  datatype LoginRequest = LoginRequest(email: string, password: string)
  datatype TokenRequest = TokenRequest(token: string)
  datatype EmailRequest = EmailRequest(email: string, url: string)
  datatype PasswordResetRequest = PasswordResetRequest(token: string, newPassword: string)
  datatype PasswordChangeRequest = PasswordChangeRequest(oldPassword: string, newPassword: string)
  datatype RegisterRequest = RegisterRequest(username: string, email: string, password: string, url: string)
}
