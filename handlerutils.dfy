/** internal/api/routes/auth/authhandler/utils.go: the login pair and the mailed-token helper. */
module HandlerUtils {
  import opened Wrappers
  import opened Int64
  import opened Jwt
  import opened Api
  import opened Services

  /**
   * `GenerateLogin(token)`: a credential token and a refresh token stamped from the same
   * claims. Both `WithType` calls read the clock; here they read the same `now`.
   */
  function GenerateLogin(token: Jwt, now: int64): (r: LoginResponse)
    ensures r.session.payload.tokenType == Credentials
    ensures r.refresh.payload.tokenType == Refresh
    ensures r.session.payload.expiration == Add(now, 86400)
    ensures r.refresh.payload.expiration == Add(now, 604800)
    ensures SameIdentity(r.session.payload, token.payload) && SameIdentity(r.refresh.payload, token.payload)
    ensures r.session.header == token.header && r.refresh.header == token.header
  {
    LoginResponse(WithType(token, Credentials, now), WithType(token, Refresh, now))
  }

  /** The two tokens of a pair carry the same token id: revoking one id revokes both. */
  lemma LoginPairSharesTokenId(token: Jwt, now: int64)
    ensures GenerateLogin(token, now).session.payload.tokenId == GenerateLogin(token, now).refresh.payload.tokenId
    ensures GenerateLogin(token, now).session.payload.tokenId == token.payload.tokenId
  {
  }

  /** What is handed to `mailer.Send`: the template, the headers and the template data. */
  datatype Mail = Mail(template: string, headers: seq<(string, string)>, data: map<string, string>)

  /** The token `GenerateTokenAndSendEmail` returns, given the random draw and whether the send succeeded. */
  function MailedToken(random: Option<Token>, sent: bool): (r: Option<Token>)
    ensures r.Some? <==> random.Some? && sent
    ensures r.Some? ==> r == random
  {
    if random.Some? && sent then random else None
  }

  /**
   * `GenerateTokenAndSendEmail(email, templateName, subject, url, expiry...)`. The random
   * draw (`None` when `crypto/rand` fails) and the outcome of the send are inputs; the
   * mail is the message handed to the mailer, if one was.
   */
  method GenerateTokenAndSendEmail(email: string, templateName: string, subject: string, url: string,
                                   expiry: seq<string>, random: Option<Token>, sent: bool)
    returns (token: Option<Token>, mail: Option<Mail>)
    ensures token == MailedToken(random, sent)
    ensures mail.Some? <==> random.Some?
    ensures mail.Some? ==> mail.value.template == templateName
    ensures mail.Some? ==> mail.value.headers == [("Subject", subject), ("To", email)]
    ensures mail.Some? ==> "Token" in mail.value.data && mail.value.data["Token"] == random.value.raw
    ensures mail.Some? ==> "Url" in mail.value.data && mail.value.data["Url"] == url
    ensures mail.Some? ==> ("Expiry" in mail.value.data <==> |expiry| > 0)
    ensures mail.Some? && |expiry| > 0 ==> mail.value.data["Expiry"] == expiry[0]
    ensures mail.Some? ==> mail.value.data.Keys <= {"Token", "Url", "Expiry"}
  {
    if random.None? {
      return None, None;
    }
    var t := random.value;
    var headers := [("Subject", subject), ("To", email)];
    var data := map["Token" := t.raw, "Url" := url];
    if |expiry| > 0 {
      data := data["Expiry" := expiry[0]];
    }
    mail := Some(Mail(templateName, headers, data));
    if !sent {
      return None, mail;
    }
    token := Some(t);
  }
}
