/** `POST /api/auth/forgot-password` (`src/app/api/auth/forgot-password/route.ts`):
    issues a one-hour reset token for a known email and mails it. The token
    string, the time and whether the mail could be sent are inputs. */
module ForgotPassword {
  import opened Base
  import opened Schema

  /** The answer for known and unknown emails alike. */
  const ResetLinkMessage := "If your email exists, you will receive a reset link"

  /** One hour, in milliseconds. */
  const TokenLifetime: Millis := 60 * 60 * 1000

  /** The reset mail handed to the mailer. */
  datatype ResetMail = ResetMail(to: string, token: string)

  /** A token stops working once its expiry lies strictly in the past
      (`verificationToken.expires < new Date()`). */
  predicate Expired(t: VerificationToken, now: Millis) {
    t.expires < now
  }

  /** A token issued at `issued` is accepted up to and including one hour later. */
  lemma IssuedTokenLastsOneHour(email: string, token: string, issued: Millis, now: Millis)
    ensures !Expired(VerificationToken(email, token, issued + TokenLifetime), now)
        <==> now <= issued + 3600000
  {
  }

  /** `POST` (route.ts:7-48). */
  method Post(db: Database, email: string, token: string, now: Millis, mailDelivered: bool)
    returns (resp: Response, mail: Option<ResetMail>)
    requires db.Valid()
    modifies db`tokens
    ensures db.Valid()
    // an unknown email gets the same answer and nothing is stored or sent
    ensures UserByEmail(db.users, email).None? ==>
      resp == Response(200, MessageBody(ResetLinkMessage)) && mail.None? && db.tokens == old(db.tokens)
    // the unique index on the token refuses a clash
    ensures UserByEmail(db.users, email).Some? && TokenByValue(old(db.tokens), token).Some? ==>
      resp == Response(500, ErrorBody("Something went wrong")) && mail.None? && db.tokens == old(db.tokens)
    // a known email gets a token valid for one hour, mailed to it
    ensures UserByEmail(db.users, email).Some? && TokenByValue(old(db.tokens), token).None? ==>
      db.tokens == old(db.tokens) + [VerificationToken(email, token, now + TokenLifetime)]
      && mail == Some(ResetMail(email, token))
      && resp == if mailDelivered then Response(200, MessageBody(ResetLinkMessage))
                 else Response(500, ErrorBody("Something went wrong"))
  {
    var user := UserByEmail(db.users, email);
    if user.None? {
      return Response(200, MessageBody(ResetLinkMessage)), None;
    }
    if TokenByValue(db.tokens, token).Some? {
      return Response(500, ErrorBody("Something went wrong")), None;
    }
    var resetToken := VerificationToken(email, token, now + TokenLifetime);
    db.tokens := db.tokens + [resetToken];
    mail := Some(ResetMail(email, resetToken.token));
    if !mailDelivered {
      return Response(500, ErrorBody("Something went wrong")), mail;
    }
    resp := Response(200, MessageBody(ResetLinkMessage));
  }
}
