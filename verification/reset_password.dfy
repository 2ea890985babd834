/** `POST /api/auth/reset-password` (`src/app/api/auth/reset-password/route.ts`):
    exchanges a live reset token for a new password hash, then deletes the
    token. The hash function and the time are inputs. */
module ResetPassword {
  import opened Base
  import opened Schema
  import Seqs
  import ForgotPassword

  /** The table writes of a successful reset, in the order they are made. */
  datatype Write = PasswordUpdated(userId: string) | TokenDeleted(token: string)

  /** `user.update({ where: { id }, data: { password } })` */
  function SetPassword(users: seq<User>, id: string, hashed: string): (r: seq<User>)
    ensures |r| == |users|
    ensures forall i :: 0 <= i < |users| ==> r[i].id == users[i].id && r[i].email == users[i].email
    ensures forall i :: 0 <= i < |users| && users[i].id == id ==>
      r[i].password == hashed && r[i].uuid == users[i].uuid && r[i].admin == users[i].admin
    ensures forall i :: 0 <= i < |users| && users[i].id != id ==> r[i] == users[i]
  {
    seq(|users|, i requires 0 <= i < |users| =>
      if users[i].id == id then users[i].(password := hashed) else users[i])
  }

  /** Setting a password keeps ids and emails unique, gives the user the new
      hash and leaves everyone else as they were. */
  lemma SetPasswordChangesOnlyThatUser(users: seq<User>, id: string, hashed: string)
    requires UniqueUserIds(users) && UniqueEmails(users)
    ensures var r := SetPassword(users, id, hashed);
      UniqueUserIds(r) && UniqueEmails(r)
      && (UserById(users, id).Some? ==> UserById(r, id) == Some(UserById(users, id).value.(password := hashed)))
      && (forall i :: 0 <= i < |users| && users[i].id != id ==> r[i] == users[i])
  {
    var r := SetPassword(users, id, hashed);
    var p := (u: User) => u.id == id;
    Seqs.FirstMatchAtFirstIndex(p, users);
    Seqs.FirstMatchAtFirstIndex(p, r);
    assert forall i :: 0 <= i < |users| ==> r[i].id == users[i].id && r[i].email == users[i].email;
    assert Seqs.FirstIndex(p, r) == Seqs.FirstIndex(p, users);
  }

  /** `s` without its element at `k`. */
  function Without(s: seq<VerificationToken>, k: nat): (r: seq<VerificationToken>)
    requires k < |s|
    ensures |r| == |s| - 1
    ensures forall j :: 0 <= j < k ==> r[j] == s[j]
    ensures forall j :: k <= j < |r| ==> r[j] == s[j + 1]
  {
    s[..k] + s[k + 1..]
  }

  /** `verificationToken.delete({ where: { token } })` */
  function DeleteToken(tokens: seq<VerificationToken>, token: string): (r: seq<VerificationToken>)
    ensures |r| <= |tokens|
    ensures |r| == |tokens| - 1 <==> exists i :: 0 <= i < |tokens| && tokens[i].token == token
  {
    var k := Seqs.FirstIndex((t: VerificationToken) => t.token == token, tokens);
    if k < |tokens| then Without(tokens, k) else tokens
  }

  /** A deleted token is gone for good (a reset token works once), the
      tokens stay unique and every other token is kept. */
  lemma DeletedTokenIsGone(tokens: seq<VerificationToken>, token: string)
    requires UniqueTokens(tokens)
    ensures var r := DeleteToken(tokens, token);
      TokenByValue(r, token).None? && UniqueTokens(r)
      && (forall t :: t in tokens && t.token != token ==> t in r)
      && (forall t :: t in r ==> t in tokens)
  {
    var k := Seqs.FirstIndex((t: VerificationToken) => t.token == token, tokens);
    if k < |tokens| {
      WithoutKeepsOthers(tokens, k);
      var r := Without(tokens, k);
      forall j | 0 <= j < |r| ensures r[j].token != token {
        if j >= k { assert tokens[k].token != tokens[j + 1].token; }
      }
    }
  }

  /** Removing one position of a sequence of unique tokens keeps them unique
      and keeps every element at another position. */
  lemma WithoutKeepsOthers(tokens: seq<VerificationToken>, k: nat)
    requires k < |tokens| && UniqueTokens(tokens)
    ensures UniqueTokens(Without(tokens, k))
    ensures forall t :: t in tokens && t.token != tokens[k].token ==> t in Without(tokens, k)
    ensures forall t :: t in Without(tokens, k) ==> t in tokens
  {
    var r := Without(tokens, k);
    forall i, j | 0 <= i < j < |r| ensures r[i].token != r[j].token {
      var i', j' := if i < k then i else i + 1, if j < k then j else j + 1;
      assert r[i] == tokens[i'] && r[j] == tokens[j'];
    }
    forall t | t in tokens && t.token != tokens[k].token ensures t in r {
      var i :| 0 <= i < |tokens| && tokens[i] == t;
      if i < k { assert r[i] == t; } else { assert r[i - 1] == t; }
    }
    forall t | t in r ensures t in tokens {
      var j :| 0 <= j < |r| && r[j] == t;
      if j < k { assert tokens[j] == t; } else { assert tokens[j + 1] == t; }
    }
  }

  /** `POST` (route.ts:6-63). */
  method Post(db: Database, token: string, password: string, hash: string -> string, now: Millis)
    returns (resp: Response, writes: seq<Write>)
    requires db.Valid()
    modifies db`users, db`tokens
    ensures db.Valid()
    // a missing or expired token is refused and left in place
    ensures TokenByValue(old(db.tokens), token).None? || ForgotPassword.Expired(TokenByValue(old(db.tokens), token).value, now) ==>
      resp == Response(400, ErrorBody("Invalid or expired token")) && writes == []
      && db.users == old(db.users) && db.tokens == old(db.tokens)
    ensures TokenByValue(old(db.tokens), token).Some? && !ForgotPassword.Expired(TokenByValue(old(db.tokens), token).value, now)
            && UserByEmail(old(db.users), TokenByValue(old(db.tokens), token).value.identifier).None? ==>
      resp == Response(404, ErrorBody("User not found")) && writes == []
      && db.users == old(db.users) && db.tokens == old(db.tokens)
    // the password is updated first, then the token is deleted
    ensures TokenByValue(old(db.tokens), token).Some? && !ForgotPassword.Expired(TokenByValue(old(db.tokens), token).value, now)
            && UserByEmail(old(db.users), TokenByValue(old(db.tokens), token).value.identifier).Some? ==>
      var user := UserByEmail(old(db.users), TokenByValue(old(db.tokens), token).value.identifier).value;
      resp == Response(200, MessageBody("Password reset successful"))
      && writes == [PasswordUpdated(user.id), TokenDeleted(token)]
      && db.users == SetPassword(old(db.users), user.id, hash(password))
      && db.tokens == DeleteToken(old(db.tokens), token)
      && TokenByValue(db.tokens, token).None?
  {
    var verificationToken := TokenByValue(db.tokens, token);
    if verificationToken.None? || ForgotPassword.Expired(verificationToken.value, now) {
      return Response(400, ErrorBody("Invalid or expired token")), [];
    }
    var user := UserByEmail(db.users, verificationToken.value.identifier);
    if user.None? {
      return Response(404, ErrorBody("User not found")), [];
    }
    var hashedPassword := hash(password);
    SetPasswordChangesOnlyThatUser(db.users, user.value.id, hashedPassword);
    db.users := SetPassword(db.users, user.value.id, hashedPassword);
    writes := [PasswordUpdated(user.value.id)];
    DeletedTokenIsGone(db.tokens, token);
    db.tokens := DeleteToken(db.tokens, token);
    writes := writes + [TokenDeleted(token)];
    resp := Response(200, MessageBody("Password reset successful"));
  }

  /** Replaying a reset with the same token after it succeeded is refused
      and changes nothing. */
  method ResetTwice(db: Database, token: string, first: string, second: string,
                    hash: string -> string, now: Millis)
    returns (r1: Response, r2: Response)
    requires db.Valid()
    modifies db`users, db`tokens
    ensures r1.status == 200 ==> r2 == Response(400, ErrorBody("Invalid or expired token"))
  {
    var w1, w2;
    r1, w1 := Post(db, token, first, hash, now);
    r2, w2 := Post(db, token, second, hash, now);
  }
}
