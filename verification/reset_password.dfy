/**
 * Password reset: a token `<nonce>|<expiry in ms>` stored on the user,
 * validated by exact lookup and by its embedded expiry, consumed by a
 * password change.
 */
module ResetPassword {
  import opened Wrappers
  import opened Http
  import opened Users
  import opened JsText

  /** Three minutes, in milliseconds: the token's validity and the cookie's maxAge. */
  const ResetWindow: nat := 3 * 60 * 1000

  const MsgUserNotFound := "Invalid reset password token, user not found."
  const MsgNoExpiry := "The expiration time is not present in the token"
  const MsgNotANumber := "The expiration time is not a valid number"
  const MsgExpired := "The password token has expired"
  const MsgLinkSent := "Password reset link send successfully!"

  /** `token.split('|')[1]`: the second `|`-separated piece, `undefined` when there is none. */
  function ExpirySegment(token: string): (r: Option<string>)
    ensures r.Some? <==> '|' in token
  {
    SplitHasSecond(token, '|');
    var parts := Split(token, '|');
    if |parts| < 2 then None else Some(parts[1])
  }

  /**
   * The checks `validateToken` makes after finding the user: an absent or
   * empty expiry piece, then an expiry that is not a number, then an expiry
   * strictly before `now`, each a BadRequest; otherwise the expiry.
   */
  function CheckExpiry(token: string, now: int): (r: Result<int, Error>)
    ensures r == Failure(BadRequest(MsgNoExpiry)) <==> ExpirySegment(token) == None || ExpirySegment(token) == Some("")
    ensures r == Failure(BadRequest(MsgNotANumber)) <==>
      ExpirySegment(token).Some? && ExpirySegment(token).value != "" && ParseInt(ExpirySegment(token).value).None?
    ensures r.Success? ==> ExpirySegment(token).Some? && ParseInt(ExpirySegment(token).value) == Some(r.value) && now <= r.value
    ensures r == Failure(BadRequest(MsgExpired)) <==>
      ExpirySegment(token).Some? && ParseInt(ExpirySegment(token).value).Some? && now > ParseInt(ExpirySegment(token).value).value
  {
    var expirationTime := ExpirySegment(token);
    if expirationTime.None? || expirationTime.value == "" then
      Failure(BadRequest(MsgNoExpiry))
    else
      var expirationTimestamp := ParseInt(expirationTime.value);
      if expirationTimestamp.None? then
        Failure(BadRequest(MsgNotANumber))
      else if now > expirationTimestamp.value then
        Failure(BadRequest(MsgExpired))
      else
        Success(expirationTimestamp.value)
  }

  /** The token `sendPasswordResetLink` mints at time `now`: `${uuid}|${now + 180000}`. */
  function MintToken(nonce: string, now: nat): string
  {
    nonce + "|" + DecimalString(now + ResetWindow)
  }

  /** A freshly minted token passes the checks exactly up to and including its expiry instant. */
  lemma MintedTokenValidUntilExpiry(nonce: string, mintedAt: nat, now: int)
    requires '|' !in nonce
    ensures CheckExpiry(MintToken(nonce, mintedAt), now)
         == if now > mintedAt + ResetWindow then Failure(BadRequest(MsgExpired)) else Success(mintedAt + ResetWindow)
  {
    var digits := DecimalString(mintedAt + ResetWindow);
    assert MintToken(nonce, mintedAt) == nonce + ['|'] + digits;
    SplitAtFirst(nonce, '|', digits);
    assert '|' !in digits by {
      forall i | 0 <= i < |digits| ensures digits[i] != '|' {
        assert IsDigit(digits[i]);
      }
    }
    SplitNoSeparator(digits, '|');
    ParseIntDecimal(mintedAt + ResetWindow, "");
    assert digits + "" == digits;
  }

  /** Only the second piece is read: anything after a further `|` is ignored. */
  lemma LaterSegmentsIgnored(a: string, b: string, rest: string, now: int)
    requires '|' !in a && '|' !in b
    ensures CheckExpiry(a + "|" + b + "|" + rest, now) == CheckExpiry(a + "|" + b, now)
  {
    assert a + "|" + b + "|" + rest == a + ['|'] + (b + ['|'] + rest);
    assert a + "|" + b == a + ['|'] + b;
    SplitAtFirst(a, '|', b + ['|'] + rest);
    SplitAtFirst(b, '|', rest);
    SplitAtFirst(a, '|', b);
    SplitNoSeparator(b, '|');
  }

  /** A token ending in its first `|` has an empty expiry piece. */
  lemma EmptyExpiryRejected(nonce: string, now: int)
    requires '|' !in nonce
    ensures CheckExpiry(nonce + "|", now) == Failure(BadRequest(MsgNoExpiry))
  {
    assert nonce + "|" == nonce + ['|'] + [];
    SplitAtFirst(nonce, '|', []);
  }

  /** An expiry piece that does not start with a digit (after blanks and a sign) is not a number. */
  lemma NonNumericExpiryRejected(nonce: string, expiry: string, now: int)
    requires '|' !in nonce && '|' !in expiry && expiry != ""
    requires DigitRun(SignStripped(TrimStart(expiry))) == ""
    ensures CheckExpiry(nonce + "|" + expiry, now) == Failure(BadRequest(MsgNotANumber))
  {
    assert nonce + "|" + expiry == nonce + ['|'] + expiry;
    SplitAtFirst(nonce, '|', expiry);
    SplitNoSeparator(expiry, '|');
  }

  /** No two users hold the same reset token. */
  ghost predicate ResetTokensUnique(users: map<UserId, User>)
  {
    forall a, b ::
      (a in users && b in users && users[a].resetPasswordToken.Some? &&
       users[a].resetPasswordToken == users[b].resetPasswordToken) ==> a == b
  }

  /** Minting over an earlier token leaves no user holding the earlier one. */
  lemma OverwrittenTokenIsDead(users: map<UserId, User>, id: UserId, earlier: string, minted: string)
    requires ResetTokensUnique(users)
    requires id in users && users[id].resetPasswordToken == Some(earlier) && earlier != minted
    ensures var after := users[id := users[id].(resetPasswordToken := Some(minted))];
      forall u :: u in after ==> after[u].resetPasswordToken != Some(earlier)
  {
  }

  class ResetPasswordService {
    const userModel: UserCollection

    constructor(userModel: UserCollection)
      ensures this.userModel == userModel
    {
      this.userModel := userModel;
    }

    /**
     * `validateToken`: no user storing exactly this token is NotFound, checked
     * before any format check; then the expiry checks. Changes nothing.
     */
    method ValidateToken(resetPasswordToken: string, now: int) returns (r: Result<UserId, Error>)
      ensures (forall id :: id in userModel.users ==> userModel.users[id].resetPasswordToken != Some(resetPasswordToken)) ==>
        r == Failure(NotFound(MsgUserNotFound))
      ensures (exists id :: id in userModel.users && userModel.users[id].resetPasswordToken == Some(resetPasswordToken)) ==>
        && (r.Success? <==> CheckExpiry(resetPasswordToken, now).Success?)
        && (r.Failure? ==> r.error == CheckExpiry(resetPasswordToken, now).error)
      ensures r.Success? ==> r.value in userModel.users && userModel.users[r.value].resetPasswordToken == Some(resetPasswordToken)
    {
      var found := userModel.FindByResetToken(resetPasswordToken);
      if found.None? {
        return Failure(NotFound(MsgUserNotFound));
      }
      var user := userModel.users[found.value];
      var checked := CheckExpiry(user.resetPasswordToken.value, now);
      if checked.Failure? {
        return Failure(checked.error);
      }
      r := Success(found.value);
    }

    /**
     * `setNewPassword`: after a successful validation the password becomes the
     * digest of the new one and the reset token is cleared; any validation
     * failure leaves every user as it was.
     */
    method SetNewPassword(token: string, newPassword: string, hash: string -> string, now: int) returns (r: Result<User, Error>)
      modifies userModel
      ensures (forall id :: id in old(userModel.users) ==> old(userModel.users)[id].resetPasswordToken != Some(token)) ==>
        r == Failure(NotFound(MsgUserNotFound))
      ensures (exists id :: id in old(userModel.users) && old(userModel.users)[id].resetPasswordToken == Some(token)) ==>
        CheckExpiry(token, now).Failure? ==> r == Failure(CheckExpiry(token, now).error)
      ensures r.Success? <==>
        (exists id :: id in old(userModel.users) && old(userModel.users)[id].resetPasswordToken == Some(token)) &&
        CheckExpiry(token, now).Success?
      ensures r.Failure? ==> userModel.users == old(userModel.users)
      ensures r.Success? ==>
        exists id ::
          (&& id in old(userModel.users) && old(userModel.users)[id].resetPasswordToken == Some(token)
           && r.value == old(userModel.users)[id].(password := hash(newPassword), resetPasswordToken := None)
           && userModel.users == old(userModel.users)[id := r.value])
      ensures r.Success? && ResetTokensUnique(old(userModel.users)) ==>
        forall id :: id in userModel.users ==> userModel.users[id].resetPasswordToken != Some(token)
    {
      var validated := ValidateToken(token, now);
      if validated.Failure? {
        return Failure(validated.error);
      }
      var id := validated.value;
      var user := userModel.users[id];
      user := user.(password := hash(newPassword), resetPasswordToken := None);
      userModel.Save(id, user);
      r := Success(user);
    }
  }

  /** The body `sendPasswordResetLink` answers with. */
  datatype ResetLinkResponse = ResetLinkResponse(success: bool, message: string)

  class ResetPasswordController {
    const resetPasswordService: ResetPasswordService

    constructor(resetPasswordService: ResetPasswordService)
      ensures this.resetPasswordService == resetPasswordService
    {
      this.resetPasswordService := resetPasswordService;
    }

    /**
     * `resetPassword` (GET): the possession cookie is set, carrying the
     * stored token for three minutes, only when validation returns a user.
     */
    method ResetPassword(token: string, now: int) returns (r: Result<Cookie, Error>)
      ensures (forall id :: id in resetPasswordService.userModel.users ==> resetPasswordService.userModel.users[id].resetPasswordToken != Some(token)) ==>
        r == Failure(NotFound(MsgUserNotFound))
      ensures r.Success? <==>
        (exists id :: id in resetPasswordService.userModel.users && resetPasswordService.userModel.users[id].resetPasswordToken == Some(token)) &&
        CheckExpiry(token, now).Success?
      ensures r.Success? ==> r.value == Cookie("resetPasswordToken", token, ResetWindow, true, true)
    {
      var validated := resetPasswordService.ValidateToken(token, now);
      if validated.Failure? {
        return Failure(validated.error);
      }
      var user := resetPasswordService.userModel.users[validated.value];
      r := Success(Cookie("resetPasswordToken", user.resetPasswordToken.value, ResetWindow, true, true));
    }

    /**
     * `sendPasswordResetLink` (POST): an unknown email is NotFound and no user
     * changes; otherwise the user's reset token is overwritten with
     * `<nonce>|<now + 180000>`. `nonce` is the uuid, `now` the clock.
     */
    method SendPasswordResetLink(email: string, nonce: string, now: nat) returns (r: Result<ResetLinkResponse, Error>)
      modifies resetPasswordService.userModel
      ensures (forall id :: id in old(resetPasswordService.userModel.users) ==> old(resetPasswordService.userModel.users)[id].email != email) ==>
        && r == Failure(NotFound("User with " + email + " not found"))
        && resetPasswordService.userModel.users == old(resetPasswordService.userModel.users)
      ensures r.Success? ==>
        && r.value == ResetLinkResponse(true, MsgLinkSent)
        && exists id :: id in old(resetPasswordService.userModel.users) && old(resetPasswordService.userModel.users)[id].email == email &&
             resetPasswordService.userModel.users == old(resetPasswordService.userModel.users)[id := old(resetPasswordService.userModel.users)[id].(resetPasswordToken := Some(MintToken(nonce, now)))]
      ensures r.Success? <==> exists id :: id in old(resetPasswordService.userModel.users) && old(resetPasswordService.userModel.users)[id].email == email
    {
      var found := resetPasswordService.userModel.FindByEmail(email);
      if found.None? {
        return Failure(NotFound("User with " + email + " not found"));
      }
      var user := resetPasswordService.userModel.users[found.value];
      var expirationTime := now + ResetWindow;
      var passwordResetToken := nonce + "|" + DecimalString(expirationTime);
      user := user.(resetPasswordToken := Some(passwordResetToken));
      resetPasswordService.userModel.Save(found.value, user);
      r := Success(ResetLinkResponse(true, MsgLinkSent));
    }
  }
}
