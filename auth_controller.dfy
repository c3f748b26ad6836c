/**
  The passwordless sign-in endpoints (`backend/controller/auth.js`) over
  in-memory `users` and `otps` tables. Requesting a one-time code creates
  the user on first contact (the very first user becomes the admin) and
  issues a six-digit code valid for five minutes; verifying checks, in
  order, that the code exists, is unused and has not expired, and then
  marks both the code and the user as verified, so a code works once.
 */
module AuthController {
  import opened Common
  import opened Text
  import Catalog

  const OtpExpMinutes := 5
  /** `OTP_EXP_MINUTES * 60 * 1000`: the lifetime of a code, in milliseconds. */
  const ExpiryMs := OtpExpMinutes * 60 * 1000

  const EmailRequired := "Email is required"
  const OtpSent := "OTP sent to email"
  const BothRequired := "Email and OTP are required"
  const InvalidCode := "Invalid code"
  const AlreadyUsed := "Code already used"
  const CodeExpired := "Code expired"
  const ServerError := "Server error"

  datatype User = User(id: string, email: string, isVerified: bool, role: string)

  /** A row of `otps`; `createdAt` is the column's database default, the time of the insert. */
  datatype Otp = Otp(id: string, email: string, code: string, expiresAt: int, verified: bool, createdAt: int)

  /**
    `generateOtp`: `draw` is `Math.floor(Math.random() * 900000)`, so the
    code is the decimal text of a number from 100000 to 999999.
   */
  function OtpCode(draw: nat): (code: string)
    requires draw < 900000
    ensures |code| == 6 && AllDigits(code) && code[0] != '0'
    ensures NumberOf(code) == Some(100000 + draw)
  {
    assert Pow10(5) == 100000 && Pow10(6) == 1000000;
    NatToStringLength(100000 + draw, 6);
    NumberOfIntToString(100000 + draw);
    NatToString(100000 + draw)
  }

  function EmailIs(email: string): User -> bool {
    (u: User) => u.email == email
  }

  predicate HasEmail(users: seq<User>, email: string) {
    exists k :: 0 <= k < |users| && users[k].email == email
  }

  /** The role of a user created now: `COUNT(*) === 0 ? 'admin' : 'user'`. */
  function RoleFor(users: seq<User>): string {
    if |users| == 0 then "admin" else "user"
  }

  /** The users table after a request for `email`: a new, unverified row only for an unknown email. */
  function UsersAfterRequest(users: seq<User>, email: string, id: string): seq<User> {
    if HasEmail(users, email) then users else users + [User(id, email, false, RoleFor(users))]
  }

  function IssuedOtp(email: string, id: string, code: string, now: int): Otp {
    Otp(id, email, code, now + ExpiryMs, false, now)
  }

  predicate Matches(o: Otp, email: string, code: string) {
    o.email == email && o.code == code
  }

  /**
    `SELECT * FROM otps WHERE email = ? AND code = ? ORDER BY created_at DESC LIMIT 1`:
    the position of the matching row inserted last.
   */
  function LatestOtp(otps: seq<Otp>, email: string, code: string): (r: Option<nat>)
    ensures r.Some? ==> r.value < |otps| && Matches(otps[r.value], email, code)
    ensures r.Some? ==> forall j :: r.value < j < |otps| ==> !Matches(otps[j], email, code)
    ensures r.None? ==> forall j :: 0 <= j < |otps| ==> !Matches(otps[j], email, code)
    decreases |otps|
  {
    if otps == [] then None
    else if Matches(otps[|otps| - 1], email, code) then Some(|otps| - 1)
    else
      var r := LatestOtp(otps[..|otps| - 1], email, code);
      assert forall j :: 0 <= j < |otps| - 1 ==> otps[..|otps| - 1][j] == otps[j];
      r
  }

  /** The outcome `verifyOtp` picks before it writes anything: missing fields, unknown code, used code, expired code. */
  function VerifyRejection(otps: seq<Otp>, email: Option<string>, code: Option<string>, now: int): Option<Reply<User>> {
    if !Catalog.TruthyText(email) || !Catalog.TruthyText(code) then Some(Failure(400, BothRequired))
    else match LatestOtp(otps, email.value, code.value)
      case None => Some(Failure(400, InvalidCode))
      case Some(k) =>
        if otps[k].verified then Some(Failure(400, AlreadyUsed))
        else if otps[k].expiresAt < now then Some(Failure(400, CodeExpired))
        else None
  }

  /** `UPDATE otps SET verified = 1 WHERE id = ?` */
  function MarkOtp(otps: seq<Otp>, id: string): seq<Otp> {
    seq(|otps|, k requires 0 <= k < |otps| => if otps[k].id == id then otps[k].(verified := true) else otps[k])
  }

  /** `UPDATE users SET is_verified = 1 WHERE email = ?` */
  function MarkUser(users: seq<User>, email: string): seq<User> {
    seq(|users|, k requires 0 <= k < |users| => if users[k].email == email then users[k].(isVerified := true) else users[k])
  }

  /** The user sent back after a successful check: the first row with the email, its role defaulting to 'user'. */
  function VerifiedReply(users: seq<User>, email: string): Reply<User> {
    match FindIndex(users, EmailIs(email))
    case None => Failure(500, ServerError)
    case Some(i) => Success(200, users[i].(role := if users[i].role == "" then "user" else users[i].role))
  }

  /** Only the first user ever created is an admin. */
  ghost predicate AdminFirst(users: seq<User>) {
    forall k :: 0 <= k < |users| ==> (users[k].role == "admin" <==> k == 0)
  }

  /** The database clock does not run backwards between two inserts into `otps`. */
  predicate ClockFrom(otps: seq<Otp>, now: int) {
    otps == [] || otps[|otps| - 1].createdAt <= now
  }

  ghost predicate Consistent(users: seq<User>, otps: seq<Otp>) {
    (forall a, b :: 0 <= a < b < |users| ==> users[a].id != users[b].id && users[a].email != users[b].email)
    && (forall a, b :: 0 <= a < b < |otps| ==> otps[a].id != otps[b].id && otps[a].createdAt <= otps[b].createdAt)
    && (forall k :: 0 <= k < |otps| ==> HasEmail(users, otps[k].email))
    && (forall k :: 0 <= k < |users| ==> users[k].role == "admin" || users[k].role == "user")
    && AdminFirst(users)
  }

  class AuthTables {
    var users: seq<User>
    var otps: seq<Otp>

    ghost predicate Valid()
      reads this
    {
      Consistent(users, otps)
    }

    constructor ()
      ensures users == [] && otps == [] && Valid()
    {
      users := [];
      otps := [];
    }

    /**
      `requestOtp`: without an email a 400 and nothing stored; otherwise a
      user row for an unknown email and a fresh code row. `id` is the fresh
      ObjectId (used for both rows), `now` the clock, `draw` the random draw.
     */
    method RequestOtp(email: Option<string>, id: string, now: int, draw: nat) returns (reply: Reply<string>)
      requires draw < 900000
      requires forall k :: 0 <= k < |users| ==> users[k].id != id
      requires forall k :: 0 <= k < |otps| ==> otps[k].id != id
      modifies this
      ensures !Catalog.TruthyText(email) ==>
        reply == Failure(400, EmailRequired) && users == old(users) && otps == old(otps)
      ensures Catalog.TruthyText(email) ==>
        users == UsersAfterRequest(old(users), email.value, id)
        && otps == old(otps) + [IssuedOtp(email.value, id, OtpCode(draw), now)]
        && reply == Success(200, OtpSent)
      ensures old(Valid()) && ClockFrom(old(otps), now) ==> Valid()
    {
      if !Catalog.TruthyText(email) {
        return Failure(400, EmailRequired);
      }
      var e := email.value;
      if !HasEmail(users, e) {
        var role := if |users| == 0 then "admin" else "user";
        users := users + [User(id, e, false, role)];
      }
      var old0 := otps;
      otps := otps + [IssuedOtp(e, id, OtpCode(draw), now)];
      if old(Valid()) && ClockFrom(old0, now) {
        RequestKeepsConsistent(old(users), old0, e, id, OtpCode(draw), now);
      }
      reply := Success(200, OtpSent);
    }

    /**
      `verifyOtp`: a rejection writes nothing; a success marks the code
      row and the user verified and sends the user back.
     */
    method VerifyOtp(email: Option<string>, code: Option<string>, now: int) returns (reply: Reply<User>)
      modifies this
      ensures VerifyRejection(old(otps), email, code, now).Some? ==>
        reply == VerifyRejection(old(otps), email, code, now).value && users == old(users) && otps == old(otps)
      ensures VerifyRejection(old(otps), email, code, now).None? ==>
        var k := LatestOtp(old(otps), email.value, code.value).value;
        otps == MarkOtp(old(otps), old(otps)[k].id)
        && users == MarkUser(old(users), email.value)
        && reply == VerifiedReply(users, email.value)
      ensures old(Valid()) ==> Valid()
    {
      var rejection := VerifyRejection(otps, email, code, now);
      if rejection.Some? {
        return rejection.value;
      }
      var k := LatestOtp(otps, email.value, code.value).value;
      if Valid() {
        VerifyKeepsConsistent(users, otps, otps[k].id, email.value);
      }
      otps := MarkOtp(otps, otps[k].id);
      users := MarkUser(users, email.value);
      reply := VerifiedReply(users, email.value);
    }

    /** `checkEmail`: whether a user row has the email. */
    method CheckEmail(email: Option<string>) returns (reply: Reply<bool>)
      ensures !Catalog.TruthyText(email) ==> reply == Failure(400, EmailRequired)
      ensures Catalog.TruthyText(email) ==>
        reply.Success? && reply.code == 200
        && (reply.body <==> exists k :: 0 <= k < |users| && users[k].email == email.value)
    {
      if !Catalog.TruthyText(email) {
        return Failure(400, EmailRequired);
      }
      reply := Success(200, HasEmail(users, email.value));
    }
  }

  lemma RequestKeepsConsistent(users: seq<User>, otps: seq<Otp>, email: string, id: string, code: string, now: int)
    requires Consistent(users, otps) && ClockFrom(otps, now)
    requires forall k :: 0 <= k < |users| ==> users[k].id != id
    requires forall k :: 0 <= k < |otps| ==> otps[k].id != id
    ensures Consistent(UsersAfterRequest(users, email, id), otps + [IssuedOtp(email, id, code, now)])
  {
    var us := UsersAfterRequest(users, email, id);
    var os := otps + [IssuedOtp(email, id, code, now)];
    assert HasEmail(us, email) by {
      if !HasEmail(users, email) {
        assert us[|users|].email == email;
      }
    }
    forall k | 0 <= k < |os| ensures HasEmail(us, os[k].email) {
      if k < |otps| {
        var j :| 0 <= j < |users| && users[j].email == otps[k].email;
        assert us[j] == users[j];
      }
    }
    forall a, b | 0 <= a < b < |os| ensures os[a].id != os[b].id && os[a].createdAt <= os[b].createdAt {
      if b == |otps| {
        assert otps[a].createdAt <= otps[|otps| - 1].createdAt;
      }
    }
  }

  lemma VerifyKeepsConsistent(users: seq<User>, otps: seq<Otp>, id: string, email: string)
    requires Consistent(users, otps)
    ensures Consistent(MarkUser(users, email), MarkOtp(otps, id))
  {
    var us := MarkUser(users, email);
    forall k | 0 <= k < |otps| ensures HasEmail(us, MarkOtp(otps, id)[k].email) {
      var j :| 0 <= j < |users| && users[j].email == otps[k].email;
      assert us[j].email == users[j].email;
    }
  }

  /** A newly created user is the admin exactly when the users table was empty. */
  lemma FirstUserIsAdmin(users: seq<User>, email: string, id: string)
    requires AdminFirst(users) && !HasEmail(users, email)
    ensures var us := UsersAfterRequest(users, email, id);
      |us| == |users| + 1 && us[|users|].email == email && !us[|users|].isVerified
      && (us[|users|].role == "admin" <==> users == [])
      && AdminFirst(us)
  {
  }

  lemma {:induction false} NoAdminCount(users: seq<User>)
    requires forall k :: 0 <= k < |users| ==> users[k].role != "admin"
    ensures Count(users, IsAdmin) == 0
  {
    if users != [] {
      assert forall k :: 0 <= k < |users[1..]| ==> users[1..][k] == users[k + 1];
      NoAdminCount(users[1..]);
    }
  }

  predicate IsAdmin(u: User) {
    u.role == "admin"
  }

  /** However many users sign up, there is exactly one admin once there is any user. */
  lemma AdminCount(users: seq<User>)
    requires AdminFirst(users)
    ensures Count(users, IsAdmin) == (if users == [] then 0 else 1)
  {
    if users != [] {
      assert forall k :: 0 <= k < |users[1..]| ==> users[1..][k] == users[k + 1];
      NoAdminCount(users[1..]);
    }
  }

  /** The latest matching row depends only on which rows match. */
  lemma {:induction false} LatestOtpSameMatches(s: seq<Otp>, t: seq<Otp>, email: string, code: string)
    requires |s| == |t|
    requires forall j :: 0 <= j < |s| ==> (Matches(s[j], email, code) <==> Matches(t[j], email, code))
    ensures LatestOtp(s, email, code) == LatestOtp(t, email, code)
    decreases |s|
  {
    if s != [] {
      var n := |s| - 1;
      assert forall j :: 0 <= j < n ==> s[..n][j] == s[j] && t[..n][j] == t[j];
      LatestOtpSameMatches(s[..n], t[..n], email, code);
    }
  }

  /**
    A code works once: after a successful check, the same request is
    answered "Code already used" at any later time, expired or not.
   */
  lemma VerifyOnlyOnce(otps: seq<Otp>, email: Option<string>, code: Option<string>, now: int, later: int)
    requires VerifyRejection(otps, email, code, now).None?
    ensures var k := LatestOtp(otps, email.value, code.value).value;
      VerifyRejection(MarkOtp(otps, otps[k].id), email, code, later) == Some(Failure(400, AlreadyUsed))
  {
    var k := LatestOtp(otps, email.value, code.value).value;
    LatestOtpSameMatches(otps, MarkOtp(otps, otps[k].id), email.value, code.value);
  }

  /**
    A code just issued verifies exactly until its expiry instant, inclusive,
    and is reported expired after it.
   */
  lemma IssuedCodeVerifies(otps: seq<Otp>, email: string, id: string, draw: nat, now: int, t: int)
    requires email != "" && draw < 900000
    ensures var os := otps + [IssuedOtp(email, id, OtpCode(draw), now)];
      (VerifyRejection(os, Some(email), Some(OtpCode(draw)), t).None? <==> t <= now + 300000)
      && (t > now + 300000 ==> VerifyRejection(os, Some(email), Some(OtpCode(draw)), t) == Some(Failure(400, CodeExpired)))
  {
    var os := otps + [IssuedOtp(email, id, OtpCode(draw), now)];
    assert LatestOtp(os, email, OtpCode(draw)) == Some(|otps|);
  }

  /** Over consistent tables, a successful check sends back the user with that email, now verified, with its role. */
  lemma VerifiedUserReply(users: seq<User>, otps: seq<Otp>, email: Option<string>, code: Option<string>, now: int)
    requires Consistent(users, otps)
    requires VerifyRejection(otps, email, code, now).None?
    ensures var r := VerifiedReply(MarkUser(users, email.value), email.value);
      r.Success? && r.code == 200 && r.body.email == email.value && r.body.isVerified
      && HasEmail(users, email.value)
      && (exists k :: 0 <= k < |users| && users[k].email == email.value && users[k].id == r.body.id && users[k].role == r.body.role)
  {
    var k := LatestOtp(otps, email.value, code.value).value;
    assert HasEmail(users, otps[k].email);
    var j :| 0 <= j < |users| && users[j].email == email.value;
    var us := MarkUser(users, email.value);
    assert us[j].email == email.value;
    var i := FindIndex(us, EmailIs(email.value)).value;
    assert us[i].email == email.value;
    assert users[i].role != "";
  }

  /**
    Over consistent tables the row inserted last among the matching ones
    has the largest `created_at`, so it is the row the query's
    `ORDER BY created_at DESC LIMIT 1` returns (up to rows inserted at the same instant).
   */
  lemma LatestIsNewest(users: seq<User>, otps: seq<Otp>, email: string, code: string)
    requires Consistent(users, otps)
    requires LatestOtp(otps, email, code).Some?
    ensures var k := LatestOtp(otps, email, code).value;
      forall j :: 0 <= j < |otps| && Matches(otps[j], email, code) ==> otps[j].createdAt <= otps[k].createdAt
  {
    var k := LatestOtp(otps, email, code).value;
    forall j | 0 <= j < |otps| && Matches(otps[j], email, code) ensures otps[j].createdAt <= otps[k].createdAt {
      assert j <= k;
      if j < k {
        assert otps[j].createdAt <= otps[k].createdAt;
      }
    }
  }
}
