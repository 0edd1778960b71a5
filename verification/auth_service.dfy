/** Accounts, sign-in sessions and single-use email codes
    (WebSite/BackEnd/app/services/auth_service.py). Password hashing and JWTs
    are uninterpreted functions of a `Crypto` value; times are in seconds. */
module AuthService {
  import opened Common
  import opened Models
  import Settings
  import NotificationService

  /** argon2, sha256 and the JWT encoder/decoder. `tokenType` is the `typ`
      claim of a token, or None when it does not decode or has no `typ`. */
  datatype Crypto = Crypto(
    hashPassword: string -> string,
    verifyPassword: (string, string) -> bool,
    hashToken: string -> string,
    accessToken: (Id, Time) -> string,
    refreshToken: (Id, Time) -> string,
    tokenType: string -> Option<string>)

  datatype Tokens = Tokens(access: string, refresh: string)

  // ---- Email codes ----

  predicate IsDigit(c: char) {
    '0' <= c <= '9'
  }

  predicate AllDigits(s: string) {
    forall i :: 0 <= i < |s| ==> IsDigit(s[i])
  }

  function Digit(d: nat): char
    requires d < 10
  {
    ('0' as int + d) as char
  }

  /** The last `width` decimal digits of `n`, zero-padded (`f"{n:0{width}d}"`
      for `n < 10^width`). */
  function Padded(n: nat, width: nat): string
    decreases width
  {
    if width == 0 then "" else Padded(n / 10, width - 1) + [Digit(n % 10)]
  }

  /** The number a string of digits spells. */
  function ValueOf(s: string): nat
    requires AllDigits(s)
  {
    if s == [] then 0 else ValueOf(s[..|s| - 1]) * 10 + (s[|s| - 1] as int - '0' as int)
  }

  function Pow10(k: nat): (p: nat)
    ensures p >= 1
  {
    if k == 0 then 1 else 10 * Pow10(k - 1)
  }

  /** The code `send_email_code` draws: `randbelow(1000000)` as six digits. */
  function FormatCode(n: nat): string
    requires n < 1000000
  {
    Padded(n, 6)
  }

  lemma ModStep(n: nat, m: nat)
    requires m > 0
    ensures (n / 10 % m) * 10 + n % 10 == n % (10 * m)
  {
    var q, r := n / 10, n % 10;
    var a, b := q / m, q % m;
    assert n == 10 * q + r;
    assert q == m * a + b;
    assert n == (10 * m) * a + (10 * b + r) by {
      assert 10 * q == 10 * (m * a) + 10 * b;
      assert 10 * (m * a) == (10 * m) * a;
    }
    assert 0 <= 10 * b + r < 10 * m;
    DivModUnique(n, 10 * m, a, 10 * b + r);
  }

  lemma DivModUnique(n: nat, d: nat, a: nat, r: nat)
    requires d > 0 && n == d * a + r && r < d
    ensures n % d == r
  {
    var a', r' := n / d, n % d;
    assert d * a' + r' == d * a + r;
    if a' < a {
      MulGap(d, a', a);
    } else if a' > a {
      MulGap(d, a, a');
    }
  }

  lemma MulGap(d: nat, x: nat, y: nat)
    requires x < y
    ensures d * y >= d * x + d
  {
    var k: nat := y - x - 1;
    assert d * y == d * x + d + d * k;
    assert d * k >= 0;
  }

  /** Padding spells out `n` modulo `10^width` in exactly `width` digits. */
  lemma {:induction false} PaddedValue(n: nat, width: nat)
    ensures |Padded(n, width)| == width && AllDigits(Padded(n, width))
    ensures ValueOf(Padded(n, width)) == n % Pow10(width)
    decreases width
  {
    if width > 0 {
      var p := Padded(n / 10, width - 1);
      PaddedValue(n / 10, width - 1);
      var s := p + [Digit(n % 10)];
      assert s[..|s| - 1] == p;
      ModStep(n, Pow10(width - 1));
    }
  }

  /** Re-padding a digit string's value gives the string back. */
  lemma {:induction false} PaddedOfValue(s: string)
    requires AllDigits(s)
    ensures Padded(ValueOf(s), |s|) == s
    decreases |s|
  {
    if s != [] {
      var p := s[..|s| - 1];
      PaddedOfValue(p);
      assert s == p + [s[|s| - 1]];
    }
  }

  /** A digit string spells a number below ten to its length. */
  lemma {:induction false} ValueOfBound(s: string)
    requires AllDigits(s)
    ensures ValueOf(s) < Pow10(|s|)
    decreases |s|
  {
    if s != [] {
      ValueOfBound(s[..|s| - 1]);
    }
  }

  lemma SixDigits()
    ensures Pow10(6) == 1000000
  {
  }

  /** A generated code is exactly six decimal digits, and the six-digit strings
      are exactly the codes of the numbers below one million. */
  lemma CodeRoundTrip(n: nat, s: string)
    requires n < 1000000
    ensures |FormatCode(n)| == 6 && AllDigits(FormatCode(n)) && ValueOf(FormatCode(n)) == n
    ensures |s| == 6 && AllDigits(s) ==> ValueOf(s) < 1000000 && FormatCode(ValueOf(s)) == s
  {
    SixDigits();
    PaddedValue(n, 6);
    DivModUnique(n, Pow10(6), 0, n);
    if |s| == 6 && AllDigits(s) {
      ValueOfBound(s);
      PaddedOfValue(s);
    }
  }

  /** `send_email_code`: the code row is stored with its expiry first; then the
      code is mailed, or returned when mail is not set up but the local debug
      switch is on, and otherwise the call fails with 500 (the row stays). */
  method SendEmailCode(db: Db, cfg: Settings.Config, email: string, purpose: string, n: nat, now: Time,
                       mailConfigured: bool, debugReturn: bool)
    returns (r: Result<string>)
    requires n < 1000000
    modifies db`emailCodes
    ensures db.emailCodes ==
      old(db.emailCodes) + [EmailCode(email, purpose, FormatCode(n), now + cfg.emailCodeExpireMinutes * 60, None)]
    ensures r == if mailConfigured || debugReturn then Ok(FormatCode(n)) else Err(AppError(500, "email_not_configured"))
  {
    var code := FormatCode(n);
    db.emailCodes := db.emailCodes + [EmailCode(email, purpose, code, now + cfg.emailCodeExpireMinutes * 60, None)];
    if !mailConfigured && !debugReturn {
      return Err(AppError(500, "email_not_configured"));
    }
    r := Ok(code);
  }

  /** The `WHERE` clause of `verify_email_code`. */
  predicate CodeMatches(c: EmailCode, email: string, purpose: string, code: string) {
    c.email == email && c.purpose == purpose && c.code == code && c.usedAt.None?
  }

  /** The newest matching unused code (rows are in creation order). */
  function NewestCode(codes: seq<EmailCode>, email: string, purpose: string, code: string): (r: Option<nat>)
    ensures r.Some? ==> r.value < |codes| && CodeMatches(codes[r.value], email, purpose, code)
    ensures r.Some? ==> forall j :: r.value < j < |codes| ==> !CodeMatches(codes[j], email, purpose, code)
    ensures r.None? ==> forall j :: 0 <= j < |codes| ==> !CodeMatches(codes[j], email, purpose, code)
  {
    if codes == [] then None
    else if CodeMatches(codes[|codes| - 1], email, purpose, code) then Some(|codes| - 1)
    else NewestCode(codes[..|codes| - 1], email, purpose, code)
  }

  /** `verify_email_code` on the code table: 400 when no unused code matches or
      the newest one has expired; otherwise that code is marked used. */
  function ConsumeCode(codes: seq<EmailCode>, email: string, purpose: string, code: string, now: Time)
    : Result<seq<EmailCode>>
  {
    match NewestCode(codes, email, purpose, code)
    case None => Err(AppError(400, "invalid_code"))
    case Some(i) =>
      if codes[i].expiresAt < now then Err(AppError(400, "invalid_code"))
      else Ok(codes[i := codes[i].(usedAt := Some(now))])
  }

  /** A successful verification uses up exactly the newest matching code: it
      no longer matches, every other row is unchanged, and when it was the only
      match the same code is refused afterwards. */
  lemma ConsumeCodeSingleUse(codes: seq<EmailCode>, email: string, purpose: string, code: string,
                             now: Time, later: Time)
    requires ConsumeCode(codes, email, purpose, code, now).Ok?
    ensures var after := ConsumeCode(codes, email, purpose, code, now).value;
      var i := NewestCode(codes, email, purpose, code).value;
      && |after| == |codes| && !CodeMatches(after[i], email, purpose, code)
      && (forall j :: 0 <= j < |codes| && j != i ==> after[j] == codes[j])
      && ((forall j :: 0 <= j < |codes| && CodeMatches(codes[j], email, purpose, code) ==> j == i) ==>
            ConsumeCode(after, email, purpose, code, later) == Err(AppError(400, "invalid_code")))
  {
    var after := ConsumeCode(codes, email, purpose, code, now).value;
    var i := NewestCode(codes, email, purpose, code).value;
    if forall j :: 0 <= j < |codes| && CodeMatches(codes[j], email, purpose, code) ==> j == i {
      assert forall j :: 0 <= j < |after| ==> !CodeMatches(after[j], email, purpose, code);
    }
  }

  method VerifyEmailCode(db: Db, email: string, code: string, purpose: string, now: Time) returns (r: Result<()>)
    modifies db`emailCodes
    ensures var c := ConsumeCode(old(db.emailCodes), email, purpose, code, now);
      && (c.Err? ==> r == Err(c.error) && db.emailCodes == old(db.emailCodes))
      && (c.Ok? ==> r == Ok(()) && db.emailCodes == c.value)
  {
    var found := NewestCode(db.emailCodes, email, purpose, code);
    if found.None? || db.emailCodes[found.value].expiresAt < now {
      return Err(AppError(400, "invalid_code"));
    }
    var i := found.value;
    db.emailCodes := db.emailCodes[i := db.emailCodes[i].(usedAt := Some(now))];
    r := Ok(());
  }

  // ---- Sessions ----

  /** The session `issue_tokens` stores for a refresh token minted at `now`. */
  function NewSession(crypto: Crypto, cfg: Settings.Config, userId: Id, now: Time): Session {
    Session(userId, crypto.hashToken(crypto.refreshToken(userId, now)), now + cfg.refreshTokenDays * 86400, None)
  }

  function IssuedTokens(crypto: Crypto, userId: Id, now: Time): Tokens {
    Tokens(crypto.accessToken(userId, now), crypto.refreshToken(userId, now))
  }

  method IssueTokens(db: Db, crypto: Crypto, cfg: Settings.Config, userId: Id, now: Time) returns (t: Tokens)
    modifies db`sessions
    ensures t == IssuedTokens(crypto, userId, now)
    ensures db.sessions == old(db.sessions) + [NewSession(crypto, cfg, userId, now)]
  {
    t := IssuedTokens(crypto, userId, now);
    db.sessions := db.sessions + [NewSession(crypto, cfg, userId, now)];
  }

  /** The newest session holding a refresh-token hash. */
  function NewestSession(sessions: seq<Session>, hash: string): (r: Option<nat>)
    ensures r.Some? ==> r.value < |sessions| && sessions[r.value].refreshTokenHash == hash
    ensures r.Some? ==> forall j :: r.value < j < |sessions| ==> sessions[j].refreshTokenHash != hash
    ensures r.None? ==> forall j :: 0 <= j < |sessions| ==> sessions[j].refreshTokenHash != hash
  {
    if sessions == [] then None
    else if sessions[|sessions| - 1].refreshTokenHash == hash then Some(|sessions| - 1)
    else NewestSession(sessions[..|sessions| - 1], hash)
  }

  /** The checks of `refresh_access_token`: the token must be a refresh token
      and its newest session must exist and not be revoked; the result is that
      session's user. */
  function RefreshCheck(sessions: seq<Session>, tokenType: Option<string>, hash: string): (r: Result<Id>)
    ensures r.Err? ==> r.error == AppError(401, "invalid_refresh")
    ensures r.Ok? ==> tokenType == Some("refresh") && NewestSession(sessions, hash).Some?
  {
    if tokenType != Some("refresh") then Err(AppError(401, "invalid_refresh"))
    else match NewestSession(sessions, hash)
      case None => Err(AppError(401, "invalid_refresh"))
      case Some(i) =>
        if sessions[i].revokedAt.Some? then Err(AppError(401, "invalid_refresh")) else Ok(sessions[i].userId)
  }

  /** `refresh_access_token`: a new session for the token's user; the old
      session is left as it is. */
  method RefreshAccessToken(db: Db, crypto: Crypto, cfg: Settings.Config, token: string, now: Time)
    returns (r: Result<Tokens>)
    modifies db`sessions
    ensures var chk := RefreshCheck(old(db.sessions), crypto.tokenType(token), crypto.hashToken(token));
      && (chk.Err? ==> r == Err(chk.error) && db.sessions == old(db.sessions))
      && (chk.Ok? ==> r == Ok(IssuedTokens(crypto, chk.value, now))
                      && db.sessions == old(db.sessions) + [NewSession(crypto, cfg, chk.value, now)])
  {
    var chk := RefreshCheck(db.sessions, crypto.tokenType(token), crypto.hashToken(token));
    if chk.Err? {
      return Err(chk.error);
    }
    var t := IssueTokens(db, crypto, cfg, chk.value, now);
    r := Ok(t);
  }

  /** Refreshing does not revoke the token used: unless the new token hashes
      alike, the old one still refreshes afterwards. */
  lemma OldTokenStillValid(sessions: seq<Session>, crypto: Crypto, cfg: Settings.Config, token: string, now: Time)
    requires RefreshCheck(sessions, crypto.tokenType(token), crypto.hashToken(token)).Ok?
    requires NewSession(crypto, cfg, RefreshCheck(sessions, crypto.tokenType(token), crypto.hashToken(token)).value,
                        now).refreshTokenHash != crypto.hashToken(token)
    ensures var after := sessions + [NewSession(crypto, cfg,
              RefreshCheck(sessions, crypto.tokenType(token), crypto.hashToken(token)).value, now)];
      RefreshCheck(after, crypto.tokenType(token), crypto.hashToken(token)).Ok?
  {
    var hash := crypto.hashToken(token);
    var after := sessions + [NewSession(crypto, cfg, RefreshCheck(sessions, crypto.tokenType(token), hash).value, now)];
    var i := NewestSession(sessions, hash).value;
    var k := NewestSession(after, hash).value;
    assert after[i] == sessions[i];
  }

  /** Every session of the user, revoked at `now`; the others unchanged. */
  function RevokeAll(sessions: seq<Session>, userId: Id, now: Time): (r: seq<Session>)
    ensures |r| == |sessions|
    ensures forall i :: 0 <= i < |r| ==>
      r[i] == if sessions[i].userId == userId then sessions[i].(revokedAt := Some(now)) else sessions[i]
  {
    seq(|sessions|, i requires 0 <= i < |sessions| =>
      if sessions[i].userId == userId then sessions[i].(revokedAt := Some(now)) else sessions[i])
  }

  /** `revoke_user_sessions`: the loop over the user's sessions. */
  method RevokeUserSessions(db: Db, userId: Id, now: Time)
    modifies db`sessions
    ensures db.sessions == RevokeAll(old(db.sessions), userId, now)
  {
    var i := 0;
    while i < |db.sessions|
      invariant 0 <= i <= |db.sessions| == |old(db.sessions)|
      invariant forall j :: 0 <= j < i ==> db.sessions[j] == RevokeAll(old(db.sessions), userId, now)[j]
      invariant forall j :: i <= j < |db.sessions| ==> db.sessions[j] == old(db.sessions)[j]
    {
      if db.sessions[i].userId == userId {
        db.sessions := db.sessions[i := db.sessions[i].(revokedAt := Some(now))];
      }
      i := i + 1;
    }
  }

  /** After the user's sessions are revoked, none of their refresh tokens
      refreshes any more, and other users' tokens are unaffected. */
  lemma RevokedCannotRefresh(sessions: seq<Session>, userId: Id, now: Time, tokenType: Option<string>, hash: string)
    ensures var before := RefreshCheck(sessions, tokenType, hash);
      var after := RefreshCheck(RevokeAll(sessions, userId, now), tokenType, hash);
      && (before.Ok? && before.value == userId ==> after.Err?)
      && (before.Ok? && before.value != userId ==> after == before)
  {
    var revoked := RevokeAll(sessions, userId, now);
    var a, b := NewestSession(sessions, hash), NewestSession(revoked, hash);
    assert a.Some? <==> b.Some?;
    if a.Some? {
      assert revoked[a.value].refreshTokenHash == hash;
      assert sessions[b.value].refreshTokenHash == hash;
      assert a.value == b.value;
    }
  }

  // ---- Accounts ----

  predicate EmailTaken(users: map<Id, User>, email: string) {
    exists id :: id in users && users[id].email == email
  }

  /** `register_user`: the code is verified and used up first, so an address
      that is already registered (409) still costs the code; otherwise a user
      with a hashed password and a profile are created and signed in. */
  method RegisterUser(db: Db, crypto: Crypto, cfg: Settings.Config, email: string, password: string,
                      displayName: string, code: string, now: Time, userId: Id)
    returns (r: Result<Tokens>)
    requires userId !in db.users && userId !in db.profiles && EmailsUnique(db.users)
    modifies db`emailCodes, db`users, db`profiles, db`sessions
    ensures EmailsUnique(db.users)
    ensures var c := ConsumeCode(old(db.emailCodes), email, "register", code, now);
      && (c.Err? ==> r == Err(c.error) && db.emailCodes == old(db.emailCodes))
      && (c.Ok? ==> db.emailCodes == c.value)
      && (c.Ok? && EmailTaken(old(db.users), email) ==> r == Err(AppError(409, "email_exists")))
      && (c.Ok? && !EmailTaken(old(db.users), email) ==>
            && r == Ok(IssuedTokens(crypto, userId, now))
            && db.users == old(db.users)[userId := NewUser(email, crypto.hashPassword(password))]
            && db.profiles == old(db.profiles)[userId := NewProfile(displayName)]
            && db.sessions == old(db.sessions) + [NewSession(crypto, cfg, userId, now)])
    ensures r.Err? ==> db.users == old(db.users) && db.profiles == old(db.profiles) && db.sessions == old(db.sessions)
  {
    var v := VerifyEmailCode(db, email, code, "register", now);
    if v.Err? {
      return Err(v.error);
    }
    if exists id :: id in db.users && db.users[id].email == email {
      return Err(AppError(409, "email_exists"));
    }
    db.users := db.users[userId := NewUser(email, crypto.hashPassword(password))];
    db.profiles := db.profiles[userId := NewProfile(displayName)];
    var t := IssueTokens(db, crypto, cfg, userId, now);
    r := Ok(t);
  }

  /** `authenticate_user`: 401 for an unknown address or a wrong password,
      403 for a banned user with the right one, otherwise a new session. */
  method AuthenticateUser(db: Db, crypto: Crypto, cfg: Settings.Config, email: string, password: string, now: Time)
    returns (r: Result<Tokens>)
    requires EmailsUnique(db.users)
    modifies db`sessions
    ensures !EmailTaken(db.users, email) ==> r == Err(AppError(401, "invalid_credentials"))
    ensures forall id :: id in db.users && db.users[id].email == email ==>
      var u := db.users[id];
      && (!crypto.verifyPassword(password, u.passwordHash) ==> r == Err(AppError(401, "invalid_credentials")))
      && (crypto.verifyPassword(password, u.passwordHash) && u.status == "banned" ==>
            r == Err(AppError(403, "user_banned")))
      && (crypto.verifyPassword(password, u.passwordHash) && u.status != "banned" ==>
            r == Ok(IssuedTokens(crypto, id, now)) && db.sessions == old(db.sessions) + [NewSession(crypto, cfg, id, now)])
    ensures r.Err? ==> db.sessions == old(db.sessions)
  {
    if !exists id :: id in db.users && db.users[id].email == email {
      return Err(AppError(401, "invalid_credentials"));
    }
    var id :| id in db.users && db.users[id].email == email;
    var u := db.users[id];
    if !crypto.verifyPassword(password, u.passwordHash) {
      return Err(AppError(401, "invalid_credentials"));
    }
    if u.status == "banned" {
      return Err(AppError(403, "user_banned"));
    }
    var t := IssueTokens(db, crypto, cfg, id, now);
    r := Ok(t);
  }

  /** The dedupe key of `password_changed`: one notification per user per day. */
  function PasswordChangedKey(userId: Id, today: string): string {
    "password_changed:" + userId + ":" + today
  }

  /** What both reset paths do once the caller is known: a new hash, every
      session revoked, and a `password_changed` notification. */
  method ChangePassword(db: Db, crypto: Crypto, userId: Id, newPassword: string, via: string, now: Time,
                        today: string, nid: Id)
    requires userId in db.users
    requires NotificationsConsistent(db.notifications) && NotificationService.IdFresh(db.notifications, nid)
    modifies db`users, db`sessions, db`notifications
    ensures NotificationsConsistent(db.notifications)
    ensures db.users == old(db.users)[userId := old(db.users[userId]).(passwordHash := crypto.hashPassword(newPassword))]
    ensures db.sessions == RevokeAll(old(db.sessions), userId, now)
    ensures db.notifications == NotificationService.Create(old(db.notifications), userId, "password_changed",
      Some(map["method" := JStr(via)]), Some(PasswordChangedKey(userId, today)), nid).1
  {
    db.users := db.users[userId := db.users[userId].(passwordHash := crypto.hashPassword(newPassword))];
    RevokeUserSessions(db, userId, now);
    var _ := NotificationService.CreateNotification(db, userId, "password_changed", Some(map["method" := JStr(via)]),
                                                    Some(PasswordChangedKey(userId, today)), nid);
  }

  /** `reset_password`: 401 unless the user exists and the current password
      verifies. */
  method ResetPassword(db: Db, crypto: Crypto, userId: Id, current: string, newPassword: string, now: Time,
                       today: string, nid: Id)
    returns (r: Result<()>)
    requires NotificationsConsistent(db.notifications) && NotificationService.IdFresh(db.notifications, nid)
    modifies db`users, db`sessions, db`notifications
    ensures NotificationsConsistent(db.notifications)
    ensures r.Err? <==>
      userId !in old(db.users) || !crypto.verifyPassword(current, old(db.users[userId]).passwordHash)
    ensures r.Err? ==>
      && r.error == AppError(401, "invalid_credentials")
      && db.users == old(db.users) && db.sessions == old(db.sessions) && db.notifications == old(db.notifications)
    ensures r.Ok? ==>
      && db.users == old(db.users)[userId := old(db.users[userId]).(passwordHash := crypto.hashPassword(newPassword))]
      && db.sessions == RevokeAll(old(db.sessions), userId, now)
      && db.notifications == NotificationService.Create(old(db.notifications), userId, "password_changed",
           Some(map["method" := JStr("current_password")]), Some(PasswordChangedKey(userId, today)), nid).1
  {
    if userId !in db.users || !crypto.verifyPassword(current, db.users[userId].passwordHash) {
      return Err(AppError(401, "invalid_credentials"));
    }
    ChangePassword(db, crypto, userId, newPassword, "current_password", now, today, nid);
    r := Ok(());
  }

  /** `reset_password_with_code`: the `reset` code is used up first, so an
      unknown address (404) still costs it. */
  method ResetPasswordWithCode(db: Db, crypto: Crypto, email: string, code: string, newPassword: string, now: Time,
                               today: string, nid: Id)
    returns (r: Result<()>)
    requires EmailsUnique(db.users)
    requires NotificationsConsistent(db.notifications) && NotificationService.IdFresh(db.notifications, nid)
    modifies db`emailCodes, db`users, db`sessions, db`notifications
    ensures NotificationsConsistent(db.notifications)
    ensures var c := ConsumeCode(old(db.emailCodes), email, "reset", code, now);
      && (c.Err? ==> r == Err(c.error) && db.emailCodes == old(db.emailCodes))
      && (c.Ok? ==> db.emailCodes == c.value)
      && (c.Ok? && !EmailTaken(old(db.users), email) ==> r == Err(AppError(404, "user_not_found")))
      && (c.Ok? ==> forall id :: id in old(db.users) && old(db.users[id]).email == email ==>
            && r.Ok?
            && db.users == old(db.users)[id := old(db.users[id]).(passwordHash := crypto.hashPassword(newPassword))]
            && db.sessions == RevokeAll(old(db.sessions), id, now)
            && db.notifications == NotificationService.Create(old(db.notifications), id, "password_changed",
                 Some(map["method" := JStr("email_code")]), Some(PasswordChangedKey(id, today)), nid).1)
    ensures r.Err? ==>
      db.users == old(db.users) && db.sessions == old(db.sessions) && db.notifications == old(db.notifications)
  {
    var v := VerifyEmailCode(db, email, code, "reset", now);
    if v.Err? {
      return Err(v.error);
    }
    if !exists id :: id in db.users && db.users[id].email == email {
      return Err(AppError(404, "user_not_found"));
    }
    var id :| id in db.users && db.users[id].email == email;
    ChangePassword(db, crypto, id, newPassword, "email_code", now, today, nid);
    r := Ok(());
  }

  // ---- Root account ----

  /** Both root settings are present and non-empty. */
  predicate RootConfigured(cfg: Settings.Config) {
    && cfg.rootAccount.Some? && cfg.rootAccount.value != ""
    && cfg.rootPassword.Some? && cfg.rootPassword.value != ""
  }

  predicate AdminWithEmail(users: map<Id, User>, email: string) {
    exists id :: id in users && users[id].email == email && users[id].role == "admin"
  }

  /** `ensure_root_admin`: nothing without root settings; otherwise the root
      address is an admin account afterwards: created (with a "Root Admin"
      profile) when missing, promoted when it exists with another role (its
      password untouched), and left alone when already an admin, so running it
      again changes nothing. */
  method EnsureRootAdmin(db: Db, crypto: Crypto, cfg: Settings.Config, newId: Id)
    requires EmailsUnique(db.users) && newId !in db.users && newId !in db.profiles
    modifies db`users, db`profiles
    ensures EmailsUnique(db.users)
    ensures !RootConfigured(cfg) ==> db.users == old(db.users) && db.profiles == old(db.profiles)
    ensures RootConfigured(cfg) ==> AdminWithEmail(db.users, cfg.rootAccount.value)
    ensures RootConfigured(cfg) && AdminWithEmail(old(db.users), cfg.rootAccount.value) ==>
      db.users == old(db.users) && db.profiles == old(db.profiles)
    ensures RootConfigured(cfg) && !EmailTaken(old(db.users), cfg.rootAccount.value) ==>
      && db.users == old(db.users)[newId := User(cfg.rootAccount.value, crypto.hashPassword(cfg.rootPassword.value),
                                                 "admin", "active")]
      && db.profiles == old(db.profiles)[newId := NewProfile("Root Admin")]
    ensures forall id :: id in old(db.users) ==>
      id in db.users && db.users[id] == old(db.users[id]).(role := db.users[id].role)
    ensures forall id :: id in old(db.users) && !(RootConfigured(cfg) && old(db.users[id]).email == cfg.rootAccount.value) ==>
      db.users[id] == old(db.users[id])
  {
    if !RootConfigured(cfg) {
      return;
    }
    var email := cfg.rootAccount.value;
    if !exists id :: id in db.users && db.users[id].email == email {
      db.users := db.users[newId := User(email, crypto.hashPassword(cfg.rootPassword.value), "admin", "active")];
      db.profiles := db.profiles[newId := NewProfile("Root Admin")];
      assert db.users[newId].email == email;
      return;
    }
    var id :| id in db.users && db.users[id].email == email;
    if db.users[id].role != "admin" {
      db.users := db.users[id := db.users[id].(role := "admin")];
    }
    assert db.users[id].email == email && db.users[id].role == "admin";
  }
}
