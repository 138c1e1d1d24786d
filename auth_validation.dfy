/** The simulated user table behind sign-up and sign-in, with its lockout rule:
    five failed attempts lock an account for fifteen minutes from the last one. */
module AuthValidation {
  import opened Common
  import AuthSchema

  const MaxFailedAttempts := 5
  /** Fifteen minutes, in milliseconds. */
  const LockoutDuration := 15 * 60 * 1000

  const AdminEmail := "admin@eventhub.com"

  datatype UserRecord = UserRecord(
    id: string,
    name: string,
    email: string,
    phone: string,
    password: string,
    isAdmin: bool,
    failedAttempts: int,
    lastAttempt: Time)

  datatype UserInfo = UserInfo(id: string, name: string, email: string, phone: Option<string>, isAdmin: bool)

  datatype AuthResponse = AuthResponse(success: bool, message: string, token: Option<string>, user: Option<UserInfo>)

  function Failure(message: string): AuthResponse {
    AuthResponse(false, message, None, None)
  }

  /** The lockout rule on one record at time now. */
  predicate Locked(u: UserRecord, now: Time) {
    u.failedAttempts >= MaxFailedAttempts && now - u.lastAttempt < LockoutDuration
  }

  /** `incrementFailedAttempts` on the record. */
  function AfterFailure(u: UserRecord, now: Time): UserRecord {
    u.(failedAttempts := u.failedAttempts + 1, lastAttempt := now)
  }

  /** `resetFailedAttempts` on the record. */
  function AfterSuccess(u: UserRecord, now: Time): UserRecord {
    u.(failedAttempts := 0, lastAttempt := now)
  }

  /** The record after failed attempts at the given times, in order. */
  function AfterFailures(u: UserRecord, times: seq<Time>): UserRecord
    decreases |times|
  {
    if times == [] then u else AfterFailures(AfterFailure(u, times[0]), times[1..])
  }

  /** After a run of failures the record counts them all and is stamped with the
      last one's time. */
  lemma {:induction false} AfterFailuresSpec(u: UserRecord, times: seq<Time>)
    requires times != []
    ensures AfterFailures(u, times).failedAttempts == u.failedAttempts + |times|
    ensures AfterFailures(u, times).lastAttempt == times[|times| - 1]
    ensures AfterFailures(u, times).password == u.password
    decreases |times|
  {
    if |times| > 1 {
      AfterFailuresSpec(AfterFailure(u, times[0]), times[1..]);
    }
  }

  /** Five failures from a clean record lock the account for fifteen minutes
      after the last one, and no longer. */
  lemma FiveFailuresLock(u: UserRecord, times: seq<Time>, now: Time)
    requires u.failedAttempts == 0 && |times| == 5
    ensures Locked(AfterFailures(u, times), now) <==> now - times[4] < LockoutDuration
  {
    AfterFailuresSpec(u, times);
  }

  /** Four failures never lock an account that started clean. */
  lemma FourFailuresDoNotLock(u: UserRecord, times: seq<Time>, now: Time)
    requires u.failedAttempts == 0 && |times| == 4
    ensures !Locked(AfterFailures(u, times), now)
  {
    AfterFailuresSpec(u, times);
  }

  /** The reply to a wrong password, given the count after the increment. */
  function WrongPasswordMessage(failedAttempts: int): string {
    var remaining := MaxFailedAttempts - failedAttempts;
    if remaining <= 0 then "Account locked. Please try again later."
    else "Invalid password. " + NatToString(remaining) + " attempts remaining."
  }

  /** A wrong password answers "Account locked" exactly when the failure it
      records locks the account. */
  lemma LockedReplyMatchesLock(u: UserRecord, now: Time)
    ensures WrongPasswordMessage(u.failedAttempts + 1) == "Account locked. Please try again later."
      <==> Locked(AfterFailure(u, now), now)
  {
    var m := WrongPasswordMessage(u.failedAttempts + 1);
    if u.failedAttempts + 1 < MaxFailedAttempts {
      assert m[0] == 'I';
    }
  }

  class UserTable {
    var users: map<string, UserRecord>

    /** The table seeded with the administrator account at time now. */
    constructor(now: Time)
      ensures users == map[AdminEmail := UserRecord("admin-1", "Admin", AdminEmail, "1234567890", "Admin@123", true, 0, now)]
      ensures OnlySeedIsAdmin()
    {
      users := map[AdminEmail := UserRecord("admin-1", "Admin", AdminEmail, "1234567890", "Admin@123", true, 0, now)];
    }

    /** Only the seeded account is an administrator. */
    predicate OnlySeedIsAdmin()
      reads this
    {
      forall e :: e in users && users[e].isAdmin ==> e == AdminEmail
    }

    /** `isUserLocked(email)` at time now: false for an unknown e-mail. */
    predicate IsUserLocked(email: string, now: Time)
      reads this
    {
      email in users && Locked(users[email], now)
    }

    /** `register(data)` at time now, with the new id and token supplied. */
    method Register(data: AuthSchema.AuthForm, userId: string, token: string, now: Time) returns (r: AuthResponse)
      modifies this
      ensures data.email in old(users) ==>
        r == Failure("Email already registered") && users == old(users)
      ensures data.email !in old(users) ==>
        && users == old(users)[data.email := UserRecord(userId, data.name.GetOr(""), data.email,
                                                        data.phone.GetOr(""), data.password, false, 0, now)]
        && r == AuthResponse(true, "Registration successful", Some(token),
                             Some(UserInfo(userId, data.name.GetOr(""), data.email, data.phone, false)))
      ensures old(OnlySeedIsAdmin()) ==> OnlySeedIsAdmin()
    {
      if data.email in users {
        return Failure("Email already registered");
      }
      users := users[data.email := UserRecord(userId, data.name.GetOr(""), data.email,
                                              data.phone.GetOr(""), data.password, false, 0, now)];
      r := AuthResponse(true, "Registration successful", Some(token),
                        Some(UserInfo(userId, data.name.GetOr(""), data.email, data.phone, false)));
    }

    /** `login(email, password)` at time now, with the token supplied. A locked
        account is refused before its password is looked at; an unknown e-mail
        is refused; a wrong password counts a failure and reports the attempts
        left, read from the updated record; a right one clears the count. */
    method Login(email: string, password: string, token: string, now: Time) returns (r: AuthResponse)
      modifies this
      ensures old(IsUserLocked(email, now)) ==>
        r == Failure("Account temporarily locked. Please try again later.") && users == old(users)
      ensures email !in old(users) ==>
        r == Failure("Invalid email or password") && users == old(users)
      ensures email in old(users) && !old(IsUserLocked(email, now)) && old(users)[email].password != password ==>
        && users == old(users)[email := AfterFailure(old(users)[email], now)]
        && r == Failure(WrongPasswordMessage(old(users)[email].failedAttempts + 1))
      ensures email in old(users) && !old(IsUserLocked(email, now)) && old(users)[email].password == password ==>
        var u := old(users)[email];
        && users == old(users)[email := AfterSuccess(u, now)]
        && r == AuthResponse(true, "Login successful", Some(token),
                             Some(UserInfo(u.id, u.name, u.email, Some(u.phone), u.isAdmin)))
      ensures r.success <==> email in old(users) && !old(IsUserLocked(email, now)) && old(users)[email].password == password
      ensures old(OnlySeedIsAdmin()) ==> OnlySeedIsAdmin()
    {
      if IsUserLocked(email, now) {
        return Failure("Account temporarily locked. Please try again later.");
      }
      if email !in users {
        return Failure("Invalid email or password");
      }
      var user := users[email];
      if user.password != password {
        users := users[email := AfterFailure(user, now)];
        return Failure(WrongPasswordMessage(users[email].failedAttempts));
      }
      users := users[email := AfterSuccess(user, now)];
      r := AuthResponse(true, "Login successful", Some(token),
                        Some(UserInfo(user.id, user.name, user.email, Some(user.phone), user.isAdmin)));
    }
  }
}
