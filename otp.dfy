/** Second step of the one-time-code login, by e-mail (`verify_otp`) or by
    SMS (`verify_phone_otp`): the two routes differ only in the field that
    finds the user. */
module Otp {
  import opened Models

  /** Which login the code was sent by. */
  datatype Channel = ByEmail | ByPhone

  /** The field that identifies the user on that channel. */
  function KeyOf(u: User, ch: Channel): string
    reads u
  {
    match ch
    case ByEmail => u.email
    case ByPhone => u.phone
  }

  /** `User.query.filter_by(...).first()`: the position of the first user whose
      key is `key`, or None. */
  function FindUser(users: seq<User>, ch: Channel, key: string): (r: Option<nat>)
    reads users
    ensures r.Some? ==> r.value < |users| && KeyOf(users[r.value], ch) == key
    ensures r.Some? ==> forall j :: 0 <= j < r.value ==> KeyOf(users[j], ch) != key
    ensures r.None? ==> forall j :: 0 <= j < |users| ==> KeyOf(users[j], ch) != key
    decreases |users|
  {
    if users == [] then None
    else if KeyOf(users[0], ch) == key then Some(0)
    else
      match FindUser(users[1..], ch, key)
      case None => None
      case Some(k) => Some(k + 1)
  }

  datatype Verdict = Accepted | InvalidCode | ExpiredCode

  /** The code check: the stored code must equal the submitted one, and then
      the expiry must be set and strictly later than now. A code is accepted
      exactly when it matches and has not yet expired. */
  function CheckOtp(stored: Option<string>, expiry: Option<int>, submitted: string, now: int): (v: Verdict)
    ensures v == Accepted <==> stored == Some(submitted) && expiry.Some? && now < expiry.value
    ensures v == ExpiredCode <==> stored == Some(submitted) && (expiry.None? || expiry.value <= now)
    ensures v == InvalidCode <==> stored != Some(submitted)
  {
    if stored != Some(submitted) then InvalidCode
    else if expiry.None? || expiry.value <= now then ExpiredCode
    else Accepted
  }

  /** Once cleared, no code is accepted again: the code is single use. */
  lemma ClearedCodeRejected(submitted: string, now: int)
    ensures CheckOtp(None, None, submitted, now) == InvalidCode
  {
  }

  /** An accepted code is rejected as expired from its expiry time on. */
  lemma AcceptedUntilExpiry(stored: Option<string>, expiry: Option<int>, submitted: string, now: int, later: int)
    requires CheckOtp(stored, expiry, submitted, now) == Accepted
    requires later >= expiry.value
    ensures CheckOtp(stored, expiry, submitted, later) == ExpiredCode
  {
  }

  datatype OtpOutcome =
    | AlreadyLoggedIn     // redirect home
    | MissingKey          // no e-mail (or phone) in the query string
    | UnknownUser
    | FormShown           // GET, or a form that does not validate
    | Rejected(v: Verdict)
    | LoggedIn(user: nat) // the position of the user now logged in

  /** Every field but the code and its expiry keeps its value. */
  twostate predicate OnlyOtpChanged(u: User)
    reads u
  {
    && u.name == old(u.name) && u.email == old(u.email) && u.phone == old(u.phone)
    && u.role == old(u.role) && u.restaurant == old(u.restaurant)
    && u.points == old(u.points) && u.tier == old(u.tier)
  }

  /** `verify_otp` / `verify_phone_otp`. `key` is the query-string value ("" when
      absent), `submitted` the validated code (None for a GET or an invalid
      form) and `now` the current UTC time. */
  method VerifyCode(ch: Channel, loggedIn: bool, key: string, users: seq<User>,
                    submitted: Option<string>, now: int)
    returns (o: OtpOutcome)
    modifies users
    ensures loggedIn ==> o == AlreadyLoggedIn
    ensures !loggedIn && key == "" ==> o == MissingKey
    ensures !loggedIn && key != "" && old(FindUser(users, ch, key)).None? ==> o == UnknownUser
    ensures !loggedIn && key != "" && old(FindUser(users, ch, key)).Some? ==>
      var k := old(FindUser(users, ch, key)).value;
      && (submitted.None? ==> o == FormShown)
      && (submitted.Some? ==>
            var v := CheckOtp(old(users[k].otpCode), old(users[k].otpExpiry), submitted.value, now);
            o == (if v == Accepted then LoggedIn(k) else Rejected(v)))
    ensures o.LoggedIn? ==>
      && o.user < |users|
      && users[o.user].otpCode == None && users[o.user].otpExpiry == None
      && OnlyOtpChanged(users[o.user])
      && forall u :: u in users && u != users[o.user] ==> unchanged(u)
    ensures !o.LoggedIn? ==> forall u :: u in users ==> unchanged(u)
  {
    if loggedIn {
      return AlreadyLoggedIn;
    }
    if key == "" {
      return MissingKey;
    }
    var found := FindUser(users, ch, key);
    if found.None? {
      return UnknownUser;
    }
    var user := users[found.value];
    if submitted.None? {
      return FormShown;
    }
    if user.otpCode == Some(submitted.value) {
      if user.otpExpiry.Some? && user.otpExpiry.value > now {
        user.otpCode := None;
        user.otpExpiry := None;
        o := LoggedIn(found.value);
      } else {
        o := Rejected(ExpiredCode);
      }
    } else {
      o := Rejected(InvalidCode);
    }
  }
}
