/** `UserServiceImpl`: the phone and verification-code gate of `sendCode`/`login`, the monthly
    sign-in bitmap written by `sign`, and the streak that `signCount` reads back from it. */
module UserService {
  import opened Wrappers
  import opened Text
  import opened Clock
  import opened RedisStore
  import opened RedisClient
  import opened RedisConstants

  /** A controller reply: `Result.ok(...)` with an optional payload, or `Result.fail(message)`. */
  datatype Reply = Succeeded(count: Option<int>) | Refused(message: string)

  /** Where `login` stands after its checks: refused, or on to the user lookup and token issue. */
  datatype LoginGate = Rejected(message: string) | Admitted

  const INVALID_PHONE := "invalid phone number"
  const WRONG_CODE := "wrong verification code"

  function CodeKey(phone: string): string
  {
    LOGIN_CODE_KEY + phone
  }

  // ------------------------------------------------------------------ sendCode / login

  /** `sendCode` with `RegexUtils.isPhoneInvalid(phone)` as `phoneInvalid` and the random six digits as
      `code`: an invalid phone is refused before the store is touched; otherwise the code is kept for
      LOGIN_CODE_TTL minutes. */
  function SendCode(s: Store, phone: string, phoneInvalid: bool, code: string): (Reply, Store)
  {
    if phoneInvalid then (Refused(INVALID_PHONE), s)
    else (Succeeded(None), RedisStore.Set(s, CodeKey(phone), Raw(code), Seconds(Minutes(LOGIN_CODE_TTL))))
  }

  method SendCodeAt(redis: Redis, phone: string, phoneInvalid: bool, code: string) returns (reply: Reply)
    modifies redis
    ensures (reply, redis.State()) == SendCode(old(redis.State()), phone, phoneInvalid, code)
  {
    if phoneInvalid {
      return Refused(INVALID_PHONE);
    }
    redis.Set(CodeKey(phone), Raw(code), Seconds(Minutes(LOGIN_CODE_TTL)));
    reply := Succeeded(None);
  }

  /** The checks of `login`; `code` is the submitted code, `None` when the form has none. */
  function Login(s: Store, phone: string, phoneInvalid: bool, code: Option<string>): LoginGate
  {
    if phoneInvalid then Rejected(INVALID_PHONE)
    else
      var cached := Get(s, CodeKey(phone));
      if cached.None? || code.None? || cached.value != Raw(code.value) then Rejected(WRONG_CODE)
      else Admitted
  }

  method LoginAt(redis: Redis, phone: string, phoneInvalid: bool, code: Option<string>) returns (gate: LoginGate)
    ensures gate == Login(redis.State(), phone, phoneInvalid, code)
  {
    if phoneInvalid {
      return Rejected(INVALID_PHONE);
    }
    var cached := redis.Get(CodeKey(phone));
    if cached.None? || code.None? || cached.value != Raw(code.value) {
      return Rejected(WRONG_CODE);
    }
    gate := Admitted;
  }

  /** An invalid phone is refused by both, whatever the store holds, and `sendCode` writes nothing. */
  lemma InvalidPhoneRejected(s: Store, phone: string, code: string, submitted: Option<string>)
    ensures SendCode(s, phone, true, code) == (Refused(INVALID_PHONE), s)
    ensures Login(s, phone, true, submitted) == Rejected(INVALID_PHONE)
  {
  }

  /** A valid phone is admitted exactly when its stored code is present and equals the submitted one. */
  lemma LoginAdmitsIffCodeMatches(s: Store, phone: string, code: Option<string>)
    ensures Login(s, phone, false, code) == Admitted
        <==> code.Some? && Get(s, CodeKey(phone)) == Some(Raw(code.value))
  {
  }

  /** After a code is sent to a valid phone, login with that code passes the gate and with any
      other code fails. */
  lemma SendThenLogin(s: Store, phone: string, code: string, submitted: string)
    ensures var s1 := SendCode(s, phone, false, code).1;
      Login(s1, phone, false, Some(submitted)) == (if submitted == code then Admitted else Rejected(WRONG_CODE))
  {
  }

  // ------------------------------------------------------------------ sign / signCount

  /** `USER_SIGN_KEY + userId + yyyy/MM`. */
  function SignKey(userId: int, now: DateTime): string
    requires Valid(now)
  {
    USER_SIGN_KEY + IntToString(userId) + MonthStamp(now)
  }

  /** Two sign-in keys coincide exactly for the same user in the same month of the same year. */
  lemma SignKeyInjective(u1: int, t1: DateTime, u2: int, t2: DateTime)
    requires Valid(t1) && Valid(t2)
    ensures SignKey(u1, t1) == SignKey(u2, t2) <==> u1 == u2 && t1.year == t2.year && t1.month == t2.month
  {
    MonthStampInjective(t1, t2);
    if SignKey(u1, t1) == SignKey(u2, t2) {
      var p1, p2 := USER_SIGN_KEY + IntToString(u1), USER_SIGN_KEY + IntToString(u2);
      var k := SignKey(u1, t1);
      assert k == p1 + MonthStamp(t1) && k == p2 + MonthStamp(t2);
      assert |p1| == |p2|;
      assert p1 == k[..|p1|] == p2;
      assert MonthStamp(t1) == k[|p1|..] == MonthStamp(t2);
      NumberedKeyInjective(USER_SIGN_KEY, u1, u2);
    }
  }

  /** `sign`: bit `dayOfMonth - 1` of the month's key. */
  function Sign(s: Store, userId: int, now: DateTime): Store
    requires Valid(now)
  {
    SetBit(s, SignKey(userId, now), now.day - 1)
  }

  method SignAt(redis: Redis, userId: int, now: DateTime) returns (reply: Reply)
    requires Valid(now)
    modifies redis
    ensures reply == Succeeded(None)
    ensures redis.State() == Sign(old(redis.State()), userId, now)
  {
    var key := SignKey(userId, now);
    redis.SetBitOn(key, now.day - 1);
    reply := Succeeded(None);
  }

  /** Signing sets exactly today's bit of this month's key, leaves every other bitmap alone, and a
      second sign-in the same day changes nothing. */
  lemma SignSetsOneBit(s: Store, userId: int, now: DateTime)
    requires Valid(now)
    ensures var s1 := Sign(s, userId, now);
      && Bits(s1, SignKey(userId, now)) == Bits(s, SignKey(userId, now)) + {now.day - 1}
      && (forall k :: k != SignKey(userId, now) ==> Bits(s1, k) == Bits(s, k))
      && s1.strings == s.strings && s1.counters == s.counters
      && Sign(s1, userId, now) == s1
  {
    var key := SignKey(userId, now);
    var s1 := Sign(s, userId, now);
    assert Bits(s1, key) + {now.day - 1} == Bits(s1, key);
  }

  /** The number of consecutive 1 bits from the least significant one. */
  function TrailingOnes(n: nat): nat
  {
    if n % 2 == 1 then 1 + TrailingOnes(n / 2) else 0
  }

  /** Consecutive signed days ending at day `d` (offsets `d - 1`, `d - 2`, ...). */
  function Streak(bits: set<nat>, d: nat): (n: nat)
    ensures n <= d
  {
    if d > 0 && d - 1 in bits then 1 + Streak(bits, d - 1) else 0
  }

  /** Reading days 1 .. d as an unsigned field puts today in the lowest bit, so the trailing ones
      of that number are exactly the streak ending today. */
  lemma {:induction false} TrailingOnesIsStreak(bits: set<nat>, d: nat)
    ensures TrailingOnes(BitsValue(bits, d)) == Streak(bits, d)
  {
    if d > 0 {
      var v := BitsValue(bits, d);
      var low := if d - 1 in bits then 1 else 0;
      assert v == 2 * BitsValue(bits, d - 1) + low;
      assert v % 2 == low && v / 2 == BitsValue(bits, d - 1);
      if low == 1 {
        TrailingOnesIsStreak(bits, d - 1);
      }
    }
  }

  /** The shift-and-test loop of `signCount` on the field `num`. */
  method CountTrailingOnes(num: nat) returns (count: nat)
    ensures count == TrailingOnes(num)
  {
    var n := num;
    count := 0;
    while n % 2 == 1
      invariant count + TrailingOnes(n) == TrailingOnes(num)
      decreases n
    {
      count := count + 1;
      n := n / 2;
    }
  }

  /** `signCount`: the streak of consecutive days signed, ending today. */
  function SignCount(s: Store, userId: int, now: DateTime): Reply
    requires Valid(now)
  {
    var result := BitFieldGet(s, SignKey(userId, now), now.day);
    if result == [] then Succeeded(None)
    else if result[0] == 0 then Succeeded(Some(0))
    else Succeeded(Some(TrailingOnes(result[0])))
  }

  method SignCountAt(redis: Redis, userId: int, now: DateTime) returns (reply: Reply)
    requires Valid(now)
    ensures reply == SignCount(redis.State(), userId, now)
  {
    var key := SignKey(userId, now);
    var result := redis.BitField(key, now.day);
    if result == [] {
      return Succeeded(None);
    }
    var num := result[0];
    if num == 0 {
      return Succeeded(Some(0));
    }
    var count := CountTrailingOnes(num);
    reply := Succeeded(Some(count));
  }

  /** The count is the streak of signed days ending today, so it never exceeds the day of the month. */
  lemma SignCountIsStreak(s: Store, userId: int, now: DateTime)
    requires Valid(now)
    ensures SignCount(s, userId, now) == Succeeded(Some(Streak(Bits(s, SignKey(userId, now)), now.day)))
    ensures Streak(Bits(s, SignKey(userId, now)), now.day) <= now.day
  {
    TrailingOnesIsStreak(Bits(s, SignKey(userId, now)), now.day);
  }

  /** After signing today, the streak is at least one and extends yesterday's streak by one. */
  lemma {:induction false} StreakAfterSign(s: Store, userId: int, now: DateTime)
    requires Valid(now)
    ensures var bits := Bits(s, SignKey(userId, now));
      SignCount(Sign(s, userId, now), userId, now) == Succeeded(Some(1 + Streak(bits, now.day - 1)))
  {
    var key := SignKey(userId, now);
    var bits := Bits(s, key);
    var s1 := Sign(s, userId, now);
    SignCountIsStreak(s1, userId, now);
    assert Bits(s1, key) == bits + {now.day - 1};
    StreakIgnoresLaterDays(bits, now.day - 1, now.day - 1);
    StreakIgnoresLaterDays(bits + {now.day - 1}, now.day - 1, now.day - 1);
  }

  /** The streak ending at day `d` does not look at offsets `d` or beyond. */
  lemma {:induction false} StreakIgnoresLaterDays(bits: set<nat>, d: nat, day: nat)
    requires d <= day
    ensures Streak(bits + {day}, d) == Streak(bits, d)
  {
    if d > 0 {
      StreakIgnoresLaterDays(bits, d - 1, day);
    }
  }
}
