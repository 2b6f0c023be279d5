/** Sliding session cookies.  Instants and durations are nanoseconds, as in Go; a token's claims are whole
    seconds (`NumericDate`, section 2 of RFC 7519). */
module SlidingSession {
  import opened Common

  const SECOND: int := 1_000_000_000

  /** The `Max-Age` every session cookie is set with: seven days, whatever the session lifetime is. */
  const COOKIE_MAX_AGE: int := 604800

  /** `iat` and `exp` of a session token; `serial` stands for its random id. */
  datatype Token = Token(iat: int, exp: int, serial: int)

  function Unix(now: int): int {
    now / SECOND
  }

  function Mint(now: int, ttl: int, serial: int): Token {
    Token(Unix(now), Unix(now + ttl), serial)
  }

  function Lifetime(t: Token): int {
    (t.exp - t.iat) * SECOND
  }

  /** Go's division of a positive duration. */
  predicate PastHalfLife(t: Token, now: int) {
    Lifetime(t) > 0 && t.exp * SECOND - now < Lifetime(t) / 2
  }

  /** Not yet at `exp` (section 4.1.4 of RFC 7519). */
  predicate Unexpired(t: Token, now: int) {
    now < t.exp * SECOND
  }

  /** Minted for a token's own lifetime, a token has that lifetime again: the truncation to seconds
      happens once, at the first token. */
  lemma RenewalKeepsLifetime(t: Token, now: int, serial: int)
    ensures Lifetime(Mint(now, Lifetime(t), serial)) == Lifetime(t)
    ensures Mint(now, Lifetime(t), serial).exp * SECOND - now <= Lifetime(t)
    ensures Mint(now, Lifetime(t), serial).exp * SECOND - now > Lifetime(t) - SECOND
  {
    assert now + Lifetime(t) == now + (t.exp - t.iat) * SECOND;
  }

  /** The token a request is to be treated as carrying, and the cookie to set, if any: a renewal needs a
      response to set it on, a token past half its life, that token in the cookie, and a signature. */
  method SlideSessionCookie(hasWriter: bool, cookie: Option<Token>, token: Token, now: int, signed: Option<int>)
    returns (carried: Token, renewed: Option<Token>)
    ensures renewed.Some? <==> hasWriter && cookie == Some(token) && PastHalfLife(token, now) && signed.Some?
    ensures renewed.Some? ==> carried == renewed.value && Lifetime(carried) == Lifetime(token)
    ensures renewed.Some? ==> carried == Mint(now, Lifetime(token), signed.value)
    ensures renewed.None? ==> carried == token
  {
    if !hasWriter || !PastHalfLife(token, now) {
      return token, None;
    }
    if cookie != Some(token) {
      return token, None;
    }
    if signed.None? {
      return token, None;
    }
    RenewalKeepsLifetime(token, now, signed.value);
    carried := Mint(now, Lifetime(token), signed.value);
    return carried, Some(carried);
  }

  // ----- runs

  /** A browser's cookie: its token, and when it was set. */
  datatype Jar = Jar(token: Token, setAt: int)

  /** One request of the browser, `gap` after the one before it; `signed` is the new token's id, if
      signing works. */
  datatype Visit = Visit(gap: nat, signed: Option<int>)

  /** The browser still sends the cookie, and the server still accepts its token. */
  predicate Present(jar: Jar, maxAge: int, now: int) {
    now < jar.setAt + maxAge * SECOND && Unexpired(jar.token, now)
  }

  function Slide(jar: Jar, now: int, signed: Option<int>): Jar {
    if PastHalfLife(jar.token, now) && signed.Some? then Jar(Mint(now, Lifetime(jar.token), signed.value), now) else jar
  }

  function JarAfter(jar: Jar, now: int, visits: seq<Visit>): Jar
    decreases |visits|
  {
    if visits == [] then jar else
    var now := now + visits[0].gap;
    JarAfter(Slide(jar, now, visits[0].signed), now, visits[1..])
  }

  function TimeAfter(now: int, visits: seq<Visit>): int
    decreases |visits|
  {
    if visits == [] then now else TimeAfter(now + visits[0].gap, visits[1..])
  }

  /** Every request of the run finds its token before `exp`. */
  predicate AllServed(jar: Jar, maxAge: int, now: int, visits: seq<Visit>)
    decreases |visits|
  {
    visits == [] ||
    var now := now + visits[0].gap;
    Present(jar, maxAge, now) && AllServed(Slide(jar, now, visits[0].signed), maxAge, now, visits[1..])
  }

  /** Requests less than half of `lifetime` apart, signing working at each. */
  predicate Active(visits: seq<Visit>, lifetime: int) {
    forall i :: 0 <= i < |visits| ==> 2 * visits[i].gap < lifetime && visits[i].signed.Some?
  }

  function Login(now: int, ttl: int, serial: int): Jar {
    Jar(Mint(now, ttl, serial), now)
  }

  /** However often it is renewed, and wherever signing fails, a session keeps its first token's lifetime. */
  lemma {:induction false} LifetimeFixed(jar: Jar, now: int, visits: seq<Visit>)
    ensures Lifetime(JarAfter(jar, now, visits).token) == Lifetime(jar.token)
    decreases |visits|
  {
    if visits != [] {
      var now' := now + visits[0].gap;
      if visits[0].signed.Some? {
        RenewalKeepsLifetime(jar.token, now', visits[0].signed.value);
      }
      LifetimeFixed(Slide(jar, now', visits[0].signed), now', visits[1..]);
    }
  }

  lemma {:induction false} TimeMovesOn(now: int, visits: seq<Visit>)
    ensures now <= TimeAfter(now, visits)
    decreases |visits|
  {
    if visits != [] {
      TimeMovesOn(now + visits[0].gap, visits[1..]);
    }
  }

  /** Up to half of its life a token is left alone, however many requests it serves; and one that was never
      to live at all is never renewed. */
  lemma {:induction false} LeftAlone(jar: Jar, now: int, visits: seq<Visit>)
    requires || Lifetime(jar.token) <= 0
             || 2 * (jar.token.exp * SECOND - TimeAfter(now, visits)) >= Lifetime(jar.token)
    ensures JarAfter(jar, now, visits) == jar
    decreases |visits|
  {
    if visits != [] {
      TimeMovesOn(now + visits[0].gap, visits[1..]);
      LeftAlone(jar, now + visits[0].gap, visits[1..]);
    }
  }

  /** At least half the lifetime is left, and the cookie outlasts the token. */
  ghost predicate HalfLeft(jar: Jar, maxAge: int, now: int) {
    && 2 * (jar.token.exp * SECOND - now) >= Lifetime(jar.token)
    && jar.token.exp * SECOND <= jar.setAt + maxAge * SECOND
  }

  lemma SlideKeepsHalf(jar: Jar, maxAge: int, now: int, serial: int)
    requires 2 <= jar.token.exp - jar.token.iat <= maxAge
    requires jar.token.exp * SECOND <= jar.setAt + maxAge * SECOND
    ensures HalfLeft(Slide(jar, now, Some(serial)), maxAge, now)
    ensures Lifetime(Slide(jar, now, Some(serial)).token) == Lifetime(jar.token)
  {
    RenewalKeepsLifetime(jar.token, now, serial);
    assert Lifetime(jar.token) % 2 == 0;
  }

  lemma {:induction false} StaysHalf(jar: Jar, maxAge: int, now: int, visits: seq<Visit>)
    requires HalfLeft(jar, maxAge, now) && 2 <= jar.token.exp - jar.token.iat <= maxAge
    requires Active(visits, Lifetime(jar.token))
    ensures AllServed(jar, maxAge, now, visits)
    ensures HalfLeft(JarAfter(jar, now, visits), maxAge, TimeAfter(now, visits))
    decreases |visits|
  {
    if visits != [] {
      var now', serial := now + visits[0].gap, visits[0].signed.value;
      SlideKeepsHalf(jar, maxAge, now', serial);
      var jar' := Slide(jar, now', visits[0].signed);
      assert jar'.token.exp - jar'.token.iat == jar.token.exp - jar.token.iat;
      StaysHalf(jar', maxAge, now', visits[1..]);
    }
  }

  lemma LoginHalf(now: int, ttl: int, serial: int, maxAge: int)
    requires 2 <= Unix(now + ttl) - Unix(now) <= maxAge
    ensures HalfLeft(Login(now, ttl, serial), maxAge, now)
  {
    var jar := Login(now, ttl, serial);
    assert jar.token.exp * SECOND - now > Lifetime(jar.token) - SECOND;
    assert jar.token.exp * SECOND <= jar.token.iat * SECOND + maxAge * SECOND;
  }

  /** A session of at least two seconds under a cookie that lives as long never lapses while its player
      is active: every request finds its token before `exp`, and at least half the lifetime is left
      after each. */
  lemma NeverLapses(now: int, ttl: int, serial: int, maxAge: int, visits: seq<Visit>)
    requires 2 <= Unix(now + ttl) - Unix(now) <= maxAge
    requires Active(visits, Lifetime(Mint(now, ttl, serial)))
    ensures var jar := Login(now, ttl, serial);
      && AllServed(jar, maxAge, now, visits)
      && 2 * (JarAfter(jar, now, visits).token.exp * SECOND - TimeAfter(now, visits)) >= Lifetime(jar.token)
  {
    var jar := Login(now, ttl, serial);
    LoginHalf(now, ttl, serial, maxAge);
    StaysHalf(jar, maxAge, now, visits);
    LifetimeFixed(jar, now, visits);
  }

  // ----- and only then

  /** No active run ever lapses, for tokens minted with `ttl` and a cookie of `maxAge` seconds: active as
      measured by the lifetime the token turns out to have. */
  ghost predicate Reliable(ttl: int, maxAge: int) {
    forall now: int, serial: int, visits: seq<Visit> ::
      Active(visits, Lifetime(Mint(now, ttl, serial))) ==> AllServed(Login(now, ttl, serial), maxAge, now, visits)
  }

  /** Under a second: minted late in a second the token has a nanosecond left of its one. */
  lemma SubSecondLapses(ttl: int, maxAge: int)
    requires 1 <= ttl < SECOND
    ensures !Reliable(ttl, maxAge)
  {
    var now, visits := SECOND - 1, [Visit(1, Some(0))];
    assert Mint(now, ttl, 0) == Token(0, 1, 0);
    assert Active(visits, Lifetime(Mint(now, ttl, 0)));
    assert !AllServed(Login(now, ttl, 0), maxAge, now, visits);
  }

  /** Under two: a token of one second is renewed late in that second, and has a tenth of one left. */
  lemma OneSecondLapses(ttl: int, maxAge: int)
    requires SECOND <= ttl < 2 * SECOND
    ensures !Reliable(ttl, maxAge)
  {
    var a, b, c := Visit(450_000_000, Some(0)), Visit(450_000_000, Some(0)), Visit(200_000_000, Some(0));
    var visits := [a, b, c];
    var jar := Login(0, ttl, 0);
    assert jar.token == Token(0, 1, 0);
    assert Active(visits, Lifetime(jar.token));
    assert visits[1..] == [b, c] && [b, c][1..] == [c] && [b, c][0] == b && [c][0] == c;
    assert Slide(jar, 450_000_000, Some(0)) == jar;
    assert Slide(jar, 900_000_000, Some(0)).token == Token(0, 1, 0);
    assert !AllServed(Slide(jar, 900_000_000, Some(0)), maxAge, 900_000_000, [c]);
    assert !AllServed(jar, maxAge, 450_000_000, [b, c]);
    assert !AllServed(jar, maxAge, 0, visits);
  }

  /** Longer than the cookie: minted late in a second the token outlives its cookie, and a player may be
      away from the half of its life on until the cookie is gone. */
  lemma ShortCookieLapses(ttl: int, maxAge: int)
    requires 1 <= maxAge && ttl > maxAge * SECOND
    ensures !Reliable(ttl, maxAge)
  {
    var now := SECOND - 1;
    var k := Unix(now + ttl);
    var jar := Login(now, ttl, 0);
    assert jar == Jar(Token(0, k, 0), now) && k >= maxAge + 1;
    if 2 * maxAge < k {
      var visits := [Visit(maxAge * SECOND, Some(0))];
      assert Active(visits, k * SECOND);
      assert !AllServed(jar, maxAge, now, visits);
    } else {
      var half := k * (SECOND / 2);
      var a, b := Visit(half - now, Some(0)), Visit(now + maxAge * SECOND - half, Some(0));
      var visits := [a, b];
      assert Active(visits, k * SECOND);
      assert visits[1..] == [b] && [b][0] == b;
      assert Slide(jar, half, Some(0)) == jar;
      assert !AllServed(jar, maxAge, half, [b]);
      assert !AllServed(jar, maxAge, now, visits);
    }
  }

  lemma LongEnough(ttl: int, maxAge: int)
    requires 2 * SECOND <= ttl <= maxAge * SECOND
    ensures Reliable(ttl, maxAge)
  {
    forall now: int, serial: int, visits: seq<Visit> | Active(visits, Lifetime(Mint(now, ttl, serial)))
      ensures AllServed(Login(now, ttl, serial), maxAge, now, visits)
    {
      assert Unix(now + 2 * SECOND) == Unix(now) + 2 && Unix(now + maxAge * SECOND) == Unix(now) + maxAge;
      NeverLapses(now, ttl, serial, maxAge, visits);
    }
  }

  /** A token minted already expired allows no request that counts as active. */
  lemma BornExpired(ttl: int, maxAge: int)
    requires ttl <= 0
    ensures Reliable(ttl, maxAge)
  {
    forall now: int, serial: int, visits: seq<Visit> | Active(visits, Lifetime(Mint(now, ttl, serial)))
      ensures visits == []
    {
      assert visits != [] ==> !(2 * visits[0].gap < Lifetime(Mint(now, ttl, serial)));
    }
  }

  /** Exactly when an active player's session never lapses, for every `SESSION_TTL`, whole seconds or not:
      at least two seconds of lifetime and no more than the cookie lives, or so short that no player can
      be active at all. */
  lemma ReliableExactly(ttl: int, maxAge: int)
    requires 1 <= maxAge
    ensures Reliable(ttl, maxAge) <==> ttl <= 0 || 2 * SECOND <= ttl <= maxAge * SECOND
  {
    if ttl <= 0 {
      BornExpired(ttl, maxAge);
    } else if 2 * SECOND <= ttl <= maxAge * SECOND {
      LongEnough(ttl, maxAge);
    } else if ttl < SECOND {
      SubSecondLapses(ttl, maxAge);
    } else if ttl < 2 * SECOND {
      OneSecondLapses(ttl, maxAge);
    } else {
      ShortCookieLapses(ttl, maxAge);
    }
  }

  /** With the cookie's fixed seven days: the default session is reliable, and one configured longer, by
      however little, is not. */
  lemma SevenDays(ttl: int)
    ensures Reliable(ttl, COOKIE_MAX_AGE) <==> ttl <= 0 || 2 * SECOND <= ttl <= 7 * 24 * 3600 * SECOND
  {
    ReliableExactly(ttl, COOKIE_MAX_AGE);
  }
}
