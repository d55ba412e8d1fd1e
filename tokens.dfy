/** The cryptographic collaborators of the auth controller and the socket
    handshake, kept symbolic: a JWT is the claims it was signed over, the key
    it was signed with and its issue time; a bcrypt hash remembers which
    password it was computed from. Only what the code relies on is exposed:
    a token verifies under exactly the key it was signed with, and a hash
    is matched by exactly the passwords whose first 72 key bytes agree with
    the hashed one. Expiry ('15m' / '7d') and real cryptography are not
    modelled. */
module Tokens {
  import opened Common

  /** The payload `{ userId, type }` of every token the backend signs. */
  datatype Claims = Claims(userId: UserId, kind: string)

  /** A signed token. `issuedAt` is the `iat` claim jsonwebtoken adds by
      default, in whole seconds. Token equality stands for equality of the
      encoded token strings. */
  datatype Jwt = Jwt(claims: Claims, key: string, issuedAt: Time)

  const AccessKind: string := "access"
  const RefreshKind: string := "refresh"

  /** `process.env.JWT_SECRET` and `process.env.JWT_REFRESH_SECRET`. */
  datatype Secrets = Secrets(access: string, refresh: string)

  /** `jwt.verify(token, key)`: the claims, or None where the library throws.
      Only a token signed under `key` verifies, and every such token
      verifies to the claims it was signed over. */
  function Verify(t: Jwt, key: string): (r: Option<Claims>)
    ensures r.Some? ==> t == Jwt(r.value, key, t.issuedAt)
    ensures forall c: Claims, at: Time :: t == Jwt(c, key, at) ==> r == Some(c)
  {
    if t.key == key then Some(t.claims) else None
  }

  /** `jwt.sign(claims, key)` at time `now`. */
  function Sign(claims: Claims, key: string, now: Time): (t: Jwt)
    ensures Verify(t, key) == Some(claims)
    ensures forall other: string :: other != key ==> Verify(t, other) == None
  {
    Jwt(claims, key, now)
  }

  datatype TokenPair = TokenPair(accessToken: Jwt, refreshToken: Jwt)

  /** `generateTokens(userId)`: an access token over `{userId, type:'access'}`
      under JWT_SECRET and a refresh token over `{userId, type:'refresh'}`
      under JWT_REFRESH_SECRET. */
  function GenerateTokens(userId: UserId, secrets: Secrets, now: Time): (p: TokenPair)
    ensures Verify(p.accessToken, secrets.access) == Some(Claims(userId, AccessKind))
    ensures Verify(p.refreshToken, secrets.refresh) == Some(Claims(userId, RefreshKind))
    ensures p.accessToken != p.refreshToken
  {
    TokenPair(Sign(Claims(userId, AccessKind), secrets.access, now),
              Sign(Claims(userId, RefreshKind), secrets.refresh, now))
  }

  /** Two refresh tokens generated for one user differ exactly when they were
      issued in different seconds: nothing else in the payload varies. */
  lemma RefreshTokensDifferBySecond(userId: UserId, secrets: Secrets, t1: Time, t2: Time)
    ensures GenerateTokens(userId, secrets, t1).refreshToken == GenerateTokens(userId, secrets, t2).refreshToken
            <==> t1 == t2
  {
  }

  /** bcrypt's cost factor, `saltRounds = 12`. */
  const SaltRounds: nat := 12

  /** How many key bytes bcrypt's key schedule reads. */
  const KeyBytes: nat := 72

  /** The UTF-8 encoding of one character, as byte values. */
  function Utf8Char(c: char): (bs: seq<int>)
    ensures 1 <= |bs| <= 4
    ensures forall i :: 0 <= i < |bs| ==> 0 <= bs[i] < 0x100
    ensures c != '\0' ==> forall i :: 0 <= i < |bs| ==> bs[i] != 0
  {
    var n := c as int;
    var n1 := n / 0x40;
    var n2 := n1 / 0x40;
    if n < 0x80 then [n]
    else if n < 0x800 then [0xC0 + n1, 0x80 + n % 0x40]
    else if n < 0x1_0000 then [0xE0 + n2, 0x80 + n1 % 0x40, 0x80 + n % 0x40]
    else [0xF0 + n2 / 0x40, 0x80 + n2 % 0x40, 0x80 + n1 % 0x40, 0x80 + n % 0x40]
  }

  /** How many bytes a UTF-8 sequence with this lead byte has. */
  function SequenceLength(lead: int): nat
  {
    if lead < 0x80 then 1 else if lead < 0xE0 then 2 else if lead < 0xF0 then 3 else 4
  }

  /** The code point a UTF-8 sequence of one to four bytes encodes. */
  function DecodeChar(bs: seq<int>): int
    requires 1 <= |bs| <= 4
  {
    if |bs| == 1 then bs[0]
    else if |bs| == 2 then (bs[0] - 0xC0) * 0x40 + (bs[1] - 0x80)
    else if |bs| == 3 then ((bs[0] - 0xE0) * 0x40 + (bs[1] - 0x80)) * 0x40 + (bs[2] - 0x80)
    else (((bs[0] - 0xF0) * 0x40 + (bs[1] - 0x80)) * 0x40 + (bs[2] - 0x80)) * 0x40 + (bs[3] - 0x80)
  }

  /** The lead byte gives the length, and the bytes give back the character. */
  lemma Utf8CharDecodes(c: char)
    ensures |Utf8Char(c)| == SequenceLength(Utf8Char(c)[0])
    ensures DecodeChar(Utf8Char(c)) == c as int
  {
    var n := c as int;
    var n1 := n / 0x40;
    var n2 := n1 / 0x40;
    assert n == n1 * 0x40 + n % 0x40;
    assert n1 == n2 * 0x40 + n1 % 0x40;
    assert n2 == n2 / 0x40 * 0x40 + n2 % 0x40;
  }

  /** The UTF-8 encoding of a string, which is what bcryptjs hashes. */
  function Utf8(s: string): (bs: seq<int>)
    ensures |s| <= |bs| <= 4 * |s|
    ensures '\0' !in s ==> forall i :: 0 <= i < |bs| ==> bs[i] != 0
  {
    if s == [] then [] else Utf8Char(s[0]) + Utf8(s[1..])
  }

  /** The bytes bcryptjs feeds its key schedule: the UTF-8 encoding with a
      NUL byte appended (the `$2a$` convention), read cyclically and cut
      at 72 bytes. Nothing else of the password reaches the hash. */
  function BcryptKey(password: string): (k: seq<int>)
    ensures |k| == KeyBytes
  {
    Cycle(Utf8(password) + [0])
  }

  /** The first 72 bytes of `bs` repeated without end. */
  function Cycle(bs: seq<int>): (k: seq<int>)
    requires bs != []
    ensures |k| == KeyBytes
  {
    seq(KeyBytes, i requires 0 <= i < KeyBytes => bs[i % |bs|])
  }

  datatype PasswordHash = PasswordHash(preimage: string, salt: nat, cost: nat)

  /** `bcrypt.compare(password, hash)`: rehashing with the stored salt and
      cost gives the stored hash exactly when the key bytes agree. */
  predicate Compare(password: string, h: PasswordHash)
  {
    BcryptKey(password) == BcryptKey(h.preimage)
  }

  /** `bcrypt.hash(password, saltRounds)`, with the random salt as a parameter. */
  function Hash(password: string, salt: nat): (h: PasswordHash)
    ensures Compare(password, h)
    ensures forall other: string :: Compare(other, h) <==> BcryptKey(other) == BcryptKey(password)
    ensures h.cost == SaltRounds
  {
    PasswordHash(password, salt, SaltRounds)
  }

  /** UTF-8 never encodes two characters with a common prefix, so an
      encoding determines its first character and the rest. */
  lemma Utf8CharPrefixFree(a: char, b: char, x: seq<int>, y: seq<int>)
    requires Utf8Char(a) + x == Utf8Char(b) + y
    ensures a == b && x == y
  {
    var ea, eb := Utf8Char(a), Utf8Char(b);
    Utf8CharDecodes(a);
    Utf8CharDecodes(b);
    assert ea[0] == (ea + x)[0] == (eb + y)[0] == eb[0];
    assert ea == (ea + x)[..|ea|] == (eb + y)[..|eb|] == eb;
    assert a as int == b as int;
    assert x == (ea + x)[|ea|..] == (eb + y)[|eb|..] == y;
  }

  lemma {:induction false} Utf8Injective(s: string, t: string)
    requires Utf8(s) == Utf8(t)
    ensures s == t
  {
    if s != [] && t != [] {
      Utf8CharPrefixFree(s[0], t[0], Utf8(s[1..]), Utf8(t[1..]));
      Utf8Injective(s[1..], t[1..]);
      assert s == [s[0]] + s[1..] && t == [t[0]] + t[1..];
    }
  }

  /** Key bytes that lie within the encoding and its NUL are read straight. */
  lemma BcryptKeyReadsPrefix(password: string, i: nat)
    requires i < KeyBytes && i <= |Utf8(password)|
    ensures BcryptKey(password)[i] == (Utf8(password) + [0])[i]
  {
    CycleReadsPrefix(Utf8(password) + [0], i);
  }

  lemma CycleReadsPrefix(bs: seq<int>, i: nat)
    requires i < KeyBytes && i < |bs|
    ensures Cycle(bs)[i] == bs[i]
  {
    assert i % |bs| == i;
  }

  /** Where the key bytes come from: the whole encoding and its NUL when
      it is shorter than 72 bytes, its first 72 bytes otherwise. */
  lemma BcryptKeyPrefix(password: string)
    ensures |Utf8(password)| < KeyBytes ==> BcryptKey(password)[..|Utf8(password)| + 1] == Utf8(password) + [0]
    ensures |Utf8(password)| >= KeyBytes ==> BcryptKey(password) == Utf8(password)[..KeyBytes]
  {
    var u, k := Utf8(password), BcryptKey(password);
    forall i | 0 <= i < KeyBytes && i <= |u| ensures k[i] == (u + [0])[i] {
      BcryptKeyReadsPrefix(password, i);
    }
  }

  /** A password of at most 71 UTF-8 bytes without NUL characters is
      matched by its own hash and by no other such password. */
  lemma ShortPasswordsMatchExactly(password: string, other: string, salt: nat)
    requires '\0' !in password && '\0' !in other
    requires |Utf8(password)| < KeyBytes && |Utf8(other)| < KeyBytes
    ensures Compare(other, Hash(password, salt)) <==> other == password
  {
    if Compare(other, Hash(password, salt)) {
      var u, v, k := Utf8(password), Utf8(other), BcryptKey(password);
      BcryptKeyPrefix(password);
      BcryptKeyPrefix(other);
      assert k == BcryptKey(other);
      assert k[..|u| + 1] == u + [0] && k[..|v| + 1] == v + [0];
      assert k[|u|] == (u + [0])[|u|] == 0 && k[|v|] == (v + [0])[|v|] == 0;
      assert forall i :: 0 <= i < |u| ==> k[i] == (u + [0])[i] == u[i] != 0;
      assert forall i :: 0 <= i < |v| ==> k[i] == (v + [0])[i] == v[i] != 0;
      assert |u| == |v|;
      assert u == (u + [0])[..|u|] == (v + [0])[..|v|] == v;
      Utf8Injective(password, other);
    }
  }

  /** Passwords whose UTF-8 encodings reach 72 bytes and share the first
      72 of them are interchangeable: bcrypt never reads the rest. */
  lemma LongPasswordsTruncated(password: string, other: string, salt: nat)
    requires |Utf8(password)| >= KeyBytes && |Utf8(other)| >= KeyBytes
    requires Utf8(password)[..KeyBytes] == Utf8(other)[..KeyBytes]
    ensures Compare(other, Hash(password, salt))
  {
    BcryptKeyPrefix(password);
    BcryptKeyPrefix(other);
  }

  /** An ASCII string encodes to its own character codes, one byte each. */
  lemma {:induction false} Utf8Ascii(s: string)
    requires forall i :: 0 <= i < |s| ==> s[i] as int < 0x80
    ensures |Utf8(s)| == |s| && forall i :: 0 <= i < |s| ==> Utf8(s)[i] == s[i] as int
  {
    if s != [] {
      Utf8Ascii(s[1..]);
      assert Utf8(s) == [s[0] as int] + Utf8(s[1..]);
    }
  }
}
