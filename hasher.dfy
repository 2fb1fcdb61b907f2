/**
 * The credential hasher (bcrypt), modelled symbolically.
 *
 * bcrypt does not hash the password string itself: the password reaches it
 * as UTF-8 bytes, and only the first 72 of them are used (`Key`). A digest is
 * an opaque term that records the cost factor, the random salt and that key;
 * the only way to learn anything from it is `Compare`. Collision resistance
 * is taken as exact: a digest accepts a candidate exactly when the
 * candidate's key is the hashed password's key. So a password of at most 72
 * bytes is matched by itself alone (`ShortPasswordsAreExact`), while two
 * passwords that agree on their first 72 bytes match each other's hash
 * (`LongPasswordsShareHash`).
 */
module Hasher {

  /** BCRYPT_ROUNDS when the environment does not set it. */
  const BCRYPT_ROUNDS: nat := 10

  /** bcrypt ignores every password byte after the 72nd. */
  const MAX_KEY_BYTES: nat := 72

  type Byte = b: int | 0 <= b < 256

  /** The UTF-8 encoding of one code point. */
  function Utf8Char(c: char): (bytes: seq<Byte>)
    ensures 1 <= |bytes| <= 4
    ensures |bytes| == 1 <==> c as int < 0x80
  {
    var n := c as int;
    if n < 0x80 then [n]
    else if n < 0x800 then [0xC0 + n / 64, 0x80 + n % 64]
    else if n < 0x10000 then [0xE0 + n / 4096, 0x80 + n / 64 % 64, 0x80 + n % 64]
    else [0xF0 + n / 0x40000, 0x80 + n / 4096 % 64, 0x80 + n / 64 % 64, 0x80 + n % 64]
  }

  /** A code point is read back from the start of its encoding, whatever follows it. */
  lemma Utf8CharPrefixFree(a: char, b: char, x: seq<Byte>, y: seq<Byte>)
    requires Utf8Char(a) + x == Utf8Char(b) + y
    ensures a == b && x == y
  {
    var ea, eb := Utf8Char(a), Utf8Char(b);
    assert (ea + x)[0] == ea[0] && (eb + y)[0] == eb[0];
    assert |ea| == |eb| by {
      var n, m := a as int, b as int;
      assert n < 0x80 <==> ea[0] < 0x80;
      assert 0x80 <= n < 0x800 <==> 0xC0 <= ea[0] < 0xE0;
      assert 0x800 <= n < 0x10000 <==> 0xE0 <= ea[0] < 0xF0;
      assert m < 0x80 <==> eb[0] < 0x80;
      assert 0x80 <= m < 0x800 <==> 0xC0 <= eb[0] < 0xE0;
      assert 0x800 <= m < 0x10000 <==> 0xE0 <= eb[0] < 0xF0;
    }
    assert ea == (ea + x)[..|ea|] && eb == (eb + y)[..|eb|];
    assert x == (ea + x)[|ea|..] && y == (eb + y)[|eb|..];
    DecodeEncode(a);
    DecodeEncode(b);
  }

  /** Reads a code point back from its encoding. */
  function DecodeChar(bytes: seq<int>): int
    requires 1 <= |bytes| <= 4
  {
    if |bytes| == 1 then bytes[0]
    else if |bytes| == 2 then (bytes[0] - 0xC0) * 64 + (bytes[1] - 0x80)
    else if |bytes| == 3 then (bytes[0] - 0xE0) * 4096 + (bytes[1] - 0x80) * 64 + (bytes[2] - 0x80)
    else (bytes[0] - 0xF0) * 0x40000 + (bytes[1] - 0x80) * 4096 + (bytes[2] - 0x80) * 64 + (bytes[3] - 0x80)
  }

  lemma DecodeEncode(c: char)
    ensures DecodeChar(Utf8Char(c)) == c as int
  {
    var n := c as int;
    if n < 0x80 {
    } else if n < 0x800 {
      DivMod(n, 64);
    } else if n < 0x10000 {
      DivMod(n, 64);
      DivMod(n / 64, 64);
      Shifted(n);
    } else {
      DivMod(n, 64);
      DivMod(n / 64, 64);
      DivMod(n / 4096, 64);
      Shifted(n);
    }
  }

  /** Dropping six bits twice is dropping twelve, and twelve then six is eighteen. */
  lemma Shifted(n: nat)
    ensures n / 64 / 64 == n / 4096
    ensures n / 4096 / 64 == n / 0x40000
  {
  }

  lemma DivMod(n: nat, d: nat)
    requires d > 0
    ensures n == n / d * d + n % d
  {
  }

  /** `Buffer.from(s, "utf8")`: what the native library receives. */
  function Utf8(s: string): (bytes: seq<Byte>)
    ensures |s| <= |bytes| <= 4 * |s|
  {
    if s == [] then [] else Utf8Char(s[0]) + Utf8(s[1..])
  }

  lemma {:induction false} Utf8Append(a: string, b: string)
    ensures Utf8(a + b) == Utf8(a) + Utf8(b)
  {
    if a == [] {
      assert a + b == b;
    } else {
      assert (a + b)[0] == a[0] && (a + b)[1..] == a[1..] + b;
      Utf8Append(a[1..], b);
    }
  }

  /** Different strings have different encodings. */
  lemma {:induction false} Utf8Injective(s: string, t: string)
    requires Utf8(s) == Utf8(t)
    ensures s == t
  {
    if s != [] && t != [] {
      Utf8CharPrefixFree(s[0], t[0], Utf8(s[1..]), Utf8(t[1..]));
      Utf8Injective(s[1..], t[1..]);
      assert s == [s[0]] + s[1..] && t == [t[0]] + t[1..];
    }
  }

  /** The bytes bcrypt hashes: the password's first 72 UTF-8 bytes. */
  function Key(password: string): (k: seq<Byte>)
    ensures |k| <= MAX_KEY_BYTES && |k| <= |Utf8(password)|
    ensures k == Utf8(password)[..|k|]
    ensures |k| == MAX_KEY_BYTES || k == Utf8(password)
  {
    var bytes := Utf8(password);
    if |bytes| <= MAX_KEY_BYTES then bytes else bytes[..MAX_KEY_BYTES]
  }

  datatype Digest = Digest(rounds: nat, salt: nat, key: seq<Byte>)

  /** `bcrypt.hash(plaintext, rounds)`; the salt is the random input bcrypt draws. */
  function Hash(plaintext: string, rounds: nat, salt: nat): (d: Digest)
    ensures d.rounds == rounds
    ensures Compare(plaintext, d)
    ensures forall candidate :: Compare(candidate, d) <==> Key(candidate) == Key(plaintext)
  {
    Digest(rounds, salt, Key(plaintext))
  }

  /** `bcrypt.compare(candidate, digest)`. */
  predicate Compare(candidate: string, d: Digest) {
    Key(candidate) == d.key
  }

  /** Two hashes of one password differ only by salt; both accept it. */
  lemma HashesOfOnePasswordAgree(plaintext: string, rounds: nat, salt1: nat, salt2: nat, candidate: string)
    ensures Compare(candidate, Hash(plaintext, rounds, salt1)) == Compare(candidate, Hash(plaintext, rounds, salt2))
  {
  }

  /** A password of at most 72 bytes is accepted by its hash and by no other password of at most 72 bytes. */
  lemma ShortPasswordsAreExact(plaintext: string, candidate: string, rounds: nat, salt: nat)
    requires |Utf8(plaintext)| <= MAX_KEY_BYTES && |Utf8(candidate)| <= MAX_KEY_BYTES
    ensures Compare(candidate, Hash(plaintext, rounds, salt)) <==> candidate == plaintext
  {
    if Compare(candidate, Hash(plaintext, rounds, salt)) {
      Utf8Injective(candidate, plaintext);
    }
  }

  /** Past 72 bytes the rest of a password is not looked at: any continuation matches any other. */
  lemma LongPasswordsShareHash(prefix: string, hashed: string, tried: string, rounds: nat, salt: nat)
    requires |Utf8(prefix)| >= MAX_KEY_BYTES
    ensures Compare(prefix + tried, Hash(prefix + hashed, rounds, salt))
  {
    var p := Utf8(prefix);
    Utf8Append(prefix, hashed);
    Utf8Append(prefix, tried);
    TakeOfAppend(p, Utf8(hashed), MAX_KEY_BYTES);
    TakeOfAppend(p, Utf8(tried), MAX_KEY_BYTES);
    assert Key(prefix + hashed) == p[..MAX_KEY_BYTES] == Key(prefix + tried);
  }

  lemma TakeOfAppend<T>(a: seq<T>, b: seq<T>, n: nat)
    requires n <= |a|
    ensures (a + b)[..n] == a[..n]
  {
  }
}
