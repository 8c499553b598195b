/**
 * The user record as the authentication controller reads and writes it, and the
 * password hash it stores. bcrypt is modelled symbolically: a hash is a term that
 * records the cost, the salt and the key bytes it was computed from, and `Compare`
 * is the only operation that looks inside it. bcrypt receives the password as
 * UTF-8 and reads at most its first 72 bytes, so `Compare` is exact only below
 * that length.
 */
module UserModel {

  import opened PostModel

  /** `bcrypt.genSalt(10)`: the cost factor used for every stored password. */
  const SaltRounds: nat := 10

  /** bcrypt's key schedule reads at most this many bytes of the password. */
  const MaxKeyBytes: nat := 72

  type Byte = b: int | 0 <= b < 256

  // ---------------------------------------------------------------- UTF-8

  /** The UTF-8 encoding of one character. */
  function Utf8Char(c: char): (r: seq<Byte>)
    ensures 1 <= |r| <= 4
    ensures c as int < 0x80 ==> r == [c as int]
  {
    var n := c as int;
    if n < 0x80 then [n]
    else if n < 0x800 then [0xC0 + n / 64, 0x80 + n % 64]
    else if n < 0x10000 then [0xE0 + n / 4096, 0x80 + (n / 64) % 64, 0x80 + n % 64]
    else [0xF0 + n / 262144, 0x80 + (n / 4096) % 64, 0x80 + (n / 64) % 64, 0x80 + n % 64]
  }

  /** The length of a UTF-8 sequence, read off its lead byte. */
  function SequenceLength(lead: Byte): nat
  {
    if lead < 0x80 then 1 else if lead < 0xE0 then 2 else if lead < 0xF0 then 3 else 4
  }

  /** The code point a well-formed UTF-8 sequence of one character stands for. */
  function DecodeChar(b: seq<Byte>): int
    requires 1 <= |b| <= 4
  {
    if |b| == 1 then b[0] as int
    else if |b| == 2 then (b[0] as int - 0xC0) * 64 + (b[1] as int - 0x80)
    else if |b| == 3 then ((b[0] as int - 0xE0) * 64 + (b[1] as int - 0x80)) * 64 + (b[2] as int - 0x80)
    else (((b[0] as int - 0xF0) * 64 + (b[1] as int - 0x80)) * 64 + (b[2] as int - 0x80)) * 64 + (b[3] as int - 0x80)
  }

  /** A character's encoding announces its own length and decodes back to the character. */
  lemma Utf8CharDecodes(c: char)
    ensures SequenceLength(Utf8Char(c)[0]) == |Utf8Char(c)|
    ensures DecodeChar(Utf8Char(c)) == c as int
  {
    var n := c as int;
    if 0x800 <= n < 0x10000 {
      assert n / 64 == (n / 4096) * 64 + (n / 64) % 64;
      assert n == (n / 64) * 64 + n % 64;
    } else if 0x10000 <= n {
      assert n / 4096 == (n / 262144) * 64 + (n / 4096) % 64;
      assert n / 64 == (n / 4096) * 64 + (n / 64) % 64;
      assert n == (n / 64) * 64 + n % 64;
    }
  }

  /** The UTF-8 encoding of a string: the bytes `bcrypt` receives for a password. */
  function Utf8(s: string): (r: seq<Byte>)
    ensures |s| <= |r| <= 4 * |s|
  {
    if s == [] then [] else Utf8Char(s[0]) + Utf8(s[1..])
  }

  /** ASCII text encodes to one byte per character. */
  lemma {:induction false} AsciiUtf8(s: string)
    requires forall k | 0 <= k < |s| :: s[k] as int < 0x80
    ensures |Utf8(s)| == |s|
  {
    if s != [] {
      AsciiUtf8(s[1..]);
    }
  }

  lemma {:induction false} Utf8Concat(s: string, t: string)
    ensures Utf8(s + t) == Utf8(s) + Utf8(t)
  {
    if s != [] {
      assert (s + t)[0] == s[0] && (s + t)[1..] == s[1..] + t;
      assert Utf8(s + t) == Utf8Char(s[0]) + Utf8(s[1..] + t);
      Utf8Concat(s[1..], t);
      assert Utf8(s) == Utf8Char(s[0]) + Utf8(s[1..]);
    } else {
      assert s + t == t;
    }
  }

  /** Different strings have different encodings. */
  lemma {:induction false} Utf8Injective(a: string, b: string)
    requires Utf8(a) == Utf8(b)
    ensures a == b
  {
    if a != [] && b != [] {
      var ea, eb := Utf8Char(a[0]), Utf8Char(b[0]);
      assert Utf8(a) == ea + Utf8(a[1..]);
      assert Utf8(b) == eb + Utf8(b[1..]);
      Utf8CharDecodes(a[0]);
      Utf8CharDecodes(b[0]);
      assert ea[0] == Utf8(a)[0] == eb[0];
      assert ea == Utf8(a)[..|ea|] == eb;
      assert a[0] as int == b[0] as int;
      assert Utf8(a[1..]) == Utf8(a)[|ea|..] == Utf8(b[1..]);
      Utf8Injective(a[1..], b[1..]);
      assert a == [a[0]] + a[1..];
      assert b == [b[0]] + b[1..];
    }
  }

  // ---------------------------------------------------------------- bcrypt

  /** The bytes of the password that bcrypt's key schedule reads: the first 72 of its encoding. */
  function BcryptKey(password: string): (k: seq<Byte>)
    ensures |k| <= MaxKeyBytes
    ensures k <= Utf8(password)
    ensures |Utf8(password)| <= MaxKeyBytes ==> k == Utf8(password)
    ensures |Utf8(password)| >= MaxKeyBytes ==> |k| == MaxKeyBytes
  {
    var e := Utf8(password);
    if |e| <= MaxKeyBytes then e else e[..MaxKeyBytes]
  }

  datatype PasswordHash = Bcrypt(rounds: nat, salt: string, key: seq<Byte>)

  /** `bcrypt.compare(password, hash)`: the candidate's key against the one that was hashed. */
  predicate Compare(password: string, hash: PasswordHash)
  {
    BcryptKey(password) == hash.key
  }

  /** `bcrypt.hash(password, salt)`: `compare` accepts the password and whatever shares its key bytes. */
  function Hash(password: string, salt: string): (h: PasswordHash)
    ensures h.rounds == SaltRounds && h.salt == salt
    ensures Compare(password, h)
    ensures forall p :: Compare(p, h) <==> BcryptKey(p) == BcryptKey(password)
  {
    Bcrypt(SaltRounds, salt, BcryptKey(password))
  }

  /** Below 72 bytes, `compare` accepts exactly the password that was hashed. */
  lemma CompareExactBelowLimit(p: string, q: string, salt: string)
    requires |Utf8(q)| < MaxKeyBytes
    ensures Compare(p, Hash(q, salt)) <==> p == q
  {
    if Compare(p, Hash(q, salt)) {
      assert BcryptKey(p) == Utf8(q);
      assert |Utf8(p)| < MaxKeyBytes;
      Utf8Injective(p, q);
    }
  }

  /** Past 72 bytes, a different password that shares the first 72 is accepted too. */
  lemma LongPasswordsCollide(salt: string)
    ensures var q := seq(72, _ => 'a');
            Compare(q + "b", Hash(q, salt)) && q + "b" != q
  {
    var q := seq(72, _ => 'a');
    Utf8Concat(q, "b");
    AsciiUtf8(q);
    assert Utf8(q + "b")[..MaxKeyBytes] == Utf8(q);
    assert |q + "b"| != |q|;
  }

  datatype User = User(id: ObjectId, username: string, name: string, email: string, password: PasswordHash)

  /** The public projection sent to clients: `_id`, username, name and email, never the password. */
  datatype UserView = UserView(id: ObjectId, username: string, name: string, email: string)

  function View(u: User): UserView
  {
    UserView(u.id, u.username, u.name, u.email)
  }
}
