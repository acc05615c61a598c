/**
 * `PasswordUtil`: a password's hash is its SHA-256 digest rendered as
 * lowercase hexadecimal, two digits per byte; checking a password hashes it
 * again and compares the strings. SHA-256 itself is a parameter `sha` that
 * maps a string to a 32-byte digest.
 */
module Password {
  type Digest = d: seq<bv8> | |d| == 32 witness seq(32, _ => 0)

  /** The lowercase hexadecimal digit of a nibble. */
  function HexDigit(n: nat): (c: char)
    requires n < 16
    ensures IsHexDigit(c) && DigitValue(c) == n
  {
    if n < 10 then ('0' as int + n) as char else ('a' as int + n - 10) as char
  }

  predicate IsHexDigit(c: char)
  {
    '0' <= c <= '9' || 'a' <= c <= 'f'
  }

  /** The value of a lowercase hex digit; 0 for any other character. */
  function DigitValue(c: char): nat
  {
    if '0' <= c <= '9' then c as int - '0' as int
    else if 'a' <= c <= 'f' then c as int - 'a' as int + 10
    else 0
  }

  /** `setw(2) << setfill('0') << hex`: two digits, high nibble first. */
  function HexByte(b: bv8): string
  {
    [HexDigit(b as int / 16), HexDigit(b as int % 16)]
  }

  /** The hex rendering of a byte string. */
  function Hex(d: seq<bv8>): (h: string)
    ensures |h| == 2 * |d|
  {
    if |d| == 0 then [] else HexByte(d[0]) + Hex(d[1..])
  }

  /** Byte `i` sits at positions `2i` and `2i+1`, as two lowercase digits. */
  lemma {:induction false} HexAt(d: seq<bv8>, i: nat)
    requires i < |d|
    ensures Hex(d)[2 * i] == HexDigit(d[i] as int / 16)
    ensures Hex(d)[2 * i + 1] == HexDigit(d[i] as int % 16)
  {
    if i > 0 {
      HexAt(d[1..], i - 1);
    }
  }

  /** Reading the digits back, two at a time. */
  function Unhex(h: string): seq<bv8>
  {
    if |h| < 2 then [] else [((DigitValue(h[0]) * 16 + DigitValue(h[1])) % 256) as bv8] + Unhex(h[2..])
  }

  /** The two digits of a byte read back to the byte. */
  lemma ByteRoundTrip(b: bv8)
    ensures var h := HexByte(b); ((DigitValue(h[0]) * 16 + DigitValue(h[1])) % 256) as bv8 == b
  {
    var x := b as int;
    assert DigitValue(HexByte(b)[0]) == x / 16;
    assert DigitValue(HexByte(b)[1]) == x % 16;
    assert (x / 16) * 16 + x % 16 == x;
    assert x % 256 == x;
  }

  /** The rendering loses nothing: reading it back gives the bytes. */
  lemma {:induction false} UnhexHex(d: seq<bv8>)
    ensures Unhex(Hex(d)) == d
  {
    if |d| > 0 {
      var h := Hex(d);
      assert h == HexByte(d[0]) + Hex(d[1..]);
      assert h[2..] == Hex(d[1..]);
      UnhexHex(d[1..]);
      ByteRoundTrip(d[0]);
    }
  }

  /** Different byte strings render differently. */
  lemma HexInjective(a: seq<bv8>, b: seq<bv8>)
    ensures Hex(a) == Hex(b) <==> a == b
  {
    if Hex(a) == Hex(b) {
      UnhexHex(a);
      UnhexHex(b);
    }
  }

  /** `hashPassword`. */
  function HashPassword(sha: string -> Digest, password: string): (h: string)
    ensures |h| == 64
  {
    Hex(sha(password))
  }

  /** `verifyPassword`: the password's hash equals the stored one. */
  predicate VerifyPassword(sha: string -> Digest, password: string, hashed: string)
  {
    HashPassword(sha, password) == hashed
  }

  /**
   * A stored hash of `q` accepts `p` exactly when the two digests agree:
   * in particular a password always matches its own hash.
   */
  lemma VerifyAgainstHash(sha: string -> Digest, p: string, q: string)
    ensures VerifyPassword(sha, p, HashPassword(sha, q)) <==> sha(p) == sha(q)
  {
    HexInjective(sha(p), sha(q));
  }

  /** The stringstream loop of `hashPassword`. */
  method HexDigest(digest: Digest) returns (h: string)
    ensures h == Hex(digest)
  {
    h := "";
    var i := 0;
    while i < 32
      invariant 0 <= i <= 32
      invariant h + Hex(digest[i..]) == Hex(digest)
    {
      assert Hex(digest[i..]) == HexByte(digest[i]) + Hex(digest[i + 1..]);
      h := h + HexByte(digest[i]);
      i := i + 1;
    }
    assert digest[32..] == [];
  }
}
