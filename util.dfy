/**
 * The two utility routines of the application: a clamp that writes back through its
 * reference parameter, and the djb2 string hash.
 */
module Util {

  /** The value a clamp writes back and returns (the specification of Clamp). */
  function ClampValue(v: real, lo: real, hi: real): real
  {
    if v < lo then lo else if v > hi then hi else v
  }

  /**
   * Clamp(value, min, max): `written` is the value stored back into the reference
   * parameter, `result` the value returned. The lower bound is checked first, so with
   * min > max a value below min still comes back as min.
   */
  method Clamp(value: real, lo: real, hi: real) returns (written: real, result: real)
    ensures written == ClampValue(value, lo, hi) && result == written
    ensures value < lo ==> result == lo
    ensures lo <= value && hi < value ==> result == hi
    ensures lo <= value <= hi ==> result == value
    ensures lo <= hi ==> lo <= result <= hi
  {
    written := value;
    if written < lo {
      written := lo;
      return written, written;
    }
    if written > hi {
      written := hi;
      return written, written;
    }
    result := written;
  }

  /** With min <= max, clamping a clamped value changes nothing. */
  lemma ClampIdempotent(v: real, lo: real, hi: real)
    requires lo <= hi
    ensures ClampValue(ClampValue(v, lo, hi), lo, hi) == ClampValue(v, lo, hi)
  {
  }

  /** With min > max the clamp is not idempotent: a value below min ends at max after two passes. */
  lemma ClampTwiceWithInvertedBounds()
    ensures ClampValue(0.0, 2.0, 1.0) == 2.0
    ensures ClampValue(ClampValue(0.0, 2.0, 1.0), 2.0, 1.0) == 1.0
  {
  }

  // ---------------------------------------------------------------------------------------
  // djb2

  /** A byte of a C string. */
  type Byte = b: int | 0 <= b < 256

  const HashModulus: int := 0x1_0000_0000
  const HashSeed: int := 5381

  /**
   * The value a `char` contributes when it is read into an `int`: `char` is signed on the
   * compiler the application targets, so bytes from 0x80 up are negative.
   */
  function CharValue(c: Byte): (v: int)
    ensures -128 <= v < 128
    ensures v % 256 == c
  {
    if c < 128 then c else c - 256
  }

  /** One round of djb2: h * 33 + c, reduced to the 32 bits of the result type. */
  function HashStep(h: int, c: Byte): (r: int)
    ensures 0 <= r < HashModulus
  {
    (h * 33 + CharValue(c)) % HashModulus
  }

  /** Hash of the characters of s up to (not including) its first NUL, starting from h. */
  function HashFrom(h: int, s: seq<Byte>): int
    decreases |s|
  {
    if |s| == 0 || s[0] == 0 then h else HashFrom(HashStep(h, s[0]), s[1..])
  }

  /** The djb2 hash of a C string. */
  function Djb2(s: seq<Byte>): int
  {
    HashFrom(HashSeed, s)
  }

  predicate NoNul(s: seq<Byte>)
  {
    forall i :: 0 <= i < |s| ==> s[i] != 0
  }

  /** The empty string hashes to the seed. */
  lemma HashOfEmpty(t: seq<Byte>)
    ensures Djb2([]) == 5381
    ensures Djb2([0] + t) == 5381
  {
  }

  /** A hash computed from a 32-bit value stays a 32-bit value. */
  lemma {:induction false} HashFromInRange(h: int, s: seq<Byte>)
    requires 0 <= h < HashModulus
    ensures 0 <= HashFrom(h, s) < HashModulus
    decreases |s|
  {
    if |s| != 0 && s[0] != 0 {
      HashFromInRange(HashStep(h, s[0]), s[1..]);
    }
  }

  /** Appending a non-NUL character c maps the hash h to h * 33 + c modulo 2^32. */
  lemma {:induction false} HashFromAppend(h: int, s: seq<Byte>, c: Byte)
    requires NoNul(s) && c != 0
    ensures HashFrom(h, s + [c]) == HashStep(HashFrom(h, s), c)
    decreases |s|
  {
    if |s| == 0 {
      assert s + [c] == [c];
      assert [c][1..] == [];
    } else {
      assert (s + [c])[0] == s[0];
      assert (s + [c])[1..] == s[1..] + [c];
      HashFromAppend(HashStep(h, s[0]), s[1..], c);
    }
  }

  lemma Djb2Append(s: seq<Byte>, c: Byte)
    requires NoNul(s) && c != 0
    ensures Djb2(s + [c]) == HashStep(Djb2(s), c)
  {
    HashFromAppend(HashSeed, s, c);
  }

  /** Hashing stops at the first NUL: whatever follows it is ignored. */
  lemma {:induction false} HashFromStopsAtNul(h: int, s: seq<Byte>, t: seq<Byte>)
    requires NoNul(s)
    ensures HashFrom(h, s + [0] + t) == HashFrom(h, s)
    decreases |s|
  {
    if |s| == 0 {
      assert (s + [0] + t)[0] == 0;
    } else {
      assert (s + [0] + t)[0] == s[0];
      assert (s + [0] + t)[1..] == s[1..] + [0] + t;
      HashFromStopsAtNul(HashStep(h, s[0]), s[1..], t);
    }
  }

  lemma Djb2StopsAtNul(s: seq<Byte>, t: seq<Byte>)
    requires NoNul(s)
    ensures Djb2(s + [0] + t) == Djb2(s)
  {
    HashFromStopsAtNul(HashSeed, s, t);
  }

  /**
   * HashString: walks the NUL-terminated string one character at a time. The string must
   * contain its terminator, since the loop reads until it finds one.
   */
  method HashString(s: seq<Byte>) returns (hash: int)
    requires exists k :: 0 <= k < |s| && s[k] == 0
    ensures hash == Djb2(s)
    ensures 0 <= hash < HashModulus
  {
    var h := HashSeed;
    var i := 0;
    while s[i] != 0
      invariant 0 <= i < |s|
      invariant exists k :: i <= k < |s| && s[k] == 0
      invariant 0 <= h < HashModulus
      invariant HashFrom(h, s[i..]) == Djb2(s)
      decreases |s| - i
    {
      assert s[i..][1..] == s[i + 1..];
      h := HashStep(h, s[i]);
      i := i + 1;
    }
    hash := h;
  }
}
