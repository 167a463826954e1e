/** The few Java runtime behaviours the model depends on: nullable values, exceptions,
    32-bit int arithmetic, Objects.hash, java.util.UUID and the String members
    indexOf and substring. */
module JavaLang {

  /** A nullable reference: None plays Java's null. Also used for java.util.Optional. */
  datatype Option<+T> = None | Some(value: T)

  /** The exceptions the modelled code can raise or let through. */
  datatype JavaException =
    | NullPointerException
    | IllegalArgumentException
    | StringIndexOutOfBoundsException
    | URISyntaxException(reason: string)
    | RuntimeException(cause: JavaException)
    | ConstraintViolationException
    | EmptyResultDataAccessException

  /** The result of a Java call: a normal return or a thrown exception. */
  datatype Outcome<+T> = Returns(value: T) | Throws(exception: JavaException)

  newtype int32 = x: int | -0x8000_0000 <= x < 0x8000_0000

  /** Java's int arithmetic: the result is reduced modulo 2^32 into the signed range. */
  function Wrap(x: int): (r: int32)
    ensures (r as int - x) % 0x1_0000_0000 == 0
    ensures -0x8000_0000 <= x < 0x8000_0000 ==> r as int == x
  {
    ((x + 0x8000_0000) % 0x1_0000_0000 - 0x8000_0000) as int32
  }

  /** Reads 32 bits as a two's-complement int. */
  function SignedOf(b: bv32): (r: int32)
    ensures (r as int - b as int) % 0x1_0000_0000 == 0
  {
    if b as int < 0x8000_0000 then b as int as int32 else (b as int - 0x1_0000_0000) as int32
  }

  /** The polynomial 31^n * acc + 31^(n-1) * h0 + ... + h(n-1) over unbounded integers. */
  ghost function Horner(acc: int, hashes: seq<int32>): int
    decreases |hashes|
  {
    if hashes == [] then acc else Horner(31 * acc + hashes[0] as int, hashes[1..])
  }

  /** Horner keeps a congruence modulo 2^32 of its starting value. */
  lemma {:induction false} HornerCongruent(a: int, b: int, hashes: seq<int32>)
    requires (a - b) % 0x1_0000_0000 == 0
    ensures (Horner(a, hashes) - Horner(b, hashes)) % 0x1_0000_0000 == 0
    decreases |hashes|
  {
    if hashes != [] {
      var q := (a - b) / 0x1_0000_0000;
      assert a - b == 0x1_0000_0000 * q;
      assert (31 * a + hashes[0] as int) - (31 * b + hashes[0] as int) == 0x1_0000_0000 * (31 * q);
      HornerCongruent(31 * a + hashes[0] as int, 31 * b + hashes[0] as int, hashes[1..]);
    }
  }

  /** Arrays.hashCode, which Objects.hash calls: start at 1 and fold in 31 * h + e, in int
      arithmetic. The result is the exact polynomial hash reduced modulo 2^32. */
  function HashFold(acc: int32, hashes: seq<int32>): (r: int32)
    ensures (r as int - Horner(acc as int, hashes)) % 0x1_0000_0000 == 0
    decreases |hashes|
  {
    if hashes == [] then acc
    else
      var next := Wrap(31 * acc as int + hashes[0] as int);
      HornerCongruent(next as int, 31 * acc as int + hashes[0] as int, hashes[1..]);
      HashFold(next, hashes[1..])
  }

  /** Objects.hash: 1 for no values, 31 + h for one value h. */
  function ObjectsHash(hashes: seq<int32>): (r: int32)
    ensures (r as int - Horner(1, hashes)) % 0x1_0000_0000 == 0
    ensures hashes == [] ==> r == 1
    ensures |hashes| == 1 ==> r == Wrap(31 + hashes[0] as int)
  {
    HashFold(1, hashes)
  }

  /** Boolean.hashCode: true and false hash apart, and neither hashes to 0. */
  function BooleanHash(b: bool): (r: int32)
    ensures r != 0 && (b <==> r == 1231) && (!b <==> r == 1237)
  {
    if b then 1231 else 1237
  }

  /** The hash Objects.hash gives a nullable Boolean: null, true and false all hash apart. */
  function NullableBooleanHash(b: Option<bool>): (r: int32)
    ensures r == 0 <==> b.None?
    ensures b == Some(true) <==> r == 1231
    ensures b == Some(false) <==> r == 1237
  {
    if b.None? then 0 else BooleanHash(b.value)
  }

  /** String.length(): the number of UTF-16 code units, two for each character outside the
      Basic Multilingual Plane. */
  function Utf16Length(s: string): (n: nat)
    ensures |s| <= n <= 2 * |s|
    ensures (forall i :: 0 <= i < |s| ==> s[i] as int < 0x1_0000) ==> n == |s|
    decreases |s|
  {
    if s == [] then 0 else (if s[0] as int < 0x1_0000 then 1 else 2) + Utf16Length(s[1..])
  }

  /** Boolean.toString. */
  function BooleanString(b: bool): string {
    if b then "true" else "false"
  }

  /** A java.util.UUID: its two 64-bit halves. */
  datatype Uuid = Uuid(mostSigBits: bv64, leastSigBits: bv64)

  /** UUID.hashCode: the xor of the two halves, folded to 32 bits. */
  function UuidHash(u: Uuid): int32 {
    var hilo := u.mostSigBits ^ u.leastSigBits;
    var high := ((hilo >> 32) as int % 0x1_0000_0000) as bv32;
    var low := ((hilo & 0xFFFF_FFFF) as int % 0x1_0000_0000) as bv32;
    SignedOf(high ^ low)
  }

  /** String.indexOf for one character: the first position holding c, or -1. */
  function IndexOf(s: string, c: char): (r: int)
    ensures -1 <= r < |s|
    ensures r == -1 <==> c !in s
    ensures r >= 0 ==> s[r] == c && c !in s[..r]
  {
    if s == [] then -1
    else if s[0] == c then 0
    else
      var rest := IndexOf(s[1..], c);
      assert rest >= 0 ==> s[..rest + 1] == [s[0]] + s[1..][..rest];
      if rest == -1 then -1 else rest + 1
  }

  /** String.substring(begin, end): it throws unless 0 <= begin <= end <= length. */
  function Substring(s: string, begin: int, end: int): (r: Outcome<string>)
    ensures r.Returns? <==> 0 <= begin <= end <= |s|
    ensures r.Returns? ==> |r.value| == end - begin && forall k :: 0 <= k < |r.value| ==> r.value[k] == s[begin + k]
    ensures r.Throws? ==> r.exception == StringIndexOutOfBoundsException
  {
    if 0 <= begin <= end <= |s| then Returns(s[begin..end]) else Throws(StringIndexOutOfBoundsException)
  }
}
