/** Byte strings, and SHA-256 (FIPS 180-4) as an injective function that is left uninterpreted. */
module Digests {

  type Byte = b: int | 0 <= b < 256

  type Bytes = seq<Byte>

  /** Lower-case hexadecimal, at least three digits: the shape of every digest used as a storage key. */
  predicate IsHex(s: string) {
    && |s| >= 3
    && forall i | 0 <= i < |s| :: '0' <= s[i] <= '9' || 'a' <= s[i] <= 'f'
  }

  /**
   * The hex SHA-256 of file contents and of the strings that name references. Go hashes bytes in both
   * cases; names are kept as `string` here, hence two functions.
   */
  datatype Sha256 = Sha256(content: Bytes -> string, text: string -> string) {

    /** What the proofs assume of the digest: hex output, and no two inputs with the same output. */
    ghost predicate Ideal() {
      && (forall b: Bytes :: IsHex(content(b)))
      && (forall b: Bytes, c: Bytes :: content(b) == content(c) ==> b == c)
      && (forall s :: IsHex(text(s)))
      && (forall s, t :: text(s) == text(t) ==> s == t)
    }
  }

  // The assumption `Ideal` is satisfiable: writing every number out in unary, terminated, is such a digest.

  function Unary(n: nat): (s: string)
    ensures |s| == n + 1
    ensures forall i | 0 <= i < n :: s[i] == '1'
    ensures s[n] == '0'
  {
    if n == 0 then "0" else "1" + Unary(n - 1)
  }

  function UnaryAll(b: seq<nat>): (s: string)
    ensures forall i | 0 <= i < |s| :: s[i] == '0' || s[i] == '1'
  {
    if b == [] then "" else Unary(b[0]) + UnaryAll(b[1..])
  }

  lemma {:induction false} UnaryAllInjective(b: seq<nat>, c: seq<nat>)
    requires UnaryAll(b) == UnaryAll(c)
    ensures b == c
  {
    if b == [] || c == [] {
      assert b != [] ==> |UnaryAll(b)| > 0;
      assert c != [] ==> |UnaryAll(c)| > 0;
    } else {
      var m, n := b[0], c[0];
      assert UnaryAll(b)[m] == '0' && UnaryAll(c)[n] == '0';
      assert forall i | 0 <= i < m :: UnaryAll(b)[i] == '1';
      assert forall i | 0 <= i < n :: UnaryAll(c)[i] == '1';
      assert m == n;
      assert UnaryAll(b)[m + 1..] == UnaryAll(b[1..]);
      assert UnaryAll(c)[n + 1..] == UnaryAll(c[1..]);
      UnaryAllInjective(b[1..], c[1..]);
      assert b == [m] + b[1..] && c == [n] + c[1..];
    }
  }

  function Codes(s: string): (r: seq<nat>)
    ensures |r| == |s|
    ensures forall i | 0 <= i < |s| :: r[i] == s[i] as nat
  {
    seq(|s|, i requires 0 <= i < |s| => s[i] as nat)
  }

  function SumOfBytes(b: Bytes): (s: string)
    ensures IsHex(s)
  {
    "000" + UnaryAll(b)
  }

  function SumOfText(t: string): (s: string)
    ensures IsHex(s)
  {
    "000" + UnaryAll(Codes(t))
  }

  lemma SumOfBytesInjective(b: Bytes, c: Bytes)
    requires SumOfBytes(b) == SumOfBytes(c)
    ensures b == c
  {
    assert SumOfBytes(b)[3..] == UnaryAll(b) && SumOfBytes(c)[3..] == UnaryAll(c);
    UnaryAllInjective(b, c);
  }

  lemma SumOfTextInjective(s: string, t: string)
    requires SumOfText(s) == SumOfText(t)
    ensures s == t
  {
    assert SumOfText(s)[3..] == UnaryAll(Codes(s)) && SumOfText(t)[3..] == UnaryAll(Codes(t));
    UnaryAllInjective(Codes(s), Codes(t));
    assert forall i | 0 <= i < |s| :: s[i] as nat == Codes(s)[i] == Codes(t)[i] == t[i] as nat;
  }

  lemma IdealDigestExists()
    ensures exists sha: Sha256 :: sha.Ideal()
  {
    forall b: Bytes, c: Bytes | SumOfBytes(b) == SumOfBytes(c) ensures b == c {
      SumOfBytesInjective(b, c);
    }
    forall s: string, t: string | SumOfText(s) == SumOfText(t) ensures s == t {
      SumOfTextInjective(s, t);
    }
    assert Sha256(SumOfBytes, SumOfText).Ideal();
  }
}
