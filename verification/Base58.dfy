/** Base58 text of a byte string. */
module Base58 {
  import opened Sequences

  type Byte = b: nat | b < 256

  // The alphabet: 1-9, A-H, J-N, P-Z, a-k, m-z, in this order.
  function CharOf(d: nat): char
    requires d < 58
  {
    if d < 9 then '1' + d as char
    else if d < 17 then 'A' + (d - 9) as char
    else if d < 22 then 'J' + (d - 17) as char
    else if d < 33 then 'P' + (d - 22) as char
    else if d < 44 then 'a' + (d - 33) as char
    else 'm' + (d - 44) as char
  }

  // The place of c in the alphabet, or -1.
  function IndexOf(c: char): (d: int)
    ensures -1 <= d < 58
    ensures d >= 0 ==> !IsSpace(c)
  {
    if '1' <= c <= '9' then (c - '1') as int
    else if 'A' <= c <= 'H' then 9 + (c - 'A') as int
    else if 'J' <= c <= 'N' then 17 + (c - 'J') as int
    else if 'P' <= c <= 'Z' then 22 + (c - 'P') as int
    else if 'a' <= c <= 'k' then 33 + (c - 'a') as int
    else if 'm' <= c <= 'z' then 44 + (c - 'm') as int
    else -1
  }

  const ALPHABET := "123456789" + "ABCDEFGH" + "JKLMN" + "PQRSTUVWXYZ" + "abcdefghijk" + "mnopqrstuvwxyz"

  // These characters follow one another.
  ghost predicate Runs(s: string, first: char) {
    forall i :: 0 <= i < |s| ==> s[i] as int == first as int + i
  }

  lemma AlphabetRuns()
    ensures Runs("123456789", '1') && Runs("ABCDEFGH", 'A') && Runs("JKLMN", 'J')
    ensures Runs("PQRSTUVWXYZ", 'P') && Runs("abcdefghijk", 'a') && Runs("mnopqrstuvwxyz", 'm')
  {
  }

  lemma AlphabetIs(d: nat)
    requires d < |ALPHABET|
    ensures |ALPHABET| == 58 && CharOf(d) == ALPHABET[d]
  {
    AlphabetRuns();
    var s1, s2, s3 := "123456789", "ABCDEFGH", "JKLMN";
    var s4, s5, s6 := "PQRSTUVWXYZ", "abcdefghijk", "mnopqrstuvwxyz";
    assert ALPHABET == s1 + s2 + s3 + s4 + s5 + s6;
    InOneOf(s1, s2, s3, s4, s5, s6, d);
  }

  lemma InOneOf(s1: string, s2: string, s3: string, s4: string, s5: string, s6: string, d: nat)
    requires |s1| == 9 && |s2| == 8 && |s3| == 5 && |s4| == 11 && |s5| == 11 && |s6| == 14
    requires Runs(s1, '1') && Runs(s2, 'A') && Runs(s3, 'J') && Runs(s4, 'P') && Runs(s5, 'a') && Runs(s6, 'm')
    requires d < 58
    ensures CharOf(d) == (s1 + s2 + s3 + s4 + s5 + s6)[d]
  {
  }

  lemma IndexOfChar(d: nat)
    requires d < 58
    ensures IndexOf(CharOf(d)) == d
  {
  }

  lemma CharOfIndex(c: char)
    ensures IndexOf(c) >= 0 ==> CharOf(IndexOf(c)) == c
  {
  }

  predicate IsSpace(c: char) {
    c == ' ' || '\t' <= c <= '\r'
  }

  // ---------- Numbers and digits ----------

  function Quot(n: nat, base: nat): (q: nat)
    requires base >= 2
    ensures n > 0 ==> q < n
  {
    QuotientShrinks(n, n / base, n % base, base);
    n / base
  }

  lemma QuotientShrinks(n: nat, q: nat, r: nat, base: nat)
    requires base >= 2 && n == base * q + r
    ensures n > 0 ==> q < n
  {
    assert base * q == 2 * q + (base - 2) * q;
    assert (base - 2) * q >= 0;
  }

  function Rem(n: nat, base: nat): (r: nat)
    requires base >= 2
    ensures r < base
  {
    n % base
  }

  // Digits of n, least significant first, none for 0.
  function Digits(n: nat, base: nat): (ds: seq<nat>)
    requires base >= 2
    ensures forall i :: 0 <= i < |ds| ==> ds[i] < base
    ensures ds != [] ==> ds[|ds| - 1] != 0
  {
    if n == 0 then [] else [Rem(n, base)] + Digits(Quot(n, base), base)
  }

  function Times(a: nat, b: nat): nat {
    a * b
  }

  function Number(ds: seq<nat>, base: nat): nat {
    if ds == [] then 0 else ds[0] + Times(base, Number(ds[1..], base))
  }

  lemma DivModBack(n: nat, base: nat)
    requires base >= 2
    ensures Rem(n, base) + Times(base, Quot(n, base)) == n
  {
  }

  lemma {:induction false} NumberOfDigits(n: nat, base: nat)
    requires base >= 2
    ensures Number(Digits(n, base), base) == n
    decreases n
  {
    hide Times, Quot, Rem;
    if n > 0 {
      var q := Quot(n, base);
      NumberOfDigits(q, base);
      DivModBack(n, base);
      assert Digits(n, base)[1..] == Digits(q, base);
    }
  }

  // A number has only one numeral without a leading zero.
  lemma {:induction false} DigitsOfNumber(ds: seq<nat>, base: nat)
    requires base >= 2 && forall i :: 0 <= i < |ds| ==> ds[i] < base
    requires ds != [] ==> ds[|ds| - 1] != 0
    ensures Digits(Number(ds, base), base) == ds
    ensures ds != [] ==> Number(ds, base) > 0
    decreases |ds|
  {
    hide Times, Quot, Rem;
    if ds != [] {
      var rest := Number(ds[1..], base);
      DigitsOfNumber(ds[1..], base);
      var n := Number(ds, base);
      assert n == ds[0] + Times(base, rest);
      DivMod(ds[0], rest, base);
      assert n > 0 by {
        if ds[0] == 0 {
          assert |ds| > 1 && rest > 0;
        }
      }
      assert ds == [ds[0]] + ds[1..];
    }
  }

  lemma MultipleIsBig(base: nat, x: nat)
    requires x >= 1
    ensures base * x >= base
  {
    assert base * x == base * (x - 1) + base;
  }

  lemma SmallMultipleIsZero(base: nat, x: int)
    requires base * x < base && base * -x < base
    ensures x == 0
  {
    if x >= 1 {
      MultipleIsBig(base, x);
    } else if x <= -1 {
      MultipleIsBig(base, -x);
    }
  }

  lemma DivMod(d: nat, q: nat, base: nat)
    requires base >= 2 && d < base
    ensures Rem(d + Times(base, q), base) == d && Quot(d + Times(base, q), base) == q
    ensures q > 0 ==> Times(base, q) > 0
  {
    var n := d + base * q;
    var k, r := n / base, n % base;
    DivModBack(n, base);
    assert base * (k - q) == base * k - base * q == d - r;
    SmallMultipleIsZero(base, k - q);
  }

  // ---------- Bytes ----------

  // Big-endian value and its big-endian bytes without leading zeros.
  function Reverse<T>(s: seq<T>): (r: seq<T>)
    ensures |r| == |s| && forall i :: 0 <= i < |s| ==> r[i] == s[|s| - 1 - i]
  {
    seq(|s|, i requires 0 <= i < |s| => s[|s| - 1 - i])
  }

  // Number of leading elements equal to x.
  function Leading<T(==)>(s: seq<T>, x: T): (n: nat)
    ensures n <= |s|
    ensures forall i :: 0 <= i < n ==> s[i] == x
    ensures n < |s| ==> s[n] != x
  {
    if s == [] || s[0] != x then 0 else 1 + Leading(s[1..], x)
  }

  lemma {:induction false} ZerosAreZero(k: nat, base: nat)
    ensures Number(Repeat<nat>(0, k), base) == 0
    decreases k
  {
    if k > 0 {
      var c: seq<nat> := Repeat<nat>(0, k);
      assert c[1..] == Repeat<nat>(0, k - 1);
      ZerosAreZero(k - 1, base);
    }
  }

  lemma {:induction false} TrailingZerosAddNothing(ds: seq<nat>, k: nat, base: nat)
    ensures Number(ds + Repeat<nat>(0, k), base) == Number(ds, base)
    decreases |ds|
  {
    if ds == [] {
      assert ds + Repeat<nat>(0, k) == Repeat<nat>(0, k);
      ZerosAreZero(k, base);
    } else {
      hide Times;
      assert (ds + Repeat<nat>(0, k))[1..] == ds[1..] + Repeat<nat>(0, k);
      TrailingZerosAddNothing(ds[1..], k, base);
    }
  }

  // A little-endian string is the digits of its number, then its high zeros.
  lemma NumberAndZeros(ds: seq<nat>, z: nat, base: nat)
    requires base >= 2 && (forall i :: 0 <= i < |ds| ==> ds[i] < base)
    requires z == Leading(Reverse(ds), 0)
    ensures ds == Digits(Number(ds, base), base) + Repeat<nat>(0, z)
  {
    hide Times, Quot, Rem, Number, Digits;
    var low := ds[..|ds| - z];
    HighZeros(ds, z);
    TrailingZerosAddNothing(low, z, base);
    DigitsOfNumber(low, base);
  }

  lemma HighZeros(ds: seq<nat>, z: nat)
    requires z == Leading(Reverse(ds), 0)
    ensures ds == ds[..|ds| - z] + Repeat<nat>(0, z)
    ensures z < |ds| ==> ds[|ds| - z - 1] != 0
  {
    var r := Reverse(ds);
    forall i | |ds| - z <= i < |ds| ensures ds[i] == 0 {
      assert r[|ds| - 1 - i] == 0;
    }
    assert z < |ds| ==> r[z] == ds[|ds| - z - 1];
  }

  // ---------- Text ----------

  function Chars(ds: seq<nat>): (s: string)
    requires forall i :: 0 <= i < |ds| ==> ds[i] < 58
    ensures |s| == |ds| && forall i :: 0 <= i < |ds| ==> s[i] == CharOf(ds[i])
  {
    seq(|ds|, i requires 0 <= i < |ds| => CharOf(ds[i]))
  }

  predicate AllBase58(s: string) {
    forall i :: 0 <= i < |s| ==> IndexOf(s[i]) >= 0
  }

  function Indices(s: string): (ds: seq<nat>)
    requires AllBase58(s)
    ensures |ds| == |s| && forall i :: 0 <= i < |s| ==> ds[i] == IndexOf(s[i])
  {
    seq(|s|, i requires 0 <= i < |s| => IndexOf(s[i]))
  }

  // The big number a byte string stands for.
  function ValueOf(bytes: seq<Byte>): nat {
    Number(Reverse<nat>(bytes), 256)
  }

  // One 1 for every leading zero byte, then the number in base 58.
  function Encoded(bytes: seq<Byte>): string {
    Repeat('1', Leading<nat>(bytes, 0)) + Reverse(Chars(Digits(ValueOf(bytes), 58)))
  }

  // The inverse, for text of the alphabet alone.
  function DecodedText(s: string): seq<nat>
    requires AllBase58(s)
  {
    Repeat<nat>(0, Leading(s, '1')) + Reverse(Digits(Number(Reverse(Indices(s)), 58), 256))
  }

  lemma ReverseTwice(xs: seq<nat>)
    ensures Reverse(Reverse(xs)) == xs
  {
  }

  lemma ReverseZeros(d: seq<nat>, z: nat)
    ensures Reverse(d + Repeat<nat>(0, z)) == Repeat<nat>(0, z) + Reverse(d)
  {
  }

  // A big-endian numeral is its leading zeros and the digits of its number.
  lemma LeadingZerosAndNumber(xs: seq<nat>, base: nat)
    requires base >= 2 && forall i :: 0 <= i < |xs| ==> xs[i] < base
    ensures xs == Repeat<nat>(0, Leading(xs, 0)) + Reverse(Digits(Number(Reverse(xs), base), base))
  {
    hide Number, Digits, Leading;
    var ds, z := Reverse(xs), Leading(xs, 0);
    ReverseTwice(xs);
    NumberAndZeros(ds, z, base);
    ReverseZeros(Digits(Number(ds, base), base), z);
  }

  // Such a numeral, read back, has that number and that many leading zeros.
  lemma ReadBack(z: nat, n: nat, base: nat)
    requires base >= 2
    ensures var xs := Repeat<nat>(0, z) + Reverse(Digits(n, base));
      Number(Reverse(xs), base) == n && Leading(xs, 0) == z
  {
    hide Number, Digits;
    var d := Digits(n, base);
    var xs := Repeat<nat>(0, z) + Reverse(d);
    assert Reverse(xs) == d + Repeat<nat>(0, z);
    TrailingZerosAddNothing(d, z, base);
    NumberOfDigits(n, base);
    LeadingAfterCopies(z, Reverse(d));
  }

  lemma {:induction false} LeadingAfterCopies(z: nat, xs: seq<nat>)
    requires xs != [] ==> xs[0] != 0
    ensures Leading(Repeat<nat>(0, z) + xs, 0) == z
    decreases z
  {
    if z > 0 {
      assert (Repeat<nat>(0, z) + xs)[1..] == Repeat<nat>(0, z - 1) + xs;
      LeadingAfterCopies(z - 1, xs);
    }
  }

  // Text and digits have the same leading part: '1' is the digit 0.
  lemma {:induction false} LeadingOnes(s: string)
    requires AllBase58(s)
    ensures Leading(s, '1') == Leading(Indices(s), 0)
    decreases |s|
  {
    if s != [] {
      CharOfIndex(s[0]);
      assert Indices(s)[1..] == Indices(s[1..]);
      LeadingOnes(s[1..]);
    }
  }

  lemma TextOfDigits(z: nat, d: seq<nat>)
    requires forall i :: 0 <= i < |d| ==> d[i] < 58
    ensures var s := Repeat('1', z) + Reverse(Chars(d));
      AllBase58(s) && Indices(s) == Repeat<nat>(0, z) + Reverse(d)
  {
    forall i | 0 <= i < |d| ensures IndexOf(CharOf(d[i])) == d[i] {
      IndexOfChar(d[i]);
    }
  }

  // Decoding the encoding of any byte string gives it back.
  lemma DecodeEncode(bytes: seq<Byte>)
    ensures AllBase58(Encoded(bytes)) && DecodedText(Encoded(bytes)) == bytes
  {
    hide Number, Digits;
    var z, n := Leading<nat>(bytes, 0), ValueOf(bytes);
    TextOfDigits(z, Digits(n, 58));
    ReadBack(z, n, 58);
    LeadingOnes(Encoded(bytes));
    LeadingZerosAndNumber(bytes, 256);
  }

  // Encoding what a text of the alphabet decodes to gives the text back.
  lemma EncodeDecode(s: string)
    requires AllBase58(s)
    ensures (forall i :: 0 <= i < |DecodedText(s)| ==> DecodedText(s)[i] < 256)
    ensures Encoded(DecodedText(s)) == s
  {
    hide Number, Digits;
    var ds := Indices(s);
    var z, n := Leading(s, '1'), Number(Reverse(ds), 58);
    LeadingOnes(s);
    ReadBack(z, n, 256);
    LeadingZerosAndNumber(ds, 58);
    TextOfDigits(z, Digits(n, 58));
    SameIndices(s, Repeat('1', z) + Reverse(Chars(Digits(n, 58))));
  }

  // The number a numeral stands for, its first digit counting most.
  function BigEndian(ds: seq<nat>, base: nat): nat {
    if ds == [] then 0 else BigEndian(ds[..|ds| - 1], base) * base + ds[|ds| - 1]
  }

  lemma {:induction false} NumberIsBigEndian(ds: seq<nat>, base: nat)
    ensures Number(Reverse(ds), base) == BigEndian(ds, base)
    decreases |ds|
  {
    if ds != [] {
      var front, last := ds[..|ds| - 1], ds[|ds| - 1];
      NumberIsBigEndian(front, base);
      assert Reverse(ds)[0] == last && Reverse(ds)[1..] == Reverse(front);
    }
  }

  // The text is the same number in base 58, its digits taken from the alphabet, and has
  // a 1 at its head for every zero byte at the head of the bytes.
  lemma EncodedIsSameNumber(bytes: seq<Byte>)
    ensures var s := Encoded(bytes);
      && AllBase58(s) && BigEndian(Indices(s), 58) == BigEndian(bytes, 256)
      && Leading(s, '1') == Leading<nat>(bytes, 0)
      && forall i :: 0 <= i < |s| ==> s[i] == ALPHABET[Indices(s)[i]]
  {
    var s := Encoded(bytes);
    EncodedNumber(bytes);
    NumberIsBigEndian(Indices(s), 58);
    NumberIsBigEndian(bytes, 256);
    forall i | 0 <= i < |s| ensures s[i] == ALPHABET[Indices(s)[i]] {
      CharOfIndex(s[i]);
      AlphabetIs(Indices(s)[i]);
    }
  }

  lemma EncodedNumber(bytes: seq<Byte>)
    ensures var s := Encoded(bytes);
      && AllBase58(s) && Number(Reverse(Indices(s)), 58) == ValueOf(bytes)
      && Leading(s, '1') == Leading<nat>(bytes, 0)
  {
    hide Number, Digits;
    var z, n := Leading<nat>(bytes, 0), ValueOf(bytes);
    TextOfDigits(z, Digits(n, 58));
    ReadBack(z, n, 58);
    LeadingOnes(Encoded(bytes));
  }

  lemma SameIndices(s: string, t: string)
    requires AllBase58(s) && AllBase58(t) && Indices(s) == Indices(t)
    ensures s == t
  {
    forall i | 0 <= i < |s| ensures s[i] == t[i] {
      assert Indices(s)[i] == Indices(t)[i];
      CharOfIndex(s[i]);
      CharOfIndex(t[i]);
    }
  }

  // ---------- The two routines ----------

  lemma CharsCons(x: nat, rest: seq<nat>)
    requires x < 58 && forall i :: 0 <= i < |rest| ==> rest[i] < 58
    ensures Chars([x] + rest) == [CharOf(x)] + Chars(rest)
  {
    hide CharOf;
  }

  lemma NextChar(n: nat)
    requires n > 0
    ensures Chars(Digits(n, 58)) == [CharOf(Rem(n, 58))] + Chars(Digits(Quot(n, 58), 58))
  {
    hide CharOf, Chars, Rem, Quot;
    CharsCons(Rem(n, 58), Digits(Quot(n, 58), 58));
  }

  lemma Regroup(s: string, c: char, t: string)
    ensures s + ([c] + t) == s + [c] + t
  {
  }

  // The division loop: least significant digit first.
  method DigitChars(n: nat) returns (str: string)
    ensures str == Chars(Digits(n, 58))
  {
    hide Digits, Chars, CharOf, Quot, Rem;
    str := "";
    var bn := n;
    while bn > 0
      invariant str + Chars(Digits(bn, 58)) == Chars(Digits(n, 58))
    {
      NextChar(bn);
      var c, dv := CharOf(Rem(bn, 58)), Quot(bn, 58);
      Regroup(str, c, Chars(Digits(dv, 58)));
      str, bn := str + [c], dv;
    }
    NothingForZero();
    assert str + [] == str;
  }

  lemma NothingForZero()
    ensures Chars(Digits(0, 58)) == []
  {
  }

  method EncodeBase58(bytes: seq<Byte>) returns (str: string)
    ensures str == Encoded(bytes)
  {
    hide Number, Digits, Chars, CharOf;
    str := DigitChars(ValueOf(bytes));
    ghost var low, z := str, Leading<nat>(bytes, 0);
    var p := 0;
    while p < |bytes| && bytes[p] == 0
      invariant p <= z && str == low + Repeat('1', p)
    {
      str := str + ['1'];
      p := p + 1;
    }
    assert Reverse(low + Repeat('1', z)) == Repeat('1', z) + Reverse(low);
    str := Reverse(str);
  }

  // The text without its leading white space.
  function SkipSpaces(s: string): string {
    if s != [] && IsSpace(s[0]) then SkipSpaces(s[1..]) else s
  }

  // Number of leading characters of the alphabet.
  function TextLength(s: string): (n: nat)
    ensures n <= |s| && AllBase58(s[..n])
    ensures n < |s| ==> IndexOf(s[n]) < 0
  {
    if s == [] || IndexOf(s[0]) < 0 then 0
    else
      var n := 1 + TextLength(s[1..]);
      assert forall i :: 0 < i < n ==> s[i] == s[1..][i - 1];
      n
  }

  predicate AllSpaces(s: string) {
    forall i :: 0 <= i < |s| ==> IsSpace(s[i])
  }

  lemma NumberCons(d: nat, ds: seq<nat>)
    ensures Number([d] + ds, 58) == d + Times(58, Number(ds, 58))
  {
    assert ([d] + ds)[1..] == ds;
  }

  lemma NumberSnoc(s: string, k: nat)
    requires k < |s| && AllBase58(s[..k + 1])
    ensures AllBase58(s[..k])
    ensures Number(Reverse(Indices(s[..k + 1])), 58) == IndexOf(s[k]) + Times(58, Number(Reverse(Indices(s[..k])), 58))
  {
    hide Number, Times, IndexOf;
    var a, b := Reverse(Indices(s[..k])), Reverse(Indices(s[..k + 1]));
    assert forall i :: 0 <= i < k ==> s[..k][i] == s[..k + 1][i];
    assert b == [IndexOf(s[k])] + a;
    NumberCons(IndexOf(s[k]), a);
  }

  lemma LeadingOfPrefix(s: string, n: nat)
    requires n <= |s| && (n < |s| ==> s[n] != '1')
    ensures Leading(s[..n], '1') == Leading(s, '1')
  {
    var a, b := Leading(s[..n], '1'), Leading(s, '1');
    var t := s[..n];
    assert forall i :: 0 <= i < n ==> t[i] == s[i];
    assert a < n ==> t[a] == s[a];
  }

  // White space may stand before and after the text, nothing else may.
  method DecodeBase58(psz: string) returns (ok: bool, vchRet: seq<nat>)
    ensures var s := SkipSpaces(psz);
      && (ok <==> AllSpaces(s[TextLength(s)..]))
      && (ok ==> vchRet == DecodedText(s[..TextLength(s)]))
  {
    vchRet := [];
    var s := psz;
    while s != [] && IsSpace(s[0])
      invariant SkipSpaces(s) == SkipSpaces(psz)
      decreases |s|
    {
      s := s[1..];
    }
    ok, vchRet := DecodeSkipped(s);
  }

  // The text `t` with white space around it.
  ghost predicate Padded(psz: string, t: string) {
    AllBase58(t) && exists n: nat :: n + |t| <= |psz| && PaddedAt(psz, t, n)
  }

  ghost predicate PaddedAt(psz: string, t: string, n: nat)
    requires n + |t| <= |psz|
  {
    AllSpaces(psz[..n]) && psz[n..n + |t|] == t && AllSpaces(psz[n + |t|..])
  }

  lemma {:induction false} SkipsSpaces(s: string, n: nat)
    requires n <= |s| && AllSpaces(s[..n]) && (n < |s| ==> !IsSpace(s[n]))
    ensures SkipSpaces(s) == s[n..]
    decreases n
  {
    if n > 0 {
      assert s[0] == s[..n][0];
      assert s[1..][..n - 1] == s[..n][1..] && s[1..][n - 1..] == s[n..];
      SkipsSpaces(s[1..], n - 1);
    }
  }

  lemma {:induction false} TextEnds(s: string, n: nat)
    requires n <= |s| && AllBase58(s[..n]) && (n < |s| ==> IndexOf(s[n]) < 0)
    ensures TextLength(s) == n
    decreases n
  {
    if n > 0 {
      assert s[0] == s[..n][0];
      assert s[1..][..n - 1] == s[..n][1..];
      TextEnds(s[1..], n - 1);
    }
  }

  // Text with white space around it is read as that text.
  lemma PaddedIsRead(psz: string, t: string)
    requires Padded(psz, t) && t != []
    ensures var s := SkipSpaces(psz); s[..TextLength(s)] == t && AllSpaces(s[TextLength(s)..])
  {
    var n: nat :| n + |t| <= |psz| && PaddedAt(psz, t, n);
    assert psz[n] == t[0] && IndexOf(t[0]) >= 0;
    SkipsSpaces(psz, n);
    var s := psz[n..];
    assert s[..|t|] == t && s[|t|..] == psz[n + |t|..];
    assert |t| < |s| ==> s[|t|..][0] == s[|t|];
    TextEnds(s, |t|);
  }

  lemma {:induction false} SkippedAreSpaces(psz: string)
    ensures |SkipSpaces(psz)| <= |psz| && SkipSpaces(psz) == psz[|psz| - |SkipSpaces(psz)|..]
    ensures AllSpaces(psz[..|psz| - |SkipSpaces(psz)|])
    decreases |psz|
  {
    if psz != [] && IsSpace(psz[0]) {
      SkippedAreSpaces(psz[1..]);
      var n := |psz| - |SkipSpaces(psz)|;
      assert psz[..n] == [psz[0]] + psz[1..][..n - 1];
    }
  }

  // And nothing else is read without an error.
  lemma ReadIsPadded(psz: string)
    requires var s := SkipSpaces(psz); AllSpaces(s[TextLength(s)..])
    ensures var s := SkipSpaces(psz); Padded(psz, s[..TextLength(s)])
  {
    SkippedAreSpaces(psz);
    var s := SkipSpaces(psz);
    var n := |psz| - |s|;
    assert psz[n..n + TextLength(s)] == s[..TextLength(s)] && psz[n + TextLength(s)..] == s[TextLength(s)..];
    assert PaddedAt(psz, s[..TextLength(s)], n);
  }

  method OnlySpacesFrom(s: string, p: nat) returns (only: bool)
    requires p <= |s|
    ensures only <==> AllSpaces(s[p..])
  {
    var q := p;
    while q < |s| && IsSpace(s[q])
      invariant p <= q <= |s| && forall i :: p <= i < q ==> IsSpace(s[i])
    {
      q := q + 1;
    }
    only := q == |s|;
    assert !only ==> s[p..][q - p] == s[q];
  }

  method DecodeSkipped(s: string) returns (ok: bool, vchRet: seq<nat>)
    ensures ok <==> AllSpaces(s[TextLength(s)..])
    ensures ok ==> vchRet == DecodedText(s[..TextLength(s)])
  {
    hide Number, Digits;
    ghost var len := TextLength(s);
    var bn, p := 0, 0;
    EmptyNumber();
    while p < |s|
      invariant 0 <= p <= len && AllBase58(s[..p])
      invariant bn == Number(Reverse(Indices(s[..p])), 58)
    {
      var d := IndexOf(s[p]);
      if d < 0 {
        ok := OnlySpacesFrom(s, p);
        if !ok {
          return false, [];
        }
        break;
      }
      assert s[..len][p] == s[p];
      NumberSnoc(s, p);
      bn := bn * 58 + d;
      p := p + 1;
    }
    LeadingOfPrefix(s, len);
    vchRet := Repeat<nat>(0, Leading(s, '1')) + Reverse(Digits(bn, 256));
    ok := true;
  }

  lemma EmptyNumber()
    ensures Number([], 58) == 0
  {
  }

  // Decoding what was encoded succeeds and returns the same bytes.
  method RoundTrip(bytes: seq<Byte>) returns (ok: bool, back: seq<nat>)
    ensures ok && back == bytes
  {
    var s := EncodeBase58(bytes);
    DecodeEncode(bytes);
    WholeText(s);
    ok, back := DecodeBase58(s);
  }

  lemma {:induction false} WholeText(s: string)
    requires AllBase58(s)
    ensures SkipSpaces(s) == s && TextLength(s) == |s| && s[..|s|] == s
    decreases |s|
  {
    if s != [] {
      WholeText(s[1..]);
    }
  }
}
