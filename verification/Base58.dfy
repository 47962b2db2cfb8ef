/** DecodeBase58 of pubkey_utils.hpp: the in-place base-58 to base-256 conversion, and why its
    buffer of strlen * 733 / 1000 + 1 bytes is always big enough. */
module Base58 {
  import opened Tables
  import opened Positional
  import opened Characters

  type Byte = b: int | 0 <= b < 256

  /** The characters of a C string before its terminating NUL. */
  type CString = s: string | forall k :: 0 <= k < |s| ==> 0 < s[k] as int < 256

  /** `pszBase58` */
  const CAPITALS: string := "123456789" + "ABCDEFGH" + "JKLMN" + "PQRSTUVWXYZ"
  const SMALL: string := "abcdefghijk" + "mnopqrstuvwxyz"
  const ALPHABET: string := CAPITALS + SMALL

  function Gap(n: nat): seq<int> { seq(n, _ => -1) }

  /** `mapBase58`, run by run; a gap is a run of -1, for characters outside the alphabet. */
  const MAP_CAPITALS: seq<int> :=
    Gap(49) + [0, 1, 2, 3, 4, 5, 6, 7, 8] +
    Gap(7) + [9, 10, 11, 12, 13, 14, 15, 16] +
    Gap(1) + [17, 18, 19, 20, 21] +
    Gap(1) + [22, 23, 24, 25, 26, 27, 28, 29, 30, 31, 32]
  const MAP_SMALL: seq<int> :=
    Gap(6) + [33, 34, 35, 36, 37, 38, 39, 40, 41, 42, 43] +
    Gap(1) + [44, 45, 46, 47, 48, 49, 50, 51, 52, 53, 54, 55, 56, 57] +
    Gap(133)
  const MAP_BASE58: seq<int> := MAP_CAPITALS + MAP_SMALL

  /** The two tables in closed form: the code of the k-th letter, and the digit of a code. */
  function Letter(k: int): (c: Byte)
    requires 0 <= k < 58
  {
    if k <= 8 then k + 49 else if k <= 16 then k + 56 else if k <= 21 then k + 57
    else if k <= 32 then k + 58 else if k <= 43 then k + 64 else k + 65
  }

  function Digit(code: int): int {
    if code < 49 then -1 else if code <= 57 then code - 49
    else if code < 65 then -1 else if code <= 72 then code - 56
    else if code < 74 then -1 else if code <= 78 then code - 57
    else if code < 80 then -1 else if code <= 90 then code - 58
    else if code < 97 then -1 else if code <= 107 then code - 64
    else if code < 109 then -1 else if code <= 122 then code - 65
    else -1
  }

  function DigitOf(c: char): int {
    Digit(c as int)
  }

  predicate InAlphabet(c: char) {
    DigitOf(c) != -1
  }

  lemma CapitalsAreLetters(k: int)
    requires 0 <= k < 33
    ensures |CAPITALS| == 33 && CAPITALS[k] as int == Letter(k)
  {
  }

  lemma SmallAreLetters(k: int)
    requires 33 <= k < 58
    ensures |SMALL| == 25 && SMALL[k - 33] as int == Letter(k)
  {
  }

  lemma AlphabetInClosedForm(k: int)
    requires 0 <= k < 58
    ensures |ALPHABET| == 58 && ALPHABET[k] as int == Letter(k)
  {
    CapitalsAreLetters(if k < 33 then k else 0);
    SmallAreLetters(if k < 33 then 33 else k);
  }

  lemma CapitalsInClosedForm(c: int)
    requires 0 <= c < 91
    ensures |MAP_CAPITALS| == 91 && MAP_CAPITALS[c] == Digit(c)
  {
  }

  lemma SmallInClosedForm(c: int)
    requires 91 <= c < 256
    ensures |MAP_SMALL| == 165 && MAP_SMALL[c - 91] == Digit(c)
  {
  }

  lemma MapInClosedForm(c: Byte)
    ensures |MAP_BASE58| == 256 && MAP_BASE58[c] == Digit(c)
  {
    CapitalsInClosedForm(if c < 91 then c else 0);
    SmallInClosedForm(if c < 91 then 91 else c);
  }

  lemma DigitInvertsLetter(k: int, c: Byte)
    requires 0 <= k < 58
    ensures Digit(Letter(k)) == k && -1 <= Digit(c) < 58
    ensures Digit(c) != -1 ==> Letter(Digit(c)) == c
  {
  }

  /** The two tables of the source invert each other: the k-th letter maps to k, and a character
      with a digit is the letter of that digit. */
  lemma TablesAreInverse(k: int, c: Byte)
    requires 0 <= k < 58
    ensures |ALPHABET| == 58 && |MAP_BASE58| == 256 && ALPHABET[k] as int < 256
    ensures MAP_BASE58[ALPHABET[k] as int] == k
    ensures -1 <= MAP_BASE58[c] < 58
    ensures MAP_BASE58[c] != -1 ==> ALPHABET[MAP_BASE58[c]] as int == c
  {
    AlphabetInClosedForm(k);
    MapInClosedForm(Letter(k));
    MapInClosedForm(c);
    DigitInvertsLetter(k, c);
    if Digit(c) != -1 { AlphabetInClosedForm(Digit(c)); }
  }

  /** A character has a digit exactly when it is one of the 58 letters. */
  lemma AlphabetMembers(c: char)
    ensures InAlphabet(c) <==> c in ALPHABET
  {
    AlphabetInClosedForm(0);
    if c in ALPHABET {
      var j :| 0 <= j < 58 && ALPHABET[j] == c;
      AlphabetInClosedForm(j);
    }
    if InAlphabet(c) { AlphabetInClosedForm(DigitOf(c)); }
  }

  /** The letters are the digits and letters without the four that look alike, and their digits go up with
      their codes. So 0 is written '1' and 57 is written 'z'. */
  lemma LettersInOrder(c: char, d: char)
    ensures InAlphabet(c) <==>
            && ('0' <= c <= '9' || 'A' <= c <= 'Z' || 'a' <= c <= 'z')
            && c != '0' && c != 'O' && c != 'I' && c != 'l'
    ensures InAlphabet(c) && InAlphabet(d) ==> (c < d <==> DigitOf(c) < DigitOf(d))
    ensures DigitOf('1') == 0 && DigitOf('z') == 57
  {
  }

  // ---------- the decoding a caller is promised ----------

  predicate AllInAlphabet(s: string) {
    forall k :: 0 <= k < |s| ==> InAlphabet(s[k])
  }

  predicate AllSpaces(s: string) {
    forall k :: 0 <= k < |s| ==> IsSpace(s[k])
  }

  function LeadingCount<T(==)>(s: seq<T>, x: T): (n: nat)
    ensures n <= |s|
    ensures forall k :: 0 <= k < n ==> s[k] == x
    ensures n < |s| ==> s[n] != x
  {
    if s != [] && s[0] == x then 1 + LeadingCount(s[1..], x) else 0
  }

  function DigitsOf(s: string): (d: seq<int>)
    ensures |d| == |s|
  {
    seq(|s|, k requires 0 <= k < |s| => DigitOf(s[k]))
  }

  lemma DigitsAreDigits(s: string)
    requires AllInAlphabet(s)
    ensures AreDigits(DigitsOf(s), 58)
    ensures Value(DigitsOf(s), 58) >= 0
  {
    ValueBound(DigitsOf(s), 58);
  }

  /** The bytes a word over the alphabet denotes: one zero byte for each leading '1', then the
      base-58 value of the rest in base 256, without leading zeros. */
  function BytesOf(word: string): (bytes: seq<int>)
    requires AllInAlphabet(word)
    ensures AreDigits(bytes, 256)
  {
    var ones := LeadingCount(word, '1');
    DigitsAreDigits(word[ones..]);
    seq(ones, _ => 0) + ToDigits(Value(DigitsOf(word[ones..]), 58), 256)
  }

  /** The way back: one '1' for each leading zero byte, then the base-256 value of the rest in base 58. */
  function Encode(bytes: seq<int>): (word: string)
    requires AreDigits(bytes, 256)
    ensures AllInAlphabet(word)
  {
    var zeros := LeadingCount(bytes, 0);
    ValueBound(bytes[zeros..], 256);
    seq(zeros, _ => '1') + LettersOf(ToDigits(Value(bytes[zeros..], 256), 58))
  }

  function LettersOf(digits: seq<int>): (s: string)
    requires AreDigits(digits, 58)
    ensures |s| == |digits| && AllInAlphabet(s) && DigitsOf(s) == digits
  {
    var s := seq(|digits|, k requires 0 <= k < |digits| => LetterAt(digits[k]));
    assert DigitsOf(s) == digits;
    s
  }

  function LetterAt(digit: int): (c: char)
    requires 0 <= digit < 58
    ensures DigitOf(c) == digit
  {
    AlphabetInClosedForm(digit);
    DigitInvertsLetter(digit, 0);
    ALPHABET[digit]
  }

  /** `s` is a word over the alphabet with nothing but whitespace before and after it. */
  ghost predicate IsPadded(s: string, lead: string, word: string, trail: string) {
    s == lead + word + trail && AllSpaces(lead) && AllSpaces(trail) && AllInAlphabet(word)
  }

  // ---------- the size of the buffer ----------

  lemma PowersOf58()
    ensures Pow(58, 16) == 16400152899115243850138976256
    ensures Pow(58, 7) == 2207984167552
  {
    PowAdd(58, 8, 8);
    PowAdd(58, 4, 4);
    PowAdd(58, 4, 3);
    assert Pow(58, 4) == 11316496 && Pow(58, 3) == 195112;
  }

  lemma PowersOf256()
    ensures Pow(256, 16) == 340282366920938463463374607431768211456
    ensures Pow(256, 4) == 4294967296
  {
    PowAdd(256, 8, 8);
    PowAdd(256, 4, 4);
    assert Pow(256, 4) == 4294967296;
  }

  lemma PowersOf58And256()
    ensures Pow(58, 71) <= Pow(256, 52)
  {
    PowersOf58();
    PowAdd(58, 16, 16);
    PowAdd(58, 32, 32);
    PowAdd(58, 64, 7);
    PowersOf256();
    PowAdd(256, 16, 16);
    PowAdd(256, 32, 16);
    PowAdd(256, 48, 4);
  }

  /** n base-58 digits always fit the n * 733 / 1000 + 1 bytes the decoder allocates. */
  lemma BufferSuffices(n: nat)
    ensures Pow(58, n) < Pow(256, n * 733 / 1000 + 1)
  {
    var m := n * 733 / 1000 + 1;
    if Pow(256, m) <= Pow(58, n) {
      calc {
        Pow(256, m * 71);
        { PowMul(256, m, 71); }
        Pow(Pow(256, m), 71);
        <= { PowMonotoneBase(Pow(256, m), Pow(58, n), 71); }
        Pow(Pow(58, n), 71);
        { PowMul(58, n, 71); PowMul(58, 71, n); assert n * 71 == 71 * n; }
        Pow(Pow(58, 71), n);
        <= { PowersOf58And256(); PowMonotoneBase(Pow(58, 71), Pow(256, 52), n); }
        Pow(Pow(256, 52), n);
        { PowMul(256, 52, n); }
        Pow(256, 52 * n);
        < { PowMonotoneExponent(256, 52 * n, m * 71); }
        Pow(256, m * 71);
      }
    }
  }

  // ---------- the decoder ----------

  /** The word after the leading whitespace, up to the next whitespace or the end. */
  function DropSpaces(s: string): string {
    if s != [] && IsSpace(s[0]) then DropSpaces(s[1..]) else s
  }

  function WordLength(s: string): (n: nat)
    ensures n <= |s|
    ensures forall k :: 0 <= k < n ==> !IsSpace(s[k])
    ensures n < |s| ==> IsSpace(s[n])
  {
    if s != [] && !IsSpace(s[0]) then 1 + WordLength(s[1..]) else 0
  }

  /** What DecodeBase58 answers: None is its `false`. */
  function Decode(s: string): Option<seq<int>> {
    var t := DropSpaces(s);
    var n := WordLength(t);
    if AllInAlphabet(t[..n]) && AllSpaces(t[n..]) then Some(BytesOf(t[..n])) else None
  }

  /** Where the in-place multiplication by 58 stands after rewriting the i low bytes of `before`:
      the untouched high bytes, the carry and the rewritten bytes still add up to the product. */
  ghost predicate Halfway(before: seq<int>, now: seq<int>, i: nat, carry: int, digit: int) {
    && |now| == |before| && i <= |now|
    && now[..|now| - i] == before[..|now| - i]
    && (Value(before[..|now| - i], 256) * 58 + carry) * Pow(256, i) + Value(now[|now| - i..], 256)
       == 58 * Value(before, 256) + digit
  }

  lemma HalfwayStep(before: seq<int>, now: seq<int>, i: nat, carry: int, digit: int, carry': int, y: int)
    requires Halfway(before, now, i, carry, digit) && i < |now|
    requires carry + 58 * now[|now| - 1 - i] == 256 * carry' + y
    ensures Halfway(before, now[|now| - 1 - i := y], i + 1, carry', digit)
  {
    var at := |now| - 1 - i;
    var next := now[at := y];
    assert now[..at + 1] == before[..at + 1];
    assert before[at] == before[..at + 1][at] == now[at];
    assert next[..at] == now[..at + 1][..at] == before[..at + 1][..at] == before[..at];
    assert before[..at + 1][..at] == before[..at];
    assert next[at..] == [y] + now[at + 1..];
    ValueConcat([y], now[at + 1..], 256);
    assert Value([y], 256) == y by { assert [y][..0] == []; }
    CarryStep(Value(before[..at], 256), before[at], carry, Pow(256, i), carry', y);
  }

  lemma CarryStep(high: int, x: int, carry: int, p: int, carry': int, y: int)
    requires carry + 58 * x == 256 * carry' + y
    ensures ((high * 256 + x) * 58 + carry) * p == (high * 58 + carry') * (256 * p) + y * p
  {
    assert (high * 256 + x) * 58 + carry == (high * 58 + carry') * 256 + y;
  }

  lemma HalfwayEnds(before: seq<int>, now: seq<int>, i: nat, carry: int, digit: int)
    requires Halfway(before, now, i, carry, digit)
    requires i == |now| || (carry == 0 && forall k :: 0 <= k < |now| - i ==> before[k] == 0)
    ensures carry * Pow(256, |now|) + Value(now, 256) == 58 * Value(before, 256) + digit
    ensures forall k :: 0 <= k < |now| - i ==> now[k] == before[k]
  {
    var head, tail := now[..|now| - i], now[|now| - i..];
    assert now == head + tail;
    SamePrefix(before, now, |now| - i);
    ValueOfZeros(head, 256);
    LeadingZeros(head, tail, 256);
    assert Value(before[..|now| - i], 256) * 58 == 0;
    if i != |now| { assert carry * Pow(256, i) == 0 == carry * Pow(256, |now|); }
  }

  lemma SamePrefix(s: seq<int>, t: seq<int>, n: nat)
    requires n <= |s| && n <= |t| && s[..n] == t[..n]
    ensures forall k :: 0 <= k < n ==> t[k] == s[k]
  {
    forall k | 0 <= k < n ensures t[k] == s[k] {
      assert s[..n][k] == t[..n][k];
    }
  }

  /** The inner loop: b256 := b256 * 58 + digit, in place, stopping once the carry is gone and the
      bytes in use are all rewritten. The returned carry is what did not fit. */
  method MultiplyAdd(b256: array<Byte>, digit: int, length: nat) returns (carry: int, used: nat)
    requires 0 <= digit < 58 && length <= b256.Length
    requires forall k :: 0 <= k < b256.Length - length ==> b256[k] == 0
    modifies b256
    ensures length <= used <= b256.Length || carry != 0
    ensures used <= b256.Length && 0 <= carry < 58
    ensures carry * Pow(256, b256.Length) + Value(b256[..], 256) == 58 * old(Value(b256[..], 256)) + digit
    ensures forall k :: 0 <= k < b256.Length - used ==> b256[k] == 0
  {
    ghost var before: seq<int> := b256[..];
    ghost var n := b256.Length;
    carry := digit;
    var i := 0;
    assert Halfway(before, b256[..], 0, carry, digit) by {
      assert before[..n] == before && before[n..] == [];
    }
    while (carry != 0 || i < length) && i < b256.Length
      invariant i <= n && 0 <= carry < 58
      invariant Halfway(before, b256[..], i, carry, digit)
    {
      ghost var now: seq<int>, c := b256[..], carry;
      var at := b256.Length - 1 - i;
      var byte: int := b256[at];
      carry := carry + 58 * byte;
      b256[at] := carry % 256;
      carry := carry / 256;
      i := i + 1;
      assert Halfway(before, b256[..], i, carry, digit) by {
        HalfwayStep(before, now, i - 1, c, digit, carry, b256[at]);
        assert b256[..] == now[at := b256[at]];
      }
    }
    used := i;
    HalfwayEnds(before, b256[..], i, carry, digit);
  }

  /** No carry is ever left over: the value of a prefix of the word is below 58 to the number of
      characters the buffer was sized for. */
  lemma NoCarry(word: string, len: nat, bytes: seq<int>, carry: int)
    requires AllInAlphabet(word) && |word| <= len
    requires |bytes| == len * 733 / 1000 + 1 && AreDigits(bytes, 256) && carry >= 0
    requires carry * Pow(256, |bytes|) + Value(bytes, 256) == Value(DigitsOf(word), 58)
    ensures carry == 0
  {
    DigitsAreDigits(word);
    ValueBound(DigitsOf(word), 58);
    ValueBound(bytes, 256);
    if |word| < len { PowMonotoneExponent(58, |word|, len); }
    BufferSuffices(len);
    MulAtLeast(carry, Pow(256, |bytes|));
  }

  lemma WordGrows(word: string, c: char, longer: string, len: nat, bytes: seq<int>, carry: int)
    requires longer == word + [c]
    requires AllInAlphabet(word) && InAlphabet(c) && |word| < len
    requires |bytes| == len * 733 / 1000 + 1 && AreDigits(bytes, 256) && carry >= 0
    requires carry * Pow(256, |bytes|) + Value(bytes, 256) == 58 * Value(DigitsOf(word), 58) + DigitOf(c)
    ensures carry == 0 && AllInAlphabet(longer)
    ensures Value(bytes, 256) == Value(DigitsOf(longer), 58)
  {
    assert DigitsOf(longer)[..|word|] == DigitsOf(word);
    NoCarry(longer, len, bytes, carry);
  }

  method SkipSpaces(psz: CString, from: nat) returns (p: nat)
    requires from <= |psz|
    ensures from <= p <= |psz| && AllSpaces(psz[from..p]) && psz[0..p] == psz[..p]
    ensures p < |psz| ==> !IsSpace(psz[p])
  {
    p := from;
    while p < |psz| && IsSpace(psz[p])
      invariant from <= p <= |psz| && AllSpaces(psz[from..p])
    {
      assert psz[from..p + 1] == psz[from..p] + [psz[p]];
      p := p + 1;
    }
  }

  method SkipOnes(psz: CString, from: nat) returns (p: nat, zeroes: nat)
    requires from <= |psz|
    ensures p == from + zeroes <= |psz| && psz[from..p] == seq(zeroes, _ => '1')
    ensures p < |psz| ==> psz[p] != '1'
  {
    p, zeroes := from, 0;
    while p < |psz| && psz[p] == '1'
      invariant p == from + zeroes <= |psz| && psz[from..p] == seq(zeroes, _ => '1')
    {
      assert psz[from..p + 1] == psz[from..p] + [psz[p]];
      zeroes := zeroes + 1;
      p := p + 1;
    }
  }

  method LookUp(c: char) returns (digit: int)
    requires c as int < 256
    ensures digit == DigitOf(c)
  {
    MapInClosedForm(c as int);
    digit := MAP_BASE58[c as int];
  }

  /** The outer loop, from the first character that is not a leading '1'. It stops at `p` on
      whitespace, at the end, or (`bad`) on a character outside the alphabet. */
  method ConvertWord(psz: CString, first: nat) returns (bad: bool, p: nat, b256: array<Byte>, length: nat)
    requires first <= |psz|
    ensures fresh(b256) && b256.Length == (|psz| - first) * 733 / 1000 + 1 && length <= b256.Length
    ensures first <= p <= |psz| && AllInAlphabet(psz[first..p])
    ensures bad ==> p < |psz| && !InAlphabet(psz[p]) && !IsSpace(psz[p])
    ensures !bad && p < |psz| ==> IsSpace(psz[p])
    ensures forall k :: 0 <= k < b256.Length - length ==> b256[k] == 0
    ensures Value(b256[..], 256) == Value(DigitsOf(psz[first..p]), 58)
  {
    var size := (|psz| - first) * 733 / 1000 + 1;
    b256 := new Byte[size](_ => 0);
    ValueOfZeros(b256[..], 256);
    p, length, bad := first, 0, false;
    while p < |psz| && !IsSpace(psz[p])
      invariant first <= p <= |psz| && length <= size
      invariant AllInAlphabet(psz[first..p])
      invariant forall k :: 0 <= k < size - length ==> b256[k] == 0
      invariant Value(b256[..], 256) == Value(DigitsOf(psz[first..p]), 58)
    {
      ghost var word := psz[first..p];
      var digit := LookUp(psz[p]);
      if digit == -1 {
        bad := true;
        return;
      }
      var carry, used := MultiplyAdd(b256, digit, length);
      WordGrows(word, psz[p], psz[first..p + 1], |psz| - first, b256[..], carry);
      if carry != 0 {
        assert false;  // where the source gives up on a left-over carry
      }
      length := used;
      p := p + 1;
    }
  }

  lemma {:induction false} DropSpacesIs(s: string, t: string)
    requires AllSpaces(s) && (t != [] ==> !IsSpace(t[0]))
    ensures DropSpaces(s + t) == t
  {
    if s == [] {
      assert s + t == t;
    } else {
      assert (s + t)[1..] == s[1..] + t;
      DropSpacesIs(s[1..], t);
    }
  }

  lemma {:induction false} WordLengthAtLeast(w: string, t: string)
    requires forall k :: 0 <= k < |w| ==> !IsSpace(w[k])
    ensures WordLength(w + t) >= |w|
    ensures t == [] || IsSpace(t[0]) ==> WordLength(w + t) == |w|
  {
    if w == [] {
      assert w + t == t;
    } else {
      assert (w + t)[1..] == w[1..] + t;
      WordLengthAtLeast(w[1..], t);
    }
  }

  lemma {:induction false} LeadingCountIs<T>(n: nat, x: T, rest: seq<T>)
    requires rest != [] ==> rest[0] != x
    ensures LeadingCount(seq(n, _ => x) + rest, x) == n
  {
    var s := seq(n, _ => x) + rest;
    if n == 0 {
      assert s == rest;
    } else {
      assert s[1..] == seq(n - 1, _ => x) + rest;
      LeadingCountIs(n - 1, x, rest);
    }
  }

  /** The specification on a string cut into its parts: only whitespace around a word. */
  lemma DecodeWhole(s: string, lead: string, ones: nat, rest: string, tail: string)
    requires s == lead + (seq(ones, _ => '1') + rest + tail)
    requires AllSpaces(lead) && AllInAlphabet(rest) && (rest != [] ==> rest[0] != '1')
    requires tail != [] ==> IsSpace(tail[0]) && (ones != 0 || rest != [])
    ensures Value(DigitsOf(rest), 58) >= 0
    ensures Decode(s) ==
            if AllSpaces(tail) then Some(seq(ones, _ => 0) + ToDigits(Value(DigitsOf(rest), 58), 256)) else None
  {
    DigitsAreDigits(rest);
    var word := seq(ones, _ => '1') + rest;
    assert AllInAlphabet(word);
    assert word + tail != [] ==> (word + tail)[0] == '1' || InAlphabet((word + tail)[0]);
    DropSpacesIs(lead, word + tail);
    WordLengthAtLeast(word, tail);
    var n := WordLength(word + tail);
    assert (word + tail)[..n] == word && (word + tail)[n..] == tail;
    LeadingCountIs(ones, '1', rest);
    assert word[ones..] == rest;
  }

  /** The specification on a string whose word is cut short by a foreign character. */
  lemma DecodeBroken(s: string, lead: string, word: string, bad: char, tail: string)
    requires s == lead + (word + [bad] + tail)
    requires AllSpaces(lead) && AllInAlphabet(word) && !InAlphabet(bad) && !IsSpace(bad)
    ensures Decode(s).None?
  {
    var t := word + [bad] + tail;
    DropSpacesIs(lead, t);
    WordLengthAtLeast(word + [bad], tail);
    assert t[..WordLength(t)][|word|] == bad;
  }

  /** Skipping the leading zero bytes leaves the shortest digits of the buffer's value. */
  method SkipZeroes(b256: array<Byte>, length: nat) returns (bytes: seq<Byte>)
    requires length <= b256.Length
    requires forall k :: 0 <= k < b256.Length - length ==> b256[k] == 0
    ensures Value(b256[..], 256) >= 0 && bytes == ToDigits(Value(b256[..], 256), 256)
  {
    var size := b256.Length;
    var it := size - length;
    while it < size && b256[it] == 0
      invariant size - length <= it <= size
      invariant forall k :: 0 <= k < it ==> b256[k] == 0
    {
      it := it + 1;
    }
    bytes := b256[it..];
    ShortestDigits(b256[..], it);
  }

  lemma ShortestDigits(s: seq<int>, n: nat)
    requires AreDigits(s, 256) && n <= |s| && (forall k :: 0 <= k < n ==> s[k] == 0)
    requires n < |s| ==> s[n] != 0
    ensures Value(s, 256) >= 0 && s[n..] == ToDigits(Value(s, 256), 256)
  {
    assert s == s[..n] + s[n..];
    LeadingZeros(s[..n], s[n..], 256);
    DigitsOfValue(s[n..], 256);
  }

  lemma CutAt(s: string, a: nat, b: nat, c: nat)
    requires a <= b <= c <= |s|
    ensures s == s[..a] + (s[a..b] + s[b..c] + s[c..])
    ensures c < |s| ==> s == s[..a] + (s[a..b] + s[b..c] + [s[c]] + s[c + 1..])
  {
  }

  /** The specification on a string the decoder has scanned up to `stop`. */
  lemma DecodeScanned(psz: string, start: nat, zeroes: nat, first: nat, stop: nat)
    requires start <= first <= stop <= |psz| && first == start + zeroes
    requires AllSpaces(psz[..start]) && (start < |psz| ==> !IsSpace(psz[start]))
    requires psz[start..first] == seq(zeroes, _ => '1') && (first < |psz| ==> psz[first] != '1')
    requires AllInAlphabet(psz[first..stop]) && (stop < |psz| && !IsSpace(psz[stop]) ==> !InAlphabet(psz[stop]))
    ensures Value(DigitsOf(psz[first..stop]), 58) >= 0
    ensures Decode(psz) == if (stop < |psz| && !IsSpace(psz[stop])) || !AllSpaces(psz[stop..]) then None
                           else Some(seq(zeroes, _ => 0) + ToDigits(Value(DigitsOf(psz[first..stop]), 58), 256))
  {
    var rest, tail := psz[first..stop], psz[stop..];
    DigitsAreDigits(rest);
    CutAt(psz, start, first, stop);
    if stop < |psz| && !IsSpace(psz[stop]) {
      DecodeBroken(psz, psz[..start], psz[start..first] + rest, psz[stop], psz[stop + 1..]);
    } else {
      DecodeWhole(psz, psz[..start], zeroes, rest, tail);
    }
  }

  method DecodeBase58(psz: CString) returns (ok: bool, vch: seq<int>)
    ensures ok == Decode(psz).Some?
    ensures ok ==> vch == Decode(psz).value
  {
    var start := SkipSpaces(psz, 0);
    var first, zeroes := SkipOnes(psz, start);
    var bad, stop, b256, length := ConvertWord(psz, first);
    DecodeScanned(psz, start, zeroes, first, stop);
    if bad { return false, []; }
    var p := SkipSpaces(psz, stop);
    if p < |psz| {
      assert psz[p] == psz[stop..][p - stop];
      return false, [];
    }
    assert psz[stop..] == psz[stop..p];
    var bytes := SkipZeroes(b256, length);
    return true, seq(zeroes, _ => 0) + bytes;
  }

  // ---------- what decoding means ----------

  /** Decoding succeeds exactly on a word over the alphabet with nothing but whitespace around it:
      there is no third way to fail. DecodePadded says what it then yields. */
  lemma DecodeAccepts(s: string)
    ensures Decode(s).Some? <==> exists lead, word, trail :: IsPadded(s, lead, word, trail)
  {
    if Decode(s).Some? {
      var lead, word, trail := DecodedParts(s);
      assert IsPadded(s, lead, word, trail);
    } else if exists lead, word, trail :: IsPadded(s, lead, word, trail) {
      var lead, word, trail :| IsPadded(s, lead, word, trail);
      DecodePadded(s, lead, word, trail);
      assert false;
    }
  }

  lemma DecodedParts(s: string) returns (lead: string, word: string, trail: string)
    requires Decode(s).Some?
    ensures IsPadded(s, lead, word, trail)
  {
    DropSpacesSplits(s);
    var t := DropSpaces(s);
    var n := WordLength(t);
    lead, word, trail := s[..|s| - |t|], t[..n], t[n..];
  }

  lemma {:induction false} DropSpacesSplits(s: string)
    ensures |DropSpaces(s)| <= |s|
    ensures var n := |s| - |DropSpaces(s)|; s[n..] == DropSpaces(s) && AllSpaces(s[..n])
  {
    if s != [] && IsSpace(s[0]) {
      DropSpacesSplits(s[1..]);
      var n := |s| - |DropSpaces(s)|;
      assert s[..n] == [s[0]] + s[1..][..n - 1];
    }
  }

  lemma DecodePadded(s: string, lead: string, word: string, trail: string)
    requires IsPadded(s, lead, word, trail)
    ensures Decode(s) == Some(BytesOf(word))
  {
    if word == [] {
      assert s == (lead + trail) + [];
      DropSpacesIs(lead + trail, []);
    } else {
      assert s == lead + (word + trail);
      DropSpacesIs(lead, word + trail);
      WordLengthAtLeast(word, trail);
      assert (word + trail)[..|word|] == word && (word + trail)[|word|..] == trail;
    }
  }

  lemma BytesOfParts(n: nat, rest: string)
    requires AllInAlphabet(rest) && (rest != [] ==> rest[0] != '1')
    ensures var word := seq(n, _ => '1') + rest;
            AllInAlphabet(word) && Value(DigitsOf(rest), 58) >= 0 &&
            BytesOf(word) == seq(n, _ => 0) + ToDigits(Value(DigitsOf(rest), 58), 256)
  {
    DigitsAreDigits(rest);
    var word := seq(n, _ => '1') + rest;
    assert AllInAlphabet(word);
    LeadingCountIs(n, '1', rest);
    assert word[n..] == rest;
  }

  lemma EncodeParts(n: nat, rest: seq<int>)
    requires AreDigits(rest, 256) && (rest != [] ==> rest[0] != 0)
    ensures Value(rest, 256) >= 0
    ensures Encode(seq(n, _ => 0) + rest) == seq(n, _ => '1') + LettersOf(ToDigits(Value(rest, 256), 58))
  {
    ValueBound(rest, 256);
    LeadingCountIs(n, 0, rest);
    assert (seq(n, _ => 0) + rest)[n..] == rest;
  }

  /** The bijection, one way: every byte string is decoded from its encoding. */
  lemma DecodeOfEncode(bytes: seq<int>)
    requires AreDigits(bytes, 256)
    ensures Decode(Encode(bytes)) == Some(bytes)
  {
    BytesOfEncode(bytes);
    DecodeWord(Encode(bytes));
  }

  lemma BytesOfEncode(bytes: seq<int>)
    requires AreDigits(bytes, 256)
    ensures BytesOf(Encode(bytes)) == bytes
  {
    var n := LeadingCount(bytes, 0);
    var rest := bytes[n..];
    assert bytes == seq(n, _ => 0) + rest;
    EncodeParts(n, rest);
    var letters := LettersOf(ToDigits(Value(rest, 256), 58));
    assert letters != [] ==> DigitsOf(letters)[0] == DigitOf(letters[0]);
    BytesOfParts(n, letters);
    DigitsOfValue(rest, 256);
  }

  lemma DecodeWord(word: string)
    requires AllInAlphabet(word)
    ensures Decode(word) == Some(BytesOf(word))
  {
    assert [] + word + [] == word;
    DecodePadded(word, [], word, []);
  }

  /** The bijection, the other way: every word over the alphabet is the encoding of what it decodes to. */
  lemma EncodeOfDecode(word: string)
    requires AllInAlphabet(word)
    ensures Decode(word) == Some(BytesOf(word)) && Encode(BytesOf(word)) == word
  {
    DecodeWord(word);
    var n := LeadingCount(word, '1');
    var rest := word[n..];
    assert word == seq(n, _ => '1') + rest;
    BytesOfParts(n, rest);
    var high := ToDigits(Value(DigitsOf(rest), 58), 256);
    EncodeParts(n, high);
    LettersBack(rest);
  }

  lemma LettersBack(rest: string)
    requires AllInAlphabet(rest) && (rest != [] ==> rest[0] != '1')
    ensures Value(DigitsOf(rest), 58) >= 0
    ensures LettersOf(ToDigits(Value(DigitsOf(rest), 58), 58)) == rest
  {
    DigitsAreDigits(rest);
    var digits := DigitsOf(rest);
    assert digits != [] ==> digits[0] == DigitOf(rest[0]);
    DigitsOfValue(digits, 58);
    SameDigits(LettersOf(digits), rest);
  }

  lemma SameDigits(s: string, t: string)
    requires AllInAlphabet(s) && DigitsOf(s) == DigitsOf(t)
    ensures s == t
  {
    assert |s| == |DigitsOf(s)| == |DigitsOf(t)| == |t|;
    forall k | 0 <= k < |s| ensures s[k] == t[k] {
      SameDigit(s[k], t[k], DigitsOf(s)[k]);
    }
  }

  lemma SameDigit(c: char, d: char, digit: int)
    requires DigitOf(c) == digit == DigitOf(d) && digit != -1
    ensures c == d
  {
  }
}
