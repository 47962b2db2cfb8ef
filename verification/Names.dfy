/** Account names and the 64-bit values that stand for them. */
module Names {
  import opened Ledger

  /** The five bits of a character: '.' is 0, then come '1' to '5' and 'a' to 'z'. */
  function BitsOf(c: char): nat {
    if '1' <= c <= '5' then c as int - '1' as int + 1
    else if 'a' <= c <= 'z' then c as int - 'a' as int + 6
    else 0
  }

  /** The characters of a name, five bits each. */
  function Packed(name: string): nat {
    if name == "" then 0 else 32 * Packed(name[..|name| - 1]) + BitsOf(name[|name| - 1])
  }

  /** The value of a name of twelve characters; a shorter one is filled up with '.'. */
  function NameOf(name: string): Name {
    16 * Packed(name)
  }

  lemma OneMore(name: string, c: char)
    ensures Packed(name + [c]) == 32 * Packed(name) + BitsOf(c)
  {
    assert (name + [c])[..|name|] == name;
  }

  function BitsOfFour(a: char, b: char, c: char, d: char): nat {
    0x8000 * BitsOf(a) + 0x400 * BitsOf(b) + 0x20 * BitsOf(c) + BitsOf(d)
  }

  lemma FourMore(name: string, a: char, b: char, c: char, d: char)
    ensures Packed(name + [a, b, c, d]) == 0x10_0000 * Packed(name) + BitsOfFour(a, b, c, d)
  {
    OneMore(name, a);
    OneMore(name + [a], b);
    OneMore(name + [a] + [b], c);
    OneMore(name + [a] + [b] + [c], d);
    assert name + [a, b, c, d] == name + [a] + [b] + [c] + [d];
  }

  lemma Twelve(a: char, b: char, c: char, d: char, e: char, f: char, g: char, h: char, i: char, j: char, k: char,
               l: char)
    ensures NameOf([a, b, c, d, e, f, g, h, i, j, k, l]) ==
            0x1000_0000_0000 * BitsOfFour(a, b, c, d) + 0x100_0000 * BitsOfFour(e, f, g, h)
              + 0x10 * BitsOfFour(i, j, k, l)
  {
    FourMore([], a, b, c, d);
    FourMore([a, b, c, d], e, f, g, h);
    FourMore([a, b, c, d, e, f, g, h], i, j, k, l);
    assert [] + [a, b, c, d] == [a, b, c, d];
    assert [a, b, c, d] + [e, f, g, h] == [a, b, c, d, e, f, g, h];
    assert [a, b, c, d, e, f, g, h] + [i, j, k, l] == [a, b, c, d, e, f, g, h, i, j, k, l];
  }

  /** The system token is FLON with eight decimals, of the account flon.token. */
  lemma SystemToken()
    ensures FLON == Token(NameOf("flon.token.."), Symbol("FLON", 8))
    ensures SYS_BANK == FLON.bank && SYS_SYMBOL == FLON.symbol
  {
    Twelve('f', 'l', 'o', 'n', '.', 't', 'o', 'k', 'e', 'n', '.', '.');
  }

  lemma FlonMtoken()
    ensures NameOf("flon.mtoken.") == 0x5c69_304b_3482_a600
  {
    Twelve('f', 'l', 'o', 'n', '.', 'm', 't', 'o', 'k', 'e', 'n', '.');
  }

  lemma TycheToken()
    ensures NameOf("tyche.token.") == 0xcf90_d503_3482_a600
  {
    Twelve('t', 'y', 'c', 'h', 'e', '.', 't', 'o', 'k', 'e', 'n', '.');
  }

  lemma SingToken()
    ensures NameOf("sing.token..") == 0xc3a6_c066_9054_c000
  {
    Twelve('s', 'i', 'n', 'g', '.', 't', 'o', 'k', 'e', 'n', '.', '.');
  }

  lemma CisumToken()
    ensures NameOf("cisum.token.") == 0x43b1_a903_3482_a600
  {
    Twelve('c', 'i', 's', 'u', 'm', '.', 't', 'o', 'k', 'e', 'n', '.');
  }
}
