/** The short-code encoder: a non-negative ID written in base 62, most
    significant digit first, over the digits 0-9, then a-z, then A-Z. */
module Base62 {

  const Decimal: string := "0123456789"
  const Lower: string := "abcdefghijklmnopqrstuvwxyz"
  const Upper: string := "ABCDEFGHIJKLMNOPQRSTUVWXYZ"

  /** The 62 symbols in digit order: Characters[d] is the symbol of digit d. */
  const Characters: string := Decimal + Lower + Upper

  /** The radix, the length of Characters. */
  const Base: nat := 62

  /** The characters a code may contain. */
  predicate IsSymbol(c: char)
  {
    '0' <= c <= '9' || 'a' <= c <= 'z' || 'A' <= c <= 'Z'
  }

  predicate AllSymbols(s: string)
  {
    forall i :: 0 <= i < |s| ==> IsSymbol(s[i])
  }

  /** The digit a symbol stands for: its position in Characters. */
  function DigitOf(c: char): (d: nat)
    requires IsSymbol(c)
    ensures d < Base && Characters[d] == c
  {
    if c <= '9' then c as int - '0' as int
    else if 'a' <= c then c as int - 'a' as int + 10
    else c as int - 'A' as int + 36
  }

  lemma CharactersAt(d: nat)
    requires d < Base
    ensures Characters[d] == if d < 10 then ('0' as int + d) as char
                             else if d < 36 then ('a' as int + d - 10) as char
                             else ('A' as int + d - 36) as char
  {
    if d < 10 {
      assert Characters[d] == Decimal[d];
    } else if d < 36 {
      assert Characters[d] == Lower[d - 10];
    } else {
      assert Characters[d] == Upper[d - 36];
    }
  }

  /** Every entry of the alphabet is a symbol, and DigitOf reads it back:
      the 62 entries are pairwise distinct. */
  lemma SymbolOfDigit(d: nat)
    requires d < Base
    ensures IsSymbol(Characters[d]) && DigitOf(Characters[d]) == d
  {
    CharactersAt(d);
  }

  /** The code of n: the base-62 numeral of n, most significant digit first,
      and the empty string for 0. */
  function Digits(n: nat): (s: string)
    ensures AllSymbols(s)
    decreases n
  {
    if n == 0 then ""
    else
      SymbolOfDigit(n % Base);
      Digits(n / Base) + [Characters[n % Base]]
  }

  /** Every character of a code is one of the 62 entries of Characters. */
  lemma DigitsInAlphabet(n: nat)
    ensures forall i :: 0 <= i < |Digits(n)| ==> Digits(n)[i] in Characters
  {
  }

  /** Reads a string of symbols as a base-62 numeral, most significant first. */
  function Value(s: string): (v: nat)
    requires AllSymbols(s)
  {
    if s == [] then 0 else Value(s[..|s| - 1]) * Base + DigitOf(s[|s| - 1])
  }

  /** Reading the code of n back in base 62 gives n. */
  lemma {:induction false} ValueOfDigits(n: nat)
    ensures Value(Digits(n)) == n
    decreases n
  {
    if n > 0 {
      var s := Digits(n);
      assert s[..|s| - 1] == Digits(n / Base);
      SymbolOfDigit(n % Base);
      ValueOfDigits(n / Base);
    }
  }

  /** Distinct IDs never share a code. */
  lemma DigitsInjective(a: nat, b: nat)
    requires Digits(a) == Digits(b)
    ensures a == b
  {
    ValueOfDigits(a);
    ValueOfDigits(b);
  }

  /** Only 0 has the empty code, and no other code starts with the zero digit. */
  lemma {:induction false} NoLeadingZero(n: nat)
    ensures n == 0 <==> Digits(n) == ""
    ensures n > 0 ==> Digits(n)[0] != '0'
    decreases n
  {
    if n > 0 {
      if n < Base {
        assert Digits(n / Base) == "";
        SymbolOfDigit(n);
        SymbolOfDigit(0);
      } else {
        NoLeadingZero(n / Base);
      }
    }
  }

  /** The numerals that are codes: non-empty, over the alphabet, without a
      leading zero digit. Each of them is the code of its own value. */
  predicate Canonical(s: string)
  {
    s != "" && AllSymbols(s) && s[0] != '0'
  }

  lemma {:induction false} DigitsOfValue(s: string)
    requires Canonical(s)
    ensures Digits(Value(s)) == s
    decreases |s|
  {
    var init, last := s[..|s| - 1], s[|s| - 1];
    var d := DigitOf(last);
    var v := if init == "" then 0 else Value(init);
    assert s == init + [last];
    assert Value(s) == v * Base + d;
    if init == "" {
      assert d != 0 by { SymbolOfDigit(0); }
    } else {
      assert init[0] == s[0];
      DigitsOfValue(init);
    }
    var n := Value(s);
    assert n > 0;
    DivModDigit(v, d);
    assert n / Base == v && n % Base == d;
    assert Digits(n) == Digits(v) + [last];
  }

  lemma DivModDigit(v: nat, d: nat)
    requires d < Base
    ensures (v * Base + d) / Base == v && (v * Base + d) % Base == d
  {
  }

  /** Every ID codes to a canonical numeral, except 0. */
  lemma DigitsCanonical(n: nat)
    requires n > 0
    ensures Canonical(Digits(n))
  {
  }

  /** The first code the store hands out: 1,000,000 = 4*62^3 + 12*62^2 + 9*62 + 2. */
  lemma FirstCode()
    ensures Digits(1_000_000) == "4c92"
  {
    CharactersAt(2);
    CharactersAt(9);
    CharactersAt(12);
    CharactersAt(4);
    assert Digits(4) == Digits(0) + [Characters[4]] == "4";
    assert Digits(260) == Digits(4) + [Characters[12]] == "4c";
    assert Digits(16129) == Digits(260) + [Characters[9]] == "4c9";
    assert Digits(1_000_000) == Digits(16129) + [Characters[2]];
  }

  /** The encoder loop: collect the remainders least significant first, then
      reverse them. */
  method Encode(id: int) returns (code: string)
    ensures id <= 0 ==> code == ""
    ensures id >= 0 ==> code == Digits(id)
  {
    var n := id;
    var ret: string := [];
    while n > 0
      invariant id <= 0 ==> n == id && ret == []
      invariant id >= 0 ==> n >= 0 && Digits(id) == Digits(n) + Reversed(ret)
      decreases n
    {
      var val := n % Base;
      ReversedSnoc(ret, Characters[val]);
      ret := ret + [Characters[val]];
      n := n / Base;
    }
    code := Reversed(ret);
  }

  /** The list reversal of the encoder's final step. */
  function Reversed(s: string): (r: string)
    ensures |r| == |s|
    ensures forall i :: 0 <= i < |s| ==> r[i] == s[|s| - 1 - i]
  {
    if s == [] then [] else [s[|s| - 1]] + Reversed(s[..|s| - 1])
  }

  lemma ReversedSnoc(s: string, c: char)
    ensures Reversed(s + [c]) == [c] + Reversed(s)
  {
    assert (s + [c])[..|s|] == s;
  }
}
