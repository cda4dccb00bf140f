/** Crockford's Base32 (gearbox/core/util.cc): encode_b32c, decode_b32c and
    uuid_b32c, over uint64_t arithmetic that wraps. */
module Base32 {
  import opened Outcomes

  const Wrap: nat := 0x1_0000_0000_0000_0000

  newtype uint64 = n: int | 0 <= n < 0x1_0000_0000_0000_0000

  const Alphabet := "0123456789abcdefghjkmnpqrstvwxyz"

  predicate Legal(c: char) {
    ('0' <= c <= '9' || 'a' <= c <= 'z') && c !in {'i', 'l', 'o', 'u'}
  }

  /** The digit value, by the ranges the decoder distinguishes. */
  function Digit(c: char): (d: nat)
    requires Legal(c)
    ensures d < 32
  {
    var b := c as int;
    if c <= '9' then b - 48
    else if c <= 'h' then b - 87
    else if c <= 'k' then b - 88
    else if c <= 'n' then b - 89
    else if c <= 't' then b - 90
    else b - 91
  }

  /** The decoder's ranges invert the encoder's alphabet. */
  lemma DigitOfLetter(d: nat)
    requires d < 32
    ensures Legal(Alphabet[d]) && Digit(Alphabet[d]) == d
  {
  }

  lemma LetterOfDigit(c: char)
    requires Legal(c)
    ensures Alphabet[Digit(c)] == c
  {
  }

  // ---- the reference -------------------------------------------------------------

  /** Most significant digit first, no leading zero; nothing for zero. */
  function Code(n: nat): string {
    if n == 0 then "" else Code(n / 32) + [Alphabet[n % 32]]
  }

  predicate AllLegal(s: string) { forall i | 0 <= i < |s| :: Legal(s[i]) }

  function Pow32(k: nat): (r: nat)
    ensures r > 0
  {
    if k == 0 then 1 else 32 * Pow32(k - 1)
  }

  /** The number `s` spells, without a bound. */
  function Value(s: string): nat
    requires AllLegal(s)
  {
    if s == "" then 0 else Digit(s[0]) * Pow32(|s| - 1) + Value(s[1..])
  }

  function Reverse(s: string): (r: string)
    ensures |r| == |s| && forall i | 0 <= i < |s| :: r[i] == s[|s| - 1 - i]
  {
    seq(|s|, i requires 0 <= i < |s| => s[|s| - 1 - i])
  }

  /** The digits in the order the encoder appends them. */
  function Low(n: nat): string { Reverse(Code(n)) }

  lemma LowStep(n: nat)
    requires n > 0
    ensures Low(n) == [Alphabet[n % 32]] + Low(n / 32)
  {
  }

  // ---- the loops of the source ---------------------------------------------------

  /** encode_b32c appends to `s` and then reverses all of it. */
  method EncodeB32c(value: uint64, s0: string) returns (s: string)
    ensures s == Reverse(s0 + Low(value as int))
  {
    s := s0;
    var n := value;
    while n != 0
      invariant s + Low(n as int) == s0 + Low(value as int)
      decreases n
    {
      LowStep(n as int);
      var q := n / 32;
      if q != 0 {
        s := s + [Alphabet[(n % 32) as int]];
        n := q;
      } else {
        s := s + [Alphabet[n as int]];
        n := 0;
      }
    }
    s := Reverse(s);
  }

  lemma ModMul(d: nat, p: nat)
    ensures (d * (p % Wrap)) % Wrap == (d * p) % Wrap
  {
    var q := p / Wrap;
    assert d * p == d * (p % Wrap) + (d * q) * Wrap by {
      assert p == q * Wrap + p % Wrap;
      assert d * (q * Wrap) == (d * q) * Wrap;
    }
    ModAdd(d * (p % Wrap), d * q);
  }

  lemma {:induction false} ModAdd(a: nat, k: nat)
    ensures (a + k * Wrap) % Wrap == a % Wrap
  {
  }

  /** One round of the decoder, in wrapping arithmetic. */
  lemma WrapStep(v: nat, d: nat, p: nat)
    ensures (v % Wrap + (d * (p % Wrap)) % Wrap) % Wrap == (d * p + v) % Wrap
    ensures (p % Wrap * 32) % Wrap == (32 * p) % Wrap
  {
    ModMul(d, p);
    ModMul(32, p);
    ModSum(v, d * p);
  }

  lemma ModSum(a: nat, b: nat)
    ensures (a % Wrap + b % Wrap) % Wrap == (b + a) % Wrap
  {
  }

  /** decode_b32c, least significant digit first. */
  method DecodeB32c(s: string) returns (r: Option<nat>)
    ensures r == if AllLegal(s) then Some(Value(s) % 0x1_0000_0000_0000_0000) else None
  {
    hide Digit, Legal;
    var t, o := 0, 1;
    var i := |s|;
    assert s[i..] == "";
    while i > 0
      invariant 0 <= i <= |s| && AllLegal(s[i..])
      invariant t == Value(s[i..]) % Wrap && o == Pow32(|s| - i) % Wrap
    {
      var c := s[i - 1];
      if !Legal(c) { return None; }
      var d := Digit(c);
      assert s[i - 1..][1..] == s[i..] && s[i - 1..] == [c] + s[i..];
      WrapStep(Value(s[i..]), d, Pow32(|s| - i));
      assert Value(s[i - 1..]) == d * Pow32(|s| - i) + Value(s[i..]);
      t := (t + (d * o) % Wrap) % Wrap;
      o := (o * 32) % Wrap;
      i := i - 1;
    }
    assert s[0..] == s;
    return Some(t);
  }

  // ---- round trips ---------------------------------------------------------------

  lemma {:induction false} ValueAppend(s: string, c: char)
    requires AllLegal(s) && Legal(c)
    ensures AllLegal(s + [c]) && Value(s + [c]) == 32 * Value(s) + Digit(c)
  {
    if s == "" {
      assert s + [c] == [c] && [c][1..] == "";
    } else {
      hide Digit, Legal;
      var rest := s[1..];
      assert (s + [c])[1..] == rest + [c];
      ValueAppend(rest, c);
      Times32(Digit(s[0]), Pow32(|rest|));
      assert Value(s + [c]) == Digit(s[0]) * (32 * Pow32(|rest|)) + Value(rest + [c]);
      assert Value(s) == Digit(s[0]) * Pow32(|rest|) + Value(rest);
    }
  }

  lemma Times32(d: nat, p: nat)
    ensures d * (32 * p) == 32 * (d * p)
  {
  }

  /** Every number is read back from its code. */
  lemma {:induction false} ValueOfCode(n: nat)
    ensures AllLegal(Code(n)) && Value(Code(n)) == n
  {
    if n > 0 {
      ValueOfCode(n / 32);
      DigitOfLetter(n % 32);
      ValueAppend(Code(n / 32), Alphabet[n % 32]);
    }
  }

  lemma CodeOfAppend(most: string, c: char)
    requires AllLegal(most) && Legal(c) && Code(Value(most)) == most && (most == "" ==> c != '0')
    ensures AllLegal(most + [c]) && Code(Value(most + [c])) == most + [c]
  {
    ValueAppend(most, c);
    ZeroDigit(c);
    if most != "" { CodePositive(most); }
    hide Digit, Legal, Value, Code, AllLegal;
    CodeLetter(Value(most), c);
  }

  /** Every legal text without a leading zero is the code of its value. */
  lemma {:induction false} CodeOfValue(s: string)
    requires AllLegal(s) && (s == "" || s[0] != '0')
    ensures Code(Value(s)) == s
  {
    if s == "" {
      CodeNothing();
    } else {
      var most, c := s[..|s| - 1], s[|s| - 1];
      assert s == most + [c] && AllLegal(most);
      hide Value, Code, Legal;
      CodeOfValue(most);
      CodeOfAppend(most, c);
    }
  }

  lemma CodeNothing()
    ensures Code(0) == "" && Value("") == 0
  {
  }

  lemma ZeroDigit(c: char)
    requires Legal(c)
    ensures Digit(c) == 0 <==> c == '0'
  {
  }

  lemma CodeStep(v: nat, d: nat)
    requires d < 32 && v + d > 0
    ensures Code(32 * v + d) == Code(v) + [Alphabet[d]]
  {
    var n := 32 * v + d;
    assert n / 32 == v && n % 32 == d;
  }

  lemma CodeLetter(v: nat, c: char)
    requires Legal(c) && v + Digit(c) > 0
    ensures Code(32 * v + Digit(c)) == Code(v) + [c]
  {
    LetterOfDigit(c);
    CodeStep(v, Digit(c));
  }

  lemma CodePositive(s: string)
    requires AllLegal(s) && s != "" && Code(Value(s)) == s
    ensures Value(s) > 0
  {
  }

  lemma {:induction false} CodeHasNoLeadingZero(n: nat)
    ensures Code(n) == "" || Code(n)[0] != '0'
  {
    if n >= 32 { CodeHasNoLeadingZero(n / 32); }
  }

  /** Encoding then decoding is the identity on uint64_t. */
  lemma EncodeThenDecode(n: uint64)
    ensures AllLegal(Code(n as int)) && Value(Code(n as int)) % 0x1_0000_0000_0000_0000 == n as int
  {
    hide Code, Value, Legal;
    ValueOfCode(n as int);
  }

  /** Decoding then encoding is the identity exactly on the legal texts without
      a leading zero whose value did not wrap. */
  lemma DecodeThenEncode(s: string)
    requires AllLegal(s)
    ensures Code(Value(s) % 0x1_0000_0000_0000_0000) == s <==> (s == "" || s[0] != '0') && Value(s) < 0x1_0000_0000_0000_0000
  {
    hide Code, Value, Legal;
    var w := Value(s) % Wrap;
    ValueOfCode(w);
    CodeHasNoLeadingZero(w);
    if (s == "" || s[0] != '0') && Value(s) < Wrap {
      CodeOfValue(s);
      assert w == Value(s);
    }
  }

  // ---- uuid_b32c -----------------------------------------------------------------

  /** Two encodings into one string: the second reverses the first again. */
  method UuidB32c(low: uint64, high: uint64) returns (s: string)
    ensures s == Uuid(low as int, high as int)
  {
    s := EncodeB32c(low, "");
    assert "" + Low(low as int) == Low(low as int);
    assert Reverse(Low(low as int)) == Code(low as int);
    s := EncodeB32c(high, s);
    assert Reverse(Code(low as int) + Low(high as int)) == Uuid(low as int, high as int);
  }

  function Uuid(low: nat, high: nat): string { Code(high) + Low(low) }

  lemma {:induction false} CodeLength(n: nat, k: nat)
    ensures |Code(n)| > k <==> n >= Pow32(k)
  {
    if k > 0 && n > 0 { CodeLength(n / 32, k - 1); }
  }

  lemma Pow32Values()
    ensures Pow32(12) == 0x1000_0000_0000_0000 && Pow32(13) > Wrap
  {
    assert Pow32(4) == 0x10_0000;
    assert Pow32(8) == 0x100_0000_0000;
  }

  /** The text has 26 characters exactly when both halves are at least 2^60,
      and then its halves, the second one reversed, decode to them. */
  lemma UuidHalves(low: uint64, high: uint64)
    ensures var s := Uuid(low as int, high as int);
      && (|s| == 26 <==> low >= 0x1000_0000_0000_0000 && high >= 0x1000_0000_0000_0000)
      && (|s| == 26 ==> AllLegal(s[..13]) && Value(s[..13]) == high as int)
      && (|s| == 26 ==> AllLegal(Reverse(s[13..])) && Value(Reverse(s[13..])) == low as int)
  {
    Pow32Values();
    CodeLength(low as int, 12);
    CodeLength(low as int, 13);
    CodeLength(high as int, 12);
    CodeLength(high as int, 13);
    ValueOfCode(low as int);
    ValueOfCode(high as int);
    var s := Uuid(low as int, high as int);
    if |s| == 26 {
      assert s[..13] == Code(high as int);
      assert Reverse(s[13..]) == Code(low as int);
    }
  }

  /** `s` is the code of some uint64_t. */
  predicate IsCode(s: string) { AllLegal(s) && (s == "" || s[0] != '0') && Value(s) < Wrap }

  lemma CodeIsCode(n: uint64)
    ensures IsCode(Code(n as int))
  {
    hide Code, Value, Legal;
    ValueOfCode(n as int);
    CodeHasNoLeadingZero(n as int);
  }

  /** The text can be cut at `k` into the codes of two halves. */
  predicate CutsAt(text: string, k: nat) { k <= |text| && IsCode(text[..k]) && IsCode(Reverse(text[k..])) }

  lemma ReverseTwice(s: string)
    ensures Reverse(Reverse(s)) == s
  {
  }

  lemma OwnCut(low: uint64, high: uint64)
    ensures var s := Uuid(low as int, high as int);
      var k := |Code(high as int)|;
      CutsAt(s, k) && s[..k] == Code(high as int) && Reverse(s[k..]) == Code(low as int)
  {
    hide Code, IsCode;
    var s, k := Uuid(low as int, high as int), |Code(high as int)|;
    assert s[..k] == Code(high as int) && s[k..] == Low(low as int);
    ReverseTwice(Code(low as int));
    CodeIsCode(low);
    CodeIsCode(high);
  }

  /** A second pair of halves for a second cut. */
  lemma CutGivesHalves(text: string, k: nat) returns (low: uint64, high: uint64)
    requires CutsAt(text, k)
    ensures Uuid(low as int, high as int) == text && |Code(high as int)| == k
  {
    hide Code, Legal, Digit;
    high, low := Value(text[..k]) as uint64, Value(Reverse(text[k..])) as uint64;
    CodeOfValue(text[..k]);
    CodeOfValue(Reverse(text[k..]));
    ReverseTwice(text[k..]);
    assert text[..k] + text[k..] == text;
  }

  /** Two different pairs of halves with one text. */
  predicate Same(low: uint64, high: uint64, l: uint64, h: uint64) {
    (l != low || h != high) && Uuid(l as int, h as int) == Uuid(low as int, high as int)
  }

  /** The halves cannot be told from the text if and only if it can be cut into
      two codes at another place as well. */
  lemma AmbiguousIff(low: uint64, high: uint64)
    ensures (exists l, h :: Same(low, high, l, h)) <==>
      var text := Uuid(low as int, high as int);
      exists k :: CutsAt(text, k) && k != |Code(high as int)|
  {
    hide Code, Uuid, CutsAt;
    var text := Uuid(low as int, high as int);
    OwnCut(low, high);
    if l, h :| Same(low, high, l, h) {
      OwnCut(l, h);
      ValueOfCode(h as int);
      ValueOfCode(high as int);
      ValueOfCode(l as int);
      ValueOfCode(low as int);
      assert |Code(h as int)| != |Code(high as int)|;
    }
    if k :| CutsAt(text, k) && k != |Code(high as int)| {
      var l, h := CutGivesHalves(text, k);
      assert Same(low, high, l, h);
    }
  }

  /** Below 2^60 the halves run into each other. */
  lemma SmallHalvesCollide()
    ensures Uuid(33, 1) == Uuid(1, 33)
  {
    assert Code(1) == "1" && Code(33) == "11";
  }
}
