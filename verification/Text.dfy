/** Searching in strings, as std::string does. */
module Text {
  /** std::string::find of a character, |s| when there is none. */
  function Find(s: string, c: char, from: nat): (r: nat)
    requires from <= |s|
    ensures from <= r <= |s| && (r < |s| ==> s[r] == c)
    ensures forall i | from <= i < r :: s[i] != c
    decreases |s| - from
  {
    if from == |s| || s[from] == c then from else Find(s, c, from + 1)
  }

  lemma FindAt(s: string, c: char, from: nat, at: nat)
    requires from <= at < |s| && s[at] == c
    requires forall i | from <= i < at :: s[i] != c
    ensures Find(s, c, from) == at
  {
  }

  /** std::string::find of "://", |s| when there is none. */
  function FindSep(s: string, from: nat): (r: nat)
    requires from <= |s|
    ensures from <= r <= |s| && (r < |s| ==> r + 3 <= |s| && s[r..r + 3] == "://")
    decreases |s| - from
  {
    if |s| - from < 3 then |s| else if s[from..from + 3] == "://" then from else FindSep(s, from + 1)
  }

  lemma {:induction false} FindSepAt(s: string, from: nat, at: nat)
    requires from <= at && at + 3 <= |s| && s[at..at + 3] == "://"
    requires forall i | from <= i < at :: s[i] != ':'
    ensures FindSep(s, from) == at
    decreases at - from
  {
    if from < at {
      assert s[from..from + 3][0] != "://"[0];
      FindSepAt(s, from + 1, at);
    }
  }

  predicate Delimiter(c: char) { c == '/' || c == '?' || c == '#' }

  /** std::string::find_first_of("/?#"). */
  function FindDelimiter(s: string, from: nat): (r: nat)
    requires from <= |s|
    ensures from <= r <= |s| && (r < |s| ==> Delimiter(s[r]))
    ensures forall i | from <= i < r :: !Delimiter(s[i])
    decreases |s| - from
  {
    if from == |s| || Delimiter(s[from]) then from else FindDelimiter(s, from + 1)
  }

  // ---- decimal numbers ---------------------------------------------------------

  predicate IsDigit(c: char) { '0' <= c <= '9' }

  function Digits(n: nat): (r: string)
    ensures |r| > 0 && forall i | 0 <= i < |r| :: IsDigit(r[i])
  {
    if n < 10 then [('0' as int + n) as char] else Digits(n / 10) + [('0' as int + n % 10) as char]
  }

  /** What an ostream prints for an int. */
  function Show(n: int): string { if n < 0 then "-" + Digits(-n) else Digits(n) }

  /** The number the leading digits of `s` spell, after those worth `acc`. */
  function Leading(s: string, acc: nat): nat {
    if s == "" || !IsDigit(s[0]) then acc
    else Leading(s[1..], 10 * acc + (s[0] as int - '0' as int))
  }

  predicate IsSpace(c: char) { c == ' ' || 9 <= c as int <= 13 }

  /** atoi: blanks, an optional sign, digits, and anything after them. */
  function Atoi(s: string): int {
    if s == "" then 0
    else if IsSpace(s[0]) then Atoi(s[1..])
    else if s[0] == '-' then 0 - Leading(s[1..], 0)
    else if s[0] == '+' then Leading(s[1..], 0)
    else Leading(s, 0)
  }

  lemma {:induction false} LeadingAppend(s: string, c: char, acc: nat)
    requires IsDigit(c) && forall i | 0 <= i < |s| :: IsDigit(s[i])
    ensures Leading(s + [c], acc) == 10 * Leading(s, acc) + (c as int - '0' as int)
  {
    if s == "" {
      assert s + [c] == [c] && [c][1..] == "";
    } else {
      assert (s + [c])[1..] == s[1..] + [c];
      LeadingAppend(s[1..], c, 10 * acc + (s[0] as int - '0' as int));
    }
  }

  lemma {:induction false} LeadingDigits(n: nat)
    ensures Leading(Digits(n), 0) == n
  {
    if n < 10 {
      assert Digits(n)[1..] == "";
    } else {
      LeadingDigits(n / 10);
      LeadingAppend(Digits(n / 10), ('0' as int + n % 10) as char, 0);
    }
  }

  /** atoi reads back every int an ostream prints. */
  lemma AtoiShow(n: int)
    ensures Atoi(Show(n)) == n
  {
    if n < 0 {
      LeadingDigits(-n);
      assert ("-" + Digits(-n))[1..] == Digits(-n);
    } else {
      LeadingDigits(n);
    }
  }

  /** A blank before a number makes no difference, nor does a plus sign. */
  lemma AtoiSkipsBlank(s: string)
    ensures Atoi(" " + s) == Atoi(s)
    ensures s != "" && '0' <= s[0] <= '9' ==> Atoi("+" + s) == Atoi(s)
  {
    assert (" " + s)[1..] == s && ("+" + s)[1..] == s;
  }

  /** Nor does anything that follows its digits. */
  lemma AtoiStops(n: int, rest: string)
    requires rest == "" || !('0' <= rest[0] <= '9')
    ensures Atoi(Show(n) + rest) == n
  {
    hide Digits, Leading, Atoi;
    var d := Digits(if n < 0 then -n else n);
    LeadingDigits(if n < 0 then -n else n);
    LeadingStops(d, rest, 0);
    AtoiSigned(d + rest);
    assert "-" + d + rest == "-" + (d + rest);
  }

  lemma AtoiSigned(s: string)
    requires s != "" && IsDigit(s[0])
    ensures Atoi(s) == Leading(s, 0) && Atoi("-" + s) == 0 - Leading(s, 0)
  {
    hide Leading;
    assert ("-" + s)[1..] == s;
  }

  lemma {:induction false} LeadingStops(s: string, rest: string, acc: nat)
    requires rest == "" || !IsDigit(rest[0])
    requires forall i | 0 <= i < |s| :: IsDigit(s[i])
    ensures Leading(s + rest, acc) == Leading(s, acc)
  {
    if s == "" {
      assert s + rest == rest;
    } else {
      assert (s + rest)[1..] == s[1..] + rest;
      LeadingStops(s[1..], rest, 10 * acc + (s[0] as int - '0' as int));
    }
  }
}
