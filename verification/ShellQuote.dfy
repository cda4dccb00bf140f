/** shellquote_list (gearbox/core/util.cc) against a reader that follows the
    quoting rules of section 2.2 of the POSIX.1-2017 Shell Command Language. */
module ShellQuote {
  import opened Outcomes
  import opened Text

  const Quote := '\''
  const Replacement := "'\"'\"'"

  predicate Neutral(c: char) {
    || 'a' <= c <= 'z' || 'A' <= c <= 'Z' || '0' <= c <= '9'
    || c in {'+', ',', '-', '.', '/', '=', '_'}
  }

  /** Non-empty and neutral throughout: the word may stand naked. */
  predicate Naked(w: string) { w != "" && forall i | 0 <= i < |w| :: Neutral(w[i]) }

  /** Every single quote replaced by the five-character sequence. */
  function Escape(w: string): string {
    if w == "" then ""
    else Escape(w[..|w| - 1]) + (if w[|w| - 1] == Quote then Replacement else [w[|w| - 1]])
  }

  function QuoteWord(w: string): string {
    if Naked(w) then w else [Quote] + Escape(w) + [Quote]
  }

  /** The quoted words, one space apart. */
  function QuoteList(ws: seq<string>): string {
    if ws == [] then ""
    else
      var last := QuoteWord(ws[|ws| - 1]);
      if |ws| == 1 then last else QuoteList(ws[..|ws| - 1]) + " " + last
  }

  // ---- the loops of the source -------------------------------------------------

  lemma {:induction false} EscapeAppend(u: string, v: string)
    requires Quote !in v
    ensures Escape(u + v) == Escape(u) + v
  {
    if v == "" {
      assert u + v == u;
    } else {
      var most := v[..|v| - 1];
      assert (u + v)[..|u + v| - 1] == u + most;
      EscapeAppend(u, most);
    }
  }

  lemma EscapePiece(w: string, from: nat, to: nat)
    requires from <= to <= |w| && forall i | from <= i < to :: w[i] != Quote
    ensures Escape(w[..to]) == Escape(w[..from]) + w[from..to]
  {
    assert w[..to] == w[..from] + w[from..to];
    EscapeAppend(w[..from], w[from..to]);
  }

  lemma EscapeQuote(w: string, at: nat)
    requires at < |w| && w[at] == Quote
    ensures Escape(w[..at + 1]) == Escape(w[..at]) + Replacement
  {
    assert w[..at + 1][..at] == w[..at];
  }

  /** The loop that copies the pieces between single quotes. */
  method ReplaceQuotes(w: string) returns (r: string)
    ensures r == Escape(w)
  {
    hide Escape;
    var pos := Find(w, Quote, 0);
    EscapePiece(w, 0, pos);
    EscapeNothing(w);
    assert w[..|w|] == w;
    if pos == |w| { return w; }
    EscapeQuote(w, pos);
    r := w[..pos] + Replacement;
    var next := Find(w, Quote, pos + 1);
    while next < |w|
      invariant pos < |w| && next == Find(w, Quote, pos + 1)
      invariant r == Escape(w[..pos + 1])
      decreases |w| - pos
    {
      EscapePiece(w, pos + 1, next);
      EscapeQuote(w, next);
      r := r + w[pos + 1..next];
      r := r + Replacement;
      pos := next;
      next := Find(w, Quote, pos + 1);
    }
    EscapePiece(w, pos + 1, |w|);
    r := r + w[pos + 1..];
  }

  lemma EscapeNothing(w: string)
    ensures Escape(w[..0]) == ""
  {
  }

  lemma QuotedIsNotEmpty(ws: seq<string>)
    ensures QuoteList(ws) == "" <==> ws == []
  {
  }

  method ShellquoteList(words: seq<string>) returns (res: string)
    ensures res == QuoteList(words)
  {
    res := "";
    for i := 0 to |words|
      invariant res == QuoteList(words[..i])
    {
      var w := words[i];
      QuotedIsNotEmpty(words[..i]);
      assert words[..i + 1][..i] == words[..i];
      if res != "" { res := res + " "; }
      if !Naked(w) {
        var quoted := ReplaceQuotes(w);
        res := res + ([Quote] + quoted + [Quote]);
      } else {
        res := res + w;
      }
    }
    assert words[..|words|] == words;
  }

  /** A word is left as it is exactly when it is not empty and made of letters,
      digits and the characters + , - . / = _ alone; any other is put in single
      quotes. */
  lemma LeftAlone(w: string)
    ensures QuoteWord(w) == w <==>
      && w != ""
      && forall i | 0 <= i < |w| ::
           || '0' <= w[i] <= '9' || 'A' <= w[i] <= 'Z' || 'a' <= w[i] <= 'z'
           || w[i] == '+' || w[i] == ',' || w[i] == '-' || w[i] == '.' || w[i] == '/' || w[i] == '=' || w[i] == '_'
    ensures QuoteWord(w) != w ==> |QuoteWord(w)| >= |w| + 2 && QuoteWord(w)[0] == '\'' && QuoteWord(w)[|QuoteWord(w)| - 1] == '\''
  {
    if !Naked(w) { Longer(w); }
  }

  lemma {:induction false} Longer(w: string)
    ensures |Escape(w)| >= |w|
  {
    if w != "" { Longer(w[..|w| - 1]); }
  }

  // ---- a shell reading the result ------------------------------------------------

  datatype Mode = Bare | Escaped | Single | Double | DoubleEscaped

  /** The words read so far, the word in progress if any, and every character
      that was met while nothing quoted it. */
  datatype Reader = Refused | Reader(words: seq<string>, word: Option<string>, mode: Mode, naked: set<char>)

  const Start := Reader([], None, Bare, {})

  /** Characters that would expand, redirect, match or end the command. */
  const Special := {'|', '&', ';', '<', '>', '(', ')', '$', '`', '\n', '*', '?', '[', '#', '~', '%'}

  function SoFar(r: Reader): string
    requires r.Reader?
  {
    if r.word.Some? then r.word.value else ""
  }

  function Keep(r: Reader, c: char): (t: Reader)
    requires r.Reader?
    ensures t.Reader?
  {
    r.(word := Some(SoFar(r) + [c]))
  }

  function Step(r: Reader, c: char): Reader {
    if r.Refused? then r
    else
      match r.mode
      case Bare => StepBare(r.(naked := r.naked + {c}), c)
      case Escaped => Keep(r.(mode := Bare), c)
      case Single => if c == '\'' then r.(mode := Bare) else Keep(r, c)
      case Double =>
        if c == '"' then r.(mode := Bare)
        else if c == '$' || c == '`' then Refused
        else if c == '\\' then r.(mode := DoubleEscaped)
        else Keep(r, c)
      case DoubleEscaped =>
        if c in {'$', '`', '"', '\\'} then Keep(r.(mode := Double), c)
        else if c == '\n' then r.(mode := Double)
        else Keep(Keep(r.(mode := Double), '\\'), c)
  }

  function StepBare(r: Reader, c: char): Reader
    requires r.Reader?
  {
    if c == ' ' || c == '\t' then
      (if r.word.Some? then r.(words := r.words + [r.word.value], word := None) else r)
    else if c in Special then Refused
    else if c == '\'' then r.(word := Some(SoFar(r)), mode := Single)
    else if c == '"' then r.(word := Some(SoFar(r)), mode := Double)
    else if c == '\\' then r.(mode := Escaped)
    else Keep(r, c)
  }

  function Read(r: Reader, s: string): Reader {
    if s == "" then r else Step(Read(r, s[..|s| - 1]), s[|s| - 1])
  }

  lemma {:induction false} ReadAppend(r: Reader, a: string, b: string)
    ensures Read(r, a + b) == Read(Read(r, a), b)
  {
    if b == "" {
      assert a + b == a;
    } else {
      assert (a + b)[..|a + b| - 1] == a + b[..|b| - 1];
      ReadAppend(r, a, b[..|b| - 1]);
    }
  }

  /** The words of a complete command line, or None. */
  function Words(r: Reader): Option<seq<string>> {
    if r.Refused? || r.mode != Bare then None
    else Some(if r.word.Some? then r.words + [r.word.value] else r.words)
  }

  predicate Tame(naked: set<char>) {
    forall c <- naked :: Neutral(c) || c in {' ', '\'', '"'}
  }

  lemma NeutralStep(r: Reader, c: char)
    requires r.Reader? && r.mode == Bare && Neutral(c)
    ensures Step(r, c) == Keep(r.(naked := r.naked + {c}), c)
    ensures Tame(r.naked) ==> Tame(r.naked + {c})
  {
    assert forall d <- Special :: !Neutral(d);
  }

  lemma {:induction false} ReadNaked(r: Reader, w: string)
    requires r.Reader? && r.mode == Bare && Tame(r.naked) && r.word.None?
    requires forall i | 0 <= i < |w| :: Neutral(w[i])
    ensures var t := Read(r, w);
      && t.Reader? && t.mode == Bare && Tame(t.naked) && t.words == r.words
      && t.word == if w == "" then None else Some(w)
  {
    if w != "" {
      hide Step, Neutral, Tame;
      var most, c := w[..|w| - 1], w[|w| - 1];
      ReadNaked(r, most);
      var u := Read(r, most);
      NeutralStep(u, c);
      assert SoFar(u) == most;
      assert w == most + [c];
    }
  }

  /** The five-character sequence leaves the quotes, adds one and comes back. */
  lemma ReadReplacement(r: Reader)
    requires r.Reader? && r.mode == Single && Tame(r.naked) && r.word.Some?
    ensures var t := Read(r, Replacement);
      && t.Reader? && t.mode == Single && Tame(t.naked) && t.words == r.words
      && t.word == Some(r.word.value + [Quote])
  {
    var r1 := Step(r, '\'');
    var r2 := Step(r1, '"');
    var r3 := Step(r2, '\'');
    var r4 := Step(r3, '"');
    assert Replacement[..4] == "'\"'\"" && Replacement[..4][..3] == "'\"'";
    assert Replacement[..4][..3][..2] == "'\"" && Replacement[..4][..3][..2][..1] == "'";
    assert Read(r, "'") == r1;
    assert Read(r, "'\"") == r2;
    assert Read(r, "'\"'") == r3;
    assert Read(r, "'\"'\"") == r4;
  }

  lemma ReadOne(r: Reader, c: char)
    ensures Read(r, [c]) == Step(r, c)
  {
    assert [c][..0] == "";
  }

  lemma {:induction false} ReadEscaped(r: Reader, w: string)
    requires r.Reader? && r.mode == Single && Tame(r.naked) && r.word == Some("")
    ensures var t := Read(r, Escape(w));
      && t.Reader? && t.mode == Single && Tame(t.naked) && t.words == r.words && t.word == Some(w)
  {
    if w != "" {
      var most, c := w[..|w| - 1], w[|w| - 1];
      hide Read, Neutral;
      ReadEscaped(r, most);
      var t := Read(r, Escape(most));
      assert w == most + [c];
      if c == Quote {
        ReadAppend(r, Escape(most), Replacement);
        ReadReplacement(t);
      } else {
        ReadAppend(r, Escape(most), [c]);
        ReadOne(t, c);
      }
    }
  }

  lemma ReadWord(r: Reader, w: string)
    requires r.Reader? && r.mode == Bare && Tame(r.naked) && r.word.None?
    ensures var t := Read(r, QuoteWord(w));
      && t.Reader? && t.mode == Bare && Tame(t.naked) && t.words == r.words && t.word == Some(w)
  {
    if Naked(w) {
      ReadNaked(r, w);
    } else {
      var open := Step(r, Quote);
      assert Read(r, [Quote]) == open by { assert [Quote][..0] == ""; }
      ReadEscaped(open, w);
      ReadAppend(r, [Quote], Escape(w));
      ReadAppend(r, [Quote] + Escape(w), [Quote]);
      assert [Quote][..0] == "";
    }
  }

  /** A shell reads back exactly the list that was quoted, and everything it
      meets outside quotes is neutral, a space or a quote. */
  lemma {:induction false} QuotingRoundTrip(ws: seq<string>)
    ensures Words(Read(Start, QuoteList(ws))) == Some(ws)
    ensures Read(Start, QuoteList(ws)).Reader? && Tame(Read(Start, QuoteList(ws)).naked)
  {
    if ws != [] {
      var most, w := ws[..|ws| - 1], ws[|ws| - 1];
      assert ws == most + [w];
      if |ws| == 1 {
        ReadWord(Start, w);
      } else {
        QuotingRoundTrip(most);
        var t := Read(Start, QuoteList(most));
        var u := Step(t, ' ');
        assert Read(t, " ") == u by { assert " "[..0] == ""; }
        ReadAppend(Start, QuoteList(most), " ");
        ReadAppend(Start, QuoteList(most) + " ", QuoteWord(w));
        ReadWord(u, w);
      }
    }
  }
}
