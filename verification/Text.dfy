/**
 C strings as the daemon, the CGI and the filters use them: decimal numbers as
 printf and atoi see them, and the whitespace tokeniser behind every wire line
 and factor list. A C char is modelled as a Dafny char; nothing depends on its width.
 */
module Text {
  import Seqs

  datatype Option<+T> = None | Some(value: T)

  /** The first position of c in s, or |s| (strchr). */
  function IndexOf(s: string, c: char): (k: nat)
    ensures k <= |s|
  {
    if s == "" || s[0] == c then 0 else 1 + IndexOf(s[1..], c)
  }

  lemma {:induction false} IndexOfSpec(s: string, c: char)
    ensures c !in s[..IndexOf(s, c)]
    ensures IndexOf(s, c) < |s| ==> s[IndexOf(s, c)] == c
  {
    if s != "" && s[0] != c {
      IndexOfSpec(s[1..], c);
      assert s[..IndexOf(s, c)] == [s[0]] + s[1..][..IndexOf(s[1..], c)];
    }
  }

  lemma {:induction false} IndexOfAt(a: string, c: char, b: string)
    requires c !in a
    ensures IndexOf(a + [c] + b, c) == |a|
  {
    if a != "" {
      assert (a + [c] + b)[1..] == a[1..] + [c] + b;
      assert a[0] in a;
      IndexOfAt(a[1..], c, b);
    }
  }

  lemma {:induction false} IndexOfBehind(prefix: string, s: string, c: char)
    requires c !in prefix && prefix <= s
    ensures IndexOf(s, c) >= |prefix|
  {
    if prefix != "" {
      assert prefix[0] in prefix && s[0] == prefix[0];
      IndexOfBehind(prefix[1..], s[1..], c);
    }
  }

  lemma {:induction false} IndexOfNone(s: string, c: char)
    requires c !in s
    ensures IndexOf(s, c) == |s|
  {
    if s != "" {
      IndexOfNone(s[1..], c);
    }
  }

  lemma {:induction false} IndexOfIn(s: string, k: nat)
    requires k < |s|
    ensures IndexOf(s, s[k]) <= k
  {
    if k > 0 && s[0] != s[k] {
      IndexOfIn(s[1..], k - 1);
    }
  }

  // ---------------------------------------------------------------- decimals

  predicate IsDigit(c: char) { '0' <= c <= '9' }

  predicate IsSpace(c: char) { c == ' ' || '\t' <= c <= '\r' }

  /** What "%d" prints for a number that is not negative. */
  function Dec(n: nat): (s: string)
    ensures s != ""
    ensures forall c :: c in s ==> IsDigit(c)
  {
    if n < 10 then [(48 + n) as char] else Dec(n / 10) + [(48 + n % 10) as char]
  }

  /** Reads on from acc as long as there are digits. */
  function Digits(s: string, acc: nat): nat
  {
    if s == "" || !IsDigit(s[0]) then acc
    else Digits(s[1..], acc * 10 + (s[0] as int - 48))
  }

  function DropSpace(s: string): string
  {
    if s != "" && IsSpace(s[0]) then DropSpace(s[1..]) else s
  }

  /** atoi without overflow: leading blanks, one sign, digits, and the rest ignored. */
  function Atoi(s: string): int
  {
    var t := DropSpace(s);
    if t == "" then 0
    else if t[0] == '-' then 0 - Digits(t[1..], 0)
    else if t[0] == '+' then Digits(t[1..], 0)
    else Digits(t, 0)
  }

  lemma {:induction false} DigitsOfDec(n: nat, rest: string)
    ensures Digits(Dec(n) + rest, 0) == Digits(rest, n)
  {
    if n < 10 {
      assert Dec(n) + rest == [(48 + n) as char] + rest;
      assert (Dec(n) + rest)[1..] == rest;
    } else {
      var d := [(48 + n % 10) as char];
      assert Dec(n) + rest == Dec(n / 10) + (d + rest);
      DigitsOfDec(n / 10, d + rest);
      assert (d + rest)[1..] == rest;
    }
  }

  /** A printed number reads back, whatever follows it, unless more digits follow. */
  lemma AtoiOfDec(n: nat, rest: string)
    requires rest == "" || !IsDigit(rest[0])
    ensures Atoi(Dec(n) + rest) == n
  {
    DigitsOfDec(n, rest);
    var s := Dec(n) + rest;
    assert s[0] == Dec(n)[0];
    assert s[0] in Dec(n);
  }

  lemma {:induction false} DecLength(n: nat, k: nat)
    requires n < Pow10(k) && k > 0
    ensures |Dec(n)| <= k
    decreases k
  {
    assert Pow10(1) == 10 * Pow10(0);
    if n >= 10 {
      DecLength(n / 10, k - 1);
    }
  }

  function Pow10(k: nat): nat { if k == 0 then 1 else 10 * Pow10(k - 1) }

  // ---------------------------------------------------------------- words

  /** The three characters that separate words. A carriage return is not one of them. */
  predicate White(c: char) { c == ' ' || c == '\t' || c == '\n' }

  predicate IsWord(w: string) { w != "" && forall c :: c in w ==> !White(c) }

  predicate AllWords(ws: seq<string>) { forall w :: w in ws ==> IsWord(w) }

  function WordLength(s: string): (k: nat)
    ensures k <= |s|
    ensures s != "" && !White(s[0]) ==> k > 0
  {
    if s == "" || White(s[0]) then 0 else 1 + WordLength(s[1..])
  }

  lemma {:induction false} WordLengthSpec(s: string)
    ensures forall c :: c in s[..WordLength(s)] ==> !White(c)
  {
    if s != "" && !White(s[0]) {
      WordLengthSpec(s[1..]);
      assert s[..WordLength(s)] == [s[0]] + s[1..][..WordLength(s[1..])];
    }
  }

  lemma {:induction false} WordLengthIs(w: string, rest: string)
    requires forall c :: c in w ==> !White(c)
    requires rest == "" || White(rest[0])
    ensures WordLength(w + rest) == |w|
  {
    if w == "" {
      assert w + rest == rest;
    } else {
      assert (w + rest)[1..] == w[1..] + rest;
      assert w[0] in w;
      WordLengthIs(w[1..], rest);
    }
  }

  /** The maximal runs of characters that are not white, in order. */
  function Tokens(s: string): (ws: seq<string>)
    decreases |s|
  {
    if s == "" then []
    else if White(s[0]) then Tokens(s[1..])
    else
      var k := WordLength(s);
      [s[..k]] + Tokens(s[k..])
  }

  lemma {:induction false} TokensAreWords(s: string)
    ensures AllWords(Tokens(s))
    decreases |s|
  {
    if s != "" && White(s[0]) {
      TokensAreWords(s[1..]);
    } else if s != "" {
      WordLengthSpec(s);
      TokensAreWords(s[WordLength(s)..]);
    }
  }

  /** The words with one blank between neighbours, as every printf in the daemon writes them. */
  function Join(ws: seq<string>): string
  {
    if |ws| == 0 then ""
    else if |ws| == 1 then ws[0]
    else ws[0] + " " + Join(ws[1..])
  }

  lemma {:induction false} JoinAppend(ws: seq<string>, w: string)
    requires ws != []
    ensures Join(ws + [w]) == Join(ws) + " " + w
  {
    if |ws| == 1 {
      assert (ws + [w])[1..] == [w];
    } else {
      Seqs.TailOfCat(ws, [w]);
      JoinAppend(ws[1..], w);
      Seqs.Assoc(ws[0] + " ", Join(ws[1..]), " " + w);
      Seqs.Assoc(Join(ws[1..]), " ", w);
      Seqs.Assoc(ws[0] + " " + Join(ws[1..]), " ", w);
    }
  }

  lemma WordThenRest(w: string, rest: string)
    requires IsWord(w)
    requires rest == "" || White(rest[0])
    ensures Tokens(w + rest) == [w] + Tokens(rest)
  {
    var s := w + rest;
    WordLengthIs(w, rest);
    assert s[..|w|] == w && s[|w|..] == rest;
    assert s[0] == w[0] && w[0] in w;
  }

  /** Tokenising a blank-joined list of words returns that list, with or without trailing white. */
  lemma {:induction false} TokensOfJoin(ws: seq<string>, rest: string)
    requires AllWords(ws)
    requires rest == "" || White(rest[0])
    ensures Tokens(Join(ws) + rest) == ws + Tokens(rest)
  {
    if |ws| == 0 {
      Seqs.Nil(rest);
      Seqs.Nil(Tokens(rest));
    } else if |ws| == 1 {
      WordThenRest(ws[0], rest);
      assert ws == [ws[0]];
    } else {
      var tail := Join(ws[1..]) + rest;
      calc {
        Tokens(Join(ws) + rest);
        { Seqs.Assoc(ws[0], " ", Join(ws[1..])); Seqs.Assoc(ws[0], " " + Join(ws[1..]), rest);
          Seqs.Assoc(" ", Join(ws[1..]), rest); }
        Tokens(ws[0] + (" " + tail));
        { WordThenRest(ws[0], " " + tail); }
        [ws[0]] + Tokens(" " + tail);
        { WhiteThenRest(' ', tail); }
        [ws[0]] + Tokens(tail);
        { TokensOfJoin(ws[1..], rest); }
        [ws[0]] + (ws[1..] + Tokens(rest));
        { Seqs.Assoc([ws[0]], ws[1..], Tokens(rest)); Seqs.Cons(ws); }
        ws + Tokens(rest);
      }
    }
  }

  lemma WhiteThenRest(c: char, rest: string)
    requires White(c)
    ensures Tokens([c] + rest) == Tokens(rest)
  {
    assert ([c] + rest)[1..] == rest;
  }

  /** White between two texts keeps their words apart. */
  lemma {:induction false} TokensOfCat(a: string, c: char, b: string)
    requires White(c)
    ensures Tokens(a + [c] + b) == Tokens(a) + Tokens(b)
    decreases |a|
  {
    if a == "" {
      WhiteThenRest(c, b);
      assert a + [c] + b == [c] + b;
      Seqs.Nil(Tokens(b));
    } else if White(a[0]) {
      assert (a + [c] + b)[1..] == a[1..] + [c] + b;
      TokensOfCat(a[1..], c, b);
    } else {
      var k := WordLength(a);
      var w, rest := a[..k], a[k..];
      WordLengthSpec(a);
      WordEnds(a);
      assert a + [c] + b == w + (rest + [c] + b);
      WordThenRest(w, rest + [c] + b);
      TokensOfCat(rest, c, b);
      Seqs.Assoc([w], Tokens(rest), Tokens(b));
    }
  }

  lemma {:induction false} WordEnds(s: string)
    ensures WordLength(s) < |s| ==> White(s[WordLength(s)])
  {
    if s != "" && !White(s[0]) {
      WordEnds(s[1..]);
    }
  }

  lemma TokensOfList(ws: seq<string>)
    requires AllWords(ws)
    ensures Tokens(Join(ws)) == ws
  {
    TokensOfJoin(ws, "");
    Seqs.Nil(Join(ws));
    Seqs.Nil(ws);
  }
}
