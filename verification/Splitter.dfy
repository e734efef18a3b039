/**
 What a stream of characters means as lines: the specification of snet_getline.
 LF ends a line; CR or NUL ends a line and swallows one LF that comes next.
 */
module Splitter {
  import opened Text
  import Seqs

  predicate Ends(c: char) { c == '\r' || c == '\n' || c == '\0' }

  /** The position of the first line ending, or |s|. */
  function Eol(s: string): (k: nat)
    ensures k <= |s|
  {
    if s == "" || Ends(s[0]) then 0 else 1 + Eol(s[1..])
  }

  ghost predicate Plain(s: string) { forall i :: 0 <= i < |s| ==> !Ends(s[i]) }

  /** Eol(s) is the one k with no line ending below it and a line ending, or the end, at it. */
  lemma {:induction false} EolIs(s: string, k: nat)
    requires k <= |s| && Plain(s[..k]) && (k == |s| || Ends(s[k]))
    ensures Eol(s) == k
  {
    if k > 0 {
      assert s[..k][0] == s[0];
      assert s[1..][..k - 1] == s[..k][1..];
      EolIs(s[1..], k - 1);
    }
  }

  lemma {:induction false} EolAtLeast(t: string, i: nat)
    requires i <= |t| && Plain(t[..i])
    ensures Eol(t) >= i
  {
    if i > 0 {
      assert t[..i][0] == t[0];
      assert t[1..][..i - 1] == t[..i][1..];
      EolAtLeast(t[1..], i - 1);
    }
  }

  lemma {:induction false} EolSpec(s: string)
    ensures Plain(s[..Eol(s)])
    ensures Eol(s) < |s| ==> Ends(s[Eol(s)])
  {
    if s != "" && !Ends(s[0]) {
      EolSpec(s[1..]);
      assert s[..Eol(s)] == [s[0]] + s[1..][..Eol(s[1..])];
    }
  }

  /** Leaves out the LF of a CR LF pair whose CR has already been seen. */
  function Skip(s: string, fuzzy: bool): string
  {
    if fuzzy && s != "" && s[0] == '\n' then s[1..] else s
  }

  datatype Reply =
    | Line(text: string)        // a line with its ending
    | Final(text: string)       // end of stream after some characters
    | End                       // end of stream, nothing left
    | TooLong                   // the buffer may not grow any more
    | Fault                     // the read below failed or timed out

  /** Outcome of one call: the answer, what stays unread, and whether an LF is to be swallowed. */
  datatype Step = Step(reply: Reply, rest: string, fuzzy: bool)

  /**
   One call of snet_getline on the unread characters s. No buffer holds more than limit
   characters (0: no limit); more says that the stream goes on after a failed read.
   */
  function Next(s: string, fuzzy: bool, limit: nat, more: bool): Step
  {
    var t := Skip(s, fuzzy);
    var k := Eol(t);
    if limit != 0 && k >= limit then Step(TooLong, t, false)
    else if k < |t| then Step(Line(t[..k]), t[k + 1..], t[k] != '\n')
    else if more then Step(Fault, t, fuzzy && s == "")
    else if t == "" then Step(End, "", fuzzy && s == "")
    else Step(Final(t), "", false)
  }

  /** A call fails for the length of the line exactly if no line ending is among its first limit characters. */
  lemma TooLongIff(s: string, fuzzy: bool, limit: nat, more: bool)
    ensures Next(s, fuzzy, limit, more).reply.TooLong? <==>
            var t := Skip(s, fuzzy); limit != 0 && |t| >= limit && Plain(t[..limit])
  {
    var t := Skip(s, fuzzy);
    EolSpec(t);
    if Eol(t) >= limit { PlainPrefix(t, limit, Eol(t)); }
    if limit <= |t| && Plain(t[..limit]) { EolAtLeast(t, limit); }
  }

  lemma PlainPrefix(t: string, i: nat, k: nat)
    requires i <= k <= |t| && Plain(t[..k])
    ensures Plain(t[..i])
  {
    assert forall j :: 0 <= j < i ==> t[..i][j] == t[..k][j];
  }

  /** A line that ends in CR, behind a stray LF or not. */
  lemma NextOfLine(s: string, fuzzy: bool, limit: nat, more: bool, line: string, rest: string)
    requires Skip(s, fuzzy) == line + "\r" + rest && Plain(line) && (limit == 0 || |line| < limit)
    ensures Next(s, fuzzy, limit, more) == Step(Line(line), rest, true)
  {
    var t := line + "\r" + rest;
    assert t[..|line|] == line && t[|line| + 1..] == rest && t[|line|] == '\r';
    EolIs(t, |line|);
  }

  lemma SkipLf(s: string)
    ensures Skip("\n" + s, true) == s && Skip(s, false) == s
  {
  }

  // ------------------------------------------------ the one-pass splitter

  /** Lines found so far, the line being read, and whether an LF is to be swallowed. */
  datatype Pass = Pass(done: seq<string>, open: string, fuzzy: bool) {
    /** One character of input. */
    function Feed(c: char): Pass {
      if c == '\n' && fuzzy then Pass(done, open, false)
      else if Ends(c) then Pass(done + [open], "", c != '\n')
      else Pass(done, open + [c], false)
    }

    /** The lines when the input stops here. */
    function Lines(): seq<string> { if open == "" then done else done + [open] }
  }

  function FeedAll(p: Pass, s: string): Pass
    decreases |s|
  {
    if s == "" then p else FeedAll(p.Feed(s[0]), s[1..])
  }

  /** What repeated calls give on a stream that ends after s: the lines, and whether they stop at one that is too long. */
  datatype Found = Found(lines: seq<string>, tooLong: bool)

  function Calls(s: string, fuzzy: bool, limit: nat): Found
    decreases |s|
  {
    var n := Next(s, fuzzy, limit, false);
    match n.reply
    case Line(text) =>
      var f := Calls(n.rest, n.fuzzy, limit);
      Found([text] + f.lines, f.tooLong)
    case Final(text) => Found([text], false)
    case TooLong => Found([], true)
    case _ => Found([], false)
  }

  /** Every line that repeated calls give without a limit. */
  function AllLines(s: string, fuzzy: bool): seq<string> { Calls(s, fuzzy, 0).lines }

  predicate Fits(line: string, limit: nat) { limit == 0 || |line| < limit }

  /** The lines in front of the first that does not fit. */
  function Upto(lines: seq<string>, limit: nat): Found
  {
    if lines == [] then Found([], false)
    else if !Fits(lines[0], limit) then Found([], true)
    else
      var f := Upto(lines[1..], limit);
      Found([lines[0]] + f.lines, f.tooLong)
  }

  function Flat(chunks: seq<string>): string
  {
    if chunks == [] then "" else chunks[0] + Flat(chunks[1..])
  }

  function FeedChunks(p: Pass, chunks: seq<string>): Pass
    decreases |chunks|
  {
    if chunks == [] then p else FeedChunks(FeedAll(p, chunks[0]), chunks[1..])
  }

  lemma {:induction false} FeedAppend(p: Pass, a: string, b: string)
    ensures FeedAll(p, a + b) == FeedAll(FeedAll(p, a), b)
    decreases |a|
  {
    if a == "" {
      Seqs.Nil(b);
    } else {
      Seqs.TailOfCat(a, b);
      FeedAppend(p.Feed(a[0]), a[1..], b);
    }
  }

  /** Where the input is cut does not matter. */
  lemma {:induction false} CuttingIsInvisible(p: Pass, chunks: seq<string>)
    ensures FeedChunks(p, chunks) == FeedAll(p, Flat(chunks))
    decreases |chunks|
  {
    if chunks != [] {
      FeedAppend(p, chunks[0], Flat(chunks[1..]));
      CuttingIsInvisible(FeedAll(p, chunks[0]), chunks[1..]);
    }
  }

  lemma {:induction false} FeedPlain(p: Pass, s: string)
    requires Plain(s)
    ensures FeedAll(p, s) == Pass(p.done, p.open + s, p.fuzzy && s == "")
    decreases |s|
  {
    if s == "" {
      Seqs.Nil(p.open);
    } else {
      FeedPlain(p.Feed(s[0]), s[1..]);
      Seqs.Assoc(p.open, [s[0]], s[1..]);
      Seqs.Cons(s);
    }
  }

  /** The automaton on a stream that holds a line ending: it is after that line's ending. */
  lemma FeedLine(done: seq<string>, t: string, fuzzy: bool)
    requires Eol(t) < |t| && Skip(t, fuzzy) == t
    ensures FeedAll(Pass(done, "", fuzzy), t) ==
            FeedAll(Pass(done + [t[..Eol(t)]], "", t[Eol(t)] != '\n'), t[Eol(t) + 1..])
  {
    var k := Eol(t);
    var start, after := Pass(done, "", fuzzy), Pass(done, t[..k], fuzzy && k == 0);
    EolSpec(t);
    Seqs.Cut(t, k);
    FeedAppend(start, t[..k], t[k..]);
    FeedPlain(start, t[..k]);
    Seqs.Nil(t[..k]);
    FeedOne(after, t, k);
  }

  lemma FeedOne(p: Pass, t: string, k: nat)
    requires k < |t|
    ensures FeedAll(p, t[k..]) == FeedAll(p.Feed(t[k]), t[k + 1..])
  {
    assert t[k..][1..] == t[k + 1..];
  }

  lemma FeedSkip(done: seq<string>, s: string, fuzzy: bool) returns (f: bool)
    ensures Skip(Skip(s, fuzzy), f) == Skip(s, fuzzy)
    ensures FeedAll(Pass(done, "", fuzzy), s) == FeedAll(Pass(done, "", f), Skip(s, fuzzy))
  {
    f := fuzzy && Skip(s, fuzzy) == s;
  }

  /** A call that finds a line, and those after it. */
  lemma CallsLine(s: string, fuzzy: bool, limit: nat, t: string, k: nat)
    requires t == Skip(s, fuzzy) && k == Eol(t) < |t| && (limit == 0 || k < limit)
    ensures var f := Calls(t[k + 1..], t[k] != '\n', limit); Calls(s, fuzzy, limit) == Found([t[..k]] + f.lines, f.tooLong)
  {
    assert Next(s, fuzzy, limit, false) == Step(Line(t[..k]), t[k + 1..], t[k] != '\n');
  }

  /** A call that finds none. */
  lemma CallsStop(s: string, fuzzy: bool, limit: nat, t: string, k: nat)
    requires t == Skip(s, fuzzy) && k == Eol(t) && (k == |t| || (limit != 0 && k >= limit))
    ensures Calls(s, fuzzy, limit) == if limit != 0 && k >= limit then Found([], true)
                                      else Found(if t == "" then [] else [t], false)
  {
  }

  /** Calling again and again gives the lines of the one-pass splitter. */
  lemma {:induction false} CallsMatchOnePass(done: seq<string>, s: string, fuzzy: bool)
    ensures FeedAll(Pass(done, "", fuzzy), s).Lines() == done + AllLines(s, fuzzy)
    decreases |s|
  {
    var t := Skip(s, fuzzy);
    var f := FeedSkip(done, s, fuzzy);
    var k := Eol(t);
    if k < |t| {
      CallsLine(s, fuzzy, 0, t, k);
      var line, rest := t[..k], t[k + 1..];
      FeedLine(done, t, f);
      CallsMatchOnePass(done + [line], rest, t[k] != '\n');
      var others := AllLines(rest, t[k] != '\n');
      Seqs.Assoc(done, [line], others);
    } else {
      CallsStop(s, fuzzy, 0, t, k);
      EolSpec(t);
      assert t[..k] == t;
      FeedPlain(Pass(done, "", f), t);
      Seqs.Nil(t);
      Seqs.Nil(done);
    }
  }

  /** With a limit, the calls give the same lines up to the first that is too long. */
  lemma {:induction false} LimitOnlyStops(s: string, fuzzy: bool, limit: nat)
    ensures Calls(s, fuzzy, limit) == Upto(AllLines(s, fuzzy), limit)
    decreases |s|
  {
    var t := Skip(s, fuzzy);
    var k := Eol(t);
    EolSpec(t);
    if k < |t| {
      CallsLine(s, fuzzy, 0, t, k);
      UptoOnward(t[..k], AllLines(t[k + 1..], t[k] != '\n'), limit);
      if limit == 0 || k < limit {
        CallsLine(s, fuzzy, limit, t, k);
        LimitOnlyStops(t[k + 1..], t[k] != '\n', limit);
      } else {
        CallsStop(s, fuzzy, limit, t, k);
      }
    } else {
      CallsStop(s, fuzzy, 0, t, k);
      CallsStop(s, fuzzy, limit, t, k);
      UptoOnward(t, [], limit);
      Seqs.Nil([t]);
    }
  }

  lemma UptoOnward(line: string, more: seq<string>, limit: nat)
    ensures Upto([line] + more, limit) == if Fits(line, limit) then Found([line] + Upto(more, limit).lines, Upto(more, limit).tooLong)
                                          else Found([], true)
  {
    Seqs.TailOfCat([line], more);
  }

  /** Upto is the longest part in front whose lines all fit, and tells whether it is not everything. */
  lemma {:induction false} UptoIs(lines: seq<string>, limit: nat, k: nat)
    requires k <= |lines| && (forall i :: 0 <= i < k ==> Fits(lines[i], limit)) && (k < |lines| ==> !Fits(lines[k], limit))
    ensures Upto(lines, limit) == Found(lines[..k], k < |lines|)
  {
    if k > 0 {
      UptoIs(lines[1..], limit, k - 1);
      assert lines[..k] == [lines[0]] + lines[1..][..k - 1];
    }
  }

  /** On any stream and with any limit, repeated calls give the one-pass lines up to the first of at least limit characters. */
  lemma CallsFromStart(s: string, limit: nat)
    ensures Calls(s, false, limit) == Upto(FeedAll(Pass([], "", false), s).Lines(), limit)
  {
    CallsMatchOnePass([], s, false);
    Seqs.Nil(AllLines(s, false));
    LimitOnlyStops(s, false, limit);
  }

  /** Two ways of cutting a stream into chunks give the same lines, and so do calls on it with any limit. */
  lemma SameStreamSameLines(a: seq<string>, b: seq<string>, limit: nat)
    requires Flat(a) == Flat(b)
    ensures FeedChunks(Pass([], "", false), a) == FeedChunks(Pass([], "", false), b)
    ensures Calls(Flat(a), false, limit) == Upto(FeedChunks(Pass([], "", false), b).Lines(), limit)
  {
    CuttingIsInvisible(Pass([], "", false), a);
    CuttingIsInvisible(Pass([], "", false), b);
    CallsFromStart(Flat(a), limit);
  }
}
