/** Replies of several lines: snet_getline_multi reads up to the line without a hyphen behind its number. */
module Replies {
  import opened Text
  import opened Splitter
  import Snet
  import Seqs

  /** Three digits, and a blank or a hyphen or nothing behind them. */
  predicate Numbered(line: string) {
    && |line| >= 3 && IsDigit(line[0]) && IsDigit(line[1]) && IsDigit(line[2])
    && (|line| == 3 || line[3] == ' ' || line[3] == '-')
  }

  predicate Continues(line: string) { Numbered(line) && |line| > 3 && line[3] == '-' }

  datatype Answer =
    | Answer(text: string)      // the last line of a reply
    | Malformed                 // a line that is not numbered
    | NoLine(reply: Reply)      // no line at all
    | Unfinished                // the stream ends in a line that says that more follow

  /** Outcome of one call of snet_getline_multi; atEnd tells that the line was the unterminated last one. */
  datatype MultiStep = MultiStep(answer: Answer, rest: string, fuzzy: bool, atEnd: bool)

  /** What a line means for the reply; None: go on to the next one. */
  function Verdict(r: Reply): Option<Answer>
  {
    if !r.Line? && !r.Final? then Some(NoLine(r))
    else if !Numbered(r.text) then Some(Malformed)
    else if !Continues(r.text) then Some(Answer(r.text))
    else if r.Final? then Some(Unfinished)
    else None
  }

  function NextMulti(s: string, fuzzy: bool, limit: nat, more: bool): MultiStep
    decreases |s|
  {
    var n := Next(s, fuzzy, limit, more);
    var v := Verdict(n.reply);
    if v.Some? then MultiStep(v.value, n.rest, n.fuzzy, n.reply.Final?) else NextMulti(n.rest, n.fuzzy, limit, more)
  }

  function Crlf(lines: seq<string>): string
  {
    if lines == [] then "" else lines[0] + "\r" + ("\n" + Crlf(lines[1..]))
  }

  lemma OnToTheNext(s: string, fuzzy: bool, limit: nat, more: bool, n: Step)
    requires Next(s, fuzzy, limit, more) == n && Verdict(n.reply).None?
    ensures NextMulti(s, fuzzy, limit, more) == NextMulti(n.rest, n.fuzzy, limit, more) && |n.rest| < |s|
  {
  }

  lemma Concluded(s: string, fuzzy: bool, limit: nat, more: bool, n: Step)
    requires Next(s, fuzzy, limit, more) == n && Verdict(n.reply).Some?
    ensures NextMulti(s, fuzzy, limit, more) == MultiStep(Verdict(n.reply).value, n.rest, n.fuzzy, n.reply.Final?)
  {
  }

  /**
   A reply whose lines are all numbered and short enough, all but the last with a hyphen, is
   read as its last line. What comes behind it is left, with its LF still to be swallowed.
   */
  lemma {:induction false} LastLineAnswers(lines: seq<string>, last: string, rest: string, limit: nat, more: bool)
    requires forall i :: 0 <= i < |lines| ==> Plain(lines[i]) && Continues(lines[i]) && (limit == 0 || |lines[i]| < limit)
    requires Plain(last) && Numbered(last) && !Continues(last) && (limit == 0 || |last| < limit)
    ensures NextMulti(Crlf(lines) + (last + "\r" + rest), false, limit, more) == MultiStep(Answer(last), rest, true, false)
    ensures NextMulti("\n" + (Crlf(lines) + (last + "\r" + rest)), true, limit, more) == MultiStep(Answer(last), rest, true, false)
    decreases |lines|
  {
    var end := last + "\r" + rest;
    var s := Crlf(lines) + end;
    SkipLf(s);
    if lines == [] {
      Seqs.Nil(end);
      NextOfLine(s, false, limit, more, last, rest);
      NextOfLine("\n" + s, true, limit, more, last, rest);
      Concluded(s, false, limit, more, Step(Line(last), rest, true));
      Concluded("\n" + s, true, limit, more, Step(Line(last), rest, true));
    } else {
      var tail := "\n" + (Crlf(lines[1..]) + end);
      CrlfUnfold(lines, end);
      NextOfLine(s, false, limit, more, lines[0], tail);
      NextOfLine("\n" + s, true, limit, more, lines[0], tail);
      OnToTheNext(s, false, limit, more, Step(Line(lines[0]), tail, true));
      OnToTheNext("\n" + s, true, limit, more, Step(Line(lines[0]), tail, true));
      LastLineAnswers(lines[1..], last, rest, limit, more);
    }
  }

  lemma CrlfUnfold(lines: seq<string>, end: string)
    requires lines != []
    ensures Crlf(lines) + end == lines[0] + "\r" + ("\n" + (Crlf(lines[1..]) + end))
  {
  }

  /** The checks of one line. */
  method Judge(line: Reply) returns (v: Option<Answer>)
    ensures v == Verdict(line)
  {
    if !line.Line? && !line.Final? { return Some(NoLine(line)); }
    var text := line.text;
    if |text| < 3 { return Some(Malformed); }
    if !IsDigit(text[0]) || !IsDigit(text[1]) || !IsDigit(text[2]) { return Some(Malformed); }
    if |text| > 3 && text[3] != ' ' && text[3] != '-' { return Some(Malformed); }
    if !(|text| > 3 && text[3] == '-') { return Some(Answer(text)); }
    v := if line.Final? then Some(Unfinished) else None;
  }

  /** Behind a number of three digits a hyphen says that more follows, a blank that nothing does; another character, or a number of another form, is malformed. */
  lemma HyphenGoesOn(n: nat, c: char, text: string)
    requires 100 <= n < 1000
    ensures var line := Dec(n) + [c] + text;
            && (Verdict(Line(line)).None? <==> c == '-')
            && (Verdict(Line(line)) == Some(Answer(line)) <==> c == ' ')
            && (Verdict(Line(line)) == Some(Malformed) <==> c != ' ' && c != '-')
    ensures Verdict(Line(Dec(n))) == Some(Answer(Dec(n)))
  {
    ThreeDigits(n);
    var line := Dec(n) + [c] + text;
    assert line[0] == Dec(n)[0] && line[1] == Dec(n)[1] && line[2] == Dec(n)[2] && line[3] == c;
    assert Dec(n)[0] in Dec(n) && Dec(n)[1] in Dec(n) && Dec(n)[2] in Dec(n);
  }

  lemma ThreeDigits(n: nat)
    requires 100 <= n < 1000
    ensures |Dec(n)| == 3
  {
    assert |Dec(n / 10 / 10)| == 1;
    assert |Dec(n / 10)| == 2;
  }

  /** What stays in the reader when the reply is there. */
  ghost predicate Leaves(sn: Snet.Reader, step: MultiStep, later: seq<string>)
    reads sn, sn.rbuf, sn.sock
  {
    sn.Valid() && sn.rstate.FUZZY? == step.fuzzy && sn.Unread() == step.rest && sn.sock.later == later
  }

  /** One turn of the loop. */
  method OneLine(sn: Snet.Reader) returns (v: Option<Answer>)
    requires sn.Valid()
    modifies sn, sn.rbuf, sn.sock
    ensures var n := Next(old(sn.Unread()), old(sn.rstate).FUZZY?, Snet.Limit(sn.maxlen), old(sn.sock.later) != []);
            && v == Verdict(n.reply)
            && (v.None? || (!n.reply.Final? && !v.value.NoLine?) ==>
                 Leaves(sn, MultiStep(Malformed, n.rest, n.fuzzy, false), old(sn.sock.later)))
    ensures sn.rbuf == old(sn.rbuf) || fresh(sn.rbuf)
  {
    var line := sn.GetLine();
    v := Judge(line);
  }

  /** snet_getline_multi, without the logger. */
  method GetLineMulti(sn: Snet.Reader) returns (r: Answer)
    requires sn.Valid()
    modifies sn, sn.rbuf, sn.sock
    ensures var step := NextMulti(old(sn.Unread()), old(sn.rstate).FUZZY?, Snet.Limit(sn.maxlen), old(sn.sock.later) != []);
            r == step.answer && (!step.atEnd && !r.NoLine? ==> Leaves(sn, step, old(sn.sock.later)))
  {
    ghost var limit, more := Snet.Limit(sn.maxlen), sn.sock.later != [];
    ghost var goal := NextMulti(sn.Unread(), sn.rstate.FUZZY?, limit, more);
    while true
      invariant sn.Valid() && (sn.rbuf == old(sn.rbuf) || fresh(sn.rbuf)) && sn.sock.later == old(sn.sock.later)
      invariant goal == NextMulti(sn.Unread(), sn.rstate.FUZZY?, limit, more)
      decreases |sn.Unread()|
    {
      ghost var s, fuzzy := sn.Unread(), sn.rstate.FUZZY?;
      ghost var n := Next(s, fuzzy, limit, more);
      var v := OneLine(sn);
      if v.Some? {
        Concluded(s, fuzzy, limit, more, n);
        return v.value;
      }
      OnToTheNext(s, fuzzy, limit, more, n);
    }
  }
}
