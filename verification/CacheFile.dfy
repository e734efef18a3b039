/** The text of a cache file: what cosign_cookie_valid prints, and read_scookie on top of the line reader. */
module CacheFile {
  import opened Text
  import opened Splitter
  import C = FilterCache
  import Commands
  import Snet
  import Seqs

  const BLANK := C.Info(0, "", "", "", "")

  /** What read_scookie makes of one line; the ticket path has no place in Info. */
  function Field(si: C.Info, line: string): Option<C.Info>
  {
    if line == "" then None
    else
      var p := line[1..];
      match line[0]
      case 'v' => Some(si.(proto := if Atoi(p) == 2 then 2 else 0))
      case 'i' => Some(si.(ip := p))
      case 'p' => Some(si.(user := p))
      case 'r' => Some(si.(realm := p))
      case 'f' => Some(si.(factors := p))
      case 'k' => Some(si)
      case _ => None
  }

  function Fields(si: C.Info, lines: seq<string>): Option<C.Info>
    decreases |lines|
  {
    if lines == [] then Some(si)
    else match Field(si, lines[0])
      case None => None
      case Some(next) => Fields(next, lines[1..])
  }

  /** Nothing, or text whose last line has its newline. */
  predicate Closed(s: string) { s == "" || s[|s| - 1] == '\n' }

  /** In such a text a line is followed by such a text. */
  lemma ClosedEol(t: string)
    requires Closed(t) && t != ""
    ensures Eol(t) < |t| && Closed(t[Eol(t) + 1..])
  {
    EolSpec(t);
    assert Eol(t) == |t| ==> t[..Eol(t)] == t;
  }

  lemma ClosedLine(s: string, fuzzy: bool)
    requires Closed(s)
    ensures var n := Next(s, fuzzy, 0, false);
            if n.reply.Line? then Closed(n.rest) && |n.rest| < |s| && AllLines(s, fuzzy) == [n.reply.text] + AllLines(n.rest, n.fuzzy)
            else n.reply.End? && AllLines(s, fuzzy) == []
  {
    var t := Skip(s, fuzzy);
    if t == "" {
      CallsStop(s, fuzzy, 0, t, Eol(t));
    } else {
      ClosedEol(t);
      CallsLine(s, fuzzy, 0, t, Eol(t));
    }
  }

  /** The switch over the first character of a line. */
  method OneField(si: C.Info, line: string) returns (next: Option<C.Info>)
    ensures next == Field(si, line)
    ensures forall more :: Fields(si, [line] + more) == if next.None? then None else Fields(next.value, more)
  {
    if line == "" { return None; }
    var p := line[1..];
    match line[0] {
      case 'v' => next := Some(si.(proto := if Atoi(p) == 2 then 2 else 0));
      case 'i' => next := Some(si.(ip := p));
      case 'p' => next := Some(si.(user := p));
      case 'r' => next := Some(si.(realm := p));
      case 'f' => next := Some(si.(factors := p));
      case 'k' => next := Some(si);
      case _ => next := None;
    }
    forall more ensures Fields(si, [line] + more) == if next.None? then None else Fields(next.value, more) {
      assert ([line] + more)[1..] == more;
    }
  }

  /** read_scookie, on a file that can be read. */
  method ReadScookie(sn: Snet.Reader) returns (r: Option<C.Info>)
    requires sn.Valid() && sn.maxlen == 0 && sn.sock.later == [] && Closed(sn.Unread())
    modifies sn, sn.rbuf, sn.sock
    ensures r == Fields(BLANK, AllLines(old(sn.Unread()), old(sn.rstate).FUZZY?))
  {
    var si := BLANK;
    ghost var goal := Fields(BLANK, AllLines(sn.Unread(), sn.rstate.FUZZY?));
    while true
      invariant sn.Valid() && (sn.rbuf == old(sn.rbuf) || fresh(sn.rbuf)) && sn.sock.later == []
      invariant Closed(sn.Unread()) && goal == Fields(si, AllLines(sn.Unread(), sn.rstate.FUZZY?))
      decreases |sn.Unread()|
    {
      ClosedLine(sn.Unread(), sn.rstate.FUZZY?);
      var reply := sn.GetLine();
      if !reply.Line? {
        return Some(si);
      }
      var next := OneField(si, reply.text);
      if next.None? { return None; }
      si := next.value;
    }
  }

  // ---------------------------------------------------------------- round trip

  function Printed(si: C.Info): seq<string>
    requires si.proto >= 0
  {
    ["v" + Dec(si.proto), "i" + si.ip, "p" + si.user, "r" + si.realm] +
    (if Commands.SupportsFactors(si.proto) then ["f" + si.factors] else [])
  }

  function Terminated(lines: seq<string>): string
  {
    if lines == [] then "" else lines[0] + "\n" + Terminated(lines[1..])
  }

  lemma {:induction false} LinesOfTerminated(lines: seq<string>)
    requires forall i :: 0 <= i < |lines| ==> Plain(lines[i])
    ensures Closed(Terminated(lines)) && AllLines(Terminated(lines), false) == lines
  {
    if lines != [] {
      var l, rest := lines[0], Terminated(lines[1..]);
      var s := l + "\n" + rest;
      LinesOfTerminated(lines[1..]);
      assert s[..|l|] == l && s[|l| + 1..] == rest && s[|l|] == '\n';
      EolIs(s, |l|);
      CallsLine(s, false, 0, s, |l|);
      Seqs.Cons(lines);
    }
  }

  /** One more line in front. */
  lemma Onward(si: C.Info, line: string, next: C.Info, more: seq<string>)
    requires Field(si, line) == Some(next)
    ensures Fields(si, [line] + more) == Fields(next, more)
  {
    Seqs.TailOfCat([line], more);
  }

  lemma VersionLine(si: C.Info, p: string)
    ensures Field(si, "v" + p) == Some(si.(proto := if Atoi(p) == 2 then 2 else 0))
  {
    assert ("v" + p)[1..] == p;
  }

  lemma KeyedLine(si: C.Info, p: string)
    ensures Field(si, "i" + p) == Some(si.(ip := p))
    ensures Field(si, "p" + p) == Some(si.(user := p))
    ensures Field(si, "r" + p) == Some(si.(realm := p))
    ensures Field(si, "f" + p) == Some(si.(factors := p))
  {
    assert ("i" + p)[1..] == p && ("p" + p)[1..] == p && ("r" + p)[1..] == p && ("f" + p)[1..] == p;
  }

  /** The lines behind the version. */
  lemma FieldsRead(v: int, si: C.Info, last: seq<string>)
    requires last == [] || last == ["f" + si.factors]
    ensures Fields(C.Info(v, "", "", "", ""), ["i" + si.ip] + (["p" + si.user] + (["r" + si.realm] + last))) ==
            Some(C.Info(v, si.ip, si.user, si.realm, if last == [] then "" else si.factors))
  {
    var s1, s2 := C.Info(v, si.ip, "", "", ""), C.Info(v, si.ip, si.user, "", "");
    var s3 := C.Info(v, si.ip, si.user, si.realm, "");
    KeyedLine(C.Info(v, "", "", "", ""), si.ip);
    KeyedLine(s1, si.user);
    KeyedLine(s2, si.realm);
    KeyedLine(s3, si.factors);
    Onward(C.Info(v, "", "", "", ""), "i" + si.ip, s1, ["p" + si.user] + (["r" + si.realm] + last));
    Onward(s1, "p" + si.user, s2, ["r" + si.realm] + last);
    Onward(s2, "r" + si.realm, s3, last);
    if last != [] {
      Seqs.Nil(last);
      Onward(s3, last[0], s3.(factors := si.factors), []);
    }
  }

  lemma PrintedParts(si: C.Info, last: seq<string>)
    requires si.proto >= 0
    requires last == if Commands.SupportsFactors(si.proto) then ["f" + si.factors] else []
    ensures Printed(si) == ["v" + Dec(si.proto)] + (["i" + si.ip] + (["p" + si.user] + (["r" + si.realm] + last)))
  {
  }

  /**
   A cache file is read as the answer that was stored, except for two things: every version but
   2 comes back as 0, and factors are kept for protocols that have them only.
   */
  lemma CacheRoundTrip(si: C.Info, mtime: int)
    requires si.proto >= 0 && Plain(si.ip) && Plain(si.user) && Plain(si.realm) && Plain(si.factors)
    ensures Closed(Terminated(Printed(si)))
    ensures Fields(BLANK, AllLines(Terminated(Printed(si)), false)) == Some(C.ReadBack(C.Entry(C.Written(si), mtime)))
  {
    DecIsPlain(si.proto);
    LinesOfTerminated(Printed(si));
    AtoiOfDec(si.proto, "");
    Seqs.Nil(Dec(si.proto));
    var v := if si.proto == 2 then 2 else 0;
    var last := if Commands.SupportsFactors(si.proto) then ["f" + si.factors] else [];
    PrintedParts(si, last);
    VersionLine(BLANK, Dec(si.proto));
    FieldsRead(v, si, last);
    Onward(BLANK, "v" + Dec(si.proto), C.Info(v, "", "", "", ""), ["i" + si.ip] + (["p" + si.user] + (["r" + si.realm] + last)));
  }

  lemma DecIsPlain(n: nat)
    ensures Plain("v" + Dec(n))
  {
    forall i | 0 <= i < |"v" + Dec(n)| ensures !Ends(("v" + Dec(n))[i]) {
      if i > 0 { assert Dec(n)[i - 1] in Dec(n); }
    }
  }
}
