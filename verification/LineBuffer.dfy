/**
 The words of a command stand in the buffer of the line reader, and the lines of a ticket are
 read over them: what the place of a word says afterwards, and which file a name there finds.
 */
module LineBuffer {
  import opened Text
  import ArgcArgv
  import MkCookie
  import Seqs
  import Snet
  import Splitter

  /** The C string at an offset. */
  function CString(mem: string, at: nat): string
    requires at <= |mem|
  {
    mem[at..][..IndexOf(mem[at..], '\0')]
  }

  lemma WordRead(mem: string, at: nat, w: string)
    requires ArgcArgv.WordAt(mem, at, w) && '\0' !in w
    ensures CString(mem, at) == w
  {
    var rest := mem[at + |w| + 1..];
    assert mem[at..] == w + ['\0'] + rest;
    IndexOfAt(w, '\0', rest);
  }

  /** What a read into the empty buffer puts at its front, the pull-up having moved both ends there. */
  function Over(mem: string, text: string): string
    requires |text| <= |mem|
  {
    text + mem[|text|..]
  }

  /** A line that has come in one piece, its CR made a NUL: with TLS each line is a record of its own, and read alone. */
  function Ended(line: string): string { line + ['\0', '\n'] }

  /** The buffer when the size line and the line behind the ticket have been read; the ticket itself is read past it. */
  function AfterLines(mem: string, size: string, line: string): string
    requires |size| + 2 <= |mem| && |line| + 2 <= |mem|
  {
    Over(Over(mem, Ended(size)), Ended(line))
  }

  /** The reader holds just that line, which it has handed out, and the LF behind it, at the front of the buffer. */
  ghost predicate Alone(sn: Snet.Reader, line: string)
    reads sn, sn.rbuf
  {
    && sn.rcur == |line| + 1 && sn.rend == |line| + 2 <= sn.rbuf.Length
    && sn.rbuf[sn.rcur] == '\n' && sn.Stands(line)
  }

  lemma AloneIsOver(sn: Snet.Reader, line: string)
    requires sn.Behind() && sn.rbuf == sn.place && sn.high <= sn.rend && Alone(sn, line)
    ensures |line| + 2 <= |sn.before| && sn.rbuf[..] == Over(sn.before, Ended(line))
  {
    var m := Over(sn.before, Ended(line));
    Snet.TailsAgree(sn.rbuf[..], sn.before, sn.high, sn.rend);
    forall k | 0 <= k < |m| ensures sn.rbuf[k] == m[k] {
      if k < |line| {
        assert sn.rbuf[0..|line|][k] == line[k];
      } else if k >= sn.rend {
        assert sn.rbuf[..][sn.rend..][k - sn.rend] == sn.before[sn.rend..][k - sn.rend];
      }
    }
  }

  /** Every word that begins at the mark or behind it is still there. */
  ghost predicate WordsStay(was: string, now: string, mark: nat) {
    forall at: nat, w :: mark <= at && ArgcArgv.WordAt(was, at, w) ==> ArgcArgv.WordAt(now, at, w)
  }

  lemma WordsBehind(was: string, now: string, mark: nat)
    requires mark <= |was| == |now| && now[mark..] == was[mark..]
    ensures WordsStay(was, now, mark)
  {
    forall at: nat, w | mark <= at && ArgcArgv.WordAt(was, at, w) ensures ArgcArgv.WordAt(now, at, w) {
      var n := at - mark;
      assert now[at..at + |w|] == now[mark..][n..n + |w|] && was[at..at + |w|] == was[mark..][n..n + |w|];
      assert now[at + |w|] == now[mark..][n + |w|] && was[at + |w|] == was[mark..][n + |w|];
    }
  }

  /** snet_getline over words that are still needed: a word behind all that is in the buffer when the line is handed out stays, and a line that comes alone does to the buffer just that. */
  method GetLineOver(sn: Snet.Reader) returns (r: Splitter.Reply)
    requires sn.Valid()
    modifies sn, sn.rbuf, sn.sock
    ensures var step := Splitter.Next(old(sn.Unread()), old(sn.rstate).FUZZY?, Snet.Limit(sn.maxlen), old(sn.sock.later) != []);
            r == step.reply && (!r.Final? ==> sn.Valid() && sn.rstate.FUZZY? == step.fuzzy && sn.PeerAfter(r, step.rest, old(sn.sock.later)))
    ensures r.Final? ==> !sn.Valid() && sn.rcur == sn.rend + 1 && sn.sock.now == "" && sn.sock.later == []
    ensures sn.rbuf == old(sn.rbuf) || fresh(sn.rbuf)
    ensures r.Line? && sn.rbuf == old(sn.rbuf) ==> WordsStay(old(sn.rbuf[..]), sn.rbuf[..], sn.rend)
    ensures r.Line? && sn.rbuf == old(sn.rbuf) && Alone(sn, r.text) ==> |r.text| + 2 <= sn.rbuf.Length && sn.rbuf[..] == Over(old(sn.rbuf[..]), Ended(r.text))
  {
    sn.Note();
    r := sn.GetLine();
    if r.Line? && sn.rbuf == sn.place {
      Snet.TailsAgree(sn.rbuf[..], sn.before, sn.high, sn.rend);
      WordsBehind(sn.before, sn.rbuf[..], sn.rend);
      if Alone(sn, r.text) {
        AloneIsOver(sn, r.text);
      }
    }
  }

  /** A word behind what is read stays. */
  lemma WordKept(mem: string, at: nat, w: string, text: string)
    requires ArgcArgv.WordAt(mem, at, w) && |text| <= at
    ensures |text| <= |mem| && ArgcArgv.WordAt(Over(mem, text), at, w)
  {
    var m := Over(mem, text);
    assert m[at..at + |w|] == mem[at..at + |w|];
  }

  /** A line that reaches the place of the word leaves its own rest there. */
  lemma WordReplaced(mem: string, at: nat, line: string)
    requires |line| + 2 <= |mem| && at <= |line| && '\0' !in line
    ensures CString(Over(mem, Ended(line)), at) == line[at..]
  {
    var m := Over(mem, Ended(line));
    assert m[at..|line|] == line[at..];
    WordRead(m, at, line[at..]);
  }

  /** A line that ends right in front of it leaves its LF there. */
  lemma WordBroken(mem: string, at: nat, line: string)
    requires |line| + 2 <= |mem| && at == |line| + 1
    ensures CString(Over(mem, Ended(line)), at) != "" && CString(Over(mem, Ended(line)), at)[0] == '\n'
  {
    var m := Over(mem, Ended(line));
    assert m[at] == '\n' && m[at..][0] == '\n';
  }

  /** The text that stands at the offset after one line. */
  ghost predicate Says(mem: string, at: nat, line: string, want: string)
    requires |line| + 2 <= |mem| && at <= |mem|
  {
    CString(Over(mem, Ended(line)), at) == want
  }

  lemma OneLineIff(mem: string, at: nat, line: string, want: string)
    requires |line| + 2 <= |mem| && at < |mem| && '\0' !in line && want != "" && want[0] != '\n'
    requires |line| + 1 < at ==> exists w :: ArgcArgv.WordAt(mem, at, w) && '\0' !in w
    ensures Says(mem, at, line, want) <==> if |line| >= at then line[at..] == want else |line| + 1 < at && CString(mem, at) == want
  {
    if |line| >= at {
      WordReplaced(mem, at, line);
    } else if |line| + 1 == at {
      WordBroken(mem, at, line);
    } else {
      var w :| ArgcArgv.WordAt(mem, at, w) && '\0' !in w;
      WordKept(mem, at, w, Ended(line));
      WordRead(mem, at, w);
      WordRead(Over(mem, Ended(line)), at, w);
    }
  }

  /** Whatever stands there is a C string as long as there is a NUL behind it. */
  lemma SomeWord(mem: string, at: nat, k: nat)
    requires at <= k < |mem| && mem[k] == '\0'
    ensures exists w :: ArgcArgv.WordAt(mem, at, w) && '\0' !in w
  {
    var n := IndexOf(mem[at..], '\0');
    IndexOfSpec(mem[at..], '\0');
    IndexOfIn(mem[at..], k - at);
    var w := mem[at..][..n];
    assert w == mem[at..at + n] && mem[at..][n] == mem[at + n];
    assert ArgcArgv.WordAt(mem, at, w);
  }

  /**
   What the place of a word says after both lines: the text is there exactly if the last line that
   reached the place has brought it, or it was there and both lines end two characters before it.
   */
  lemma StandsIff(mem: string, at: nat, name: string, size: string, line: string, want: string)
    requires ArgcArgv.WordAt(mem, at, name) && '\0' !in name && '\0' !in size && '\0' !in line && name != ""
    requires |size| + 2 <= |mem| && |line| + 2 <= |mem| && want != "" && want[0] != '\n'
    ensures CString(AfterLines(mem, size, line), at) == want <==>
            if |line| >= at then line[at..] == want
            else |line| + 1 < at && if |size| >= at then size[at..] == want else |size| + 1 < at && name == want
  {
    var m := Over(mem, Ended(size));
    OneLineIff(mem, at, size, want);
    WordRead(mem, at, name);
    if |line| + 1 < at {
      SomeWord(m, at, if |size| >= at then |size| else at + |name|);
    }
    OneLineIff(m, at, line, want);
  }

  // ---------------------------------------------------------------- the name that is unlinked

  /** The path of a cookie's file, as mkcookiepath makes it. */
  function PathText(hashlen: int, cookie: string): string
    requires MkCookie.PathOk(hashlen, cookie)
  {
    (if hashlen == 0 then "" else MkCookie.HashDir(hashlen, cookie) + "/") + cookie
  }

  lemma PathTextIs(hashlen: int, cookie: string, len: int)
    requires MkCookie.PathOk(hashlen, cookie)
    ensures MkCookie.Path(None, hashlen, cookie, len) == if |PathText(hashlen, cookie)| < len then Some(PathText(hashlen, cookie)) else None
  {
    Seqs.Nil(if hashlen == 0 then "" else MkCookie.HashDir(hashlen, cookie) + "/");
  }

  /** The cookie whose file is found under the name: the name is its path. */
  function Gone(hashlen: int, name: string): Option<string>
  {
    var n := if hashlen <= 0 then 0 else hashlen + 1;
    if n <= |name| && MkCookie.PathOk(hashlen, name[n..]) && name == PathText(hashlen, name[n..]) then Some(name[n..]) else None
  }

  lemma GoneIff(hashlen: int, name: string, cookie: string)
    requires MkCookie.PathOk(hashlen, cookie)
    ensures Gone(hashlen, name) == Some(cookie) <==> name == PathText(hashlen, cookie)
  {
    var path := PathText(hashlen, cookie);
    var n := if hashlen == 0 then 0 else hashlen + 1;
    assert path[n..] == cookie;
  }

  /** The bare name of a cookie is its path without hashing only. */
  lemma BareName(hashlen: int, cookie: string)
    requires MkCookie.PathOk(hashlen, cookie)
    ensures cookie == PathText(hashlen, cookie) <==> hashlen == 0
  {
    if hashlen > 0 {
      assert PathText(hashlen, cookie)[hashlen] == '/';
    }
  }

  /**
   The record of the LOGIN itself is found exactly if its path comes in behind the characters in
   front of the word; or, without hashing, if both lines are too short to reach the word.
   */
  lemma OwnFileIff(hashlen: int, mem: string, at: nat, cookie: string, size: string, line: string)
    requires ArgcArgv.WordAt(mem, at, cookie) && MkCookie.PathOk(hashlen, cookie) && '\0' !in cookie && '\n' !in cookie
    requires '\0' !in size && '\0' !in line && |size| + 2 <= |mem| && |line| + 2 <= |mem|
    ensures var path := PathText(hashlen, cookie);
            Gone(hashlen, CString(AfterLines(mem, size, line), at)) == Some(cookie) <==>
            if |line| >= at then line[at..] == path
            else |line| + 1 < at && if |size| >= at then size[at..] == path else |size| + 1 < at && hashlen == 0
  {
    var path := PathText(hashlen, cookie);
    GoneIff(hashlen, CString(AfterLines(mem, size, line), at), cookie);
    BareName(hashlen, cookie);
    assert path[0] in cookie;
    StandsIff(mem, at, cookie, size, line, path);
  }

  /** Whoever sends the line can name another file: the path of any cookie behind as many characters as stand in front of the word. */
  lemma OtherFile(hashlen: int, mem: string, at: nat, size: string, front: string, other: string)
    requires MkCookie.PathOk(hashlen, other) && '\0' !in other && '\0' !in front && |front| == at
    requires |size| + 2 <= |mem| && |front + PathText(hashlen, other)| + 2 <= |mem|
    ensures Gone(hashlen, CString(AfterLines(mem, size, front + PathText(hashlen, other)), at)) == Some(other)
  {
    var line := front + PathText(hashlen, other);
    WordReplaced(Over(mem, Ended(size)), at, line);
    Behind(front, PathText(hashlen, other));
    GoneIff(hashlen, PathText(hashlen, other), other);
  }

  lemma Behind(a: string, b: string)
    ensures (a + b)[|a|..] == b
  {
  }

  // ---------------------------------------------------------------- the words that are pushed

  /** The digits of a size do not make a cookie. */
  lemma DigitsAreNoCookie(hashlen: int, n: nat, at: nat, cookie: string)
    requires MkCookie.PathOk(hashlen, cookie) && at <= |Dec(n)|
    ensures Dec(n)[at..] != cookie
  {
    IndexOfSpec(cookie, '=');
    assert '=' in cookie;
    assert forall c :: c in Dec(n)[at..] ==> c in Dec(n);
    assert '=' !in Dec(n)[at..];
  }

  /** Four digits are those of the numbers below ten thousand. */
  lemma FourDigits(n: nat)
    ensures |Dec(n)| <= 4 <==> n < 10_000
  {
    assert Pow10(4) == 10_000;
    if n < 10_000 {
      DecLength(n, 4);
    } else {
      DecGrows(n, 4);
    }
  }

  lemma {:induction false} DecGrows(n: nat, k: nat)
    requires n >= Pow10(k)
    ensures |Dec(n)| > k
    decreases k
  {
    if k > 0 {
      DecGrows(n / 10, k - 1);
    }
  }

  /** After a ticket that was stored, the cookie still stands at its place exactly if the size had no more than four digits; and then every word does. */
  lemma CookieStandsIff(hashlen: int, mem: string, cookie: string, n: nat)
    requires ArgcArgv.WordAt(mem, 6, cookie) && MkCookie.PathOk(hashlen, cookie) && '\0' !in cookie && '\n' !in cookie
    requires |Dec(n)| + 2 <= |mem|
    ensures CString(AfterLines(mem, Dec(n), "."), 6) == cookie <==> n < 10_000
  {
    FourDigits(n);
    if |Dec(n)| >= 6 { DigitsAreNoCookie(hashlen, n, 6, cookie); }
    StandsIff(mem, 6, cookie, Dec(n), ".", cookie);
  }

  lemma WordsStand(mem: string, at: nat, w: string, n: nat)
    requires ArgcArgv.WordAt(mem, at, w) && '\0' !in w && 6 <= at && n < 10_000
    ensures |Dec(n)| + 2 <= |mem| && CString(AfterLines(mem, Dec(n), "."), at) == w
  {
    FourDigits(n);
    WordKept(mem, at, w, Ended(Dec(n)));
    WordKept(Over(mem, Ended(Dec(n))), at, w, Ended("."));
    WordRead(AfterLines(mem, Dec(n), "."), at, w);
  }
}
