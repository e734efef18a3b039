/**
 The ticket transfer: a decimal size line, that many raw characters, and a line with a dot.
 Sender as in net_login and retr_ticket, receiver as in f_login.
 */
module Ticket {
  import opened Text
  import opened Splitter
  import LineBuffer
  import Snet
  import Seqs

  const CHUNK := 8192

  datatype Outcome =
    | Stored(data: string)      // the dot came where it should
    | Mismatch                  // some other line came there
    | Dropped                   // the connection ended, or a line did not come
    | Refused                   // a read failed in the middle of the ticket; answered with 504

  function Wire(ticket: string): string
  {
    Dec(|ticket|) + "\r\n" + ticket + ".\r\n"
  }

  /** Reads the ticket file piece by piece, counting down what is left of its size. */
  method Send(file: string) returns (ok: bool, wire: string)
    ensures ok && wire == Wire(file)
  {
    var size: int := |file|;
    wire := Dec(|file|) + "\r\n";
    var at := 0;
    while at < |file|
      invariant at <= |file| && size == |file| - at
      invariant wire == Dec(|file|) + "\r\n" + file[..at]
    {
      var rr :| 0 < rr <= CHUNK && rr <= |file| - at;
      Seqs.Assoc(Dec(|file|) + "\r\n", file[..at], file[at..at + rr]);
      assert file[..at] + file[at..at + rr] == file[..at + rr];
      wire := wire + file[at..at + rr];
      size := size - rr;
      at := at + rr;
    }
    assert file[..at] == file;
    if size != 0 {
      return false, wire;
    }
    wire := wire + ".\r\n";
    ok := true;
  }

  /** An int printed by the peer and stored in an unsigned int. */
  function Unsigned(n: int): nat { n % 0x1_0000_0000 }

  /** What the receiver makes of the unread characters s, what it leaves, and whether an LF is to be swallowed. */
  function Got(s: string, fuzzy: bool, limit: nat, more: bool): (Outcome, string, bool)
  {
    var size := Next(s, fuzzy, limit, more);
    if !size.reply.Line? then (Dropped, size.rest, size.fuzzy)
    else GotBody(Unsigned(Atoi(size.reply.text)), size.rest, size.fuzzy, limit, more)
  }

  /** The same once the size n has been read. */
  function GotBody(n: nat, s: string, fuzzy: bool, limit: nat, more: bool): (Outcome, string, bool)
  {
    var u := if n == 0 then s else Skip(s, fuzzy);
    if |u| < n then (if more then Refused else Dropped, "", false)
    else
      var dot := Next(u[n..], n == 0 && fuzzy, limit, more);
      if !dot.reply.Line? && !dot.reply.Final? then (Dropped, dot.rest, dot.fuzzy)
      else (if dot.reply.text == "." then Stored(u[..n]) else Mismatch, dot.rest, dot.fuzzy)
  }

  /** The loop over snet_read: exactly n characters, or the reason why not. */
  method ReadExactly(sn: Snet.Reader, n: nat) returns (rc: int, data: string)
    requires sn.Valid()
    modifies sn`rcur, sn`rstate, sn`eof, sn.sock
    ensures sn.Valid()
    ensures var u := if n == 0 then old(sn.Unread()) else Skip(old(sn.Unread()), old(sn.rstate).FUZZY?);
            if |u| >= n then rc > 0 && data == u[..n] && sn.Unread() == u[n..] &&
                             sn.rstate.FUZZY? == (n == 0 && old(sn.rstate).FUZZY?) && sn.sock.later == old(sn.sock.later)
            else rc <= 0 && (rc < 0 <==> old(sn.sock.later) != [])
  {
    ghost var s, f := sn.Unread(), sn.rstate.FUZZY?;
    ghost var u := if n == 0 then s else Skip(s, f);
    var len := n;
    data := "";
    Seqs.Nil(u);
    while len > 0
      invariant sn.Valid() && sn.sock.later == old(sn.sock.later) && len >= 0 && |data| + len == n
      invariant if data == "" then sn.Unread() == s && sn.rstate.FUZZY? == f
                else !sn.rstate.FUZZY? && u == data + sn.Unread()
    {
      var piece;
      ghost var left := Skip(sn.Unread(), sn.rstate.FUZZY?);
      assert u == data + left;
      rc, piece := sn.Read(if len < CHUNK then len else CHUNK);
      if rc <= 0 {
        return;
      }
      Seqs.Assoc(data, piece, sn.Unread());
      data := data + piece;
      len := len - rc;
    }
    rc := 1;
    Seqs.TakeOfCat(data, sn.Unread());
    assert n == 0 ==> s[..0] == "" && s[0..] == s;
  }

  /** s is a ticket as it is sent, with anything behind it. */
  predicate IsSent(ticket: string, suffix: string, s: string) { |ticket| < 0x8000_0000 && s == Wire(ticket) + suffix }

  lemma SentIsGot(s: string, fuzzy: bool, limit: nat, more: bool)
    requires limit == 0 || limit >= Snet.SNET_BUFLEN
    ensures forall ticket, suffix :: IsSent(ticket, suffix, Skip(s, fuzzy)) ==> Got(s, fuzzy, limit, more).0 == Stored(ticket)
  {
    forall ticket, suffix | IsSent(ticket, suffix, Skip(s, fuzzy)) ensures Got(s, fuzzy, limit, more).0 == Stored(ticket) {
      RoundTrip(ticket, suffix, s, fuzzy, limit, more);
    }
  }

  /** The loop over the ticket and the line behind it, which is alone if it was read alone. */
  method ReceiveBody(sn: Snet.Reader, n: nat) returns (r: Outcome, ghost alone: Option<string>)
    requires sn.Valid()
    modifies sn, sn.rbuf, sn.sock
    ensures var got := GotBody(n, old(sn.Unread()), old(sn.rstate).FUZZY?, Snet.Limit(sn.maxlen), old(sn.sock.later) != []);
            r == got.0 && ((r.Stored? || r.Mismatch?) && sn.Valid() ==> sn.Unread() == got.1 && sn.rstate.FUZZY? == got.2)
    ensures sn.rbuf == old(sn.rbuf) || fresh(sn.rbuf)
    ensures alone.Some? ==>
            && (r.Stored? || r.Mismatch?) && (r.Stored? <==> alone.value == ".") && |alone.value| + 2 <= |old(sn.rbuf[..])|
            && sn.rbuf[..] == LineBuffer.Over(old(sn.rbuf[..]), LineBuffer.Ended(alone.value))
  {
    var rc, data := ReadExactly(sn, n);
    if rc < 0 {
      return Refused, None;
    } else if rc == 0 {
      return Dropped, None;
    }
    assert sn.rbuf[..] == old(sn.rbuf[..]);
    r, alone := ReceiveDot(sn, data);
  }

  /** The line behind the ticket. */
  method ReceiveDot(sn: Snet.Reader, data: string) returns (r: Outcome, ghost alone: Option<string>)
    requires sn.Valid()
    modifies sn, sn.rbuf, sn.sock
    ensures var dot := Next(old(sn.Unread()), old(sn.rstate).FUZZY?, Snet.Limit(sn.maxlen), old(sn.sock.later) != []);
            if !dot.reply.Line? && !dot.reply.Final? then r == Dropped
            else r == (if dot.reply.text == "." then Stored(data) else Mismatch) &&
                 (sn.Valid() ==> sn.Unread() == dot.rest && sn.rstate.FUZZY? == dot.fuzzy)
    ensures sn.rbuf == old(sn.rbuf) || fresh(sn.rbuf)
    ensures alone.Some? ==>
            && (r.Stored? || r.Mismatch?) && (r.Stored? <==> alone.value == ".") && |alone.value| + 2 <= |old(sn.rbuf[..])|
            && sn.rbuf[..] == LineBuffer.Over(old(sn.rbuf[..]), LineBuffer.Ended(alone.value))
  {
    alone := None;
    var line := LineBuffer.GetLineOver(sn);
    if !line.Line? && !line.Final? {
      return Dropped, None;
    }
    r := if line.text == "." then Stored(data) else Mismatch;
    if line.Line? && sn.rbuf == old(sn.rbuf) && LineBuffer.Alone(sn, line.text) {
      alone := Some(line.text);
    }
  }

  /** The size, the ticket and the dot. */
  method ReceiveAll(sn: Snet.Reader) returns (r: Outcome, ghost over: Option<(string, string)>)
    requires sn.Valid()
    modifies sn, sn.rbuf, sn.sock
    ensures var got := Got(old(sn.Unread()), old(sn.rstate).FUZZY?, Snet.Limit(sn.maxlen), old(sn.sock.later) != []);
            r == got.0 && ((r.Stored? || r.Mismatch?) && sn.Valid() ==> sn.Unread() == got.1 && sn.rstate.FUZZY? == got.2)
    ensures over.Some? ==> (r.Stored? || r.Mismatch?) && (r.Stored? <==> over.value.1 == ".") && ComeOver(old(sn.rbuf[..]), over.value, sn.rbuf[..])
  {
    over := None;
    var sizebuf := LineBuffer.GetLineOver(sn);
    if !sizebuf.Line? {
      return Dropped, None;
    }
    ghost var first := sn.rbuf == old(sn.rbuf) && LineBuffer.Alone(sn, sizebuf.text);
    ghost var alone;
    r, alone := ReceiveBody(sn, Unsigned(Atoi(sizebuf.text)));
    if first && alone.Some? {
      over := Some((sizebuf.text, alone.value));
    }
  }

  /** Size and last line have come over what stood in the buffer. */
  ghost predicate ComeOver(was: string, over: (string, string), mem: string) {
    |over.0| + 2 <= |was| && |over.1| + 2 <= |was| && mem == LineBuffer.AfterLines(was, over.0, over.1)
  }

  /**
   The receiving end in f_login, after the 300 answer: a ticket that was sent is stored, however the
   network cuts it. over is the size and the last line if each was read alone: then they are what
   has come over the words that stand in the buffer.
   */
  method Receive(sn: Snet.Reader) returns (r: Outcome, ghost over: Option<(string, string)>)
    requires sn.Valid()
    modifies sn, sn.rbuf, sn.sock
    ensures var got := Got(old(sn.Unread()), old(sn.rstate).FUZZY?, Snet.Limit(sn.maxlen), old(sn.sock.later) != []);
            r == got.0 && ((r.Stored? || r.Mismatch?) && sn.Valid() ==> sn.Unread() == got.1 && sn.rstate.FUZZY? == got.2)
    ensures forall ticket, suffix :: IsSent(ticket, suffix, Skip(old(sn.Unread()), old(sn.rstate).FUZZY?)) ==> r == Stored(ticket)
    ensures over.Some? ==> (r.Stored? || r.Mismatch?) && (r.Stored? <==> over.value.1 == ".") && ComeOver(old(sn.rbuf[..]), over.value, sn.rbuf[..])
  {
    SentIsGot(sn.Unread(), sn.rstate.FUZZY?, Snet.Limit(sn.maxlen), sn.sock.later != []);
    r, over := ReceiveAll(sn);
  }

  lemma DecIsPlain(n: nat)
    ensures Plain(Dec(n))
  {
    forall i | 0 <= i < |Dec(n)| ensures !Ends(Dec(n)[i]) {
      assert Dec(n)[i] in Dec(n);
    }
  }

  lemma TenDigits(n: nat)
    requires n < 0x8000_0000
    ensures |Dec(n)| <= 10
  {
    assert Pow10(5) == 100_000;
    assert Pow10(10) == 100_000 * Pow10(5);
    DecLength(n, 10);
  }

  /** The size line comes back as the number that was printed. */
  lemma SizeLine(n: nat, rest: string, s: string, fuzzy: bool, limit: nat, more: bool)
    requires n < 0x8000_0000 && (limit == 0 || limit >= Snet.SNET_BUFLEN)
    requires Skip(s, fuzzy) == Dec(n) + "\r\n" + rest
    ensures Next(s, fuzzy, limit, more) == Step(Line(Dec(n)), "\n" + rest, true)
    ensures Unsigned(Atoi(Dec(n))) == n
  {
    DecIsPlain(n);
    TenDigits(n);
    CrLf(Dec(n), rest);
    NextOfLine(s, fuzzy, limit, more, Dec(n), "\n" + rest);
    AtoiOfDec(n, "");
    Seqs.Nil(Dec(n));
  }

  lemma CrLf(line: string, rest: string)
    ensures line + "\r\n" + rest == line + "\r" + ("\n" + rest)
  {
  }

  /**
   Whatever the ticket holds, and however the network cuts the stream, the receiver stores
   exactly the characters sent and leaves the stream behind the dot line.
   */
  lemma RoundTrip(ticket: string, suffix: string, s: string, fuzzy: bool, limit: nat, more: bool)
    requires |ticket| < 0x8000_0000 && (limit == 0 || limit >= Snet.SNET_BUFLEN)
    requires Skip(s, fuzzy) == Wire(ticket) + suffix
    ensures Got(s, fuzzy, limit, more) == (Stored(ticket), "\n" + suffix, true)
  {
    var dot := ".\r\n" + suffix;
    WireParts(ticket, suffix);
    SizeLine(|ticket|, ticket + dot, s, fuzzy, limit, more);
    BodyRoundTrip(ticket, suffix, limit, more);
  }

  lemma BodyRoundTrip(ticket: string, suffix: string, limit: nat, more: bool)
    requires limit == 0 || limit >= Snet.SNET_BUFLEN
    ensures GotBody(|ticket|, "\n" + (ticket + (".\r\n" + suffix)), true, limit, more) ==
            (Stored(ticket), "\n" + suffix, true)
  {
    var dot := ".\r\n" + suffix;
    DotLine(suffix, limit, more);
    AfterSize(ticket, dot);
    if ticket == "" {
      EmptyBody(suffix, limit, more);
    }
  }

  lemma EmptyBody(suffix: string, limit: nat, more: bool)
    requires limit == 0 || limit >= Snet.SNET_BUFLEN
    ensures GotBody(0, "\n" + ("" + (".\r\n" + suffix)), true, limit, more) == (Stored(""), "\n" + suffix, true)
  {
    var u := "\n" + (".\r\n" + suffix);
    DotLine(suffix, limit, more);
    Seqs.Nil(".\r\n" + suffix);
    assert u[0..] == u && u[..0] == "";
  }

  lemma WireParts(ticket: string, suffix: string)
    ensures Wire(ticket) + suffix == Dec(|ticket|) + "\r\n" + (ticket + (".\r\n" + suffix))
  {
    var head := Dec(|ticket|) + "\r\n";
    Seqs.Assoc(head + ticket, ".\r\n", suffix);
    Seqs.Assoc(head, ticket, ".\r\n" + suffix);
  }

  lemma AfterSize(ticket: string, dot: string)
    ensures Skip("\n" + (ticket + dot), true) == ticket + dot
    ensures (ticket + dot)[..|ticket|] == ticket && (ticket + dot)[|ticket|..] == dot
  {
  }

  lemma DotLine(suffix: string, limit: nat, more: bool)
    requires limit == 0 || limit >= Snet.SNET_BUFLEN
    ensures Next(".\r\n" + suffix, false, limit, more) == Step(Line("."), "\n" + suffix, true)
    ensures Next("\n" + (".\r\n" + suffix), true, limit, more) == Step(Line("."), "\n" + suffix, true)
  {
    var dot := ".\r\n" + suffix;
    CrLf(".", suffix);
    SkipLf(dot);
    NextOfLine(dot, false, limit, more, ".", "\n" + suffix);
    NextOfLine("\n" + dot, true, limit, more, ".", "\n" + suffix);
  }

  lemma EndLine(w: string, suffix: string, limit: nat, more: bool)
    requires Plain(w) && (limit == 0 || |w| < limit)
    ensures Next(w + "\r\n" + suffix, false, limit, more) == Step(Line(w), "\n" + suffix, true)
    ensures Next("\n" + (w + "\r\n" + suffix), true, limit, more) == Step(Line(w), "\n" + suffix, true)
  {
    CrLf(w, suffix);
    SkipLf(w + "\r\n" + suffix);
    NextOfLine(w + "\r\n" + suffix, false, limit, more, w, "\n" + suffix);
    NextOfLine("\n" + (w + "\r\n" + suffix), true, limit, more, w, "\n" + suffix);
  }

  lemma BodyThenLine(ticket: string, w: string, end: string, rest: string, limit: nat, more: bool)
    requires Next(end, false, limit, more) == Step(Line(w), rest, true)
    requires Next("\n" + end, true, limit, more) == Step(Line(w), rest, true)
    ensures GotBody(|ticket|, "\n" + (ticket + end), true, limit, more) == (if w == "." then Stored(ticket) else Mismatch, rest, true)
  {
    AfterSize(ticket, end);
    if ticket == "" {
      Seqs.Nil(end);
      NothingFirst("\n" + end);
    }
  }

  lemma NothingFirst(u: string)
    ensures u[0..] == u && u[..0] == ""
  {
  }

  /** Whatever line comes behind the ticket: it is stored if that is the dot, and a mismatch otherwise. */
  lemma LineBehind(ticket: string, w: string, suffix: string, s: string, fuzzy: bool, limit: nat, more: bool)
    requires |ticket| < 0x8000_0000 && (limit == 0 || limit >= Snet.SNET_BUFLEN) && Plain(w) && (limit == 0 || |w| < limit)
    requires Skip(s, fuzzy) == Dec(|ticket|) + "\r\n" + (ticket + (w + "\r\n" + suffix))
    ensures Got(s, fuzzy, limit, more) == (if w == "." then Stored(ticket) else Mismatch, "\n" + suffix, true)
  {
    var end := w + "\r\n" + suffix;
    SizeLine(|ticket|, ticket + end, s, fuzzy, limit, more);
    EndLine(w, suffix, limit, more);
    BodyThenLine(ticket, w, end, "\n" + suffix, limit, more);
  }

  /** A negative size asks for more than two thousand million characters. */
  lemma NegativeSize(n: int)
    requires -0x8000_0000 <= n < 0
    ensures Unsigned(n) == n + 0x1_0000_0000 >= 0x8000_0000
  {
  }

  /** A ticket of which only a part arrives: with a failed read behind it, it is refused and not taken for a lost connection. */
  lemma CutShort(n: nat, part: string, s: string, fuzzy: bool, limit: nat, more: bool)
    requires |part| < n < 0x8000_0000 && (limit == 0 || limit >= Snet.SNET_BUFLEN)
    requires Skip(s, fuzzy) == Dec(n) + "\r\n" + part
    ensures Got(s, fuzzy, limit, more).0 == if more then Refused else Dropped
  {
    SizeLine(n, part, s, fuzzy, limit, more);
    SkipLf(part);
  }
}
