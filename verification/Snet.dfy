/**
 The buffered reader of libsnet: one growable buffer with pull-up and expansion, shared by
 line reads and raw reads. The socket below gives any non-empty piece of what has arrived,
 so a contract that speaks only of the unread characters holds for every way of cutting them.
 */
module Snet {
  import opened Splitter
  import Seqs

  const SNET_BUFLEN := 4096

  /**
   The peer: the characters up to the next read that fails, and those behind each failing read.
   When both are used up the peer has closed.
   */
  class Socket {
    var now: string
    var later: seq<string>

    constructor (now: string, later: seq<string>)
      ensures this.now == now && this.later == later
    {
      this.now, this.later := now, later;
    }

    /** read(2) or SSL_read: -1 on failure, 0 at the end of the stream, else any 1..len characters. */
    method Read(len: nat) returns (rc: int, data: string)
      modifies this
      ensures rc > 0 ==> rc == |data| <= len && old(now) == data + now && later == old(later)
      ensures rc == 0 ==> (len == 0 || (old(now) == "" && old(later) == [])) && now == old(now) && later == old(later)
      ensures rc < 0 ==> len > 0 && old(now) == "" && old(later) != [] && now == old(later)[0] && later == old(later)[1..]
      ensures rc >= -1 && (rc <= 0 ==> data == "")
    {
      data := "";
      if len == 0 {
        rc := 0;
      } else if now != "" {
        rc :| 0 < rc <= len && rc <= |now|;
        data := now[..rc];
        Seqs.Cut(now, rc);
        now := now[rc..];
      } else if later != [] {
        rc, now, later := -1, later[0], later[1..];
      } else {
        rc := 0;
      }
    }
  }

  datatype State = BOL | FUZZY | IN

  predicate MarkOk(was: nat, high: nat, rend: nat, rcur: nat, fuzzy: bool)
  {
    high == was || ((high <= was || high <= rend || high <= 1) && (rcur == 0 || (rcur == 1 && !fuzzy)))
  }

  /** Looking at a character that is there, or at one that is read to the front, keeps the mark so. */
  lemma MarkKept(was: nat, high: nat, rend: nat, rcur: nat, fuzzy: bool, high': nat, rend': nat, rcur': nat)
    requires MarkOk(was, high, rend, rcur, fuzzy)
    requires (rcur' == rcur && rend' == rend && high' == high) || (rcur' == 0 && rend' > rend - rcur && high' == Most(high, rend'))
    ensures MarkOk(was, high', rend', rcur', fuzzy)
  {
  }

  lemma TailsAgree(a: string, b: string, i: nat, j: nat)
    requires i <= j <= |a| == |b| && a[i..] == b[i..]
    ensures a[j..] == b[j..]
  {
    assert a[j..] == a[i..][j - i..] && b[j..] == b[i..][j - i..];
  }

  function Most(a: nat, b: nat): nat { if a > b then a else b }

  datatype Was = Was(later: seq<string>, before: string, place: array<char>, looked: bool, high: nat)

  /** The largest buffer that expansion can reach, 0 for no bound. */
  function Limit(maxlen: nat): nat
  {
    if maxlen == 0 then 0
    else if maxlen <= SNET_BUFLEN then SNET_BUFLEN
    else (maxlen + SNET_BUFLEN - 1) / SNET_BUFLEN * SNET_BUFLEN
  }

  class Reader {
    const sock: Socket
    const maxlen: nat
    var rbuf: array<char>
    var rcur: nat
    var rend: nat
    var rstate: State
    var eof: bool
    ghost var blocks: nat
    ghost var high: nat                 // behind the last place in the buffer that has been written to
    ghost var before: string            // since it looked like this
    ghost var place: array<char>        // and was here

    ghost predicate Sound()
      reads this
    {
      && rend <= rbuf.Length == blocks * SNET_BUFLEN && blocks >= 1
      && (maxlen > 0 ==> rbuf.Length <= Limit(maxlen))
    }

    ghost predicate Valid()
      reads this
    {
      Sound() && rcur <= rend
    }

    /** The characters in the buffer that have not been handed out. */
    ghost function Buffered(): string
      requires Valid()
      reads this, rbuf
    {
      rbuf[rcur..rend]
    }

    /** Every unread character up to the next failing read. */
    ghost function Unread(): string
      requires Valid()
      reads this, rbuf, sock
    {
      Buffered() + sock.now
    }

    constructor (sock: Socket, maxlen: nat)
      ensures Valid() && fresh(rbuf)
      ensures this.sock == sock && this.maxlen == maxlen
      ensures rcur == rend == 0 && rstate == BOL && !eof
    {
      this.sock, this.maxlen := sock, maxlen;
      rbuf := new char[SNET_BUFLEN](_ => '\0');
      rcur, rend, rstate, eof := 0, 0, BOL, false;
      blocks, high, before, place := 1, 0, [], rbuf;
    }

    /** At the mark and behind it, the buffer looks as it did; a larger buffer is another one. */
    ghost predicate Behind()
      reads this, rbuf
    {
      rbuf == place ==> high <= |before| == rbuf.Length && rbuf[high..] == before[high..]
    }

    twostate predicate Untouched()
      reads this, rbuf
    {
      place == old(place) && before == old(before) && (old(Behind()) ==> Behind())
    }

    /** From here on. */
    ghost method Note()
      modifies this`high, this`before, this`place
      ensures Behind() && before == rbuf[..] && place == rbuf && high == 0
    {
      high, before, place := 0, rbuf[..], rbuf;
    }

    /** The mark stands where it stood, or no further than what is in the buffer, from which at most an LF has been taken since it was moved. */
    ghost predicate Marked(was: nat)
      reads this
    {
      MarkOk(was, high, rend, rcur, rstate.FUZZY?)
    }

    /** The mark moves behind what has been written. */
    ghost method Mark(was: string, upto: nat)
      requires upto <= rbuf.Length == |was| && rbuf[upto..] == was[upto..]
      modifies this`high
      ensures high == Most(old(high), upto)
      ensures rbuf == place && old(high) <= |before| == |was| && was[old(high)..] == before[old(high)..] ==> Behind()
    {
      ghost var from := high;
      if upto > high { high := upto; }
      if rbuf == place && from <= |before| == |was| && was[from..] == before[from..] {
        TailsAgree(was, before, from, high);
        TailsAgree(rbuf[..], was, upto, high);
      }
    }

    /** memmove or read(2): the characters come into the buffer at the offset. */
    method Put(at: nat, data: string)
      requires at + |data| <= rbuf.Length
      modifies rbuf
      ensures rbuf[..at] == old(rbuf[..at]) && rbuf[at..at + |data|] == data && rbuf[at + |data|..] == old(rbuf[at + |data|..])
    {
      forall k | 0 <= k < |data| { rbuf[at + k] := data[k]; }
    }

    /** snet_readread into the buffer behind rend. */
    method ReadBehind() returns (rc: int)
      requires Valid() && rend < rbuf.Length
      modifies this`rend, this`eof, this`high, rbuf, sock
      ensures Untouched()
      ensures Valid() && rc >= -1 && rend >= old(rend) && Buffered() == old(Buffered()) + rbuf[old(rend)..rend]
      ensures high == if rc > 0 then Most(old(high), rend) else old(high)
      ensures rc > 0 ==> rend == old(rend) + rc && old(sock.now) == rbuf[old(rend)..rend] + sock.now && sock.later == old(sock.later)
      ensures rc == 0 ==> eof && rend == old(rend) && old(sock.now) == sock.now == "" && old(sock.later) == sock.later == []
      ensures rc < 0 ==> rend == old(rend) && old(sock.now) == "" && old(sock.later) != [] && sock.now == old(sock.later)[0] && sock.later == old(sock.later)[1..]
    {
      var data;
      rc, data := sock.Read(rbuf.Length - rend);
      if rc == 0 {
        eof := true;
      } else if rc > 0 {
        Store(data);
      }
    }

    /** What read(2) has put behind rend. */
    method Store(data: string)
      requires Valid() && rend + |data| <= rbuf.Length
      modifies this`rend, this`high, rbuf
      ensures Valid() && Untouched() && rend == old(rend) + |data| && rbuf[old(rend)..rend] == data && high == Most(old(high), rend)
      ensures Buffered() == old(Buffered()) + data
    {
      Put(rend, data);
      rend := rend + |data|;
      Mark(old(rbuf[..]), rend);
      assert rbuf[..old(rend)][rcur..] == old(rbuf[..rend])[rcur..];
      assert Buffered() == rbuf[..old(rend)][rcur..] + rbuf[old(rend)..rend];
    }

    /** The pull-up: moves what is buffered to the front. */
    method PullUp()
      requires Valid()
      modifies this`rcur, this`rend, this`high, rbuf
      ensures Valid() && rcur == 0 && Buffered() == old(Buffered()) && Untouched() && old(high) <= high <= Most(old(high), rend)
    {
      if rcur > 0 {
        Put(0, rbuf[rcur..rend]);
        rend := rend - rcur;
        rcur := 0;
        Mark(old(rbuf[..]), rend);
      }
    }

    /** The expansion by one block of a buffer that is full and pulled up. */
    method Expand() returns (ok: bool)
      requires Valid() && rcur == 0
      modifies this`rbuf, this`blocks
      ensures Valid() && (rbuf == old(rbuf) || fresh(rbuf))
      ensures Buffered() == old(Buffered())
      ensures ok ==> rend < rbuf.Length
      ensures !ok ==> maxlen != 0 && |Buffered()| == Limit(maxlen)
    {
      if rend == rbuf.Length {
        if maxlen != 0 && rbuf.Length >= maxlen {
          LimitReached(maxlen, blocks);
          return false;
        }
        if maxlen != 0 { RoomToGrow(maxlen, blocks); }
        var bigger := new char[rbuf.Length + SNET_BUFLEN](_ => '\0');
        forall k | 0 <= k < rbuf.Length { bigger[k] := rbuf[k]; }
        rbuf := bigger;
        blocks := blocks + 1;
      }
      ok := true;
    }

    /** Pull-up and expansion. */
    method MakeRoom() returns (ok: bool)
      requires Valid()
      modifies this`rcur, this`rend, this`rbuf, this`blocks, this`high, rbuf
      ensures Valid() && rcur == 0 && (rbuf == old(rbuf) || fresh(rbuf)) && Untouched() && old(high) <= high <= Most(old(high), rend)
      ensures Buffered() == old(Buffered())
      ensures ok ==> rend < rbuf.Length
      ensures !ok ==> maxlen != 0 && |Buffered()| == Limit(maxlen)
    {
      PullUp();
      ok := Expand();
    }

    /** What snet_getline does when it has looked at every character in the buffer. */
    method Fill() returns (r: Filled)
      requires Valid()
      modifies this`rcur, this`rend, this`rbuf, this`blocks, this`eof, this`high, rbuf, sock
      ensures Valid() && rcur == 0 && (rbuf == old(rbuf) || fresh(rbuf)) && Untouched()
      ensures r.Got? ==> rend > |old(Buffered())| && sock.later == old(sock.later) && high == Most(old(high), rend)
      ensures r.Got? || r.Full? ==> Unread() == old(Unread()) && sock.later == old(sock.later)
      ensures r.Full? ==> maxlen != 0 && |old(Buffered())| == Limit(maxlen)
      ensures r.Closed? ==> eof && Buffered() == old(Unread()) == old(Buffered()) && sock.now == "" && sock.later == old(sock.later) == []
      ensures r.Failed? ==> Buffered() == old(Unread()) == old(Buffered()) && old(sock.later) != [] && sock.now == old(sock.later)[0] && sock.later == old(sock.later)[1..]
      ensures r.Closed? || r.Failed? ==> rend < rbuf.Length
      ensures !r.Full? && maxlen != 0 ==> |old(Buffered())| < Limit(maxlen)
    {
      var ok := MakeRoom();
      ghost var had := Buffered();
      Seqs.Nil(had);
      if !ok {
        return Full;
      }
      var rc := ReadBehind();
      if rc > 0 {
        Seqs.Assoc(had, rbuf[|had|..rend], sock.now);
        return Got;
      }
      assert Buffered() == had;
      r := if rc == 0 then Closed else Failed;
    }

    /** Ends the line at eol and steps over it. */
    method Deliver(eol: nat) returns (text: string)
      requires Valid() && rcur <= eol <= rend && eol < rbuf.Length
      modifies this`rcur, this`high, rbuf
      ensures text == old(rbuf[rcur..eol]) && rcur == eol + 1 && Untouched() && high == Most(old(high), rcur)
      ensures Stands(text)
      ensures eol < rend ==> Valid() && Buffered() == old(rbuf[eol + 1..rend])
    {
      text := rbuf[rcur..eol];
      rbuf[eol] := '\0';
      rcur := eol + 1;
      Mark(old(rbuf[..]), rcur);
      assert eol < rend ==> rbuf[eol + 1..rend] == old(rbuf[eol + 1..rend]);
    }

    /** The scan has reached eol: the unread characters are t, those before eol end no line. */
    ghost predicate Scanning(eol: nat, t: string, scan: Scan)
      reads this, rbuf, sock
    {
      && Valid() && rcur <= eol <= rend
      && Unread() == t && scan.At(t, eol - rcur, rstate.FUZZY?)
      && scan.limit == Limit(maxlen) && scan.more == (sock.later != [])
    }

    /** The line at rcur ends at eol, as the specification says. */
    ghost predicate EndsAt(eol: nat, step: Step)
      reads this, rbuf, sock
    {
      && Valid() && rcur <= eol < rend
      && step == Step(Line(rbuf[rcur..eol]), rbuf[eol + 1..rend] + sock.now, rstate.FUZZY?)
    }

    lemma Here(eol: nat, t: string)
      requires Valid() && rcur <= eol < rend && Unread() == t
      ensures rbuf[rcur..eol] == t[..eol - rcur] && rbuf[eol] == t[eol - rcur]
      ensures rbuf[eol + 1..rend] + sock.now == t[eol + 1 - rcur..]
    {
    }

    /** What the specification says about the character at eol. */
    lemma AtCharacter(eol: nat, t: string, scan: Scan)
      requires Scanning(eol, t, scan) && eol < rend
      ensures if !Ends(rbuf[eol]) then scan.At(t, eol + 1 - rcur, false)
              else if rstate.FUZZY? && rbuf[eol] == '\n' then
                t != "" && eol == rcur && scan.At(t[1..], 0, false) && t[1..] == rbuf[eol + 1..rend] + sock.now
              else scan.Outcome() == Step(Line(rbuf[rcur..eol]), rbuf[eol + 1..rend] + sock.now, rbuf[eol] != '\n')
    {
      Here(eol, t);
      assert maxlen == 0 || rend <= Limit(maxlen);
      scan.Looked(t, eol - rcur, rstate.FUZZY?);
    }

    /** One turn of the loop, with a character at eol. */
    method Look(eol: nat, ghost t: string, ghost scan: Scan) returns (ends: bool, ghost left: string)
      requires Scanning(eol, t, scan) && eol < rend
      modifies this`rcur, this`rstate
      ensures rcur == old(rcur) || (!ends && rcur == eol + 1 && old(rcur) == eol && old(rstate).FUZZY? && !rstate.FUZZY?)
      ensures !ends ==> !rstate.FUZZY?
      ensures if ends then EndsAt(eol, scan.Outcome())
              else Scanning(eol + 1, left, scan) && |left| + rcur == |t| + old(rcur)
    {
      left := t;
      AtCharacter(eol, t, scan);
      if rbuf[eol] == '\r' || rbuf[eol] == '\0' {
        rstate := FUZZY;
        return true, left;
      }
      if rbuf[eol] == '\n' {
        if rstate == FUZZY {
          rstate := BOL;
          rcur := eol + 1;
          left := t[1..];
          return false, left;
        }
        rstate := BOL;
        return true, left;
      }
      rstate := IN;
      return false, left;
    }

    /** What the reader and the peer hold after a call that handed out no text. */
    ghost predicate PeerAfter(r: Reply, rest: string, later: seq<string>)
      requires Valid()
      reads this, rbuf, sock
    {
      if r.Fault? then later != [] && Unread() == rest + later[0] && sock.later == later[1..]
      else Unread() == rest && sock.later == later
    }

    /** The scan gave up at eol for the reason that the specification gives. */
    ghost predicate Stopped(found: Sought, eol: nat, step: Step, later: seq<string>)
      reads this, rbuf, sock
    {
      && Valid()
      && (found.None? ==> found.reply == step.reply && !found.reply.Line? && !found.reply.Final? &&
                          rstate.FUZZY? == step.fuzzy && PeerAfter(found.reply, step.rest, later))
      && (found.Stream? ==> rcur <= eol == rend < rbuf.Length && step.reply == Final(rbuf[rcur..eol]) &&
                            sock.now == "" && sock.later == [])
    }

    /** The part of the loop that runs when no character is left in the buffer; Ending says: go on. */
    method Refill(eol: nat, ghost t: string, ghost scan: Scan) returns (found: Sought, at: nat)
      requires Scanning(eol, t, scan) && eol == rend
      modifies this`rcur, this`rend, this`rbuf, this`blocks, this`eof, this`high, rbuf, sock
      ensures (rbuf == old(rbuf) || fresh(rbuf)) && Untouched()
      ensures Stopped(found, at, scan.Outcome(), old(sock.later))
      ensures found.Ending? ==> Scanning(at, t, scan) && at < rend && sock.later == old(sock.later)
      ensures found.Ending? ==> rcur == 0 && rend > old(rend) - old(rcur) && high == Most(old(high), rend)
      ensures found.Ending? ==> at - rcur == eol - old(rcur)
    {
      at := eol - rcur;
      ghost var had, later := Buffered(), sock.later;
      assert rbuf[rcur..eol] == had && |had| == at;
      Seqs.Nil(had);
      var filled := Fill();
      match filled
      case Full =>
        found := None(TooLong);
        FullStops(t, at, scan, later);
      case Failed =>
        found := None(Fault);
        FailedStops(t, at, scan, later);
      case Closed =>
        found := if rcur < rend then Stream else None(End);
        ClosedStops(t, at, scan, later);
      case Got =>
        found := Ending;
        assert Unread() == t;
    }

    /** The scan has looked at all at characters in the buffer, and at no more. */
    ghost predicate Stuck(t: string, at: nat, scan: Scan, later: seq<string>)
      reads this, rbuf, sock
    {
      && Valid() && rcur == 0 && scan.At(t, at, rstate.FUZZY?) && scan.limit == Limit(maxlen) && scan.more == (later != [])
    }

    lemma FullStops(t: string, at: nat, scan: Scan, later: seq<string>)
      requires Stuck(t, at, scan, later) && Unread() == t && sock.later == later && maxlen != 0 && at == Limit(maxlen)
      ensures Stopped(None(TooLong), at, scan.Outcome(), later)
    {
      scan.AtStop(t, at, rstate.FUZZY?);
    }

    lemma FailedStops(t: string, at: nat, scan: Scan, later: seq<string>)
      requires Stuck(t, at, scan, later) && Buffered() == t && |t| == at && (maxlen != 0 ==> at < Limit(maxlen))
      requires later != [] && sock.now == later[0] && sock.later == later[1..]
      ensures Stopped(None(Fault), at, scan.Outcome(), later)
    {
      scan.AtStop(t, at, rstate.FUZZY?);
    }

    lemma ClosedStops(t: string, at: nat, scan: Scan, later: seq<string>)
      requires Stuck(t, at, scan, later) && Buffered() == t && |t| == at && (maxlen != 0 ==> at < Limit(maxlen))
      requires sock.now == "" && sock.later == later == [] && rend < rbuf.Length
      ensures Stopped(if rcur < rend then Stream else None(End), at, scan.Outcome(), later)
    {
      scan.AtStop(t, at, rstate.FUZZY?);
      Seqs.Nil(t);
    }

    /** A character to look at, or the reason why there is none. */
    method MakeSure(eol: nat, ghost t: string, ghost scan: Scan) returns (found: Sought, at: nat)
      requires Scanning(eol, t, scan)
      modifies this`rcur, this`rend, this`rbuf, this`blocks, this`eof, this`high, rbuf, sock
      ensures (rbuf == old(rbuf) || fresh(rbuf)) && Untouched()
      ensures Stopped(found, at, scan.Outcome(), old(sock.later))
      ensures found.Ending? ==> Scanning(at, t, scan) && at < rend && sock.later == old(sock.later) && |t| + rcur > at
      ensures found.Ending? ==> if eol < old(rend) then rcur == old(rcur) && rend == old(rend) && high == old(high)
                                else rcur == 0 && rend > old(rend) - old(rcur) && high == Most(old(high), rend)
      ensures found.Ending? ==> at - rcur == eol - old(rcur)
    {
      if eol >= rend {
        found, at := Refill(eol, t, scan);
      } else {
        found, at := Ending, eol;
      }
      if found.Ending? { Here(at, t); }
    }

    /** What the loop leaves alone: the segments behind the next failing read, and the buffer behind what is written. */
    ghost predicate Same(was: Was)
      reads this, rbuf, sock
    {
      sock.later == was.later && SameBehind(was)
    }

    /** How far the buffer has been written to when a line has been found. */
    ghost predicate Lined(was: Was)
      reads this
    {
      high <= was.high || high <= rend || high <= 1
    }

    ghost predicate SameBehind(was: Was)
      reads this, rbuf
    {
      before == was.before && place == was.place && (was.looked ==> Behind())
    }

    /** The loop goes on at eol. */
    ghost predicate Going(eol: nat, t: string, scan: Scan, was: Was)
      reads this, rbuf, sock
    {
      Scanning(eol, t, scan) && Same(was) && Marked(was.high)
    }

    /** The loop has found the line's end at eol. */
    ghost predicate Ended(eol: nat, scan: Scan, was: Was)
      reads this, rbuf, sock
    {
      EndsAt(eol, scan.Outcome()) && Same(was) && Lined(was)
    }

    /** A character to look at, with the mark in its place. */
    method Sure(eol: nat, ghost t: string, ghost scan: Scan, ghost was: Was) returns (found: Sought, at: nat)
      requires Going(eol, t, scan, was)
      modifies this, rbuf, sock
      ensures (rbuf == old(rbuf) || fresh(rbuf)) && SameBehind(was)
      ensures !found.Ending? ==> Stopped(found, at, scan.Outcome(), was.later)
      ensures found.Ending? ==> Going(at, t, scan, was) && at < rend && |t| + rcur > at && at - rcur == eol - old(rcur)
    {
      found, at := MakeSure(eol, t, scan);
      if found.Ending? {
        MarkKept(was.high, old(high), old(rend), old(rcur), rstate.FUZZY?, high, rend, rcur);
      }
    }

    /** The switch on it, likewise. */
    method LookOn(eol: nat, ghost t: string, ghost scan: Scan, ghost was: Was) returns (ends: bool, ghost left: string)
      requires Going(eol, t, scan, was) && eol < rend
      modifies this`rcur, this`rstate
      ensures if ends then Ended(eol, scan, was) else Going(eol + 1, left, scan, was) && |left| + rcur == |t| + old(rcur)
    {
      ends, left := Look(eol, t, scan);
    }

    /** The loop has come to its end: with the line's end at eol, or with the reason why there is none. */
    ghost predicate Over(found: Sought, eol: nat, scan: Scan, was: Was)
      reads this, rbuf, sock
    {
      SameBehind(was) && if found.Ending? then Ended(eol, scan, was) else Stopped(found, eol, scan.Outcome(), was.later)
    }

    /** The body of the loop: it goes on behind the character, or it is over. */
    method Turn(eol: nat, ghost t: string, ghost scan: Scan, ghost was: Was) returns (found: Sought, at: nat, over: bool, ghost left: string)
      requires Going(eol, t, scan, was)
      modifies this, rbuf, sock
      ensures rbuf == old(rbuf) || fresh(rbuf)
      ensures if over then Over(found, at, scan, was) else Going(at + 1, left, scan, was) && 0 <= |left| + rcur - at - 1 < |t| + old(rcur) - eol
    {
      over, left := true, t;
      found, at := Sure(eol, t, scan, was);
      if found.Ending? {
        over, left := LookOn(at, t, scan, was);
      }
    }

    /** The scan of snet_getline: where the line in front ends, or why there is none. */
    method Seek(ghost scan: Scan, ghost was: Was) returns (found: Sought, eol: nat)
      requires Going(rcur, scan.s, scan, was)
      modifies this, rbuf, sock
      ensures rbuf == old(rbuf) || fresh(rbuf)
      ensures Over(found, eol, scan, was)
    {
      var over;
      ghost var t;
      found, eol, over, t := Turn(rcur, scan.s, scan, was);
      while !over
        invariant rbuf == old(rbuf) || fresh(rbuf)
        invariant if over then Over(found, eol, scan, was) else Going(eol + 1, t, scan, was)
        decreases if over then 0 else |t| + rcur - eol
      {
        found, eol, over, t := Turn(eol + 1, t, scan, was);
      }
    }

    /** The text stands in the buffer, in front of the NUL that ends it. */
    ghost predicate Stands(text: string)
      reads this, rbuf
    {
      |text| < rcur <= rbuf.Length && rbuf[rcur - 1 - |text|..rcur - 1] == text && rbuf[rcur - 1] == '\0'
    }

    /** The end of snet_getline: the line or the last, unterminated text is handed out. */
    method Give(stream: bool, eol: nat, ghost step: Step) returns (r: Reply)
      requires if stream then Valid() && rcur <= eol == rend < rbuf.Length && step.reply == Final(rbuf[rcur..eol]) else EndsAt(eol, step)
      modifies this`rcur, this`high, rbuf
      ensures high == Most(old(high), rcur)
      ensures r == step.reply && Untouched() && (r.Line? || r.Final?) && r.Final? == stream && Stands(r.text)
      ensures if stream then !Valid() && rcur == rend + 1 else Valid() && Unread() == step.rest
    {
      var text := Deliver(eol);
      r := if stream then Final(text) else Line(text);
    }

    /** What is behind the loop. */
    method Conclude(found: Sought, eol: nat, ghost scan: Scan, ghost was: Was) returns (r: Reply)
      requires Over(found, eol, scan, was)
      modifies this`rcur, this`high, rbuf
      ensures SameBehind(was) && r == scan.Outcome().reply
      ensures !r.Final? ==> Valid() && rstate.FUZZY? == scan.Outcome().fuzzy && PeerAfter(r, scan.Outcome().rest, was.later)
      ensures r.Line? || r.Final? ==> Stands(r.text)
      ensures r.Line? ==> high <= Most(was.high, rend)
      ensures r.Final? ==> !Valid() && rcur == rend + 1 && sock.now == "" && sock.later == []
    {
      if found.None? {
        return found.reply;
      }
      r := Give(found.Stream?, eol, scan.Outcome());
    }

    /**
     snet_getline. After the last, unterminated line the read pointer is one past the end of
     the buffered text: the reader is not Valid() any more, and only then.
     */
    method GetLine() returns (r: Reply)
      requires Valid()
      modifies this, rbuf, sock
      ensures var step := Next(old(Unread()), old(rstate).FUZZY?, Limit(maxlen), old(sock.later) != []);
              r == step.reply && (!r.Final? ==> Valid() && rstate.FUZZY? == step.fuzzy && PeerAfter(r, step.rest, old(sock.later)))
      ensures r.Line? || r.Final? ==> Stands(r.text)
      ensures r.Line? ==> high <= Most(old(high), rend)
      ensures r.Final? ==> !Valid() && rcur == rend + 1 && sock.now == "" && sock.later == []
      ensures (rbuf == old(rbuf) || fresh(rbuf)) && Untouched()
    {
      ghost var scan := Scan(Unread(), rstate.FUZZY?, Limit(maxlen), sock.later != []);
      ghost var was := Was(sock.later, before, place, Behind(), high);
      var found, eol := Seek(scan, was);
      r := Conclude(found, eol, scan, was);
    }

    /** snet_hasdata: whether characters are buffered, once a left-over LF is out of the way. */
    method HasData() returns (yes: bool)
      requires Valid()
      modifies this`rcur, this`rstate
      ensures Valid() && yes == (rcur < rend)
      ensures old(Buffered()) != "" ==> !rstate.FUZZY? && Unread() == Skip(old(Unread()), old(rstate).FUZZY?)
      ensures old(Buffered()) == "" ==> rcur == old(rcur) && rstate == old(rstate)
    {
      if rcur < rend {
        assert Unread()[0] == Buffered()[0] == rbuf[rcur];
        if rstate == FUZZY {
          if rbuf[rcur] == '\n' {
            assert Unread()[1..] == rbuf[rcur + 1..rend] + sock.now;
            rcur := rcur + 1;
          }
          rstate := BOL;
        } 
        if rcur < rend {
          return true;
        }
      }
      return false;
    }

    /** snet_readread into the caller's memory. */
    method ReadRead(len: nat) returns (rc: int, data: string)
      requires Valid() && rcur == rend
      modifies this`eof, sock
      ensures Received(rc, data, len, old(Unread()), old(sock.later))
      ensures rc == 0 ==> eof
    {
      Seqs.Nil(sock.now);
      assert Unread() == sock.now;
      rc, data := sock.Read(len);
      if rc == 0 {
        eof := true;
      }
      assert Unread() == sock.now;
    }

    /** A raw read that found the characters s unread gave the first rc of them, or the reason why not. */
    ghost predicate Received(rc: int, data: string, len: nat, s: string, later: seq<string>)
      reads this, rbuf, sock
    {
      && Valid() && -1 <= rc
      && (rc > 0 ==> rc == |data| <= len && s == data + Unread() && sock.later == later)
      && (rc == 0 ==> data == "" && (len == 0 || (s == "" && later == [])) && Unread() == s && sock.later == later)
      && (rc < 0 ==> data == "" && s == "" && later != [] && Unread() == later[0] && sock.later == later[1..])
    }

    /** The part of snet_read for text that is buffered. */
    method HandOut(len: nat) returns (rc: int, data: string)
      requires Valid() && len > 0 && rcur < rend
      modifies this`rcur
      ensures Received(rc, data, len, old(Unread()), sock.later) && rc > 0
    {
      rc := if rend - rcur < len then rend - rcur else len;
      data := rbuf[rcur..rcur + rc];
      assert Buffered() == data + rbuf[rcur + rc..rend];
      Seqs.Assoc(data, rbuf[rcur + rc..rend], sock.now);
      rcur := rcur + rc;
    }

    /** The part for an empty buffer. */
    method ReadOn(len: nat) returns (rc: int, data: string)
      requires Valid() && len > 0 && rcur == rend
      modifies this`rstate, this`eof, sock
      ensures Received(rc, data, len, Skip(old(Unread()), old(rstate).FUZZY?), old(sock.later))
      ensures rstate.FUZZY? == (rc <= 0 && old(rstate).FUZZY? && old(Unread()) == "")
    {
      rc, data := ReadRead(len);
      if rc > 0 && rstate == FUZZY {
        rstate := BOL;
        if data[0] == '\n' {
          rc := rc - 1;
          data := data[1..];
          if rc <= 0 {
            rc, data := ReadRead(len);
          }
        }
      }
    }

    /** snet_read. It hands out what is buffered, or reads; a left-over LF is swallowed on the way. */
    method Read(len: nat) returns (rc: int, data: string)
      requires Valid() && len > 0
      modifies this`rcur, this`rstate, this`eof, sock
      ensures var s := Skip(old(Unread()), old(rstate).FUZZY?);
              Received(rc, data, len, s, old(sock.later))
      ensures rstate.FUZZY? == (rc <= 0 && old(rstate).FUZZY? && old(Unread()) == "")
    {
      ghost var s0, f0 := Unread(), rstate.FUZZY?;
      var has := HasData();
      assert Unread() == (if rstate.FUZZY? then s0 else Skip(s0, f0));
      if has {
        rc, data := HandOut(len);
      } else {
        rc, data := ReadOn(len);
      }
    }
  }

  datatype Sought = Ending | Stream | None(reply: Reply)

  datatype Filled = Got | Full | Closed | Failed

  /** A scan for the end of the line at the front of the unread characters s. */
  datatype Scan = Scan(s: string, fuzzy: bool, limit: nat, more: bool) {

    ghost function Outcome(): Step { Next(s, fuzzy, limit, more) }

    /** t is left of s, i characters of it end no line, and f tells that an LF is still to be swallowed. */
    ghost predicate At(t: string, i: nat, f: bool) {
      && i <= |t| && Plain(t[..i])
      && (if f then i == 0 && fuzzy && t == s else t == Skip(s, fuzzy) && (fuzzy ==> s != ""))
    }

    /** No character is left to look at in the buffer. */
    lemma AtStop(t: string, i: nat, f: bool)
      requires At(t, i, f)
      ensures limit != 0 && i == limit ==> Outcome() == Step(TooLong, t, false)
      ensures (limit == 0 || i < limit) && i == |t| ==>
        Outcome() == (if more then Step(Fault, t, f)
                      else if t == "" then Step(End, "", f)
                      else Step(Final(t), "", false))
    {
      EolAtLeast(t, i);
    }

    lemma Looked(t: string, i: nat, f: bool)
      requires At(t, i, f) && i < |t| && (limit == 0 || i < limit)
      ensures if !Ends(t[i]) then At(t, i + 1, false)
              else if f && t[i] == '\n' then i == 0 && At(t[1..], 0, false)
              else Outcome() == Step(Line(t[..i]), t[i + 1..], t[i] != '\n')
    {
      if !Ends(t[i]) {
        assert t[..i + 1] == t[..i] + [t[i]];
      } else if !(f && t[i] == '\n') {
        EolIs(t, i);
      }
    }
  }

  // ---------------------------------------------------------------- the loop over commands

  /** One more call, from what it answers. */
  lemma CallsOnward(s: string, fuzzy: bool, limit: nat)
    ensures var step := Next(s, fuzzy, limit, false);
            Calls(s, fuzzy, limit) ==
              match step.reply
              case Line(text) => (var f := Calls(step.rest, step.fuzzy, limit); Found([text] + f.lines, f.tooLong))
              case Final(text) => Found([text], false)
              case TooLong => Found([], true)
              case _ => Found([], false)
  {
  }

  /** The loop stands at: goal is what there is in all, lines what has been read. */
  ghost predicate Reading(sn: Reader, goal: Found, lines: seq<string>)
    reads sn, sn.rbuf, sn.sock
  {
    && sn.Valid() && sn.sock.later == []
    && var f := Calls(sn.Unread(), sn.rstate.FUZZY?, Limit(sn.maxlen)); goal == Found(lines + f.lines, f.tooLong)
  }

  /** What is left to be found when one more line has been. */
  lemma OneLineMore(s: string, fuzzy: bool, limit: nat, goal: Found, lines: seq<string>)
    requires var f := Calls(s, fuzzy, limit); goal == Found(lines + f.lines, f.tooLong)
    ensures var step := Next(s, fuzzy, limit, false);
            match step.reply
            case Line(text) => |step.rest| < |s| && (var f := Calls(step.rest, step.fuzzy, limit); goal == Found(lines + [text] + f.lines, f.tooLong))
            case Final(text) => goal == Found(lines + [text], false)
            case TooLong => goal == Found(lines, true)
            case _ => goal == Found(lines, false)
  {
    var step := Next(s, fuzzy, limit, false);
    CallsOnward(s, fuzzy, limit);
    Seqs.Nil(lines);
    if step.reply.Line? {
      Seqs.Assoc(lines, [step.reply.text], Calls(step.rest, step.fuzzy, limit).lines);
    }
  }

  /** One turn of the loop. */
  method OneLine(sn: Reader, lines: seq<string>, ghost goal: Found) returns (more: bool, lines': seq<string>, tooLong: bool)
    requires Reading(sn, goal, lines)
    modifies sn, sn.rbuf, sn.sock
    ensures sn.rbuf == old(sn.rbuf) || fresh(sn.rbuf)
    ensures if more then Reading(sn, goal, lines') && |sn.Unread()| < |old(sn.Unread())| else goal == Found(lines', tooLong)
  {
    OneLineMore(sn.Unread(), sn.rstate.FUZZY?, Limit(sn.maxlen), goal, lines);
    var r := sn.GetLine();
    more, lines', tooLong := r.Line?, lines, r.TooLong?;
    if r.Line? || r.Final? {
      lines' := lines + [r.text];
    }
  }

  method ReadLines(sn: Reader) returns (lines: seq<string>, tooLong: bool)
    requires sn.Valid() && sn.sock.later == []
    modifies sn, sn.rbuf, sn.sock
    ensures Found(lines, tooLong) == Calls(old(sn.Unread()), old(sn.rstate).FUZZY?, Limit(sn.maxlen))
  {
    ghost var goal := Calls(sn.Unread(), sn.rstate.FUZZY?, Limit(sn.maxlen));
    lines, tooLong := [], false;
    Seqs.Nil(goal.lines);
    var more := true;
    while more
      invariant sn.rbuf == old(sn.rbuf) || fresh(sn.rbuf)
      invariant if more then Reading(sn, goal, lines) else goal == Found(lines, tooLong)
      decreases more, if more then |sn.Unread()| else 0
    {
      more, lines, tooLong := OneLine(sn, lines, goal);
    }
  }

  /**
   The loop of the daemon over the lines of a connection: however the network cuts the stream,
   the commands are its lines up to the first that is too long, which ends the loop.
   */
  method EveryLine(sn: Reader) returns (lines: seq<string>, tooLong: bool)
    requires sn.Valid() && sn.sock.later == []
    modifies sn, sn.rbuf, sn.sock
    ensures Found(lines, tooLong) == Calls(old(sn.Unread()), old(sn.rstate).FUZZY?, Limit(sn.maxlen))
    ensures !old(sn.rstate).FUZZY? ==> Found(lines, tooLong) == Upto(FeedAll(Pass([], "", false), old(sn.Unread())).Lines(), Limit(sn.maxlen))
  {
    CallsFromStart(sn.Unread(), Limit(sn.maxlen));
    lines, tooLong := ReadLines(sn);
  }

  lemma LimitReached(maxlen: nat, blocks: nat)
    requires maxlen > 0 && blocks >= 1 && maxlen <= blocks * SNET_BUFLEN <= Limit(maxlen)
    ensures blocks * SNET_BUFLEN == Limit(maxlen)
  {
  }

  /** The limit is the first size of a growing buffer at which it may not grow any more. */
  lemma LimitIsLeast(maxlen: nat, blocks: nat)
    requires maxlen > 0
    ensures Limit(maxlen) % SNET_BUFLEN == 0 && Limit(maxlen) >= maxlen && Limit(maxlen) >= SNET_BUFLEN
    ensures blocks >= 1 && blocks * SNET_BUFLEN >= maxlen ==> Limit(maxlen) <= blocks * SNET_BUFLEN
  {
  }

  lemma RoomToGrow(maxlen: nat, blocks: nat)
    requires maxlen > 0 && blocks >= 1 && blocks * SNET_BUFLEN < maxlen
    ensures (blocks + 1) * SNET_BUFLEN <= Limit(maxlen)
  {
  }
}
