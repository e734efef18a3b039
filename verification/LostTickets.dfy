/**
 A LOGIN whose ticket does not arrive: f_login stores the record before it asks for the ticket,
 and takes it back by a name that is its path only in a database without hashing, and only as
 long as the ticket's lines have not been read over it.
 */
module LostTickets {
  import opened Text
  import opened Commands
  import opened Effects
  import opened Laws
  import LineBuffer
  import ArgcArgv
  import MkCookie
  import Ticket

  /** The record would be put where it can be, and it holds something new. */
  predicate HasNews(cfg: Config, fs: Files, av: seq<string>)
    requires |av| >= 5
  {
    || CanLink(cfg.hashlen, fs, av[1])
    || (&& IsLogin(fs, av[1]) && fs[av[1]].live && fs[av[1]].user == av[3] && fs[av[1]].ticket == ""
        && (fs[av[1]].cur != av[2] || exists f :: f in Named(av) && f !in Factors(fs[av[1]])))
  }

  /** The guards of the 300 answer: the CGI is to send a ticket. */
  predicate Awaits(cfg: Config, fs: Files, e: Event) {
    && e.cmd.LOGIN? && e.peer.key.CGI? && Kerberos(e.cmd.av)
    && MkCookie.PathOk(cfg.hashlen, e.cmd.av[1]) && !Oversize(e.cmd.av) && HasNews(cfg, fs, e.cmd.av)
  }

  /** The one failed transfer after which a file is unlinked, and the file is the record of this LOGIN. */
  predicate TakenBack(e: Event) { e.cmd.LOGIN? && |e.cmd.av| > 1 && Unlinks(e, e.cmd.av[1]) }

  lemma {:induction false} NothingMissing(more: seq<string>, have: seq<string>)
    ensures Missing(more, have) != [] <==> exists f :: f in more && f !in have
  {
    if more != [] {
      NothingMissing(more[1..], have);
      assert more[0] in more;
      assert forall f :: f in more[1..] ==> f in more;
      assert forall f :: f in more ==> f == more[0] || f in more[1..];
    }
  }

  lemma AgainAwaits(cfg: Config, fs: Files, e: Event)
    requires e.cmd.LOGIN? && |e.cmd.av| >= 5 && IsLogin(fs, e.cmd.av[1])
    ensures var av := e.cmd.av; var d := LoginAgain(e.peer, e.now, fs, av, e.cmd.krbpath, e.cmd.transfer, e.cmd.memory);
            if !Oversize(av) && Kerberos(av) && HasNews(cfg, fs, av) then
              d == LoginStored(e.peer, fs[av[1] := NewRecord(fs, e)], av, true, e.cmd.transfer, e.cmd.memory)
            else d.code !in {200, 201} ==> d.files == fs
  {
    NothingMissing(Named(e.cmd.av), Factors(fs[e.cmd.av[1]]));
  }

  /** With these guards the record is in place before the transfer; without them a LOGIN that is turned down changes nothing. */
  lemma AwaitsDoes(cfg: Config, fs: Files, e: Event)
    requires e.cmd.LOGIN?
    ensures Awaits(cfg, fs, e) ==> Exec(cfg, fs, e) == LoginStored(e.peer, fs[e.cmd.av[1] := NewRecord(fs, e)], e.cmd.av, true, e.cmd.transfer, e.cmd.memory)
    ensures !Awaits(cfg, fs, e) && Exec(cfg, fs, e).code !in {200, 201} ==> Exec(cfg, fs, e).files == fs
  {
    var av := e.cmd.av;
    if e.peer.key.CGI? && |av| >= 5 && MkCookie.PathOk(cfg.hashlen, av[1]) && IsLogin(fs, av[1]) {
      AgainAwaits(cfg, fs, e);
    }
  }

  /** The same LOGIN with that outcome of the transfer. */
  function With(e: Event, transfer: Ticket.Outcome): Event
    requires e.cmd.LOGIN?
  {
    e.(cmd := LOGIN(e.cmd.av, e.cmd.krbpath, transfer, e.cmd.memory))
  }

  /** A ticket is asked for just when one that arrives is answered 201, and one that does not 504, 505 or not at all. */
  lemma AwaitsIff(cfg: Config, fs: Files, e: Event, data: string)
    requires e.cmd.LOGIN?
    ensures Awaits(cfg, fs, e) <==> Exec(cfg, fs, With(e, Ticket.Stored(data))).code == 201
    ensures Awaits(cfg, fs, e) ==>
            && Exec(cfg, fs, With(e, Ticket.Refused)).code == 504
            && Exec(cfg, fs, With(e, Ticket.Mismatch)).code == 505
            && Exec(cfg, fs, With(e, Ticket.Dropped)).code == NO_REPLY
  {
    var stored := With(e, Ticket.Stored(data));
    AwaitsDoes(cfg, fs, stored);
    AwaitsDoes(cfg, fs, With(e, Ticket.Refused));
    AwaitsDoes(cfg, fs, With(e, Ticket.Mismatch));
    AwaitsDoes(cfg, fs, With(e, Ticket.Dropped));
    if !Awaits(cfg, fs, e) {
      NotAwaited(cfg, fs, stored);
    }
  }

  lemma NotAwaited(cfg: Config, fs: Files, e: Event)
    requires e.cmd.LOGIN? && !Awaits(cfg, fs, e)
    ensures Exec(cfg, fs, e).code != 201
  {
    var av := e.cmd.av;
    if |av| >= 5 && IsLogin(fs, av[1]) {
      NothingMissing(Named(av), Factors(fs[av[1]]));
    }
  }

  /** What unlink(2) takes after the transfer. */
  function Lost(e: Event): Option<string>
    requires e.cmd.LOGIN?
  {
    if e.cmd.transfer.Mismatch? then e.cmd.memory.gone else None
  }

  /** A LOGIN that is not answered with success changes the store exactly if a ticket was asked for, and a record made for it has not been taken back. */
  lemma FailedLoginChangesIff(cfg: Config, fs: Files, e: Event)
    requires e.cmd.LOGIN? && e.cmd.krbpath != "" && Exec(cfg, fs, e).code !in {200, 201}
    ensures Exec(cfg, fs, e).files != fs <==> Awaits(cfg, fs, e) && (TakenBack(e) ==> e.cmd.av[1] in fs)
    ensures Awaits(cfg, fs, e) ==> Exec(cfg, fs, e).files == Unlink(fs[e.cmd.av[1] := NewRecord(fs, e)], Lost(e))
  {
    AwaitsDoes(cfg, fs, e);
    if Awaits(cfg, fs, e) {
      StoreAfter(fs, e.cmd.av[1], NewRecord(fs, e), Lost(e));
    }
  }

  lemma StoreAfter(fs: Files, l: string, rec: File, lost: Option<string>)
    requires rec.Login? && rec.ticket != "" && (l in fs ==> fs[l].Login? && fs[l].ticket == "")
    ensures Unlink(fs[l := rec], lost) != fs <==> (lost == Some(l) ==> l in fs)
  {
    var next := Unlink(fs[l := rec], lost);
    if lost != Some(l) {
      assert l in next && next[l] == rec;
    } else {
      assert l !in next && (l !in fs ==> next == fs);
    }
  }

  /** Another cookie's file goes exactly if a ticket was asked for, the line behind it was wrong, and the name that then stands there is its path. */
  lemma AnotherGoesIff(cfg: Config, fs: Files, e: Event, other: string)
    requires e.cmd.LOGIN? && other in fs && (|e.cmd.av| > 1 ==> other != e.cmd.av[1])
    ensures other !in Exec(cfg, fs, e).files <==> Awaits(cfg, fs, e) && Unlinks(e, other)
  {
    AwaitsDoes(cfg, fs, e);
    if !Awaits(cfg, fs, e) {
      LoginDoes(cfg, fs, e);
    }
  }

  /** A service's CHECK of a new login cookie passes at once, though its LOGIN was not answered with success, exactly in these cases. */
  lemma FailedLoginPassesIff(cfg: Config, fs: Files, e: Event, check: Event)
    requires e.cmd.LOGIN? && Exec(cfg, fs, e).code !in {200, 201}
    requires |e.cmd.av| > 1 && e.cmd.av[1] !in fs && "cosign=" <= e.cmd.av[1]
    requires check.cmd.CHECK? && check.cmd.cookie == e.cmd.av[1] && check.peer.key.SERVICE? && check.now == e.now
    ensures Passed(Exec(cfg, Exec(cfg, fs, e).files, check)) <==> Awaits(cfg, fs, e) && !TakenBack(e) && cfg.idle > 0
  {
    var l, fs' := e.cmd.av[1], Exec(cfg, fs, e).files;
    AwaitsDoes(cfg, fs, e);
    LoginChecked(cfg, fs', check, l);
    if Awaits(cfg, fs, e) {
      assert l in fs' <==> !TakenBack(e);
    }
  }

  lemma LoginChecked(cfg: Config, fs: Files, check: Event, l: string)
    requires check.cmd.CHECK? && check.cmd.cookie == l && check.peer.key.SERVICE? && "cosign=" <= l
    ensures Passed(Exec(cfg, fs, check)) <==>
            MkCookie.PathOk(cfg.hashlen, l) && IsLogin(fs, l) && fs[l].live && IdleState(cfg, check.now, fs[l].mtime).Active?
  {
    assert l[6] == '=' && "cosign-"[6] == '-';
  }

  /** The ticket stays lost: the record names its path, and no later LOGIN of the cookie asks for it again. */
  lemma TicketStaysLost(cfg: Config, fs: Files, e: Event, es: seq<Event>, later: Event)
    requires Awaits(cfg, fs, e) && !TakenBack(e) && e.cmd.krbpath != "" && Exec(cfg, fs, e).code !in {200, 201}
    requires Stays(cfg, Exec(cfg, fs, e).files, es, e.cmd.av[1])
    requires later.cmd.LOGIN? && |later.cmd.av| > 1 && later.cmd.av[1] == e.cmd.av[1]
    ensures var end := Run(cfg, Exec(cfg, fs, e).files, es);
            && IsLogin(end, e.cmd.av[1]) && end[e.cmd.av[1]].ticket == e.cmd.krbpath
            && !Awaits(cfg, end, later)
  {
    FailedLoginChangesIff(cfg, fs, e);
    RunPersists(cfg, Exec(cfg, fs, e).files, es, e.cmd.av[1]);
  }

  /** The failing input: unless unlink(2) finds the record itself, the LOGIN is answered 505 and the cookie is good for every service at once. */
  lemma RefusedButLoggedIn(cfg: Config, peer: Peer, now: int, cookie: string, m: Memory, check: Event)
    requires cfg.idle > 0 && peer.key.CGI? && "cosign=" <= cookie && MkCookie.Housed(cfg.hashlen, cookie) && m.gone != Some(cookie)
    requires check.cmd.CHECK? && check.cmd.cookie == cookie && check.peer.key.SERVICE? && check.now == now
    ensures var e := Event(peer, now, LOGIN(["LOGIN", cookie, "10.0.0.1", "user", "f", "kerberos"], "tickets/x", Ticket.Mismatch, m));
            var d := Exec(cfg, map[], e);
            d.code == 505 && IsLogin(d.files, cookie) && Passed(Exec(cfg, d.files, check))
  {
    var e := Event(peer, now, LOGIN(["LOGIN", cookie, "10.0.0.1", "user", "f", "kerberos"], "tickets/x", Ticket.Mismatch, m));
    assert Awaits(cfg, map[], e);
    AwaitsDoes(cfg, map[], e);
    FailedLoginPassesIff(cfg, map[], e, check);
  }

  // ---------------------------------------------------------------- each line read alone

  /** The words are read where they stood when the line was cut, at the sixth character and behind it; size and line have come over them. */
  ghost predicate Remembers(hashlen: int, mem: string, size: string, line: string, e: Event)
    requires e.cmd.LOGIN? && |size| + 2 <= |mem| && |line| + 2 <= |mem|
  {
    && |e.cmd.av| > 1 && ArgcArgv.WordAt(mem, 6, e.cmd.av[1])
    && e.cmd.memory.cookie == LineBuffer.CString(LineBuffer.AfterLines(mem, size, line), 6)
    && e.cmd.memory.gone == LineBuffer.Gone(hashlen, e.cmd.memory.cookie)
  }

  /** No word of a line that snet_getline gives has a line ending or a NUL in it. */
  predicate Plain(w: string) { '\0' !in w && '\n' !in w }

  /** The record is taken back exactly without hashing if size and wrong line have at most four characters each; or if the path comes in behind six others. */
  lemma TakenBackIff(cfg: Config, mem: string, size: string, line: string, e: Event)
    requires e.cmd.LOGIN? && e.cmd.transfer.Mismatch? && |size| + 2 <= |mem| && |line| + 2 <= |mem|
    requires Remembers(cfg.hashlen, mem, size, line, e) && Plain(e.cmd.av[1]) && '\0' !in size && '\0' !in line
    requires MkCookie.PathOk(cfg.hashlen, e.cmd.av[1])
    ensures var path := LineBuffer.PathText(cfg.hashlen, e.cmd.av[1]);
            TakenBack(e) <==> if |line| >= 6 then line[6..] == path
                              else |line| <= 4 && if |size| >= 6 then size[6..] == path else |size| <= 4 && cfg.hashlen == 0
  {
    LineBuffer.OwnFileIff(cfg.hashlen, mem, 6, e.cmd.av[1], size, line);
  }

  /** So a wrong line of five characters or more, but for one that ends in the path, leaves a new cookie good for every service, with hashing or without. */
  lemma WrongLineLogsIn(cfg: Config, mem: string, size: string, line: string, fs: Files, e: Event, check: Event)
    requires e.cmd.LOGIN? && e.cmd.transfer.Mismatch? && |size| + 2 <= |mem| && |line| + 2 <= |mem|
    requires Remembers(cfg.hashlen, mem, size, line, e) && Plain(e.cmd.av[1]) && '\0' !in size && '\0' !in line
    requires Awaits(cfg, fs, e) && e.cmd.av[1] !in fs && "cosign=" <= e.cmd.av[1] && cfg.idle > 0
    requires |line| >= 5 && (|line| >= 6 ==> line[6..] != LineBuffer.PathText(cfg.hashlen, e.cmd.av[1]))
    requires check.cmd.CHECK? && check.cmd.cookie == e.cmd.av[1] && check.peer.key.SERVICE? && check.now == e.now
    ensures Exec(cfg, fs, e).code == 505 && Passed(Exec(cfg, Exec(cfg, fs, e).files, check))
  {
    TakenBackIff(cfg, mem, size, line, e);
    AwaitsDoes(cfg, fs, e);
    FailedLoginPassesIff(cfg, fs, e, check);
  }

  /** And a wrong line of six characters and the path of another cookie takes that cookie's file, with hashing or without. */
  lemma WrongLineTakesAnother(cfg: Config, mem: string, size: string, front: string, fs: Files, e: Event, other: string)
    requires e.cmd.LOGIN? && e.cmd.transfer.Mismatch? && |size| + 2 <= |mem| && |front| == 6
    requires MkCookie.PathOk(cfg.hashlen, other) && '\0' !in other && '\0' !in front
    requires |front + LineBuffer.PathText(cfg.hashlen, other)| + 2 <= |mem|
    requires Remembers(cfg.hashlen, mem, size, front + LineBuffer.PathText(cfg.hashlen, other), e)
    requires Awaits(cfg, fs, e) && other in fs && other != e.cmd.av[1]
    ensures other !in Exec(cfg, fs, e).files
  {
    LineBuffer.OtherFile(cfg.hashlen, mem, 6, size, front, other);
    AnotherGoesIff(cfg, fs, e, other);
  }
}
