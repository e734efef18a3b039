/**
 What each command does to the store, told by the guards that a caller could look at before,
 and not by the reply: the proofs about commands rest on these few shapes.
 */
module Effects {
  import opened Text
  import opened Commands
  import MkCookie
  import Ticket

  /** The record is there, live, and idle beyond the grey window. */
  predicate TimedOut(cfg: Config, fs: Files, now: int, n: string)
  {
    IsLogin(fs, n) && fs[n].live && IdleState(cfg, now, fs[n].mtime).Out?
  }

  /** A REGISTER that gets as far as to log the login out for idleness. */
  predicate RegisterIdlesOut(cfg: Config, fs: Files, peer: Peer, now: int, av: seq<string>)
  {
    && peer.key.CGI? && |av| == 4
    && MkCookie.PathOk(cfg.hashlen, av[1]) && MkCookie.PathOk(cfg.hashlen, av[3])
    && TimedOut(cfg, fs, now, av[1])
  }

  /** The login cookie that a CHECK comes to, if it comes to one. */
  function CheckedLogin(cfg: Config, fs: Files, peer: Peer, cookie: string, allowed: bool): Option<string>
  {
    if (!peer.key.CGI? && !peer.key.SERVICE?) || !MkCookie.PathOk(cfg.hashlen, cookie) then None
    else if "cosign-" <= cookie then
      if (cfg.strict && !allowed) || !IsService(fs, cookie) || !MkCookie.PathOk(cfg.hashlen, fs[cookie].login) then None
      else Some(fs[cookie].login)
    else if "cosign=" <= cookie then Some(cookie)
    else None
  }

  /** A CHECK or REKEY that logs the login out for idleness. */
  predicate CheckIdlesOut(cfg: Config, fs: Files, e: Event)
    requires e.cmd.CHECK?
  {
    var l := CheckedLogin(cfg, fs, e.peer, e.cmd.cookie, e.cmd.allowed);
    l.Some? && TimedOut(cfg, fs, e.now, l.value)
  }

  /** A REKEY that gets as far as to rename the service cookie. */
  predicate Renames(cfg: Config, fs: Files, e: Event)
    requires e.cmd.CHECK?
  {
    var l := CheckedLogin(cfg, fs, e.peer, e.cmd.cookie, e.cmd.allowed);
    var renamed := Rekeyed(e.cmd.cookie, e.cmd.minted);
    && e.cmd.rekey && SupportsRekey(e.peer.protocol) && "cosign-" <= e.cmd.cookie
    && l.Some? && IsLogin(fs, l.value) && fs[l.value].live && IdleState(cfg, e.now, fs[l.value].mtime).Active?
    && |renamed| < 256 && MkCookie.Housed(cfg.hashlen, renamed)
  }

  /** A RETR that logs the login out for idleness. */
  predicate RetrIdlesOut(cfg: Config, fs: Files, e: Event)
    requires e.cmd.RETR?
  {
    var av := e.cmd.av;
    && (e.peer.key.CGI? || e.peer.key.SERVICE?) && |av| == 3 && e.cmd.allowed
    && MkCookie.PathOk(cfg.hashlen, av[1]) && IsService(fs, av[1]) && MkCookie.PathOk(cfg.hashlen, fs[av[1]].login)
    && TimedOut(cfg, fs, e.now, fs[av[1]].login)
  }

  /** The record that a LOGIN writes, if it writes one. */
  function NewRecord(fs: Files, e: Event): File
    requires e.cmd.LOGIN? && |e.cmd.av| >= 5
  {
    var av := e.cmd.av;
    if IsLogin(fs, av[1]) then Renewed(fs[av[1]], av, e.cmd.krbpath, e.now) else FirstRecord(av, e.cmd.krbpath, e.now)
  }

  /** The file goes because a ticket went wrong. */
  predicate Unlinks(e: Event, n: string) { e.cmd.LOGIN? && e.cmd.transfer.Mismatch? && e.cmd.memory.gone == Some(n) }

  /** The line that a successful LOGIN pushes. */
  ghost predicate LoginLine(peer: Peer, av: seq<string>, m: Memory, d: Done)
    requires |av| >= 5
  {
    && (d.code == 200 ==> d.pushed == Push(peer, ["LOGIN", av[1], av[2], av[3], av[4]]))
    && (d.code == 201 ==> d.pushed == Push(peer, Spoken(m)))
  }

  /** A LOGIN does nothing, writes the record, or writes and unlinks it. */
  ghost predicate LoginEffect(cfg: Config, fs: Files, e: Event, d: Done)
    requires e.cmd.LOGIN?
  {
    var av := e.cmd.av;
    || (d.files == fs && d.code !in {200, 201} && d.pushed == [])
    || (&& |av| >= 5 && MkCookie.PathOk(cfg.hashlen, av[1]) && !Oversize(av)
        && (if av[1] in fs then IsLogin(fs, av[1]) && fs[av[1]].live && fs[av[1]].user == av[3] else MkCookie.Housed(cfg.hashlen, av[1]))
        && LoginLine(e.peer, av, e.cmd.memory, d)
        && if d.code in {200, 201} then d.files == fs[av[1] := NewRecord(fs, e)]
           else d.pushed == [] && (d.files == fs[av[1] := NewRecord(fs, e)]
                                    || (d.files == Unlink(fs[av[1] := NewRecord(fs, e)], e.cmd.memory.gone) && e.cmd.transfer.Mismatch? && d.code == 505)))
  }

  lemma StoredDoes(peer: Peer, fs: Files, av: seq<string>, awaits: bool, transfer: Ticket.Outcome, m: Memory)
    requires |av| >= 5
    ensures var d := LoginStored(peer, fs, av, awaits, transfer, m);
            LoginLine(peer, av, m, d) &&
            if d.code in {200, 201} then d.files == fs
            else d.pushed == [] && (d.files == fs || (d.files == Unlink(fs, m.gone) && transfer.Mismatch? && d.code == 505))
  {
  }

  lemma AgainDoes(cfg: Config, fs: Files, e: Event)
    requires e.cmd.LOGIN? && |e.cmd.av| >= 5 && IsLogin(fs, e.cmd.av[1]) && MkCookie.PathOk(cfg.hashlen, e.cmd.av[1])
    ensures LoginEffect(cfg, fs, e, LoginAgain(e.peer, e.now, fs, e.cmd.av, e.cmd.krbpath, e.cmd.transfer, e.cmd.memory))
  {
    var av, was := e.cmd.av, fs[e.cmd.av[1]];
    var next := fs[av[1] := Renewed(was, av, e.cmd.krbpath, e.now)];
    StoredDoes(e.peer, next, av, Kerberos(av) && was.ticket == "", e.cmd.transfer, e.cmd.memory);
  }

  lemma FirstDoes(cfg: Config, fs: Files, e: Event)
    requires e.cmd.LOGIN? && |e.cmd.av| >= 5 && !IsLogin(fs, e.cmd.av[1]) && MkCookie.PathOk(cfg.hashlen, e.cmd.av[1])
    ensures LoginEffect(cfg, fs, e, LoginFirst(cfg, e.peer, e.now, fs, e.cmd.av, e.cmd.krbpath, e.cmd.transfer, e.cmd.memory))
  {
    var av := e.cmd.av;
    var next := fs[av[1] := FirstRecord(av, e.cmd.krbpath, e.now)];
    StoredDoes(e.peer, next, av, Kerberos(av), e.cmd.transfer, e.cmd.memory);
  }

  lemma LoginDoes(cfg: Config, fs: Files, e: Event)
    requires e.cmd.LOGIN?
    ensures LoginEffect(cfg, fs, e, Exec(cfg, fs, e))
  {
    var av := e.cmd.av;
    if |av| >= 5 && MkCookie.PathOk(cfg.hashlen, av[1]) {
      if IsLogin(fs, av[1]) { AgainDoes(cfg, fs, e); } else { FirstDoes(cfg, fs, e); }
    }
  }

  lemma LogoutDoes(cfg: Config, fs: Files, e: Event)
    requires e.cmd.LOGOUT?
    ensures var d, av := Exec(cfg, fs, e), e.cmd.av;
            || (d.files == fs && d.pushed == [] && d.code != 210)
            || (&& |av| == 3 && MkCookie.PathOk(cfg.hashlen, av[1]) && IsLogin(fs, av[1]) && fs[av[1]].live
                && d.files == Logout(fs, av[1], e.now) && d.code == 210 && d.pushed == Push(e.peer, ["LOGOUT", av[1], av[2]]))
  {
  }

  lemma RegisterDoes(cfg: Config, fs: Files, e: Event)
    requires e.cmd.REGISTER?
    ensures var d, av := Exec(cfg, fs, e), e.cmd.av;
            if RegisterIdlesOut(cfg, fs, e.peer, e.now, av) then d.files == Logout(fs, av[1], e.now) && d.pushed == [] && d.code == 422
            else
              || (d.files == fs && d.pushed == [])
              || (&& |av| == 4 && MkCookie.PathOk(cfg.hashlen, av[1]) && MkCookie.PathOk(cfg.hashlen, av[3])
                  && IsLogin(fs, av[1]) && fs[av[1]].live && IdleState(cfg, e.now, fs[av[1]].mtime).Active? && CanLink(cfg.hashlen, fs, av[3])
                  && d.files == DoRegister(cfg.hashlen, fs, e.now, av[1], av[3]) && d.pushed == Push(e.peer, ["REGISTER", av[1], av[2], av[3]]))
  {
  }

  /** The look-up of the login cookie behind it, rekey being the service cookie to rename. */
  ghost predicate RecordEffect(cfg: Config, fs: Files, now: int, l: string, rekey: Option<string>, minted: string, d: Done)
    requires rekey.Some? ==> IsService(fs, rekey.value)
  {
    && d.pushed == []
    && if TimedOut(cfg, fs, now, l) then d.files == Logout(fs, l, now) && d.code == 431
       else if !IsLogin(fs, l) || !fs[l].live || !IdleState(cfg, now, fs[l].mtime).Active? then d.files == fs && d.code >= 400
       else if rekey.Some? && |Rekeyed(rekey.value, minted)| < 256 && MkCookie.Housed(cfg.hashlen, Rekeyed(rekey.value, minted)) then
         d.code == 233 && d.files == Renamed(Touch(fs, l, now), rekey.value, Rekeyed(rekey.value, minted))
       else d.code != 233 && d.files == Touch(fs, l, now)
  }

  lemma RecordDoes(cfg: Config, peer: Peer, fs: Files, now: int, l: string, rekey: Option<string>, minted: string, code: int)
    requires (rekey.Some? ==> IsService(fs, rekey.value)) && code != 233
    ensures RecordEffect(cfg, fs, now, l, rekey, minted, CheckLogin(cfg, peer, now, fs, l, rekey, minted, code))
  {
  }

  /** What a CHECK or REKEY does, with the service cookie that it renames if it gets so far. */
  ghost predicate CheckEffect(cfg: Config, fs: Files, e: Event, d: Done)
    requires e.cmd.CHECK?
  {
    var l := CheckedLogin(cfg, fs, e.peer, e.cmd.cookie, e.cmd.allowed);
    && d.pushed == [] && (d.code == 233 <==> Renames(cfg, fs, e))
    && if CheckIdlesOut(cfg, fs, e) then d.files == Logout(fs, l.value, e.now)
       else if Renames(cfg, fs, e) then
         IsService(fs, e.cmd.cookie) && d.files == Renamed(Touch(fs, l.value, e.now), e.cmd.cookie, Rekeyed(e.cmd.cookie, e.cmd.minted))
       else d.files == fs || (l.Some? && IsLogin(fs, l.value) && fs[l.value].live && IdleState(cfg, e.now, fs[l.value].mtime).Active? &&
                              d.files == Touch(fs, l.value, e.now))
  }

  lemma ServiceCheckDoes(cfg: Config, fs: Files, e: Event)
    requires e.cmd.CHECK? && "cosign-" <= e.cmd.cookie
    ensures CheckEffect(cfg, fs, e, Exec(cfg, fs, e))
  {
    var l := CheckedLogin(cfg, fs, e.peer, e.cmd.cookie, e.cmd.allowed);
    if l.Some? {
      RecordDoes(cfg, e.peer, fs, e.now, l.value, if e.cmd.rekey && SupportsRekey(e.peer.protocol) then Some(e.cmd.cookie) else None, e.cmd.minted, 231);
    }
  }

  lemma CheckDoes(cfg: Config, fs: Files, e: Event)
    requires e.cmd.CHECK?
    ensures CheckEffect(cfg, fs, e, Exec(cfg, fs, e))
  {
    if "cosign-" <= e.cmd.cookie {
      ServiceCheckDoes(cfg, fs, e);
    } else if CheckedLogin(cfg, fs, e.peer, e.cmd.cookie, e.cmd.allowed).Some? {
      RecordDoes(cfg, e.peer, fs, e.now, e.cmd.cookie, None, e.cmd.minted, 232);
    }
  }

  /** The login whose proxy cookies a RETR registers. */
  predicate Retrieves(cfg: Config, fs: Files, e: Event)
    requires e.cmd.RETR?
  {
    var av := e.cmd.av;
    && |av| == 3 && IsService(fs, av[1]) && e.cmd.proxies.Some? && MkCookie.PathOk(cfg.hashlen, fs[av[1]].login)
    && var l := fs[av[1]].login; IsLogin(fs, l) && fs[l].live && IdleState(cfg, e.now, fs[l].mtime).Active?
  }

  lemma RetrDoes(cfg: Config, fs: Files, e: Event)
    requires e.cmd.RETR?
    ensures var d, av := Exec(cfg, fs, e), e.cmd.av;
            if RetrIdlesOut(cfg, fs, e) then d.files == Logout(fs, fs[av[1]].login, e.now) && d.pushed == []
            else
              || (d.files == fs && d.pushed == [])
              || (Retrieves(cfg, fs, e) && d == Proxies(cfg, e.peer, e.now, fs, fs[av[1]].login, e.cmd.proxies.value))
  {
  }

  lemma TimeDoes(cfg: Config, fs: Files, e: Event)
    requires e.cmd.TIME?
    ensures var d := Exec(cfg, fs, e);
            d.pushed == [] && (d.files == fs || d.files == TimeLines(cfg, e.now, fs, e.cmd.lines))
  {
  }
}
