/** What every command, and so every run of commands, keeps. */
module Laws {
  import opened Text
  import opened Commands
  import opened Effects
  import MkCookie
  import Seqs

  /**
   What happens to a file that stays: a service cookie keeps its binding; a login record keeps
   its user and first address and its ticket, never loses a factor, and never comes alive again.
   */
  ghost predicate Persists(a: File, b: File) {
    match a
    case Service(_) => b == a
    case Login(_, _, _, _, _, _, _, _) =>
      && b.Login?
      && b.user == a.user && b.ip == a.ip
      && (a.ticket != "" ==> b.ticket == a.ticket)
      && Factors(a) <= Factors(b)
      && (b.live ==> a.live)
  }

  lemma PersistsTransitive(a: File, b: File, c: File)
    requires Persists(a, b) && Persists(b, c)
    ensures Persists(a, c)
  {
  }

  /** The factors of a record that a LOGIN writes: exactly the old ones, then the new ones not among them. */
  lemma NewRecordFactors(fs: Files, e: Event)
    requires e.cmd.LOGIN? && |e.cmd.av| >= 5 && AllWords(e.cmd.av)
    ensures var av, rec := e.cmd.av, NewRecord(fs, e);
            Factors(rec) == if IsLogin(fs, av[1]) then Factors(fs[av[1]]) + Missing(Named(av), Factors(fs[av[1]])) else Named(av)
  {
    var av := e.cmd.av;
    NamedAreWords(av);
    if IsLogin(fs, av[1]) {
      var have := Factors(fs[av[1]]);
      TokensAreWords(fs[av[1]].realm);
      MissingAreWords(Named(av), have);
      TokensOfList(have + Missing(Named(av), have));
    } else {
      TokensOfList(Named(av));
    }
  }

  /** The record a successful LOGIN leaves: exactly the old factors, then the new ones not among them. */
  lemma LoginAddsFactors(cfg: Config, fs: Files, e: Event)
    requires e.cmd.LOGIN? && Regular(fs, e) && Exec(cfg, fs, e).code in {200, 201}
    ensures var av := e.cmd.av; var fs' := Exec(cfg, fs, e).files;
            && |av| >= 5 && IsLogin(fs', av[1]) && fs'[av[1]].live && fs'[av[1]].user == av[3]
            && fs'[av[1]].cur == av[2] && fs'[av[1]].mtime == e.now
            && (av[1] in fs ==> IsLogin(fs, av[1]) && fs[av[1]].live && fs[av[1]].user == av[3])
            && fs'[av[1]].ip == (if av[1] in fs then fs[av[1]].ip else av[2])
            && fs' == fs[av[1] := fs'[av[1]]]
            && Factors(fs'[av[1]]) == if IsLogin(fs, av[1]) then Factors(fs[av[1]]) + Missing(Named(av), Factors(fs[av[1]]))
                                      else Named(av)
  {
    LoginDoes(cfg, fs, e);
    NewRecordFactors(fs, e);
  }

  lemma NamedAreWords(av: seq<string>)
    requires |av| >= 5 && AllWords(av)
    ensures AllWords(Named(av)) && Named(av) != []
  {
  }

  lemma {:induction false} MissingAreWords(more: seq<string>, have: seq<string>)
    requires AllWords(more)
    ensures AllWords(Missing(more, have))
    ensures forall w :: w in Missing(more, have) <==> w in more && w !in have
  {
    if more != [] {
      Seqs.Cons(more);
      MissingAreWords(more[1..], have);
    }
  }

  lemma UpdatePersists(fs: Files, key: string, rec: File, n: string)
    requires n in fs && (key in fs ==> Persists(fs[key], rec))
    ensures n in fs[key := rec] && Persists(fs[n], fs[key := rec][n])
  {
  }

  lemma LoginPersists(cfg: Config, fs: Files, e: Event, n: string)
    requires e.cmd.LOGIN? && Regular(fs, e) && n in fs && n in Exec(cfg, fs, e).files
    ensures Persists(fs[n], Exec(cfg, fs, e).files[n])
  {
    LoginDoes(cfg, fs, e);
    if |e.cmd.av| >= 5 && IsLogin(fs, e.cmd.av[1]) && fs[e.cmd.av[1]].live && fs[e.cmd.av[1]].user == e.cmd.av[3] {
      NewRecordFactors(fs, e);
      UpdatePersists(fs, e.cmd.av[1], NewRecord(fs, e), n);
    }
  }

  lemma LogoutPersists(cfg: Config, fs: Files, e: Event, n: string)
    requires e.cmd.LOGOUT? && n in fs
    ensures n in Exec(cfg, fs, e).files && Persists(fs[n], Exec(cfg, fs, e).files[n])
  {
    LogoutDoes(cfg, fs, e);
  }

  lemma RegisterPersists(cfg: Config, fs: Files, e: Event, n: string)
    requires e.cmd.REGISTER? && n in fs
    ensures n in Exec(cfg, fs, e).files && Persists(fs[n], Exec(cfg, fs, e).files[n])
  {
    RegisterDoes(cfg, fs, e);
  }

  lemma RetrPersists(cfg: Config, fs: Files, e: Event, n: string)
    requires e.cmd.RETR? && n in fs
    ensures n in Exec(cfg, fs, e).files && Persists(fs[n], Exec(cfg, fs, e).files[n])
  {
    RetrDoes(cfg, fs, e);
    if Retrieves(cfg, fs, e) {
      ProxiesPersist(cfg, e.peer, e.now, fs, fs[e.cmd.av[1]].login, e.cmd.proxies.value, n);
    }
  }

  lemma {:induction false} ProxiesPersist(cfg: Config, peer: Peer, now: int, fs: Files, login: string, names: seq<string>, n: string)
    requires n in fs
    ensures n in Proxies(cfg, peer, now, fs, login, names).files
    ensures Persists(fs[n], Proxies(cfg, peer, now, fs, login, names).files[n])
    decreases |names|
  {
    if names != [] && MkCookie.PathOk(cfg.hashlen, names[0]) {
      var fs1 := DoRegister(cfg.hashlen, fs, now, login, names[0]);
      assert n in fs1 && Persists(fs[n], fs1[n]);
      ProxiesPersist(cfg, peer, now, fs1, login, names[1..], n);
      PersistsTransitive(fs[n], fs1[n], Proxies(cfg, peer, now, fs1, login, names[1..]).files[n]);
    }
  }

  lemma TimeLinePersists(cfg: Config, now: int, fs: Files, line: string, n: string)
    requires n in fs
    ensures n in TimeLine(cfg, now, fs, line) && Persists(fs[n], TimeLine(cfg, now, fs, line)[n])
  {
  }

  lemma {:induction false} TimePersists(cfg: Config, now: int, fs: Files, lines: seq<string>, n: string)
    requires n in fs
    ensures n in TimeLines(cfg, now, fs, lines) && Persists(fs[n], TimeLines(cfg, now, fs, lines)[n])
    decreases |lines|
  {
    if lines != [] && !IsDot(lines[0]) {
      var fs1 := TimeLine(cfg, now, fs, lines[0]);
      TimeLinePersists(cfg, now, fs, lines[0], n);
      TimePersists(cfg, now, fs1, lines[1..], n);
      PersistsTransitive(fs[n], fs1[n], TimeLines(cfg, now, fs1, lines[1..])[n]);
    }
  }

  lemma CheckPersists(cfg: Config, fs: Files, e: Event, n: string)
    requires e.cmd.CHECK? && Regular(fs, e) && n in fs && n in Exec(cfg, fs, e).files
    ensures Persists(fs[n], Exec(cfg, fs, e).files[n])
  {
    CheckDoes(cfg, fs, e);
  }

  lemma TimePersistsToo(cfg: Config, fs: Files, e: Event, n: string)
    requires e.cmd.TIME? && n in fs
    ensures n in Exec(cfg, fs, e).files && Persists(fs[n], Exec(cfg, fs, e).files[n])
  {
    TimeDoes(cfg, fs, e);
    TimePersists(cfg, e.now, fs, e.cmd.lines, n);
  }

  /** No command changes the identity of a file that it leaves in place. */
  lemma StepPersists(cfg: Config, fs: Files, e: Event, n: string)
    requires Regular(fs, e) && n in fs && n in Exec(cfg, fs, e).files
    ensures Persists(fs[n], Exec(cfg, fs, e).files[n])
  {
    match e.cmd
    case LOGIN(_, _, _, _) => LoginPersists(cfg, fs, e, n);
    case LOGOUT(_) => LogoutPersists(cfg, fs, e, n);
    case REGISTER(_) => RegisterPersists(cfg, fs, e, n);
    case CHECK(_, _, _, _) => CheckPersists(cfg, fs, e, n);
    case RETR(_, _, _, _) => RetrPersists(cfg, fs, e, n);
    case TIME(_, _) => TimePersistsToo(cfg, fs, e, n);
  }

  /** Only a REKEY of the file itself, or a LOGIN whose ticket went wrong and under whose overwritten name unlink(2) finds it, removes a file. */
  lemma WhatRemoves(cfg: Config, fs: Files, e: Event, n: string)
    requires n in fs && n !in Exec(cfg, fs, e).files
    ensures || (e.cmd.CHECK? && e.cmd.cookie == n && Renames(cfg, fs, e))
            || (Unlinks(e, n) && Exec(cfg, fs, e).code == 505)
  {
    match e.cmd
    case LOGIN(_, _, _, _) => LoginDoes(cfg, fs, e);
    case LOGOUT(_) => LogoutPersists(cfg, fs, e, n);
    case REGISTER(_) => RegisterPersists(cfg, fs, e, n);
    case CHECK(_, _, _, _) => CheckDoes(cfg, fs, e);
    case RETR(_, _, _, _) => RetrPersists(cfg, fs, e, n);
    case TIME(_, _) => TimePersistsToo(cfg, fs, e, n);
  }

  /** However many words there are, 530 is never the answer: a line without a cookie ends the process, and words behind the cookie are not looked at. */
  lemma WordsAreNotCounted(cfg: Config, peer: Peer, now: int, fs: Files, av: seq<string>, rekey: bool, allowed: bool, minted: string)
    ensures var d := CheckWords(cfg, peer, now, fs, av, rekey, allowed, minted);
            && (d.None? <==> (peer.key.CGI? || peer.key.SERVICE?) && |av| < 2)
            && (d.Some? ==> d.value.code != 530)
            && (|av| >= 2 ==> d == CheckWords(cfg, peer, now, fs, av[..2], rekey, allowed, minted))
  {
    if |av| >= 2 {
      CheckCodes(cfg, fs, Event(peer, now, CHECK(av[1], rekey, allowed, minted)));
    }
  }

  lemma CheckCodes(cfg: Config, fs: Files, e: Event)
    requires e.cmd.CHECK?
    ensures Exec(cfg, fs, e).code in {231, 232, 233, 430, 431, 432, 531, 532, 533, 534, 536}
  {
  }

  // ---------------------------------------------------------------- runs

  /** Every event is regular when it comes, and n is there before and after it. */
  ghost predicate Stays(cfg: Config, fs: Files, es: seq<Event>, n: string)
    decreases |es|
  {
    && n in fs
    && (es != [] ==> Regular(fs, es[0]) && Stays(cfg, Exec(cfg, fs, es[0]).files, es[1..], n))
  }

  lemma {:induction false} RunPersists(cfg: Config, fs: Files, es: seq<Event>, n: string)
    requires Stays(cfg, fs, es, n)
    ensures n in Run(cfg, fs, es) && Persists(fs[n], Run(cfg, fs, es)[n])
    decreases |es|
  {
    if es != [] {
      var fs1 := Exec(cfg, fs, es[0]).files;
      StepPersists(cfg, fs, es[0], n);
      RunPersists(cfg, fs1, es[1..], n);
      PersistsTransitive(fs[n], fs1[n], Run(cfg, fs1, es[1..])[n]);
    }
  }

  /** A CHECK or REKEY of a logged-out login, or of a service cookie bound to it, is never answered with 2xx. */
  lemma DeadNeverPasses(cfg: Config, fs: Files, e: Event, l: string)
    requires IsDead(fs, l) && e.cmd.CHECK?
    requires e.cmd.cookie == l || (e.cmd.cookie in fs && fs[e.cmd.cookie] == Service(l))
    ensures !Passed(Exec(cfg, fs, e)) && Exec(cfg, fs, e).files == fs
  {
  }

  /**
   Logging out is final: after a LOGOUT that was answered 210 and any further commands, as long
   as the record stays, it is dead and no CHECK of it or of a service cookie bound to it passes.
   */
  lemma LogoutIsFinal(cfg: Config, fs: Files, logout: Event, es: seq<Event>, check: Event, l: string)
    requires logout.cmd.LOGOUT? && |logout.cmd.av| == 3 && logout.cmd.av[1] == l
    requires Exec(cfg, fs, logout).code == 210
    requires Stays(cfg, Exec(cfg, fs, logout).files, es, l)
    ensures var end := Run(cfg, Exec(cfg, fs, logout).files, es);
            && IsDead(end, l)
            && (check.cmd.CHECK? && (check.cmd.cookie == l || (check.cmd.cookie in end && end[check.cmd.cookie] == Service(l)))
                ==> !Passed(Exec(cfg, end, check)))
  {
    var out := Exec(cfg, fs, logout).files;
    RunPersists(cfg, out, es, l);
    var end := Run(cfg, out, es);
    if check.cmd.CHECK? && (check.cmd.cookie == l || (check.cmd.cookie in end && end[check.cmd.cookie] == Service(l))) {
      DeadNeverPasses(cfg, end, check, l);
    }
  }

  // ---------------------------------------------------------------- bindings

  function Services(fs: Files): set<string> { set n | n in fs && fs[n].Service? }

  lemma RenameMoves(fs: Files, login: string, now: int, from: string, to: string)
    requires IsService(fs, from) && to !in fs
    ensures var fs' := Renamed(Touch(fs, login, now), from, to);
            && from !in fs' && to in fs' && fs'[to] == fs[from]
            && Services(fs') == Services(fs) - {from} + {to} && |Services(fs')| == |Services(fs)|
            && forall n :: n in Services(fs) && n != from ==> fs'[n] == fs[n]
  {
    var fs' := Renamed(Touch(fs, login, now), from, to);
    assert from in Services(fs) && to !in Services(fs);
    assert Services(fs') == Services(fs) - {from} + {to};
  }

  /** REKEY to a fresh name moves the binding there, takes it from the old name, and makes no other. */
  lemma RekeyMovesBinding(cfg: Config, fs: Files, e: Event)
    requires e.cmd.CHECK? && Regular(fs, e) && Exec(cfg, fs, e).code == 233
    ensures e.cmd.rekey
    ensures var from, to, fs' := e.cmd.cookie, Rekeyed(e.cmd.cookie, e.cmd.minted), Exec(cfg, fs, e).files;
            && IsService(fs, from) && from !in fs'
            && to in fs' && fs'[to] == fs[from]
            && Services(fs') == Services(fs) - {from} + {to}
            && |Services(fs')| == |Services(fs)|
            && forall n :: n in Services(fs) && n != from ==> fs'[n] == fs[n]
  {
    var from, to := e.cmd.cookie, Rekeyed(e.cmd.cookie, e.cmd.minted);
    CheckDoes(cfg, fs, e);
    RenameMoves(fs, fs[from].login, e.now, from, to);
  }

  /** Some service cookie is bound to the name. */
  ghost predicate Bound(fs: Files, l: string) { exists m :: IsService(fs, m) && fs[m].login == l }

  lemma {:induction false} ProxiesBind(cfg: Config, peer: Peer, now: int, fs: Files, login: string, names: seq<string>, n: string)
    requires IsService(Proxies(cfg, peer, now, fs, login, names).files, n)
    ensures var f := Proxies(cfg, peer, now, fs, login, names).files[n]; f.login == login || (IsService(fs, n) && fs[n] == f)
    decreases |names|
  {
    if names != [] && MkCookie.PathOk(cfg.hashlen, names[0]) {
      ProxiesBind(cfg, peer, now, DoRegister(cfg.hashlen, fs, now, login, names[0]), login, names[1..], n);
    }
  }

  lemma {:induction false} TimeBinds(cfg: Config, now: int, fs: Files, lines: seq<string>, n: string)
    requires IsService(TimeLines(cfg, now, fs, lines), n)
    ensures IsService(fs, n) && fs[n] == TimeLines(cfg, now, fs, lines)[n]
    decreases |lines|
  {
    if lines != [] && !IsDot(lines[0]) {
      TimeBinds(cfg, now, TimeLine(cfg, now, fs, lines[0]), lines[1..], n);
    }
  }

  lemma RetrBinds(cfg: Config, fs: Files, e: Event, n: string)
    requires e.cmd.RETR? && IsService(Exec(cfg, fs, e).files, n)
    ensures Bound(fs, Exec(cfg, fs, e).files[n].login)
  {
    RetrDoes(cfg, fs, e);
    if Retrieves(cfg, fs, e) && Exec(cfg, fs, e).files != fs && !RetrIdlesOut(cfg, fs, e) {
      ProxiesBind(cfg, e.peer, e.now, fs, fs[e.cmd.av[1]].login, e.cmd.proxies.value, n);
    }
  }

  lemma CheckBinds(cfg: Config, fs: Files, e: Event, n: string)
    requires e.cmd.CHECK? && IsService(Exec(cfg, fs, e).files, n)
    ensures Bound(fs, Exec(cfg, fs, e).files[n].login)
  {
    CheckDoes(cfg, fs, e);
    assert IsService(fs, n) || IsService(fs, e.cmd.cookie);
  }

  /** After a command a service cookie is bound to a login that one was bound to before, or to the login of the REGISTER. */
  lemma StepBinds(cfg: Config, fs: Files, e: Event, n: string)
    requires IsService(Exec(cfg, fs, e).files, n)
    ensures var l := Exec(cfg, fs, e).files[n].login;
            Bound(fs, l) || (e.cmd.REGISTER? && |e.cmd.av| == 4 && l == e.cmd.av[1] && n == e.cmd.av[3] && MkCookie.PathOk(cfg.hashlen, l))
  {
    match e.cmd
    case LOGIN(_, _, _, _) =>
      LoginDoes(cfg, fs, e);
      assert IsService(fs, n);
    case LOGOUT(_) =>
      LogoutDoes(cfg, fs, e);
      assert IsService(fs, n);
    case REGISTER(_) =>
      RegisterDoes(cfg, fs, e);
      assert IsService(fs, n) || n == e.cmd.av[3];
    case CHECK(_, _, _, _) => CheckBinds(cfg, fs, e, n);
    case RETR(_, _, _, _) => RetrBinds(cfg, fs, e, n);
    case TIME(_, lines) =>
      TimeDoes(cfg, fs, e);
      if Exec(cfg, fs, e).files != fs {
        TimeBinds(cfg, e.now, fs, lines, n);
      }
      assert IsService(fs, n);
  }

  // ---------------------------------------------------------------- names

  /** Every file has a name with a directory. */
  ghost predicate AllHoused(hashlen: int, fs: Files) { forall n :: n in fs ==> MkCookie.Housed(hashlen, n) }

  lemma {:induction false} ProxiesHoused(cfg: Config, peer: Peer, now: int, fs: Files, login: string, names: seq<string>, n: string)
    requires n in Proxies(cfg, peer, now, fs, login, names).files
    ensures n in fs || MkCookie.Housed(cfg.hashlen, n)
    decreases |names|
  {
    if names != [] && MkCookie.PathOk(cfg.hashlen, names[0]) {
      ProxiesHoused(cfg, peer, now, DoRegister(cfg.hashlen, fs, now, login, names[0]), login, names[1..], n);
    }
  }

  lemma {:induction false} TimeMakesNone(cfg: Config, now: int, fs: Files, lines: seq<string>, n: string)
    requires n in TimeLines(cfg, now, fs, lines)
    ensures n in fs
    decreases |lines|
  {
    if lines != [] && !IsDot(lines[0]) {
      TimeMakesNone(cfg, now, TimeLine(cfg, now, fs, lines[0]), lines[1..], n);
    }
  }

  /** No command makes a file under a name without a directory. */
  lemma NewNameHoused(cfg: Config, fs: Files, e: Event, n: string)
    requires n !in fs && n in Exec(cfg, fs, e).files
    ensures MkCookie.Housed(cfg.hashlen, n)
  {
    match e.cmd
    case LOGIN(_, _, _, _) => LoginDoes(cfg, fs, e);
    case LOGOUT(_) => LogoutDoes(cfg, fs, e);
    case REGISTER(_) => RegisterDoes(cfg, fs, e);
    case CHECK(_, _, _, _) => CheckDoes(cfg, fs, e);
    case RETR(_, _, _, _) => RetrHoused(cfg, fs, e, n);
    case TIME(_, lines) =>
      TimeDoes(cfg, fs, e);
      if Exec(cfg, fs, e).files != fs {
        TimeMakesNone(cfg, e.now, fs, lines, n);
      }
  }

  lemma RetrHoused(cfg: Config, fs: Files, e: Event, n: string)
    requires e.cmd.RETR? && n !in fs && n in Exec(cfg, fs, e).files
    ensures MkCookie.Housed(cfg.hashlen, n)
  {
    RetrDoes(cfg, fs, e);
    if Retrieves(cfg, fs, e) {
      ProxiesHoused(cfg, e.peer, e.now, fs, fs[e.cmd.av[1]].login, e.cmd.proxies.value, n);
    }
  }

  lemma AllHousedKept(cfg: Config, fs: Files, e: Event)
    requires AllHoused(cfg.hashlen, fs)
    ensures AllHoused(cfg.hashlen, Exec(cfg, fs, e).files)
  {
    forall n | n in Exec(cfg, fs, e).files ensures MkCookie.Housed(cfg.hashlen, n) {
      if n !in fs { NewNameHoused(cfg, fs, e, n); }
    }
  }

  lemma {:induction false} RunHoused(cfg: Config, fs: Files, es: seq<Event>)
    requires AllHoused(cfg.hashlen, fs)
    ensures AllHoused(cfg.hashlen, Run(cfg, fs, es))
    decreases |es|
  {
    if es != [] {
      AllHousedKept(cfg, fs, es[0]);
      RunHoused(cfg, Exec(cfg, fs, es[0]).files, es[1..]);
    }
  }

  /** The cookie that passes both checks and has no directory is never stored: the REGISTER of it gets no answer. */
  lemma HomelessIsNeverStored(cfg: Config, es: seq<Event>, e: Event)
    requires 1 <= cfg.hashlen <= 2
    ensures var fs := Run(cfg, map[], es);
            && MkCookie.HOMELESS !in fs
            && (e.cmd.REGISTER? && |e.cmd.av| == 4 && e.cmd.av[3] == MkCookie.HOMELESS
                && MkCookie.PathOk(cfg.hashlen, e.cmd.av[1]) && e.peer.key.CGI? && IsLogin(fs, e.cmd.av[1]) && fs[e.cmd.av[1]].live
                && IdleState(cfg, e.now, fs[e.cmd.av[1]].mtime).Active?
                ==> Exec(cfg, fs, e) == Refuse(fs, NO_REPLY))
  {
    RunHoused(cfg, map[], es);
    MkCookie.AcceptedButHomeless(cfg.hashlen);
  }
}
