/**
 The daemon process: handlers that change the cookie store in place, each proved to do what
 the corresponding function of Commands says.
 */
module Cosignd {
  import opened Text
  import opened Commands
  import opened Effects
  import opened Laws
  import MkCookie
  import Ticket
  import Seqs

  lemma {:induction false} MissingAppend(more: seq<string>, w: string, have: seq<string>)
    ensures Missing(more + [w], have) == Missing(more, have) + (if w in have then [] else [w])
    decreases |more|
  {
    if more == [] {
      Seqs.Nil([w]);
      assert [w][1..] == [];
    } else {
      Seqs.TailOfCat(more, [w]);
      MissingAppend(more[1..], w, have);
      Seqs.Assoc(if more[0] in have then [] else [more[0]], Missing(more[1..], have), if w in have then [] else [w]);
    }
  }

  lemma MissingNext(more: seq<string>, i: nat, have: seq<string>)
    requires i < |more|
    ensures Missing(more[..i + 1], have) == Missing(more[..i], have) + (if more[i] in have then [] else [more[i]])
  {
    assert more[..i + 1] == more[..i] + [more[i]];
    MissingAppend(more[..i], more[i], have);
  }

  /** Every login record names a factor. */
  ghost predicate AllNamed(fs: Files) { forall n :: n in fs && fs[n].Login? ==> Factors(fs[n]) != [] }

  /** No command makes a record without a factor. */
  lemma AllNamedKept(cfg: Config, fs: Files, e: Event)
    requires AllNamed(fs) && Regular(fs, e)
    ensures AllNamed(Exec(cfg, fs, e).files)
  {
    var fs' := Exec(cfg, fs, e).files;
    forall n | n in fs' && fs'[n].Login? ensures Factors(fs'[n]) != [] {
      if n in fs {
        StepPersists(cfg, fs, e, n);
      } else {
        OnlyLoginCreates(cfg, fs, e, n);
        NamedAreWords(e.cmd.av);
        TokensOfList(Named(e.cmd.av));
      }
    }
  }

  /** A new login record can only come from LOGIN. */
  lemma OnlyLoginCreates(cfg: Config, fs: Files, e: Event, n: string)
    requires n !in fs && IsLogin(Exec(cfg, fs, e).files, n)
    ensures e.cmd.LOGIN? && |e.cmd.av| >= 5 && n == e.cmd.av[1]
    ensures Exec(cfg, fs, e).files[n].realm == Join(Named(e.cmd.av))
  {
    match e.cmd
    case LOGIN(_, _, _, _) => LoginDoes(cfg, fs, e);
    case LOGOUT(_) => LogoutDoes(cfg, fs, e);
    case REGISTER(_) => RegisterDoes(cfg, fs, e);
    case CHECK(_, _, _, _) => CheckDoes(cfg, fs, e);
    case RETR(av, _, _, proxies) => RetrCreates(cfg, fs, e, n);
    case TIME(_, lines) =>
      TimeDoes(cfg, fs, e);
      TimeCreates(cfg, e.now, fs, lines, n);
  }

  lemma RetrCreates(cfg: Config, fs: Files, e: Event, n: string)
    requires e.cmd.RETR? && !IsLogin(fs, n)
    ensures !IsLogin(Exec(cfg, fs, e).files, n)
  {
    RetrDoes(cfg, fs, e);
    if Retrieves(cfg, fs, e) {
      ProxiesCreate(cfg, e.peer, e.now, fs, fs[e.cmd.av[1]].login, e.cmd.proxies.value, n);
    }
  }

  lemma {:induction false} ProxiesCreate(cfg: Config, peer: Peer, now: int, fs: Files, login: string, names: seq<string>, n: string)
    requires !IsLogin(fs, n)
    ensures !IsLogin(Proxies(cfg, peer, now, fs, login, names).files, n)
    decreases |names|
  {
    if names != [] && MkCookie.PathOk(cfg.hashlen, names[0]) {
      ProxiesCreate(cfg, peer, now, DoRegister(cfg.hashlen, fs, now, login, names[0]), login, names[1..], n);
    }
  }

  lemma {:induction false} TimeCreates(cfg: Config, now: int, fs: Files, lines: seq<string>, n: string)
    requires !IsLogin(fs, n)
    ensures !IsLogin(TimeLines(cfg, now, fs, lines), n)
    decreases |lines|
  {
    if lines != [] && !IsDot(lines[0]) {
      TimeCreates(cfg, now, TimeLine(cfg, now, fs, lines[0]), lines[1..], n);
    }
  }

  /** What the first of the proxy cookies adds. */
  lemma ProxiesNext(cfg: Config, peer: Peer, now: int, fs: Files, login: string, names: seq<string>)
    requires names != [] && MkCookie.PathOk(cfg.hashlen, names[0])
    ensures var d, rest := Proxies(cfg, peer, now, fs, login, names), Proxies(cfg, peer, now, DoRegister(cfg.hashlen, fs, now, login, names[0]), login, names[1..]);
            && d.files == rest.files && d.code == rest.code
            && d.pushed == (if names[0] in fs || MkCookie.Housed(cfg.hashlen, names[0]) then Push(peer, ["REGISTER", login, "-", names[0]]) else []) + rest.pushed
  {
  }

  class Daemon {
    const cfg: Config
    const pushing: bool
    const hostname: string
    var files: Files
    var key: Key
    var protocol: int
    var replicated: bool
    var pushed: seq<seq<string>>        // what the pusher has been told

    constructor (cfg: Config, pushing: bool, hostname: string)
      ensures files == map[] && pushed == [] && !replicated && key == OTHER && protocol == 0
      ensures this.cfg == cfg && this.pushing == pushing && this.hostname == hostname
    {
      this.cfg, this.pushing, this.hostname := cfg, pushing, hostname;
      files, pushed, replicated, key, protocol := map[], [], false, OTHER, 0;
    }

    function Peer(): Commands.Peer
      reads this
    {
      Commands.Peer(key, protocol, replicated, pushing)
    }

    /** The store, the reply and the pusher are as the function says. */
    twostate predicate Did(d: Done, code: int)
      reads this
    {
      && files == d.files && code == d.code && pushed == old(pushed) + d.pushed
      && key == old(key) && protocol == old(protocol) && replicated == old(replicated)
    }

    /** snet_writef( pushersn, .. ), unless the command came from another daemon. */
    method Tell(line: seq<string>)
      modifies this`pushed
      ensures pushed == old(pushed) + Push(Peer(), line)
    {
      if pushing && !replicated {
        pushed := pushed + [line];
      }
    }

    /** The factors that a record has already. */
    method OldFactors(fv: seq<string>) returns (realm: string)
      requires fv != []
      ensures realm == Join(fv)
    {
      realm := fv[0];
      assert fv[..1] == [fv[0]];
      for i := 1 to |fv|
        invariant realm == Join(fv[..i])
      {
        JoinAppend(fv[..i], fv[i]);
        assert fv[..i] + [fv[i]] == fv[..i + 1];
        realm := realm + " " + fv[i];
      }
      assert fv[..|fv|] == fv;
    }

    /** The inner loop over the old factors. */
    method Has(fv: seq<string>, w: string) returns (yes: bool)
      ensures yes == (w in fv)
    {
      var j := 0;
      while j < |fv|
        invariant j <= |fv| && w !in fv[..j]
      {
        if fv[j] == w {
          return true;
        }
        j := j + 1;
        assert fv[..j] == fv[..j - 1] + [fv[j - 1]];
      }
      assert fv[..j] == fv;
      return false;
    }

    /** The realm line of a record that is written again: old factors, then those of more not among them. */
    method RealmLine(fv: seq<string>, more: seq<string>) returns (realm: string, newinfo: bool)
      requires fv != []
      ensures realm == Join(fv + Missing(more, fv))
      ensures newinfo == (Missing(more, fv) != [])
    {
      realm := OldFactors(fv);
      Seqs.Nil(fv);
      newinfo := false;
      for i := 0 to |more|
        invariant realm == Join(fv + Missing(more[..i], fv))
        invariant newinfo == (Missing(more[..i], fv) != [])
      {
        var has := Has(fv, more[i]);
        ghost var soFar := Missing(more[..i], fv);
        MissingNext(more, i, fv);
        if !has {
          JoinAppend(fv + soFar, more[i]);
          Seqs.Assoc(fv, soFar, [more[i]]);
          realm := realm + " " + more[i];
          newinfo := true;
        } else {
          Seqs.Nil(soFar);
        }
      }
      assert more[..|more|] == more;
    }

    /** The realm line of a new record: av[4], and the others behind it. */
    method NewRealmLine(av: seq<string>, ac: nat) returns (realm: string)
      requires 5 <= ac <= |av|
      ensures realm == Join(av[4..ac])
    {
      realm := av[4];
      assert av[4..5] == [av[4]];
      for i := 5 to ac
        invariant realm == Join(av[4..i])
      {
        JoinAppend(av[4..i], av[i]);
        assert av[4..i] + [av[i]] == av[4..i + 1];
        realm := realm + " " + av[i];
      }
    }

    /** The record that f_login writes over one that exists, unless there is nothing new. */
    method Renew(ci: File, now: int, av: seq<string>, ac: nat, krbpath: string) returns (news: bool, rec: File)
      requires ci.Login? && Factors(ci) != [] && 5 <= ac <= |av| && av[4..ac] == Named(av) && (ac < |av| <==> Kerberos(av))
      ensures news == (ci.cur != av[2] || Missing(Named(av), Factors(ci)) != []) && rec == Renewed(ci, av, krbpath, now)
    {
      var newinfo := ci.cur != av[2];
      var realm, added := RealmLine(Tokens(ci.realm), av[4..ac]);
      news := newinfo || added;
      rec := File.Login(ci.ip, av[2], av[3], realm, ci.mtime,
                        if ci.ticket != "" then ci.ticket else if ac < |av| then krbpath else "", true, now);
    }

    /** The end of f_login, once the record is in place. */
    method LoginReply(av: seq<string>, awaits: bool, transfer: Ticket.Outcome, m: Memory) returns (code: int)
      requires |av| >= 5
      modifies this`files, this`pushed
      ensures Did(LoginStored(old(Peer()), old(files), av, awaits, transfer, m), code)
    {
      if !awaits {
        Tell(["LOGIN", av[1], av[2], av[3], av[4]]);
        return 200;
      }
      match transfer
      case Stored(_) =>
        Tell(Spoken(m));
        code := 201;
      case Refused =>
        code := 504;
      case Dropped =>
        code := NO_REPLY;
      case Mismatch =>
        if m.gone.Some? {
          files := files - {m.gone.value};
        }
        code := 505;
    }

    /** f_login for a cookie that has a record. */
    method LoginOver(now: int, av: seq<string>, ac: nat, krbpath: string, transfer: Ticket.Outcome, m: Memory) returns (code: int)
      requires 5 <= ac <= |av| && av[4..ac] == Named(av) && (ac < |av| <==> Kerberos(av))
      requires AllNamed(files) && IsLogin(files, av[1])
      modifies this`files, this`pushed
      ensures Did(LoginAgain(old(Peer()), now, old(files), av, krbpath, transfer, m), code)
    {
      var ci := files[av[1]];
      if !ci.live { return 505; }
      if ci.user != av[3] { return 402; }
      if Oversize(av) { return 504; }
      var news, rec := Renew(ci, now, av, ac, krbpath);
      if !news { return 202; }
      files := files[av[1] := rec];
      code := LoginReply(av, ac < |av| && ci.ticket == "", transfer, m);
    }

    /** f_login for one that has none. */
    method LoginNew(now: int, av: seq<string>, ac: nat, krbpath: string, transfer: Ticket.Outcome, m: Memory) returns (code: int)
      requires 5 <= ac <= |av| && av[4..ac] == Named(av) && (ac < |av| <==> Kerberos(av))
      modifies this`files, this`pushed
      ensures Did(LoginFirst(cfg, old(Peer()), now, old(files), av, krbpath, transfer, m), code)
    {
      if Oversize(av) { return 504; }
      var realm := NewRealmLine(av, ac);
      if !CanLink(cfg.hashlen, files, av[1]) { return NO_REPLY; }
      files := files[av[1] := File.Login(av[2], av[2], av[3], realm, now, if ac < |av| then krbpath else "", true, now)];
      code := LoginReply(av, ac < |av|, transfer, m);
    }

    /** f_login; transfer is what the ticket transfer behind a 300 comes to, m what the words say after it. */
    method Login(now: int, av: seq<string>, krbpath: string, transfer: Ticket.Outcome, m: Memory) returns (code: int)
      requires AllNamed(files)
      modifies this`files, this`pushed
      ensures Did(LoginStep(cfg, old(Peer()), now, old(files), av, krbpath, transfer, m), code)
    {
      Seqs.Nil(pushed);
      var ac := |av|;
      if key != CGI { return 400; }
      if ac < 5 { return 500; }
      if ac >= 6 && av[ac - 1] == "kerberos" {
        ac := ac - 1;
      }
      assert av[4..ac] == Named(av);
      if !MkCookie.PathOk(cfg.hashlen, av[1]) { return 501; }
      if IsLogin(files, av[1]) {
        code := LoginOver(now, av, ac, krbpath, transfer, m);
      } else {
        code := LoginNew(now, av, ac, krbpath, transfer, m);
      }
    }

    /** f_logout. */
    method Logout(now: int, av: seq<string>) returns (code: int)
      modifies this`files, this`pushed
      ensures Did(LogoutStep(cfg, old(Peer()), now, old(files), av), code)
    {
      if key != CGI { return 410; }
      if |av| != 3 { return 510; }
      if !MkCookie.PathOk(cfg.hashlen, av[1]) { return 511; }
      if !IsLogin(files, av[1]) { return 513; }
      if !files[av[1]].live { return 411; }
      files := files[av[1] := files[av[1]].(live := false, mtime := now)];
      Tell(["LOGOUT", av[1], av[2]]);
      code := 210;
    }

    /** do_register: 1 if the name is taken, -1 if there is no directory for it. */
    method Register0(now: int, login: string, scookie: string) returns (rc: int)
      modifies this`files
      ensures files == DoRegister(cfg.hashlen, old(files), now, login, scookie)
      ensures rc == if scookie in old(files) then 1 else if MkCookie.Housed(cfg.hashlen, scookie) then 0 else -1
    {
      if scookie in files {
        return 1;
      }
      if !MkCookie.Housed(cfg.hashlen, scookie) {
        return -1;
      }
      files := files[scookie := File.Service(login)];
      if login in files && files[login].Login? {
        files := files[login := files[login].(mtime := now)];
      }
      rc := 0;
    }

    /** f_register. */
    method Register(now: int, av: seq<string>) returns (code: int)
      modifies this`files, this`pushed
      ensures Did(RegisterStep(cfg, old(Peer()), now, old(files), av), code)
    {
      if key != CGI { return 420; }
      if |av| != 4 { return 520; }
      if !MkCookie.PathOk(cfg.hashlen, av[1]) { return 521; }
      if !MkCookie.PathOk(cfg.hashlen, av[3]) { return 522; }
      if !IsLogin(files, av[1]) { return 523; }
      var ci := files[av[1]];
      if !ci.live { return 421; }
      if now - ci.mtime >= cfg.idle {
        if now - ci.mtime < cfg.idle + cfg.grey {
          return 521;
        }
        files := files[av[1] := ci.(live := false, mtime := now)];
        return 422;
      }
      var rc := Register0(now, av[1], av[3]);
      if rc < 0 {
        return NO_REPLY;
      }
      if rc > 0 {
        return 226;
      }
      Tell(["REGISTER", av[1], av[2], av[3]]);
      code := 220;
    }

    /** f_check. */
    method Check(now: int, av: seq<string>, rekey: bool, allowed: bool, minted: string) returns (died: bool, code: int, text: string)
      modifies this`files
      ensures var d := CheckWords(cfg, old(Peer()), now, old(files), av, rekey, allowed, minted);
              if d.Some? then !died && Did(d.value, code) && text == d.value.text else died && files == old(files)
    {
      died, code, text := false, 430, "";
      if key == CGI || key == SERVICE {
        var ac := |av|;
        if ac < 2 && ac > 3 {
          code := 530;
        } else if ac < 2 {
          died := true;
        } else {
          code, text := CheckCookie(now, av[1], rekey, allowed, minted);
        }
      }
    }

    /** f_check behind the test of its arguments. */
    method CheckCookie(now: int, cookie: string, rekey: bool, allowed: bool, minted: string) returns (code: int, text: string)
      requires key == CGI || key == SERVICE
      modifies this`files
      ensures Did(CheckStep(cfg, old(Peer()), now, old(files), cookie, rekey, allowed, minted), code)
      ensures text == CheckStep(cfg, old(Peer()), now, old(files), cookie, rekey, allowed, minted).text
    {
      text := "";
      if !MkCookie.PathOk(cfg.hashlen, cookie) { return 531, text; }
      var login;
      var status;
      if "cosign-" <= cookie {
        if cfg.strict && !allowed { return 534, text; }
        status := 231;
        if !IsService(files, cookie) { return 533, text; }
        login := files[cookie].login;
        if SupportsRekey(protocol) && rekey {
          status := 233;
        }
        if !MkCookie.PathOk(cfg.hashlen, login) { return 532, text; }
      } else if "cosign=" <= cookie {
        login := cookie;
        status := 232;
      } else {
        return 432, text;
      }
      code, text := CheckRecord(now, login, status, cookie, minted);
    }

    /** The second half of f_check: status 233 asks for a new name for the service cookie. */
    method CheckRecord(now: int, login: string, status: int, cookie: string, minted: string) returns (code: int, text: string)
      requires status == 233 ==> IsService(files, cookie)
      requires 231 <= status <= 233
      modifies this`files
      ensures var d := CheckLogin(cfg, old(Peer()), now, old(files), login, if status == 233 then Some(cookie) else None, minted, status);
              Did(d, code) && text == d.text
    {
      text := "";
      if !IsLogin(files, login) { return 534, text; }
      var ci := files[login];
      if !ci.live { return 430, text; }
      if now - ci.mtime >= cfg.idle {
        if now - ci.mtime < cfg.idle + cfg.grey { return 531, text; }
        files := files[login := ci.(live := false, mtime := now)];
        return 431, text;
      }
      files := files[login := ci.(mtime := now)];
      var rcookie := "";
      if status == 233 {
        rcookie := cookie[..IndexOf(cookie, '=')] + "=" + minted;
        if |rcookie| >= 256 { return 536, text; }
        if !MkCookie.PathOk(cfg.hashlen, rcookie) { return 536, text; }
        if !MkCookie.Housed(cfg.hashlen, rcookie) { return 536, text; }
        files := (files - {cookie})[rcookie := files[cookie]];
      }
      code := status;
      if SupportsFactors(protocol) {
        text := ci.cur + " " + ci.user + " " + ci.realm + " " + rcookie;
      } else {
        var words := Tokens(ci.realm);
        text := ci.ip + " " + ci.user + " " + (if words != [] then words[0] else ci.realm);
      }
    }

    /** The loop of retr_proxy stands before names: with them it comes to the store and the code of all, and to the lines told. */
    ghost predicate Proxying(now: int, login: string, names: seq<string>, all: Done, told: seq<seq<string>>)
      reads this
    {
      var d := Proxies(cfg, Peer(), now, files, login, names);
      d.files == all.files && d.code == all.code && pushed + d.pushed == told
    }

    /** One turn of the loop. */
    method OneProxy(now: int, login: string, name: string, ghost names: seq<string>, ghost all: Done, ghost told: seq<seq<string>>)
      requires names != [] && names[0] == name && MkCookie.PathOk(cfg.hashlen, name) && Proxying(now, login, names, all, told)
      modifies this`files, this`pushed
      ensures Proxying(now, login, names[1..], all, told)
    {
      ProxiesNext(cfg, Peer(), now, files, login, names);
      ghost var was := pushed;
      Seqs.Nil(pushed);
      var rc := Register0(now, login, name);
      if rc >= 0 {
        Tell(["REGISTER", login, "-", name]);
      }
      ghost var rest := Proxies(cfg, Peer(), now, files, login, names[1..]).pushed;
      Seqs.Assoc(was, Push(Peer(), ["REGISTER", login, "-", name]), rest);
      Seqs.Nil(rest);
    }

    /** retr_proxy behind its permission check. */
    method RetrProxy(now: int, login: string, names: seq<string>) returns (code: int)
      modifies this`files, this`pushed
      ensures Did(Proxies(cfg, old(Peer()), now, old(files), login, names), code)
    {
      ghost var all := Proxies(cfg, Peer(), now, files, login, names);
      ghost var told := pushed + all.pushed;
      var i := 0;
      while i < |names|
        invariant i <= |names| && Proxying(now, login, names[i..], all, told)
      {
        assert names[i..][1..] == names[i + 1..];
        if !MkCookie.PathOk(cfg.hashlen, names[i]) {
          Seqs.Nil(pushed);
          return NO_REPLY;
        }
        OneProxy(now, login, names[i], names[i..], all, told);
        i := i + 1;
      }
      Seqs.Nil(pushed);
      code := 241;
    }

    /** f_retr; tgt is the reply of retr_ticket. */
    method Retr(now: int, av: seq<string>, allowed: bool, tgt: int, proxies: Option<seq<string>>) returns (code: int)
      modifies this`files, this`pushed
      ensures Did(RetrStep(cfg, old(Peer()), now, old(files), av, allowed, tgt, proxies), code)
    {
      Seqs.Nil(pushed);
      if key != CGI && key != SERVICE { return 442; }
      if |av| != 3 { return 540; }
      if !allowed { return 545; }
      if !MkCookie.PathOk(cfg.hashlen, av[1]) { return 541; }
      if !IsService(files, av[1]) { return 543; }
      var login := files[av[1]].login;
      if !MkCookie.PathOk(cfg.hashlen, login) { return 541; }
      if !IsLogin(files, login) { return 544; }
      var ci := files[login];
      if !ci.live { return 440; }
      if now - ci.mtime >= cfg.idle {
        if now - ci.mtime < cfg.idle + cfg.grey { return 541; }
        files := files[login := ci.(live := false, mtime := now)];
        return 441;
      }
      if av[2] == "tgt" {
        return tgt;
      } else if av[2] == "cookies" {
        if proxies.None? { return 443; }
        code := RetrProxy(now, login, proxies.value);
      } else {
        code := 441;
      }
    }

    /** f_time. */
    method Time(now: int, av: seq<string>, lines: seq<string>) returns (code: int)
      modifies this`files
      ensures Did(TimeStep(cfg, old(Peer()), now, old(files), av, lines), code)
    {
      Seqs.Nil(pushed);
      if key != CGI { return 460; }
      if |av| != 1 { return 560; }
      var i := 0;
      while i < |lines| && !IsDot(lines[i])
        invariant i <= |lines|
        invariant TimeLines(cfg, now, files, lines[i..]) == TimeLines(cfg, now, old(files), lines)
      {
        assert lines[i..][1..] == lines[i + 1..];
        ghost var was := files;
        var w := Tokens(lines[i]);
        if |w| == 3 && "cosign=" <= w[0] && MkCookie.PathOk(cfg.hashlen, w[0]) && IsLogin(files, w[0]) {
          var st := files[w[0]];
          if Atoi(w[1]) > st.mtime {
            files := files[w[0] := st.(mtime := Atoi(w[1]))];
          }
          if Atoi(w[2]) == 0 && !st.live {
            files := files[w[0] := files[w[0]].(live := false, mtime := now)];
          }
          assert files == TimeLine(cfg, now, was, lines[i]) by {
            assert was[w[0] := st] == was;
          }
        }
        i := i + 1;
      }
      code := 260;
    }

    /** f_daemon: from now on nothing on this connection is forwarded. */
    method Replicate(av: seq<string>, same: (string, string) -> bool) returns (code: int)
      modifies this`replicated
      ensures replicated == (old(replicated) || code == 271)
      ensures code == 271 <==> key == CGI && |av| == 2 && !same(hostname, av[1])
    {
      if key != CGI { return 470; }
      if |av| != 2 { return 571; }
      if same(hostname, av[1]) { return 471; }
      replicated := true;
      code := 271;
    }
  }
}
