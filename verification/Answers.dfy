/**
 What each command answers and does, from the store, the words and the clock, in numbers: the
 first digit of a reply tells the other end whether to go on, to give up, or to try elsewhere.
 */
module Answers {
  import opened Text
  import opened Commands
  import Laws
  import MkCookie
  import Seqs

  predicate Yes(code: int) { 200 <= code < 300 }

  /** The filter takes this for logged out, and asks no other server. */
  predicate GiveUp(code: int) { 400 <= code < 500 }

  /** The filter tries elsewhere. */
  predicate TryElsewhere(code: int) { 500 <= code < 600 }

  predicate Asker(peer: Peer) { peer.key.CGI? || peer.key.SERVICE? }

  lemma Prefixes(s: string)
    ensures !("cosign-" <= s && "cosign=" <= s)
  {
    assert "cosign-"[6] == '-' && "cosign="[6] == '=';
  }

  // ---------------------------------------------------------------- CHECK and REKEY

  /** A CHECK that comes to the login cookie l: that itself, or a known service cookie bound to it, which strict checks allow. */
  predicate ComesTo(cfg: Config, fs: Files, e: Event, l: string) {
    && e.cmd.CHECK? && Asker(e.peer) && MkCookie.PathOk(cfg.hashlen, e.cmd.cookie) && MkCookie.PathOk(cfg.hashlen, l)
    && (|| ("cosign=" <= e.cmd.cookie && l == e.cmd.cookie)
        || ("cosign-" <= e.cmd.cookie && e.cmd.cookie in fs && fs[e.cmd.cookie] == Service(l) && (cfg.strict ==> e.cmd.allowed)))
  }

  /** It asks for a new name as well. */
  predicate WantsName(e: Event)
    requires e.cmd.CHECK?
  {
    e.cmd.rekey && e.peer.protocol == 3 && "cosign-" <= e.cmd.cookie
  }

  /** A CHECK of a live login in the grey window is answered 5xx and changes nothing: somebody else may know better. */
  lemma GreyIsElsewhere(cfg: Config, fs: Files, e: Event, l: string)
    requires ComesTo(cfg, fs, e, l) && l in fs && fs[l].Login? && fs[l].live
    requires cfg.idle <= e.now - fs[l].mtime < cfg.idle + cfg.grey
    ensures TryElsewhere(Exec(cfg, fs, e).code) && Exec(cfg, fs, e).files == fs && Exec(cfg, fs, e).pushed == []
  {
    Prefixes(e.cmd.cookie);
  }

  /** One of a dead login, or of one beyond it, is answered 4xx; the latter is logged out by it. */
  lemma OverIsGivenUp(cfg: Config, fs: Files, e: Event, l: string)
    requires ComesTo(cfg, fs, e, l) && l in fs && fs[l].Login?
    requires !fs[l].live || (e.now - fs[l].mtime >= cfg.idle && e.now - fs[l].mtime >= cfg.idle + cfg.grey)
    ensures GiveUp(Exec(cfg, fs, e).code)
    ensures Exec(cfg, fs, e).files == if fs[l].live then fs[l := fs[l].(live := false, mtime := e.now)] else fs
  {
    Prefixes(e.cmd.cookie);
  }

  /** One of a live login less than idle seconds old is answered 2xx, but for a name that cannot be given; and it counts as use. */
  lemma UseIsConfirmed(cfg: Config, fs: Files, e: Event, l: string)
    requires ComesTo(cfg, fs, e, l) && l in fs && fs[l].Login? && fs[l].live && e.now - fs[l].mtime < cfg.idle
    ensures var d, name := Exec(cfg, fs, e), Rekeyed(e.cmd.cookie, e.cmd.minted);
            && (l == e.cmd.cookie || !WantsName(e) || l != name ==> l in d.files && d.files[l] == fs[l].(mtime := e.now))
            && if !WantsName(e) then d.code == (if "cosign-" <= e.cmd.cookie then 231 else 232)
               else if |name| < 256 && MkCookie.Housed(cfg.hashlen, name) then d.code == 233
               else d.code == 536
  {
    Prefixes(e.cmd.cookie);
  }

  /** The new name is the old one up to the first '=', with the minted value behind it. */
  lemma RekeyedIs(name: string, value: string, minted: string)
    requires '=' !in name
    ensures Rekeyed(name + "=" + value, minted) == name + "=" + minted
  {
    MkCookie.NameEnds(name, value);
    assert (name + "=" + value)[..|name|] == name;
  }

  /** A CHECK that comes to no record: only a peer or a prefix that is refused makes the other end give up. */
  lemma NoRecordAnswers(cfg: Config, fs: Files, e: Event)
    requires e.cmd.CHECK? && forall l :: ComesTo(cfg, fs, e, l) ==> l !in fs || fs[l].Service?
    ensures var d, c := Exec(cfg, fs, e), e.cmd.cookie;
            && d.files == fs && d.pushed == []
            && if !Asker(e.peer) || (MkCookie.PathOk(cfg.hashlen, c) && !("cosign-" <= c) && !("cosign=" <= c)) then GiveUp(d.code)
               else TryElsewhere(d.code)
  {
    var c := e.cmd.cookie;
    Prefixes(c);
    if c in fs && fs[c].Service? {
      assert ComesTo(cfg, fs, e, fs[c].login) || !ComesTo(cfg, fs, e, fs[c].login);
    }
    assert ComesTo(cfg, fs, e, c) || !ComesTo(cfg, fs, e, c);
  }

  /** Live, and touched less than idle seconds ago. */
  predicate InUse(cfg: Config, fs: Files, now: int, l: string) { l in fs && fs[l].Login? && fs[l].live && now - fs[l].mtime < cfg.idle }

  /** Dead, or beyond the grey window. */
  predicate Over(cfg: Config, fs: Files, now: int, l: string) {
    l in fs && fs[l].Login? && (!fs[l].live || (now - fs[l].mtime >= cfg.idle && now - fs[l].mtime >= cfg.idle + cfg.grey))
  }

  /** The new name fits, and has a directory. */
  predicate CanName(cfg: Config, e: Event)
    requires e.cmd.CHECK?
  {
    var name := Rekeyed(e.cmd.cookie, e.cmd.minted);
    |name| < 256 && MkCookie.Housed(cfg.hashlen, name)
  }

  /** What nobody may ask. */
  predicate Wrong(cfg: Config, e: Event)
    requires e.cmd.CHECK?
  {
    var c := e.cmd.cookie;
    !Asker(e.peer) || (MkCookie.PathOk(cfg.hashlen, c) && !("cosign-" <= c) && !("cosign=" <= c))
  }

  /** A CHECK passes exactly for a login in use, and makes the other end give up exactly for one that is over; it is answered 5xx otherwise. */
  lemma CheckIff(cfg: Config, fs: Files, e: Event)
    requires e.cmd.CHECK?
    ensures var code := Exec(cfg, fs, e).code;
            && (Yes(code) <==> exists l :: ComesTo(cfg, fs, e, l) && InUse(cfg, fs, e.now, l) && (WantsName(e) ==> CanName(cfg, e)))
            && (GiveUp(code) <==> Wrong(cfg, e) || exists l :: ComesTo(cfg, fs, e, l) && Over(cfg, fs, e.now, l))
            && (Yes(code) || GiveUp(code) || TryElsewhere(code))
  {
    if l :| ComesTo(cfg, fs, e, l) && l in fs && fs[l].Login? {
      CheckOfIff(cfg, fs, e, l);
      forall k | ComesTo(cfg, fs, e, k) ensures k == l {
        OneLogin(cfg, fs, e, k, l);
      }
    } else {
      NoRecordAnswers(cfg, fs, e);
    }
  }

  /** A CHECK comes to one login cookie at most, and is no wrong one then. */
  lemma OneLogin(cfg: Config, fs: Files, e: Event, k: string, l: string)
    requires ComesTo(cfg, fs, e, k) && ComesTo(cfg, fs, e, l)
    ensures k == l && !Wrong(cfg, e)
  {
    Prefixes(e.cmd.cookie);
  }

  lemma CheckOfIff(cfg: Config, fs: Files, e: Event, l: string)
    requires ComesTo(cfg, fs, e, l) && l in fs && fs[l].Login?
    ensures var code := Exec(cfg, fs, e).code;
            && (Yes(code) <==> InUse(cfg, fs, e.now, l) && (WantsName(e) ==> CanName(cfg, e)))
            && (GiveUp(code) <==> Over(cfg, fs, e.now, l))
            && (Yes(code) || GiveUp(code) || TryElsewhere(code)) && !Wrong(cfg, e)
  {
    OneLogin(cfg, fs, e, l, l);
    if InUse(cfg, fs, e.now, l) {
      UseIsConfirmed(cfg, fs, e, l);
    } else if Over(cfg, fs, e.now, l) {
      OverIsGivenUp(cfg, fs, e, l);
    } else {
      GreyIsElsewhere(cfg, fs, e, l);
    }
  }

  // ---------------------------------------------------------------- REGISTER

  predicate Registers(cfg: Config, e: Event) {
    && e.cmd.REGISTER? && e.peer.key.CGI? && |e.cmd.av| == 4
    && MkCookie.PathOk(cfg.hashlen, e.cmd.av[1]) && MkCookie.PathOk(cfg.hashlen, e.cmd.av[3])
  }

  /** Bound and touched, if the login is in use and the name is free; a name that is taken keeps its file. */
  lemma RegisterWhenActive(cfg: Config, fs: Files, e: Event)
    requires Registers(cfg, e) && e.cmd.av[1] in fs && fs[e.cmd.av[1]].Login? && fs[e.cmd.av[1]].live
    requires e.now - fs[e.cmd.av[1]].mtime < cfg.idle
    ensures var d, l, s := Exec(cfg, fs, e), e.cmd.av[1], e.cmd.av[3];
            if s in fs then d.code == 226 && d.files == fs && d.pushed == []
            else if MkCookie.Housed(cfg.hashlen, s) then
              && d.code == 220 && d.files == fs[s := Service(l)][l := fs[l].(mtime := e.now)]
              && d.pushed == if e.peer.pushing && !e.peer.replicated then [["REGISTER", l, e.cmd.av[2], s]] else []
            else d.code == NO_REPLY && d.files == fs && d.pushed == []
  {
  }

  lemma RegisterWhenNot(cfg: Config, fs: Files, e: Event)
    requires Registers(cfg, e)
    requires var l := e.cmd.av[1]; l in fs && fs[l].Login? && fs[l].live ==> e.now - fs[l].mtime >= cfg.idle
    ensures var d, l := Exec(cfg, fs, e), e.cmd.av[1];
            && d.pushed == []
            && if l !in fs || fs[l].Service? then TryElsewhere(d.code) && d.files == fs
               else if !fs[l].live then GiveUp(d.code) && d.files == fs
               else if e.now - fs[l].mtime < cfg.idle + cfg.grey then TryElsewhere(d.code) && d.files == fs
               else GiveUp(d.code) && d.files == fs[l := fs[l].(live := false, mtime := e.now)]
  {
  }

  lemma RegisterRefused(cfg: Config, fs: Files, e: Event)
    requires e.cmd.REGISTER? && !Registers(cfg, e)
    ensures var d := Exec(cfg, fs, e); d.files == fs && d.pushed == [] && if e.peer.key.CGI? then TryElsewhere(d.code) else GiveUp(d.code)
  {
  }

  /** A CHECK that comes to l, or a REGISTER of it. */
  predicate AsksFor(cfg: Config, fs: Files, e: Event, l: string) {
    ComesTo(cfg, fs, e, l) || (Registers(cfg, e) && e.cmd.av[1] == l)
  }

  /** Neither is answered 4xx while the login is live and less than idle plus grey seconds old. */
  lemma NotGivenUp(cfg: Config, fs: Files, e: Event, l: string)
    requires AsksFor(cfg, fs, e, l) && l in fs && fs[l].Login? && fs[l].live
    requires e.now - fs[l].mtime < cfg.idle || e.now - fs[l].mtime < cfg.idle + cfg.grey
    ensures !GiveUp(Exec(cfg, fs, e).code)
  {
    if ComesTo(cfg, fs, e, l) {
      CheckOfIff(cfg, fs, e, l);
    } else if e.now - fs[l].mtime < cfg.idle {
      RegisterWhenActive(cfg, fs, e);
    } else {
      RegisterWhenNot(cfg, fs, e);
    }
  }

  // ---------------------------------------------------------------- LOGOUT

  /** A LOGOUT by the CGI of a live login is answered 210 and ends it; no other does anything. */
  lemma LogoutIff(cfg: Config, fs: Files, e: Event)
    requires e.cmd.LOGOUT?
    ensures var d, av := Exec(cfg, fs, e), e.cmd.av;
            if e.peer.key.CGI? && |av| == 3 && MkCookie.PathOk(cfg.hashlen, av[1]) && av[1] in fs && fs[av[1]].Login? && fs[av[1]].live then
              && d.code == 210 && d.files == fs[av[1] := fs[av[1]].(live := false, mtime := e.now)]
              && d.pushed == if e.peer.pushing && !e.peer.replicated then [["LOGOUT", av[1], av[2]]] else []
            else d.files == fs && d.pushed == [] && (GiveUp(d.code) || TryElsewhere(d.code))
  {
  }

  // ---------------------------------------------------------------- LOGIN

  /** A LOGIN that the CGI may make of this cookie, as far as the words go. */
  predicate LogsIn(cfg: Config, e: Event) {
    && e.cmd.LOGIN? && e.peer.key.CGI? && |e.cmd.av| >= 5 && MkCookie.PathOk(cfg.hashlen, e.cmd.av[1])
    && |e.cmd.av[2]| < 256 && |e.cmd.av[3]| < 130 && |e.cmd.av[4]| < 256
  }

  predicate WithTicket(e: Event)
    requires e.cmd.LOGIN? && |e.cmd.av| >= 5
  {
    |e.cmd.av| >= 6 && e.cmd.av[|e.cmd.av| - 1] == "kerberos"
  }

  /** The first LOGIN of a free name makes a record with its birth now; with "kerberos" it names a ticket. */
  lemma FirstLoginMakes(cfg: Config, fs: Files, e: Event)
    requires LogsIn(cfg, e) && e.cmd.av[1] !in fs && MkCookie.Housed(cfg.hashlen, e.cmd.av[1])
    requires WithTicket(e) ==> e.cmd.transfer.Stored?
    ensures var d, av := Exec(cfg, fs, e), e.cmd.av;
            && d.code == (if WithTicket(e) then 201 else 200)
            && av[1] in d.files && d.files == fs[av[1] := d.files[av[1]]] && d.files[av[1]].Login?
            && var rec := d.files[av[1]];
               && rec.live && rec.ip == rec.cur == av[2] && rec.user == av[3] && rec.ctime == rec.mtime == e.now
               && rec.ticket == if WithTicket(e) then e.cmd.krbpath else ""
  {
  }

  /** A further LOGIN of the same user with another address or a new factor rewrites the record; its birth is taken from the last touch. */
  lemma FurtherLoginMakes(cfg: Config, fs: Files, e: Event)
    requires LogsIn(cfg, e) && e.cmd.av[1] in fs && fs[e.cmd.av[1]].Login?
    requires var was := fs[e.cmd.av[1]]; was.live && was.user == e.cmd.av[3]
    requires WithTicket(e) && fs[e.cmd.av[1]].ticket == "" ==> e.cmd.transfer.Stored?
    ensures var d, av, was := Exec(cfg, fs, e), e.cmd.av, fs[e.cmd.av[1]];
            var named := if WithTicket(e) then av[4..|av| - 1] else av[4..];
            if was.cur == av[2] && (forall f :: f in named ==> f in Tokens(was.realm)) then d.code == 202 && d.files == fs && d.pushed == []
            else
              && d.code == (if WithTicket(e) && was.ticket == "" then 201 else 200)
              && av[1] in d.files && d.files == fs[av[1] := d.files[av[1]]] && d.files[av[1]].Login?
              && var rec := d.files[av[1]];
                 && rec.live && rec.ip == was.ip && rec.cur == av[2] && rec.user == was.user && rec.ctime == was.mtime && rec.mtime == e.now
                 && rec.ticket == if was.ticket != "" then was.ticket else if WithTicket(e) then e.cmd.krbpath else ""
  {
    NoneMissing(Named(e.cmd.av), Tokens(fs[e.cmd.av[1]].realm));
  }

  lemma {:induction false} NoneMissing(more: seq<string>, have: seq<string>)
    ensures Missing(more, have) == [] <==> forall f :: f in more ==> f in have
  {
    if more != [] {
      NoneMissing(more[1..], have);
      assert more[0] in more;
      assert forall f :: f in more <==> f == more[0] || f in more[1..];
    }
  }

  /** The words that name factors. */
  function FactorsOn(e: Event): seq<string>
    requires e.cmd.LOGIN? && |e.cmd.av| >= 5
  {
    if WithTicket(e) then e.cmd.av[4..|e.cmd.av| - 1] else e.cmd.av[4..]
  }

  /** A record has the factors of its first LOGIN in their order; behind them come those of later ones, each that it has not had. */
  lemma LoginFactors(cfg: Config, fs: Files, e: Event)
    requires e.cmd.LOGIN? && AllWords(e.cmd.av) && Exec(cfg, fs, e).code in {200, 201}
    ensures var fs', l := Exec(cfg, fs, e).files, e.cmd.av[1];
            && |e.cmd.av| >= 5 && l in fs' && fs'[l].Login? && (l in fs ==> fs[l].Login?)
            && var now := Tokens(fs'[l].realm);
               if l !in fs then now == FactorsOn(e)
               else
                 var was := Tokens(fs[l].realm);
                 && was <= now && (forall f :: f in now <==> f in was || f in FactorsOn(e))
                 && (forall f :: f in now[|was|..] ==> f !in was)
  {
    Laws.LoginAddsFactors(cfg, fs, e);
    if e.cmd.av[1] in fs {
      var was := Tokens(fs[e.cmd.av[1]].realm);
      MissingAre(FactorsOn(e), was);
      assert (was + Missing(FactorsOn(e), was))[|was|..] == Missing(FactorsOn(e), was);
    }
  }

  lemma {:induction false} MissingAre(more: seq<string>, have: seq<string>)
    ensures forall f :: f in Missing(more, have) <==> f in more && f !in have
  {
    if more != [] {
      MissingAre(more[1..], have);
      assert more[0] in more;
      assert forall f :: f in more <==> f == more[0] || f in more[1..];
    }
  }

  /** New factors come in the order in which they are named. */
  lemma {:induction false} MissingInOrder(more: seq<string>, f: string, have: seq<string>)
    ensures Missing(more + [f], have) == Missing(more, have) + if f in have then [] else [f]
  {
    if more == [] {
      assert more + [f] == [f] && [f][1..] == [];
    } else {
      Seqs.TailOfCat(more, [f]);
      MissingInOrder(more[1..], f, have);
      Seqs.Assoc(if more[0] in have then [] else [more[0]], Missing(more[1..], have), if f in have then [] else [f]);
    }
  }

  /** Any other is refused: 4xx for the wrong peer or the wrong user, 5xx for the words and for a dead login, nothing for a name that cannot be linked. */
  lemma LoginRefused(cfg: Config, fs: Files, e: Event)
    requires e.cmd.LOGIN?
    requires LogsIn(cfg, e) ==> var l := e.cmd.av[1];
               if l in fs then fs[l].Service? || !fs[l].live || fs[l].user != e.cmd.av[3] else !MkCookie.Housed(cfg.hashlen, l)
    ensures var d := Exec(cfg, fs, e);
            && d.files == fs && d.pushed == []
            && if !e.peer.key.CGI? then GiveUp(d.code)
               else if |e.cmd.av| < 5 || !MkCookie.PathOk(cfg.hashlen, e.cmd.av[1]) then TryElsewhere(d.code)
               else
                 var l := e.cmd.av[1];
                 if l in fs && fs[l].Login? && fs[l].live && fs[l].user != e.cmd.av[3] then d.code == 402
                 else if (l in fs && fs[l].Login?) || !LogsIn(cfg, e) then TryElsewhere(d.code)
                 else d.code == NO_REPLY
  {
  }

  // ---------------------------------------------------------------- RETR

  predicate Retrieves(cfg: Config, fs: Files, e: Event, l: string) {
    && e.cmd.RETR? && Asker(e.peer) && |e.cmd.av| == 3 && e.cmd.allowed && MkCookie.PathOk(cfg.hashlen, e.cmd.av[1])
    && e.cmd.av[1] in fs && fs[e.cmd.av[1]] == Service(l) && MkCookie.PathOk(cfg.hashlen, l) && l in fs && fs[l].Login?
  }

  /** A ticket is retrieved without a trace in the store. */
  lemma TicketRetrieved(cfg: Config, fs: Files, e: Event, l: string)
    requires Retrieves(cfg, fs, e, l) && fs[l].live && e.now - fs[l].mtime < cfg.idle && e.cmd.av[2] == "tgt"
    ensures Exec(cfg, fs, e).code == e.cmd.tgt && Exec(cfg, fs, e).files == fs && Exec(cfg, fs, e).pushed == []
  {
  }

  /** For a proxy every cookie made is bound to the login, and the answer is 241; for another peer there are none. */
  lemma CookiesRetrieved(cfg: Config, fs: Files, e: Event, l: string)
    requires Retrieves(cfg, fs, e, l) && fs[l].live && e.now - fs[l].mtime < cfg.idle && e.cmd.av[2] == "cookies"
    requires e.cmd.proxies.Some? ==> forall n :: n in e.cmd.proxies.value ==> MkCookie.Housed(cfg.hashlen, n)
    ensures var d := Exec(cfg, fs, e);
            if e.cmd.proxies.None? then GiveUp(d.code) && d.files == fs && d.pushed == []
            else d.code == 241 && forall n :: n in e.cmd.proxies.value ==> n in d.files && (n !in fs ==> d.files[n] == Service(l))
  {
    if e.cmd.proxies.Some? {
      ProxiesBound(cfg, e.peer, e.now, fs, l, e.cmd.proxies.value);
    }
  }

  /** All that was there is there; every name is, and what is new is bound to l. */
  ghost predicate Bound(fs: Files, fs': Files, l: string, names: seq<string>) {
    && (forall n :: n in fs ==> n in fs') && (forall n :: n in fs && fs[n].Service? ==> fs'[n] == fs[n])
    && (forall n :: n in names ==> n in fs') && (forall n :: n in fs' && n !in fs ==> fs'[n] == Service(l))
  }

  lemma BoundOn(a: Files, b: Files, c: Files, l: string, names: seq<string>)
    requires names != [] && Bound(a, b, l, [names[0]]) && Bound(b, c, l, names[1..])
    ensures Bound(a, c, l, names)
  {
    assert names[0] in [names[0]];
    assert forall n :: n in names <==> n == names[0] || n in names[1..];
  }

  lemma {:induction false} ProxiesBound(cfg: Config, peer: Peer, now: int, fs: Files, l: string, names: seq<string>)
    requires forall n :: n in names ==> MkCookie.Housed(cfg.hashlen, n)
    ensures Proxies(cfg, peer, now, fs, l, names).code == 241 && Bound(fs, Proxies(cfg, peer, now, fs, l, names).files, l, names)
    decreases |names|
  {
    if names != [] {
      assert names[0] in names;
      var fs1 := DoRegister(cfg.hashlen, fs, now, l, names[0]);
      ProxiesBound(cfg, peer, now, fs1, l, names[1..]);
      BoundOn(fs, fs1, Proxies(cfg, peer, now, fs1, l, names[1..]).files, l, names);
    }
  }

  /** A RETR of a login that is not in use: 4xx if it is over, 5xx in the grey window. */
  lemma RetrieveWhenNot(cfg: Config, fs: Files, e: Event, l: string)
    requires Retrieves(cfg, fs, e, l) && (fs[l].live ==> e.now - fs[l].mtime >= cfg.idle)
    ensures var d := Exec(cfg, fs, e);
            && d.pushed == []
            && if !fs[l].live then GiveUp(d.code) && d.files == fs
               else if e.now - fs[l].mtime < cfg.idle + cfg.grey then TryElsewhere(d.code) && d.files == fs
               else GiveUp(d.code) && d.files == fs[l := fs[l].(live := false, mtime := e.now)]
  {
  }

  /** Any other is refused, and leaves no trace: 4xx for the wrong peer or an unknown type, 5xx for the rest. */
  lemma RetrieveRefused(cfg: Config, fs: Files, e: Event)
    requires e.cmd.RETR?
    requires forall l :: Retrieves(cfg, fs, e, l) ==> fs[l].live && e.now - fs[l].mtime < cfg.idle && e.cmd.av[2] != "tgt" && e.cmd.av[2] != "cookies"
    ensures var d := Exec(cfg, fs, e);
            && d.files == fs && d.pushed == []
            && if !Asker(e.peer) || (exists l :: Retrieves(cfg, fs, e, l)) then GiveUp(d.code) else TryElsewhere(d.code)
  {
    if Asker(e.peer) && |e.cmd.av| == 3 && e.cmd.allowed && MkCookie.PathOk(cfg.hashlen, e.cmd.av[1]) && IsService(fs, e.cmd.av[1]) {
      var l := fs[e.cmd.av[1]].login;
      assert Retrieves(cfg, fs, e, l) || !Retrieves(cfg, fs, e, l);
    }
  }

  // ---------------------------------------------------------------- TIME

  /** Line k comes before the dot, and tells a time of l. */
  ghost predicate Tells(lines: seq<string>, k: nat, l: string) {
    && k < |lines| && |Tokens(lines[k])| == 3 && Tokens(lines[k])[0] == l
    && forall j :: 0 <= j <= k ==> !(lines[j] != "" && lines[j][0] == '.' && Tokens(lines[j]) != [] && Tokens(lines[j])[0] == ".")
  }

  function TimeOn(line: string): int
    requires |Tokens(line)| == 3
  {
    Atoi(Tokens(line)[1])
  }

  /** m is the largest of was and of the times of l on the lines. */
  ghost predicate Latest(lines: seq<string>, l: string, was: int, m: int) {
    && m >= was && (forall k: nat :: Tells(lines, k, l) ==> m >= TimeOn(lines[k]))
    && (m == was || exists k: nat :: Tells(lines, k, l) && m == TimeOn(lines[k]))
  }

  /** After a TIME answered 260 a live login has the largest of its old time and the times on its lines, and nothing else about it has changed. */
  lemma TimeDelivers(cfg: Config, fs: Files, e: Event, l: string)
    requires e.cmd.TIME? && Exec(cfg, fs, e).code == 260
    requires l in fs && fs[l].Login? && fs[l].live && "cosign=" <= l && MkCookie.PathOk(cfg.hashlen, l)
    ensures var fs' := Exec(cfg, fs, e).files;
            l in fs' && fs'[l].Login? && fs'[l] == fs[l].(mtime := fs'[l].mtime) && Latest(e.cmd.lines, l, fs[l].mtime, fs'[l].mtime)
  {
    LinesDeliver(cfg, e.now, fs, e.cmd.lines, l);
  }

  lemma TimeIsTaken(cfg: Config, fs: Files, e: Event)
    requires e.cmd.TIME?
    ensures Exec(cfg, fs, e).code == 260 <==> e.peer.key.CGI? && |e.cmd.av| == 1
    ensures Exec(cfg, fs, e).code != 260 ==> Exec(cfg, fs, e).files == fs && (GiveUp(Exec(cfg, fs, e).code) || TryElsewhere(Exec(cfg, fs, e).code))
  {
  }

  lemma {:induction false} LinesDeliver(cfg: Config, now: int, fs: Files, lines: seq<string>, l: string)
    requires l in fs && fs[l].Login? && fs[l].live && "cosign=" <= l && MkCookie.PathOk(cfg.hashlen, l)
    ensures var fs' := TimeLines(cfg, now, fs, lines);
            l in fs' && fs'[l].Login? && fs'[l] == fs[l].(mtime := fs'[l].mtime) && Latest(lines, l, fs[l].mtime, fs'[l].mtime)
    decreases |lines|
  {
    if lines != [] {
      if IsDot(lines[0]) {
        assert forall k: nat :: !Tells(lines, k, l);
      } else {
        var fs1 := TimeLine(cfg, now, fs, lines[0]);
        LineDelivers(cfg, now, fs, lines[0], l);
        LinesDeliver(cfg, now, fs1, lines[1..], l);
        LatestOf(lines, l, fs[l].mtime, fs1[l].mtime, TimeLines(cfg, now, fs1, lines[1..])[l].mtime);
      }
    }
  }

  lemma LineDelivers(cfg: Config, now: int, fs: Files, line: string, l: string)
    requires l in fs && fs[l].Login? && fs[l].live && "cosign=" <= l && MkCookie.PathOk(cfg.hashlen, l)
    ensures var fs' := TimeLine(cfg, now, fs, line);
            && l in fs' && fs'[l].Login? && fs'[l] == fs[l].(mtime := fs'[l].mtime)
            && fs'[l].mtime == if |Tokens(line)| == 3 && Tokens(line)[0] == l && TimeOn(line) > fs[l].mtime then TimeOn(line) else fs[l].mtime
  {
  }

  lemma LatestOf(lines: seq<string>, l: string, was: int, mid: int, m: int)
    requires lines != [] && !IsDot(lines[0]) && Latest(lines[1..], l, mid, m)
    requires mid == if |Tokens(lines[0])| == 3 && Tokens(lines[0])[0] == l && TimeOn(lines[0]) > was then TimeOn(lines[0]) else was
    ensures Latest(lines, l, was, m)
  {
    var rest := lines[1..];
    forall k: nat | Tells(lines, k, l) ensures m >= TimeOn(lines[k]) {
      if k > 0 {
        assert forall j :: 0 <= j < |rest| ==> rest[j] == lines[j + 1];
        var i: nat := k - 1;
        assert Tells(rest, i, l);
      }
    }
    if m != was {
      if m == mid {
        assert Tells(lines, 0, l);
      } else {
        var k: nat :| Tells(rest, k, l) && m == TimeOn(rest[k]);
        forall j | 0 <= j <= k + 1 ensures !IsDot(lines[j]) {
          if j > 0 { assert lines[j] == rest[j - 1]; }
        }
        assert Tells(lines, k + 1, l);
      }
    }
  }

  /** A line as the monster prints it, with the state behind the time, tells that time. */
  lemma PrintedLine(l: string, t: nat, state: nat)
    requires IsWord(l)
    ensures var w := Tokens(l + " " + Dec(t) + " " + Dec(state)); |w| == 3 && w[0] == l && Atoi(w[1]) == t
  {
    var ws := [l, Dec(t), Dec(state)];
    JoinThree(l, Dec(t), Dec(state));
    AtoiOfDec(t, "");
    Seqs.Nil(Dec(t));
    TokensOfList(ws);
  }

  lemma JoinThree(a: string, b: string, c: string)
    ensures Join([a, b, c]) == a + " " + b + " " + c
  {
    assert [a, b, c][1..] == [b, c] && [b, c][1..] == [c];
    Seqs.Assoc(a + " ", b + " ", c);
    Seqs.Assoc(a + " ", b, " ");
    assert Join([b, c]) == b + " " + c;
  }
}
