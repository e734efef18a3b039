/**
 Replication by forwarding: what the pusher sends on, and why replaying it leaves a replica with
 the users, addresses, factors, logged-out bits and bindings of the primary, as long as no login is
 idle there when a service is registered with it.
 */
module Replication {
  import opened Text
  import opened Commands
  import opened Effects
  import opened Laws
  import opened LostTickets
  import ArgcArgv
  import LineBuffer
  import MkCookie
  import Ticket
  import Seqs

  /** A file without what replication does not carry: times and the place of the ticket. */
  datatype Identity =
    | Account(user: string, ip: string, cur: string, factors: seq<string>, live: bool)
    | Binding(login: string)

  type Identities = map<string, Identity>

  function IdentityOf(f: File): Identity
  {
    match f
    case Service(login) => Binding(login)
    case Login(_, _, _, _, _, _, _, _) => Account(f.user, f.ip, f.cur, Factors(f), f.live)
  }

  function Seen(fs: Files): Identities { map n | n in fs :: IdentityOf(fs[n]) }

  predicate IsLive(ids: Identities, n: string) { n in ids && ids[n].Account? && ids[n].live }

  /** The effect of one forwarded line, told without times. */
  function Apply(ids: Identities, line: seq<string>): Identities
  {
    if |line| >= 5 && line[0] == "LOGIN" then
      if line[1] !in ids then
        ids[line[1] := Account(line[3], line[2], line[2], [line[4]], true)]
      else if IsLive(ids, line[1]) && ids[line[1]].user == line[3] then
        var was := ids[line[1]];
        ids[line[1] := was.(cur := line[2], factors := was.factors + Missing([line[4]], was.factors))]
      else ids
    else if |line| == 4 && line[0] == "REGISTER" then
      if IsLive(ids, line[1]) && line[3] !in ids then ids[line[3] := Binding(line[1])] else ids
    else if |line| == 3 && line[0] == "LOGOUT" then
      if IsLive(ids, line[1]) then ids[line[1] := ids[line[1]].(live := false)] else ids
    else ids
  }

  function ApplyAll(ids: Identities, lines: seq<seq<string>>): Identities
    decreases |lines|
  {
    if lines == [] then ids else ApplyAll(Apply(ids, lines[0]), lines[1..])
  }

  lemma {:induction false} ApplyAppend(ids: Identities, a: seq<seq<string>>, b: seq<seq<string>>)
    ensures ApplyAll(ids, a + b) == ApplyAll(ApplyAll(ids, a), b)
    decreases |a|
  {
    if a == [] {
      Seqs.Nil(b);
    } else {
      Seqs.TailOfCat(a, b);
      ApplyAppend(Apply(ids, a[0]), a[1..], b);
    }
  }

  /** What the switch in pusher makes of a line: the command that the other daemon gets. */
  function Forwarded(line: seq<string>, krbpath: string, transfer: Ticket.Outcome, memory: Memory): Option<Cmd>
  {
    if |line| == 6 && line[0] == "LOGIN" then Some(LOGIN(line[..5] + ["kerberos"], krbpath, transfer, memory))
    else if |line| == 5 && line[0] == "LOGIN" then Some(LOGIN(line, krbpath, transfer, memory))
    else if |line| == 4 && line[0] == "REGISTER" then Some(REGISTER(line))
    else if |line| == 3 && line[0] == "LOGOUT" then Some(LOGOUT(line))
    else None
  }

  /** A line that f_login, f_register, f_logout or retr_proxy can write. */
  predicate LineOk(hashlen: int, line: seq<string>) {
    && |line| > 1 && MkCookie.PathOk(hashlen, line[1])
    && if line[0] == "LOGIN" then 5 <= |line| <= 6 && AllWords(line) && !Oversize(line) && MkCookie.Housed(hashlen, line[1])
       else if line[0] == "REGISTER" then |line| == 4 && MkCookie.Housed(hashlen, line[3])
       else line[0] == "LOGOUT" && |line| == 3
  }

  // ---------------------------------------------------------------- the primary

  predicate Primary(peer: Peer) { peer.pushing && !peer.replicated }

  /** The factors that a login has before the command. */
  function Known(fs: Files, av: seq<string>): seq<string>
    requires |av| >= 5
  {
    if IsLogin(fs, av[1]) then Factors(fs[av[1]]) else []
  }

  /** The line that is pushed if the LOGIN succeeds: behind a ticket its words are read out of the buffer again. */
  function Heard(cfg: Config, fs: Files, e: Event): seq<string>
    requires e.cmd.LOGIN? && |e.cmd.av| >= 5
  {
    if Awaits(cfg, fs, e) then Spoken(e.cmd.memory) else ["LOGIN", e.cmd.av[1], e.cmd.av[2], e.cmd.av[3], e.cmd.av[4]]
  }

  /** The line is made of words, it is about this cookie, address and user, and the one factor on it brings all the news. */
  predicate Carried(cfg: Config, fs: Files, e: Event)
    requires e.cmd.LOGIN? && |e.cmd.av| >= 5
  {
    var line, av := Heard(cfg, fs, e), e.cmd.av;
    && AllWords(line) && line[1] == av[1] && line[2] == av[2] && line[3] == av[3]
    && Missing(Named(av), Known(fs, av)) == Missing([line[4]], Known(fs, av))
  }

  /** Only the first factor of a LOGIN is forwarded: the others must be known already. */
  predicate OthersKnown(fs: Files, av: seq<string>)
    requires |av| >= 5
  {
    forall f :: f in Named(av)[1..] ==> f in Known(fs, av)
  }

  /** Behind a ticket, the words that are pushed still say what they said. */
  predicate Intact(e: Event)
    requires e.cmd.LOGIN?
  {
    var av, m := e.cmd.av, e.cmd.memory;
    |av| >= 6 && m.cookie == av[1] && m.ip == av[2] && m.user == av[3] && m.factor == av[4] && m.last == av[5]
  }

  /** The commands that replication mirrors, told from the store and the command. */
  predicate Mirrored(cfg: Config, fs: Files, e: Event) {
    && Primary(e.peer) && Regular(fs, e)
    && match e.cmd
       case LOGIN(av, _, transfer, _) => |av| >= 5 ==> transfer.Stored? && Carried(cfg, fs, e)
       case REGISTER(av) => !RegisterIdlesOut(cfg, fs, e.peer, e.now, av)
       case CHECK(_, _, _, _) => !CheckIdlesOut(cfg, fs, e) && !Renames(cfg, fs, e)
       case RETR(_, _, _, _) => !RetrIdlesOut(cfg, fs, e)
       case _ => true
  }

  lemma {:induction false} MissingCat(a: seq<string>, b: seq<string>, have: seq<string>)
    ensures Missing(a + b, have) == Missing(a, have) + Missing(b, have)
    decreases |a|
  {
    if a == [] {
      Seqs.Nil(b);
      Seqs.Nil(Missing(b, have));
    } else {
      Seqs.TailOfCat(a, b);
      MissingCat(a[1..], b, have);
      Seqs.Assoc(if a[0] in have then [] else [a[0]], Missing(a[1..], have), Missing(b, have));
    }
  }

  /** With every later factor known, the first one says all. */
  lemma FirstFactorSuffices(fs: Files, av: seq<string>)
    requires |av| >= 5 && AllWords(av)
    ensures Missing(Named(av), Known(fs, av)) == Missing([av[4]], Known(fs, av)) <==> OthersKnown(fs, av)
  {
    var named, have := Named(av), Known(fs, av);
    NamedAreWords(av);
    assert named == [av[4]] + named[1..];
    MissingCat([av[4]], named[1..], have);
    MissingAreWords(named[1..], have);
    var rest := Missing(named[1..], have);
    assert rest == [] <==> forall w :: w !in rest by {
      assert rest != [] ==> rest[0] in rest;
    }
    Seqs.Nil(Missing([av[4]], have));
    assert |Missing([av[4]], have) + rest| == |Missing([av[4]], have)| ==> rest == [];
  }

  /** The words of a LOGIN are printed with blanks between them: they are read as they are if they are words. */
  ghost predicate Readable(lines: seq<seq<string>>) { forall line :: line in lines && |line| >= 5 ==> AllWords(line) }

  /** What the primary did is what the lines it pushed say. */
  ghost predicate Told(fs: Files, d: Done) {
    Seen(d.files) == ApplyAll(Seen(fs), d.pushed) && Readable(d.pushed)
  }

  lemma NothingTold(fs: Files, d: Done)
    requires d.pushed == [] && Seen(d.files) == Seen(fs)
    ensures Told(fs, d)
  {
  }

  lemma OneTold(fs: Files, d: Done, line: seq<string>)
    requires d.pushed == [line]
    ensures Told(fs, d) <==> Seen(d.files) == Apply(Seen(fs), line) && (|line| >= 5 ==> AllWords(line))
  {
    OneLine(Seen(fs), line);
  }

  lemma TouchSeen(fs: Files, n: string, now: int)
    ensures Seen(Touch(fs, n, now)) == Seen(fs)
  {
  }

  /** What a forwarded LOGIN makes of a record that it may change, or of none. */
  lemma ApplyLogin(ids: Identities, line: seq<string>)
    requires |line| >= 5 && line[0] == "LOGIN"
    requires line[1] in ids ==> IsLive(ids, line[1]) && ids[line[1]].user == line[3]
    ensures var have := if line[1] in ids then ids[line[1]].factors else [];
            var ip := if line[1] in ids then ids[line[1]].ip else line[2];
            Apply(ids, line) == ids[line[1] := Account(line[3], ip, line[2], have + Missing([line[4]], have), true)]
  {
    MissingOfNone([line[4]]);
    Seqs.Nil([line[4]]);
  }

  lemma UpdatesDiffer(ids: Identities, n: string, a: Identity, b: Identity)
    ensures ids[n := a] == ids[n := b] <==> a == b
  {
    assert ids[n := a][n] == a && ids[n := b][n] == b;
  }

  /** A rewritten or new record is what a forwarded LOGIN of the factor line[4] makes of it just when that adds the same factors. */
  lemma AccountUpdate(fs: Files, n: string, rec: File, line: seq<string>, named: seq<string>, have: seq<string>)
    requires rec.Login? && rec.live && (n in fs ==> IsLogin(fs, n) && fs[n].live && fs[n].user == rec.user)
    requires |line| >= 5 && line[0] == "LOGIN" && line[1] == n && line[2] == rec.cur && line[3] == rec.user
    requires rec.ip == (if n in fs then fs[n].ip else line[2])
    requires have == (if n in fs then Factors(fs[n]) else [])
    requires Factors(rec) == have + Missing(named, have)
    ensures Seen(fs[n := rec]) == Apply(Seen(fs), line) <==> Missing(named, have) == Missing([line[4]], have)
  {
    ApplyLogin(Seen(fs), line);
    var id := Account(rec.user, rec.ip, rec.cur, have + Missing([line[4]], have), true);
    assert Apply(Seen(fs), line) == Seen(fs)[n := id];
    assert Seen(fs[n := rec]) == Seen(fs)[n := IdentityOf(rec)];
    UpdatesDiffer(Seen(fs), n, id, IdentityOf(rec));
    SameTail(have, Missing(named, have), Missing([line[4]], have));
  }

  /** A line about another cookie, address or user does not make the news of a record. */
  lemma OtherAccount(fs: Files, n: string, rec: File, line: seq<string>)
    requires rec.Login? && (n in fs ==> IsLogin(fs, n) && fs[n].user == rec.user && IdentityOf(fs[n]) != IdentityOf(rec))
    requires |line| >= 5 && line[0] == "LOGIN" && !(line[1] == n && line[2] == rec.cur && line[3] == rec.user)
    ensures Seen(fs[n := rec]) != Apply(Seen(fs), line)
  {
    assert Seen(fs[n := rec])[n] == IdentityOf(rec);
    if line[1] != n {
      assert n in Apply(Seen(fs), line) ==> n in fs && Apply(Seen(fs), line)[n] == IdentityOf(fs[n]);
    } else {
      assert n in Apply(Seen(fs), line) ==> Apply(Seen(fs), line)[n] != IdentityOf(rec);
    }
  }

  /** The one line that a successful LOGIN pushes. */
  lemma LoginPushes(cfg: Config, fs: Files, e: Event)
    requires Primary(e.peer) && e.cmd.LOGIN? && Exec(cfg, fs, e).code in {200, 201}
    ensures |e.cmd.av| >= 5 && Exec(cfg, fs, e).pushed == [Heard(cfg, fs, e)]
  {
    LoginDoes(cfg, fs, e);
    AwaitsDoes(cfg, fs, e);
    if !Awaits(cfg, fs, e) { NotAwaited(cfg, fs, e); }
  }

  /** A successful LOGIN brings something new. */
  lemma LoginIsNews(cfg: Config, fs: Files, e: Event)
    requires Regular(fs, e) && e.cmd.LOGIN? && Exec(cfg, fs, e).code in {200, 201}
    ensures |e.cmd.av| >= 5 && IsLogin(Exec(cfg, fs, e).files, e.cmd.av[1])
    ensures var l := e.cmd.av[1]; l in fs ==> IdentityOf(fs[l]) != IdentityOf(Exec(cfg, fs, e).files[l])
  {
    LoginAddsFactors(cfg, fs, e);
    var av := e.cmd.av;
    if av[1] in fs {
      var have := Factors(fs[av[1]]);
      NotTwice(cfg, fs, e);
      assert |have + Missing(Named(av), have)| == |have| + |Missing(Named(av), have)|;
    }
  }

  lemma NotTwice(cfg: Config, fs: Files, e: Event)
    requires e.cmd.LOGIN? && |e.cmd.av| >= 5 && IsLogin(fs, e.cmd.av[1]) && Exec(cfg, fs, e).code in {200, 201}
    ensures fs[e.cmd.av[1]].cur != e.cmd.av[2] || Missing(Named(e.cmd.av), Factors(fs[e.cmd.av[1]])) != []
  {
  }

  /** What the line says is what the LOGIN did just when it is about the same record and its factor brings all the news. */
  lemma LoginUpdates(cfg: Config, fs: Files, e: Event, line: seq<string>)
    requires Regular(fs, e) && e.cmd.LOGIN? && Exec(cfg, fs, e).code in {200, 201} && |e.cmd.av| >= 5
    requires |line| >= 5 && line[0] == "LOGIN"
    ensures var av, known := e.cmd.av, Known(fs, e.cmd.av);
            Seen(Exec(cfg, fs, e).files) == Apply(Seen(fs), line) <==>
            line[1] == av[1] && line[2] == av[2] && line[3] == av[3] && Missing(Named(av), known) == Missing([line[4]], known)
  {
    var av := e.cmd.av;
    LoginAddsFactors(cfg, fs, e);
    MissingOfNone(Named(av));
    if line[1] == av[1] && line[2] == av[2] && line[3] == av[3] {
      AccountUpdate(fs, av[1], Exec(cfg, fs, e).files[av[1]], line, Named(av), Known(fs, av));
    } else {
      LoginIsNews(cfg, fs, e);
      OtherAccount(fs, av[1], Exec(cfg, fs, e).files[av[1]], line);
    }
  }

  /** A LOGIN is told in full exactly when its line still is about the record, and the one factor on it brings all the news. */
  lemma LoginTold(cfg: Config, fs: Files, e: Event)
    requires Primary(e.peer) && Regular(fs, e) && e.cmd.LOGIN?
    requires Exec(cfg, fs, e).code in {200, 201}
    ensures |e.cmd.av| >= 5 && (Told(fs, Exec(cfg, fs, e)) <==> Carried(cfg, fs, e))
  {
    LoginPushes(cfg, fs, e);
    LoginUpdates(cfg, fs, e, Heard(cfg, fs, e));
    OneTold(fs, Exec(cfg, fs, e), Heard(cfg, fs, e));
  }

  /** Without a ticket, or with the words intact behind it: exactly when every factor but the first was known. */
  lemma CarriedIff(cfg: Config, fs: Files, e: Event)
    requires e.cmd.LOGIN? && Regular(fs, e) && |e.cmd.av| >= 5 && (Awaits(cfg, fs, e) ==> Intact(e))
    ensures Carried(cfg, fs, e) <==> OthersKnown(fs, e.cmd.av)
  {
    var line := Heard(cfg, fs, e);
    FirstFactorSuffices(fs, e.cmd.av);
    HeardIs(cfg, fs, e);
    FrontAreWords(e.cmd.av, line);
  }

  lemma HeardIs(cfg: Config, fs: Files, e: Event)
    requires e.cmd.LOGIN? && |e.cmd.av| >= 5 && (Awaits(cfg, fs, e) ==> Intact(e))
    ensures var line := Heard(cfg, fs, e); |line| <= |e.cmd.av| && forall k :: 1 <= k < |line| ==> line[k] == e.cmd.av[k]
  {
  }

  /** The word w stood at the offset, at the sixth character or behind it; now is what is read there when size and dot line have each come alone. */
  ghost predicate Reread(mem: string, at: nat, n: nat, w: string, now: string) {
    && |Dec(n)| + 2 <= |mem| && |mem| >= 3 && 6 <= at <= |mem| && ArgcArgv.WordAt(mem, at, w) && Plain(w)
    && now == LineBuffer.CString(LineBuffer.AfterLines(mem, Dec(n), "."), at)
  }

  /** All five words of the line are read again, from their places; the cookie stands behind the six characters of the command. */
  ghost predicate AllReread(mem: string, at: (nat, nat, nat, nat, nat), n: nat, e: Event)
    requires e.cmd.LOGIN?
  {
    var av, m := e.cmd.av, e.cmd.memory;
    && |av| >= 6 && at.0 == 6
    && Reread(mem, at.0, n, av[1], m.cookie) && Reread(mem, at.1, n, av[2], m.ip) && Reread(mem, at.2, n, av[3], m.user)
    && Reread(mem, at.3, n, av[4], m.factor) && Reread(mem, at.4, n, av[5], m.last)
  }

  lemma RereadStands(mem: string, at: nat, n: nat, w: string, now: string)
    requires Reread(mem, at, n, w, now) && n < 10_000
    ensures now == w
  {
    LineBuffer.WordsStand(mem, at, w, n);
  }

  lemma IntactIff(hashlen: int, mem: string, at: (nat, nat, nat, nat, nat), n: nat, e: Event)
    requires e.cmd.LOGIN? && AllReread(mem, at, n, e) && MkCookie.PathOk(hashlen, e.cmd.av[1])
    ensures if n < 10_000 then Intact(e) else e.cmd.memory.cookie != e.cmd.av[1]
  {
    var av, m := e.cmd.av, e.cmd.memory;
    if n < 10_000 {
      RereadStands(mem, at.0, n, av[1], m.cookie);
      RereadStands(mem, at.1, n, av[2], m.ip);
      RereadStands(mem, at.2, n, av[3], m.user);
      RereadStands(mem, at.3, n, av[4], m.factor);
      RereadStands(mem, at.4, n, av[5], m.last);
    } else {
      LineBuffer.CookieStandsIff(hashlen, mem, av[1], n);
    }
  }

  /** With a ticket, the lines of the transfer having come alone: exactly when that is so and the ticket has less than ten thousand characters. */
  lemma TicketTold(cfg: Config, fs: Files, e: Event, mem: string, at: (nat, nat, nat, nat, nat))
    requires Primary(e.peer) && Regular(fs, e) && Awaits(cfg, fs, e) && e.cmd.transfer.Stored?
    requires AllReread(mem, at, |e.cmd.transfer.data|, e)
    ensures Exec(cfg, fs, e).code == 201
    ensures Told(fs, Exec(cfg, fs, e)) <==> |e.cmd.transfer.data| < 10_000 && OthersKnown(fs, e.cmd.av)
  {
    AwaitsDoes(cfg, fs, e);
    LoginTold(cfg, fs, e);
    IntactIff(cfg.hashlen, mem, at, |e.cmd.transfer.data|, e);
    if |e.cmd.transfer.data| < 10_000 {
      CarriedIff(cfg, fs, e);
    }
  }

  lemma FrontAreWords(av: seq<string>, line: seq<string>)
    requires AllWords(av) && |av| >= |line| > 0 && line[0] == "LOGIN" && forall k :: 1 <= k < |line| ==> line[k] == av[k]
    ensures AllWords(line)
  {
    assert IsWord("LOGIN");
    forall w | w in line ensures IsWord(w) {
      var k :| 0 <= k < |line| && line[k] == w;
      if k > 0 { assert av[k] in av; }
    }
  }

  lemma OneLine(ids: Identities, line: seq<string>)
    ensures ApplyAll(ids, [line]) == Apply(ids, line)
  {
    assert [line][1..] == [];
    assert ApplyAll(ids, [line]) == ApplyAll(Apply(ids, line), []);
  }

  lemma SameTail(a: seq<string>, b: seq<string>, c: seq<string>)
    ensures a + b == a + c <==> b == c
  {
    Seqs.TakeOfCat(a, b);
    Seqs.TakeOfCat(a, c);
  }

  lemma {:induction false} MissingOfNone(more: seq<string>)
    ensures Missing(more, []) == more
  {
    if more != [] {
      MissingOfNone(more[1..]);
      Seqs.Cons(more);
    }
  }

  lemma {:induction false} ProxiesTold(cfg: Config, peer: Peer, now: int, fs: Files, login: string, names: seq<string>)
    requires Primary(peer) && IsLogin(fs, login) && fs[login].live
    ensures Told(fs, Proxies(cfg, peer, now, fs, login, names))
    decreases |names|
  {
    if names != [] && MkCookie.PathOk(cfg.hashlen, names[0]) {
      var fs1 := DoRegister(cfg.hashlen, fs, now, login, names[0]);
      ProxiesTold(cfg, peer, now, fs1, login, names[1..]);
      if names[0] in fs || MkCookie.Housed(cfg.hashlen, names[0]) {
        var line := ["REGISTER", login, "-", names[0]];
        var more := Proxies(cfg, peer, now, fs1, login, names[1..]).pushed;
        RegisterSeen(cfg.hashlen, fs, now, login, names[0]);
        Seqs.TailOfCat([line], more);
        assert [line][1..] + more == more;
      }
    }
  }

  lemma RegisterSeen(hashlen: int, fs: Files, now: int, login: string, scookie: string)
    requires IsLogin(fs, login) && fs[login].live && (scookie in fs || MkCookie.Housed(hashlen, scookie))
    ensures forall ip :: Seen(DoRegister(hashlen, fs, now, login, scookie)) == Apply(Seen(fs), ["REGISTER", login, ip, scookie])
  {
    if scookie !in fs {
      TouchSeen(fs[scookie := Service(login)], login, now);
      assert Seen(fs[scookie := Service(login)]) == Seen(fs)[scookie := Binding(login)];
    }
  }

  lemma {:induction false} TimeSeen(cfg: Config, now: int, fs: Files, lines: seq<string>)
    ensures Seen(TimeLines(cfg, now, fs, lines)) == Seen(fs)
    decreases |lines|
  {
    if lines != [] && !IsDot(lines[0]) {
      TimeLineSeen(cfg, now, fs, lines[0]);
      TimeSeen(cfg, now, TimeLine(cfg, now, fs, lines[0]), lines[1..]);
    }
  }

  lemma TimeLineSeen(cfg: Config, now: int, fs: Files, line: string)
    ensures Seen(TimeLine(cfg, now, fs, line)) == Seen(fs)
  {
  }

  lemma LogoutTold(cfg: Config, fs: Files, e: Event)
    requires Primary(e.peer) && e.cmd.LOGOUT?
    ensures Told(fs, Exec(cfg, fs, e))
  {
    var d, av := Exec(cfg, fs, e), e.cmd.av;
    LogoutDoes(cfg, fs, e);
    if d.code == 210 {
      var line := ["LOGOUT", av[1], av[2]];
      assert Seen(d.files) == Apply(Seen(fs), line);
      OneTold(fs, d, line);
    } else {
      NothingTold(fs, d);
    }
  }

  /** A REGISTER is told exactly unless its login is live and idle beyond the grey window when it is looked at. */
  lemma RegisterTold(cfg: Config, fs: Files, e: Event)
    requires Primary(e.peer) && e.cmd.REGISTER?
    ensures Told(fs, Exec(cfg, fs, e)) <==> !RegisterIdlesOut(cfg, fs, e.peer, e.now, e.cmd.av)
  {
    var d, av := Exec(cfg, fs, e), e.cmd.av;
    RegisterDoes(cfg, fs, e);
    if RegisterIdlesOut(cfg, fs, e.peer, e.now, av) {
      LogoutSeen(fs, av[1], e.now);
    } else if d.files == fs && d.pushed == [] {
      NothingTold(fs, d);
    } else {
      RegisterSeen(cfg.hashlen, fs, e.now, av[1], av[3]);
      OneTold(fs, d, ["REGISTER", av[1], av[2], av[3]]);
    }
  }

  lemma LogoutSeen(fs: Files, n: string, now: int)
    requires IsLogin(fs, n) && fs[n].live
    ensures Seen(Logout(fs, n, now)) != Seen(fs)
  {
    assert Seen(Logout(fs, n, now))[n] != Seen(fs)[n];
  }

  /** A CHECK or REKEY is told exactly unless it comes to a live login idle beyond the grey window, or to the renaming. */
  lemma CheckTold(cfg: Config, fs: Files, e: Event)
    requires e.cmd.CHECK? && Regular(fs, e)
    ensures Told(fs, Exec(cfg, fs, e)) <==> !CheckIdlesOut(cfg, fs, e) && !Renames(cfg, fs, e)
  {
    var d, cookie := Exec(cfg, fs, e), e.cmd.cookie;
    var l := CheckedLogin(cfg, fs, e.peer, cookie, e.cmd.allowed);
    CheckDoes(cfg, fs, e);
    if CheckIdlesOut(cfg, fs, e) {
      LogoutSeen(fs, l.value, e.now);
    } else if Renames(cfg, fs, e) {
      RekeyMovesBinding(cfg, fs, e);
      assert cookie in Seen(fs) && cookie !in Seen(d.files);
    } else if l.Some? {
      TouchSeen(fs, l.value, e.now);
    }
  }

  /** A RETR is told exactly unless it comes to a live login idle beyond the grey window. */
  lemma RetrTold(cfg: Config, fs: Files, e: Event)
    requires Primary(e.peer) && e.cmd.RETR?
    ensures Told(fs, Exec(cfg, fs, e)) <==> !RetrIdlesOut(cfg, fs, e)
  {
    var d, av := Exec(cfg, fs, e), e.cmd.av;
    RetrDoes(cfg, fs, e);
    if RetrIdlesOut(cfg, fs, e) {
      LogoutSeen(fs, fs[av[1]].login, e.now);
    } else if d.files == fs && d.pushed == [] {
      NothingTold(fs, d);
    } else {
      ProxiesTold(cfg, e.peer, e.now, fs, fs[av[1]].login, e.cmd.proxies.value);
    }
  }

  lemma MirroredLogin(cfg: Config, fs: Files, e: Event)
    requires Mirrored(cfg, fs, e) && e.cmd.LOGIN?
    ensures Told(fs, Exec(cfg, fs, e))
  {
    if Exec(cfg, fs, e).code in {200, 201} {
      LoginTold(cfg, fs, e);
    } else {
      TurnedDown(cfg, fs, e);
      NothingTold(fs, Exec(cfg, fs, e));
    }
  }

  /** With its ticket, a LOGIN that does not succeed does nothing. */
  lemma TurnedDown(cfg: Config, fs: Files, e: Event)
    requires e.cmd.LOGIN? && Exec(cfg, fs, e).code !in {200, 201} && (|e.cmd.av| >= 5 ==> e.cmd.transfer.Stored?)
    ensures Exec(cfg, fs, e).files == fs && Exec(cfg, fs, e).pushed == []
  {
    AwaitsDoes(cfg, fs, e);
    LoginDoes(cfg, fs, e);
  }

  lemma TimeTold(cfg: Config, fs: Files, e: Event)
    requires e.cmd.TIME?
    ensures Told(fs, Exec(cfg, fs, e))
  {
    TimeDoes(cfg, fs, e);
    TimeSeen(cfg, e.now, fs, e.cmd.lines);
    NothingTold(fs, Exec(cfg, fs, e));
  }

  /** Whatever a mirrored command does to the primary is in the lines it pushes. */
  lemma PrimaryTells(cfg: Config, fs: Files, e: Event)
    requires Mirrored(cfg, fs, e)
    ensures Told(fs, Exec(cfg, fs, e))
  {
    match e.cmd
    case LOGIN(av, _, _, _) =>
      MirroredLogin(cfg, fs, e);
    case LOGOUT(_) => LogoutTold(cfg, fs, e);
    case REGISTER(_) => RegisterTold(cfg, fs, e);
    case CHECK(_, _, _, _) => CheckTold(cfg, fs, e);
    case RETR(_, _, _, _) => RetrTold(cfg, fs, e);
    case TIME(_, _) => TimeTold(cfg, fs, e);
  }

  /** A connection that has said DAEMON never makes the daemon forward anything. */
  lemma ReplicatedIsSilent(cfg: Config, fs: Files, e: Event)
    requires e.peer.replicated
    ensures Exec(cfg, fs, e).pushed == []
  {
    UnpushedIsSilent(cfg, fs, e);
  }

  lemma UnpushedIsSilent(cfg: Config, fs: Files, e: Event)
    requires !Primary(e.peer)
    ensures Exec(cfg, fs, e).pushed == []
  {
    match e.cmd
    case LOGIN(_, _, _, _) => LoginDoes(cfg, fs, e);
    case LOGOUT(_) => LogoutDoes(cfg, fs, e);
    case REGISTER(_) => RegisterDoes(cfg, fs, e);
    case CHECK(_, _, _, _) => CheckDoes(cfg, fs, e);
    case RETR(_, _, _, _) =>
      RetrDoes(cfg, fs, e);
      if Retrieves(cfg, fs, e) {
        ProxiesSilent(cfg, e.peer, e.now, fs, fs[e.cmd.av[1]].login, e.cmd.proxies.value);
      }
    case TIME(_, _) => TimeDoes(cfg, fs, e);
  }

  lemma {:induction false} ProxiesSilent(cfg: Config, peer: Peer, now: int, fs: Files, login: string, names: seq<string>)
    requires !Primary(peer)
    ensures Proxies(cfg, peer, now, fs, login, names).pushed == []
    decreases |names|
  {
    if names != [] && MkCookie.PathOk(cfg.hashlen, names[0]) {
      ProxiesSilent(cfg, peer, now, DoRegister(cfg.hashlen, fs, now, login, names[0]), login, names[1..]);
    }
  }

  // ---------------------------------------------------------------- the lines themselves

  ghost predicate LinesOk(hashlen: int, lines: seq<seq<string>>) { forall line :: line in lines ==> LineOk(hashlen, line) }

  /** In a store as the daemon keeps it, every line that is pushed is one that the other end can act on. */
  lemma LinesAreOk(cfg: Config, fs: Files, e: Event)
    requires AllHoused(cfg.hashlen, fs) && Regular(fs, e) && (Awaits(cfg, fs, e) ==> Intact(e))
    ensures LinesOk(cfg.hashlen, Exec(cfg, fs, e).pushed)
  {
    if !Primary(e.peer) {
      UnpushedIsSilent(cfg, fs, e);
    } else {
      match e.cmd
      case LOGIN(_, _, _, _) =>
        LoginDoes(cfg, fs, e);
        if Exec(cfg, fs, e).code in {200, 201} {
          LoginLineOk(cfg, fs, e);
        }
      case LOGOUT(_) => LogoutDoes(cfg, fs, e);
      case REGISTER(_) => RegisterDoes(cfg, fs, e);
      case CHECK(_, _, _, _) => CheckDoes(cfg, fs, e);
      case RETR(_, _, _, _) =>
        RetrDoes(cfg, fs, e);
        if Retrieves(cfg, fs, e) {
          ProxiesOk(cfg, e.peer, e.now, fs, fs[e.cmd.av[1]].login, e.cmd.proxies.value);
        }
      case TIME(_, _) => TimeDoes(cfg, fs, e);
    }
  }

  lemma LoginLineOk(cfg: Config, fs: Files, e: Event)
    requires AllHoused(cfg.hashlen, fs) && Regular(fs, e) && (Awaits(cfg, fs, e) ==> Intact(e))
    requires Primary(e.peer) && e.cmd.LOGIN? && Exec(cfg, fs, e).code in {200, 201}
    ensures LinesOk(cfg.hashlen, Exec(cfg, fs, e).pushed)
  {
    LoginPushes(cfg, fs, e);
    LoginDoes(cfg, fs, e);
    HeardIs(cfg, fs, e);
    FrontAreWords(e.cmd.av, Heard(cfg, fs, e));
  }

  lemma {:induction false} ProxiesOk(cfg: Config, peer: Peer, now: int, fs: Files, login: string, names: seq<string>)
    requires AllHoused(cfg.hashlen, fs) && MkCookie.PathOk(cfg.hashlen, login)
    ensures LinesOk(cfg.hashlen, Proxies(cfg, peer, now, fs, login, names).pushed)
    decreases |names|
  {
    if names != [] && MkCookie.PathOk(cfg.hashlen, names[0]) {
      ProxiesOk(cfg, peer, now, DoRegister(cfg.hashlen, fs, now, login, names[0]), login, names[1..]);
      assert names[0] in fs ==> MkCookie.Housed(cfg.hashlen, names[0]);
    }
  }

  // ---------------------------------------------------------------- the replica

  /** The replica runs a forwarded line. */
  ghost predicate Gets(cfg: Config, line: seq<string>, e: Event) {
    && LineOk(cfg.hashlen, line)
    && e.peer.key == CGI && e.peer.replicated
    && (exists krbpath, data, memory :: Forwarded(line, krbpath, Ticket.Stored(data), memory) == Some(e.cmd))
  }

  /**
   A REGISTER that comes to a live record idle at the replica: it logs the user out there beyond
   the grey window, and within it refuses a service name that it does not have.
   */
  predicate Hindered(cfg: Config, fs: Files, now: int, line: seq<string>) {
    && |line| == 4 && line[0] == "REGISTER" && IsLogin(fs, line[1]) && fs[line[1]].live
    && var idle := IdleState(cfg, now, fs[line[1]].mtime); idle.Out? || (idle.Grey? && line[3] !in fs)
  }

  /** The replica forwards nothing, and it changes as the line says exactly unless the line is a REGISTER hindered by idleness. */
  lemma ReplicaFollows(cfg: Config, fs: Files, line: seq<string>, e: Event)
    requires Gets(cfg, line, e)
    ensures Seen(Exec(cfg, fs, e).files) == Apply(Seen(fs), line) <==> !Hindered(cfg, fs, e.now, line)
    ensures Exec(cfg, fs, e).pushed == []
  {
    UnpushedIsSilent(cfg, fs, e);
    match e.cmd
    case LOGIN(_, _, _, _) => ReplicaLogin(cfg, fs, line, e);
    case REGISTER(_) => ReplicaRegister(cfg, fs, line, e);
    case LOGOUT(_) =>
      assert IsLive(Seen(fs), line[1]) ==> Seen(Exec(cfg, fs, e).files) == Apply(Seen(fs), line);
    case _ =>
  }

  lemma ReplicaRegister(cfg: Config, fs: Files, line: seq<string>, e: Event)
    requires Gets(cfg, line, e) && e.cmd.REGISTER?
    ensures Seen(Exec(cfg, fs, e).files) == Apply(Seen(fs), line) <==> !Hindered(cfg, fs, e.now, line)
  {
    assert line == ["REGISTER", line[1], line[2], line[3]];
    if IsLogin(fs, line[1]) && fs[line[1]].live {
      match IdleState(cfg, e.now, fs[line[1]].mtime)
      case Active => RegisterSeen(cfg.hashlen, fs, e.now, line[1], line[3]);
      case Grey =>
        assert line[3] !in fs ==> line[3] in Apply(Seen(fs), line) && line[3] !in Seen(fs);
      case Out =>
        assert Seen(Logout(fs, line[1], e.now))[line[1]] != Seen(fs)[line[1]] == Apply(Seen(fs), line)[line[1]];
    }
  }

  /** What the replica reads off a forwarded LOGIN: the same words, and one factor. */
  lemma OneFactor(cfg: Config, line: seq<string>, av: seq<string>)
    requires LineOk(cfg.hashlen, line) && line[0] == "LOGIN"
    requires av == if |line| == 6 then line[..5] + ["kerberos"] else line
    ensures |av| >= 5 && av[1] == line[1] && av[2] == line[2] && av[3] == line[3] && av[4] == line[4]
    ensures AllWords(av) && !Oversize(av) && Named(av) == [line[4]]
  {
    assert IsWord("kerberos");
    assert av[4] == line[4];
  }

  /** A LOGIN that can be stored is turned down only for what the record says already, or for whose it is. */
  lemma LoginTurnedDown(cfg: Config, fs: Files, e: Event)
    requires e.cmd.LOGIN? && e.peer.key.CGI? && e.cmd.transfer.Stored?
    requires |e.cmd.av| >= 5 && MkCookie.Housed(cfg.hashlen, e.cmd.av[1]) && !Oversize(e.cmd.av)
    requires Exec(cfg, fs, e).code !in {200, 201}
    ensures var av := e.cmd.av;
            && Exec(cfg, fs, e).files == fs
            && av[1] in fs
            && (IsLogin(fs, av[1]) && fs[av[1]].live && fs[av[1]].user == av[3] ==>
                  fs[av[1]].cur == av[2] && Missing(Named(av), Factors(fs[av[1]])) == [])
  {
  }

  /** A line that repeats what the record says is no news. */
  lemma NoNews(fs: Files, line: seq<string>)
    requires |line| >= 5 && line[0] == "LOGIN" && line[1] in fs
    requires IsLogin(fs, line[1]) && fs[line[1]].live && fs[line[1]].user == line[3] ==>
               fs[line[1]].cur == line[2] && Missing([line[4]], Factors(fs[line[1]])) == []
    ensures Apply(Seen(fs), line) == Seen(fs)
  {
    if IsLogin(fs, line[1]) {
      Seqs.Nil(Factors(fs[line[1]]));
    }
  }

  lemma ReplicaLogin(cfg: Config, fs: Files, line: seq<string>, e: Event)
    requires Gets(cfg, line, e) && e.cmd.LOGIN?
    ensures Seen(Exec(cfg, fs, e).files) == Apply(Seen(fs), line)
  {
    var av, d := e.cmd.av, Exec(cfg, fs, e);
    OneFactor(cfg, line, av);
    if d.code in {200, 201} {
      LoginDoes(cfg, fs, e);
      LoginAddsFactors(cfg, fs, e);
      MissingOfNone([line[4]]);
      AccountUpdate(fs, line[1], d.files[line[1]], line, Named(av), Known(fs, av));
    } else {
      LoginTurnedDown(cfg, fs, e);
      NoNews(fs, line);
    }
  }

  // ---------------------------------------------------------------- whole runs

  /** Every line pushed during a run of the primary, in order. */
  function Pushed(cfg: Config, fs: Files, es: seq<Event>): seq<seq<string>>
    decreases |es|
  {
    if es == [] then []
    else Exec(cfg, fs, es[0]).pushed + Pushed(cfg, Exec(cfg, fs, es[0]).files, es[1..])
  }

  ghost predicate AllMirrored(cfg: Config, fs: Files, es: seq<Event>)
    decreases |es|
  {
    es != [] ==> Mirrored(cfg, fs, es[0]) && AllMirrored(cfg, Exec(cfg, fs, es[0]).files, es[1..])
  }

  /** The forwarded line is run, and no idleness is in the way. */
  ghost predicate Replays(cfg: Config, fs: Files, line: seq<string>, e: Event) {
    Gets(cfg, line, e) && !Hindered(cfg, fs, e.now, line)
  }

  /** The replica's own run: forwarded lines in order, between them commands of its clients that change no identity. */
  ghost predicate Follows(cfg: Config, fs: Files, lines: seq<seq<string>>, es: seq<Event>)
    decreases |es|
  {
    if es == [] then lines == []
    else
      var next := Exec(cfg, fs, es[0]).files;
      || (lines != [] && Replays(cfg, fs, lines[0], es[0]) && Follows(cfg, next, lines[1..], es[1..]))
      || (Seen(next) == Seen(fs) && Follows(cfg, next, lines, es[1..]))
  }

  lemma {:induction false} RunTold(cfg: Config, fs: Files, es: seq<Event>)
    requires AllMirrored(cfg, fs, es)
    ensures Seen(Run(cfg, fs, es)) == ApplyAll(Seen(fs), Pushed(cfg, fs, es))
    decreases |es|
  {
    if es != [] {
      var d := Exec(cfg, fs, es[0]);
      PrimaryTells(cfg, fs, es[0]);
      RunTold(cfg, d.files, es[1..]);
      ApplyAppend(Seen(fs), d.pushed, Pushed(cfg, d.files, es[1..]));
    }
  }

  lemma {:induction false} RunFollows(cfg: Config, fs: Files, lines: seq<seq<string>>, es: seq<Event>)
    requires Follows(cfg, fs, lines, es)
    ensures Seen(Run(cfg, fs, es)) == ApplyAll(Seen(fs), lines)
    decreases |es|
  {
    if es != [] {
      var next := Exec(cfg, fs, es[0]).files;
      if lines != [] && Replays(cfg, fs, lines[0], es[0]) && Follows(cfg, next, lines[1..], es[1..]) {
        ReplicaFollows(cfg, fs, lines[0], es[0]);
        RunFollows(cfg, next, lines[1..], es[1..]);
      } else {
        RunFollows(cfg, next, lines, es[1..]);
      }
    }
  }

  /**
   Two daemons that agree still agree after any run of mirrored commands at the one and the
   replay of the lines it pushed at the other, at any times at which no REGISTER among them comes to
   a record that is idle there.
   */
  lemma ReplicasAgree(cfg: Config, primary: Files, es: seq<Event>, replicaCfg: Config, replica: Files, fs: seq<Event>)
    requires Seen(primary) == Seen(replica)
    requires AllMirrored(cfg, primary, es)
    requires Follows(replicaCfg, replica, Pushed(cfg, primary, es), fs)
    ensures Seen(Run(cfg, primary, es)) == Seen(Run(replicaCfg, replica, fs))
  {
    RunTold(cfg, primary, es);
    RunFollows(replicaCfg, replica, Pushed(cfg, primary, es), fs);
  }
}
