/** The sweep: one pass of monster over the cookie directory. */
module Monster {
  import opened Text
  import opened Commands
  import MkCookie
  import Laws
  import Ticket
  import Seqs

  /** loggedout_cache, idle_cache and hard_timeout. */
  datatype Ages = Ages(loggedout: int, idle: int, hard: int)

  /** Neither past the hard timeout nor idle too long, and live or not yet logged out too long. */
  predicate Young(ages: Ages, now: int, f: File)
    requires f.Login?
  {
    now - f.ctime <= ages.hard && now - f.mtime <= ages.idle && (f.live || now - f.mtime <= ages.loggedout)
  }

  /** What eat_cookie has last stored through its pointers: the time and the state of a record that stayed. */
  datatype Memo = Memo(itime: int, state: nat)

  /** What stays fixed during a pass. */
  datatype Pass = Pass(hashlen: int, ages: Ages, now: int) {

    predicate Expired(f: File)
      requires f.Login?
    {
      || (!f.live && now - f.mtime > ages.loggedout)
      || now - f.mtime > ages.idle
      || now - f.ctime > ages.hard
    }

    predicate IsExpired(fs: Files, n: string) { IsLogin(fs, n) && Expired(fs[n]) }

    /** eat_cookie: -1 for a file that is no login record, 0 for one that is gone, 1 for one that stays. */
    function Eat(fs: Files, n: string): (Files, int)
    {
      if n !in fs then (fs, 0)
      else if fs[n].Service? then (fs, -1)
      else if Expired(fs[n]) then (fs - {n}, 0)
      else (fs, 1)
    }

    /** One turn of the directory loop. */
    function Visit(fs: Files, n: string): Files
    {
      if !MkCookie.PathOk(hashlen, n) then fs
      else if "cosign=" <= n then Eat(fs, n).0
      else if "cosign-" <= n && IsService(fs, n) then
        var (fs', rc) := Eat(fs, fs[n].login);
        if rc == 0 then fs' - {n} else fs'
      else fs
    }

    function Sweep(fs: Files, order: seq<string>): Files
      decreases |order|
    {
      if order == [] then fs else Sweep(Visit(fs, order[0]), order[1..])
    }

    // ---------------------------------------------- what it tells another daemon

    /** eat_cookie leaves time and state alone when the record goes, or is not there. */
    function Read(fs: Files, n: string, m: Memo): Memo
    {
      if IsLogin(fs, n) && !Expired(fs[n]) then Memo(fs[n].mtime, if fs[n].live then 1 else 0) else m
    }

    function Recall(fs: Files, n: string, m: Memo): Memo
    {
      if !MkCookie.PathOk(hashlen, n) then m
      else if "cosign=" <= n then Read(fs, n, m)
      else if "cosign-" <= n && IsService(fs, n) then Read(fs, fs[n].login, m)
      else m
    }

    /** The line for one entry, to a daemon that last was told at the given time. */
    function Line(fs: Files, n: string, m: Memo, last: nat): seq<string>
    {
      var r := Recall(fs, n, m);
      if MkCookie.PathOk(hashlen, n) && "cosign=" <= n && !IsService(fs, n) && r.itime > last then
        [n + " " + Dec(r.itime) + " " + Dec(r.state)]
      else []
    }

    /** do_dir. */
    function Lines(fs: Files, order: seq<string>, m: Memo, last: nat): seq<string>
      decreases |order|
    {
      if order == [] then []
      else Line(fs, order[0], m, last) + Lines(Visit(fs, order[0]), order[1..], Recall(fs, order[0], m), last)
    }

    /** One directory after the other; the two variables belong to do_dir. */
    function AllLines(fs: Files, listings: seq<seq<string>>, last: nat): seq<string>
      decreases |listings|
    {
      if listings == [] then []
      else Lines(fs, listings[0], Memo(0, 0), last) + AllLines(Sweep(fs, listings[0]), listings[1..], last)
    }

    // ---------------------------------------------- the outcome, without an order

    /** A service cookie that a pass over the names in seen comes to. */
    predicate Pointer(fs: Files, seen: set<string>, s: string) {
      IsService(fs, s) && s in seen && MkCookie.PathOk(hashlen, s) && "cosign-" <= s
    }

    predicate Direct(seen: set<string>, n: string) {
      n in seen && MkCookie.PathOk(hashlen, n) && "cosign=" <= n
    }

    /** The record is reached by its own name or through a service cookie. */
    ghost predicate Reached(fs: Files, seen: set<string>, n: string) {
      Direct(seen, n) || exists s :: Pointer(fs, seen, s) && fs[s].login == n
    }

    /** The file that a pass over seen removes, told from the store before the pass. */
    ghost predicate Doomed(fs: Files, seen: set<string>, n: string) {
      && n in fs
      && if fs[n].Login? then Expired(fs[n]) && Reached(fs, seen, n)
         else Pointer(fs, seen, n) && (fs[n].login !in fs || IsExpired(fs, fs[n].login))
    }

    /** No service cookie names, as its login, a service cookie that the pass removes. */
    ghost predicate NoChain(fs: Files, seen: set<string>) {
      forall s :: Pointer(fs, seen, s) && IsService(fs, fs[s].login) ==> !Doomed(fs, seen, fs[s].login)
    }

    ghost function Swept(fs: Files, seen: set<string>): Files
    {
      map n | n in fs && !Doomed(fs, seen, n) :: fs[n]
    }

    /** Between the store before the pass and the one left so far. */
    ghost predicate Between(fs: Files, seen: set<string>, cur: Files) {
      && (forall n :: n in cur ==> n in fs && cur[n] == fs[n])
      && (forall n :: n in fs && n !in cur ==> Doomed(fs, seen, n) && Settled(fs, cur, n))
    }

    /** Nothing is left to do when n is visited (again). */
    predicate Settled(fs: Files, cur: Files, n: string) {
      && (Direct({n}, n) && IsExpired(fs, n) ==> n !in cur)
      && (Pointer(fs, {n}, n) ==>
           && (IsExpired(fs, fs[n].login) ==> fs[n].login !in cur && n !in cur)
           && (fs[n].login !in fs ==> n !in cur))
    }

    lemma VisitDirect(fs: Files, seen: set<string>, cur: Files, n: string)
      requires Between(fs, seen, cur) && Direct(seen, n)
      ensures Between(fs, seen, Visit(cur, n)) && Settled(fs, Visit(cur, n), n)
    {
      OnePrefix(n);
      assert n in cur ==> IsExpired(cur, n) == IsExpired(fs, n);
    }

    lemma VisitPointer(fs: Files, seen: set<string>, cur: Files, n: string)
      requires NoChain(fs, seen) && Between(fs, seen, cur) && Pointer(cur, seen, n)
      ensures Between(fs, seen, Visit(cur, n)) && Settled(fs, Visit(cur, n), n)
    {
      OnePrefix(n);
      var l := fs[n].login;
      assert Pointer(fs, seen, n);
      if l in fs && l !in cur {
        assert Doomed(fs, seen, l);
      }
    }

    lemma VisitBetween(fs: Files, seen: set<string>, cur: Files, n: string)
      requires NoChain(fs, seen) && Between(fs, seen, cur) && n in seen
      ensures Between(fs, seen, Visit(cur, n)) && Settled(fs, Visit(cur, n), n)
      ensures forall m :: m in Visit(cur, n) ==> m in cur
    {
      OnePrefix(n);
      if Direct(seen, n) {
        VisitDirect(fs, seen, cur, n);
      } else if Pointer(cur, seen, n) {
        VisitPointer(fs, seen, cur, n);
      }
    }

    lemma {:induction false} SweepBetween(fs: Files, seen: set<string>, cur: Files, order: seq<string>)
      requires NoChain(fs, seen) && Between(fs, seen, cur)
      requires forall n :: n in order ==> n in seen
      ensures Between(fs, seen, Sweep(cur, order))
      ensures forall n :: n in order ==> Settled(fs, Sweep(cur, order), n)
      ensures forall n :: n in Sweep(cur, order) ==> n in cur
      decreases |order|
    {
      if order != [] {
        var n, next := order[0], Visit(cur, order[0]);
        VisitBetween(fs, seen, cur, n);
        SweepBetween(fs, seen, next, order[1..]);
        forall m | m in order ensures Settled(fs, Sweep(cur, order), m) {
          if m != n { assert m in order[1..]; }
        }
      }
    }

    /** Every order of the same names leaves the same store. */
    lemma SweepIsSwept(fs: Files, seen: set<string>, order: seq<string>)
      requires NoChain(fs, seen)
      requires forall n :: n in order <==> n in seen
      ensures Sweep(fs, order) == Swept(fs, seen)
    {
      SweepBetween(fs, seen, fs, order);
      var end := Sweep(fs, order);
      forall n | n in fs && Doomed(fs, seen, n) ensures n !in end {
        if fs[n].Login? && !Direct(seen, n) {
          var s :| Pointer(fs, seen, s) && fs[s].login == n;
          assert Settled(fs, end, s);
        } else {
          assert Settled(fs, end, n);
        }
      }
    }

    // ---------------------------------------------- the condition is exact

    lemma {:induction false} SweepShrinks(fs: Files, order: seq<string>)
      ensures forall n :: n in Sweep(fs, order) ==> n in fs
      decreases |order|
    {
      if order != [] {
        SweepShrinks(Visit(fs, order[0]), order[1..]);
      }
    }

    /** A service cookie goes only when it is visited itself. */
    lemma {:induction false} ServiceStays(fs: Files, order: seq<string>, s: string)
      requires IsService(fs, s) && s !in order
      ensures s in Sweep(fs, order)
      decreases |order|
    {
      if order != [] {
        assert order[0] != s && s !in order[1..];
        ServiceStays(Visit(fs, order[0]), order[1..], s);
      }
    }

    /** readdir gives every name in the store once. */
    ghost predicate Enumerates(fs: Files, order: seq<string>) { multiset(order) == multiset(fs.Keys) }

    /** With a chain, visiting the inner cookie first removes the outer one. */
    lemma InnerFirst(fs: Files, s: string, rest: seq<string>)
      requires Pointer(fs, fs.Keys, s) && IsService(fs, fs[s].login) && Doomed(fs, fs.Keys, fs[s].login)
      ensures s !in Sweep(fs, [fs[s].login, s] + rest)
    {
      var l := fs[s].login;
      var first := Visit(fs, l);
      OnePrefix(s);
      OnePrefix(l);
      assert l !in first && (s in first ==> first[s] == fs[s]);
      assert ([l, s] + rest)[1..] == [s] + rest && ([s] + rest)[1..] == rest;
      assert s !in Visit(first, s);
      SweepShrinks(Visit(first, s), rest);
    }

    /** Visiting the outer one first leaves it. */
    lemma OuterFirst(fs: Files, s: string, rest: seq<string>)
      requires Pointer(fs, fs.Keys, s) && IsService(fs, fs[s].login) && fs[s].login != s && s !in rest
      ensures s in Sweep(fs, [s, fs[s].login] + rest)
    {
      var l := fs[s].login;
      OnePrefix(s);
      assert Visit(fs, s) == fs;
      assert ([s, l] + rest)[1..] == [l] + rest;
      ServiceStays(fs, [l] + rest, s);
    }

    /** So the order shows. */
    lemma ChainShows(fs: Files, s: string) returns (inner: seq<string>, outer: seq<string>)
      requires Pointer(fs, fs.Keys, s) && IsService(fs, fs[s].login) && Doomed(fs, fs.Keys, fs[s].login)
      ensures Enumerates(fs, inner) && Enumerates(fs, outer)
      ensures s !in Sweep(fs, inner) && s in Sweep(fs, outer)
    {
      var l := fs[s].login;
      var rest := Enumeration(fs.Keys - {s, l});
      assert s !in rest by { assert multiset(rest)[s] == 0; }
      inner, outer := [l, s] + rest, [s, l] + rest;
      assert multiset(fs.Keys) == multiset{s, l} + multiset(fs.Keys - {s, l});
      InnerFirst(fs, s, rest);
      OuterFirst(fs, s, rest);
    }

    /** The order of the directory does not matter exactly when there is no chain. */
    lemma OrderFree(fs: Files)
      ensures NoChain(fs, fs.Keys) <==>
              forall a, b :: Enumerates(fs, a) && Enumerates(fs, b) ==> Sweep(fs, a) == Sweep(fs, b)
    {
      if NoChain(fs, fs.Keys) {
        forall a, b | Enumerates(fs, a) && Enumerates(fs, b) ensures Sweep(fs, a) == Sweep(fs, b) {
          Members(fs, a);
          Members(fs, b);
          SweepIsSwept(fs, fs.Keys, a);
          SweepIsSwept(fs, fs.Keys, b);
        }
      } else {
        var s :| Pointer(fs, fs.Keys, s) && IsService(fs, fs[s].login) && Doomed(fs, fs.Keys, fs[s].login);
        var a, b := ChainShows(fs, s);
        assert Sweep(fs, a) != Sweep(fs, b);
      }
    }

    lemma Members(fs: Files, order: seq<string>)
      requires Enumerates(fs, order)
      ensures forall n :: n in order <==> n in fs.Keys
    {
      forall n ensures n in order <==> n in fs.Keys {
        assert n in order <==> n in multiset(order);
        assert n in fs.Keys <==> n in multiset(fs.Keys);
      }
    }

    // ---------------------------------------------- what is left

    /** Under a name the pass visited only a young record is left, and every young one is; no visited service cookie dangles. */
    lemma NothingStale(fs: Files, seen: set<string>)
      requires NoChain(fs, seen)
      ensures forall n :: Direct(seen, n) && IsLogin(fs, n) ==> (n in Swept(fs, seen) <==> Young(ages, now, fs[n]))
      ensures forall n :: IsLogin(fs, n) && Young(ages, now, fs[n]) ==> n in Swept(fs, seen)
      ensures forall s :: Pointer(Swept(fs, seen), seen, s) ==>
        && fs[s].login in Swept(fs, seen)
        && (IsLogin(fs, fs[s].login) ==> Young(ages, now, fs[fs[s].login]))
    {
      var end := Swept(fs, seen);
      forall s | Pointer(end, seen, s) ensures fs[s].login in end && !IsExpired(end, fs[s].login) {
        assert !Doomed(fs, seen, s) && Pointer(fs, seen, s);
        assert fs[s].login in fs && !IsExpired(fs, fs[s].login);
      }
    }

    /**
     If idle_cache is no less than idle plus grey time, a record that goes before its hard
     timeout is one that no CHECK at the same moment lets pass.
     */
    lemma OnlyUnusableGo(cfg: Config, fs: Files, seen: set<string>, n: string, e: Event)
      requires ages.idle >= cfg.idle + cfg.grey && cfg.grey >= 0
      requires IsLogin(fs, n) && n !in Swept(fs, seen) && now - fs[n].ctime <= ages.hard
      requires e.now == now && e.cmd.CHECK?
      requires e.cmd.cookie == n || (IsService(fs, e.cmd.cookie) && fs[e.cmd.cookie].login == n)
      ensures !Passed(Exec(cfg, fs, e))
    {
    }
  }

  /** A sequence of the members of a set, each once. */
  lemma Enumeration(names: set<string>) returns (order: seq<string>)
    ensures multiset(order) == multiset(names)
    decreases |names|
  {
    if names == {} {
      order := [];
    } else {
      var n :| n in names;
      var rest := Enumeration(names - {n});
      order := [n] + rest;
      assert multiset(names) == multiset{n} + multiset(names - {n});
    }
  }

  lemma OnePrefix(n: string)
    ensures !("cosign=" <= n && "cosign-" <= n)
  {
    assert "cosign=" <= n ==> n[6] == '=';
    assert "cosign-" <= n ==> n[6] == '-';
  }

  // ---------------------------------------------------------------- where chains come from

  /** Every service cookie is bound to a name that a login cookie has. */
  ghost predicate WellNamed(fs: Files) { forall n :: IsService(fs, n) ==> "cosign=" <= fs[n].login }

  lemma WellNamedNoChain(pass: Pass, fs: Files)
    requires WellNamed(fs)
    ensures pass.NoChain(fs, fs.Keys)
  {
    forall s | pass.Pointer(fs, fs.Keys, s) && IsService(fs, fs[s].login) ensures !pass.Doomed(fs, fs.Keys, fs[s].login) {
      OnePrefix(fs[s].login);
    }
  }

  /** Then there is no chain, and the order of no directory matters. */
  lemma WellNamedOrderFree(pass: Pass, fs: Files, a: seq<string>, b: seq<string>)
    requires WellNamed(fs) && pass.Enumerates(fs, a) && pass.Enumerates(fs, b)
    ensures pass.NoChain(fs, fs.Keys) && pass.Sweep(fs, a) == pass.Sweep(fs, b)
  {
    WellNamedNoChain(pass, fs);
    pass.OrderFree(fs);
  }

  /** The CGI registers service cookies with "cosign=.." names only. */
  predicate NamedWell(e: Event) { e.cmd.REGISTER? && |e.cmd.av| > 1 ==> "cosign=" <= e.cmd.av[1] }

  /** No other command makes a chain possible. */
  lemma WellNamedKept(cfg: Config, fs: Files, e: Event)
    requires WellNamed(fs) && NamedWell(e)
    ensures WellNamed(Exec(cfg, fs, e).files)
  {
    var fs' := Exec(cfg, fs, e).files;
    forall n | IsService(fs', n) ensures "cosign=" <= fs'[n].login {
      Laws.StepBinds(cfg, fs, e, n);
    }
  }

  function Account(now: int): File { File.Login("10.0.0.1", "10.0.0.1", "user", "f", now, "", true, now) }

  function LoginOf(peer: Peer, now: int, n: string): Event
  {
    Event(peer, now, LOGIN(["LOGIN", n, "10.0.0.1", "user", "f"], "", Ticket.Dropped, Memory("", "", "", "", "", None)))
  }

  function RegisterOf(peer: Peer, now: int, l: string, s: string): Event
  {
    Event(peer, now, REGISTER(["REGISTER", l, "10.0.0.1", s]))
  }

  /** From another address, with a ticket that does not end in a dot but in a line too short to reach the cookie. */
  function BadTicket(peer: Peer, now: int, n: string): Event
  {
    Event(peer, now, LOGIN(["LOGIN", n, "10.0.0.2", "user", "f", "kerberos"], "t", Ticket.Mismatch, Memory(n, "10.0.0.2", "user", "f", "kerberos", Some(n))))
  }

  /** Five commands of a CGI: the name a is a login cookie first, and a service cookie in the end. */
  function ChainRun(peer: Peer, now: int, a: string, b: string, z: string): seq<Event>
  {
    [LoginOf(peer, now, a)] + ([RegisterOf(peer, now, a, b)] + ([BadTicket(peer, now, a)] +
    ([LoginOf(peer, now, z)] + ([RegisterOf(peer, now, z, a)] + []))))
  }

  lemma RunOne(cfg: Config, fs: Files, e: Event, es: seq<Event>)
    ensures Run(cfg, fs, [e] + es) == Run(cfg, Exec(cfg, fs, e).files, es)
  {
    assert ([e] + es)[1..] == es;
  }

  lemma FirstLogin(cfg: Config, peer: Peer, now: int, fs: Files, n: string)
    requires cfg.hashlen == 0 && peer.key.CGI? && MkCookie.PathOk(0, n) && n !in fs
    ensures Exec(cfg, fs, LoginOf(peer, now, n)).files == fs[n := Account(now)]
  {
    assert ["LOGIN", n, "10.0.0.1", "user", "f"][4..] == ["f"];
  }

  lemma FirstRegister(cfg: Config, peer: Peer, now: int, fs: Files, l: string, s: string)
    requires cfg.hashlen == 0 && cfg.idle > 0 && peer.key.CGI? && MkCookie.PathOk(0, l) && MkCookie.PathOk(0, s)
    requires l in fs && fs[l] == Account(now) && s !in fs
    ensures Exec(cfg, fs, RegisterOf(peer, now, l, s)).files == fs[s := Service(l)]
  {
  }

  lemma LostLogin(cfg: Config, peer: Peer, now: int, fs: Files, n: string)
    requires cfg.hashlen == 0 && peer.key.CGI? && MkCookie.PathOk(0, n) && n in fs && fs[n] == Account(now)
    ensures Exec(cfg, fs, BadTicket(peer, now, n)).files == fs - {n}
  {
    assert "10.0.0.1"[7] != "10.0.0.2"[7];
  }

  ghost predicate Chainable(a: string, b: string, z: string) {
    && MkCookie.PathOk(0, a) && MkCookie.PathOk(0, b) && MkCookie.PathOk(0, z)
    && "cosign-" <= a && "cosign-" <= b && a != b && z != a && z != b
  }

  function Chained(now: int, a: string, b: string, z: string): Files { map[b := Service(a), z := Account(now), a := Service(z)] }

  /** The first three commands leave a service cookie that points at a name that is free again. */
  lemma PointerWithoutRecord(cfg: Config, peer: Peer, now: int, a: string, b: string, z: string)
    requires cfg.hashlen == 0 && cfg.idle > 0 && peer.key.CGI? && Chainable(a, b, z)
    ensures var f1: Files := map[a := Account(now)];
            && Exec(cfg, map[], LoginOf(peer, now, a)).files == f1
            && Exec(cfg, f1, RegisterOf(peer, now, a, b)).files == f1[b := Service(a)]
            && Exec(cfg, f1[b := Service(a)], BadTicket(peer, now, a)).files == map[b := Service(a)]
  {
    var f1: Files := map[a := Account(now)];
    var f2 := f1[b := Service(a)];
    FirstLogin(cfg, peer, now, map[], a);
    FirstRegister(cfg, peer, now, f1, a, b);
    LostLogin(cfg, peer, now, f2, a);
    assert f2 - {a} == map[b := Service(a)];
  }

  lemma ChainRunEnds(cfg: Config, peer: Peer, now: int, a: string, b: string, z: string)
    requires cfg.hashlen == 0 && cfg.idle > 0 && peer.key.CGI? && Chainable(a, b, z)
    ensures Run(cfg, map[], ChainRun(peer, now, a, b, z)) == Chained(now, a, b, z)
  {
    var f1: Files := map[a := Account(now)];
    var f3: Files := map[b := Service(a)];
    var f4 := f3[z := Account(now)];
    PointerWithoutRecord(cfg, peer, now, a, b, z);
    FirstLogin(cfg, peer, now, f3, z);
    FirstRegister(cfg, peer, now, f4, z, a);
    RunFive(cfg, map[], f1, f1[b := Service(a)], f3, f4, LoginOf(peer, now, a), RegisterOf(peer, now, a, b), BadTicket(peer, now, a),
            LoginOf(peer, now, z), RegisterOf(peer, now, z, a));
  }

  lemma RunFive(cfg: Config, f0: Files, f1: Files, f2: Files, f3: Files, f4: Files, e1: Event, e2: Event, e3: Event, e4: Event, e5: Event)
    requires Exec(cfg, f0, e1).files == f1 && Exec(cfg, f1, e2).files == f2 && Exec(cfg, f2, e3).files == f3 && Exec(cfg, f3, e4).files == f4
    ensures Run(cfg, f0, [e1] + ([e2] + ([e3] + ([e4] + ([e5] + []))))) == Exec(cfg, f4, e5).files
  {
    RunOne(cfg, f0, e1, [e2] + ([e3] + ([e4] + ([e5] + []))));
    RunOne(cfg, f1, e2, [e3] + ([e4] + ([e5] + [])));
    RunOne(cfg, f2, e3, [e4] + ([e5] + []));
    RunOne(cfg, f3, e4, [e5] + []);
    RunOne(cfg, f4, e5, []);
  }

  /** A store with a chain can be reached from the empty one: what a later sweep leaves depends on the order of the directory. */
  lemma ChainIsReachable(cfg: Config, peer: Peer, pass: Pass, now: int, a: string, b: string, z: string)
    requires cfg.hashlen == 0 && cfg.idle > 0 && peer.key.CGI? && Chainable(a, b, z)
    requires pass.hashlen == 0 && pass.now - now > pass.ages.idle
    ensures var fs := Run(cfg, map[], ChainRun(peer, now, a, b, z)); !pass.NoChain(fs, fs.Keys)
  {
    ChainRunEnds(cfg, peer, now, a, b, z);
    ChainIsThere(pass, now, a, b, z);
  }

  lemma ChainIsThere(pass: Pass, now: int, a: string, b: string, z: string)
    requires Chainable(a, b, z) && pass.hashlen == 0 && pass.now - now > pass.ages.idle
    ensures var fs := Chained(now, a, b, z); !pass.NoChain(fs, fs.Keys)
  {
    var fs := Chained(now, a, b, z);
    assert pass.Pointer(fs, fs.Keys, b) && pass.Pointer(fs, fs.Keys, a) && pass.IsExpired(fs, z);
    assert pass.Doomed(fs, fs.Keys, a);
  }

  // ---------------------------------------------------------------- paths

  function Logins(fs: Files): set<string> { set n | n in fs && fs[n].Login? }

  /** Every service cookie names a login cookie that has a path; do_dir exits on one that does not. */
  ghost predicate LoginsHavePaths(hashlen: int, fs: Files) {
    forall n :: IsService(fs, n) ==> MkCookie.PathOk(hashlen, fs[n].login)
  }

  /** The daemon never writes a service cookie that would make the monster exit. */
  lemma LoginsHavePathsKept(cfg: Config, fs: Files, e: Event)
    requires LoginsHavePaths(cfg.hashlen, fs)
    ensures LoginsHavePaths(cfg.hashlen, Exec(cfg, fs, e).files)
  {
    var fs' := Exec(cfg, fs, e).files;
    forall n | IsService(fs', n) ensures MkCookie.PathOk(cfg.hashlen, fs'[n].login) {
      Laws.StepBinds(cfg, fs, e, n);
    }
  }

  lemma OneServiceLess(fs: Files, n: string)
    requires IsService(fs, n)
    ensures |Laws.Services(fs - {n})| + 1 == |Laws.Services(fs)| && Logins(fs - {n}) == Logins(fs)
  {
    assert Laws.Services(fs - {n}) == Laws.Services(fs) - {n};
  }

  // ---------------------------------------------------------------- a whole pass

  /** sixtyfourchars. */
  function Char64(i: int): char
    requires 0 <= i < 64
  {
    if i < 26 then (97 + i) as char          // 'a'..'z'
    else if i < 52 then (39 + i) as char     // 'A'..'Z'
    else if i < 62 then (i - 4) as char      // '0'..'9'
    else if i == 62 then '+' else '-'
  }

  function Place(c: char): (i: int)
    requires MkCookie.SweepChar(c)
    ensures 0 <= i < 64 && Char64(i) == c
  {
    if 'a' <= c <= 'z' then c as int - 97
    else if 'A' <= c <= 'Z' then c as int - 39
    else if '0' <= c <= '9' then c as int + 4
    else if c == '+' then 62 else 63
  }

  lemma PlaceOfChar(i: int)
    requires 0 <= i < 64
    ensures MkCookie.SweepChar(Char64(i)) && Place(Char64(i)) == i
  {
  }

  lemma OneChar(p: int, d: string)
    requires 0 <= p < 64
    ensures d == [Char64(p)] <==> MkCookie.SweepVisits(1, d) && Place(d[0]) == p
  {
    PlaceOfChar(p);
  }

  lemma TwoChars(p: int, q: int, d: string)
    requires 0 <= p < 64 && 0 <= q < 64
    ensures d == [Char64(p), Char64(q)] <==> MkCookie.SweepVisits(2, d) && Place(d[0]) == p && Place(d[1]) == q
  {
    PlaceOfChar(p);
    PlaceOfChar(q);
  }

  /** The inner loop: the directories whose first character is the p-th. */
  method HashDirsOf(p: int) returns (dirs: seq<string>)
    requires 0 <= p < 64
    ensures forall d :: d in dirs <==> MkCookie.SweepVisits(2, d) && Place(d[0]) == p
  {
    dirs := [];
    for q := 0 to 64
      invariant forall d :: d in dirs <==> MkCookie.SweepVisits(2, d) && Place(d[0]) == p && Place(d[1]) < q
    {
      forall d ensures d == [Char64(p), Char64(q)] <==> MkCookie.SweepVisits(2, d) && Place(d[0]) == p && Place(d[1]) == q {
        TwoChars(p, q, d);
      }
      dirs := dirs + [[Char64(p), Char64(q)]];
    }
  }

  /** The directories that main goes through: all that can hold a cookie with a directory. */
  method HashDirs(hashlen: int) returns (dirs: seq<string>)
    requires 0 <= hashlen <= 2
    ensures forall d :: d in dirs <==> MkCookie.SweepVisits(hashlen, d)
  {
    if hashlen == 0 {
      return [""];
    }
    dirs := [];
    for p := 0 to 64
      invariant forall d :: d in dirs <==> MkCookie.SweepVisits(hashlen, d) && Place(d[0]) < p
    {
      var more;
      if hashlen == 1 {
        more := [[Char64(p)]];
        forall d ensures d in more <==> MkCookie.SweepVisits(1, d) && Place(d[0]) == p {
          OneChar(p, d);
        }
      } else {
        more := HashDirsOf(p);
      }
      dirs := dirs + more;
    }
  }

  predicate InDir(hashlen: int, n: string, dir: string) { MkCookie.PathOk(hashlen, n) && MkCookie.HashDir(hashlen, n) == dir }

  /** readdir gives, for one directory after the other, the names that the pass finds there, in any order. */
  ghost predicate Listed(pass: Pass, fs: Files, dirs: seq<string>, listings: seq<seq<string>>)
    decreases |dirs|
  {
    && |dirs| == |listings|
    && (dirs != [] ==>
          && (forall n :: n in listings[0] <==> n in fs && InDir(pass.hashlen, n, dirs[0]))
          && Listed(pass, pass.Sweep(fs, listings[0]), dirs[1..], listings[1..]))
  }

  /** What is left in the directories gone through is settled. */
  lemma {:induction false} PassSettles(pass: Pass, fs: Files, cur: Files, dirs: seq<string>, listings: seq<seq<string>>)
    requires pass.NoChain(fs, fs.Keys) && pass.Between(fs, fs.Keys, cur) && Listed(pass, cur, dirs, listings)
    ensures var end := pass.Sweep(cur, Joined(listings));
            && pass.Between(fs, fs.Keys, end)
            && forall n, d :: n in end && d in dirs && InDir(pass.hashlen, n, d) ==> pass.Settled(fs, end, n)
    decreases |dirs|
  {
    if dirs != [] {
      var mid, end := pass.Sweep(cur, listings[0]), pass.Sweep(cur, Joined(listings));
      SweepAppend(pass, cur, listings[0], Joined(listings[1..]));
      pass.SweepBetween(fs, fs.Keys, cur, listings[0]);
      PassSettles(pass, fs, mid, dirs[1..], listings[1..]);
      pass.SweepShrinks(mid, Joined(listings[1..]));
      forall n, d | n in end && d in dirs && InDir(pass.hashlen, n, d) ensures pass.Settled(fs, end, n) {
        if d == dirs[0] {
          assert n in mid && n in cur && n in listings[0];
          assert pass.Settled(fs, mid, n);
        } else {
          assert d in dirs[1..];
        }
      }
    }
  }

  /** Every login cookie is young, and no service cookie dangles. */
  ghost predicate Clean(pass: Pass, fs: Files) {
    && (forall n :: IsLogin(fs, n) && "cosign=" <= n ==> Young(pass.ages, pass.now, fs[n]))
    && (forall s :: IsService(fs, s) && "cosign-" <= s ==>
          fs[s].login in fs && (IsLogin(fs, fs[s].login) ==> Young(pass.ages, pass.now, fs[fs[s].login])))
  }

  /** What is left is as it was; every young record is, and every service cookie of one. */
  ghost predicate Spared(pass: Pass, fs: Files, end: Files) {
    && (forall n :: n in end ==> n in fs && end[n] == fs[n])
    && (forall n :: IsLogin(fs, n) && Young(pass.ages, pass.now, fs[n]) ==> n in end)
    && (forall s :: IsService(fs, s) && IsLogin(fs, fs[s].login) && Young(pass.ages, pass.now, fs[fs[s].login]) ==> s in end)
  }

  /** A pass over all directories leaves a store clean in which every name has a directory and there is no chain, and takes nothing that is young. */
  lemma PassCleans(pass: Pass, fs: Files, dirs: seq<string>, listings: seq<seq<string>>)
    requires pass.NoChain(fs, fs.Keys) && Laws.AllHoused(pass.hashlen, fs) && Listed(pass, fs, dirs, listings)
    requires forall d :: MkCookie.SweepVisits(pass.hashlen, d) ==> d in dirs
    ensures Clean(pass, pass.Sweep(fs, Joined(listings))) && Spared(pass, fs, pass.Sweep(fs, Joined(listings)))
  {
    var end := pass.Sweep(fs, Joined(listings));
    PassSettles(pass, fs, fs, dirs, listings);
    forall n | n in end ensures pass.Settled(fs, end, n) && n in fs && end[n] == fs[n] && MkCookie.PathOk(pass.hashlen, n) {
      assert MkCookie.Housed(pass.hashlen, n);
      assert InDir(pass.hashlen, n, MkCookie.HashDir(pass.hashlen, n));
    }
    forall s | IsService(end, s) && "cosign-" <= s ensures end[s].login in end && !pass.IsExpired(end, end[s].login) {
      assert pass.Pointer(fs, fs.Keys, s) && pass.Pointer(fs, {s}, s);
      Undoomed(pass, fs, end, s);
    }
    BetweenSpares(pass, fs, end);
  }

  lemma BetweenSpares(pass: Pass, fs: Files, end: Files)
    requires pass.Between(fs, fs.Keys, end)
    ensures Spared(pass, fs, end)
  {
  }

  lemma Undoomed(pass: Pass, fs: Files, end: Files, s: string)
    requires pass.NoChain(fs, fs.Keys) && pass.Between(fs, fs.Keys, end) && pass.Settled(fs, end, s)
    requires s in end && pass.Pointer(fs, fs.Keys, s) && pass.Pointer(fs, {s}, s)
    ensures fs[s].login in end && !pass.IsExpired(end, fs[s].login)
  {
    var l := fs[s].login;
    assert l in fs && !pass.IsExpired(fs, l);
    assert !pass.Doomed(fs, fs.Keys, l);
  }

  // ---------------------------------------------------------------- the life of a store

  /** A command at the daemon, or a turn of a sweep. */
  datatype Turn = Command(e: Event) | Visited(pass: Pass, name: string)

  function Life(cfg: Config, fs: Files, turns: seq<Turn>): Files
    decreases |turns|
  {
    if turns == [] then fs
    else
      var next := match turns[0] case Command(e) => Exec(cfg, fs, e).files case Visited(pass, name) => pass.Visit(fs, name);
      Life(cfg, next, turns[1..])
  }

  lemma VisitKeeps(hashlen: int, pass: Pass, fs: Files, name: string)
    requires WellNamed(fs) && Laws.AllHoused(hashlen, fs)
    ensures WellNamed(pass.Visit(fs, name)) && Laws.AllHoused(hashlen, pass.Visit(fs, name))
  {
    assert forall n :: n in pass.Visit(fs, name) ==> n in fs && pass.Visit(fs, name)[n] == fs[n];
  }

  lemma {:induction false} LifeKeeps(cfg: Config, fs: Files, turns: seq<Turn>)
    requires WellNamed(fs) && Laws.AllHoused(cfg.hashlen, fs)
    requires forall i :: 0 <= i < |turns| && turns[i].Command? ==> NamedWell(turns[i].e)
    ensures WellNamed(Life(cfg, fs, turns)) && Laws.AllHoused(cfg.hashlen, Life(cfg, fs, turns))
    decreases |turns|
  {
    if turns != [] {
      match turns[0]
      case Command(e) =>
        WellNamedKept(cfg, fs, e);
        Laws.AllHousedKept(cfg, fs, e);
        LifeKeeps(cfg, Exec(cfg, fs, e).files, turns[1..]);
      case Visited(pass, name) =>
        VisitKeeps(cfg.hashlen, pass, fs, name);
        LifeKeeps(cfg, pass.Visit(fs, name), turns[1..]);
    }
  }

  /**
   Nothing is ever out of the reach of the sweep: after any commands and any sweeping, from the
   empty store on, one whole pass leaves young logins only and no dangling service cookie. Nothing
   young is lost.
   */
  lemma CleanAfterAnyLife(cfg: Config, turns: seq<Turn>, pass: Pass, dirs: seq<string>, listings: seq<seq<string>>)
    requires forall i :: 0 <= i < |turns| && turns[i].Command? ==> NamedWell(turns[i].e)
    requires pass.hashlen == cfg.hashlen && forall d :: MkCookie.SweepVisits(pass.hashlen, d) ==> d in dirs
    requires Listed(pass, Life(cfg, map[], turns), dirs, listings)
    ensures var fs := Life(cfg, map[], turns);
            Clean(pass, pass.Sweep(fs, Joined(listings))) && Spared(pass, fs, pass.Sweep(fs, Joined(listings)))
  {
    var fs := Life(cfg, map[], turns);
    LifeKeeps(cfg, map[], turns);
    WellNamedNoChain(pass, fs);
    PassCleans(pass, fs, dirs, listings);
  }

  /** The process: its counters and the directory it works on. */
  class Process {
    const pass: Pass
    var files: Files
    var loginTotal: nat
    var serviceTotal: nat
    var loginGone: nat
    var serviceGone: nat

    constructor (pass: Pass, files: Files)
      ensures this.pass == pass && this.files == files
      ensures loginTotal == serviceTotal == loginGone == serviceGone == 0
    {
      this.pass, this.files := pass, files;
      loginTotal, serviceTotal, loginGone, serviceGone := 0, 0, 0, 0;
    }

    /** The number of login cookies there were when the counter stood at zero; a removal that is counted does not change it. */
    ghost function LoginsInAll(): nat
      reads this
    {
      loginGone + |Logins(files)|
    }

    ghost function ServicesInAll(): nat
      reads this
    {
      serviceGone + |Laws.Services(files)|
    }

    /** eat_cookie; what it stores through its pointers is returned. */
    method EatCookie(name: string, m: Memo) returns (rc: int, m': Memo)
      modifies this`files, this`loginGone
      ensures (files, rc) == pass.Eat(old(files), name) && m' == pass.Read(old(files), name, m)
      ensures IsLogin(old(files), name) ==> rc == (if Young(pass.ages, pass.now, old(files)[name]) then 1 else 0)
      ensures LoginsInAll() == old(LoginsInAll()) && Laws.Services(files) == Laws.Services(old(files))
    {
      m' := m;
      if name !in files {
        return 0, m';
      }
      if files[name].Service? {
        return -1, m';
      }
      var ci := files[name];
      if (!ci.live && pass.now - ci.mtime > pass.ages.loggedout)
        || pass.now - ci.mtime > pass.ages.idle
        || pass.now - ci.ctime > pass.ages.hard
      {
        assert Logins(files - {name}) == Logins(files) - {name};
        files := files - {name};
        loginGone := loginGone + 1;
        return 0, m';
      }
      rc, m' := 1, Memo(ci.mtime, if ci.live then 1 else 0);
    }

    /** do_dir, with one other daemon connected. */
    method DoDir(names: seq<string>, last: nat) returns (lines: seq<string>)
      requires LoginsHavePaths(pass.hashlen, files)
      modifies this
      ensures files == pass.Sweep(old(files), names)
      ensures lines == pass.Lines(old(files), names, Memo(0, 0), last)
      ensures LoginsInAll() == old(LoginsInAll()) && ServicesInAll() == old(ServicesInAll())
      ensures LoginsHavePaths(pass.hashlen, files)
    {
      lines := [];
      var m := Memo(0, 0);
      for i := 0 to |names|
        invariant pass.Sweep(files, names[i..]) == pass.Sweep(old(files), names)
        invariant lines + pass.Lines(files, names[i..], m, last) == pass.Lines(old(files), names, Memo(0, 0), last)
        invariant LoginsInAll() == old(LoginsInAll()) && ServicesInAll() == old(ServicesInAll())
        invariant LoginsHavePaths(pass.hashlen, files)
      {
        assert names[i..][1..] == names[i + 1..];
        var line;
        line, m := VisitOne(names[i], m, last);
        Seqs.Assoc(lines, line, pass.Lines(files, names[i + 1..], m, last));
        lines := lines + line;
      }
      Seqs.Nil(lines);
    }

    /** One directory entry. */
    method VisitOne(name: string, m: Memo, last: nat) returns (line: seq<string>, m': Memo)
      requires LoginsHavePaths(pass.hashlen, files)
      modifies this
      ensures files == pass.Visit(old(files), name)
      ensures line == pass.Line(old(files), name, m, last) && m' == pass.Recall(old(files), name, m)
      ensures LoginsInAll() == old(LoginsInAll()) && ServicesInAll() == old(ServicesInAll())
      ensures LoginsHavePaths(pass.hashlen, files)
    {
      line, m' := [], m;
      if !MkCookie.PathOk(pass.hashlen, name) {
        return;
      }
      var rc;
      if "cosign=" <= name {
        loginTotal := loginTotal + 1;
        rc, m' := EatCookie(name, m);
        if rc >= 0 && m'.itime > last {
          line := [name + " " + Dec(m'.itime) + " " + Dec(m'.state)];
        }
      } else if "cosign-" <= name {
        serviceTotal := serviceTotal + 1;
        if !IsService(files, name) {
          return;
        }
        rc, m' := EatCookie(files[name].login, m);
        if rc == 0 {
          OneServiceLess(files, name);
          files := files - {name};
          serviceGone := serviceGone + 1;
        }
      }
    }

    /** The pass over all hashed directories: the counters start at zero and end as the numbers removed. */
    method OnePass(listings: seq<seq<string>>, last: nat) returns (lines: seq<string>)
      requires LoginsHavePaths(pass.hashlen, files)
      modifies this
      ensures files == pass.Sweep(old(files), Joined(listings))
      ensures lines == pass.AllLines(old(files), listings, last)
      ensures loginGone == |Logins(old(files))| - |Logins(files)|
      ensures serviceGone == |Laws.Services(old(files))| - |Laws.Services(files)|
    {
      loginTotal, serviceTotal, loginGone, serviceGone := 0, 0, 0, 0;
      lines := [];
      for i := 0 to |listings|
        invariant pass.Sweep(files, Joined(listings[i..])) == pass.Sweep(old(files), Joined(listings))
        invariant lines + pass.AllLines(files, listings[i..], last) == pass.AllLines(old(files), listings, last)
        invariant LoginsInAll() == old(|Logins(files)|) && ServicesInAll() == old(|Laws.Services(files)|)
        invariant LoginsHavePaths(pass.hashlen, files)
      {
        assert listings[i..][1..] == listings[i + 1..];
        SweepAppend(pass, files, listings[i], Joined(listings[i + 1..]));
        var more := DoDir(listings[i], last);
        Seqs.Assoc(lines, more, pass.AllLines(files, listings[i + 1..], last));
        lines := lines + more;
      }
      Seqs.Nil(lines);
    }
  }

  function Joined(listings: seq<seq<string>>): seq<string>
  {
    if listings == [] then [] else listings[0] + Joined(listings[1..])
  }

  lemma {:induction false} SweepAppend(pass: Pass, fs: Files, a: seq<string>, b: seq<string>)
    ensures pass.Sweep(fs, a + b) == pass.Sweep(pass.Sweep(fs, a), b)
    decreases |a|
  {
    if a == [] {
      Seqs.Nil(b);
    } else {
      Seqs.TailOfCat(a, b);
      SweepAppend(pass, pass.Visit(fs, a[0]), a[1..], b);
    }
  }
}
