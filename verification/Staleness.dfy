/**
 One daemon, its sweep, and any number of web servers with any number of filter processes:
 for how long a cached answer can outlive the LOGOUT.
 */
module Staleness {
  import opened Text
  import opened Commands
  import opened Laws
  import MkCookie
  import Monster
  import C = FilterCache
  import N = Netcheck
  import R = FilterRaces

  datatype Sys = Sys(fs: Files, w: R.World)

  /** What can happen next: a command, a turn of the sweep, a CHECK or REKEY that a process asks for, or anything else a process does. */
  datatype Act =
    | Command(e: Event)
    | Visit(pass: Monster.Pass, name: string)
    | Ask(pid: int, peer: Peer, rekey: bool, allowed: bool, minted: string, a: C.Answer)
    | Local(act: R.Act)

  function Checking(s: Sys, act: Act): Event
    requires act.Ask? && act.pid in s.w.procs
  {
    Event(act.peer, s.w.clock, CHECK(s.w.procs[act.pid].req.cookie, act.rekey, act.allowed, act.minted))
  }

  function Next(cfg: Config, s: Sys, act: Act): Sys
  {
    match act
    case Command(e) => s.(fs := Exec(cfg, s.fs, e).files)
    case Visit(pass, name) => s.(fs := pass.Visit(s.fs, name))
    case Ask(pid, _, _, _, _, a) =>
      if pid !in s.w.procs then s
      else Sys(Exec(cfg, s.fs, Checking(s, act)).files, R.Do(s.w, R.Net(pid, a)))
    case Local(a) => s.(w := R.Do(s.w, a))
  }

  /** The process is told OK only if the daemon said 2xx, and of a new name only if the daemon made one. */
  ghost predicate Faithful(cfg: Config, s: Sys, act: Act) {
    act.Ask? && act.pid in s.w.procs && act.a.verdict.OK? ==>
      var d := Exec(cfg, s.fs, Checking(s, act));
      && Passed(d)
      && (act.a.rekeyed.Some? ==> d.code == 233 && act.a.rekeyed.value == Rekeyed(s.w.procs[act.pid].req.cookie, act.minted))
  }

  predicate Pending(p: R.Proc) { p.Touching? || p.Storing? }

  /** A commit comes at most delay seconds after the CHECK it rests on. */
  ghost predicate Prompt(s: Sys, act: Act, delay: nat) {
    act.Local? && act.act.Commit? && act.act.pid in s.w.procs && Pending(s.w.procs[act.act.pid]) ==>
      s.w.clock <= s.w.procs[act.act.pid].at + delay
  }

  /** One clock for all; minted names are new; answers come from the daemon. */
  ghost predicate Fair(cfg: Config, s: Sys, act: Act, delay: nat) {
    && Prompt(s, act, delay)
    && Faithful(cfg, s, act)
    && (act.Command? ==> act.e.now == s.w.clock && Regular(s.fs, act.e))
    && (act.Ask? && act.pid in s.w.procs ==> Regular(s.fs, Checking(s, act)) && R.NewlyMade(s.w, R.Net(act.pid, act.a)))
    && (act.Local? ==> R.NewlyMade(s.w, act.act) && (act.act.Net? ==> !act.act.a.verdict.OK?))
  }

  /** Neither name comes into being. */
  ghost predicate NotAnew(s: Sys, next: Sys, c: string, l: string) {
    && (c in next.fs ==> c in s.fs)
    && (l in next.fs ==> l in s.fs)
  }

  /**
   An answer is faithful if it is what netcheck_cookie makes of the daemon's reply, the two ends
   agree on whether it is a REKEY, and the record's texts and the new name are words.
   */
  lemma NetcheckIsFaithful(cfg: Config, s: Sys, act: Act, q: N.Query)
    requires act.Ask? && act.pid in s.w.procs && Exec(cfg, s.fs, Checking(s, act)).code >= 0
    requires var d := Exec(cfg, s.fs, Checking(s, act));
             var r := N.Netcheck(q, N.ReplyLine(d));
             && (act.a.verdict.OK? ==> r.reply.OK? && act.a.rekeyed == r.rekeyed)
             && (Passed(d) ==> (q.rekey <==> d.code == 233))
    requires forall n :: IsLogin(s.fs, n) ==> IsWord(s.fs[n].cur) && IsWord(s.fs[n].user)
    requires IsWord(Rekeyed(s.w.procs[act.pid].req.cookie, act.minted))
    ensures Faithful(cfg, s, act)
  {
    var e := Checking(s, act);
    if act.a.verdict.OK? {
      OkMeansPassed(cfg, s.fs, e, q);
      if q.rekey {
        LastWordIsNew(cfg, s.fs, e, q);
      }
    }
  }

  lemma OkMeansPassed(cfg: Config, fs: Files, e: Event, q: N.Query)
    requires e.cmd.CHECK? && Exec(cfg, fs, e).code >= 0 && N.Netcheck(q, N.ReplyLine(Exec(cfg, fs, e))).reply.OK?
    ensures Passed(Exec(cfg, fs, e))
  {
    var d := Exec(cfg, fs, e);
    CheckCodes(cfg, fs, e);
    N.FirstDigit(d.code);
    assert N.ReplyLine(d)[0] == Dec(d.code)[0];
  }

  lemma LastWordIsNew(cfg: Config, fs: Files, e: Event, q: N.Query)
    requires e.cmd.CHECK? && q.rekey && Exec(cfg, fs, e).code == 233 && N.Netcheck(q, N.ReplyLine(Exec(cfg, fs, e))).reply.OK?
    requires forall n :: IsLogin(fs, n) ==> IsWord(fs[n].cur) && IsWord(fs[n].user)
    requires IsWord(Rekeyed(e.cmd.cookie, e.cmd.minted))
    ensures N.Netcheck(q, N.ReplyLine(Exec(cfg, fs, e))).rekeyed == Some(Rekeyed(e.cmd.cookie, e.cmd.minted))
  {
    var renamed := Rekeyed(e.cmd.cookie, e.cmd.minted);
    N.PassedText(cfg, fs, e);
    var rec := fs[N.LoginOf(fs, e.cmd.cookie)];
    N.ReplyWords(233, e.peer, rec, renamed);
    N.OneWord(renamed);
    WordAtTheEnd(q, N.ReplyLine(Exec(cfg, fs, e)), [Dec(233), rec.cur, rec.user] + Factors(rec), renamed);
  }

  lemma WordAtTheEnd(q: N.Query, line: string, words: seq<string>, last: string)
    requires Tokens(line) == words + [last] && q.rekey && N.Netcheck(q, line).reply.OK?
    ensures N.Netcheck(q, line).rekeyed == Some(last)
  {
  }

  // ---------------------------------------------------------------- nothing is from the future, and new names are nobody's

  ghost predicate Timely(w: R.World, p: R.Proc) {
    && p.path == p.req.cookie
    && p.tv <= w.clock
    && (Pending(p) ==> p.tv <= p.at <= w.clock)
  }

  ghost predicate AllTimely(s: Sys) {
    && R.AllReserved(s.w)
    && (forall slot :: slot in s.w.cache ==> s.w.cache[slot].mtime <= s.w.clock)
    && (forall pid :: pid in s.w.procs ==> Timely(s.w, s.w.procs[pid]))
  }

  lemma DoReserved(w: R.World, act: R.Act)
    requires R.AllReserved(w) && R.NewlyMade(w, act)
    ensures R.AllReserved(R.Do(w, act))
  {
    var next := R.Do(w, act);
    forall pid | pid in next.procs && R.Moves(next.procs[pid]) ensures R.Reserved(next, pid) {
      R.StepReserved(w, act, pid);
    }
  }

  /** No step of the processes writes anything from the future. */
  lemma DoTimely(w: R.World, act: R.Act, pid: int)
    requires forall slot :: slot in w.cache ==> w.cache[slot].mtime <= w.clock
    requires forall p :: p in w.procs ==> Timely(w, w.procs[p])
    requires R.AllReserved(w)
    ensures forall slot :: slot in R.Do(w, act).cache ==> R.Do(w, act).cache[slot].mtime <= R.Do(w, act).clock
    ensures pid in R.Do(w, act).procs ==> Timely(R.Do(w, act), R.Do(w, act).procs[pid])
    ensures w.clock <= R.Do(w, act).clock
  {
    if pid in w.procs { assert Timely(w, w.procs[pid]); }
    if act.Commit? && act.pid in w.procs { FinishTimely(w, act.pid, pid); }
  }

  lemma FinishTimely(w: R.World, done: int, pid: int)
    requires forall slot :: slot in w.cache ==> w.cache[slot].mtime <= w.clock
    requires forall p :: p in w.procs ==> Timely(w, w.procs[p])
    requires R.AllReserved(w) && done in w.procs
    ensures var next := R.Finish(w, done);
            && (forall slot :: slot in next.cache ==> next.cache[slot].mtime <= next.clock)
            && (pid in next.procs ==> Timely(next, next.procs[pid])) && next.clock == w.clock
  {
    assert Timely(w, w.procs[done]);
    if pid in w.procs { assert Timely(w, w.procs[pid]); }
    R.ReservedIsFresh(w, R.Commit(done));
  }

  lemma StepTimely(cfg: Config, s: Sys, act: Act, delay: nat)
    requires AllTimely(s) && Fair(cfg, s, act, delay)
    ensures AllTimely(Next(cfg, s, act)) && Next(cfg, s, act).w.clock >= s.w.clock
  {
    if act.Local? {
      WorldTimely(s, act.act);
    } else if act.Ask? && act.pid in s.w.procs {
      WorldTimely(s, R.Net(act.pid, act.a));
    }
  }

  lemma WorldTimely(s: Sys, act: R.Act)
    requires AllTimely(s) && R.NewlyMade(s.w, act)
    ensures AllTimely(s.(w := R.Do(s.w, act))) && s.w.clock <= R.Do(s.w, act).clock
  {
    DoReserved(s.w, act);
    var next := R.Do(s.w, act);
    DoTimely(s.w, act, 0);
    forall pid | pid in next.procs ensures Timely(next, next.procs[pid]) {
      DoTimely(s.w, act, pid);
    }
  }

  // ---------------------------------------------------------------- after the LOGOUT

  /** The login cookie is dead or gone, and the service cookie bound to it or gone. */
  ghost predicate Over(fs: Files, c: string, l: string) {
    && (c in fs ==> fs[c] == Service(l))
    && (l in fs ==> IsDead(fs, l))
  }

  lemma OverNeverPasses(cfg: Config, fs: Files, e: Event, c: string, l: string)
    requires Over(fs, c, l) && e.cmd.CHECK? && e.cmd.cookie == c
    ensures !Passed(Exec(cfg, fs, e))
  {
  }

  lemma ExecKeepsOver(cfg: Config, fs: Files, e: Event, c: string, l: string)
    requires Over(fs, c, l) && Regular(fs, e)
    requires var fs' := Exec(cfg, fs, e).files; (c in fs' ==> c in fs) && (l in fs' ==> l in fs)
    ensures Over(Exec(cfg, fs, e).files, c, l)
  {
    var fs' := Exec(cfg, fs, e).files;
    if c in fs' { StepPersists(cfg, fs, e, c); }
    if l in fs' { StepPersists(cfg, fs, e, l); }
  }

  lemma StepOver(cfg: Config, s: Sys, act: Act, delay: nat, c: string, l: string)
    requires Over(s.fs, c, l) && Fair(cfg, s, act, delay) && NotAnew(s, Next(cfg, s, act), c, l)
    ensures Over(Next(cfg, s, act).fs, c, l)
  {
    match act
    case Command(e) => ExecKeepsOver(cfg, s.fs, e, c, l);
    case Visit(pass, name) =>
    case Ask(pid, _, _, _, _, _) => if pid in s.w.procs { ExecKeepsOver(cfg, s.fs, Checking(s, act), c, l); }
    case Local(_) =>
  }

  /** What is still under way for c was asked before; what began too late is not answered OK. */
  ghost predicate Waning(p: R.Proc, c: string, t: int, delay: nat) {
    && (Pending(p) && (p.req.cookie == c || (p.Storing? && p.target == c)) ==> p.at <= t)
    && (p.Answered? && p.req.cookie == c && p.verdict.OK? ==> p.tv <= t + delay + 60)
  }

  ghost predicate AllWaning(w: R.World, c: string, t: int, delay: nat) {
    && t <= w.clock
    && (forall web :: (web, c) in w.cache ==> w.cache[(web, c)].mtime <= t + delay)
    && (forall pid :: pid in w.procs ==> Waning(w.procs[pid], c, t, delay))
  }

  /** The processes cannot learn anything good about c any more. */
  ghost predicate Refused(s: Sys, act: R.Act, c: string) {
    act.Net? && act.pid in s.w.procs && act.a.verdict.OK? ==>
      s.w.procs[act.pid].req.cookie != c && act.a.rekeyed != Some(c)
  }

  lemma AdvanceWaning(s: Sys, act: R.Act, p: R.Proc, c: string, t: int, delay: nat)
    requires AllTimely(s) && AllWaning(s.w, c, t, delay)
    requires (act.Look? || act.Net?) && act.pid in s.w.procs && p == s.w.procs[act.pid]
    requires Refused(s, act, c)
    ensures Waning(R.Advance(s.w, p, act), c, t, delay)
  {
    assert Timely(s.w, p) && Waning(p, c, t, delay);
  }

  lemma FinishWaning(s: Sys, pid: int, c: string, t: int, delay: nat)
    requires AllTimely(s) && AllWaning(s.w, c, t, delay) && Prompt(s, Local(R.Commit(pid)), delay)
    requires pid in s.w.procs
    ensures AllWaning(R.Finish(s.w, pid), c, t, delay)
  {
    var p := s.w.procs[pid];
    assert Timely(s.w, p) && Waning(p, c, t, delay);
    R.ReservedIsFresh(s.w, R.Commit(pid));
  }

  lemma DoWaning(s: Sys, act: R.Act, c: string, t: int, delay: nat)
    requires AllTimely(s) && AllWaning(s.w, c, t, delay) && Prompt(s, Local(act), delay)
    requires Refused(s, act, c)
    ensures AllWaning(R.Do(s.w, act), c, t, delay)
  {
    if (act.Look? || act.Net?) && act.pid in s.w.procs {
      AdvanceWaning(s, act, s.w.procs[act.pid], c, t, delay);
    } else if act.Commit? && act.pid in s.w.procs {
      FinishWaning(s, act.pid, c, t, delay);
    }
  }

  /** The daemon gives no 2xx for c, and makes no new name that is c. */
  lemma NothingGood(cfg: Config, s: Sys, act: Act, delay: nat, c: string, l: string)
    requires act.Ask? && Over(s.fs, c, l) && Fair(cfg, s, act, delay) && NotAnew(s, Next(cfg, s, act), c, l)
    ensures Refused(s, R.Net(act.pid, act.a), c)
  {
    if act.pid in s.w.procs && act.a.verdict.OK? {
      var e := Checking(s, act);
      if e.cmd.cookie == c { OverNeverPasses(cfg, s.fs, e, c, l); }
      if act.a.rekeyed.Some? { RekeyMovesBinding(cfg, s.fs, e); }
    }
  }

  lemma StepWaning(cfg: Config, s: Sys, act: Act, delay: nat, c: string, l: string, t: int)
    requires AllTimely(s) && AllWaning(s.w, c, t, delay) && Over(s.fs, c, l)
    requires Fair(cfg, s, act, delay) && NotAnew(s, Next(cfg, s, act), c, l)
    ensures AllWaning(Next(cfg, s, act).w, c, t, delay)
  {
    match act
    case Command(_) =>
    case Visit(_, _) =>
    case Ask(pid, _, _, _, _, a) =>
      if pid in s.w.procs {
        NothingGood(cfg, s, act, delay, c, l);
        DoWaning(s, R.Net(pid, a), c, t, delay);
      }
    case Local(a) => DoWaning(s, a, c, t, delay);
  }

  // ---------------------------------------------------------------- runs

  function Last(cfg: Config, s: Sys, acts: seq<Act>): Sys
    decreases |acts|
  {
    if acts == [] then s else Last(cfg, Next(cfg, s, acts[0]), acts[1..])
  }

  ghost predicate AllFair(cfg: Config, s: Sys, acts: seq<Act>, delay: nat)
    decreases |acts|
  {
    acts != [] ==> Fair(cfg, s, acts[0], delay) && AllFair(cfg, Next(cfg, s, acts[0]), acts[1..], delay)
  }

  ghost predicate NeverAnew(cfg: Config, s: Sys, acts: seq<Act>, c: string, l: string)
    decreases |acts|
  {
    acts != [] ==> NotAnew(s, Next(cfg, s, acts[0]), c, l) && NeverAnew(cfg, Next(cfg, s, acts[0]), acts[1..], c, l)
  }

  lemma {:induction false} RunTimely(cfg: Config, s: Sys, acts: seq<Act>, delay: nat)
    requires AllTimely(s) && AllFair(cfg, s, acts, delay)
    ensures AllTimely(Last(cfg, s, acts))
    decreases |acts|
  {
    if acts != [] {
      StepTimely(cfg, s, acts[0], delay);
      RunTimely(cfg, Next(cfg, s, acts[0]), acts[1..], delay);
    }
  }

  lemma {:induction false} RunWaning(cfg: Config, s: Sys, acts: seq<Act>, delay: nat, c: string, l: string, t: int)
    requires AllTimely(s) && AllWaning(s.w, c, t, delay) && Over(s.fs, c, l)
    requires AllFair(cfg, s, acts, delay) && NeverAnew(cfg, s, acts, c, l)
    ensures AllWaning(Last(cfg, s, acts).w, c, t, delay)
    decreases |acts|
  {
    if acts != [] {
      StepTimely(cfg, s, acts[0], delay);
      StepWaning(cfg, s, acts[0], delay, c, l, t);
      StepOver(cfg, s, acts[0], delay, c, l);
      RunWaning(cfg, Next(cfg, s, acts[0]), acts[1..], delay, c, l, t);
    }
  }

  /** The LOGOUT itself starts the waning. */
  lemma LogoutStarts(cfg: Config, s: Sys, logout: Event, delay: nat, c: string, l: string)
    requires AllTimely(s) && logout.cmd.LOGOUT? && |logout.cmd.av| == 3 && logout.cmd.av[1] == l
    requires Exec(cfg, s.fs, logout).code == 210 && (c in s.fs ==> s.fs[c] == Service(l))
    ensures var next := Next(cfg, s, Command(logout)); Over(next.fs, c, l) && AllWaning(next.w, c, s.w.clock, delay)
  {
    forall pid | pid in s.w.procs ensures Waning(s.w.procs[pid], c, s.w.clock, delay) {
      assert Timely(s.w, s.w.procs[pid]);
    }
  }

  /**
   Bounded staleness: from a state with nothing dated in the future let anything happen, then log
   l out, then let anything happen that does not create l or c anew. No call about a service
   cookie c that is bound to l, or has been renamed or swept away before, begun at any web server
   more than 60 seconds and one commit delay after the LOGOUT, is answered OK.
   */
  lemma StaleForAMinute(cfg: Config, s: Sys, before: seq<Act>, logout: Event, after: seq<Act>, delay: nat,
                        c: string, l: string, pid: int)
    requires AllTimely(s) && AllFair(cfg, s, before, delay)
    requires var mid := Last(cfg, s, before);
             && logout.cmd.LOGOUT? && |logout.cmd.av| == 3 && logout.cmd.av[1] == l && Fair(cfg, mid, Command(logout), delay)
             && Exec(cfg, mid.fs, logout).code == 210 && (c in mid.fs ==> mid.fs[c] == Service(l))
             && AllFair(cfg, Next(cfg, mid, Command(logout)), after, delay)
             && NeverAnew(cfg, Next(cfg, mid, Command(logout)), after, c, l)
    ensures var w := Last(cfg, Next(cfg, Last(cfg, s, before), Command(logout)), after).w;
            pid in w.procs && w.procs[pid].Answered? && w.procs[pid].req.cookie == c && w.procs[pid].tv > logout.now + delay + 60
            ==> !w.procs[pid].verdict.OK?
  {
    RunTimely(cfg, s, before, delay);
    var mid := Last(cfg, s, before);
    var out := Next(cfg, mid, Command(logout));
    StepTimely(cfg, mid, Command(logout), delay);
    LogoutStarts(cfg, mid, logout, delay, c, l);
    RunWaning(cfg, out, after, delay, c, l, logout.now);
    var w := Last(cfg, out, after).w;
    if pid in w.procs { assert Waning(w.procs[pid], c, logout.now, delay); }
  }

  // ---------------------------------------------------------------- the bound is met

  lemma Unroll(cfg: Config, s: Sys, act: Act, rest: seq<Act>, delay: nat, c: string, l: string)
    ensures Last(cfg, s, [act] + rest) == Last(cfg, Next(cfg, s, act), rest)
    ensures AllFair(cfg, s, [act] + rest, delay) <==> Fair(cfg, s, act, delay) && AllFair(cfg, Next(cfg, s, act), rest, delay)
    ensures NeverAnew(cfg, s, [act] + rest, c, l) <==>
            NotAnew(s, Next(cfg, s, act), c, l) && NeverAnew(cfg, Next(cfg, s, act), rest, c, l)
  {
    assert ([act] + rest)[1..] == rest;
  }

  /** After a minute, one more call. */
  function LastCall(req: C.Request): seq<Act>
  {
    [Local(R.Tick(60))] + ([Local(R.Begin(1, 0, req))] + ([Local(R.Look(1))] + []))
  }

  /** The call comes just in time to be answered from the cache. */
  lemma StillHit(w: R.World, req: C.Request, e: C.Entry)
    requires MkCookie.PathOk(req.hashlen, req.cookie) && req.checkip.NEVER? && req.required == [] && 1 !in w.procs
    requires w.cache == map[(0, req.cookie) := e] && e.mtime == w.clock
    ensures var begun := R.Do(R.Do(w, R.Tick(60)), R.Begin(1, 0, req));
            var w' := R.Do(begun, R.Look(1));
            1 in w'.procs && w'.procs[1] == R.Answered(req, 0, req.cookie, w.clock + 60, C.OK)
  {
    var begun := R.Do(R.Do(w, R.Tick(60)), R.Begin(1, 0, req));
    var p := R.Started(req, 0, req.cookie, w.clock + 60);
    assert begun == R.World(w.cache, w.procs[1 := p], w.clock + 60);
    assert R.Lookup(begun, p) == Some(e);
    assert C.Hit(req, Some(e), w.clock + 60);
  }

  /** The processes' own steps are fair as long as no commit comes too late and no new name is sent in. */
  lemma LocalFair(cfg: Config, s: Sys, act: R.Act, delay: nat, c: string, l: string)
    requires !act.Net? && Prompt(s, Local(act), delay)
    requires act.Begin? ==> forall pid :: pid in s.w.procs ==> !R.Moves(s.w.procs[pid])
    ensures Fair(cfg, s, Local(act), delay) && NotAnew(s, Next(cfg, s, Local(act)), c, l)
  {
  }

  lemma CallAfterAMinute(cfg: Config, s: Sys, delay: nat, req: C.Request, e: C.Entry, l: string)
    requires MkCookie.PathOk(req.hashlen, req.cookie) && req.checkip.NEVER? && req.required == [] && 1 !in s.w.procs
    requires forall pid :: pid in s.w.procs ==> !R.Moves(s.w.procs[pid])
    requires s.w.cache == map[(0, req.cookie) := e] && e.mtime == s.w.clock
    ensures AllFair(cfg, s, LastCall(req), delay) && NeverAnew(cfg, s, LastCall(req), req.cookie, l)
    ensures var w := Last(cfg, s, LastCall(req)).w;
            1 in w.procs && w.procs[1] == R.Answered(req, 0, req.cookie, s.w.clock + 60, C.OK)
  {
    var c := req.cookie;
    var a1, a2, a3 := R.Tick(60), R.Begin(1, 0, req), R.Look(1);
    var s1 := Next(cfg, s, Local(a1));
    var s2 := Next(cfg, s1, Local(a2));
    StillHit(s.w, req, e);
    LocalFair(cfg, s, a1, delay, c, l);
    LocalFair(cfg, s1, a2, delay, c, l);
    LocalFair(cfg, s2, a3, delay, c, l);
    Unroll(cfg, s2, Local(a3), [], delay, c, l);
    Unroll(cfg, s1, Local(a2), [Local(a3)] + [], delay, c, l);
    Unroll(cfg, s, Local(a1), [Local(a2)] + ([Local(a3)] + []), delay, c, l);
  }

  /** After the LOGOUT: the late commit, and that call. */
  function LastMinute(delay: nat, req: C.Request): seq<Act>
  {
    [Local(R.Tick(delay))] + ([Local(R.Commit(0))] + LastCall(req))
  }

  lemma LateCommit(cfg: Config, s: Sys, delay: nat, req: C.Request, si: C.Info, l: string)
    requires MkCookie.PathOk(req.hashlen, req.cookie) && req.checkip.NEVER? && req.required == []
    requires s.w == R.World(map[], map[0 := R.Storing(req, 0, req.cookie, s.w.clock, s.w.clock, None, si, req.cookie)], s.w.clock)
    ensures AllFair(cfg, s, LastMinute(delay, req), delay) && NeverAnew(cfg, s, LastMinute(delay, req), req.cookie, l)
    ensures var w := Last(cfg, s, LastMinute(delay, req)).w;
            1 in w.procs && w.procs[1] == R.Answered(req, 0, req.cookie, s.w.clock + delay + 60, C.OK)
  {
    var c, t := req.cookie, s.w.clock + delay;
    var a1, a2 := R.Tick(delay), R.Commit(0);
    var s1 := Next(cfg, s, Local(a1));
    var s2 := Next(cfg, s1, Local(a2));
    assert s2.w == R.World(map[(0, c) := C.Entry(C.Written(si), t)], map[0 := R.Answered(req, 0, c, s.w.clock, C.OK)], t);
    LocalFair(cfg, s, a1, delay, c, l);
    LocalFair(cfg, s1, a2, delay, c, l);
    CallAfterAMinute(cfg, s2, delay, req, C.Entry(C.Written(si), t), l);
    Unroll(cfg, s1, Local(a2), LastCall(req), delay, c, l);
    Unroll(cfg, s, Local(a1), [Local(a2)] + LastCall(req), delay, c, l);
  }

  lemma OneIsTimely(s: Sys, req: C.Request)
    requires s.w == R.World(map[], map[0 := R.Looked(req, 0, req.cookie, s.w.clock, None)], s.w.clock)
    ensures AllTimely(s)
  {
  }

  lemma AnswerIsStored(w: R.World, req: C.Request, a: C.Answer)
    requires w == R.World(map[], map[0 := R.Looked(req, 0, req.cookie, w.clock, None)], w.clock)
    requires a.verdict.OK? && a.rekeyed.None? && req.checkip.NEVER? && !req.rekey
    ensures R.Do(w, R.Net(0, a)) == R.World(map[], map[0 := R.Storing(req, 0, req.cookie, w.clock, w.clock, None, a.si, req.cookie)], w.clock)
  {
    assert R.Do(w, R.Net(0, a)).procs == map[0 := R.Storing(req, 0, req.cookie, w.clock, w.clock, None, a.si, req.cookie)];
  }

  /**
   The bound cannot be lowered: whatever the delay, with a CHECK answered just before the LOGOUT
   and committed as late as allowed, a call begun exactly 60 seconds after that is answered OK.
   */
  lemma BoundIsMet(cfg: Config, s: Sys, check: Act, logout: Event, delay: nat, req: C.Request, l: string)
    requires s.w == R.World(map[], map[0 := R.Looked(req, 0, req.cookie, s.w.clock, None)], s.w.clock)
    requires MkCookie.PathOk(req.hashlen, req.cookie) && req.checkip.NEVER? && req.required == [] && !req.rekey
    requires check.Ask? && check.pid == 0 && check.a.verdict.OK? && check.a.rekeyed.None? && !check.rekey
    requires Fair(cfg, s, check, delay) && req.cookie in s.fs && s.fs[req.cookie] == Service(l)
    requires logout.cmd.LOGOUT? && |logout.cmd.av| == 3 && logout.cmd.av[1] == l && logout.now == s.w.clock
    requires Exec(cfg, Next(cfg, s, check).fs, logout).code == 210
    ensures var out, after := Next(cfg, Next(cfg, s, check), Command(logout)), LastMinute(delay, req);
            && AllTimely(s) && AllFair(cfg, out, after, delay) && NeverAnew(cfg, out, after, req.cookie, l)
            && var w := Last(cfg, out, after).w;
               1 in w.procs && w.procs[1] == R.Answered(req, 0, req.cookie, logout.now + delay + 60, C.OK)
  {
    OneIsTimely(s, req);
    AnswerIsStored(s.w, req, check.a);
    var out := Next(cfg, Next(cfg, s, check), Command(logout));
    LateCommit(cfg, out, delay, req, check.a.si, l);
  }
}
