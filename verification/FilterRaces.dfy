/**
 Any number of filter processes at once, each in the middle of cosign_cookie_valid, over the
 cache directories of any number of web servers.
 */
module FilterRaces {
  import opened Text
  import opened FilterCache
  import MkCookie

  /** A cache file: the web server and the cookie. */
  type Slot = (int, string)

  /** Where one call is: at tv it asked for the time; at is the time of its CHECK. */
  datatype Proc =
    | Started(req: Request, web: int, path: string, tv: int)
    | Looked(req: Request, web: int, path: string, tv: int, seen: Option<Entry>)
    | Touching(req: Request, web: int, path: string, tv: int, at: int)
    | Storing(req: Request, web: int, path: string, tv: int, at: int, seen: Option<Entry>, si: Info, target: string)
    | Answered(req: Request, web: int, path: string, tv: int, verdict: Verdict)

  datatype World = World(cache: map<Slot, Entry>, procs: map<int, Proc>, clock: int)

  datatype Act =
    | Begin(pid: int, web: int, req: Request)
    | Look(pid: int)
    | Net(pid: int, a: Answer)
    | Commit(pid: int)
    | Tick(seconds: nat)

  function Lookup(w: World, p: Proc): Option<Entry>
  {
    if (p.web, p.path) in w.cache then Some(w.cache[(p.web, p.path)]) else None
  }

  /** The next state of one process, which does not touch the cache. */
  function Advance(w: World, p: Proc, act: Act): Proc
  {
    match (p, act)
    case (Started(req, web, path, tv), Look(_)) =>
      if Hit(req, Lookup(w, p), tv) then Answered(req, web, path, tv, OK) else Looked(req, web, path, tv, Lookup(w, p))
    case (Looked(req, web, path, tv, seen), Net(_, a)) =>
      (match Decide(req, path, tv, seen, a)
       case Fail(v) => Answered(req, web, path, tv, v)
       case Freshen => Touching(req, web, path, tv, w.clock)
       case Store(target) => Storing(req, web, path, tv, w.clock, seen, a.si, target))
    case _ => p
  }

  /** The system call that ends a call: utime, rename, or a link that fails if the name is taken. */
  function Finish(w: World, pid: int): World
    requires pid in w.procs
  {
    var p := w.procs[pid];
    match p
    case Touching(req, web, path, tv, _) =>
      var slot := (web, path);
      World(if slot in w.cache then w.cache[slot := w.cache[slot].(mtime := w.clock)] else w.cache,
            w.procs[pid := Answered(req, web, path, tv, OK)], w.clock)
    case Storing(req, web, path, tv, _, seen, si, target) =>
      if seen.None? && (web, target) in w.cache then w.(procs := w.procs[pid := Started(req, web, target, tv)])
      else World(w.cache[(web, target) := Entry(Written(si), w.clock)],
                 w.procs[pid := Answered(req, web, path, tv, OK)], w.clock)
    case _ => w
  }

  function Do(w: World, act: Act): World
  {
    match act
    case Tick(k) => w.(clock := w.clock + k)
    case Begin(pid, web, req) =>
      if pid in w.procs then w
      else w.(procs := w.procs[pid := if MkCookie.PathOk(req.hashlen, req.cookie) then Started(req, web, req.cookie, w.clock)
                                      else Answered(req, web, req.cookie, w.clock, ERROR)])
    case Commit(pid) => if pid in w.procs then Finish(w, pid) else w
    case _ => if act.pid in w.procs then w.(procs := w.procs[act.pid := Advance(w, w.procs[act.pid], act)]) else w
  }

  function DoAll(w: World, acts: seq<Act>): World
    decreases |acts|
  {
    if acts == [] then w else DoAll(Do(w, acts[0]), acts[1..])
  }

  /** The call stores the answer under another name than it came with. */
  predicate Moves(p: Proc) { p.Storing? && p.target != p.path }

  /** A rekeyed name is minted: when it is stored, no file has it yet. */
  ghost predicate Fresh(w: World, act: Act) {
    act.Commit? && act.pid in w.procs && Moves(w.procs[act.pid]) ==>
      (w.procs[act.pid].web, w.procs[act.pid].target) !in w.cache
  }

  ghost predicate AllFresh(w: World, acts: seq<Act>)
    decreases |acts|
  {
    acts != [] ==> Fresh(w, acts[0]) && AllFresh(Do(w, acts[0]), acts[1..])
  }

  // ---------------------------------------------------------------- owners

  /** What a process has read of a file's owner is still so, and what it is about to write agrees. */
  ghost predicate Agrees(w: World, p: Proc) {
    && (p.Looked? && p.seen.Some? ==>
          (p.web, p.path) in w.cache && SameOwner(p.seen.value.info, w.cache[(p.web, p.path)].info))
    && (p.Storing? && p.seen.Some? ==>
          (p.web, p.path) in w.cache && SameOwner(p.si, w.cache[(p.web, p.path)].info))
  }

  ghost predicate AllAgree(w: World) { forall pid :: pid in w.procs ==> Agrees(w, w.procs[pid]) }

  /** Every file stays, with the user and the realm it has. */
  ghost predicate OwnersKept(a: World, b: World) {
    forall slot :: slot in a.cache ==> slot in b.cache && SameOwner(a.cache[slot].info, b.cache[slot].info)
  }

  lemma AgreesKept(a: World, b: World, p: Proc)
    requires Agrees(a, p) && OwnersKept(a, b)
    ensures Agrees(b, p)
  {
  }

  lemma FinishKeepsOwners(w: World, pid: int)
    requires pid in w.procs && Agrees(w, w.procs[pid]) && Fresh(w, Commit(pid))
    ensures OwnersKept(w, Finish(w, pid))
  {
  }

  lemma StepKeepsOwners(w: World, act: Act)
    requires AllAgree(w) && Fresh(w, act)
    ensures OwnersKept(w, Do(w, act)) && AllAgree(Do(w, act))
  {
    var next := Do(w, act);
    if act.Commit? && act.pid in w.procs {
      FinishKeepsOwners(w, act.pid);
    }
    forall pid | pid in next.procs ensures Agrees(next, next.procs[pid]) {
      if pid in w.procs && next.procs[pid] == w.procs[pid] {
        AgreesKept(w, next, w.procs[pid]);
      }
    }
  }

  /**
   However the reads, checks and commits of all processes interleave, and whatever the daemons
   answer, a cache file keeps its user and its realm for ever.
   */
  lemma {:induction false} OwnersNeverChange(w: World, acts: seq<Act>)
    requires AllAgree(w) && AllFresh(w, acts)
    ensures OwnersKept(w, DoAll(w, acts)) && AllAgree(DoAll(w, acts))
    decreases |acts|
  {
    if acts != [] {
      var next := Do(w, acts[0]);
      StepKeepsOwners(w, acts[0]);
      OwnersNeverChange(next, acts[1..]);
    }
  }

  // ---------------------------------------------------------------- names that are new when they are made

  /** No file and no call has to do with the name. */
  ghost predicate Unused(w: World, name: string) {
    && (forall slot :: slot in w.cache ==> slot.1 != name)
    && (forall pid :: pid in w.procs ==> !Concerns(w.procs[pid], name))
  }

  predicate Concerns(p: Proc, name: string) { p.path == name || p.req.cookie == name || (p.Storing? && p.target == name) }

  /** A rekeyed name is unused when the daemon's answer brings it, and no browser sends it before it has been stored. */
  ghost predicate NewlyMade(w: World, act: Act) {
    && (act.Net? && act.a.rekeyed.Some? ==> Unused(w, act.a.rekeyed.value))
    && (act.Begin? ==> forall pid :: pid in w.procs && Moves(w.procs[pid]) ==> w.procs[pid].target != act.req.cookie)
  }

  ghost predicate AllNewlyMade(w: World, acts: seq<Act>)
    decreases |acts|
  {
    acts != [] ==> NewlyMade(w, acts[0]) && AllNewlyMade(Do(w, acts[0]), acts[1..])
  }

  /** A name that a call is about to move to has no file, and no other call has to do with it. */
  ghost predicate Reserved(w: World, pid: int)
    requires pid in w.procs && w.procs[pid].Storing?
  {
    var name := w.procs[pid].target;
    && (forall slot :: slot in w.cache ==> slot.1 != name)
    && (forall other :: other in w.procs && other != pid ==> !Concerns(w.procs[other], name))
  }

  ghost predicate AllReserved(w: World) { forall pid :: pid in w.procs && Moves(w.procs[pid]) ==> Reserved(w, pid) }

  lemma ReservedIsFresh(w: World, act: Act)
    requires AllReserved(w)
    ensures Fresh(w, act)
  {
  }

  /** Where the next state of a call can point. */
  lemma AdvanceConcerns(w: World, p: Proc, act: Act, name: string)
    requires Concerns(Advance(w, p, act), name)
    ensures Concerns(p, name) || (p.Looked? && act.Net? && act.a.rekeyed == Some(name))
  {
  }

  /** What a commit adds to the cache and to the calls. */
  lemma FinishConcerns(w: World, pid: int, name: string)
    requires pid in w.procs
    ensures (forall slot :: slot in Finish(w, pid).cache && slot !in w.cache ==> Concerns(w.procs[pid], slot.1))
    ensures Concerns(Finish(w, pid).procs[pid], name) ==> Concerns(w.procs[pid], name)
    ensures Finish(w, pid).procs.Keys == w.procs.Keys && !Moves(Finish(w, pid).procs[pid])
    ensures forall other :: other in w.procs && other != pid ==> Finish(w, pid).procs[other] == w.procs[other]
  {
  }

  lemma AdvanceReserved(w: World, act: Act, pid: int)
    requires AllReserved(w) && NewlyMade(w, act) && (act.Look? || act.Net?)
    requires pid in Do(w, act).procs && Moves(Do(w, act).procs[pid])
    ensures Reserved(Do(w, act), pid)
  {
    var name := Do(w, act).procs[pid].target;
    if act.pid in w.procs && Concerns(Advance(w, w.procs[act.pid], act), name) { AdvanceConcerns(w, w.procs[act.pid], act, name); }
    if act.pid != pid || act.Look? { assert Reserved(w, pid); }
  }

  lemma StepReserved(w: World, act: Act, pid: int)
    requires AllReserved(w) && NewlyMade(w, act)
    requires pid in Do(w, act).procs && Moves(Do(w, act).procs[pid])
    ensures Reserved(Do(w, act), pid)
  {
    match act
    case Tick(_) => assert Reserved(w, pid);
    case Begin(_, _, _) => assert Reserved(w, pid);
    case Commit(other) =>
      if other in w.procs { FinishConcerns(w, other, Do(w, act).procs[pid].target); }
      assert Reserved(w, pid);
    case Look(other) => AdvanceReserved(w, act, pid);
    case Net(other, _) => AdvanceReserved(w, act, pid);
  }

  /**
   Nothing has to be assumed of the moment of the commit: with names that are new when they are
   made, every cache file keeps its user and its realm under every interleaving.
   */
  lemma {:induction false} NewNamesKeepOwners(w: World, acts: seq<Act>)
    requires AllAgree(w) && AllReserved(w) && AllNewlyMade(w, acts)
    ensures OwnersKept(w, DoAll(w, acts))
    decreases |acts|
  {
    if acts != [] {
      var next := Do(w, acts[0]);
      ReservedIsFresh(w, acts[0]);
      StepKeepsOwners(w, acts[0]);
      forall pid | pid in next.procs && Moves(next.procs[pid]) ensures Reserved(next, pid) {
        StepReserved(w, acts[0], pid);
      }
      NewNamesKeepOwners(next, acts[1..]);
    }
  }

  // ---------------------------------------------------------------- a name that is not new

  /** One call from beginning to end, with nothing in between. */
  function OneCall(pid: int, web: int, req: Request, a: Answer): seq<Act>
  {
    [Begin(pid, web, req)] + ([Look(pid)] + ([Net(pid, a)] + ([Commit(pid)] + [])))
  }

  lemma DoOne(w: World, act: Act, rest: seq<Act>)
    ensures DoAll(w, [act] + rest) == DoAll(Do(w, act), rest)
    ensures AllNewlyMade(w, [act] + rest) <==> NewlyMade(w, act) && AllNewlyMade(Do(w, act), rest)
  {
    assert ([act] + rest)[1..] == rest;
  }

  /** A call that finds its own file out of date and is told the same owner, another address and a new name. */
  ghost predicate Moving(w: World, web: int, req: Request, a: Answer) {
    && MkCookie.PathOk(req.hashlen, req.cookie) && (web, req.cookie) in w.cache
    && var e := w.cache[(web, req.cookie)];
       && w.clock - e.mtime > 60 && !req.checkip.ALWAYS? && req.rekey
       && a.verdict.OK? && SameOwner(a.si, e.info) && a.si.ip != e.info.ip
       && a.rekeyed.Some? && a.rekeyed.value != req.cookie && MkCookie.PathOk(req.hashlen, a.rekeyed.value)
  }

  lemma MovingStores(w: World, pid: int, web: int, req: Request, a: Answer)
    requires w.procs == map[] && Moving(w, web, req, a)
    ensures DoAll(w, OneCall(pid, web, req, a)).cache == w.cache[(web, a.rekeyed.value) := Entry(Written(a.si), w.clock)]
    ensures AllNewlyMade(w, OneCall(pid, web, req, a)) <==> Unused(w, a.rekeyed.value)
  {
    var w1 := w.(procs := map[pid := Started(req, web, req.cookie, w.clock)]);
    var seen := Some(w.cache[(web, req.cookie)]);
    var w2 := w.(procs := map[pid := Looked(req, web, req.cookie, w.clock, seen)]);
    var w3 := w.(procs := map[pid := Storing(req, web, req.cookie, w.clock, w.clock, seen, a.si, a.rekeyed.value)]);
    assert w1 == Do(w, Begin(pid, web, req));
    assert w2 == Do(w1, Look(pid));
    assert w3 == Do(w2, Net(pid, a));
    DoOne(w3, Commit(pid), []);
    DoOne(w2, Net(pid, a), [Commit(pid)] + []);
    DoOne(w1, Look(pid), [Net(pid, a)] + ([Commit(pid)] + []));
    DoOne(w, Begin(pid, web, req), [Look(pid)] + ([Net(pid, a)] + ([Commit(pid)] + [])));
    assert Unused(w2, a.rekeyed.value) <==> Unused(w, a.rekeyed.value);
  }

  /** Such a call, all alone, hands another owner's file over exactly if its new name is that of one; then the name was not new when it was made. */
  lemma OldNameChangesOwner(w: World, pid: int, web: int, req: Request, a: Answer)
    requires w.procs == map[] && Moving(w, web, req, a)
    ensures OwnersKept(w, DoAll(w, OneCall(pid, web, req, a))) <==>
            !((web, a.rekeyed.value) in w.cache && !SameOwner(w.cache[(web, a.rekeyed.value)].info, a.si))
    ensures !OwnersKept(w, DoAll(w, OneCall(pid, web, req, a))) ==> !AllNewlyMade(w, OneCall(pid, web, req, a))
  {
    var slot := (web, a.rekeyed.value);
    MovingStores(w, pid, web, req, a);
    assert DoAll(w, OneCall(pid, web, req, a)).cache[slot].info == Written(a.si);
  }

  // ---------------------------------------------------------------- one process alone

  /** The web server's part of the cache. */
  ghost predicate Shows(w: World, web: int, cache: Cache) {
    forall n :: (n in cache <==> (web, n) in w.cache) && (n in cache ==> cache[n] == w.cache[(web, n)])
  }

  /** After a turn the process has answered, or begins again with the path. */
  ghost predicate Turned(w: World, pid: int, next: World, cache: Cache, v: Option<Verdict>, path: string)
    requires pid in w.procs && w.procs[pid].Started?
  {
    var p := w.procs[pid];
    && Shows(next, p.web, cache) && next.clock == w.clock
    && next.procs == w.procs[pid := if v.Some? then Answered(p.req, p.web, p.path, p.tv, v.value) else Started(p.req, p.web, path, p.tv)]
  }

  /** Look, question and commit of one process without others in between are one turn of cosign_cookie_valid. */
  lemma LoneTurn(w: World, pid: int, cache: Cache, a: Answer)
    requires pid in w.procs && w.procs[pid].Started? && Shows(w, w.procs[pid].web, cache)
    ensures var p := w.procs[pid];
            var next := Do(Do(Do(w, Look(pid)), Net(pid, a)), Commit(pid));
            var (cache', v, path) := CallOnce(cache, p.req, p.path, p.tv, w.clock, a);
            Turned(w, pid, next, cache', v, path) && (v.None? ==> path in cache' && cache' == cache)
  {
    var p := w.procs[pid];
    assert p.path in cache <==> (p.web, p.path) in w.cache;
    var seen := Lookup(w, p);
    assert seen == if p.path in cache then Some(cache[p.path]) else None;
    var w1 := Do(w, Look(pid));
    if Hit(p.req, seen, p.tv) {
      var done := Answered(p.req, p.web, p.path, p.tv, OK);
      assert w1 == w.(procs := w.procs[pid := done]);
      assert Do(Do(w1, Net(pid, a)), Commit(pid)) == w1;
    } else {
      assert w1 == w.(procs := w.procs[pid := Looked(p.req, p.web, p.path, p.tv, seen)]);
      LoneCommit(w, pid, cache, a, w1, seen);
    }
  }

  lemma LoneCommit(w: World, pid: int, cache: Cache, a: Answer, w1: World, seen: Option<Entry>)
    requires pid in w.procs && w.procs[pid].Started? && Shows(w, w.procs[pid].web, cache)
    requires var p := w.procs[pid];
             && seen == (if p.path in cache then Some(cache[p.path]) else None) && !Hit(p.req, seen, p.tv)
             && w1 == w.(procs := w.procs[pid := Looked(p.req, p.web, p.path, p.tv, seen)])
    ensures var p := w.procs[pid];
            var (cache', v, path) := CallOnce(cache, p.req, p.path, p.tv, w.clock, a);
            Turned(w, pid, Do(Do(w1, Net(pid, a)), Commit(pid)), cache', v, path) && (v.None? ==> path in cache' && cache' == cache)
  {
    var p := w.procs[pid];
    var w2 := Do(w1, Net(pid, a));
    match Decide(p.req, p.path, p.tv, seen, a)
    case Fail(v) =>
      assert w2 == w.(procs := w.procs[pid := Answered(p.req, p.web, p.path, p.tv, v)]);
      assert Do(w2, Commit(pid)) == w2;
    case Freshen =>
      LoneFreshen(w, pid, cache, w2);
    case Store(target) =>
      LoneStore(w, pid, cache, w2, seen, a.si, target);
  }

  lemma LoneFreshen(w: World, pid: int, cache: Cache, w2: World)
    requires pid in w.procs && w.procs[pid].Started? && Shows(w, w.procs[pid].web, cache)
    requires var p := w.procs[pid]; p.path in cache && w2 == w.(procs := w.procs[pid := Touching(p.req, p.web, p.path, p.tv, w.clock)])
    ensures var p := w.procs[pid];
            Turned(w, pid, Do(w2, Commit(pid)), cache[p.path := cache[p.path].(mtime := w.clock)], Some(OK), p.path)
  {
  }

  lemma LoneStore(w: World, pid: int, cache: Cache, w2: World, seen: Option<Entry>, si: Info, target: string)
    requires pid in w.procs && w.procs[pid].Started? && Shows(w, w.procs[pid].web, cache)
    requires var p := w.procs[pid];
             w2 == w.(procs := w.procs[pid := Storing(p.req, p.web, p.path, p.tv, w.clock, seen, si, target)])
    ensures var p := w.procs[pid];
            if seen.None? && target in cache then Turned(w, pid, Do(w2, Commit(pid)), cache, None, target)
            else Turned(w, pid, Do(w2, Commit(pid)), cache[target := Entry(Written(si), w.clock)], Some(OK), p.path)
  {
    assert target in cache <==> (w.procs[pid].web, target) in w.cache;
  }

  /** The six steps of a call that begins again after a failed link. */
  function Turns(w: World, pid: int, a: Answer, again: Answer): World
  {
    Do(Do(Do(Do(Do(Do(w, Look(pid)), Net(pid, a)), Commit(pid)), Look(pid)), Net(pid, again)), Commit(pid))
  }

  lemma LoneTurns(w: World, pid: int, cache: Cache, a: Answer, again: Answer)
    requires pid in w.procs && w.procs[pid].Started? && Shows(w, w.procs[pid].web, cache)
    ensures var p, next := w.procs[pid], Turns(w, pid, a, again);
            var (cache1, v, path) := CallOnce(cache, p.req, p.path, p.tv, w.clock, a);
            var (cache2, v2, _) := CallOnce(cache1, p.req, path, p.tv, w.clock, again);
            && (v.None? ==> v2.Some?)
            && Shows(next, p.web, if v.Some? then cache1 else cache2) && pid in next.procs && next.procs[pid].Answered?
            && Some(next.procs[pid].verdict) == if v.Some? then v else v2
  {
    var w1 := Do(Do(Do(w, Look(pid)), Net(pid, a)), Commit(pid));
    LoneTurn(w, pid, cache, a);
    if w1.procs[pid].Started? {
      LoneTurn(w1, pid, cache, again);
    } else {
      AnsweredStays(w1, pid, again);
    }
  }

  /** A process with nobody else around does what cosign_cookie_valid does. */
  lemma LoneCall(w: World, pid: int, web: int, req: Request, cache: Cache, a: Answer, again: Answer)
    requires pid !in w.procs && Shows(w, web, cache)
    ensures var next := Turns(Do(w, Begin(pid, web, req)), pid, a, again);
            var (cache', v) := Call(cache, req, w.clock, w.clock, a, again);
            Shows(next, web, cache') && pid in next.procs && next.procs[pid].Answered? && next.procs[pid].verdict == v
  {
    var w0 := Do(w, Begin(pid, web, req));
    if MkCookie.PathOk(req.hashlen, req.cookie) {
      LoneTurns(w0, pid, cache, a, again);
    } else {
      AnsweredStays(w0, pid, a);
      AnsweredStays(w0, pid, again);
    }
  }

  lemma AnsweredStays(w: World, pid: int, a: Answer)
    requires pid in w.procs && w.procs[pid].Answered?
    ensures Do(Do(Do(w, Look(pid)), Net(pid, a)), Commit(pid)) == w
  {
    assert w.procs[pid := w.procs[pid]] == w.procs;
  }
}
