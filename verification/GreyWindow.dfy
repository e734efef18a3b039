/**
 Several daemons with one clock, told of each other's touches by TIME: why the grey window
 keeps one daemon from logging out for idleness what is in use at another.
 */
module GreyWindow {
  import opened Text
  import opened Commands
  import opened Effects
  import opened Laws
  import Answers
  import MkCookie

  /** The daemons' stores, the clock, and every time at which the login cookie has been touched anywhere. */
  datatype Net = Net(stores: seq<Files>, clock: int, touches: set<int>)

  /** A command at daemon d. */
  datatype Step = Step(d: nat, e: Event)

  /** The login cookie is known and live at every daemon. */
  ghost predicate AllLive(net: Net, l: string) {
    forall d :: 0 <= d < |net.stores| ==> IsLogin(net.stores[d], l) && net.stores[d][l].live
  }

  function Mtime(net: Net, d: nat, l: string): int
    requires d < |net.stores| && IsLogin(net.stores[d], l)
  {
    net.stores[d][l].mtime
  }

  /** The monster of some daemon reports the time of a real touch. */
  predicate TrueTimes(net: Net, l: string, lines: seq<string>) {
    forall k :: 0 <= k < |lines| && |Tokens(lines[k])| == 3 && Tokens(lines[k])[0] == l ==> Atoi(Tokens(lines[k])[1]) in net.touches
  }

  /** The LOGIN of a record that has been idle too long at the daemon; f_login does not look at the time of the last touch. */
  predicate Refreshes(cfg: Config, fs: Files, e: Event, l: string) {
    e.cmd.LOGIN? && |e.cmd.av| > 1 && e.cmd.av[1] == l && IsLogin(fs, l) && e.now - fs[l].mtime > cfg.idle
  }

  function After(cfg: Config, net: Net, step: Step, l: string): Net
    requires step.d < |net.stores|
  {
    var fs := Exec(cfg, net.stores[step.d], step.e).files;
    Net(net.stores[step.d := fs], step.e.now,
        net.touches + (if IsLogin(fs, l) then {fs[l].mtime} else {}))
  }

  /** A step of a run in which nobody logs the cookie out and no LOGIN refreshes it when idle. */
  ghost predicate Allowed(cfg: Config, net: Net, step: Step, l: string) {
    && step.d < |net.stores| && net.clock <= step.e.now
    && Regular(net.stores[step.d], step.e)
    && AllLive(After(cfg, net, step, l), l)
    && (step.e.cmd.TIME? ==> TrueTimes(net, l, step.e.cmd.lines))
    && !Refreshes(cfg, net.stores[step.d], step.e, l)
  }

  ghost predicate Runs(cfg: Config, net: Net, steps: seq<Step>, l: string)
    decreases |steps|
  {
    steps != [] ==> Allowed(cfg, net, steps[0], l) && Runs(cfg, After(cfg, net, steps[0], l), steps[1..], l)
  }

  function EndOf(cfg: Config, net: Net, steps: seq<Step>, l: string): Net
    decreases |steps|
  {
    if steps == [] then net
    else if steps[0].d >= |net.stores| then net
    else EndOf(cfg, After(cfg, net, steps[0], l), steps[1..], l)
  }

  // ---------------------------------------------------------------- what a command does to the time

  /** While the record stays live, its time moves to the present only if it is at most an idle period old. */
  ghost predicate InTime(cfg: Config, now: int, was: int, moved: int) {
    moved == was || (moved == now && now - was <= cfg.idle)
  }

  lemma {:induction false} ProxiesTouch(cfg: Config, peer: Peer, now: int, fs: Files, login: string, names: seq<string>, l: string)
    requires IsLogin(fs, l)
    ensures var fs' := Proxies(cfg, peer, now, fs, login, names).files;
            IsLogin(fs', l) && (fs'[l].mtime == fs[l].mtime || (l == login && fs'[l].mtime == now))
    decreases |names|
  {
    if names != [] && MkCookie.PathOk(cfg.hashlen, names[0]) {
      ProxiesTouch(cfg, peer, now, DoRegister(cfg.hashlen, fs, now, login, names[0]), login, names[1..], l);
    }
  }

  lemma {:induction false} TimeTouch(cfg: Config, now: int, fs: Files, lines: seq<string>, net: Net, l: string)
    requires IsLogin(fs, l) && fs[l].live && TrueTimes(net, l, lines)
    ensures var fs' := TimeLines(cfg, now, fs, lines);
            && IsLogin(fs', l) && fs'[l].live && fs'[l].mtime >= fs[l].mtime
            && (fs'[l].mtime == fs[l].mtime || fs'[l].mtime in net.touches)
    decreases |lines|
  {
    if lines != [] && !IsDot(lines[0]) {
      TimeTouch(cfg, now, TimeLine(cfg, now, fs, lines[0]), lines[1..], net, l);
    }
  }

  /** The times that a command other than TIME can leave. */
  lemma CommandTouch(cfg: Config, fs: Files, e: Event, l: string)
    requires Regular(fs, e) && !e.cmd.TIME? && !Refreshes(cfg, fs, e, l)
    requires IsLogin(fs, l) && fs[l].live
    requires IsLogin(Exec(cfg, fs, e).files, l) && Exec(cfg, fs, e).files[l].live
    ensures InTime(cfg, e.now, fs[l].mtime, Exec(cfg, fs, e).files[l].mtime)
  {
    match e.cmd
    case LOGIN(_, _, _, _) => LoginDoes(cfg, fs, e);
    case LOGOUT(_) => LogoutDoes(cfg, fs, e);
    case REGISTER(_) => RegisterDoes(cfg, fs, e);
    case CHECK(_, _, _, _) => CheckTouch(cfg, fs, e, l);
    case RETR(_, _, _, _) => RetrTouch(cfg, fs, e, l);
  }

  lemma CheckTouch(cfg: Config, fs: Files, e: Event, l: string)
    requires Regular(fs, e) && e.cmd.CHECK? && IsLogin(fs, l)
    requires IsLogin(Exec(cfg, fs, e).files, l) && Exec(cfg, fs, e).files[l].live
    ensures InTime(cfg, e.now, fs[l].mtime, Exec(cfg, fs, e).files[l].mtime)
  {
    CheckDoes(cfg, fs, e);
  }

  lemma RetrTouch(cfg: Config, fs: Files, e: Event, l: string)
    requires e.cmd.RETR? && IsLogin(fs, l)
    requires IsLogin(Exec(cfg, fs, e).files, l) && Exec(cfg, fs, e).files[l].live
    ensures InTime(cfg, e.now, fs[l].mtime, Exec(cfg, fs, e).files[l].mtime)
  {
    RetrDoes(cfg, fs, e);
    if Retrieves(cfg, fs, e) {
      ProxiesTouch(cfg, e.peer, e.now, fs, fs[e.cmd.av[1]].login, e.cmd.proxies.value, l);
    }
  }

  // ---------------------------------------------------------------- the invariant

  /**
   Every daemon's time is the time of a touch that is not in the future, and no older than some
   starting time; starting times are at most an idle period apart; every other touch comes at
   most an idle period after an earlier one.
   */
  ghost predicate Chained(cfg: Config, net: Net, starts: set<int>, l: string) {
    && AllLive(net, l)
    && starts <= net.touches
    && (forall a, b :: a in starts && b in starts ==> a - b <= cfg.idle)
    && (forall t :: t in net.touches ==> t <= net.clock)
    && (forall t :: t in net.touches && t !in starts ==> Preceded(cfg, net.touches, t))
    && (forall d :: 0 <= d < |net.stores| ==> Mtime(net, d, l) in net.touches)
    && (forall d :: 0 <= d < |net.stores| ==> Since(starts, Mtime(net, d, l)))
  }

  ghost predicate Preceded(cfg: Config, touches: set<int>, t: int) {
    exists p :: p in touches && p < t && t - p <= cfg.idle
  }

  ghost predicate Since(starts: set<int>, t: int) { exists s :: s in starts && s <= t }

  lemma StepChained(cfg: Config, net: Net, starts: set<int>, step: Step, l: string)
    requires Chained(cfg, net, starts, l) && Allowed(cfg, net, step, l)
    ensures Chained(cfg, After(cfg, net, step, l), starts, l)
  {
    var fs, next := net.stores[step.d], After(cfg, net, step, l);
    var fs' := next.stores[step.d];
    assert IsLogin(fs, l) && fs[l].live && IsLogin(fs', l) && fs'[l].live;
    var was, moved := fs[l].mtime, fs'[l].mtime;
    assert was == Mtime(net, step.d, l);
    if step.e.cmd.TIME? {
      TimeTouch(cfg, step.e.now, fs, step.e.cmd.lines, net, l);
    } else {
      CommandTouch(cfg, fs, step.e, l);
    }
    assert was <= moved <= step.e.now;
    Moved(cfg, net, starts, step.d, fs', step.e.now, l);
  }

  /** The store of daemon d becomes fs', with a time for the cookie that is old or follows on the daemon's last one. */
  lemma Moved(cfg: Config, net: Net, starts: set<int>, d: nat, fs': Files, now: int, l: string)
    requires Chained(cfg, net, starts, l) && net.clock <= now && d < |net.stores|
    requires IsLogin(fs', l) && fs'[l].live && Mtime(net, d, l) <= fs'[l].mtime <= now
    requires fs'[l].mtime in net.touches ||
             (Mtime(net, d, l) < fs'[l].mtime && fs'[l].mtime - Mtime(net, d, l) <= cfg.idle)
    ensures Chained(cfg, Net(net.stores[d := fs'], now, net.touches + {fs'[l].mtime}), starts, l)
  {
    var was, moved := Mtime(net, d, l), fs'[l].mtime;
    var next := Net(net.stores[d := fs'], now, net.touches + {moved});
    StillPreceded(cfg, net, starts, next, was, moved);
    assert Since(starts, was);
    var s :| s in starts && s <= was;
    assert Since(starts, moved);
    forall k | 0 <= k < |next.stores|
      ensures IsLogin(next.stores[k], l) && next.stores[k][l].live
      ensures next.stores[k][l].mtime in next.touches && Since(starts, next.stores[k][l].mtime)
    {
      if k != d { assert next.stores[k] == net.stores[k] && Mtime(net, k, l) in net.touches && Since(starts, Mtime(net, k, l)); }
    }
  }

  lemma StillPreceded(cfg: Config, net: Net, starts: set<int>, next: Net, was: int, moved: int)
    requires forall t :: t in net.touches && t !in starts ==> Preceded(cfg, net.touches, t)
    requires next.touches == net.touches + {moved} && was in net.touches
    requires moved in net.touches || (was < moved && moved - was <= cfg.idle)
    ensures forall t :: t in next.touches && t !in starts ==> Preceded(cfg, next.touches, t)
  {
    forall t | t in next.touches && t !in starts ensures Preceded(cfg, next.touches, t) {
      if t in net.touches {
        var p :| p in net.touches && p < t && t - p <= cfg.idle;
        assert p in next.touches;
      } else {
        assert was in next.touches;
      }
    }
  }

  lemma {:induction false} RunChained(cfg: Config, net: Net, starts: set<int>, steps: seq<Step>, l: string)
    requires Chained(cfg, net, starts, l) && Runs(cfg, net, steps, l)
    ensures Chained(cfg, EndOf(cfg, net, steps, l), starts, l)
    decreases |steps|
  {
    if steps != [] {
      StepChained(cfg, net, starts, steps[0], l);
      RunChained(cfg, After(cfg, net, steps[0], l), starts, steps[1..], l);
    }
  }

  // ---------------------------------------------------------------- the theorem

  /** Every touch that is at least a grey period old has reached daemon d. */
  ghost predicate DeliveredAt(cfg: Config, net: Net, now: int, d: nat, l: string)
    requires AllLive(net, l) && d < |net.stores|
  {
    forall t :: t in net.touches && t + cfg.grey <= now ==> Mtime(net, d, l) >= t
  }

  /** It has reached every daemon. */
  ghost predicate Delivered(cfg: Config, net: Net, now: int, l: string)
    requires AllLive(net, l)
  {
    forall d :: 0 <= d < |net.stores| ==> DeliveredAt(cfg, net, now, d, l)
  }

  /** Going back from a recent touch in steps of at most an idle period ends in the last idle plus grey, or at a start. */
  lemma {:induction false} GoBack(cfg: Config, net: Net, starts: set<int>, t: int, now: int, low: int) returns (u: int)
    requires forall t :: t in net.touches && t !in starts ==> Preceded(cfg, net.touches, t)
    requires t in net.touches && now - cfg.grey < t <= now
    requires low == now - cfg.grey
    ensures u in net.touches
    ensures (u in starts && u > low) || (u <= low && now - u < cfg.idle + cfg.grey)
    decreases t - low
  {
    if t in starts {
      u := t;
    } else {
      var p :| p in net.touches && p < t && t - p <= cfg.idle;
      if p <= low {
        u := p;
      } else {
        u := GoBack(cfg, net, starts, p, now, low);
      }
    }
  }

  /** A daemon at which the cookie is in use keeps every other daemon from logging it out for idleness. */
  lemma InUseMeansNotOut(cfg: Config, net: Net, starts: set<int>, now: int, l: string, inUse: nat, d: nat)
    requires Chained(cfg, net, starts, l) && net.clock <= now && Delivered(cfg, net, now, l)
    requires cfg.grey >= 0 && inUse < |net.stores| && d < |net.stores|
    requires now - Mtime(net, inUse, l) < cfg.idle
    ensures now - Mtime(net, d, l) < cfg.idle + cfg.grey
  {
    assert DeliveredAt(cfg, net, now, d, l);
    var m := Mtime(net, inUse, l);
    if m + cfg.grey > now {
      var u := GoBack(cfg, net, starts, m, now, now - cfg.grey);
      if u in starts && u > now - cfg.grey {
        var s :| s in starts && s <= Mtime(net, d, l);
        assert u - s <= cfg.idle;
      }
    }
  }

  /**
   Grey window safety: after any run of commands at any number of daemons, when every touch has
   been told within grey_time, no command at one daemon is answered with an idle logout of a
   cookie that another daemon would still take as in use; and no CHECK that comes to it, and no
   REGISTER of it, is answered 4xx, which would keep the other end from asking that other daemon.
   */
  lemma NoIdleLogoutWhileInUse(cfg: Config, net: Net, starts: set<int>, steps: seq<Step>, l: string, inUse: nat, last: Step)
    requires Chained(cfg, net, starts, l) && Runs(cfg, net, steps, l) && cfg.grey >= 0
    requires var end := EndOf(cfg, net, steps, l);
             && AllLive(end, l) && end.clock <= last.e.now && Delivered(cfg, end, last.e.now, l)
             && inUse < |end.stores| && last.d < |end.stores|
             && last.e.now - Mtime(end, inUse, l) < cfg.idle
             && Regular(end.stores[last.d], last.e) && !last.e.cmd.LOGOUT?
    ensures var fs := EndOf(cfg, net, steps, l).stores[last.d];
            && (IsLogin(Exec(cfg, fs, last.e).files, l) ==> Exec(cfg, fs, last.e).files[l].live)
            && (Answers.AsksFor(cfg, fs, last.e, l) ==> !(400 <= Exec(cfg, fs, last.e).code < 500))
  {
    var end := EndOf(cfg, net, steps, l);
    RunChained(cfg, net, starts, steps, l);
    InUseMeansNotOut(cfg, end, starts, last.e.now, l, inUse, last.d);
    var fs := end.stores[last.d];
    assert IsLogin(fs, l) && fs[l].live && fs[l].mtime == Mtime(end, last.d, l);
    OnlyIdlenessKills(cfg, fs, last.e, l);
    if Answers.AsksFor(cfg, fs, last.e, l) {
      Answers.NotGivenUp(cfg, fs, last.e, l);
    }
  }

  /** Apart from LOGOUT, a live record dies only when it is idle and out of the grey window. */
  lemma OnlyIdlenessKills(cfg: Config, fs: Files, e: Event, l: string)
    requires Regular(fs, e) && !e.cmd.LOGOUT? && IsLogin(fs, l) && fs[l].live
    ensures IsDead(Exec(cfg, fs, e).files, l) ==> e.now - fs[l].mtime >= cfg.idle && e.now - fs[l].mtime >= cfg.idle + cfg.grey
  {
    match e.cmd
    case LOGIN(_, _, _, _) => LoginDoes(cfg, fs, e);
    case REGISTER(_) => RegisterDoes(cfg, fs, e);
    case CHECK(_, _, _, _) => CheckDoes(cfg, fs, e);
    case RETR(_, _, _, _) =>
      RetrDoes(cfg, fs, e);
      if Retrieves(cfg, fs, e) {
        ProxiesLive(cfg, e.peer, e.now, fs, fs[e.cmd.av[1]].login, e.cmd.proxies.value, l);
      }
    case TIME(_, lines) =>
      TimeDoes(cfg, fs, e);
      TimeLive(cfg, e.now, fs, lines, l);
  }

  lemma {:induction false} ProxiesLive(cfg: Config, peer: Peer, now: int, fs: Files, login: string, names: seq<string>, l: string)
    requires IsLogin(fs, l) && fs[l].live
    ensures !IsDead(Proxies(cfg, peer, now, fs, login, names).files, l)
    decreases |names|
  {
    if names != [] && MkCookie.PathOk(cfg.hashlen, names[0]) {
      ProxiesLive(cfg, peer, now, DoRegister(cfg.hashlen, fs, now, login, names[0]), login, names[1..], l);
    }
  }

  lemma {:induction false} TimeLive(cfg: Config, now: int, fs: Files, lines: seq<string>, l: string)
    requires IsLogin(fs, l) && fs[l].live
    ensures !IsDead(TimeLines(cfg, now, fs, lines), l)
    decreases |lines|
  {
    if lines != [] && !IsDot(lines[0]) {
      TimeLive(cfg, now, TimeLine(cfg, now, fs, lines[0]), lines[1..], l);
    }
  }

  // ---------------------------------------------------------------- how touches are delivered

  /** A TIME at daemon d, answered 260, tells the time that the login cookie has at daemon i. */
  ghost predicate TellsOf(cfg: Config, net: Net, step: Step, l: string, i: nat, d: nat)
    requires AllLive(net, l) && i < |net.stores| && d < |net.stores|
  {
    && step.d == d && step.e.cmd.TIME? && Exec(cfg, net.stores[d], step.e).code == 260
    && exists k: nat :: Answers.Tells(step.e.cmd.lines, k, l) && Answers.TimeOn(step.e.cmd.lines[k]) == Mtime(net, i, l)
  }

  /** Some step of the run does, or there is nothing to tell at some point of it. */
  ghost predicate Told(cfg: Config, net: Net, steps: seq<Step>, l: string, i: nat, d: nat)
    decreases |steps|
  {
    && AllLive(net, l) && i < |net.stores| && d < |net.stores|
    && (|| Mtime(net, d, l) >= Mtime(net, i, l)
        || (&& steps != [] && steps[0].d < |net.stores|
            && (TellsOf(cfg, net, steps[0], l, i, d) || Told(cfg, After(cfg, net, steps[0], l), steps[1..], l, i, d))))
  }

  /** A TIME that lists every touch that is due delivers them to its daemon. */
  lemma TimeEstablishes(cfg: Config, net: Net, step: Step, now: int, l: string)
    requires AllLive(net, l) && step.d < |net.stores| && "cosign=" <= l && MkCookie.PathOk(cfg.hashlen, l)
    requires step.e.cmd.TIME? && Exec(cfg, net.stores[step.d], step.e).code == 260
    requires forall t :: t in net.touches && t + cfg.grey <= now ==> Listed(step.e.cmd.lines, l, t)
    ensures var next := After(cfg, net, step, l); AllLive(next, l) && DeliveredAt(cfg, next, now, step.d, l)
  {
    Answers.TimeDelivers(cfg, net.stores[step.d], step.e, l);
    var next := After(cfg, net, step, l);
    assert AllLive(next, l);
    forall t | t in next.touches && t + cfg.grey <= now ensures Mtime(next, step.d, l) >= t {
      if t in net.touches {
        var k: nat :| Answers.Tells(step.e.cmd.lines, k, l) && Answers.TimeOn(step.e.cmd.lines[k]) >= t;
      }
    }
  }

  /** Some line tells this time of l, or a later one. */
  ghost predicate Listed(lines: seq<string>, l: string, t: int) {
    exists k: nat :: Answers.Tells(lines, k, l) && Answers.TimeOn(lines[k]) >= t
  }

  lemma Hears(cfg: Config, net: Net, step: Step, l: string, i: nat, d: nat)
    requires AllLive(net, l) && i < |net.stores| && d < |net.stores| && "cosign=" <= l && MkCookie.PathOk(cfg.hashlen, l)
    requires TellsOf(cfg, net, step, l, i, d)
    ensures AllLive(After(cfg, net, step, l), l) && Mtime(After(cfg, net, step, l), d, l) >= Mtime(net, i, l)
  {
    Answers.TimeDelivers(cfg, net.stores[d], step.e, l);
  }

  /** No daemon's time goes back, and no new touch is older than the run. */
  ghost predicate Onward(net: Net, next: Net, l: string)
    requires AllLive(net, l) && AllLive(next, l)
  {
    && |next.stores| == |net.stores| && net.clock <= next.clock
    && (forall d :: 0 <= d < |net.stores| ==> Mtime(next, d, l) >= Mtime(net, d, l))
    && (forall t :: t in next.touches ==> t in net.touches || t >= net.clock)
  }

  lemma StepOnward(cfg: Config, net: Net, starts: set<int>, step: Step, l: string)
    requires Chained(cfg, net, starts, l) && Allowed(cfg, net, step, l)
    ensures Onward(net, After(cfg, net, step, l), l)
  {
    var fs, next := net.stores[step.d], After(cfg, net, step, l);
    var fs' := next.stores[step.d];
    assert IsLogin(fs, l) && fs[l].live && IsLogin(fs', l) && fs'[l].live && fs[l].mtime == Mtime(net, step.d, l);
    if step.e.cmd.TIME? {
      TimeTouch(cfg, step.e.now, fs, step.e.cmd.lines, net, l);
    } else {
      CommandTouch(cfg, fs, step.e, l);
    }
    forall d | 0 <= d < |net.stores| ensures Mtime(next, d, l) >= Mtime(net, d, l) {
      if d != step.d { assert next.stores[d] == net.stores[d]; }
    }
  }

  lemma {:induction false} RunOnward(cfg: Config, net: Net, starts: set<int>, steps: seq<Step>, l: string)
    requires Chained(cfg, net, starts, l) && Runs(cfg, net, steps, l)
    ensures AllLive(EndOf(cfg, net, steps, l), l) && Onward(net, EndOf(cfg, net, steps, l), l)
    decreases |steps|
  {
    if steps != [] {
      var next := After(cfg, net, steps[0], l);
      StepChained(cfg, net, starts, steps[0], l);
      StepOnward(cfg, net, starts, steps[0], l);
      RunOnward(cfg, next, starts, steps[1..], l);
      OnwardOnward(net, next, EndOf(cfg, net, steps, l), l);
    }
  }

  lemma OnwardOnward(a: Net, b: Net, c: Net, l: string)
    requires AllLive(a, l) && AllLive(b, l) && AllLive(c, l) && Onward(a, b, l) && Onward(b, c, l)
    ensures Onward(a, c, l)
  {
    forall d | 0 <= d < |a.stores| ensures Mtime(c, d, l) >= Mtime(a, d, l) {
      assert Mtime(b, d, l) >= Mtime(a, d, l);
    }
  }

  /** What the one daemon knew before the run the other knows after it. */
  lemma {:induction false} ToldHears(cfg: Config, net: Net, starts: set<int>, steps: seq<Step>, l: string, i: nat, d: nat)
    requires Chained(cfg, net, starts, l) && Runs(cfg, net, steps, l) && "cosign=" <= l && MkCookie.PathOk(cfg.hashlen, l)
    requires Told(cfg, net, steps, l, i, d)
    ensures var end := EndOf(cfg, net, steps, l);
            AllLive(end, l) && |end.stores| == |net.stores| && Mtime(end, d, l) >= Mtime(net, i, l)
    decreases |steps|
  {
    if Mtime(net, d, l) >= Mtime(net, i, l) {
      RunOnward(cfg, net, starts, steps, l);
      assert Mtime(EndOf(cfg, net, steps, l), d, l) >= Mtime(net, d, l);
    } else {
      var next := After(cfg, net, steps[0], l);
      StepChained(cfg, net, starts, steps[0], l);
      if TellsOf(cfg, net, steps[0], l, i, d) {
        Hears(cfg, net, steps[0], l, i, d);
        RunOnward(cfg, next, starts, steps[1..], l);
        assert Mtime(EndOf(cfg, net, steps, l), d, l) >= Mtime(next, d, l);
      } else {
        StepOnward(cfg, net, starts, steps[0], l);
        assert Mtime(next, i, l) >= Mtime(net, i, l);
        ToldHears(cfg, next, starts, steps[1..], l, i, d);
      }
    }
  }

  /** Every touch is still known to some daemon. */
  ghost predicate Known(net: Net, l: string)
    requires AllLive(net, l)
  {
    forall t {:trigger KnownAt(net, l, t)} :: t in net.touches ==> KnownAt(net, l, t)
  }

  ghost predicate KnownAt(net: Net, l: string, t: int)
    requires AllLive(net, l)
  {
    exists d :: 0 <= d < |net.stores| && Mtime(net, d, l) >= t
  }

  lemma StillKnown(net: Net, next: Net, d: nat, l: string)
    requires AllLive(net, l) && AllLive(next, l) && Known(net, l) && Onward(net, next, l) && d < |net.stores|
    requires next.touches == net.touches + {Mtime(next, d, l)}
    ensures Known(next, l)
  {
    forall t | t in next.touches ensures KnownAt(next, l, t) {
      if t in net.touches {
        var i := Knows(net, l, t);
        assert Mtime(next, i, l) >= t;
      }
    }
  }

  lemma StepKnown(cfg: Config, net: Net, starts: set<int>, step: Step, l: string)
    requires Chained(cfg, net, starts, l) && Allowed(cfg, net, step, l) && Known(net, l)
    ensures Known(After(cfg, net, step, l), l)
  {
    var next := After(cfg, net, step, l);
    StepOnward(cfg, net, starts, step, l);
    var fs' := next.stores[step.d];
    assert IsLogin(fs', l);
    StillKnown(net, next, step.d, l);
  }

  lemma Knows(net: Net, l: string, t: int) returns (i: nat)
    requires AllLive(net, l) && Known(net, l) && t in net.touches
    ensures i < |net.stores| && Mtime(net, i, l) >= t
  {
    assert KnownAt(net, l, t);
    i :| 0 <= i < |net.stores| && Mtime(net, i, l) >= t;
  }

  lemma {:induction false} KnownKept(cfg: Config, net: Net, starts: set<int>, steps: seq<Step>, l: string)
    requires Chained(cfg, net, starts, l) && Runs(cfg, net, steps, l) && Known(net, l)
    ensures AllLive(EndOf(cfg, net, steps, l), l) && Known(EndOf(cfg, net, steps, l), l)
    decreases |steps|
  {
    if steps != [] {
      var next := After(cfg, net, steps[0], l);
      StepChained(cfg, net, starts, steps[0], l);
      StepKnown(cfg, net, starts, steps[0], l);
      KnownKept(cfg, next, starts, steps[1..], l);
    }
  }

  /**
   What the monsters do for the grey window: when within a grey period every daemon has been told
   the time of the cookie at every other, if that is later than its own, by TIMEs anywhere between
   other commands of any kind, every touch that is a grey period old has reached every daemon.
   */
  lemma ExchangeDelivers(cfg: Config, net: Net, starts: set<int>, steps: seq<Step>, now: int, l: string)
    requires Chained(cfg, net, starts, l) && Known(net, l) && Runs(cfg, net, steps, l)
    requires "cosign=" <= l && MkCookie.PathOk(cfg.hashlen, l) && now < net.clock + cfg.grey
    requires forall i, d :: 0 <= i < |net.stores| && 0 <= d < |net.stores| && i != d ==> Told(cfg, net, steps, l, i, d)
    ensures var end := EndOf(cfg, net, steps, l); AllLive(end, l) && Delivered(cfg, end, now, l) && Known(end, l)
  {
    var end := EndOf(cfg, net, steps, l);
    RunOnward(cfg, net, starts, steps, l);
    KnownKept(cfg, net, starts, steps, l);
    forall d | 0 <= d < |end.stores| ensures DeliveredAt(cfg, end, now, d, l) {
      forall t | t in end.touches && t + cfg.grey <= now ensures Mtime(end, d, l) >= t {
        assert t in net.touches;
        Reaches(cfg, net, starts, steps, l, d, t);
      }
    }
  }

  lemma Reaches(cfg: Config, net: Net, starts: set<int>, steps: seq<Step>, l: string, d: nat, t: int)
    requires Chained(cfg, net, starts, l) && Known(net, l) && Runs(cfg, net, steps, l)
    requires "cosign=" <= l && MkCookie.PathOk(cfg.hashlen, l) && d < |net.stores| && t in net.touches
    requires forall i :: 0 <= i < |net.stores| && i != d ==> Told(cfg, net, steps, l, i, d)
    ensures var end := EndOf(cfg, net, steps, l); AllLive(end, l) && d < |end.stores| && Mtime(end, d, l) >= t
  {
    var i := Knows(net, l, t);
    if i != d {
      ToldHears(cfg, net, starts, steps, l, i, d);
    } else {
      RunOnward(cfg, net, starts, steps, l);
      assert Mtime(EndOf(cfg, net, steps, l), d, l) >= Mtime(net, d, l);
    }
  }

  // ---------------------------------------------------------------- a run that stays live

  predicate LogsOut(e: Event, l: string) { e.cmd.LOGOUT? && |e.cmd.av| > 1 && e.cmd.av[1] == l }

  ghost predicate InUse(cfg: Config, net: Net, now: int, l: string)
    requires AllLive(net, l)
  {
    exists d :: 0 <= d < |net.stores| && now - Mtime(net, d, l) < cfg.idle
  }

  /**
   A step of a run that leaves the cookie alone: nobody logs it out or refreshes it too late,
   touches are delivered within grey_time, and it is in use at some daemon.
   */
  ghost predicate Guarded(cfg: Config, net: Net, step: Step, l: string)
    requires AllLive(net, l)
  {
    && step.d < |net.stores| && net.clock <= step.e.now
    && Regular(net.stores[step.d], step.e)
    && (step.e.cmd.TIME? ==> TrueTimes(net, l, step.e.cmd.lines))
    && !LogsOut(step.e, l) && !Unlinks(step.e, l) && !Refreshes(cfg, net.stores[step.d], step.e, l)
    && Delivered(cfg, net, step.e.now, l) && InUse(cfg, net, step.e.now, l)
  }

  ghost predicate AllGuarded(cfg: Config, net: Net, steps: seq<Step>, l: string)
    decreases |steps|
  {
    steps != [] ==> AllLive(net, l) && Guarded(cfg, net, steps[0], l) && AllGuarded(cfg, After(cfg, net, steps[0], l), steps[1..], l)
  }

  /** Under these conditions the record lives on, because they rule out every way to die or to go. */
  lemma GuardedStaysLive(cfg: Config, net: Net, starts: set<int>, step: Step, l: string)
    requires Chained(cfg, net, starts, l) && cfg.grey >= 0 && Guarded(cfg, net, step, l)
    ensures AllLive(After(cfg, net, step, l), l)
  {
    var fs := net.stores[step.d];
    var fs' := Exec(cfg, fs, step.e).files;
    assert IsLogin(fs, l) && fs[l].live;
    if l !in fs' {
      WhatRemoves(cfg, fs, step.e, l);
      CheckDoes(cfg, fs, step.e);
    }
    StepPersists(cfg, fs, step.e, l);
    var inUse :| 0 <= inUse < |net.stores| && step.e.now - Mtime(net, inUse, l) < cfg.idle;
    InUseMeansNotOut(cfg, net, starts, step.e.now, l, inUse, step.d);
    assert fs[l].mtime == Mtime(net, step.d, l);
    LiveUnlessIdle(cfg, fs, step.e, l);
  }

  lemma LiveUnlessIdle(cfg: Config, fs: Files, e: Event, l: string)
    requires Regular(fs, e) && !LogsOut(e, l) && IsLogin(fs, l) && fs[l].live
    requires e.now - fs[l].mtime < cfg.idle + cfg.grey
    ensures !IsDead(Exec(cfg, fs, e).files, l)
  {
    if !e.cmd.LOGOUT? {
      OnlyIdlenessKills(cfg, fs, e, l);
    }
  }

  /**
   Grey window safety over a whole run: as long as touches arrive in time and the cookie is in use
   somewhere, it is live at every daemon after every run of any commands at any daemons.
   */
  lemma {:induction false} StaysLiveWhileInUse(cfg: Config, net: Net, starts: set<int>, steps: seq<Step>, l: string)
    requires Chained(cfg, net, starts, l) && cfg.grey >= 0 && AllGuarded(cfg, net, steps, l)
    ensures AllLive(EndOf(cfg, net, steps, l), l)
    decreases |steps|
  {
    if steps != [] {
      GuardedStaysLive(cfg, net, starts, steps[0], l);
      StepChained(cfg, net, starts, steps[0], l);
      StaysLiveWhileInUse(cfg, After(cfg, net, steps[0], l), starts, steps[1..], l);
    }
  }

  // ---------------------------------------------------------------- a LOGIN that comes too late

  /** At now every touch a grey period old has been delivered, the one daemon takes the cookie as in use, and the other is done with it. */
  ghost predicate Broken(cfg: Config, net: Net, now: int, l: string)
    requires |net.stores| == 2 && AllLive(net, l)
  {
    && net.clock <= now && Delivered(cfg, net, now, l)
    && now - Mtime(net, 0, l) < cfg.idle && now - Mtime(net, 1, l) >= cfg.idle && now - Mtime(net, 1, l) >= cfg.idle + cfg.grey
  }

  /** Two daemons that last heard of the cookie at the same time, and a LOGIN at the first. */
  function Pair(a: Files, b: Files, l: string): Net
    requires IsLogin(a, l)
  {
    Net([a, b], a[l].mtime, {a[l].mtime})
  }

  /** A successful LOGIN for a cookie that both daemons know, with the same time. */
  ghost predicate LateLogin(cfg: Config, a: Files, b: Files, e: Event, l: string) {
    && IsLogin(a, l) && a[l].live && IsLogin(b, l) && b[l].live && a[l].mtime == b[l].mtime <= e.now
    && Regular(a, e) && e.cmd.LOGIN? && |e.cmd.av| > 1 && e.cmd.av[1] == l && Exec(cfg, a, e).code in {200, 201}
  }

  lemma AfterLogin(cfg: Config, a: Files, b: Files, e: Event, l: string)
    requires LateLogin(cfg, a, b, e, l)
    ensures var after := After(cfg, Pair(a, b, l), Step(0, e), l);
            && |after.stores| == 2 && after.stores[1] == b && AllLive(after, l)
            && after.stores[0][l].mtime == e.now && after.touches == {a[l].mtime, e.now} && after.clock == e.now
  {
    LoginAddsFactors(cfg, a, e);
    var a' := Exec(cfg, a, e).files;
    assert IsLogin(a', l) && a'[l].live && a'[l].mtime == e.now;
    PairMoves(cfg, a, b, e, l);
    var after := Net([a', b], e.now, {a[l].mtime, e.now});
    assert after.stores[0] == a' && after.stores[1] == b;
  }

  lemma PairMoves(cfg: Config, a: Files, b: Files, e: Event, l: string)
    requires IsLogin(a, l) && IsLogin(Exec(cfg, a, e).files, l)
    ensures var a' := Exec(cfg, a, e).files;
            After(cfg, Pair(a, b, l), Step(0, e), l) == Net([a', b], e.now, {a[l].mtime, a'[l].mtime})
  {
    var a' := Exec(cfg, a, e).files;
    assert [a, b][0 := a'] == [a', b];
  }

  /** With no command behind it, a LOGIN is followed by such a moment exactly if the record is more than idle, and more than grey, seconds old. */
  lemma LoginAloneBreaksIff(cfg: Config, a: Files, b: Files, e: Event, l: string)
    requires cfg.idle > 0 && cfg.grey > 0 && LateLogin(cfg, a, b, e, l)
    ensures var after := After(cfg, Pair(a, b, l), Step(0, e), l);
            && |after.stores| == 2 && AllLive(after, l)
            && ((exists now :: Broken(cfg, after, now, l)) <==> e.now - a[l].mtime > cfg.idle && e.now - a[l].mtime > cfg.grey)
  {
    AfterLogin(cfg, a, b, e, l);
    var after := After(cfg, Pair(a, b, l), Step(0, e), l);
    var m := a[l].mtime;
    assert Mtime(after, 0, l) == e.now && Mtime(after, 1, l) == m;
    if e.now - m > cfg.idle && e.now - m > cfg.grey {
      var now := TooLate(cfg, after, m, e.now, l);
    } else {
      forall now ensures !Broken(cfg, after, now, l) {
        InTimeIsFine(cfg, after, m, e.now, now, l);
      }
    }
  }

  lemma InTimeIsFine(cfg: Config, after: Net, m: int, t: int, now: int, l: string)
    requires |after.stores| == 2 && AllLive(after, l) && after.touches == {m, t} && after.clock == t
    requires Mtime(after, 0, l) == t && Mtime(after, 1, l) == m
    requires t - m <= cfg.idle || t - m <= cfg.grey
    ensures !Broken(cfg, after, now, l)
  {
    assert t in after.touches;
    assert Delivered(cfg, after, now, l) ==> DeliveredAt(cfg, after, now, 1, l);
  }

  /** The moment at which it happens. */
  lemma TooLate(cfg: Config, after: Net, m: int, t: int, l: string) returns (now: int)
    requires |after.stores| == 2 && AllLive(after, l) && after.touches == {m, t} && after.clock == t
    requires Mtime(after, 0, l) == t && Mtime(after, 1, l) == m
    requires cfg.idle > 0 && cfg.grey > 0 && t - m > cfg.idle && t - m > cfg.grey
    ensures Broken(cfg, after, now, l)
  {
    now := if m + cfg.idle + cfg.grey > t then m + cfg.idle + cfg.grey else t;
  }

  // ---------------------------------------------------------------- and commands behind it

  /** The run leaves the two daemons broken at now. */
  ghost predicate EndsBroken(cfg: Config, net: Net, steps: seq<Step>, now: int, l: string) {
    var end := EndOf(cfg, net, steps, l);
    AllGuarded(cfg, net, steps, l) && |end.stores| == 2 && AllLive(end, l) && Broken(cfg, end, now, l)
  }

  /** Since t the cookie is in use at the first daemon; the second has heard of no touch since m. */
  ghost predicate Unheard(cfg: Config, net: Net, m: int, t: int, l: string) {
    && |net.stores| == 2 && AllLive(net, l) && MkCookie.PathOk(cfg.hashlen, l) && "cosign=" <= l
    && m < t <= net.clock && Mtime(net, 0, l) == net.clock && Mtime(net, 1, l) == m && net.clock in net.touches
    && forall x :: x in net.touches ==> x == m || t <= x <= net.clock
  }

  /** A service's CHECK of the cookie at the first daemon. */
  function CheckAt(now: int, l: string): Step { Step(0, Event(Peer(SERVICE, 0, false, false), now, CHECK(l, false, true, ""))) }

  lemma CheckTouches(cfg: Config, fs: Files, now: int, l: string)
    requires IsLogin(fs, l) && fs[l].live && MkCookie.PathOk(cfg.hashlen, l) && "cosign=" <= l
    requires now - fs[l].mtime < cfg.idle
    ensures Exec(cfg, fs, CheckAt(now, l).e).files == Touch(fs, l, now)
  {
    assert l[6] == '=' && "cosign-"[6] == '-';
  }

  /** A CHECK one second later is guarded, and the second daemon goes on hearing nothing. */
  lemma OneMore(cfg: Config, net: Net, m: int, t: int, l: string)
    requires cfg.idle > 1 && Unheard(cfg, net, m, t, l) && net.clock + 1 < t + cfg.grey
    ensures var step := CheckAt(net.clock + 1, l); var next := After(cfg, net, step, l);
            Guarded(cfg, net, step, l) && Unheard(cfg, next, m, t, l) && next.clock == net.clock + 1 && next.stores[1] == net.stores[1]
  {
    var step := CheckAt(net.clock + 1, l);
    CheckTouches(cfg, net.stores[0], net.clock + 1, l);
    assert step.e.now - Mtime(net, 0, l) < cfg.idle;
    var next := After(cfg, net, step, l);
    assert next == Net([Touch(net.stores[0], l, net.clock + 1), net.stores[1]], net.clock + 1, net.touches + {net.clock + 1});
  }

  /** One a second, up to the last one before a grey period has passed since t. */
  lemma {:induction false} KeptInUse(cfg: Config, net: Net, m: int, t: int, l: string) returns (steps: seq<Step>)
    requires cfg.idle > 1 && Unheard(cfg, net, m, t, l) && net.clock < t + cfg.grey
    ensures AllGuarded(cfg, net, steps, l)
    ensures var end := EndOf(cfg, net, steps, l);
            Unheard(cfg, end, m, t, l) && end.clock == t + cfg.grey - 1 && end.stores[1] == net.stores[1]
    decreases t + cfg.grey - net.clock
  {
    if net.clock == t + cfg.grey - 1 {
      steps := [];
    } else {
      var step := CheckAt(net.clock + 1, l);
      var next := After(cfg, net, step, l);
      OneMore(cfg, net, m, t, l);
      var more := KeptInUse(cfg, next, m, t, l);
      steps := [step] + more;
      assert steps[1..] == more;
    }
  }

  /** A LOGIN that refreshes: with one CHECK a second behind it the run is guarded, and ends broken. */
  lemma RefreshEndsBroken(cfg: Config, a: Files, b: Files, e: Event, l: string) returns (steps: seq<Step>, now: int)
    requires cfg.grey > 0 && cfg.idle > 1 && LateLogin(cfg, a, b, e, l) && Refreshes(cfg, a, e, l) && "cosign=" <= l
    ensures var after := After(cfg, Pair(a, b, l), Step(0, e), l);
            EndsBroken(cfg, after, steps, now, l) && EndOf(cfg, after, steps, l).stores[1] == b
  {
    AfterLogin(cfg, a, b, e, l);
    LoginDoes(cfg, a, e);
    var after := After(cfg, Pair(a, b, l), Step(0, e), l);
    assert Mtime(after, 0, l) == e.now && Mtime(after, 1, l) == a[l].mtime;
    steps := KeptInUse(cfg, after, a[l].mtime, e.now, l);
    now := e.now + cfg.grey - 1;
  }

  /**
   A run may not contain a LOGIN that refreshes: each is followed by a guarded run to a moment at
   which, all touches of a grey period ago delivered and the cookie in use at the one daemon,
   every CHECK of it at the other is answered 431.
   */
  lemma RefreshBreaksIt(cfg: Config, a: Files, b: Files, e: Event, l: string) returns (steps: seq<Step>, now: int)
    requires cfg.grey > 0 && cfg.idle > 1 && LateLogin(cfg, a, b, e, l) && Refreshes(cfg, a, e, l) && "cosign=" <= l
    ensures var after := After(cfg, Pair(a, b, l), Step(0, e), l);
            && EndsBroken(cfg, after, steps, now, l)
            && forall c: Event :: c.now == now && (c.peer.key.CGI? || c.peer.key.SERVICE?) && c.cmd.CHECK? && c.cmd.cookie == l
                 ==> Exec(cfg, EndOf(cfg, after, steps, l).stores[1], c).code == 431
  {
    steps, now := RefreshEndsBroken(cfg, a, b, e, l);
    LoginDoes(cfg, a, e);
    var end := EndOf(cfg, After(cfg, Pair(a, b, l), Step(0, e), l), steps, l);
    assert Mtime(end, 1, l) == b[l].mtime;
    forall c: Event | c.now == now && (c.peer.key.CGI? || c.peer.key.SERVICE?) && c.cmd.CHECK? && c.cmd.cookie == l
      ensures Exec(cfg, b, c).code == 431
    {
      IdleOutAnswer(cfg, b, c, l);
    }
  }

  lemma IdleOutAnswer(cfg: Config, fs: Files, c: Event, l: string)
    requires IsLogin(fs, l) && fs[l].live && c.now - fs[l].mtime >= cfg.idle && c.now - fs[l].mtime >= cfg.idle + cfg.grey
    requires (c.peer.key.CGI? || c.peer.key.SERVICE?) && c.cmd.CHECK? && c.cmd.cookie == l && "cosign=" <= l && MkCookie.PathOk(cfg.hashlen, l)
    ensures Exec(cfg, fs, c).code == 431
  {
    assert l[6] == '=' && "cosign-"[6] == '-';
  }

  /** A guarded run keeps the chain. */
  lemma {:induction false} GuardedKeepsChain(cfg: Config, net: Net, starts: set<int>, steps: seq<Step>, l: string)
    requires Chained(cfg, net, starts, l) && cfg.grey >= 0 && AllGuarded(cfg, net, steps, l)
    ensures Chained(cfg, EndOf(cfg, net, steps, l), starts, l)
    decreases |steps|
  {
    if steps != [] {
      GuardedStaysLive(cfg, net, starts, steps[0], l);
      StepChained(cfg, net, starts, steps[0], l);
      GuardedKeepsChain(cfg, After(cfg, net, steps[0], l), starts, steps[1..], l);
    }
  }

  /** After a LOGIN in time no guarded run ends broken. */
  lemma InTimeNeverBreaks(cfg: Config, a: Files, b: Files, e: Event, steps: seq<Step>, now: int, l: string)
    requires cfg.grey > 0 && cfg.idle > 0 && LateLogin(cfg, a, b, e, l) && !Refreshes(cfg, a, e, l)
    ensures !EndsBroken(cfg, After(cfg, Pair(a, b, l), Step(0, e), l), steps, now, l)
  {
    var net, starts := Pair(a, b, l), {a[l].mtime};
    AfterLogin(cfg, a, b, e, l);
    var after := After(cfg, net, Step(0, e), l);
    assert a[l].mtime in starts;
    assert Since(starts, Mtime(net, 0, l)) && Since(starts, Mtime(net, 1, l));
    StepChained(cfg, net, starts, Step(0, e), l);
    if EndsBroken(cfg, after, steps, now, l) {
      GuardedKeepsChain(cfg, after, starts, steps, l);
      InUseMeansNotOut(cfg, EndOf(cfg, after, steps, l), starts, now, l, 0, 1);
      assert false;
    }
  }

  /** A LOGIN opens the way to an idle logout of a cookie in use, by some guarded run behind it, exactly if the record is more than idle seconds old. */
  lemma LoginBreaksIff(cfg: Config, a: Files, b: Files, e: Event, l: string)
    requires cfg.grey > 0 && cfg.idle > 1 && LateLogin(cfg, a, b, e, l) && "cosign=" <= l
    ensures (exists steps, now :: EndsBroken(cfg, After(cfg, Pair(a, b, l), Step(0, e), l), steps, now, l)) <==> e.now - a[l].mtime > cfg.idle
  {
    var after := After(cfg, Pair(a, b, l), Step(0, e), l);
    if e.now - a[l].mtime > cfg.idle {
      var steps, now := RefreshEndsBroken(cfg, a, b, e, l);
      assert EndsBroken(cfg, after, steps, now, l);
    } else {
      forall steps, now ensures !EndsBroken(cfg, after, steps, now, l) {
        InTimeNeverBreaks(cfg, a, b, e, steps, now, l);
      }
    }
  }
}
