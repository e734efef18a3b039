/**
 The commands of cosignd as functions from the cookie store and the arguments to the new
 store, the reply and the lines handed to the pusher. One command is one atomic step.
 */
module Commands {
  import opened Text
  import MkCookie
  import Ticket

  /**
   A file of the cookie directory as read_cookie and service_to_login read it. live is the
   absence of the set-group-id bit, mtime the time of the last touch, ctime the "t" line.
   */
  datatype File =
    | Login(ip: string, cur: string, user: string, realm: string, ctime: int, ticket: string, live: bool, mtime: int)
    | Service(login: string)

  type Files = map<string, File>

  predicate IsLogin(fs: Files, n: string) { n in fs && fs[n].Login? }

  predicate IsService(fs: Files, n: string) { n in fs && fs[n].Service? }

  predicate IsDead(fs: Files, n: string) { IsLogin(fs, n) && !fs[n].live }

  function Factors(f: File): seq<string>
    requires f.Login?
  {
    Tokens(f.realm)
  }

  datatype Config = Config(hashlen: int, idle: int, grey: int, strict: bool)

  datatype Key = CGI | SERVICE | OTHER

  /** The other end of a connection; pushing tells that this daemon has a pusher. */
  datatype Peer = Peer(key: Key, protocol: int, replicated: bool, pushing: bool)

  const NO_REPLY := -1      // the handler returned -1, or left without its last line

  datatype Done = Done(files: Files, code: int, text: string, pushed: seq<seq<string>>)

  predicate Passed(d: Done) { 200 <= d.code < 300 }

  function Refuse(fs: Files, code: int): Done { Done(fs, code, "", []) }

  function Push(peer: Peer, line: seq<string>): seq<seq<string>>
  {
    if peer.pushing && !peer.replicated then [line] else []
  }

  /** utime( path, NULL ). */
  function Touch(fs: Files, n: string, now: int): Files
  {
    if IsLogin(fs, n) then fs[n := fs[n].(mtime := now)] else fs
  }

  /** do_logout: the mode goes, the time moves. */
  function Logout(fs: Files, n: string, now: int): Files
    requires IsLogin(fs, n)
  {
    fs[n := fs[n].(live := false, mtime := now)]
  }

  datatype Idleness = Active | Grey | Out

  function IdleState(cfg: Config, now: int, mtime: int): Idleness
  {
    if now - mtime < cfg.idle then Active
    else if now - mtime < cfg.idle + cfg.grey then Grey
    else Out
  }

  /** link(2) of a file to the name: it is free, and there is a directory for it. */
  predicate CanLink(hashlen: int, fs: Files, n: string) { n !in fs && MkCookie.Housed(hashlen, n) }

  // ---------------------------------------------------------------- LOGIN

  /** The words of more that are not in have, in their order. */
  function Missing(more: seq<string>, have: seq<string>): seq<string>
  {
    if more == [] then []
    else (if more[0] in have then [] else [more[0]]) + Missing(more[1..], have)
  }

  predicate Oversize(args: seq<string>)
    requires |args| >= 5
  {
    |args[2]| >= 256 || |args[3]| >= 130 || |args[4]| >= 256
  }

  /**
   What the words of the line say when the ticket has come: they stand in the line buffer that the
   ticket's own lines are read into (module LineBuffer). gone is the cookie whose file unlink(2)
   finds under the name that stands where the cookie was, if it finds one.
   */
  datatype Memory = Memory(cookie: string, ip: string, user: string, factor: string, last: string, gone: Option<string>)

  function Spoken(m: Memory): seq<string> { ["LOGIN", m.cookie, m.ip, m.user, m.factor, m.last] }

  /** unlink(2). */
  function Unlink(fs: Files, gone: Option<string>): Files { if gone.Some? then fs - {gone.value} else fs }

  /** What happens once the record is in place; awaits tells that a ticket is to follow. */
  function LoginStored(peer: Peer, fs: Files, av: seq<string>, awaits: bool, transfer: Ticket.Outcome, m: Memory): Done
    requires |av| >= 5
  {
    if !awaits then Done(fs, 200, "", Push(peer, ["LOGIN", av[1], av[2], av[3], av[4]]))
    else match transfer
      case Stored(_) => Done(fs, 201, "", Push(peer, Spoken(m)))
      case Refused => Refuse(fs, 504)
      case Dropped => Refuse(fs, NO_REPLY)
      case Mismatch => Refuse(Unlink(fs, m.gone), 505)
  }

  predicate Kerberos(av: seq<string>) { |av| >= 6 && av[|av| - 1] == "kerberos" }

  /** The factors named on the line. */
  function Named(av: seq<string>): seq<string>
    requires |av| >= 5
  {
    if Kerberos(av) then av[4..|av| - 1] else av[4..]
  }

  /** The record of a further LOGIN: only what is new comes in, and the time of the last touch becomes the "t" line. */
  function Renewed(was: File, av: seq<string>, krbpath: string, now: int): File
    requires was.Login? && |av| >= 5
  {
    Login(was.ip, av[2], av[3], Join(Factors(was) + Missing(Named(av), Factors(was))), was.mtime,
          if was.ticket != "" then was.ticket else if Kerberos(av) then krbpath else "", true, now)
  }

  /** The record of a first LOGIN. */
  function FirstRecord(av: seq<string>, krbpath: string, now: int): File
    requires |av| >= 5
  {
    Login(av[2], av[2], av[3], Join(Named(av)), now, if Kerberos(av) then krbpath else "", true, now)
  }

  function LoginAgain(peer: Peer, now: int, fs: Files, av: seq<string>, krbpath: string, transfer: Ticket.Outcome, m: Memory): Done
    requires |av| >= 5 && IsLogin(fs, av[1])
  {
    var was := fs[av[1]];
    if !was.live then Refuse(fs, 505)
    else if was.user != av[3] then Refuse(fs, 402)
    else if Oversize(av) then Refuse(fs, 504)
    else
      var extra := Missing(Named(av), Factors(was));
      if was.cur == av[2] && extra == [] then Refuse(fs, 202)
      else
        LoginStored(peer, fs[av[1] := Renewed(was, av, krbpath, now)], av, Kerberos(av) && was.ticket == "", transfer, m)
  }

  function LoginFirst(cfg: Config, peer: Peer, now: int, fs: Files, av: seq<string>, krbpath: string, transfer: Ticket.Outcome, m: Memory): Done
    requires |av| >= 5
  {
    if Oversize(av) then Refuse(fs, 504)
    else if !CanLink(cfg.hashlen, fs, av[1]) then Refuse(fs, NO_REPLY)
    else
      LoginStored(peer, fs[av[1] := FirstRecord(av, krbpath, now)], av, Kerberos(av), transfer, m)
  }

  /** LOGIN login_cookie ip principal factor.. ["kerberos"]; krbpath is a freshly minted ticket path. */
  function LoginStep(cfg: Config, peer: Peer, now: int, fs: Files, av: seq<string>, krbpath: string, transfer: Ticket.Outcome, m: Memory): Done
  {
    if peer.key != CGI then Refuse(fs, 400)
    else if |av| < 5 then Refuse(fs, 500)
    else if !MkCookie.PathOk(cfg.hashlen, av[1]) then Refuse(fs, 501)
    else if IsLogin(fs, av[1]) then LoginAgain(peer, now, fs, av, krbpath, transfer, m)
    else LoginFirst(cfg, peer, now, fs, av, krbpath, transfer, m)
  }

  // ---------------------------------------------------------------- LOGOUT and REGISTER

  /** LOGOUT login_cookie ip. */
  function LogoutStep(cfg: Config, peer: Peer, now: int, fs: Files, av: seq<string>): Done
  {
    if peer.key != CGI then Refuse(fs, 410)
    else if |av| != 3 then Refuse(fs, 510)
    else if !MkCookie.PathOk(cfg.hashlen, av[1]) then Refuse(fs, 511)
    else if !IsLogin(fs, av[1]) then Refuse(fs, 513)
    else if !fs[av[1]].live then Refuse(fs, 411)
    else Done(Logout(fs, av[1], now), 210, "", Push(peer, ["LOGOUT", av[1], av[2]]))
  }

  /** do_register: links a file that names the login cookie; nothing happens if link(2) fails. */
  function DoRegister(hashlen: int, fs: Files, now: int, login: string, scookie: string): Files
  {
    if CanLink(hashlen, fs, scookie) then Touch(fs[scookie := Service(login)], login, now) else fs
  }

  /** REGISTER login_cookie ip service_cookie. */
  function RegisterStep(cfg: Config, peer: Peer, now: int, fs: Files, av: seq<string>): Done
  {
    if peer.key != CGI then Refuse(fs, 420)
    else if |av| != 4 then Refuse(fs, 520)
    else if !MkCookie.PathOk(cfg.hashlen, av[1]) then Refuse(fs, 521)
    else if !MkCookie.PathOk(cfg.hashlen, av[3]) then Refuse(fs, 522)
    else if !IsLogin(fs, av[1]) then Refuse(fs, 523)
    else if !fs[av[1]].live then Refuse(fs, 421)
    else match IdleState(cfg, now, fs[av[1]].mtime)
      case Grey => Refuse(fs, 521)
      case Out => Refuse(Logout(fs, av[1], now), 422)
      case Active =>
        if av[3] in fs then Refuse(fs, 226)
        else if !CanLink(cfg.hashlen, fs, av[3]) then Refuse(fs, NO_REPLY)
        else Done(DoRegister(cfg.hashlen, fs, now, av[1], av[3]), 220, "", Push(peer, ["REGISTER", av[1], av[2], av[3]]))
  }

  // ---------------------------------------------------------------- CHECK and REKEY

  predicate SupportsFactors(protocol: int) { 2 <= protocol <= 3 }

  predicate SupportsRekey(protocol: int) { protocol == 3 }

  /** The name a service cookie gets on REKEY. */
  function Rekeyed(cookie: string, minted: string): string
  {
    cookie[..IndexOf(cookie, '=')] + "=" + minted
  }

  /** rename(2). */
  function Renamed(fs: Files, from: string, to: string): Files
    requires from in fs
  {
    (fs - {from})[to := fs[from]]
  }

  function CheckText(peer: Peer, rec: File, renamed: string): string
    requires rec.Login?
  {
    if SupportsFactors(peer.protocol) then rec.cur + " " + rec.user + " " + rec.realm + " " + renamed
    else rec.ip + " " + rec.user + " " + (if Factors(rec) == [] then rec.realm else Factors(rec)[0])
  }

  /** The part of f_check behind the look-up of the login cookie; rekey is the service cookie to rename, if any. */
  function CheckLogin(cfg: Config, peer: Peer, now: int, fs: Files, login: string, rekey: Option<string>, minted: string, code: int): Done
    requires rekey.Some? ==> IsService(fs, rekey.value)
  {
    if !IsLogin(fs, login) then Refuse(fs, 534)
    else if !fs[login].live then Refuse(fs, 430)
    else match IdleState(cfg, now, fs[login].mtime)
      case Grey => Refuse(fs, 531)
      case Out => Refuse(Logout(fs, login, now), 431)
      case Active =>
        var touched := Touch(fs, login, now);
        if rekey.None? then Done(touched, code, CheckText(peer, fs[login], ""), [])
        else
          var renamed := Rekeyed(rekey.value, minted);
          if |renamed| >= 256 || !MkCookie.Housed(cfg.hashlen, renamed) then Refuse(touched, 536)   // mkcookiepath or rename(2) fails
          else Done(Renamed(touched, rekey.value, renamed), 233, CheckText(peer, fs[login], renamed), [])
  }

  /** CHECK or REKEY cookie; allowed is the answer of service_valid, minted what mkcookie gives. */
  function CheckStep(cfg: Config, peer: Peer, now: int, fs: Files, cookie: string, rekey: bool, allowed: bool, minted: string): Done
  {
    if peer.key != CGI && peer.key != SERVICE then Refuse(fs, 430)
    else if !MkCookie.PathOk(cfg.hashlen, cookie) then Refuse(fs, 531)
    else if "cosign-" <= cookie then
      if cfg.strict && !allowed then Refuse(fs, 534)
      else if !IsService(fs, cookie) then Refuse(fs, 533)
      else if !MkCookie.PathOk(cfg.hashlen, fs[cookie].login) then Refuse(fs, 532)
      else CheckLogin(cfg, peer, now, fs, fs[cookie].login,
                      if rekey && SupportsRekey(peer.protocol) then Some(cookie) else None, minted, 231)
    else if "cosign=" <= cookie then CheckLogin(cfg, peer, now, fs, cookie, None, minted, 232)
    else Refuse(fs, 432)
  }

  /**
   f_check from the words of its line, of which it takes the second. None stands for the end of
   the process, at an argument that is not there: no number is less than 2 and more than 3.
   */
  function CheckWords(cfg: Config, peer: Peer, now: int, fs: Files, av: seq<string>, rekey: bool, allowed: bool, minted: string): Option<Done>
  {
    if peer.key != CGI && peer.key != SERVICE then Some(Refuse(fs, 430))
    else if |av| < 2 && |av| > 3 then Some(Refuse(fs, 530))
    else if |av| < 2 then None
    else Some(CheckStep(cfg, peer, now, fs, av[1], rekey, allowed, minted))
  }

  // ---------------------------------------------------------------- RETR

  /** retr_proxy: registers each freshly minted proxy cookie; one that finds no directory is passed over. */
  function Proxies(cfg: Config, peer: Peer, now: int, fs: Files, login: string, names: seq<string>): Done
    decreases |names|
  {
    if names == [] then Refuse(fs, 241)
    else if !MkCookie.PathOk(cfg.hashlen, names[0]) then Refuse(fs, NO_REPLY)
    else
      var d := Proxies(cfg, peer, now, DoRegister(cfg.hashlen, fs, now, login, names[0]), login, names[1..]);
      if names[0] in fs || MkCookie.Housed(cfg.hashlen, names[0]) then
        d.(pushed := Push(peer, ["REGISTER", login, "-", names[0]]) + d.pushed)
      else d
  }

  /** RETR service_cookie type; tgt is the outcome of reading the ticket file, proxies the cookies to mint if the peer is a proxy. */
  function RetrStep(cfg: Config, peer: Peer, now: int, fs: Files, av: seq<string>, allowed: bool, tgt: int, proxies: Option<seq<string>>): Done
  {
    if peer.key != CGI && peer.key != SERVICE then Refuse(fs, 442)
    else if |av| != 3 then Refuse(fs, 540)
    else if !allowed then Refuse(fs, 545)
    else if !MkCookie.PathOk(cfg.hashlen, av[1]) then Refuse(fs, 541)
    else if !IsService(fs, av[1]) then Refuse(fs, 543)
    else
      var login := fs[av[1]].login;
      if !MkCookie.PathOk(cfg.hashlen, login) then Refuse(fs, 541)
      else if !IsLogin(fs, login) then Refuse(fs, 544)
      else if !fs[login].live then Refuse(fs, 440)
      else match IdleState(cfg, now, fs[login].mtime)
        case Grey => Refuse(fs, 541)
        case Out => Refuse(Logout(fs, login, now), 441)
        case Active =>
          if av[2] == "tgt" then Refuse(fs, tgt)
          else if av[2] == "cookies" then
            if proxies.None? then Refuse(fs, 443) else Proxies(cfg, peer, now, fs, login, proxies.value)
          else Refuse(fs, 441)
  }

  // ---------------------------------------------------------------- TIME

  /** The line is "." once it has been cut into words. */
  predicate IsDot(line: string) { line != "" && line[0] == '.' && Tokens(line) != [] && Tokens(line)[0] == "." }

  /** One line "login_cookie timestamp state". */
  function TimeLine(cfg: Config, now: int, fs: Files, line: string): Files
  {
    var w := Tokens(line);
    if |w| != 3 || !("cosign=" <= w[0]) || !MkCookie.PathOk(cfg.hashlen, w[0]) || !IsLogin(fs, w[0]) then fs
    else
      var rec := fs[w[0]];
      var newer := if Atoi(w[1]) > rec.mtime then rec.(mtime := Atoi(w[1])) else rec;
      if Atoi(w[2]) == 0 && !rec.live then Logout(fs[w[0] := newer], w[0], now) else fs[w[0] := newer]
  }

  function TimeLines(cfg: Config, now: int, fs: Files, lines: seq<string>): Files
    decreases |lines|
  {
    if lines == [] || IsDot(lines[0]) then fs
    else TimeLines(cfg, now, TimeLine(cfg, now, fs, lines[0]), lines[1..])
  }

  function TimeStep(cfg: Config, peer: Peer, now: int, fs: Files, av: seq<string>, lines: seq<string>): Done
  {
    if peer.key != CGI then Refuse(fs, 460)
    else if |av| != 1 then Refuse(fs, 560)
    else Refuse(TimeLines(cfg, now, fs, lines), 260)
  }

  // ---------------------------------------------------------------- one command

  datatype Cmd =
    | LOGIN(av: seq<string>, krbpath: string, transfer: Ticket.Outcome, memory: Memory)
    | LOGOUT(av: seq<string>)
    | REGISTER(av: seq<string>)
    | CHECK(cookie: string, rekey: bool, allowed: bool, minted: string)
    | RETR(av: seq<string>, allowed: bool, tgt: int, proxies: Option<seq<string>>)
    | TIME(av: seq<string>, lines: seq<string>)

  datatype Event = Event(peer: Peer, now: int, cmd: Cmd)

  function Exec(cfg: Config, fs: Files, e: Event): Done
  {
    match e.cmd
    case LOGIN(av, krbpath, transfer, memory) => LoginStep(cfg, e.peer, e.now, fs, av, krbpath, transfer, memory)
    case LOGOUT(av) => LogoutStep(cfg, e.peer, e.now, fs, av)
    case REGISTER(av) => RegisterStep(cfg, e.peer, e.now, fs, av)
    case CHECK(cookie, rekey, allowed, minted) => CheckStep(cfg, e.peer, e.now, fs, cookie, rekey, allowed, minted)
    case RETR(av, allowed, tgt, proxies) => RetrStep(cfg, e.peer, e.now, fs, av, allowed, tgt, proxies)
    case TIME(av, lines) => TimeStep(cfg, e.peer, e.now, fs, av, lines)
  }

  function Run(cfg: Config, fs: Files, es: seq<Event>): Files
    decreases |es|
  {
    if es == [] then fs else Run(cfg, Exec(cfg, fs, es[0]).files, es[1..])
  }

  /** What the tokeniser guarantees of the arguments, and mkcookie of a name it has just made up. */
  predicate Regular(fs: Files, e: Event) {
    match e.cmd
    case LOGIN(av, _, _, _) => AllWords(av)
    case CHECK(cookie, rekey, _, minted) => rekey ==> Rekeyed(cookie, minted) !in fs
    case _ => true
  }
}
