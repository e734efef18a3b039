/** The text of a login record: what f_login prints and what read_cookie makes of it. */
module RecordFile {
  import opened Text
  import Commands
  import Effects
  import Laws
  import MkCookie
  import Ticket
  import Seqs

  const NEWLINE := '\n'
  const HEAD := 4           // sizeof( ci_version ), sizeof( ci_state )
  const MAXPATHLEN := 4096
  const LINE := 4098        // MAXPATHLEN + 2

  /** struct cinfo, filled by read_cookie. */
  datatype Cinfo = Cinfo(live: bool, ip: string, cur: string, user: string, realm: string, ctime: string, ticket: string, itime: int)

  const KEYS: set<char> := {'i', 'j', 'p', 'r', 't', 'k'}

  function Put(ci: Cinfo, key: char, v: string): Cinfo
    requires key in KEYS
  {
    if key == 'i' then ci.(ip := v)
    else if key == 'j' then ci.(cur := v)
    else if key == 'p' then ci.(user := v)
    else if key == 'r' then ci.(realm := v)
    else if key == 't' then ci.(ctime := v)
    else ci.(ticket := v)
  }

  function Get(ci: Cinfo, key: char): string
    requires key in KEYS
  {
    if key == 'i' then ci.ip
    else if key == 'j' then ci.cur
    else if key == 'p' then ci.user
    else if key == 'r' then ci.realm
    else if key == 't' then ci.ctime
    else ci.ticket
  }

  /** The size of the field, with room for the NUL. */
  function Room(key: char): nat
    requires key in KEYS
  {
    if key == 'i' || key == 'j' || key == 'r' then 256
    else if key == 'p' then 130
    else if key == 't' then 12
    else MAXPATHLEN
  }

  /** Overrun: a line was copied into a field that is too small for it; what happens then is not defined. */
  datatype Reading = Read(ci: Cinfo) | Failed | Overrun

  // ---------------------------------------------------------------- reading

  /** How much fgets takes from s into a buffer of n characters: up to a newline, and less than n. */
  function Taken(s: string, n: nat): (k: nat)
    requires n > 1
    ensures k <= |s|
    ensures s != "" ==> 0 < k < n
  {
    var k := IndexOf(s, NEWLINE) + 1;
    var m := if k < n then k else n - 1;
    if m <= |s| then m else |s|
  }

  /** The lines behind the first two. */
  function Rest(ci: Cinfo, s: string): Reading
    decreases |s|
  {
    if s == "" then Read(ci)
    else
      var k := Taken(s, LINE);
      if s[k - 1] != NEWLINE || s[0] !in KEYS then Failed
      else if k - 2 >= Room(s[0]) then Overrun
      else Rest(Put(ci, s[0], s[1..k - 1]), s[k..])
  }

  function Blank(setgid: bool, mtime: int): Cinfo { Cinfo(!setgid, "", "", "", "", "", "", mtime) }

  function ReadBack(text: string, setgid: bool, mtime: int): Reading
  {
    var k := Taken(text, HEAD);
    if text == "" || text[k - 1] != NEWLINE || text[0] != 'v' || Atoi(text[1..k - 1]) != 2 then Failed
    else
      var more := text[k..];
      if more == "" then Failed else Rest(Blank(setgid, mtime), more[Taken(more, HEAD)..])
  }

  /** read_cookie, with the file's contents, its set-group-id bit and its time. */
  method ReadCookie(text: string, setgid: bool, mtime: int) returns (r: Reading)
    ensures r == ReadBack(text, setgid, mtime)
  {
    if text == "" { return Failed; }
    var k := Taken(text, HEAD);
    if text[k - 1] != NEWLINE || text[0] != 'v' || Atoi(text[1..k - 1]) != 2 { return Failed; }
    var s := text[k..];
    if s == "" { return Failed; }
    s := s[Taken(s, HEAD)..];
    var ci := Blank(setgid, mtime);
    while s != ""
      invariant Rest(ci, s) == ReadBack(text, setgid, mtime)
      decreases |s|
    {
      k := Taken(s, LINE);
      if s[k - 1] != NEWLINE { return Failed; }
      var copied;
      copied, ci := Store(ci, s[0], if k > 1 then s[1..k - 1] else "");
      if copied != Copied { return if copied == NoKey then Failed else Overrun; }
      s := s[k..];
    }
    return Read(ci);
  }

  datatype Copying = Copied | NoKey | TooSmall

  /** The switch on the key, and strcpy. */
  method Store(ci: Cinfo, key: char, p: string) returns (c: Copying, next: Cinfo)
    ensures c == if key !in KEYS then NoKey else if |p| >= Room(key) then TooSmall else Copied
    ensures next == if c == Copied then Put(ci, key, p) else ci
  {
    next := ci;
    match key {
      case 'i' => if |p| >= 256 { return TooSmall, ci; } next := ci.(ip := p);
      case 'j' => if |p| >= 256 { return TooSmall, ci; } next := ci.(cur := p);
      case 'p' => if |p| >= 130 { return TooSmall, ci; } next := ci.(user := p);
      case 'r' => if |p| >= 256 { return TooSmall, ci; } next := ci.(realm := p);
      case 't' => if |p| >= 12 { return TooSmall, ci; } next := ci.(ctime := p);
      case 'k' => if |p| >= MAXPATHLEN { return TooSmall, ci; } next := ci.(ticket := p);
      case _ => return NoKey, ci;
    }
    c := Copied;
  }

  // ---------------------------------------------------------------- lines

  /** A keyed line without its newline. */
  predicate IsLine(l: string) { l != "" && l[0] in KEYS && NEWLINE !in l }

  predicate AreLines(ls: seq<string>) { forall i :: 0 <= i < |ls| ==> IsLine(ls[i]) }

  function Lines(ls: seq<string>): string
  {
    if ls == [] then "" else ls[0] + "\n" + Lines(ls[1..])
  }

  predicate Short(l: string) { |l| + 1 < LINE }

  /** The line's text has room in its field; then it is short enough for the buffer, too. */
  predicate Roomy(l: string)
    requires IsLine(l)
  {
    |l| - 1 < Room(l[0])
  }

  /** The fields that the lines set, if there is room for all. */
  function Fields(ci: Cinfo, ls: seq<string>): Reading
    requires AreLines(ls)
    decreases |ls|
  {
    if ls == [] then Read(ci)
    else if !Short(ls[0]) then Failed
    else if !Roomy(ls[0]) then Overrun
    else Fields(Put(ci, ls[0][0], ls[0][1..]), ls[1..])
  }

  lemma TakenLine(l: string, rest: string, n: nat)
    requires NEWLINE !in l && n > 1
    ensures var s := l + "\n" + rest; var k := Taken(s, n);
            if |l| + 1 < n then k == |l| + 1 && s[k - 1] == NEWLINE && s[..k - 1] == l && s[k..] == rest
            else s[k - 1] != NEWLINE
  {
    IndexOfAt(l, NEWLINE, rest);
    var s := l + "\n" + rest;
    assert |l| + 1 >= n ==> s[n - 2] == l[n - 2];
  }

  lemma {:induction false} RestOfLines(ci: Cinfo, ls: seq<string>)
    requires AreLines(ls)
    ensures Rest(ci, Lines(ls)) == Fields(ci, ls)
    decreases |ls|
  {
    if ls != [] {
      var l := ls[0];
      assert l in ls;
      TakenLine(l, Lines(ls[1..]), LINE);
      var s := l + "\n" + Lines(ls[1..]);
      assert s[0] == l[0];
      if Short(l) && Roomy(l) {
        assert s[1..|l|] == l[1..];
        RestOfLines(Put(ci, l[0], l[1..]), ls[1..]);
      }
    }
  }

  /** The letter of a line names its field, if the text has room there. */
  lemma LettersAre(ci: Cinfo, p: string)
    requires NEWLINE !in p
    ensures |p| < 256 ==> Rest(ci, "i" + p + "\n") == Read(ci.(ip := p)) && Rest(ci, "j" + p + "\n") == Read(ci.(cur := p))
    ensures |p| < 256 ==> Rest(ci, "r" + p + "\n") == Read(ci.(realm := p))
    ensures |p| < 130 ==> Rest(ci, "p" + p + "\n") == Read(ci.(user := p))
    ensures |p| < 12 ==> Rest(ci, "t" + p + "\n") == Read(ci.(ctime := p))
    ensures |p| < 4096 ==> Rest(ci, "k" + p + "\n") == Read(ci.(ticket := p))
  {
    OneLine(ci, 'i', p);
    OneLine(ci, 'j', p);
    OneLine(ci, 'r', p);
    OneLine(ci, 'p', p);
    OneLine(ci, 't', p);
    OneLine(ci, 'k', p);
  }

  lemma OneLine(ci: Cinfo, key: char, p: string)
    requires key in KEYS && NEWLINE !in p
    ensures |p| < Room(key) ==> Rest(ci, [key] + p + "\n") == Read(Put(ci, key, p))
  {
    var l := [key] + p;
    assert l[1..] == p;
    assert Lines([l]) == l + "\n" by { Seqs.Nil(l + "\n"); }
    RestOfLines(ci, [l]);
  }

  // ---------------------------------------------------------------- the order of the lines

  ghost predicate DifferentKeys(ls: seq<string>) {
    AreLines(ls) && forall i, j :: 0 <= i < j < |ls| ==> ls[i][0] != ls[j][0]
  }

  /** What the lines say of a key, or the old value. */
  function Pick(ls: seq<string>, key: char, v: string): string
  {
    if ls == [] then v
    else Pick(ls[1..], key, if ls[0] != "" && ls[0][0] == key then ls[0][1..] else v)
  }

  lemma {:induction false} FieldsArePicked(ci: Cinfo, ls: seq<string>, key: char)
    requires key in KEYS && AreLines(ls)
    ensures Fields(ci, ls).Read? <==> forall i :: 0 <= i < |ls| ==> Roomy(ls[i])
    ensures Fields(ci, ls).Read? ==> var c := Fields(ci, ls).ci;
            Get(c, key) == Pick(ls, key, Get(ci, key)) && c.live == ci.live && c.itime == ci.itime
    decreases |ls|
  {
    if ls != [] {
      FieldsArePicked(Put(ci, ls[0][0], ls[0][1..]), ls[1..], key);
      assert forall i :: 0 < i < |ls| ==> ls[i] == ls[1..][i - 1];
    }
  }

  /** With different keys, the one line with the key decides. */
  lemma {:induction false} PickIs(ls: seq<string>, key: char, v: string, i: nat)
    requires DifferentKeys(ls) && i < |ls| && ls[i][0] == key
    ensures Pick(ls, key, v) == ls[i][1..]
  {
    if i == 0 {
      PickNone(ls[1..], key, ls[0][1..]);
    } else {
      PickIs(ls[1..], key, v, i - 1);
    }
  }

  lemma {:induction false} PickNone(ls: seq<string>, key: char, v: string)
    requires forall i :: 0 <= i < |ls| ==> ls[i] == "" || ls[i][0] != key
    ensures Pick(ls, key, v) == v
  {
    if ls != [] {
      PickNone(ls[1..], key, v);
    }
  }

  lemma SamePick(a: seq<string>, b: seq<string>, key: char, v: string)
    requires DifferentKeys(a) && DifferentKeys(b) && forall l :: l in a <==> l in b
    ensures Pick(a, key, v) == Pick(b, key, v)
  {
    if i :| 0 <= i < |a| && a[i][0] == key {
      assert a[i] in b;
      var j :| 0 <= j < |b| && b[j] == a[i];
      PickIs(a, key, v, i);
      PickIs(b, key, v, j);
    } else {
      assert forall j :: 0 <= j < |b| ==> b[j] in a;
      PickNone(a, key, v);
      PickNone(b, key, v);
    }
  }

  /** The order of keyed lines does not matter: they are read in the one as in the other, or there is no room in either. */
  lemma OrderDoesNotMatter(ci: Cinfo, a: seq<string>, b: seq<string>)
    requires DifferentKeys(a) && DifferentKeys(b) && forall l :: l in a <==> l in b
    ensures Rest(ci, Lines(a)).Read? <==> Rest(ci, Lines(b)).Read?
    ensures Rest(ci, Lines(a)).Read? ==> Rest(ci, Lines(a)) == Rest(ci, Lines(b))
  {
    RestOfLines(ci, a);
    RestOfLines(ci, b);
    FieldsArePicked(ci, a, 'i');
    FieldsArePicked(ci, b, 'i');
    if Fields(ci, a).Read? { SameRoom(a, b); }
    if Fields(ci, b).Read? { SameRoom(b, a); }
    if Fields(ci, a).Read? {
      var c, d := Fields(ci, a).ci, Fields(ci, b).ci;
      forall key | key in KEYS ensures Get(c, key) == Get(d, key) {
        FieldsArePicked(ci, a, key);
        FieldsArePicked(ci, b, key);
        SamePick(a, b, key, Get(ci, key));
      }
      SameFields(c, d);
    }
  }

  lemma SameRoom(a: seq<string>, b: seq<string>)
    requires AreLines(a) && AreLines(b) && forall l :: l in a <==> l in b
    requires forall i :: 0 <= i < |a| ==> Roomy(a[i])
    ensures forall i :: 0 <= i < |b| ==> Roomy(b[i])
  {
    forall i | 0 <= i < |b| ensures Roomy(b[i]) {
      assert b[i] in a;
    }
  }

  lemma SameFields(a: Cinfo, b: Cinfo)
    requires a.live == b.live && a.itime == b.itime && forall key :: key in KEYS ==> Get(a, key) == Get(b, key)
    ensures a == b
  {
    assert Get(a, 'i') == Get(b, 'i') && Get(a, 'j') == Get(b, 'j') && Get(a, 'p') == Get(b, 'p');
    assert Get(a, 'r') == Get(b, 'r') && Get(a, 't') == Get(b, 't') && Get(a, 'k') == Get(b, 'k');
  }

  // ---------------------------------------------------------------- what f_login writes

  /** The lines behind version and state. */
  function Body(f: Commands.File): seq<string>
    requires f.Login? && f.ctime >= 0
  {
    ["i" + f.ip, "j" + f.cur, "p" + f.user, "r" + f.realm, "t" + Dec(f.ctime)] + (if f.ticket == "" then [] else ["k" + f.ticket])
  }

  /** None of the texts has a newline; all of them are words of a command line, or such words with blanks between. */
  predicate Clean(f: Commands.File)
    requires f.Login?
  {
    NEWLINE !in f.ip && NEWLINE !in f.cur && NEWLINE !in f.user && NEWLINE !in f.realm && NEWLINE !in f.ticket
  }

  /** Every text has room in its field of struct cinfo. */
  predicate Fits(f: Commands.File)
    requires f.Login? && f.ctime >= 0
  {
    && |f.ip| < 256 && |f.cur| < 256 && |f.user| < 130 && |f.realm| < 256
    && |Dec(f.ctime)| < 12 && |f.ticket| < MAXPATHLEN
  }

  lemma FitsIsRoomy(f: Commands.File)
    requires f.Login? && f.ctime >= 0 && Clean(f)
    ensures AreLines(Body(f)) && (Fits(f) <==> forall i :: 0 <= i < |Body(f)| ==> Roomy(Body(f)[i]))
  {
    var ls := Body(f);
    BodyKeys(f);
    assert ls[0] == "i" + f.ip && ls[1] == "j" + f.cur && ls[2] == "p" + f.user && ls[3] == "r" + f.realm && ls[4] == "t" + Dec(f.ctime);
    assert f.ticket != "" ==> ls[5] == "k" + f.ticket;
  }

  /** What commands see of a file that has been read. */
  function Loaded(ci: Cinfo): Commands.File
  {
    Commands.Login(ci.ip, ci.cur, ci.user, ci.realm, Atoi(ci.ctime), ci.ticket, ci.live, ci.itime)
  }

  lemma BodyKeys(f: Commands.File)
    requires f.Login? && f.ctime >= 0 && Clean(f)
    ensures DifferentKeys(Body(f))
  {
  }

  lemma BodyFields(f: Commands.File, key: char)
    requires f.Login? && f.ctime >= 0 && Clean(f) && key in KEYS
    ensures Pick(Body(f), key, "") == if key == 'i' then f.ip else if key == 'j' then f.cur else if key == 'p' then f.user
                                      else if key == 'r' then f.realm else if key == 't' then Dec(f.ctime) else f.ticket
  {
    var ls := Body(f);
    BodyKeys(f);
    assert ls[0] == "i" + f.ip && ls[1] == "j" + f.cur && ls[2] == "p" + f.user && ls[3] == "r" + f.realm && ls[4] == "t" + Dec(f.ctime);
    if key == 'k' && f.ticket == "" {
      PickNone(ls, key, "");
    } else {
      PickIs(ls, key, "", if key == 'i' then 0 else if key == 'j' then 1 else if key == 'p' then 2
                          else if key == 'r' then 3 else if key == 't' then 4 else 5);
    }
  }

  lemma BodyRead(f: Commands.File, setgid: bool)
    requires f.Login? && f.ctime >= 0 && Clean(f)
    ensures Rest(Blank(setgid, f.mtime), Lines(Body(f))).Read? <==> Fits(f)
    ensures Fits(f) ==> Rest(Blank(setgid, f.mtime), Lines(Body(f))) ==
                        Read(Cinfo(!setgid, f.ip, f.cur, f.user, f.realm, Dec(f.ctime), f.ticket, f.mtime))
  {
    var ls, ci := Body(f), Blank(setgid, f.mtime);
    BodyKeys(f);
    FitsIsRoomy(f);
    RestOfLines(ci, ls);
    FieldsArePicked(ci, ls, 'i');
    if Fits(f) {
      var c := Cinfo(!setgid, f.ip, f.cur, f.user, f.realm, Dec(f.ctime), f.ticket, f.mtime);
      forall key | key in KEYS ensures Get(Fields(ci, ls).ci, key) == Get(c, key) {
        FieldsArePicked(ci, ls, key);
        BodyFields(f, key);
      }
      SameFields(Fields(ci, ls).ci, c);
    }
  }

  /** The first two lines. */
  lemma HeadRead(state: char, rest: string, setgid: bool, mtime: int)
    requires state != NEWLINE
    ensures ReadBack("v2\n" + ("s" + [state] + "\n" + rest), setgid, mtime) == Rest(Blank(setgid, mtime), rest)
  {
    var more := "s" + [state] + "\n" + rest;
    TakenLine("v2", more, HEAD);
    TakenLine("s" + [state], rest, HEAD);
    assert "v2" + "\n" + more == "v2\n" + more;
    assert ("v2\n" + more)[1..2] == "2";
    AtoiOfDec(2, "");
    assert Dec(2) + "" == "2";
  }

  /**
   What is written is read back, for every record and whatever the order of the lines behind the
   second: exactly if every text has room in its field. Live is told by the mode alone, not by the second line.
   */
  lemma RecordRoundTrip(f: Commands.File, ls: seq<string>, state: char)
    requires f.Login? && f.ctime >= 0 && Clean(f) && state != NEWLINE
    requires DifferentKeys(ls) && forall l :: l in ls <==> l in Body(f)
    ensures var r := ReadBack("v2\n" + ("s" + [state] + "\n" + Lines(ls)), !f.live, f.mtime);
            && (r.Read? <==> Fits(f))
            && (r.Read? ==> Loaded(r.ci) == f)
  {
    HeadRead(state, Lines(ls), !f.live, f.mtime);
    BodyKeys(f);
    OrderDoesNotMatter(Blank(!f.live, f.mtime), ls, Body(f));
    BodyRead(f, !f.live);
    AtoiOfDec(f.ctime, "");
    Seqs.Nil(Dec(f.ctime));
  }

  lemma {:induction false} JoinClean(ws: seq<string>)
    requires AllWords(ws)
    ensures NEWLINE !in Join(ws)
  {
    if |ws| == 1 {
      assert ws[0] in ws;
    } else if |ws| > 1 {
      assert ws[0] in ws;
      JoinClean(ws[1..]);
    }
  }

  /** Every record that a LOGIN leaves can be written in this way: no argument brings in a newline. */
  lemma LoginWritesClean(cfg: Commands.Config, fs: Commands.Files, e: Commands.Event)
    requires e.cmd.LOGIN? && Commands.Regular(fs, e) && Commands.Exec(cfg, fs, e).code in {200, 201}
    requires |e.cmd.av| >= 5 && NEWLINE !in e.cmd.krbpath
    requires Commands.IsLogin(fs, e.cmd.av[1]) ==> Clean(fs[e.cmd.av[1]])
    ensures Commands.IsLogin(Commands.Exec(cfg, fs, e).files, e.cmd.av[1]) && Clean(Commands.Exec(cfg, fs, e).files[e.cmd.av[1]])
  {
    var av := e.cmd.av;
    Effects.LoginDoes(cfg, fs, e);
    NewRecordClean(fs, e);
  }

  lemma NewRecordClean(fs: Commands.Files, e: Commands.Event)
    requires e.cmd.LOGIN? && |e.cmd.av| >= 5 && AllWords(e.cmd.av) && NEWLINE !in e.cmd.krbpath
    requires Commands.IsLogin(fs, e.cmd.av[1]) ==> Clean(fs[e.cmd.av[1]])
    ensures Clean(Effects.NewRecord(fs, e))
  {
    var av := e.cmd.av;
    assert IsWord(av[2]) && IsWord(av[3]);
    Laws.NamedAreWords(av);
    JoinClean(Commands.Named(av));
    if Commands.IsLogin(fs, av[1]) {
      var have := Commands.Factors(fs[av[1]]);
      TokensAreWords(fs[av[1]].realm);
      Laws.MissingAreWords(Commands.Named(av), have);
      JoinClean(have + Commands.Missing(Commands.Named(av), have));
    }
  }

  /** The factors of the record that a LOGIN leaves, told before it. */
  function Resulting(fs: Commands.Files, av: seq<string>): seq<string>
    requires |av| >= 5
  {
    if Commands.IsLogin(fs, av[1]) then
      Commands.Factors(fs[av[1]]) + Commands.Missing(Commands.Named(av), Commands.Factors(fs[av[1]]))
    else Commands.Named(av)
  }

  /** Times of eleven digits, and a ticket path within the limit of the path that f_login makes. */
  predicate Ordinary(fs: Commands.Files, e: Commands.Event)
    requires e.cmd.LOGIN? && |e.cmd.av| >= 5
  {
    && 0 <= e.now < 100_000_000_000 && |e.cmd.krbpath| < MAXPATHLEN
    && (Commands.IsLogin(fs, e.cmd.av[1]) ==>
          var f := fs[e.cmd.av[1]]; 0 <= f.mtime < 100_000_000_000 && f.ctime >= 0 && Fits(f))
  }

  lemma ElevenDigits(n: nat)
    requires n < 100_000_000_000
    ensures |Dec(n)| < 12
  {
    assert Pow10(5) == 100_000;
    assert Pow10(11) == 1_000_000 * Pow10(5);
    DecLength(n, 11);
  }

  /** The record of a successful LOGIN, from what f_login looks at. */
  lemma LoginRecord(cfg: Commands.Config, fs: Commands.Files, e: Commands.Event)
    requires e.cmd.LOGIN? && |e.cmd.av| >= 5 && Commands.Exec(cfg, fs, e).code in {200, 201}
    ensures var av, fs' := e.cmd.av, Commands.Exec(cfg, fs, e).files;
            && Commands.IsLogin(fs', av[1])
            && var rec := fs'[av[1]];
               && |av[2]| < 256 && |av[3]| < 130 && rec.cur == av[2] && rec.user == av[3]
               && rec.realm == Join(Resulting(fs, av))
               && if Commands.IsLogin(fs, av[1]) then
                    rec.ip == fs[av[1]].ip && rec.ctime == fs[av[1]].mtime && rec.ticket in {fs[av[1]].ticket, e.cmd.krbpath, ""}
                  else rec.ip == av[2] && rec.ctime == e.now && rec.ticket in {e.cmd.krbpath, ""}
  {
  }

  /** f_login's own checks leave one way for a record not to be read back: its factors together. */
  lemma LoginFitsIff(cfg: Commands.Config, fs: Commands.Files, e: Commands.Event)
    requires e.cmd.LOGIN? && |e.cmd.av| >= 5 && Commands.Exec(cfg, fs, e).code in {200, 201} && Ordinary(fs, e)
    ensures var av, fs' := e.cmd.av, Commands.Exec(cfg, fs, e).files;
            && Commands.IsLogin(fs', av[1]) && fs'[av[1]].ctime >= 0
            && (Fits(fs'[av[1]]) <==> |Join(Resulting(fs, av))| < 256)
  {
    LoginRecord(cfg, fs, e);
    ElevenDigits(Commands.Exec(cfg, fs, e).files[e.cmd.av[1]].ctime);
  }

  /** The failing input: two factors of 200 characters each are taken with 200, and the record is not read back. */
  lemma TwoLongFactors(cfg: Commands.Config, peer: Commands.Peer, now: nat, cookie: string, transfer: Ticket.Outcome, m: Commands.Memory)
    requires peer.key.CGI? && MkCookie.Housed(cfg.hashlen, cookie) && now < 100_000_000_000
    ensures var f, g := seq(200, _ => 'f'), seq(200, _ => 'g');
            var e := Commands.Event(peer, now, Commands.LOGIN(["LOGIN", cookie, "10.0.0.1", "user", f, g], "", transfer, m));
            var d := Commands.Exec(cfg, map[], e);
            d.code == 200 && Commands.IsLogin(d.files, cookie) && d.files[cookie].ctime >= 0 && !Fits(d.files[cookie])
  {
    var f, g := seq(200, _ => 'f'), seq(200, _ => 'g');
    var av := ["LOGIN", cookie, "10.0.0.1", "user", f, g];
    assert av[5][0] == 'g' && av[5] != "kerberos";
    assert Commands.Named(av) == [f, g] && [f, g][1..] == [g];
    assert |Join([f, g])| == 401;
    var e := Commands.Event(peer, now, Commands.LOGIN(av, "", transfer, m));
    LoginFitsIff(cfg, map[], e);
  }
}
