/** netcheck_cookie: what a filter makes of the daemon's reply to CHECK or REKEY. */
module Netcheck {
  import opened Text
  import Answers
  import C = FilterCache
  import Commands
  import MkCookie
  import S = ServerList
  import Seqs

  /** What the filter asks for, and what it is configured with. */
  datatype Query = Query(proto: int, rekey: bool, required: seq<string>, suffix: Option<string>, fake: bool)

  datatype Outcome = Outcome(reply: S.Reply, si: C.Info, rekeyed: Option<string>)

  // ---------------------------------------------------------------- required factors

  predicate Occurs(s: string, w: string, k: nat) { k + |s| <= |w| && w[k..k + |s|] == s }

  /** The word is the factor and the suffix, and the suffix does not begin earlier in the word. */
  ghost predicate SuffixMatch(f: string, w: string, suffix: Option<string>)
  {
    suffix.Some? && w == f + suffix.value && forall k: nat :: k < |f| ==> !Occurs(suffix.value, w, k)
  }

  /** strstr: the first place where s occurs in w. */
  method StrStr(w: string, s: string) returns (at: Option<nat>)
    ensures at.Some? ==> Occurs(s, w, at.value) && forall k: nat :: k < at.value ==> !Occurs(s, w, k)
    ensures at.None? ==> forall k: nat :: !Occurs(s, w, k)
  {
    var k := 0;
    while k + |s| <= |w|
      invariant forall j: nat :: j < k ==> !Occurs(s, w, j)
    {
      if w[k..k + |s|] == s { return Some(k); }
      k := k + 1;
    }
    return None;
  }

  method WithSuffix(f: string, w: string, suffix: Option<string>) returns (b: bool)
    ensures b <==> SuffixMatch(f, w, suffix)
  {
    b := false;
    if suffix.Some? {
      var s := suffix.value;
      var p := StrStr(w, s);
      if w == f + s {
        Seqs.TakeOfCat(f, s);
        assert Occurs(s, w, |f|);
      }
      if p.Some? && |w| - p.value == |s| {
        Seqs.Cut(w, p.value);
        b := w[..p.value] == f;
      }
    }
  }

  /** The first of the words that decides about a factor. */
  datatype Met = Yes | No | SuffixOff

  ghost function Meets(f: string, words: seq<string>, suffix: Option<string>, fake: bool): Met
  {
    if words == [] then No
    else if f == words[0] then Yes
    else if SuffixMatch(f, words[0], suffix) then (if fake then Yes else SuffixOff)
    else Meets(f, words[1..], suffix, fake)
  }

  ghost function AllMet(required: seq<string>, words: seq<string>, suffix: Option<string>, fake: bool): Met
  {
    if required == [] then Yes
    else
      var m := Meets(required[0], words, suffix, fake);
      if m == Yes then AllMet(required[1..], words, suffix, fake) else m
  }

  method Require(required: seq<string>, words: seq<string>, suffix: Option<string>, fake: bool) returns (m: Met)
    ensures m == AllMet(required, words, suffix, fake)
  {
    var i := 0;
    while i < |required|
      invariant 0 <= i <= |required|
      invariant AllMet(required, words, suffix, fake) == AllMet(required[i..], words, suffix, fake)
    {
      var j, found := 0, No;
      while j < |words| && found == No
        invariant 0 <= j <= |words|
        invariant Meets(required[i], words, suffix, fake) == if found == No then Meets(required[i], words[j..], suffix, fake) else found
        decreases |words| - j, if found == No then 1 else 0
      {
        if required[i] == words[j] {
          found := Yes;
        } else {
          var b := WithSuffix(required[i], words[j], suffix);
          if b {
            found := if fake then Yes else SuffixOff;
          } else {
            j := j + 1;
          }
        }
      }
      if found != Yes { return found; }
      i := i + 1;
    }
    return Yes;
  }

  /** Exactly when the required factors are met: each is on the list, or in disguise where that is allowed, and nothing forbidden is in the way. */
  lemma {:induction false} MetIff(required: seq<string>, words: seq<string>, suffix: Option<string>, fake: bool)
    ensures AllMet(required, words, suffix, fake) == Yes <==> forall f :: f in required ==> Meets(f, words, suffix, fake) == Yes
  {
    if required != [] {
      MetIff(required[1..], words, suffix, fake);
      assert required[0] in required;
      assert forall f :: f in required ==> f == required[0] || f in required[1..];
      assert forall f :: f in required[1..] ==> f in required;
    }
  }

  /** The k-th word is the factor, or the factor with the suffix where that is allowed; where it is not, no word before it is that. */
  ghost predicate MetAt(f: string, words: seq<string>, suffix: Option<string>, fake: bool, k: nat)
  {
    && k < |words| && (f == words[k] || (fake && SuffixMatch(f, words[k], suffix)))
    && (!fake ==> forall j :: 0 <= j < k ==> f == words[j] || !SuffixMatch(f, words[j], suffix))
  }

  /** A factor is met exactly if it is met at some word. */
  lemma {:induction false} MeetsIff(f: string, words: seq<string>, suffix: Option<string>, fake: bool)
    ensures Meets(f, words, suffix, fake) == Yes <==> exists k :: MetAt(f, words, suffix, fake, k)
  {
    if words != [] {
      var rest := words[1..];
      MeetsIff(f, rest, suffix, fake);
      if f == words[0] || (fake && SuffixMatch(f, words[0], suffix)) {
        assert MetAt(f, words, suffix, fake, 0);
      } else if !SuffixMatch(f, words[0], suffix) {
        forall k: nat ensures MetAt(f, rest, suffix, fake, k) <==> MetAt(f, words, suffix, fake, k + 1) {
          MetLater(f, words, suffix, fake, k);
        }
        assert !MetAt(f, words, suffix, fake, 0);
        if k: nat :| MetAt(f, words, suffix, fake, k) {
          var i: nat := k - 1;
          assert MetAt(f, rest, suffix, fake, i) <==> MetAt(f, words, suffix, fake, i + 1);
        }
      }
    }
  }

  lemma MetLater(f: string, words: seq<string>, suffix: Option<string>, fake: bool, k: nat)
    requires words != [] && f != words[0] && !SuffixMatch(f, words[0], suffix)
    ensures MetAt(f, words[1..], suffix, fake, k) <==> MetAt(f, words, suffix, fake, k + 1)
  {
    assert forall j :: 0 < j < |words| ==> words[j] == words[1..][j - 1];
  }

  /** As long as no word is the factor in disguise, as without a configured suffix, a factor is met exactly if it is on the list. */
  lemma MeetsPlainly(f: string, words: seq<string>, suffix: Option<string>, fake: bool)
    requires !fake && forall w :: w in words ==> !SuffixMatch(f, w, suffix)
    ensures Meets(f, words, suffix, fake) == Yes <==> f in words
  {
    MeetsIff(f, words, suffix, fake);
    if f in words {
      var k :| 0 <= k < |words| && words[k] == f;
      assert MetAt(f, words, suffix, fake, k);
    }
  }

  // ---------------------------------------------------------------- the whole reply

  const FACTORS := 256
  const ADDRESS := 256
  const USER := 130

  function Failed(r: S.Reply): Outcome { Outcome(r, C.Info(0, "", "", "", ""), None) }

  /** The words that are factors; a rekeyed cookie is the last word. */
  function Upto(q: Query, av: seq<string>): nat
    requires |av| >= 4
  {
    if q.rekey then |av| - 1 else |av|
  }

  function Listed(q: Query, av: seq<string>): seq<string>
    requires |av| >= 4
  {
    [av[3]] + (if Upto(q, av) > 4 then av[4..Upto(q, av)] else [])
  }

  /** The outcome for a reply that begins with 2, cut into words. */
  ghost function Taken(q: Query, av: seq<string>): Outcome
  {
    if |av| < 4 || |av[1]| >= ADDRESS || |av[2]| >= USER then Failed(S.ERROR)
    else
      var m := if Commands.SupportsFactors(q.proto) then AllMet(q.required, av[3..Upto(q, av)], q.suffix, q.fake) else Yes;
      if m == SuffixOff then Failed(S.ERROR)
      else if m == No then Failed(S.RETRY)
      else if Commands.SupportsFactors(q.proto) && |Join(Listed(q, av))| >= FACTORS then Failed(S.ERROR)
      else if |av[3]| >= FACTORS || (q.rekey && !("cosign-" <= av[|av| - 1])) then Failed(S.ERROR)
      else Outcome(S.OK, C.Info(q.proto, av[1], av[2], av[3], if Commands.SupportsFactors(q.proto) then Join(Listed(q, av)) else ""),
                   if q.rekey then Some(av[|av| - 1]) else None)
  }

  ghost function Netcheck(q: Query, line: string): Outcome
  {
    if line == "" then Failed(S.ERROR)
    else if line[0] == '2' then Taken(q, Tokens(line))
    else Failed(if line[0] == '4' then S.LOGGED_OUT else if line[0] == '5' then S.RETRY else S.ERROR)
  }

  lemma {:induction false} JoinGrows(a: seq<string>, b: seq<string>)
    ensures |Join(a)| <= |Join(a + b)|
    decreases |b|
  {
    if b == [] {
      Seqs.Nil(a);
    } else {
      Seqs.Cons(b);
      Seqs.Assoc(a, [b[0]], b[1..]);
      if a == [] {
        Seqs.Nil([b[0]]);
      } else {
        JoinAppend(a, b[0]);
      }
      JoinGrows(a + [b[0]], b[1..]);
    }
  }

  /** si_factor, as far as there is room for it. */
  method FactorLine(first: string, more: seq<string>) returns (line: Option<string>)
    ensures line == if |Join([first] + more)| >= FACTORS then None else Some(Join([first] + more))
  {
    if |first| + 1 > FACTORS {
      JoinGrows([first], more);
      return None;
    }
    var s := first;
    for i := 0 to |more|
      invariant s == Join([first] + more[..i]) && |s| < FACTORS
    {
      var upto := [first] + more[..i];
      JoinAppend(upto, more[i]);
      assert [first] + more[..i + 1] == upto + [more[i]];
      if |more[i]| + 1 + 1 > FACTORS - |s| {
        JoinGrows(upto + [more[i]], more[i + 1..]);
        assert upto + [more[i]] + more[i + 1..] == [first] + more;
        return None;
      }
      s := s + " " + more[i];
    }
    assert more[..|more|] == more;
    return Some(s);
  }

  method NetcheckCookie(q: Query, line: string) returns (r: Outcome)
    ensures r == Netcheck(q, line)
  {
    if line == "" { return Failed(S.ERROR); }
    match line[0] {
      case '2' =>
      case '4' => return Failed(S.LOGGED_OUT);
      case '5' => return Failed(S.RETRY);
      case _ => return Failed(S.ERROR);
    }
    var av := Tokens(line);
    var ac := |av|;
    if ac < 4 { return Failed(S.ERROR); }
    var mf := if q.rekey then ac - 1 else ac;
    if |av[1]| >= ADDRESS { return Failed(S.ERROR); }
    if |av[2]| >= USER { return Failed(S.ERROR); }
    var factors := "";
    if Commands.SupportsFactors(q.proto) {
      var m := Require(q.required, av[3..mf], q.suffix, q.fake);
      if m == SuffixOff { return Failed(S.ERROR); }
      if m == No { return Failed(S.RETRY); }
      var l := FactorLine(av[3], if mf > 4 then av[4..mf] else []);
      if l.None? { return Failed(S.ERROR); }
      factors := l.value;
    }
    if |av[3]| >= FACTORS { return Failed(S.ERROR); }
    if q.rekey && !("cosign-" <= av[ac - 1]) { return Failed(S.ERROR); }
    r := Outcome(S.OK, C.Info(q.proto, av[1], av[2], av[3], factors), if q.rekey then Some(av[ac - 1]) else None);
  }

  // ---------------------------------------------------------------- the daemon's reply

  /** "%d %s", without the line's end. */
  function ReplyLine(d: Commands.Done): string
    requires d.code >= 0
  {
    Dec(d.code) + " " + d.text
  }

  /** The login cookie that a CHECK of the cookie rests on. */
  function LoginOf(fs: Commands.Files, cookie: string): string
    requires "cosign-" <= cookie ==> Commands.IsService(fs, cookie)
  {
    if "cosign-" <= cookie then fs[cookie].login else cookie
  }

  /** What the daemon says about a passed CHECK, with the new cookie behind it after a REKEY. */
  lemma PassedText(cfg: Commands.Config, fs: Commands.Files, e: Commands.Event)
    requires e.cmd.CHECK? && Commands.Passed(Commands.Exec(cfg, fs, e))
    ensures "cosign-" <= e.cmd.cookie ==> Commands.IsService(fs, e.cmd.cookie)
    ensures var l, d := LoginOf(fs, e.cmd.cookie), Commands.Exec(cfg, fs, e);
            && Commands.IsLogin(fs, l) && d.code in {231, 232, 233}
            && d.text == Commands.CheckText(e.peer, fs[l], if d.code == 233 then Commands.Rekeyed(e.cmd.cookie, e.cmd.minted) else "")
            && (d.code == 233 <==> e.cmd.rekey && Commands.SupportsRekey(e.peer.protocol) && "cosign-" <= e.cmd.cookie)
  {
  }

  /** The words of the reply: the code, the current address, the user, all factors, and the new cookie if there is one. */
  lemma ReplyWords(code: nat, peer: Commands.Peer, rec: Commands.File, renamed: string)
    requires code == 231 || code == 232 || code == 233
    requires Commands.SupportsFactors(peer.protocol) && rec.Login? && IsWord(rec.cur) && IsWord(rec.user)
    ensures Tokens(Dec(code) + " " + Commands.CheckText(peer, rec, renamed)) ==
            [Dec(code), rec.cur, rec.user] + Commands.Factors(rec) + Tokens(renamed)
  {
    var text := rec.cur + " " + rec.user + " " + rec.realm + " " + renamed;
    TokensOfCat(Dec(code), ' ', text);
    FourParts(rec.cur, rec.user, rec.realm, renamed);
    OneWord(rec.cur);
    OneWord(rec.user);
    OneWord(Dec(code));
    Gather(Dec(code), rec.cur, rec.user, Tokens(rec.realm), Tokens(renamed));
  }

  lemma FourParts(a: string, b: string, c: string, d: string)
    ensures Tokens(a + " " + b + " " + c + " " + d) == Tokens(a) + Tokens(b) + Tokens(c) + Tokens(d)
  {
    TokensOfCat(a + " " + b + " " + c, ' ', d);
    TokensOfCat(a + " " + b, ' ', c);
    TokensOfCat(a, ' ', b);
  }

  lemma Gather(a: string, b: string, c: string, d: seq<string>, e: seq<string>)
    ensures [a] + ([b] + [c] + d + e) == [a, b, c] + d + e
  {
  }

  lemma OneWord(w: string)
    requires IsWord(w)
    ensures Tokens(w) == [w]
  {
    WordThenRest(w, "");
    Seqs.Nil(w);
  }

  lemma CodesInDecimal()
    ensures Dec(231) == "231" && Dec(232) == "232" && Dec(233) == "233"
  {
    assert Dec(2) == "2";
    assert Dec(23) == "23";
  }

  lemma RekeyedKeepsPrefix(cookie: string, minted: string)
    requires "cosign-" <= cookie
    ensures "cosign-" <= Commands.Rekeyed(cookie, minted)
  {
    IndexOfBehind("cosign-", cookie, '=');
  }

  /** The words of a reply, taken apart again. */
  lemma Apart(q: Query, code: string, cur: string, user: string, factors: seq<string>, more: seq<string>)
    requires factors != [] && |more| == if q.rekey then 1 else 0
    ensures var av := [code, cur, user] + factors + more;
            && |av| >= 4 && av[1] == cur && av[2] == user && av[3] == factors[0]
            && av[3..Upto(q, av)] == factors && Listed(q, av) == factors
            && (q.rekey ==> av[|av| - 1] == more[0])
  {
    var av := [code, cur, user] + factors + more;
    assert av[3..Upto(q, av)] == factors;
    assert Upto(q, av) > 4 ==> av[4..Upto(q, av)] == factors[1..];
    Seqs.Cons(factors);
  }

  /** What becomes of a positive reply that keeps within the field sizes. */
  lemma WordsTaken(q: Query, line: string, code: string, cur: string, user: string, factors: seq<string>, more: seq<string>)
    requires line != "" && line[0] == '2' && Tokens(line) == [code, cur, user] + factors + more
    requires Commands.SupportsFactors(q.proto) && factors != [] && |more| == if q.rekey then 1 else 0
    requires q.rekey ==> "cosign-" <= more[0]
    requires |cur| < ADDRESS && |user| < USER && |Join(factors)| < FACTORS
    ensures var r := Netcheck(q, line);
            && (r.reply.OK? <==> AllMet(q.required, factors, q.suffix, q.fake) == Yes)
            && (r.reply.OK? ==> r.si == C.Info(q.proto, cur, user, factors[0], Join(factors)))
            && (r.reply.OK? ==> r.rekeyed == if q.rekey then Some(more[0]) else None)
  {
    Apart(q, code, cur, user, factors, more);
    Seqs.Cons(factors);
    JoinGrows([factors[0]], factors[1..]);
  }

  /**
   What the filter takes from the reply to a passed CHECK or REKEY is what the daemon's record
   says, with the new cookie last: it accepts exactly if the record's factors are the required ones.
   */
  lemma FilterSeesTheRecord(cfg: Commands.Config, fs: Commands.Files, e: Commands.Event, q: Query)
    requires e.cmd.CHECK? && Commands.Passed(Commands.Exec(cfg, fs, e))
    requires q.proto == e.peer.protocol && Commands.SupportsFactors(q.proto)
    requires q.rekey == (Commands.Exec(cfg, fs, e).code == 233)
    requires q.rekey ==> IsWord(Commands.Rekeyed(e.cmd.cookie, e.cmd.minted))
    requires "cosign-" <= e.cmd.cookie ==> Commands.IsService(fs, e.cmd.cookie)
    requires var l := LoginOf(fs, e.cmd.cookie);
             && Commands.IsLogin(fs, l) && IsWord(fs[l].cur) && IsWord(fs[l].user) && Commands.Factors(fs[l]) != []
             && |fs[l].cur| < ADDRESS && |fs[l].user| < USER && |Join(Commands.Factors(fs[l]))| < FACTORS
    ensures Commands.Exec(cfg, fs, e).code >= 0
    ensures var rec, r := fs[LoginOf(fs, e.cmd.cookie)], Netcheck(q, ReplyLine(Commands.Exec(cfg, fs, e)));
            && (r.reply.OK? <==> AllMet(q.required, Commands.Factors(rec), q.suffix, q.fake) == Yes)
            && (r.reply.OK? ==> r.si == C.Info(q.proto, rec.cur, rec.user, Commands.Factors(rec)[0], Join(Commands.Factors(rec))))
            && (r.reply.OK? ==> r.rekeyed == if q.rekey then Some(Commands.Rekeyed(e.cmd.cookie, e.cmd.minted)) else None)
  {
    PassedText(cfg, fs, e);
    CodesInDecimal();
    var d, rec := Commands.Exec(cfg, fs, e), fs[LoginOf(fs, e.cmd.cookie)];
    var renamed := if q.rekey then Commands.Rekeyed(e.cmd.cookie, e.cmd.minted) else "";
    ReplyWords(d.code, e.peer, rec, renamed);
    if q.rekey {
      OneWord(renamed);
      RekeyedKeepsPrefix(e.cmd.cookie, e.cmd.minted);
    }
    assert ReplyLine(d)[0] == '2';
    WordsTaken(q, ReplyLine(d), Dec(d.code), rec.cur, rec.user, Commands.Factors(rec), Tokens(renamed));
  }

  // ---------------------------------------------------------------- what the answers mean

  /** A reply is taken for logged out exactly if its first digit is 4, and for OK only if it is 2. */
  lemma DigitTells(q: Query, line: string)
    requires line != ""
    ensures Netcheck(q, line).reply.LOGGED_OUT? <==> line[0] == '4'
    ensures Netcheck(q, line).reply.OK? ==> line[0] == '2'
    ensures line[0] == '5' ==> Netcheck(q, line).reply.RETRY?
  {
  }

  lemma FirstDigit(n: nat)
    requires 100 <= n < 1000
    ensures Dec(n)[0] == (48 + n / 100) as char
  {
    assert Dec(n / 100) == [(48 + n / 100) as char];
    assert Dec(n / 10)[0] == Dec(n / 100)[0];
    assert n / 10 / 10 == n / 100;
  }

  /** The filter is told logged out exactly when the login that the cookie stands for is dead or beyond the grey window, or it asks what nobody may. */
  lemma GivesUpIff(cfg: Commands.Config, fs: Commands.Files, e: Commands.Event, q: Query)
    requires e.cmd.CHECK?
    ensures Commands.Exec(cfg, fs, e).code >= 0
    ensures Netcheck(q, ReplyLine(Commands.Exec(cfg, fs, e))).reply.LOGGED_OUT? <==>
            Answers.Wrong(cfg, e) || exists l :: Answers.ComesTo(cfg, fs, e, l) && Answers.Over(cfg, fs, e.now, l)
  {
    var d := Commands.Exec(cfg, fs, e);
    Answers.CheckIff(cfg, fs, e);
    FirstDigit(d.code);
    assert ReplyLine(d)[0] == Dec(d.code)[0];
    DigitTells(q, ReplyLine(d));
  }

  /** In the grey window it is told to ask elsewhere. */
  lemma GreyIsRetried(cfg: Commands.Config, fs: Commands.Files, e: Commands.Event, q: Query, l: string)
    requires Answers.ComesTo(cfg, fs, e, l) && l in fs && fs[l].Login? && fs[l].live
    requires cfg.idle <= e.now - fs[l].mtime < cfg.idle + cfg.grey
    ensures Commands.Exec(cfg, fs, e).code >= 0 && Netcheck(q, ReplyLine(Commands.Exec(cfg, fs, e))).reply.RETRY?
  {
    var d := Commands.Exec(cfg, fs, e);
    Answers.GreyIsElsewhere(cfg, fs, e, l);
    FirstDigit(d.code);
    assert ReplyLine(d)[0] == Dec(d.code)[0];
    DigitTells(q, ReplyLine(d));
  }

  /** The words that count as factors when the new cookie, if one was asked for, is left off. */
  function FactorWords(q: Query, av: seq<string>): seq<string>
    requires |av| >= 4
  {
    if q.rekey then av[3..|av| - 1] else av[3..]
  }

  /** A reply is OK exactly if it begins with 2, its words fit the fields, each required factor is met by one of them, and a rekeyed cookie ends it. */
  lemma OkIff(q: Query, line: string)
    ensures Netcheck(q, line).reply.OK? <==>
            var av := Tokens(line);
            && line != "" && line[0] == '2' && |av| >= 4 && |av[1]| < 256 && |av[2]| < 130 && |av[3]| < 256
            && (2 <= q.proto <= 3 ==> |Join([av[3]] + FactorWords(q, av)[if |FactorWords(q, av)| > 0 then 1 else 0..])| < 256)
            && (2 <= q.proto <= 3 ==> forall f :: f in q.required ==> exists k :: MetAt(f, FactorWords(q, av), q.suffix, q.fake, k))
            && (q.rekey ==> "cosign-" <= av[|av| - 1])
  {
    var av := Tokens(line);
    if line != "" && line[0] == '2' && |av| >= 4 {
      FactorsIff(q, av);
    }
  }

  lemma FactorsIff(q: Query, av: seq<string>)
    requires |av| >= 4
    ensures Listed(q, av) == [av[3]] + FactorWords(q, av)[if |FactorWords(q, av)| > 0 then 1 else 0..]
    ensures AllMet(q.required, av[3..Upto(q, av)], q.suffix, q.fake) == Yes <==>
            forall f :: f in q.required ==> exists k :: MetAt(f, FactorWords(q, av), q.suffix, q.fake, k)
  {
    var words := FactorWords(q, av);
    assert words == av[3..Upto(q, av)];
    MetIff(q.required, words, q.suffix, q.fake);
    forall f | f in q.required ensures Meets(f, words, q.suffix, q.fake) == Yes <==> exists k :: MetAt(f, words, q.suffix, q.fake, k) {
      MeetsIff(f, words, q.suffix, q.fake);
    }
  }

  /** For a protocol without factors the daemon sends the first address, the user and the first factor, and the filter takes these and requires nothing. */
  lemma FilterSeesTheFirstFactor(cfg: Commands.Config, fs: Commands.Files, e: Commands.Event, q: Query)
    requires e.cmd.CHECK? && Commands.Passed(Commands.Exec(cfg, fs, e))
    requires q.proto == e.peer.protocol && !(2 <= q.proto <= 3) && !q.rekey
    requires "cosign-" <= e.cmd.cookie ==> Commands.IsService(fs, e.cmd.cookie)
    requires var l := LoginOf(fs, e.cmd.cookie);
             && Commands.IsLogin(fs, l) && IsWord(fs[l].ip) && IsWord(fs[l].user) && Commands.Factors(fs[l]) != []
             && |fs[l].ip| < 256 && |fs[l].user| < 130 && |Commands.Factors(fs[l])[0]| < 256
    ensures Commands.Exec(cfg, fs, e).code >= 0
    ensures var rec := fs[LoginOf(fs, e.cmd.cookie)];
            Netcheck(q, ReplyLine(Commands.Exec(cfg, fs, e))) == Outcome(S.OK, C.Info(q.proto, rec.ip, rec.user, Commands.Factors(rec)[0], ""), None)
  {
    PassedText(cfg, fs, e);
    var d, rec := Commands.Exec(cfg, fs, e), fs[LoginOf(fs, e.cmd.cookie)];
    FirstFactorWords(d.code, e.peer, rec);
    FirstDigit(d.code);
    FourTaken(q, ReplyLine(d), Dec(d.code), rec.ip, rec.user, Commands.Factors(rec)[0]);
  }

  /** The words of the reply for such a protocol. */
  lemma FirstFactorWords(code: nat, peer: Commands.Peer, rec: Commands.File)
    requires code == 231 || code == 232 || code == 233
    requires !Commands.SupportsFactors(peer.protocol) && rec.Login? && IsWord(rec.ip) && IsWord(rec.user) && Commands.Factors(rec) != []
    ensures Tokens(Dec(code) + " " + Commands.CheckText(peer, rec, "")) == [Dec(code), rec.ip, rec.user, Commands.Factors(rec)[0]]
  {
    var f := Commands.Factors(rec)[0];
    TokensAreWords(rec.realm);
    assert f in Commands.Factors(rec);
    FourWords(Dec(code), rec.ip, rec.user, f);
  }

  lemma FourWords(a: string, b: string, c: string, d: string)
    requires IsWord(a) && IsWord(b) && IsWord(c) && IsWord(d)
    ensures Tokens(a + " " + (b + " " + c + " " + d)) == [a, b, c, d]
  {
    TokensOfCat(a, ' ', b + " " + c + " " + d);
    TokensOfCat(b + " " + c, ' ', d);
    TokensOfCat(b, ' ', c);
    OneWord(a);
    OneWord(b);
    OneWord(c);
    OneWord(d);
  }

  lemma FourTaken(q: Query, line: string, code: string, ip: string, user: string, f: string)
    requires line != "" && line[0] == '2' && Tokens(line) == [code, ip, user, f] && !(2 <= q.proto <= 3) && !q.rekey
    requires |ip| < 256 && |user| < 130 && |f| < 256
    ensures Netcheck(q, line) == Outcome(S.OK, C.Info(q.proto, ip, user, f, ""), None)
  {
  }
}
