/**
 cosign_cookie_valid: the filter's cache of CHECK answers. The decisions of one call are
 functions; a class runs them in sequence as the code does, and a state machine lets the
 reads, checks and commits of any number of calls interleave.
 */
module FilterCache {
  import opened Text
  import opened Commands
  import MkCookie
  import Seqs

  const IDLETIME := 60

  /** struct sinfo, without the ticket path. */
  datatype Info = Info(proto: int, ip: string, user: string, realm: string, factors: string)

  /** A cache file: what was written, and when. */
  datatype Entry = Entry(info: Info, mtime: int)

  type Cache = map<string, Entry>

  datatype IpCheck = NEVER | INITIAL | ALWAYS

  /** One call: the cookie, the browser's address, the configuration, and whether a rekeyed cookie is wanted. */
  datatype Request = Request(cookie: string, ip: string, checkip: IpCheck, required: seq<string>, rekey: bool, hashlen: int)

  datatype Verdict = OK | RETRY | ERROR

  /** What cosign_check_cookie brings back. */
  datatype Answer = Answer(verdict: Verdict, si: Info, rekeyed: Option<string>)

  /** The lines of a cache file: factors are written for protocols that have them only. */
  function Written(si: Info): Info { if SupportsFactors(si.proto) then si else si.(factors := "") }

  /** read_scookie takes every version other than 2 for 0. */
  function ReadBack(e: Entry): Info { if e.info.proto == 2 then e.info else e.info.(proto := 0) }

  /** The cached answer is recent and good enough. */
  predicate Hit(req: Request, seen: Option<Entry>, tv: int) {
    && seen.Some?
    && tv - seen.value.mtime <= IDLETIME
    && !(req.checkip.ALWAYS? && req.ip != ReadBack(seen.value).ip)
    && (SupportsFactors(ReadBack(seen.value).proto) ==>
          forall f :: f in req.required ==> f in Tokens(ReadBack(seen.value).factors))
  }

  /** The cached line has been taken apart for the required factors. */
  predicate Examined(req: Request, e: Entry, tv: int) {
    && tv - e.mtime <= IDLETIME && !(req.checkip.ALWAYS? && req.ip != ReadBack(e).ip)
    && req.required != [] && SupportsFactors(ReadBack(e).proto)
  }

  /** What strcmp sees of a line that acav_parse has cut with NULs: the white in front, and the first word. */
  function FirstCut(s: string): string
  {
    if s == "" then ""
    else if White(s[0]) then [s[0]] + FirstCut(s[1..])
    else s[..WordLength(s)]
  }

  /** lsi, as it is compared with the answer. */
  function Compared(req: Request, e: Entry, tv: int): Info
  {
    if Examined(req, e, tv) then ReadBack(e).(factors := FirstCut(ReadBack(e).factors)) else ReadBack(e)
  }

  datatype Decision = Fail(verdict: Verdict) | Freshen | Store(target: string)

  /** What the code behind netcheck does with an answer, given what was read from the cache file. */
  function Decide(req: Request, path: string, tv: int, seen: Option<Entry>, a: Answer): Decision
  {
    if a.verdict != OK then Fail(a.verdict)
    else if req.checkip.ALWAYS? && req.ip != a.si.ip then Fail(RETRY)
    else if seen.Some? && a.si.user != ReadBack(seen.value).user then Fail(ERROR)
    else if seen.Some? && a.si.realm != ReadBack(seen.value).realm then Fail(ERROR)
    else if seen.Some? && a.si.ip == ReadBack(seen.value).ip &&
            (SupportsFactors(a.si.proto) ==> a.si.factors == Compared(req, seen.value, tv).factors) then Freshen
    else if seen.None? && req.checkip.INITIAL? && req.ip != a.si.ip then Fail(RETRY)
    else if req.rekey && a.rekeyed.Some? then
      if MkCookie.PathOk(req.hashlen, a.rekeyed.value) then Store(a.rekeyed.value) else Fail(ERROR)
    else Store(path)
  }

  // ---------------------------------------------------------------- one call after the other

  /** One call without others in between; the second answer is for the retry after a failed link. */
  function CallOnce(cache: Cache, req: Request, path: string, tv: int, now: int, a: Answer): (Cache, Option<Verdict>, string)
  {
    var seen := if path in cache then Some(cache[path]) else None;
    if Hit(req, seen, tv) then (cache, Some(OK), path)
    else match Decide(req, path, tv, seen, a)
      case Fail(v) => (cache, Some(v), path)
      case Freshen => (cache[path := cache[path].(mtime := now)], Some(OK), path)
      case Store(target) =>
        if seen.None? && target in cache then (cache, None, target)
        else (cache[target := Entry(Written(a.si), now)], Some(OK), path)
  }

  function Call(cache: Cache, req: Request, tv: int, now: int, a: Answer, again: Answer): (Cache, Verdict)
  {
    if !MkCookie.PathOk(req.hashlen, req.cookie) then (cache, ERROR)
    else
      var (cache1, v, path) := CallOnce(cache, req, req.cookie, tv, now, a);
      if v.Some? then (cache1, v.value)
      else
        var (cache2, v2, _) := CallOnce(cache1, req, path, tv, now, again);
        (cache2, if v2.Some? then v2.value else ERROR)
  }

  // ---------------------------------------------------------------- what OK means

  /** The entry answers for the cookie: no more than a minute old, from the right address if that is always checked, and in version 2 with every required factor. */
  ghost predicate Vouches(req: Request, e: Entry, tv: int) {
    && tv - e.mtime <= 60 && (req.checkip.ALWAYS? ==> req.ip == e.info.ip)
    && (e.info.proto == 2 ==> forall f :: f in req.required ==> f in Tokens(e.info.factors))
  }

  /** So do the servers: OK, for the right address if that is checked, for the user and realm on file. */
  predicate Confirms(req: Request, seen: Option<Entry>, a: Answer) {
    && a.verdict.OK? && (req.checkip.ALWAYS? ==> req.ip == a.si.ip)
    && match seen
       case None => req.checkip.INITIAL? ==> req.ip == a.si.ip
       case Some(e) => a.si.user == e.info.user && a.si.realm == e.info.realm
  }

  /** They say what the entry says: the address, and the factors, of which a search has left the first only. */
  ghost predicate Repeats(req: Request, e: Entry, tv: int, a: Answer) {
    && a.si.ip == e.info.ip
    && (2 <= a.si.proto <= 3 ==>
          var searched := tv - e.mtime <= 60 && (req.checkip.ALWAYS? ==> req.ip == e.info.ip) && req.required != [] && e.info.proto == 2;
          a.si.factors == if searched then FirstCut(e.info.factors) else e.info.factors)
  }

  /** The answer names a new cookie that has no path. */
  predicate BadName(req: Request, a: Answer) { req.rekey && a.rekeyed.Some? && !MkCookie.PathOk(req.hashlen, a.rekeyed.value) }

  /** It names a cookie that has a file, when there is none to replace: the call starts over with that file. */
  predicate Clashes(cache: Cache, req: Request, path: string, a: Answer) {
    && path !in cache && Confirms(req, None, a)
    && req.rekey && a.rekeyed.Some? && MkCookie.PathOk(req.hashlen, a.rekeyed.value) && a.rekeyed.value in cache
  }

  /** OK at this path, without starting over. */
  ghost predicate Good(cache: Cache, req: Request, path: string, tv: int, a: Answer) {
    if path in cache then
      || Vouches(req, cache[path], tv)
      || (Confirms(req, Some(cache[path]), a) && (BadName(req, a) ==> Repeats(req, cache[path], tv, a)))
    else
      Confirms(req, None, a) && !BadName(req, a) && !Clashes(cache, req, path, a)
  }

  lemma OnceIff(cache: Cache, req: Request, path: string, tv: int, now: int, a: Answer)
    ensures var (_, v, target) := CallOnce(cache, req, path, tv, now, a);
            && (v == None <==> Clashes(cache, req, path, a))
            && (v == None ==> target == a.rekeyed.value)
            && (v == Some(OK) <==> Good(cache, req, path, tv, a))
  {
  }

  /** The verdict is OK exactly when a recent entry or the servers' answer says so of this browser, at the file of the cookie, or at that of the new cookie if there already is one. */
  lemma OkIff(cache: Cache, req: Request, tv: int, now: int, a: Answer, again: Answer)
    ensures Call(cache, req, tv, now, a, again).1.OK? <==>
            && MkCookie.PathOk(req.hashlen, req.cookie)
            && if Clashes(cache, req, req.cookie, a) then Good(cache, req, a.rekeyed.value, tv, again) else Good(cache, req, req.cookie, tv, a)
  {
    OnceIff(cache, req, req.cookie, tv, now, a);
    if Clashes(cache, req, req.cookie, a) {
      OnceIff(cache, req, a.rekeyed.value, tv, now, again);
    }
  }

  /** With ALWAYS every OK is to the address on the entry used, or to that of the servers' answer; with INITIAL that of the answer, when there was no file. */
  lemma AddressIsChecked(cache: Cache, req: Request, tv: int, now: int, a: Answer, again: Answer)
    requires Call(cache, req, tv, now, a, again).1.OK?
    ensures req.checkip.ALWAYS? ==>
            || (req.cookie in cache && tv - cache[req.cookie].mtime <= 60 && req.ip == cache[req.cookie].info.ip)
            || (a.verdict.OK? && req.ip == a.si.ip)
    ensures req.checkip.INITIAL? && req.cookie !in cache ==> a.verdict.OK? && req.ip == a.si.ip
  {
    OkIff(cache, req, tv, now, a, again);
  }

  /** What the cache holds after a call at one path that is OK: the same, the entry touched, or the answer, under the new name if there is one. */
  lemma KeptIff(cache: Cache, req: Request, path: string, tv: int, now: int, a: Answer)
    requires CallOnce(cache, req, path, tv, now, a).1 == Some(OK)
    ensures CallOnce(cache, req, path, tv, now, a).0 ==
            if path in cache && Vouches(req, cache[path], tv) then cache
            else if path in cache && Repeats(req, cache[path], tv, a) then cache[path := Entry(cache[path].info, now)]
            else
              var info := if 2 <= a.si.proto <= 3 then a.si else Info(a.si.proto, a.si.ip, a.si.user, a.si.realm, "");
              cache[(if req.rekey && a.rekeyed.Some? then a.rekeyed.value else path) := Entry(info, now)]
  {
  }

  /** RETRY: the servers say so, or the address is another. */
  lemma RetryIff(cache: Cache, req: Request, path: string, tv: int, now: int, a: Answer)
    ensures CallOnce(cache, req, path, tv, now, a).1 == Some(RETRY) <==>
            && !(path in cache && Vouches(req, cache[path], tv))
            && (|| a.verdict.RETRY?
                || (a.verdict.OK? && req.ip != a.si.ip && (req.checkip.ALWAYS? || (req.checkip.INITIAL? && path !in cache))))
  {
  }

  class Filter {
    var cache: Cache

    constructor ()
      ensures cache == map[]
    {
      cache := map[];
    }

    /** The check of the required factors against a cached list. */
    method HasAll(required: seq<string>, factors: seq<string>) returns (ok: bool)
      ensures ok <==> forall f :: f in required ==> f in factors
    {
      for i := 0 to |required|
        invariant forall f :: f in required[..i] ==> f in factors
      {
        var j := 0;
        while j < |factors| && required[i] != factors[j]
          invariant j <= |factors| && required[i] !in factors[..j]
        {
          j := j + 1;
          assert factors[..j] == factors[..j - 1] + [factors[j - 1]];
        }
        if j >= |factors| {
          assert factors[..j] == factors && required[i] in required;
          return false;
        }
        assert required[..i + 1] == required[..i] + [required[i]];
      }
      assert required[..|required|] == required;
      return true;
    }

    /** cosign_cookie_valid: the loop is the jump back to retry. */
    method CookieValid(req: Request, tv: int, now: int, answers: seq<Answer>) returns (v: Verdict)
      requires |answers| >= 2
      modifies this
      ensures (cache, v) == Call(old(cache), req, tv, now, answers[0], answers[1])
      ensures v.OK? <==>
              && MkCookie.PathOk(req.hashlen, req.cookie)
              && if Clashes(old(cache), req, req.cookie, answers[0]) then Good(old(cache), req, answers[0].rekeyed.value, tv, answers[1])
                 else Good(old(cache), req, req.cookie, tv, answers[0])
    {
      OkIff(cache, req, tv, now, answers[0], answers[1]);
      if !MkCookie.PathOk(req.hashlen, req.cookie) {
        return ERROR;
      }
      var path, turn := req.cookie, 0;
      while true
        invariant 0 <= turn <= 1 && cache == old(cache)
        invariant turn == 0 ==> path == req.cookie
        invariant turn == 1 ==> path in cache && CallOnce(old(cache), req, req.cookie, tv, now, answers[0]) == (cache, None, path)
        decreases 1 - turn
      {
        var newfile := path !in cache;
        var seen := if newfile then None else Some(cache[path]);
        if !newfile && tv - cache[path].mtime <= IDLETIME {
          var lsi := ReadBack(cache[path]);
          if !(req.checkip.ALWAYS? && req.ip != lsi.ip) {
            var good := true;
            if |req.required| > 0 && SupportsFactors(lsi.proto) {
              good := HasAll(req.required, Tokens(lsi.factors));
            }
            if good {
              return OK;
            }
          }
        }
        var a := answers[turn];
        var todo := Decide(req, path, tv, seen, a);
        if todo.Fail? {
          return todo.verdict;
        }
        if todo.Freshen? {
          cache := cache[path := cache[path].(mtime := now)];
          return OK;
        }
        if newfile && todo.target in cache {
          path, turn := todo.target, turn + 1;
        } else {
          cache := cache[todo.target := Entry(Written(a.si), now)];
          return OK;
        }
      }
    }
  }

  /** Same user, same realm. */
  predicate SameOwner(a: Info, b: Info) { a.user == b.user && a.realm == b.realm }

  /** In sequence, a call changes the owner of no file, given that a rekeyed name is new to the cache. */
  lemma CallKeepsOwners(cache: Cache, req: Request, tv: int, now: int, a: Answer, again: Answer, path: string)
    requires path in cache
    requires forall x :: x in {a, again} && x.rekeyed.Some? ==> x.rekeyed.value !in cache
    ensures path in Call(cache, req, tv, now, a, again).0
    ensures SameOwner(Call(cache, req, tv, now, a, again).0[path].info, cache[path].info)
  {
  }

  // ---------------------------------------------------------------- required factors and the cache

  /** No call is answered OK without an OK from a server, unless every required factor is on the cached line. */
  ghost predicate Enforced(e: Entry, tv: int) {
    forall req: Request, a: Answer ::
      CallOnce(map[req.cookie := e], req, req.cookie, tv, tv, a).1 == Some(OK) && !a.verdict.OK? ==> forall f :: f in req.required ==> f in Tokens(e.info.factors)
  }

  /** A request that the cached address suits. */
  function Asking(e: Entry, required: seq<string>): Request { Request("cosign-x=yy", e.info.ip, ALWAYS, required, false, 0) }

  lemma {:induction false} TokensAreShort(s: string)
    ensures forall w :: w in Tokens(s) ==> |w| <= |s|
    decreases |s|
  {
    if s != "" && White(s[0]) {
      TokensAreShort(s[1..]);
    } else if s != "" {
      TokensAreShort(s[WordLength(s)..]);
    }
  }

  /** Some factor is not on the line: a word longer than the line. */
  lemma NotOnTheLine(s: string) returns (w: string)
    ensures IsWord(w) && w !in Tokens(s)
  {
    w := seq(|s| + 1, _ => 'x');
    TokensAreShort(s);
  }

  /** What is required is enforced from the cache exactly for entries of version 2, and for those too old to be used. */
  lemma EnforcedIff(e: Entry, tv: int)
    ensures Enforced(e, tv) <==> e.info.proto == 2 || tv - e.mtime > 60
  {
    if e.info.proto == 2 || tv - e.mtime > 60 {
      forall req: Request, a: Answer | CallOnce(map[req.cookie := e], req, req.cookie, tv, tv, a).1 == Some(OK) && !a.verdict.OK?
        ensures forall f :: f in req.required ==> f in Tokens(e.info.factors)
      {
        OnceIff(map[req.cookie := e], req, req.cookie, tv, tv, a);
      }
    } else {
      var w := NotOnTheLine(e.info.factors);
      var req, a := Asking(e, [w]), Answer(ERROR, e.info, None);
      OnceIff(map[req.cookie := e], req, req.cookie, tv, tv, a);
      assert CallOnce(map[req.cookie := e], req, req.cookie, tv, tv, a).1 == Some(OK);
      assert w in req.required;
    }
  }

  /** A stored answer of protocol 3 is used for a minute whatever is required: no server is asked, the verdict is OK. */
  lemma Version3Unchecked(cache: Cache, req: Request, si: Info, at: int, tv: int, now: int, a: Answer, again: Answer)
    requires si.proto == 3 && MkCookie.PathOk(req.hashlen, req.cookie) && tv - at <= 60
    requires req.checkip.ALWAYS? ==> req.ip == si.ip
    requires req.cookie in cache && cache[req.cookie] == Entry(Written(si), at)
    ensures Call(cache, req, tv, now, a, again) == (cache, OK)
  {
    assert Hit(req, Some(cache[req.cookie]), tv);
  }

  // ---------------------------------------------------------------- the line that has been cut

  lemma CutAtWord(w: string, rest: string)
    requires IsWord(w) && (rest == "" || White(rest[0]))
    ensures FirstCut(w + rest) == w
  {
    WordLengthIs(w, rest);
    assert (w + rest)[0] == w[0] && w[0] in w;
    assert (w + rest)[..|w|] == w;
  }

  lemma FirstCutOfJoin(ws: seq<string>)
    requires AllWords(ws)
    ensures FirstCut(Join(ws)) == Join(ws) <==> |ws| <= 1
  {
    if |ws| == 1 {
      Seqs.Nil(ws[0]);
      CutAtWord(ws[0], "");
    } else if |ws| > 1 {
      var rest := " " + Join(ws[1..]);
      Seqs.Assoc(ws[0], " ", Join(ws[1..]));
      CutAtWord(ws[0], rest);
      assert |ws[0] + rest| > |ws[0]|;
    }
  }

  /**
   A recent entry that lacks a required factor is only touched when the servers repeat it, or it is written again:
   touched exactly if its line has no more than one factor, since the search has cut the line after the first.
   */
  lemma RepeatedIsTouchedIff(req: Request, path: string, tv: int, e: Entry, a: Answer, ws: seq<string>, f: string)
    requires e.info.proto == 2 && tv - e.mtime <= 60 && (req.checkip.ALWAYS? ==> req.ip == e.info.ip)
    requires AllWords(ws) && e.info.factors == Join(ws) && f in req.required && f !in ws
    requires a.verdict.OK? && a.si == e.info
    ensures !Hit(req, Some(e), tv)
    ensures Decide(req, path, tv, Some(e), a).Freshen? <==> |ws| <= 1
  {
    TokensOfList(ws);
    FirstCutOfJoin(ws);
  }
}
