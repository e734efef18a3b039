/** What the monster of one daemon tells another: the lines of TIME, and which of them are true. */
module Telling {
  import opened Text
  import opened Commands
  import opened Monster
  import Answers
  import GreyWindow
  import MkCookie
  import Seqs

  predicate IsYoung(pass: Pass, fs: Files, n: string) { n in fs && fs[n].Login? && Young(pass.ages, pass.now, fs[n]) }

  /** The record that eat_cookie is called for at this entry. */
  function Source(pass: Pass, fs: Files, n: string): Option<string>
  {
    if !MkCookie.PathOk(pass.hashlen, n) then None
    else if "cosign=" <= n then Some(n)
    else if "cosign-" <= n && n in fs && fs[n].Service? then Some(fs[n].login)
    else None
  }

  /** The time of the last young record among those of the entries; 0 if there is none. */
  function LastTime(pass: Pass, fs: Files, names: seq<string>): int
    decreases |names|
  {
    if names == [] then 0
    else
      var l := Source(pass, fs, names[|names| - 1]);
      if l.Some? && IsYoung(pass, fs, l.value) then fs[l.value].mtime else LastTime(pass, fs, names[..|names| - 1])
  }

  /** An entry that a line can be written for: a cookie that has a path, and is not bound to another. */
  predicate Lists(pass: Pass, fs: Files, n: string) {
    MkCookie.PathOk(pass.hashlen, n) && "cosign=" <= n && (n in fs ==> fs[n].Login?)
  }

  predicate Sent(pass: Pass, fs: Files, order: seq<string>, i: nat, last: nat)
    requires i < |order|
  {
    Lists(pass, fs, order[i]) && LastTime(pass, fs, order[..i + 1]) > last
  }

  /** The line tells t of n. */
  predicate Says(line: string, n: string, t: int) { |Tokens(line)| == 3 && Tokens(line)[0] == n && Atoi(Tokens(line)[1]) == t }

  ghost predicate HasLine(lines: seq<string>, n: string, t: int) { exists k: nat :: k < |lines| && Says(lines[k], n, t) }

  /** It is that of some entry from the j-th on. */
  ghost predicate ComesFrom(pass: Pass, fs: Files, order: seq<string>, j: nat, last: nat, line: string) {
    exists i: nat :: j <= i < |order| && Sent(pass, fs, order, i, last) && Says(line, order[i], LastTime(pass, fs, order[..i + 1]))
  }

  /** The lines are those of the entries from the j-th on. */
  ghost predicate Tell(pass: Pass, fs: Files, order: seq<string>, j: nat, last: nat, lines: seq<string>) {
    && (forall i: nat :: j <= i < |order| && Sent(pass, fs, order, i, last) ==> HasLine(lines, order[i], LastTime(pass, fs, order[..i + 1])))
    && (forall k :: 0 <= k < |lines| ==> ComesFrom(pass, fs, order, j, last, lines[k]))
  }

  // ---------------------------------------------------------------- the store that shrinks on the way

  /** What a pass has left so far: what is young is there. */
  ghost predicate Left(pass: Pass, fs: Files, cur: Files) {
    Spared(pass, fs, cur) && forall n :: n in fs && fs[n].Service? && "cosign=" <= n ==> n in cur
  }

  lemma VisitLeaves(pass: Pass, fs: Files, cur: Files, n: string)
    requires Left(pass, fs, cur)
    ensures Left(pass, fs, pass.Visit(cur, n))
  {
    OnePrefix(n);
  }

  lemma {:induction false} SweepLeaves(pass: Pass, fs: Files, cur: Files, order: seq<string>)
    requires Left(pass, fs, cur)
    ensures Left(pass, fs, pass.Sweep(cur, order))
    decreases |order|
  {
    if order != [] {
      VisitLeaves(pass, fs, cur, order[0]);
      SweepLeaves(pass, fs, pass.Visit(cur, order[0]), order[1..]);
    }
  }

  lemma Recalled(pass: Pass, fs: Files, cur: Files, order: seq<string>, j: nat, m: Memo)
    requires Left(pass, fs, cur) && j < |order| && m.itime == LastTime(pass, fs, order[..j])
    ensures pass.Recall(cur, order[j], m).itime == LastTime(pass, fs, order[..j + 1])
  {
    OnePrefix(order[j]);
    assert order[..j + 1][..j] == order[..j];
  }

  lemma LineIs(pass: Pass, fs: Files, cur: Files, order: seq<string>, j: nat, m: Memo, last: nat)
    requires Left(pass, fs, cur) && j < |order| && m.itime == LastTime(pass, fs, order[..j]) && IsWord(order[j])
    ensures var line := pass.Line(cur, order[j], m, last);
            if Sent(pass, fs, order, j, last) then |line| == 1 && Says(line[0], order[j], LastTime(pass, fs, order[..j + 1])) else line == []
  {
    Recalled(pass, fs, cur, order, j, m);
    var r := pass.Recall(cur, order[j], m);
    if r.itime > last {
      Answers.PrintedLine(order[j], r.itime, r.state);
    }
  }

  /** The lines of the rest of a directory, told from the store before the pass. */
  lemma {:induction false} LinesFrom(pass: Pass, fs: Files, cur: Files, order: seq<string>, j: nat, m: Memo, last: nat)
    requires Left(pass, fs, cur) && j <= |order| && m.itime == LastTime(pass, fs, order[..j]) && AllWords(order)
    ensures Tell(pass, fs, order, j, last, pass.Lines(cur, order[j..], m, last))
    decreases |order| - j
  {
    if j < |order| {
      var n := order[j];
      var next, m' := pass.Visit(cur, n), pass.Recall(cur, n, m);
      assert order[j..][0] == n && order[j..][1..] == order[j + 1..];
      assert n in order;
      Recalled(pass, fs, cur, order, j, m);
      LineIs(pass, fs, cur, order, j, m, last);
      VisitLeaves(pass, fs, cur, n);
      LinesFrom(pass, fs, next, order, j + 1, m', last);
      OneMore(pass, fs, order, j, last, pass.Line(cur, n, m, last), pass.Lines(next, order[j + 1..], m', last));
    }
  }

  lemma OneMore(pass: Pass, fs: Files, order: seq<string>, j: nat, last: nat, line: seq<string>, rest: seq<string>)
    requires j < |order|
    requires if Sent(pass, fs, order, j, last) then |line| == 1 && Says(line[0], order[j], LastTime(pass, fs, order[..j + 1])) else line == []
    requires Tell(pass, fs, order, j + 1, last, rest)
    ensures Tell(pass, fs, order, j, last, line + rest)
  {
    forall i: nat | j <= i < |order| && Sent(pass, fs, order, i, last) ensures HasLine(line + rest, order[i], LastTime(pass, fs, order[..i + 1])) {
      StillThere(line, rest, order[i], LastTime(pass, fs, order[..i + 1]));
    }
    forall k | 0 <= k < |line + rest| ensures ComesFrom(pass, fs, order, j, last, (line + rest)[k]) {
      ComesLater(pass, fs, order, j, last, line, rest, k);
    }
  }

  lemma StillThere(line: seq<string>, rest: seq<string>, n: string, t: int)
    requires HasLine(line, n, t) || HasLine(rest, n, t)
    ensures HasLine(line + rest, n, t)
  {
    if k: nat :| k < |line| && Says(line[k], n, t) {
      assert (line + rest)[k] == line[k];
    } else {
      var k: nat :| k < |rest| && Says(rest[k], n, t);
      assert (line + rest)[|line| + k] == rest[k];
    }
  }

  lemma ComesLater(pass: Pass, fs: Files, order: seq<string>, j: nat, last: nat, line: seq<string>, rest: seq<string>, k: nat)
    requires j < |order| && k < |line + rest|
    requires line != [] ==> |line| == 1 && Sent(pass, fs, order, j, last) && Says(line[0], order[j], LastTime(pass, fs, order[..j + 1]))
    requires forall i :: 0 <= i < |rest| ==> ComesFrom(pass, fs, order, j + 1, last, rest[i])
    ensures ComesFrom(pass, fs, order, j, last, (line + rest)[k])
  {
    if k >= |line| {
      assert (line + rest)[k] == rest[k - |line|];
    }
  }

  /** The lines of one directory. */
  lemma DirLines(pass: Pass, fs: Files, order: seq<string>, last: nat)
    requires AllWords(order)
    ensures Tell(pass, fs, order, 0, last, pass.Lines(fs, order, Memo(0, 0), last))
  {
    assert order[..0] == [] && order[0..] == order;
    LinesFrom(pass, fs, fs, order, 0, Memo(0, 0), last);
  }

  // ---------------------------------------------------------------- what is told of a record that stays

  lemma OwnTime(pass: Pass, fs: Files, order: seq<string>, i: nat)
    requires i < |order| && Lists(pass, fs, order[i])
    ensures LastTime(pass, fs, order[..i + 1]) == if IsYoung(pass, fs, order[i]) then fs[order[i]].mtime else LastTime(pass, fs, order[..i])
  {
    assert order[..i + 1][..i] == order[..i];
  }

  /** A young record in the directory is told of exactly if it has been touched after the last time, and with its own time. */
  lemma YoungIsToldIff(pass: Pass, fs: Files, order: seq<string>, last: nat, n: string)
    requires AllWords(order) && n in order && Lists(pass, fs, n) && IsYoung(pass, fs, n)
    ensures var lines := pass.Lines(fs, order, Memo(0, 0), last);
            && (HasLine(lines, n, fs[n].mtime) <==> fs[n].mtime > last)
            && (forall k, t :: 0 <= k < |lines| && Says(lines[k], n, t) ==> t == fs[n].mtime > last)
  {
    var lines := pass.Lines(fs, order, Memo(0, 0), last);
    DirLines(pass, fs, order, last);
    var i: nat :| i < |order| && order[i] == n;
    OwnTime(pass, fs, order, i);
    forall k, t | 0 <= k < |lines| && Says(lines[k], n, t) ensures t == fs[n].mtime > last {
      assert ComesFrom(pass, fs, order, 0, last, lines[k]);
      var j: nat :| j < |order| && Sent(pass, fs, order, j, last) && Says(lines[k], order[j], LastTime(pass, fs, order[..j + 1]));
      OwnTime(pass, fs, order, j);
    }
  }

  lemma {:induction false} PassTells(pass: Pass, fs: Files, cur: Files, listings: seq<seq<string>>, last: nat, n: string)
    requires Left(pass, fs, cur) && AllWords(Joined(listings)) && n in Joined(listings)
    requires Lists(pass, fs, n) && IsYoung(pass, fs, n) && fs[n].mtime > last
    ensures HasLine(pass.AllLines(cur, listings, last), n, fs[n].mtime)
    decreases |listings|
  {
    var t, order := fs[n].mtime, listings[0];
    var here, rest := pass.Lines(cur, order, Memo(0, 0), last), pass.AllLines(pass.Sweep(cur, order), listings[1..], last);
    assert forall w :: w in order ==> w in Joined(listings);
    assert forall w :: w in Joined(listings[1..]) ==> w in Joined(listings);
    if n in order {
      YoungIsToldIff(pass, cur, order, last, n);
    } else {
      SweepLeaves(pass, fs, cur, order);
      PassTells(pass, fs, pass.Sweep(cur, order), listings[1..], last, n);
    }
    StillThere(here, rest, n, t);
  }

  // ---------------------------------------------------------------- and of one that goes

  /** A line is true if the record it names has that time. */
  predicate True(fs: Files, line: string) {
    && |Tokens(line)| == 3
    && var n := Tokens(line)[0]; n in fs && fs[n].Login? && fs[n].mtime == Atoi(Tokens(line)[1])
  }

  /** The entry is told of with the time of another record: its own goes, and the last one read before has been touched since, at another time. */
  predicate Misleads(pass: Pass, fs: Files, order: seq<string>, i: nat, last: nat)
    requires i < |order|
  {
    var t := LastTime(pass, fs, order[..i]);
    && Lists(pass, fs, order[i]) && !IsYoung(pass, fs, order[i]) && t > last
    && (order[i] in fs ==> fs[order[i]].mtime != t)
  }

  /** The line for a young record in the words of printf: the state is 1 as long as it is live. */
  lemma OneLine(pass: Pass, fs: Files, n: string, m: Memo, last: nat)
    requires Lists(pass, fs, n) && IsYoung(pass, fs, n) && fs[n].mtime > last
    ensures pass.Line(fs, n, m, last) == [n + " " + Dec(fs[n].mtime) + " " + if fs[n].live then "1" else "0"]
  {
  }

  /** The lines of a directory are true exactly if there is no such entry: eat_cookie leaves the time alone when it deletes a cookie, and do_dir sends it all the same. */
  lemma AllTrueIff(pass: Pass, fs: Files, order: seq<string>, last: nat)
    requires AllWords(order)
    ensures var lines := pass.Lines(fs, order, Memo(0, 0), last);
            (forall k :: 0 <= k < |lines| ==> True(fs, lines[k])) <==> forall i :: 0 <= i < |order| ==> !Misleads(pass, fs, order, i, last)
  {
    var lines := pass.Lines(fs, order, Memo(0, 0), last);
    DirLines(pass, fs, order, last);
    if i :| 0 <= i < |order| && Misleads(pass, fs, order, i, last) {
      var k := FalseLine(pass, fs, order, last, i);
    } else {
      forall k | 0 <= k < |lines| ensures True(fs, lines[k]) {
        assert ComesFrom(pass, fs, order, 0, last, lines[k]);
        var i: nat :| i < |order| && Sent(pass, fs, order, i, last) && Says(lines[k], order[i], LastTime(pass, fs, order[..i + 1]));
        OwnTime(pass, fs, order, i);
        assert !Misleads(pass, fs, order, i, last);
      }
    }
  }

  lemma FalseLine(pass: Pass, fs: Files, order: seq<string>, last: nat, i: nat) returns (k: nat)
    requires AllWords(order) && i < |order| && Misleads(pass, fs, order, i, last)
    ensures var lines := pass.Lines(fs, order, Memo(0, 0), last);
            k < |lines| && Says(lines[k], order[i], LastTime(pass, fs, order[..i])) && !True(fs, lines[k])
  {
    var lines := pass.Lines(fs, order, Memo(0, 0), last);
    DirLines(pass, fs, order, last);
    OwnTime(pass, fs, order, i);
    k :| k < |lines| && Says(lines[k], order[i], LastTime(pass, fs, order[..i + 1]));
  }

  // ---------------------------------------------------------------- at the other daemon

  /** A TIME that the CGI's key allows, with these lines and the dot. */
  predicate Brings(e: Event, lines: seq<string>) {
    e.cmd.TIME? && e.peer.key.CGI? && |e.cmd.av| == 1 && e.cmd.lines == lines + ["."]
  }

  ghost predicate NoDots(lines: seq<string>) { forall k :: 0 <= k < |lines| ==> |Tokens(lines[k])| == 3 && Tokens(lines[k])[0] != "." }

  lemma Arrives(e: Event, lines: seq<string>, l: string, t: int) returns (k: nat)
    requires Brings(e, lines) && NoDots(lines) && HasLine(lines, l, t)
    ensures Answers.Tells(e.cmd.lines, k, l) && Answers.TimeOn(e.cmd.lines[k]) == t
  {
    k :| k < |lines| && Says(lines[k], l, t);
    forall j | 0 <= j <= k ensures e.cmd.lines[j] == lines[j] {
    }
  }

  lemma NamesAreNoDots(pass: Pass, fs: Files, order: seq<string>, last: nat)
    requires AllWords(order)
    ensures NoDots(pass.Lines(fs, order, Memo(0, 0), last))
  {
    var lines := pass.Lines(fs, order, Memo(0, 0), last);
    DirLines(pass, fs, order, last);
    forall k | 0 <= k < |lines| ensures |Tokens(lines[k])| == 3 && Tokens(lines[k])[0] != "." {
      assert ComesFrom(pass, fs, order, 0, last, lines[k]);
    }
  }

  lemma {:induction false} PassHasNoDots(pass: Pass, fs: Files, listings: seq<seq<string>>, last: nat)
    requires AllWords(Joined(listings))
    ensures NoDots(pass.AllLines(fs, listings, last))
    decreases |listings|
  {
    if listings != [] {
      assert forall w :: w in listings[0] ==> w in Joined(listings);
      assert forall w :: w in Joined(listings[1..]) ==> w in Joined(listings);
      NamesAreNoDots(pass, fs, listings[0], last);
      PassHasNoDots(pass, pass.Sweep(fs, listings[0]), listings[1..], last);
    }
  }

  /** A pass at daemon i that visits the young record of l, touched since d was told last, tells d of it, as the exchange of times in GreyWindow asks for. */
  lemma PassDelivers(cfg: Config, net: GreyWindow.Net, step: GreyWindow.Step, l: string, i: nat, d: nat,
                     pass: Pass, listings: seq<seq<string>>, last: nat)
    requires GreyWindow.AllLive(net, l) && i < |net.stores| && d < |net.stores| && step.d == d
    requires Brings(step.e, pass.AllLines(net.stores[i], listings, last)) && AllWords(Joined(listings)) && l in Joined(listings)
    requires Lists(pass, net.stores[i], l) && IsYoung(pass, net.stores[i], l) && net.stores[i][l].mtime > last
    ensures GreyWindow.TellsOf(cfg, net, step, l, i, d)
  {
    var fs := net.stores[i];
    var lines := pass.AllLines(fs, listings, last);
    PassTells(pass, fs, fs, listings, last, l);
    PassHasNoDots(pass, fs, listings, last);
    var k := Arrives(step.e, lines, l, fs[l].mtime);
    Answers.TimeIsTaken(cfg, net.stores[d], step.e);
  }

  /**
   A login that is over at both daemons comes back to life at the one that has not swept it yet, if
   the other, sweeping it, has last read a record that was touched in the last idle seconds.
   */
  lemma OverComesBack(cfg: Config, pass: Pass, fs: Files, order: seq<string>, last: nat, i: nat, there: Files, e: Event)
    requires AllWords(order) && i < |order| && Misleads(pass, fs, order, i, last)
    requires Brings(e, pass.Lines(fs, order, Memo(0, 0), last)) && MkCookie.PathOk(cfg.hashlen, order[i])
    requires order[i] in there && there[order[i]].Login? && there[order[i]].live && Answers.Over(cfg, there, e.now, order[i])
    requires e.now - LastTime(pass, fs, order[..i]) < cfg.idle
    ensures Answers.InUse(cfg, Exec(cfg, there, e).files, e.now, order[i])
  {
    var lines := pass.Lines(fs, order, Memo(0, 0), last);
    var k := FalseLine(pass, fs, order, last, i);
    NamesAreNoDots(pass, fs, order, last);
    var j := Arrives(e, lines, order[i], LastTime(pass, fs, order[..i]));
    Answers.TimeIsTaken(cfg, there, e);
    Answers.TimeDelivers(cfg, there, e, order[i]);
  }
}
