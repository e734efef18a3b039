/** cosign_check_cookie: asking the servers of a linked list, and moving the one that answers to its front. */
module ServerList {
  import Seqs

  datatype Reply = OK | LOGGED_OUT | RETRY | ERROR

  datatype Result = Okay | Retry | Error

  /**
   One server as a call finds it: whether a connection is open, what it answers there, whether
   a new connection can be made, and what it answers on that one.
   */
  datatype Server = Server(open: bool, first: Reply, connects: bool, second: Reply)

  predicate Definite(r: Reply) { r.OK? || r.LOGGED_OUT? }

  // ---------------------------------------------------------------- who decides, told without the loops

  /** The server says OK or logged out when its turn comes in the first round, or in the second. */
  predicate Answers(s: Server, round: int)
  {
    Turn(s, round) && Definite(Says(s, round))
  }

  /** No connection is open when the second round comes to the server. */
  predicate InSecond(s: Server) { s.open ==> s.first.ERROR? }

  /** The server is asked in a round, if the round gets that far. */
  predicate Turn(s: Server, round: int) { if round == 1 then s.open else InSecond(s) && s.connects }

  function Says(s: Server, round: int): Reply { if round == 1 then s.first else s.second }

  /** Where the asking stops. */
  datatype Stop = First(k: nat) | Second(k: nat) | Nobody

  ghost predicate Silent(ss: seq<Server>, round: int, n: int)
  {
    forall j :: 0 <= j < n && j < |ss| ==> !Answers(ss[j], round)
  }

  /** The first definite answer decides, and all open connections are asked before any other. */
  ghost predicate Decides(ss: seq<Server>, stop: Stop)
  {
    match stop
    case First(k) => k < |ss| && Answers(ss[k], 1) && Silent(ss, 1, k)
    case Second(k) => k < |ss| && Silent(ss, 1, |ss|) && Answers(ss[k], 2) && Silent(ss, 2, k)
    case Nobody => Silent(ss, 1, |ss|) && Silent(ss, 2, |ss|)
  }

  lemma DecidesOnce(ss: seq<Server>, a: Stop, b: Stop)
    requires Decides(ss, a) && Decides(ss, b)
    ensures a == b
  {
    match (a, b)
    case (First(i), First(j)) => assert !(i < j) && !(j < i);
    case (First(i), _) =>
    case (_, First(j)) =>
    case (Second(i), Second(j)) => assert !(i < j) && !(j < i);
    case _ =>
  }

  predicate SaysRetry(s: Server, round: int) { Turn(s, round) && Says(s, round).RETRY? }

  /** One of the first n servers says retry in the round. */
  predicate AnyRetry(ss: seq<Server>, round: int, n: nat)
    requires n <= |ss|
  {
    n > 0 && (AnyRetry(ss, round, n - 1) || SaysRetry(ss[n - 1], round))
  }

  lemma {:induction false} AnyRetryIff(ss: seq<Server>, round: int, n: nat)
    requires n <= |ss|
    ensures AnyRetry(ss, round, n) <==> exists j :: 0 <= j < n && SaysRetry(ss[j], round)
  {
    if n > 0 {
      AnyRetryIff(ss, round, n - 1);
    }
  }

  /** What the caller is told. */
  ghost function Told(ss: seq<Server>, stop: Stop): Result
    requires Decides(ss, stop)
  {
    match stop
    case First(k) => if ss[k].first.OK? then Okay else Retry
    case Second(k) => if ss[k].second.OK? then Okay else Retry
    case Nobody => if AnyRetry(ss, 1, |ss|) || AnyRetry(ss, 2, |ss|) then Retry else Error
  }

  /** Is the connection open when round 1 or 2 comes to the server, or (3) after both? */
  predicate Before(s: Server, round: int)
  {
    var kept := s.open && !s.first.ERROR?;
    if round == 1 then s.open else if round == 2 then kept else kept || (s.connects && !s.second.ERROR?)
  }

  /** Is the connection to server j open afterwards? */
  predicate OpenAfter(ss: seq<Server>, stop: Stop, j: nat)
    requires j < |ss|
  {
    match stop
    case First(k) => Before(ss[j], if j <= k then 2 else 1)
    case Second(k) => Before(ss[j], if j <= k then 3 else 2)
    case Nobody => Before(ss[j], 3)
  }

  /** The positions below n whose turn comes in a round. */
  function Asks(ss: seq<Server>, round: int, n: nat): seq<nat>
    requires n <= |ss|
  {
    if n == 0 then []
    else Asks(ss, round, n - 1) +
         (if Turn(ss[n - 1], round) then [n - 1] else [])
  }

  /** All the questions put, in their order. */
  ghost function Asked(ss: seq<Server>, stop: Stop): seq<nat>
    requires Decides(ss, stop)
  {
    match stop
    case First(k) => Asks(ss, 1, k + 1)
    case Second(k) => Asks(ss, 1, |ss|) + Asks(ss, 2, k + 1)
    case Nobody => Asks(ss, 1, |ss|) + Asks(ss, 2, |ss|)
  }

  /** Nobody below n has answered the round, and these have been asked. */
  ghost predicate Booked(ss: seq<Server>, round: int, n: int, before: bool, retry: bool, asked: seq<nat>)
  {
    0 <= n <= |ss| && Silent(ss, round, n) && asked == Asks(ss, round, n) && retry == (before || AnyRetry(ss, round, n))
  }

  lemma Onward(ss: seq<Server>, round: int, n: nat)
    requires n < |ss|
    ensures AnyRetry(ss, round, n + 1) == (AnyRetry(ss, round, n) || SaysRetry(ss[n], round))
    ensures Asks(ss, round, n + 1) == if Turn(ss[n], round) then Asks(ss, round, n) + [n] else Asks(ss, round, n)
    ensures Silent(ss, round, n) && !Answers(ss[n], round) ==> Silent(ss, round, n + 1)
  {
  }

  /** How often j is asked. */
  function Times(asked: seq<nat>, j: nat): nat
  {
    if asked == [] then 0 else (if asked[0] == j then 1 else 0) + Times(asked[1..], j)
  }

  lemma {:induction false} TimesOfCat(a: seq<nat>, b: seq<nat>, j: nat)
    ensures Times(a + b, j) == Times(a, j) + Times(b, j)
  {
    if a == [] {
      Seqs.Nil(b);
    } else {
      Seqs.TailOfCat(a, b);
      TimesOfCat(a[1..], b, j);
    }
  }

  lemma {:induction false} AskedOnce(ss: seq<Server>, round: int, n: nat, j: nat)
    requires n <= |ss|
    ensures Times(Asks(ss, round, n), j) == if j < n && Turn(ss[j], round) then 1 else 0
  {
    if n > 0 {
      AskedOnce(ss, round, n - 1, j);
      var asked := Asks(ss, round, n - 1);
      if Turn(ss[n - 1], round) {
        TimesOfCat(asked, [n - 1], j);
        assert Times([n - 1], j) == if n - 1 == j then 1 else 0;
      } else {
        Seqs.Nil(asked);
      }
    }
  }

  /** No server is asked more than twice, and twice only if its open connection failed. */
  lemma AskedAtMostTwice(ss: seq<Server>, stop: Stop, j: nat)
    requires Decides(ss, stop) && j < |ss|
    ensures Times(Asked(ss, stop), j) <= 2
    ensures Times(Asked(ss, stop), j) == 2 ==> ss[j].open && ss[j].first.ERROR?
  {
    AskedOnce(ss, 1, |ss|, j);
    match stop
    case First(k) => AskedOnce(ss, 1, k + 1, j);
    case Second(k) => AskedOnce(ss, 2, k + 1, j); TimesOfCat(Asks(ss, 1, |ss|), Asks(ss, 2, k + 1), j);
    case Nobody => AskedOnce(ss, 2, |ss|, j); TimesOfCat(Asks(ss, 1, |ss|), Asks(ss, 2, |ss|), j);
  }

  /** The caller hears ERROR exactly when no server that can be reached says OK, logged out or retry. */
  lemma ErrorIff(ss: seq<Server>, stop: Stop)
    requires Decides(ss, stop)
    ensures Told(ss, stop).Error? <==>
            forall j, r :: 0 <= j < |ss| && 1 <= r <= 2 ==> !Answers(ss[j], r) && !SaysRetry(ss[j], r)
  {
    AnyRetryIff(ss, 1, |ss|);
    AnyRetryIff(ss, 2, |ss|);
    match stop
    case First(k) => assert Answers(ss[k], 1);
    case Second(k) => assert Answers(ss[k], 2);
    case Nobody =>
  }

  // ---------------------------------------------------------------- what the verdicts mean

  /** It says so on the connection that is open when the call comes. */
  predicate OpenSays(s: Server, r: Reply) { s.open && s.first == r }

  /** It says so on a new connection, made because none was open or the open one failed. */
  predicate NewSays(s: Server, r: Reply) { (s.open ==> s.first == ERROR) && s.connects && s.second == r }

  predicate OpenSettles(s: Server) { OpenSays(s, OK) || OpenSays(s, LOGGED_OUT) }

  predicate NewSettles(s: Server) { NewSays(s, OK) || NewSays(s, LOGGED_OUT) }

  /** The first settling answer is r: of the open connections in their order, or else of the new ones. */
  ghost predicate Settled(ss: seq<Server>, r: Reply)
  {
    || (exists k :: 0 <= k < |ss| && OpenSays(ss[k], r) && forall j :: 0 <= j < k ==> !OpenSettles(ss[j]))
    || ((forall j :: 0 <= j < |ss| ==> !OpenSettles(ss[j]))
        && exists k :: 0 <= k < |ss| && NewSays(ss[k], r) && forall j :: 0 <= j < k ==> !NewSettles(ss[j]))
  }

  ghost predicate Unsettled(ss: seq<Server>) { forall j :: 0 <= j < |ss| ==> !OpenSettles(ss[j]) && !NewSettles(ss[j]) }

  ghost predicate SomeRetry(ss: seq<Server>) { exists j :: 0 <= j < |ss| && (OpenSays(ss[j], RETRY) || NewSays(ss[j], RETRY)) }

  /** The caller hears OK exactly if that is the first settling answer; it hears RETRY if that is logged out, or there is none and someone says retry. */
  lemma VerdictIff(ss: seq<Server>, stop: Stop)
    requires Decides(ss, stop)
    ensures Told(ss, stop).Okay? <==> Settled(ss, OK)
    ensures Told(ss, stop).Retry? <==> Settled(ss, LOGGED_OUT) || (Unsettled(ss) && SomeRetry(ss))
    ensures !(Settled(ss, OK) && Settled(ss, LOGGED_OUT))
  {
    SameWords(ss);
    match stop
    case First(k) => FirstSettles(ss, k);
    case Second(k) => SecondSettles(ss, k);
    case Nobody =>
      AnyRetryIff(ss, 1, |ss|);
      AnyRetryIff(ss, 2, |ss|);
  }

  lemma SameWords(ss: seq<Server>)
    ensures forall j :: 0 <= j < |ss| ==> Answers(ss[j], 1) == OpenSettles(ss[j]) && Answers(ss[j], 2) == NewSettles(ss[j])
    ensures forall j :: 0 <= j < |ss| ==> SaysRetry(ss[j], 1) == OpenSays(ss[j], RETRY) && SaysRetry(ss[j], 2) == NewSays(ss[j], RETRY)
  {
  }

  lemma FirstSettles(ss: seq<Server>, k: nat)
    requires k < |ss| && OpenSettles(ss[k]) && forall j :: 0 <= j < k ==> !OpenSettles(ss[j])
    ensures Settled(ss, ss[k].first)
    ensures forall r :: Settled(ss, r) && (r.OK? || r.LOGGED_OUT?) ==> r == ss[k].first
    ensures !Unsettled(ss)
  {
    forall r | Settled(ss, r) && (r.OK? || r.LOGGED_OUT?) ensures r == ss[k].first {
      var i :| 0 <= i < |ss| && OpenSays(ss[i], r) && forall j :: 0 <= j < i ==> !OpenSettles(ss[j]);
      assert !(i < k) && !(k < i);
    }
  }

  lemma SecondSettles(ss: seq<Server>, k: nat)
    requires k < |ss| && NewSettles(ss[k]) && (forall j :: 0 <= j < k ==> !NewSettles(ss[j])) && forall j :: 0 <= j < |ss| ==> !OpenSettles(ss[j])
    ensures Settled(ss, ss[k].second)
    ensures forall r :: Settled(ss, r) && (r.OK? || r.LOGGED_OUT?) ==> r == ss[k].second
    ensures !Unsettled(ss)
  {
    forall r | Settled(ss, r) && (r.OK? || r.LOGGED_OUT?) ensures r == ss[k].second {
      assert forall i :: 0 <= i < |ss| ==> !OpenSays(ss[i], r);
      var i :| 0 <= i < |ss| && NewSays(ss[i], r) && forall j :: 0 <= j < i ==> !NewSettles(ss[j]);
      assert !(i < k) && !(k < i);
    }
  }

  /** Where nobody says logged out, one server that can be reached and says OK is enough, wherever it stands: the others' retries are passed over. */
  lemma OneOkSuffices(ss: seq<Server>, stop: Stop)
    requires Decides(ss, stop) && forall j :: 0 <= j < |ss| ==> !OpenSays(ss[j], LOGGED_OUT) && !NewSays(ss[j], LOGGED_OUT)
    ensures Told(ss, stop).Okay? <==> exists j :: 0 <= j < |ss| && (OpenSays(ss[j], OK) || NewSays(ss[j], OK))
  {
    SameWords(ss);
    VerdictIff(ss, stop);
  }

  /** Afterwards a connection is open exactly if the last answer on it was no error; one that was not asked is as it was. */
  lemma OpenIff(ss: seq<Server>, stop: Stop, j: nat)
    requires Decides(ss, stop) && j < |ss|
    ensures OpenAfter(ss, stop, j) <==>
            var times := Times(Asked(ss, stop), j);
            if times == 0 then ss[j].open else if times == 1 && ss[j].open then ss[j].first != ERROR else ss[j].second != ERROR
  {
    AskedOnce(ss, 1, |ss|, j);
    match stop
    case First(k) => AskedOnce(ss, 1, k + 1, j);
    case Second(k) => AskedOnce(ss, 2, k + 1, j); TimesOfCat(Asks(ss, 1, |ss|), Asks(ss, 2, k + 1), j);
    case Nobody => AskedOnce(ss, 2, |ss|, j); TimesOfCat(Asks(ss, 1, |ss|), Asks(ss, 2, |ss|), j);
  }

  // ---------------------------------------------------------------- the list

  /** The list with one element taken out and put in front. */
  function ToFront<T>(s: seq<T>, k: nat): seq<T>
    requires k < |s|
  {
    [s[k]] + (s[..k] + s[k + 1..])
  }

  lemma ToFrontAt<T>(s: seq<T>, k: nat)
    requires k < |s|
    ensures |ToFront(s, k)| == |s|
    ensures forall i :: 0 <= i < |s| ==> ToFront(s, k)[i] == (if i == 0 then s[k] else if i <= k then s[i - 1] else s[i])
    ensures k == 0 ==> ToFront(s, k) == s
    ensures (forall i, j :: 0 <= i < j < |s| ==> s[i] != s[j]) ==>
            forall i, j :: 0 <= i < j < |s| ==> ToFront(s, k)[i] != ToFront(s, k)[j]
  {
  }

  function Reordered<T>(s: seq<T>, stop: Stop): seq<T>
    requires !stop.Nobody? ==> stop.k < |s|
  {
    if stop.Nobody? then s else ToFront(s, stop.k)
  }

  /** Nothing is lost and nothing comes in, and the servers that did not answer keep their order. */
  lemma ToFrontKeeps<T>(s: seq<T>, k: nat, i: nat, j: nat)
    requires k < |s| && i < j < |s| && i != k && j != k
    ensures multiset(ToFront(s, k)) == multiset(s)
    ensures exists i', j' :: 0 < i' < j' < |s| && ToFront(s, k)[i'] == s[i] && ToFront(s, k)[j'] == s[j]
  {
    assert s == s[..k] + ([s[k]] + s[k + 1..]);
    var i', j' := if i < k then i + 1 else i, if j < k then j + 1 else j;
    assert ToFront(s, k)[i'] == s[i] && ToFront(s, k)[j'] == s[j];
  }

  /** The server that decided has an open connection afterwards. */
  lemma AnswererIsOpen(ss: seq<Server>, stop: Stop)
    requires Decides(ss, stop) && !stop.Nobody?
    ensures OpenAfter(ss, stop, stop.k)
  {
    assert Answers(ss[stop.k], if stop.First? then 1 else 2);
  }

  /** While the server in front says OK or logged out on its open connection, nobody else is asked. */
  lemma FrontSuffices(ss: seq<Server>)
    requires ss != [] && ss[0].open && Definite(ss[0].first)
    ensures Decides(ss, First(0)) && Asked(ss, First(0)) == [0]
  {
    assert Answers(ss[0], 1);
    Onward(ss, 1, 0);
  }

  /** struct connlist: open tells that conn_sn is not NULL. */
  class Conn {
    var open: bool
    var next: Conn?

    constructor (open: bool, next: Conn?)
      ensures this.open == open && this.next == next
    {
      this.open, this.next := open, next;
    }

    /** The body of both loops: the first asks on an open connection, the second makes one first. */
    method Ask(s: Server, round: int) returns (turn: bool, rc: Reply)
      requires 1 <= round <= 2 && open == Before(s, round)
      modifies `open
      ensures turn == Turn(s, round) && rc == Says(s, round)
      ensures open == Before(s, round + 1)
    {
      rc := Says(s, round);
      if round == 1 {
        turn := open;
      } else {
        turn := !open && s.connects;
        if turn {
          open := true;
        }
      }
      if turn && rc.ERROR? {
        open := false;
      }
    }
  }

  ghost function Nth(list: seq<Conn>, i: nat): Conn?
  {
    if i < |list| then list[i] else null
  }

  /** The list that starts at head, as a sequence. */
  ghost predicate Linked(head: Conn?, list: seq<Conn>)
    reads list`next
  {
    && head == Nth(list, 0)
    && (forall i {:trigger list[i].next} :: 0 <= i < |list| ==> list[i].next == Nth(list, i + 1))
    && (forall i, j :: 0 <= i < j < |list| ==> list[i] != list[j])
  }

  ghost predicate Shows(list: seq<Conn>, ss: seq<Server>)
    reads list`open
  {
    |list| == |ss| && forall i :: 0 <= i < |ss| ==> list[i].open == ss[i].open
  }

  /** Exactly the right connections are open after a call that stopped there. */
  ghost predicate OpenAs(list: seq<Conn>, ss: seq<Server>, stop: Stop)
    reads list`open
  {
    |list| == |ss| && forall j :: 0 <= j < |ss| ==> list[j].open == OpenAfter(ss, stop, j)
  }

  class Servers {
    var head: Conn?
    ghost var list: seq<Conn>

    ghost predicate Valid()
      reads this, list`next
    {
      Linked(head, list)
    }

    constructor ()
      ensures Valid() && list == []
    {
      head, list := null, [];
    }

    /** The round has come to the server at position n. */
    ghost predicate RoundAt(ss: seq<Server>, round: int, n: int)
      reads this, list`open
    {
      |list| == |ss| && forall j :: 0 <= j < |ss| ==> list[j].open == Before(ss[j], if j < n then round + 1 else round)
    }

    method AskAt(cur: Conn, ss: seq<Server>, n: nat, round: int) returns (turn: bool, rc: Reply)
      requires Valid() && 1 <= round <= 2 && RoundAt(ss, round, n) && n < |list| && cur == list[n]
      modifies list`open
      ensures turn == Turn(ss[n], round) && rc == Says(ss[n], round)
      ensures RoundAt(ss, round, n + 1)
    {
      turn, rc := cur.Ask(ss[n], round);
      forall j | 0 <= j < |ss| ensures list[j].open == Before(ss[j], if j < n + 1 then round + 1 else round) {
        if j != n { assert list[j] != cur; }
      }
    }

    /** The body of the loop, with the books kept: what has been asked, and whether somebody said retry. */
    method OneServer(cur: Conn, ss: seq<Server>, n: nat, round: int, before: bool, retry: bool, asked: seq<nat>)
      returns (ends: bool, rc: Reply, retry': bool, asked': seq<nat>)
      requires Valid() && 1 <= round <= 2 && RoundAt(ss, round, n) && n < |list| && cur == list[n]
      requires Booked(ss, round, n, before, retry, asked)
      modifies list`open
      ensures RoundAt(ss, round, n + 1) && rc == Says(ss[n], round) && ends == Answers(ss[n], round)
      ensures asked' == Asks(ss, round, n + 1)
      ensures !ends ==> Booked(ss, round, n + 1, before, retry', asked')
    {
      var turn;
      turn, rc := AskAt(cur, ss, n, round);
      Onward(ss, round, n);
      asked' := if turn then asked + [n] else asked;
      ends := turn && Definite(rc);
      retry' := retry || (turn && rc.RETRY?);
    }

    /** The loop's pointers at position n, which can be the end. */
    ghost predicate At(prev: Conn?, cur: Conn?, n: nat)
      reads this, list`next
    {
      Valid() && n <= |list| && cur == Nth(list, n) && prev == (if n == 0 then null else list[n - 1])
    }

    lemma Standing(prev: Conn?, cur: Conn, n: nat)
      requires At(prev, cur, n)
      ensures Between(prev, cur, n) && At(cur, cur.next, n + 1)
    {
    }

    /** How a round ends: at the first definite answer, or behind the last server. */
    ghost predicate Ended(ss: seq<Server>, round: int, before: bool, at: Place, retry: bool)
      reads this, list`next
    {
      match at
      case Found(prev, cur, rc, k) => k < |ss| && Answers(ss[k], round) && Silent(ss, round, k) && Between(prev, cur, k) && rc == Says(ss[k], round)
      case NotFound => Silent(ss, round, |ss|) && (retry <==> before || AnyRetry(ss, round, |ss|))
    }

    /** One of the two loops over the list. */
    method Round(ss: seq<Server>, round: int, before: bool) returns (at: Place, retry: bool, asked: seq<nat>)
      requires Valid() && 1 <= round <= 2 && RoundAt(ss, round, 0)
      modifies list`open
      ensures Valid()
      ensures Ended(ss, round, before, at, retry)
      ensures RoundAt(ss, round, if at.Found? then at.k + 1 else |ss|)
      ensures asked == Asks(ss, round, if at.Found? then at.k + 1 else |ss|)
    {
      var prev: Conn?, cur := null, head;
      var n := 0;
      retry, asked := before, [];
      while cur != null
        invariant At(prev, cur, n) && RoundAt(ss, round, n) && Booked(ss, round, n, before, retry, asked)
        decreases |ss| - n
      {
        Standing(prev, cur, n);
        var ends, rc;
        ends, rc, retry, asked := OneServer(cur, ss, n, round, before, retry, asked);
        if ends {
          return Found(prev, cur, rc, n), retry, asked;
        }
        prev, cur, n := cur, cur.next, n + 1;
      }
      return NotFound, retry, asked;
    }

    /** The end of the function: the answering server is taken out and put in front. */
    method MoveToFront(prev: Conn?, cur: Conn, ghost k: nat)
      requires Valid() && Between(prev, cur, k)
      modifies this, list`next
      ensures Valid() && list == ToFront(old(list), k)
    {
      ghost var was, moved := list, ToFront(list, k);
      ToFrontAt(was, k);
      if prev != null {
        prev.next := cur.next;
        cur.next := head;
        head := cur;
        forall i | 0 <= i < |moved| ensures moved[i].next == Nth(moved, i + 1) {
          if 0 < i < k {
            assert was[i - 1] != cur && was[i - 1] != prev && moved[i + 1] == was[i];
          } else if i > k {
            assert was[i] != cur && was[i] != prev;
          }
        }
      }
      list := moved;
    }

    lemma WhereItStopped(ss: seq<Server>, stop: Stop)
      requires match stop
               case First(k) => RoundAt(ss, 1, k + 1)
               case Second(k) => RoundAt(ss, 2, k + 1)
               case Nobody => RoundAt(ss, 2, |ss|)
      ensures OpenAs(list, ss, stop)
    {
    }

    /** Both rounds, up to the first definite answer. */
    method Poll(ss: seq<Server>) returns (at: Place, v: Result, asked: seq<nat>, ghost stop: Stop)
      requires Valid() && Shows(list, ss)
      modifies list`open
      ensures Valid() && Decides(ss, stop) && OpenAs(list, ss, stop)
      ensures v == Told(ss, stop) && asked == Asked(ss, stop)
      ensures at.Found? <==> !stop.Nobody?
      ensures at.Found? ==> at.k == stop.k && Between(at.prev, at.cur, at.k)
    {
      var retry;
      at, retry, asked := Round(ss, 1, false);
      if at.Found? {
        stop := First(at.k);
        WhereItStopped(ss, stop);
        v := if at.rc.LOGGED_OUT? then Retry else Okay;
        return;
      }
      var more;
      at, retry, more := Round(ss, 2, retry);
      asked := asked + more;
      stop := if at.Found? then Second(at.k) else Nobody;
      WhereItStopped(ss, stop);
      v := if at.Found? then (if at.rc.LOGGED_OUT? then Retry else Okay) else if retry then Retry else Error;
    }

    /** cosign_check_cookie without the retrieval of tickets and proxy cookies. */
    method CheckCookie(ss: seq<Server>) returns (v: Result, asked: seq<nat>, ghost stop: Stop)
      requires Valid() && Shows(list, ss)
      modifies this, list`next, list`open
      ensures Valid() && Decides(ss, stop) && OpenAs(old(list), ss, stop)
      ensures v == Told(ss, stop) && asked == Asked(ss, stop)
      ensures v.Okay? <==> Settled(ss, OK)
      ensures v.Retry? <==> Settled(ss, LOGGED_OUT) || (Unsettled(ss) && SomeRetry(ss))
      ensures list == Reordered(old(list), stop)
    {
      var at;
      at, v, asked, stop := Poll(ss);
      VerdictIff(ss, stop);
      if at.Found? {
        MoveToFront(at.prev, at.cur, at.k);
      }
    }

    /** cosign_choose_conn of the CGI: the same rounds, but the list stays and logged out is a failure like the others. */
    method ChooseConn(ss: seq<Server>) returns (rc: int, asked: seq<nat>, ghost stop: Stop)
      requires Valid() && Shows(list, ss)
      modifies list`open
      ensures Valid() && Decides(ss, stop) && OpenAs(list, ss, stop) && asked == Asked(ss, stop)
      ensures rc == 0 || rc == -1
      ensures rc == 0 <==> Settled(ss, OK)
    {
      var at, v;
      at, v, asked, stop := Poll(ss);
      VerdictIff(ss, stop);
      rc := if v.Okay? then 0 else -1;
    }

    /** cur is at position k of the list, and prev before it: together they are the pointer to the pointer to cur. */
    ghost predicate Between(prev: Conn?, cur: Conn?, k: nat)
      reads this
    {
      k < |list| && cur == list[k] && prev == (if k == 0 then null else list[k - 1])
    }
  }

  datatype Place = Found(prev: Conn?, cur: Conn, rc: Reply, k: nat) | NotFound
}
