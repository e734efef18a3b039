/**
 The redirect limiter of the login CGI: how the browser's cookie carries the start of a
 window and the number of redirects in it, and how many redirects that lets through.
 */
module LoopChecker {
  import opened Text
  import Seqs

  const LOOPWINDOW := 30
  const MAXLOOPCOUNT := 10
  const MAXCOOKIETIME := 86400
  const SPACE := 255        // sizeof( new_cookie )

  // ---------------------------------------------------------------- the cookie's text

  /** What "%d" prints. */
  function Number(i: int): string { if i < 0 then "-" + Dec(-i) else Dec(i) }

  lemma AtoiOfNumber(i: int, rest: string)
    requires rest == "" || !IsDigit(rest[0])
    ensures Atoi(Number(i) + rest) == i
  {
    if i < 0 {
      DigitsOfDec(-i, rest);
      Seqs.Assoc("-", Dec(-i), rest);
      Seqs.TailOfCat("-", Dec(-i) + rest);
    } else {
      AtoiOfDec(i, rest);
    }
  }

  /** "%s/%d/%d". */
  function Shown(name: string, time: int, count: int): string
  {
    name + "/" + Number(time) + "/" + Number(count)
  }

  /** One call of strtok with "/": the token, and the place where the next call goes on. */
  function Strtok(s: string): Option<(string, string)>
    decreases |s|
  {
    if s == "" then None
    else if s[0] == '/' then Strtok(s[1..])
    else
      var k := IndexOf(s, '/');
      Some((s[..k], if k < |s| then s[k + 1..] else ""))
  }

  datatype Parsed = Parsed(name: string, time: int, count: int)

  /** The cookie taken apart: a time or a count that is not there is 0. */
  function Parse(cookie: string): Option<Parsed>
  {
    match Strtok(cookie)
    case None => None
    case Some((name, rest)) =>
      match Strtok(rest)
      case None => Some(Parsed(name, 0, 0))
      case Some((time, more)) =>
        match Strtok(more)
        case None => Some(Parsed(name, Atoi(time), 0))
        case Some((count, _)) => Some(Parsed(name, Atoi(time), Atoi(count)))
  }

  predicate Plain(name: string) { name != "" && '/' !in name }

  lemma StrtokOf(name: string, rest: string)
    requires Plain(name)
    ensures Strtok(name + "/" + rest) == Some((name, rest)) && Strtok(name) == Some((name, ""))
  {
    var s := name + "/" + rest;
    IndexOfAt(name, '/', rest);
    assert s[0] == name[0] && name[0] in name;
    assert s[..|name|] == name && s[|name| + 1..] == rest;
    IndexOfNone(name, '/');
    assert name[..|name|] == name;
  }

  lemma NumberIsPlain(i: int)
    ensures Plain(Number(i))
  {
  }

  /** What is printed into the cookie is read back from it, for all numbers. */
  lemma RoundTrip(name: string, time: int, count: int)
    requires Plain(name)
    ensures Parse(Shown(name, time, count)) == Some(Parsed(name, time, count))
  {
    var tail := Number(time) + "/" + Number(count);
    NumberIsPlain(time);
    NumberIsPlain(count);
    Regroup(name, Number(time), Number(count));
    StrtokOf(name, tail);
    StrtokOf(Number(time), Number(count));
    StrtokOf(Number(count), "");
    AtoiOfNumber(time, "");
    AtoiOfNumber(count, "");
    Seqs.Nil(Number(time));
    Seqs.Nil(Number(count));
  }

  lemma Regroup(name: string, time: string, count: string)
    ensures name + "/" + time + "/" + count == name + "/" + (time + "/" + count)
  {
  }

  // ---------------------------------------------------------------- one request

  /** What the browser is sent: a new cookie along with the redirect, or a page instead of it. */
  datatype Reply = Redirect(cookie: string) | LoopPage | ErrorPage | LoginScreen

  predicate Fits(name: string, time: int, count: int) { |Shown(name, time, count)| < SPACE }

  /** loop_checker, and the redirect behind it. */
  method Check(name: string, time: int, count: int, now: int) returns (r: Reply)
    ensures r == Checked(name, time, count, now)
  {
    var t, c := time, count;
    if now - t > LOOPWINDOW {
      t, c := now, 1;
      if |Shown(name, t, c)| >= SPACE {
        return ErrorPage;
      }
      return Redirect(Shown(name, t, c));
    }
    if c >= MAXLOOPCOUNT {
      t, c := now, 1;
      if |Shown(name, t, c)| >= SPACE {
        return ErrorPage;
      }
      return LoopPage;
    }
    c := c + 1;
    if |Shown(name, t, c)| >= SPACE {
      return ErrorPage;
    }
    return Redirect(Shown(name, t, c));
  }

  /** The same, told in one go: which of the two counters goes on, and whether there is room for it. */
  function Checked(name: string, time: int, count: int, now: int): Reply
  {
    var expired := now - time > LOOPWINDOW;
    if !expired && count >= MAXLOOPCOUNT then (if Fits(name, now, 1) then LoopPage else ErrorPage)
    else
      var (t, c) := if expired then (now, 1) else (time, count + 1);
      if Fits(name, t, c) then Redirect(Shown(name, t, c)) else ErrorPage
  }

  /** A request for a service with a live login: the cookie is taken apart and checked. */
  function Request(cookie: string, now: int): Reply
  {
    if |cookie| < 120 || |cookie| > 1024 then LoginScreen
    else match Parse(cookie)
      case None => LoginScreen
      case Some(p) => if now - p.time > MAXCOOKIETIME && HasTime(cookie) then LoginScreen else Checked(p.name, p.time, p.count, now)
  }

  /** There is a second field. */
  predicate HasTime(cookie: string)
  {
    Strtok(cookie).Some? && Strtok(Strtok(cookie).value.1).Some?
  }

  /** What the browser keeps: the new cookie if it was sent one. */
  function Keeps(cookie: string, now: int): string
  {
    var r := Request(cookie, now);
    if r.Redirect? then r.cookie else cookie
  }

  // ---------------------------------------------------------------- many requests

  /** A redirect: when, and in the window that began when. */
  datatype Sent = Sent(at: int, start: int)

  /** All redirects of a run of requests at the given times. */
  function Sends(cookie: string, times: seq<int>): seq<Sent>
    decreases |times|
  {
    if times == [] then []
    else
      var r := Request(cookie, times[0]);
      (if r.Redirect? && Parse(r.cookie).Some? then [Sent(times[0], Parse(r.cookie).value.time)] else [])
      + Sends(Keeps(cookie, times[0]), times[1..])
  }

  /** How many of the redirects come at a time from a to a + 30. */
  function InInterval(sent: seq<Sent>, a: int): nat
  {
    if sent == [] then 0 else (if a <= sent[0].at <= a + 30 then 1 else 0) + InInterval(sent[1..], a)
  }

  function InWindow(sent: seq<Sent>, start: int): nat
  {
    if sent == [] then 0 else (if sent[0].start == start then 1 else 0) + InWindow(sent[1..], start)
  }

  ghost predicate Ordered(times: seq<int>) { forall i, j :: 0 <= i < j < |times| ==> times[i] <= times[j] }

  lemma {:induction false} StrtokPlain(s: string)
    ensures Strtok(s).Some? ==> Plain(Strtok(s).value.0)
    decreases |s|
  {
    if s != "" && s[0] == '/' {
      StrtokPlain(s[1..]);
    } else if s != "" {
      IndexOfSpec(s, '/');
    }
  }

  /** What a redirect does to the two numbers, whatever the cookie was. */
  lemma Turn(cookie: string, now: int)
    requires Request(cookie, now).Redirect?
    ensures Parse(cookie).Some?
    ensures var p := Parse(cookie).value;
            && Parse(Keeps(cookie, now)) == Some(if now - p.time > 30 then Parsed(p.name, now, 1) else Parsed(p.name, p.time, p.count + 1))
            && (now - p.time <= 30 ==> p.count < 10)
  {
    var p := Parse(cookie).value;
    StrtokPlain(cookie);
    RoundTrip(p.name, now, 1);
    RoundTrip(p.name, p.time, p.count + 1);
  }

  /** Sends, a step at a time. */
  lemma Step(cookie: string, times: seq<int>)
    requires times != []
    ensures var now, r := times[0], Request(cookie, times[0]);
            if r.Redirect? then
              && Parse(r.cookie).Some? && Keeps(cookie, now) == r.cookie
              && Sends(cookie, times) == [Sent(now, Parse(r.cookie).value.time)] + Sends(r.cookie, times[1..])
            else Keeps(cookie, now) == cookie && Sends(cookie, times) == Sends(cookie, times[1..])
  {
    var r := Request(cookie, times[0]);
    if r.Redirect? {
      Turn(cookie, times[0]);
    } else {
      Seqs.Nil(Sends(cookie, times[1..]));
    }
  }

  // ---------------------------------------------------------------- the limiter without texts

  /**
   sent can be what requests at the given times get when the cookie holds this time and count:
   a redirect opens a new window or, if the old one is open and has some left, counts in it; a
   request may also get none.
   */
  ghost predicate Limited(time: int, count: int, times: seq<int>, sent: seq<Sent>)
    decreases |times|
  {
    if times == [] then sent == []
    else
      || Limited(time, count, times[1..], sent)
      || Passes(time, count, times, sent)
  }

  ghost predicate Passes(time: int, count: int, times: seq<int>, sent: seq<Sent>)
    requires times != []
    decreases |times|, 0
  {
    && sent != [] && sent[0].at == times[0]
    && if times[0] - time > 30 then sent[0].start == times[0] && Limited(times[0], 1, times[1..], sent[1..])
       else sent[0].start == time && count < 10 && Limited(time, count + 1, times[1..], sent[1..])
  }

  /** The limiter that keeps its state in the browser's cookie is one of these. */
  lemma {:induction false} CookiesAreLimited(cookie: string, times: seq<int>)
    ensures match Parse(cookie)
            case Some(p) => Limited(p.time, p.count, times, Sends(cookie, times))
            case None => Sends(cookie, times) == []
    decreases |times|
  {
    if times != [] {
      Step(cookie, times);
      var r := Request(cookie, times[0]);
      if r.Redirect? {
        Turn(cookie, times[0]);
        CookiesAreLimited(r.cookie, times[1..]);
        Seqs.TailOfCat([Sent(times[0], Parse(r.cookie).value.time)], Sends(r.cookie, times[1..]));
      } else {
        CookiesAreLimited(cookie, times[1..]);
      }
    }
  }

  /** The redirects that a window has left. A count below 0 can only come from a cookie that was tampered with. */
  function Left(count: int): nat { if count < 10 then 10 - count else 0 }

  lemma {:induction false} WindowBound(time: int, count: int, times: seq<int>, sent: seq<Sent>, start: int)
    requires Limited(time, count, times, sent)
    ensures InWindow(sent, start) <= if time == start then Left(count) else if time < start then 10 else 0
    decreases |times|
  {
    if times == [] {
    } else if Limited(time, count, times[1..], sent) {
      WindowBound(time, count, times[1..], sent, start);
    } else if times[0] - time > 30 {
      WindowBound(times[0], 1, times[1..], sent[1..], start);
    } else {
      WindowBound(time, count + 1, times[1..], sent[1..], start);
    }
  }

  lemma {:induction false} LaterWindows(time: int, count: int, times: seq<int>, sent: seq<Sent>, j: nat)
    requires Limited(time, count, times, sent) && j < |sent|
    ensures sent[j].start == time || sent[j].start > time + 30
    ensures sent[j].at <= sent[j].start + 30
    decreases |times|
  {
    if Limited(time, count, times[1..], sent) {
      LaterWindows(time, count, times[1..], sent, j);
    } else if j > 0 {
      if times[0] - time > 30 {
        LaterWindows(times[0], 1, times[1..], sent[1..], j - 1);
      } else {
        LaterWindows(time, count + 1, times[1..], sent[1..], j - 1);
      }
    }
  }

  lemma {:induction false} LimitedApart(time: int, count: int, times: seq<int>, sent: seq<Sent>, i: nat, j: nat)
    requires Limited(time, count, times, sent) && i < j < |sent|
    ensures sent[j].start == sent[i].start || sent[j].start > sent[i].start + 30
    decreases |times|
  {
    if Limited(time, count, times[1..], sent) {
      LimitedApart(time, count, times[1..], sent, i, j);
    } else {
      var next, n := if times[0] - time > 30 then times[0] else time, if times[0] - time > 30 then 1 else count + 1;
      if i == 0 {
        LaterWindows(next, n, times[1..], sent[1..], j - 1);
      } else {
        LimitedApart(next, n, times[1..], sent[1..], i - 1, j - 1);
      }
    }
  }

  lemma {:induction false} TooLate(time: int, count: int, times: seq<int>, sent: seq<Sent>, a: int)
    requires Limited(time, count, times, sent)
    requires forall i :: 0 <= i < |times| ==> times[i] > a + 30
    ensures InInterval(sent, a) == 0
    decreases |times|
  {
    if times == [] {
    } else if Limited(time, count, times[1..], sent) {
      TooLate(time, count, times[1..], sent, a);
    } else if times[0] - time > 30 {
      TooLate(times[0], 1, times[1..], sent[1..], a);
    } else {
      TooLate(time, count + 1, times[1..], sent[1..], a);
    }
  }

  /** From the beginning of the interval on: what the window has left, and one more window if it began before. */
  lemma {:induction false} FromHere(time: int, count: int, times: seq<int>, sent: seq<Sent>, a: int)
    requires Limited(time, count, times, sent)
    requires Ordered(times) && (times != [] ==> times[0] >= a)
    ensures InInterval(sent, a) <= Left(count) + (if time >= a then 0 else 10)
    decreases |times|
  {
    if times == [] {
    } else if times[0] > a + 30 {
      TooLate(time, count, times, sent, a);
    } else if Limited(time, count, times[1..], sent) {
      FromHere(time, count, times[1..], sent, a);
    } else if times[0] - time > 30 {
      FromHere(times[0], 1, times[1..], sent[1..], a);
    } else {
      FromHere(time, count + 1, times[1..], sent[1..], a);
    }
  }

  lemma {:induction false} IntervalBound(time: int, count: int, times: seq<int>, sent: seq<Sent>, a: int)
    requires Limited(time, count, times, sent) && Ordered(times)
    ensures InInterval(sent, a) <= 10 + (if count < 0 then Left(count) else 10)
    decreases |times|
  {
    if times == [] || times[0] >= a {
      FromHere(time, count, times, sent, a);
    } else if Limited(time, count, times[1..], sent) {
      IntervalBound(time, count, times[1..], sent, a);
    } else if times[0] - time > 30 {
      IntervalBound(times[0], 1, times[1..], sent[1..], a);
    } else {
      IntervalBound(time, count + 1, times[1..], sent[1..], a);
    }
  }

  // ---------------------------------------------------------------- the three bounds

  /** At most ten redirects share one window that begins during the run, and what is left of the first one. */
  lemma TenPerWindow(cookie: string, times: seq<int>, start: int)
    ensures InWindow(Sends(cookie, times), start) <=
            if Parse(cookie).Some? && Parse(cookie).value.time == start then Left(Parse(cookie).value.count) else 10
  {
    CookiesAreLimited(cookie, times);
    if Parse(cookie).Some? {
      var p := Parse(cookie).value;
      WindowBound(p.time, p.count, times, Sends(cookie, times), start);
    }
  }

  /** Two redirects share their window, or the later one's begins more than 30 seconds after the earlier one's. */
  lemma WindowsApart(cookie: string, times: seq<int>, i: nat, j: nat)
    requires i < j < |Sends(cookie, times)|
    ensures var a, b := Sends(cookie, times)[i].start, Sends(cookie, times)[j].start; b == a || b > a + 30
  {
    CookiesAreLimited(cookie, times);
    var p := Parse(cookie).value;
    LimitedApart(p.time, p.count, times, Sends(cookie, times), i, j);
  }

  /** In any 30 seconds there are at most 20 redirects, whatever the times of the requests; more only after tampering. */
  lemma TwentyInThirtySeconds(cookie: string, times: seq<int>, a: int)
    requires Ordered(times)
    ensures InInterval(Sends(cookie, times), a) <=
            10 + (if Parse(cookie).Some? && Parse(cookie).value.count < 0 then Left(Parse(cookie).value.count) else 10)
  {
    CookiesAreLimited(cookie, times);
    if Parse(cookie).Some? {
      var p := Parse(cookie).value;
      IntervalBound(p.time, p.count, times, Sends(cookie, times), a);
    }
  }

  // ---------------------------------------------------------------- the bound is met

  const EVER := 100_000_000_000     // times of eleven digits

  /** Names that leave room for eleven digits and two, and are long enough to be a login cookie. */
  predicate Ordinary(name: string) { Plain(name) && 120 <= |name| < 240 }

  lemma Small(name: string, time: nat, count: nat)
    requires Ordinary(name) && time < EVER && count < 100
    ensures 120 <= |Shown(name, time, count)| < SPACE
  {
    assert Pow10(5) == 100_000;
    assert Pow10(11) == 1_000_000 * Pow10(5);
    assert Pow10(2) == 100;
    DecLength(time, 11);
    DecLength(count, 2);
  }

  /** A request with a cookie of an ordinary length. */
  lemma OneRequest(name: string, time: nat, count: nat, now: nat)
    requires Ordinary(name) && time < EVER && now < EVER && count <= 10
    ensures Request(Shown(name, time, count), now) ==
            if now - time > 86400 then LoginScreen
            else if now - time > 30 then Redirect(Shown(name, now, 1))
            else if count < 10 then Redirect(Shown(name, time, count + 1))
            else LoopPage
  {
    Small(name, time, count);
    Small(name, time, count + 1);
    Small(name, now, 1);
    RoundTrip(name, time, count);
    TimeIsThere(name, time, count);
  }

  lemma TimeIsThere(name: string, time: nat, count: nat)
    requires Ordinary(name)
    ensures HasTime(Shown(name, time, count))
  {
    Regroup(name, Number(time), Number(count));
    StrtokOf(name, Number(time) + "/" + Number(count));
    NumberIsPlain(time);
    StrtokOf(Number(time), Number(count));
  }

  /** The redirects of the limiter when every cookie fits, from the two numbers alone. */
  function Machine(time: int, count: int, times: seq<int>): seq<Sent>
    decreases |times|
  {
    if times == [] then []
    else if times[0] - time > 86400 then Machine(time, count, times[1..])
    else if times[0] - time > 30 then [Sent(times[0], times[0])] + Machine(times[0], 1, times[1..])
    else if count < 10 then [Sent(times[0], time)] + Machine(time, count + 1, times[1..])
    else Machine(time, count, times[1..])
  }

  /** Requests with an ordinary cookie, printed and taken apart again each time, do what the two numbers say. */
  lemma {:induction false} CookiesAreMachine(name: string, time: nat, count: nat, times: seq<int>)
    requires Ordinary(name) && time < EVER && count <= 10
    requires forall i :: 0 <= i < |times| ==> 0 <= times[i] < EVER
    ensures Sends(Shown(name, time, count), times) == Machine(time, count, times)
    decreases |times|
  {
    if times != [] {
      var cookie, now := Shown(name, time, count), times[0];
      OneRequest(name, time, count, now);
      Step(cookie, times);
      if now - time > 86400 {
        CookiesAreMachine(name, time, count, times[1..]);
      } else if now - time > 30 {
        RoundTrip(name, now, 1);
        CookiesAreMachine(name, now, 1, times[1..]);
      } else if count < 10 {
        RoundTrip(name, time, count + 1);
        CookiesAreMachine(name, time, count + 1, times[1..]);
      } else {
        CookiesAreMachine(name, time, count, times[1..]);
      }
    }
  }

  function Burst(now: int, k: nat): seq<int> { if k == 0 then [] else [now] + Burst(now, k - 1) }

  lemma BurstFront(now: int, k: nat, rest: seq<int>)
    requires k > 0
    ensures var times := Burst(now, k) + rest; times != [] && times[0] == now && times[1..] == Burst(now, k - 1) + rest
  {
  }

  /** The first redirect, and those after it. */
  lemma MachineStep(time: int, count: int, times: seq<int>, a: int)
    requires times != [] && a <= times[0] <= a + 30 && times[0] - time <= 86400 && (times[0] - time > 30 || count < 10)
    ensures InInterval(Machine(time, count, times), a) ==
            1 + InInterval(if times[0] - time > 30 then Machine(times[0], 1, times[1..]) else Machine(time, count + 1, times[1..]), a)
  {
    if times[0] - time > 30 {
      Seqs.TailOfCat([Sent(times[0], times[0])], Machine(times[0], 1, times[1..]));
    } else {
      Seqs.TailOfCat([Sent(times[0], time)], Machine(time, count + 1, times[1..]));
    }
  }

  /** As many requests as the window has left are all redirected. */
  lemma {:induction false} WindowFills(time: int, count: int, now: int, k: nat, rest: seq<int>, a: int)
    requires now - time <= 30 && count + k <= 10 && a <= now <= a + 30
    ensures InInterval(Machine(time, count, Burst(now, k) + rest), a) == k + InInterval(Machine(time, count + k, rest), a)
    decreases k
  {
    if k == 0 {
      Seqs.Nil(rest);
    } else {
      BurstFront(now, k, rest);
      MachineStep(time, count, Burst(now, k) + rest, a);
      WindowFills(time, count + 1, now, k - 1, rest, a);
    }
  }

  lemma {:induction false} InBurst(now: int, k: nat)
    ensures forall i :: 0 <= i < |Burst(now, k)| ==> Burst(now, k)[i] == now
  {
    if k > 0 {
      InBurst(now, k - 1);
    }
  }

  lemma TwoWindows(t: int, w: nat)
    requires w == 10
    ensures InInterval(Machine(t, 0, Burst(t + 30, w) + (Burst(t + 31, w) + [])), t + 30) == 2 * w
  {
    WindowFills(t, 0, t + 30, w, Burst(t + 31, w) + [], t + 30);
    BurstFront(t + 31, w, []);
    MachineStep(t, w, Burst(t + 31, w) + [], t + 30);
    WindowFills(t + 31, 1, t + 31, w - 1, [], t + 30);
  }

  lemma TwoBursts(name: string, t: nat, w: nat) returns (times: seq<int>)
    requires Ordinary(name) && t + 31 < EVER && w == 10
    ensures forall i :: 0 <= i < |times| ==> t + 30 <= times[i] <= t + 31
    ensures InInterval(Sends(Shown(name, t, 0), times), t + 30) == 2 * w
  {
    times := Burst(t + 30, w) + (Burst(t + 31, w) + []);
    InBurst(t + 30, w);
    InBurst(t + 31, w);
    CookiesAreMachine(name, t, 0, times);
    TwoWindows(t, w);
  }

  /** With any ordinary cookie, at any time, ten requests in the last second of one window and ten in the next second all go through. */
  lemma TwentyIsReached(name: string, t: nat) returns (times: seq<int>)
    requires Ordinary(name) && t + 31 < EVER
    ensures forall i :: 0 <= i < |times| ==> t + 30 <= times[i] <= t + 31
    ensures InInterval(Sends(Shown(name, t, 0), times), t + 30) == 20
  {
    times := TwoBursts(name, t, 10);
  }
}
