/**
 Cookies: minting random values, the character check, and the mapping from a cookie to the
 path of its file in the (hashed) database directory.
 */
module MkCookie {
  import opened Text
  import opened Base64
  import Seqs

  const MAXCOOKIELEN := 1024
  const TMPLEN := 1024

  /** SZ_FBASE64_D, with the division of C. */
  function SizeDecoded(x: int): int { if x >= 0 then x * 3 / 4 else 0 - (0 - x * 3) / 4 }

  /** mkcookie( len, .. ) goes ahead when slack is what it subtracts from len. */
  predicate Accepts(len: int, slack: int) { 0 < SizeDecoded(len - slack) <= TMPLEN }

  /** RAND_bytes: any bytes at all, or a failure. */
  method RandBytes(tmp: array<byte>, n: nat) returns (rc: int)
    requires n <= tmp.Length
    modifies tmp
    ensures rc == 0 || rc == 1
  {
    for i := 0 to n {
      var b: byte := *;
      tmp[i] := b;
    }
    rc :| rc == 0 || rc == 1;
  }

  /** The caller lends len characters of buf and no more. */
  method Mint(len: int, buf: array<char>) returns (rc: int, ghost random: seq<byte>)
    requires len <= buf.Length
    modifies buf
    ensures rc == -1 <==> !Accepts(len, 3)
    ensures rc == 0 ==> |random| == SizeDecoded(len - 3) && |Encoded(random)| < len &&
                        buf[..] == Written(old(buf[..]), 0, Encoded(random) + ['\0'])
    ensures rc != 0 ==> buf[..] == old(buf[..]) && (rc == -1 || rc == -2)
  {
    var tmp := new byte[TMPLEN](_ => 0);
    random := [];
    var left := len - 3;
    var randbytes := SizeDecoded(left);
    if randbytes <= 0 || randbytes > TMPLEN {
      return -1, random;
    }
    var ok := RandBytes(tmp, randbytes);
    if ok != 1 {
      return -2, random;
    }
    random := tmp[..randbytes];
    FitsIff(3);
    Base64.Encode(tmp, randbytes, buf);
    rc := 0;
  }

  /** Writing never leaves the lent buffer, for every length that is accepted, just when at least 3 is subtracted. */
  lemma FitsIff(slack: int)
    ensures (forall len :: Accepts(len, slack) ==> SizeEncoded(SizeDecoded(len - slack)) <= len) <==> slack >= 3
  {
    forall len | Accepts(len, slack)
      ensures SizeEncoded(SizeDecoded(len - slack)) <= len - slack + 3
    {
      SizeBound(len - slack);
    }
    var len := slack + 2;
    assert SizeDecoded(len - slack) == 1 && Accepts(len, slack);
    assert SizeEncoded(1) == 5;
  }

  lemma SizeBound(x: int)
    requires SizeDecoded(x) > 0
    ensures SizeEncoded(SizeDecoded(x)) <= x + 3
  {
    var q, r := x / 4, x % 4;
    assert x == 4 * q + r;
    var extra := if r == 3 then 2 else if r == 2 then 1 else 0;
    assert SizeDecoded(x) == 3 * q + extra;
  }

  // ---------------------------------------------------------------- characters

  /** valid_tab. */
  predicate ValidChar(c: char) {
    'a' <= c <= 'z' || 'A' <= c <= 'Z' || '0' <= c <= '9' ||
    c == '+' || c == '-' || c == '.' || c == '=' || c == '@' || c == '_'
  }

  predicate ValidChars(s: string) { forall k :: 0 <= k < |s| ==> ValidChar(s[k]) }

  /** The table is that of the minted values, and four more. */
  lemma ValidIff(c: char)
    ensures ValidChar(c) <==> c in ALPHABET || c in ".=@_"
  {
    InAlphabetIff(c);
  }

  method CheckChars(s: string) returns (ok: bool)
    ensures ok == ValidChars(s)
  {
    var p := 0;
    while p < |s|
      invariant p <= |s| && ValidChars(s[..p])
    {
      if !ValidChar(s[p]) {
        return false;
      }
      p := p + 1;
      assert s[..p] == s[..p - 1] + [s[p - 1]];
    }
    assert s[..p] == s;
    return true;
  }

  // ---------------------------------------------------------------- paths

  /** What mkcookiepath demands of a cookie, for a buffer that is large enough. */
  predicate PathOk(hashlen: int, cookie: string) {
    && '/' !in cookie
    && |cookie| < MAXCOOKIELEN
    && IndexOf(cookie, '=') < |cookie|
    && |cookie| - IndexOf(cookie, '=') > 2
    && 0 <= hashlen <= 2
  }

  /** The hash directory: the one or two characters behind the first '='. */
  function HashDir(hashlen: int, cookie: string): string
    requires PathOk(hashlen, cookie)
  {
    var p := IndexOf(cookie, '=');
    cookie[p + 1..p + 1 + hashlen]
  }

  /** mkcookiepath; None stands for -1. */
  function Path(prefix: Option<string>, hashlen: int, cookie: string, len: int): (r: Option<string>)
    ensures r.Some? ==> PathOk(hashlen, cookie) && |r.value| < len
  {
    if '/' in cookie then None
    else if |cookie| >= MAXCOOKIELEN then None
    else
      var p := IndexOf(cookie, '=');
      if p == |cookie| then None
      else if |cookie| - p <= 2 then None
      else if hashlen < 0 || hashlen > 2 then None
      else
        var top := if prefix.Some? then prefix.value + "/" else "";
        var dir := if hashlen == 0 then "" else cookie[p + 1..p + 1 + hashlen] + "/";
        var path := top + dir + cookie;
        if |path| >= len then None else Some(path)
  }

  /** How long the path is, and where the cookie begins in it. */
  function Ahead(prefix: Option<string>, hashlen: int): int
  {
    (if prefix.Some? then |prefix.value| + 1 else 0) + (if hashlen == 0 then 0 else hashlen + 1)
  }

  /** A cookie gets a path exactly if it is acceptable and the buffer has room: directory, hash directory and cookie. */
  lemma PathIs(prefix: Option<string>, hashlen: int, cookie: string, len: int)
    ensures var r := Path(prefix, hashlen, cookie, len);
            && (r.Some? <==> PathOk(hashlen, cookie) && Ahead(prefix, hashlen) + |cookie| < len)
            && (r.Some? ==> var n := Ahead(prefix, hashlen);
                 && 0 <= n <= |r.value| && r.value[n..] == cookie
                 && (hashlen > 0 ==> r.value[n - hashlen - 1..n] == HashDir(hashlen, cookie) + "/")
                 && (prefix.Some? ==> prefix.value + "/" <= r.value))
  {
    var top := if prefix.Some? then prefix.value + "/" else "";
    var p := IndexOf(cookie, '=');
    if PathOk(hashlen, cookie) {
      Layout(top, if hashlen == 0 then "" else cookie[p + 1..p + 1 + hashlen] + "/", cookie);
    }
  }

  lemma Layout(top: string, dir: string, cookie: string)
    ensures var path := top + dir + cookie; var n := |top| + |dir|;
            |path| == n + |cookie| && path[n..] == cookie && path[|top|..n] == dir && top <= path
  {
  }

  ghost predicate FirstAt(s: string, c: char, p: nat) { p < |s| && s[p] == c && forall k :: 0 <= k < p ==> s[k] != c }

  /** A path is refused for a slash, 1024 characters or more, no '=' or fewer than two characters behind the first, another hash length, or want of room; for nothing else. */
  lemma RefusedIff(prefix: Option<string>, hashlen: int, cookie: string, len: int)
    ensures Path(prefix, hashlen, cookie, len).Some? <==>
            && '/' !in cookie && |cookie| < 1024 && 0 <= hashlen <= 2
            && (exists p: nat :: FirstAt(cookie, '=', p) && p + 2 < |cookie|)
            && (if prefix.Some? then |prefix.value| + 1 else 0) + (if hashlen == 0 then 0 else hashlen + 1) + |cookie| < len
  {
    PathIs(prefix, hashlen, cookie, len);
    var q := IndexOf(cookie, '=');
    IndexOfSpec(cookie, '=');
    forall k | 0 <= k < q ensures cookie[k] != '=' {
      assert cookie[..q][k] == cookie[k];
    }
    if q < |cookie| {
      assert FirstAt(cookie, '=', q);
      forall p: nat | FirstAt(cookie, '=', p) ensures p == q {
        assert !(p < q) && !(q < p);
      }
    }
  }

  /** Two cookies never share a file, so the hashed directory holds a flat map from cookies to files. */
  lemma PathInjective(prefix: Option<string>, hashlen: int, a: string, b: string, len: int)
    requires Path(prefix, hashlen, a, len).Some? && Path(prefix, hashlen, a, len) == Path(prefix, hashlen, b, len)
    ensures a == b
  {
    PathIs(prefix, hashlen, a, len);
    PathIs(prefix, hashlen, b, len);
  }

  // ---------------------------------------------------------------- what the sweep visits

  /** sixtyfourchars of the monster: the alphabet of minted values. */
  predicate SweepChar(c: char) { InAlphabet(c) }

  predicate SweepVisits(hashlen: int, dir: string) { |dir| == hashlen && forall k :: 0 <= k < |dir| ==> SweepChar(dir[k]) }

  /** link(2) and rename(2) find a directory for the cookie: mkhashdirs makes those that the sweep opens, and no others. */
  predicate Housed(hashlen: int, cookie: string) { PathOk(hashlen, cookie) && SweepVisits(hashlen, HashDir(hashlen, cookie)) }

  /** A value minted for a buffer of 128 characters: 124 characters, all of the alphabet. */
  lemma MintedValue(random: seq<byte>)
    requires |random| == SizeDecoded(128 - 3)
    ensures |Encoded(random)| == 124 && AllInAlphabet(Encoded(random))
  {
    assert |random| == 93;
    EncodedLength(random);
    GroupsArePadded(93);
    assert Pads(93) == 0;
    var body := EncodedAlphabet(random);
    assert Padding(0) == "";
    Seqs.Nil(body);
  }

  lemma NameEnds(name: string, value: string)
    requires '=' !in name
    ensures IndexOf(name + "=" + value, '=') == |name|
  {
    IndexOfAt(name, '=', value);
  }

  lemma Behind(a: string, b: string, k: nat)
    requires k <= |b|
    ensures (a + b)[|a|..|a| + k] == b[..k]
  {
  }

  lemma MintedDir(name: string, value: string, hashlen: int)
    requires '=' !in name && PathOk(hashlen, name + "=" + value)
    ensures hashlen <= |value| && HashDir(hashlen, name + "=" + value) == value[..hashlen]
  {
    NameEnds(name, value);
    Behind(name + "=", value, hashlen);
  }

  /** A valid name, '=' and a minted value: every check accepts it, and it has a directory. */
  lemma MintedCookieIsAccepted(name: string, random: seq<byte>, hashlen: int)
    requires |random| == SizeDecoded(128 - 3) && 0 <= hashlen <= 2
    requires ValidChars(name) && '=' !in name && |name| < MAXCOOKIELEN - 125
    ensures var cookie := name + "=" + Encoded(random);
            Housed(hashlen, cookie) && ValidChars(cookie)
  {
    var value := Encoded(random);
    MintedValue(random);
    NameEnds(name, value);
    AlphabetIsValid(value);
    ValidOnly(name, value);
    MintedDir(name, value, hashlen);
    assert forall k :: 0 <= k < hashlen ==> value[..hashlen][k] == value[k];
  }

  lemma AlphabetIsValid(value: string)
    requires AllInAlphabet(value)
    ensures ValidChars(value) && SweepVisits(|value|, value)
  {
    assert forall k :: 0 <= k < |value| ==> value[k] in value;
  }

  lemma ValidOnly(name: string, value: string)
    requires ValidChars(name) && ValidChars(value)
    ensures ValidChars(name + "=" + value) && '/' !in name + "=" + value
  {
  }

  /** The valid characters that no hash directory of the sweep has. */
  predicate Stray(c: char) { c == '.' || c == '=' || c == '@' || c == '_' }

  /**
   Of the cookies that pass both checks, exactly those have a directory that have none of four
   characters among the hashlen ones behind the first '='.
   */
  lemma HousedIff(hashlen: int, cookie: string)
    requires ValidChars(cookie) && PathOk(hashlen, cookie)
    ensures var p := IndexOf(cookie, '=');
            Housed(hashlen, cookie) <==> forall k :: p < k <= p + hashlen ==> !Stray(cookie[k])
  {
    var p := IndexOf(cookie, '=');
    var dir := HashDir(hashlen, cookie);
    forall k | p < k <= p + hashlen ensures SweepChar(dir[k - p - 1]) <==> !Stray(cookie[k]) {
      assert dir[k - p - 1] == cookie[k] && ValidChar(cookie[k]);
    }
    if SweepVisits(hashlen, dir) {
    } else {
      var i :| 0 <= i < |dir| && !SweepChar(dir[i]);
      assert Stray(cookie[p + 1 + i]);
    }
  }

  const HOMELESS := "cosign-x=__"

  lemma HomelessPath()
    ensures IndexOf(HOMELESS, '=') == 8 && HOMELESS[9] == '_'
    ensures "cosign-" <= HOMELESS
  {
    assert HOMELESS == "cosign-x" + "=" + "__";
    NameEnds("cosign-x", "__");
  }

  lemma HomelessChars()
    ensures ValidChars(HOMELESS) && '/' !in HOMELESS
  {
  }

  lemma NoHome(hashlen: int, cookie: string)
    requires 1 <= hashlen && ValidChars(cookie) && PathOk(hashlen, cookie) && Stray(cookie[IndexOf(cookie, '=') + 1])
    ensures !Housed(hashlen, cookie)
  {
    HousedIff(hashlen, cookie);
  }

  /** A service cookie that validchars and mkcookiepath accept, and that has no directory in a hashed database. */
  lemma AcceptedButHomeless(hashlen: int)
    requires 1 <= hashlen <= 2
    ensures "cosign-" <= HOMELESS && ValidChars(HOMELESS) && PathOk(hashlen, HOMELESS) && !Housed(hashlen, HOMELESS)
  {
    HomelessPath();
    HomelessChars();
    NoHome(hashlen, HOMELESS);
  }
}
