/**
 acav_parse with default flags: cuts a NUL-terminated line into words in place and
 leaves the offset of each word in a vector that grows by ten.
 */
module ArgcArgv {
  import opened Text

  const ACV_ARGC := 10

  /** line holds, at offset at, the word w followed by a NUL. */
  ghost predicate WordAt(line: seq<char>, at: int, w: string) {
    && 0 <= at && at + |w| < |line|
    && line[at..at + |w|] == w
    && line[at + |w|] == '\0'
  }

  /** The words found so far sit, NUL-terminated, below position i of the line. */
  ghost predicate Cut(line: seq<char>, vec: seq<int>, words: seq<string>, i: nat) {
    && |vec| == |words| && i <= |line|
    && forall k :: 0 <= k < |vec| ==> WordAt(line, vec[k], words[k]) && vec[k] + |words[k]| < i
  }

  /** Writes at or above i leave the words below i alone. */
  lemma CutFrame(before: seq<char>, after: seq<char>, vec: seq<int>, words: seq<string>, i: nat)
    requires Cut(before, vec, words, i) && |before| == |after| && before[..i] == after[..i]
    ensures Cut(after, vec, words, i)
  {
    forall k | 0 <= k < |vec| ensures WordAt(after, vec[k], words[k]) {
      var at, to := vec[k], vec[k] + |words[k]|;
      assert before[at..to] == before[..i][at..to] && after[at..to] == after[..i][at..to];
      assert before[to] == before[..i][to] && after[to] == after[..i][to];
    }
  }

  /** Putting a NUL behind the run from..i makes it a word. */
  lemma CutWord(before: seq<char>, vec: seq<int>, words: seq<string>, from: nat, i: nat)
    requires Cut(before, vec, words, i) && from < i < |before|
    ensures Cut(before[i := '\0'], vec + [from], words + [before[from..i]], i + 1)
  {
    var after := before[i := '\0'];
    assert before[..i] == after[..i] && after[from..i] == before[from..i];
    CutFrame(before, after, vec, words, i);
    assert WordAt(after, from, before[from..i]);
  }

  /** A run of non-white characters that is followed by white or by the end is one word. */
  lemma WordOfRun(s: string, from: nat, to: nat)
    requires from < to <= |s|
    requires forall k :: from <= k < to ==> !White(s[k])
    requires to == |s| || White(s[to])
    ensures Tokens(s[from..]) == [s[from..to]] + Tokens(s[to..])
  {
    assert s[from..] == s[from..to] + s[to..];
    WordThenRest(s[from..to], s[to..]);
  }

  /** What is still to be found when the words so far end before from and s[from..i] is a run. */
  ghost predicate Pending(s: string, words: seq<string>, from: nat, i: nat) {
    && from <= i <= |s|
    && (forall k :: from <= k < i ==> !White(s[k]))
    && Tokens(s) == words + Tokens(s[from..])
  }

  lemma PendingWord(s: string, words: seq<string>, from: nat, i: nat)
    requires Pending(s, words, from, i) && from < i && (i == |s| || White(s[i]))
    ensures Pending(s, words + [s[from..i]], i, i)
  {
    WordOfRun(s, from, i);
  }

  lemma PendingWhite(s: string, words: seq<string>, i: nat)
    requires Pending(s, words, i, i) && i < |s| && White(s[i])
    ensures Pending(s, words, i + 1, i + 1)
  {
    assert s[i..][1..] == s[i + 1..];
  }

  /** Agreement from position a on gives agreement before and from any later position b on. */
  lemma Kept(line: seq<char>, s: string, a: nat, b: nat)
    requires a <= b <= |s| <= |line| && line[a..|s|] == s[a..]
    ensures line[b..|s|] == s[b..] && line[a..b] == s[a..b]
  {
    assert forall k :: a <= k < |s| ==> line[k] == line[a..|s|][k - a] && s[k] == s[a..][k - a];
  }

  /** How far the scan of s has come: found holds the words so far, the last one open if inWord. */
  datatype Scan = Scan(words: seq<string>, vec: seq<int>, inWord: bool, from: nat, i: nat) {
    ghost predicate Holds(line: seq<char>, found: seq<int>, s: string) {
      && i <= |s| < |line| && line[|s|] == '\0' && (inWord ==> from < i)
      && found == vec + (if inWord then [from] else [])
      && line[Open()..|s|] == s[Open()..]
      && Cut(line, vec, words, i)
      && Pending(s, words, Open(), i)
    }

    function Open(): nat { if inWord then from else i }

    /** The character under the cursor has not been touched. */
    lemma Ahead(line: seq<char>, found: seq<int>, s: string)
      requires Holds(line, found, s)
      ensures i < |s| ==> line[i] == s[i] && s[i] in s
    {
      if i < |s| {
        assert line[i] == line[Open()..|s|][i - Open()] == s[Open()..][i - Open()];
      }
    }

    lemma AtWhite(line: seq<char>, found: seq<int>, s: string) returns (next: Scan)
      requires Holds(line, found, s) && i < |s| && White(s[i])
      ensures next.Holds(if inWord then line[i := '\0'] else line, found, s)
      ensures next.i == i + 1 && !next.inWord
    {
      var after := if inWord then line[i := '\0'] else line;
      Kept(line, s, Open(), i + 1);
      if inWord {
        assert line[from..i] == s[from..i] by { Kept(line, s, from, i); }
        PendingWord(s, words, from, i);
        CutWord(line, vec, words, from, i);
        next := Scan(words + [s[from..i]], found, false, i + 1, i + 1);
      } else {
        CutFrame(line, line, vec, words, i + 1);
        next := Scan(words, vec, false, i + 1, i + 1);
      }
      assert after[i + 1..|s|] == line[i + 1..|s|];
      PendingWhite(s, next.words, i);
    }

    /** The end of the line finishes the last word. */
    lemma AtEnd(line: seq<char>, found: seq<int>, s: string)
      requires Holds(line, found, s) && i == |s|
      ensures Cut(line, found, Tokens(s), |s| + 1)
    {
      assert s[|s|..] == "";
      if inWord {
        PendingWord(s, words, from, |s|);
        CutWord(line, vec, words, from, |s|);
        assert line[|s| := '\0'] == line && s[from..|s|] == s[from..];
      } else {
        CutFrame(line, line, vec, words, |s| + 1);
      }
    }

    lemma AtWordChar(line: seq<char>, found: seq<int>, s: string) returns (next: Scan)
      requires Holds(line, found, s) && i < |s| && !White(s[i])
      ensures next.Holds(line, if inWord then found else found + [i], s)
      ensures next.i == i + 1 && next.inWord
    {
      assert Cut(line, vec, words, i + 1);
      next := Scan(words, vec, true, Open(), i + 1);
      assert Pending(s, words, Open(), i + 1);
    }
  }

  class Acav {
    var argv: array<int>

    ghost predicate Valid() reads this { argv.Length >= ACV_ARGC }

    constructor ()
      ensures Valid() && fresh(argv)
    {
      argv := new int[ACV_ARGC];
    }

    /** Writes the next entry and keeps room for one more. */
    method Push(ac: nat, at: int)
      requires Valid() && ac < argv.Length
      modifies this, argv
      ensures Valid() && (argv == old(argv) || fresh(argv))
      ensures ac + 1 < argv.Length && argv[..ac + 1] == old(argv[..ac]) + [at]
    {
      argv[ac] := at;
      if ac + 1 >= argv.Length {
        var bigger := new int[argv.Length + ACV_ARGC];
        forall k | 0 <= k < argv.Length { bigger[k] := argv[k]; }
        argv := bigger;
      }
    }

    /** The switch on one character of the line. */
    method Step(line: array<char>, i: nat, inWord: bool, ac: nat, ghost scan: Scan, ghost s: string)
      returns (inWord': bool, ac': nat, ghost next: Scan)
      requires Valid() && argv as object != line && ac < argv.Length
      requires scan.Holds(line[..], argv[..ac], s) && i == scan.i < |s| && inWord == scan.inWord
      modifies this, argv, line
      ensures Valid() && (argv == old(argv) || fresh(argv)) && ac' < argv.Length
      ensures next.Holds(line[..], argv[..ac'], s) && next.i == i + 1 && next.inWord == inWord'
    {
      ghost var was, found := line[..], argv[..ac];
      inWord', ac' := inWord, ac;
      scan.Ahead(was, found, s);
      if line[i] == ' ' || line[i] == '\t' || line[i] == '\n' {
        next := scan.AtWhite(was, found, s);
        if inWord {
          line[i] := '\0';
          inWord' := false;
          assert line[..] == was[i := '\0'] && argv[..ac] == found;
        }
      } else {
        next := scan.AtWordChar(was, found, s);
        if !inWord {
          Push(ac, i);
          ac' := ac + 1;
          inWord' := true;
          assert line[..] == was;
        }
      }
    }

    /** n is the length of the C string in line. */
    method Parse(line: array<char>, ghost n: nat) returns (ac: nat)
      requires Valid() && argv as object != line
      requires n < line.Length && line[n] == '\0' && '\0' !in line[..n]
      modifies this, argv, line
      ensures Valid() && (argv == old(argv) || fresh(argv))
      ensures ac < argv.Length && argv[ac] == -1
      ensures Cut(line[..], argv[..ac], Tokens(old(line[..n])), n + 1)
    {
      ghost var s := line[..n];
      ghost var scan := Scan([], [], false, 0, 0);
      var inWord := false;
      var i := 0;
      ac := 0;
      while line[i] != '\0'
        invariant Valid() && argv as object != line && (argv == old(argv) || fresh(argv))
        invariant i == scan.i <= n && inWord == scan.inWord && ac < argv.Length
        invariant scan.Holds(line[..], argv[..ac], s)
        decreases n - i
      {
        assert i < n by { assert line[n] == line[..][n]; }
        inWord, ac, scan := Step(line, i, inWord, ac, scan, s);
        i := i + 1;
      }
      scan.Ahead(line[..], argv[..ac], s);
      scan.AtEnd(line[..], argv[..ac], s);
      ghost var cut, found := line[..], argv[..ac];
      argv[ac] := -1;
      assert line[..] == cut && argv[..ac] == found;
    }
  }
}
