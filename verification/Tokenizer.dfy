/** libs32/klib.c: the in-place tokenizer for paths and command lines. A string is a buffer with a NUL at the end. */
module Tokenizer {
  import opened Bytes

  /** in_delim, on a delimiter string without its NUL. */
  method InDelim(c: byte, delims: seq<byte>) returns (r: bool)
    requires 0 !in delims
    ensures r <==> c in delims
  {
    var q := 0;
    while q < |delims| && delims[q] != c
      invariant 0 <= q <= |delims|
      invariant forall k | 0 <= k < q :: delims[k] != c
    {
      q := q + 1;
    }
    r := q < |delims|;
  }

  /** Bytes [i, j) of s are a maximal run without delimiters. */
  ghost predicate Run(s: seq<byte>, delims: seq<byte>, i: nat, j: nat) {
    && i < j <= |s|
    && (forall k | i <= k < j :: s[k] !in delims)
    && (i == 0 || s[i - 1] in delims)
    && (j == |s| || s[j] in delims)
  }

  /** The runs that begin before `upto` are exactly the listed ones, in order. */
  ghost predicate AllRuns(s: seq<byte>, delims: seq<byte>, starts: seq<nat>, ends: seq<nat>, upto: nat) {
    && |starts| == |ends|
    && (forall k | 0 <= k < |starts| :: Run(s, delims, starts[k], ends[k]) && ends[k] <= upto)
    && (forall k, m | 0 <= k < m < |starts| :: ends[k] < starts[m])
    && (forall i: nat, j: nat | Run(s, delims, i, j) && i < upto ::
          exists k :: 0 <= k < |starts| && starts[k] == i && ends[k] == j)
  }

  /** The string a pointer into the buffer stands for: the bytes up to the next NUL. */
  function CString(b: seq<byte>, i: nat): seq<byte>
    decreases |b| - i
  {
    if i < |b| && b[i] != 0 then [b[i]] + CString(b, i + 1) else []
  }

  lemma {:induction false} CStringIs(b: seq<byte>, i: nat, j: nat)
    requires i <= j < |b| && b[j] == 0 && forall k | i <= k < j :: b[k] != 0
    ensures CString(b, i) == b[i..j]
    decreases j - i
  {
    if i < j {
      CStringIs(b, i + 1, j);
      assert b[i..j] == [b[i]] + b[i + 1..j];
    }
  }

  /** A run starts where a delimiter or the string's start is followed by another byte; no run starts among
      delimiters. */
  lemma SkipDelimiter(s: seq<byte>, delims: seq<byte>, starts: seq<nat>, ends: seq<nat>, p: nat)
    requires p < |s| && AllRuns(s, delims, starts, ends, p) && s[p] in delims
    ensures AllRuns(s, delims, starts, ends, p + 1)
  {
    forall i: nat, j: nat | Run(s, delims, i, j) && i < p + 1
      ensures exists k :: 0 <= k < |starts| && starts[k] == i && ends[k] == j
    {
      assert s[i] !in delims;
    }
  }

  lemma NewRun(s: seq<byte>, delims: seq<byte>, starts: seq<nat>, ends: seq<nat>, i: nat, j: nat)
    requires AllRuns(s, delims, starts, ends, i) && Run(s, delims, i, j)
    requires forall k | 0 <= k < |ends| :: ends[k] < i
    ensures AllRuns(s, delims, starts + [i], ends + [j], j)
  {
    var starts', ends' := starts + [i], ends + [j];
    forall i': nat, j': nat | Run(s, delims, i', j') && i' < j
      ensures exists k :: 0 <= k < |starts'| && starts'[k] == i' && ends'[k] == j'
    {
      if i' < i {
        var k :| 0 <= k < |starts| && starts[k] == i' && ends[k] == j';
        assert starts'[k] == i' && ends'[k] == j';
      } else {
        RunEnd(s, delims, i, j, j');
        assert starts'[|starts|] == i' && ends'[|starts|] == j';
      }
    }
  }

  lemma RunEnd(s: seq<byte>, delims: seq<byte>, i: nat, j: nat, j': nat)
    requires Run(s, delims, i, j) && Run(s, delims, i, j')
    ensures j == j'
  {
  }

  /** Buffer b is b0 with a NUL at every listed end before p. */
  ghost predicate CutAt(b: seq<byte>, b0: seq<byte>, ends: seq<nat>, p: nat) {
    |b| == |b0| && forall x | 0 <= x < |b| :: b[x] == if x in ends && x < p then 0 else b0[x]
  }

  lemma CutHere(b: seq<byte>, b0: seq<byte>, ends: seq<nat>, p: nat)
    requires CutAt(b, b0, ends, p) && p < |b| && p in ends
    ensures CutAt(b[p := 0], b0, ends, p + 1)
  {
  }

  lemma CutNot(b: seq<byte>, b0: seq<byte>, ends: seq<nat>, p: nat)
    requires CutAt(b, b0, ends, p) && p !in ends
    ensures CutAt(b, b0, ends, p + 1)
  {
  }

  lemma CutLater(b: seq<byte>, b0: seq<byte>, ends: seq<nat>, p: nat, q: nat)
    requires CutAt(b, b0, ends, p) && p <= q && forall x | x in ends :: x < p
    ensures CutAt(b, b0, ends + [q], q)
  {
  }

  lemma CutAll(b: seq<byte>, b0: seq<byte>, ends: seq<nat>, p: nat, len: nat)
    requires CutAt(b, b0, ends, p) && forall x | x in ends :: x <= p && (x < len || x == p)
    requires p in ends && p < len ==> p < |b0| && b0[p] == 0
    ensures |b| == |b0| && forall x | 0 <= x < |b| :: b[x] == if x in ends && x < len then 0 else b0[x]
  {
  }

  /** From p on the buffer still holds the string. */
  lemma StringAt(b: seq<byte>, b0: seq<byte>, ends: seq<nat>, p: nat, s: seq<byte>, q: nat)
    requires CutAt(b, b0, ends, p) && |s| < |b0| && s == b0[..|s|] && b0[|s|] == 0
      && (forall k | 0 <= k < |s| :: s[k] != 0)
    requires p <= q <= |s|
    ensures |b| == |b0| && b[q] == b0[q] && (b[q] != 0 <==> q < |s|) && (q < |s| ==> b[q] == s[q])
  {
  }

  lemma RunsBounds(s: seq<byte>, delims: seq<byte>, starts: seq<nat>, ends: seq<nat>, p: nat)
    requires AllRuns(s, delims, starts, ends, p)
    ensures |starts| == |ends| && forall x | x in ends :: x <= p
    ensures |ends| > 0 ==> ends[|ends| - 1] in ends && Run(s, delims, starts[|ends| - 1], ends[|ends| - 1])
    ensures forall k | 0 <= k < |starts| :: starts[k] < ends[k] <= |s|
  {
    assert |ends| > 0 ==> Run(s, delims, starts[|ends| - 1], ends[|ends| - 1]);
  }

  lemma RunStart(s: seq<byte>, delims: seq<byte>, i: nat, j: nat)
    requires i < j <= |s| && (forall k | i <= k < j :: s[k] !in delims) && (i == 0 || s[i - 1] in delims)
      && (j == |s| || s[j] in delims)
    ensures Run(s, delims, i, j)
  {
  }

  lemma EndOfRun(s: seq<byte>, delims: seq<byte>, i: nat, j: nat)
    requires Run(s, delims, i, j) && j < |s|
    ensures s[j] in delims
  {
  }

  /** The buffer while the string s in it is being cut: b0 is what it was, `p` how far the walk has come. */
  ghost predicate Holds(b: seq<byte>, b0: seq<byte>, s: seq<byte>, ends: seq<nat>, p: nat) {
    && |s| < |b0| && s == b0[..|s|] && b0[|s|] == 0 && (forall k | 0 <= k < |s| :: s[k] != 0)
    && p <= |s| && CutAt(b, b0, ends, p)
  }

  /** `while (in_delim(*p, delims)) ++p;` */
  method SkipDelimiters(buf: array<byte>, delims: seq<byte>, start: nat, ghost b0: seq<byte>, ghost s: seq<byte>,
                        ghost argv: seq<nat>, ghost ends: seq<nat>)
    returns (p: nat)
    requires 0 !in delims && Holds(buf[..], b0, s, ends, start) && AllRuns(s, delims, argv, ends, start)
    requires start < |s| ==> forall x | x in ends :: x < start
    requires start == 0 || start == |s| || s[start - 1] in delims
    ensures start <= p <= |s| && Holds(buf[..], b0, s, ends, p) && AllRuns(s, delims, argv, ends, p)
    ensures p < |s| ==> (forall x | x in ends :: x < p) && (p == 0 || s[p - 1] in delims) && s[p] !in delims
  {
    hide AllRuns, Run, CutAt;
    p := start;
    StringAt(buf[..], b0, ends, p, s, p);
    var d := InDelim(buf[p], delims);
    while d
      invariant start <= p <= |s| && (d <==> b0[p] in delims) && AllRuns(s, delims, argv, ends, p)
        && CutAt(buf[..], b0, ends, p)
      invariant p < |s| ==> forall x | x in ends :: x < p
      invariant p == 0 || p == |s| || s[p - 1] in delims
      decreases |s| - p
    {
      StringAt(buf[..], b0, ends, p, s, p);
      SkipDelimiter(s, delims, argv, ends, p);
      CutNot(buf[..], b0, ends, p);
      p := p + 1;
      StringAt(buf[..], b0, ends, p, s, p);
      d := InDelim(buf[p], delims);
    }
  }

  /** `while (*p && !in_delim(*p, delims)) ++p;` */
  method ScanToken(buf: array<byte>, delims: seq<byte>, start: nat, ghost b0: seq<byte>, ghost s: seq<byte>,
                   ghost argv: seq<nat>, ghost ends: seq<nat>)
    returns (p: nat)
    requires 0 !in delims && Holds(buf[..], b0, s, ends, start) && AllRuns(s, delims, argv, ends, start)
    requires start < |s| && (forall x | x in ends :: x < start) && (start == 0 || s[start - 1] in delims)
      && s[start] !in delims
    ensures start < p <= |s| && Holds(buf[..], b0, s, ends + [p], p)
      && AllRuns(s, delims, argv + [start], ends + [p], p)
  {
    hide AllRuns, Run, CutAt;
    p := start;
    StringAt(buf[..], b0, ends, start, s, p);
    var d := InDelim(buf[p], delims);
    while buf[p] != 0 && !d
      invariant start <= p <= |s| && (d <==> b0[p] in delims) && CutAt(buf[..], b0, ends, start) && |buf[..]| == |b0|
      invariant forall k | start <= k < p :: s[k] !in delims
      decreases |s| - p
    {
      StringAt(buf[..], b0, ends, start, s, p);
      p := p + 1;
      StringAt(buf[..], b0, ends, start, s, p);
      d := InDelim(buf[p], delims);
    }
    StringAt(buf[..], b0, ends, start, s, p);
    RunStart(s, delims, start, p);
    assert forall k | 0 <= k < |ends| :: ends[k] in ends;
    NewRun(s, delims, argv, ends, start, p);
    CutLater(buf[..], b0, ends, start, p);
  }

  /** parse_buf: finds the maximal delimiter-free runs of the string in the buffer, in order, and ends each with a NUL
      in place. Nothing else in the buffer changes. `argv` holds offsets for pointers. `len` may be more or less than
      the string: the search for another run stops at the first run that ends at or behind it, and that run is left as
      it is. `stop` is how far it came. */
  method ParseBuf(buf: array<byte>, len: nat, delims: seq<byte>, ghost n: nat)
      returns (argv: seq<nat>, ghost ends: seq<nat>, ghost stop: nat)
    requires 0 !in delims && n < buf.Length && buf[n] == 0 && (forall k | 0 <= k < n :: buf[k] != 0)
    modifies buf
    ensures AllRuns(old(buf[..n]), delims, argv, ends, stop) && |argv| == |ends|
    ensures stop == n || (len <= stop < n && if ends == [] then stop == 0 else stop == ends[|ends| - 1])
    ensures forall k | 0 <= k < |ends| - 1 :: ends[k] < len
    ensures forall x | 0 <= x < buf.Length :: buf[x] == if x in ends && x < len then 0 else old(buf[x])
    ensures forall k | 0 <= k < |argv| ::
      argv[k] < ends[k] <= n
      && CString(buf[..], argv[k]) == old(buf[..n])[argv[k]..if ends[k] < len then ends[k] else n]
  {
    hide AllRuns, Run, CutAt, CString;
    ghost var s, b0 := buf[..n], buf[..];
    var p := 0;
    argv, ends := [], [];
    NothingYet(s, delims, b0);
    while p < len
      invariant 0 <= p <= n && AllRuns(s, delims, argv, ends, p) && Holds(buf[..], b0, s, ends, p)
      invariant if |argv| == 0 then p == 0 else ends != [] && ends[|ends| - 1] == p
      invariant forall x | x in ends :: x < len || x == p
      decreases n - p, if p < n then 1 else 0
    {
      StringAt(buf[..], b0, ends, p, s, p);
      RunsBounds(s, delims, argv, ends, p);
      if |argv| != 0 && buf[p] != 0 {
        EndOfRun(s, delims, argv[|argv| - 1], p);
        SkipDelimiter(s, delims, argv, ends, p);
        CutHere(buf[..], b0, ends, p);
        ghost var b := buf[..];
        buf[p] := 0;
        assert buf[..] == b[p := 0];
        p := p + 1;
      }
      StringAt(buf[..], b0, ends, p, s, p);
      p := SkipDelimiters(buf, delims, p, b0, s, argv, ends);
      StringAt(buf[..], b0, ends, p, s, p);
      if buf[p] != 0 {
        var start := p;
        p := ScanToken(buf, delims, p, b0, s, argv, ends);
        argv := argv + [start];
        ends := ends + [p];
      } else {
        break;
      }
    }
    stop := p;
    RunsBounds(s, delims, argv, ends, p);
    LastEnds(s, delims, argv, ends, p, len);
    CutAll(buf[..], b0, ends, p, len);
    assert forall x | 0 <= x < buf.Length :: buf[..][x] == buf[x] && b0[x] == old(buf[x]);
    AllTokens(buf[..], s, delims, argv, ends, stop, len);
  }

  lemma AllTokens(b: seq<byte>, s: seq<byte>, delims: seq<byte>, argv: seq<nat>, ends: seq<nat>, stop: nat, len: nat)
    requires AllRuns(s, delims, argv, ends, stop) && |s| < |b| && b[|s|] == 0
    requires forall x | 0 <= x < |s| :: s[x] != 0 && b[x] == if x in ends && x < len then 0 else s[x]
    requires forall x | x in ends :: x < len || x == stop
    ensures |argv| == |ends|
    ensures forall k | 0 <= k < |argv| ::
      argv[k] < ends[k] <= |s| && CString(b, argv[k]) == s[argv[k]..if ends[k] < len then ends[k] else |s|]
  {
    hide AllRuns, Run, CString;
    RunsBounds(s, delims, argv, ends, stop);
    forall k | 0 <= k < |argv|
      ensures CString(b, argv[k]) == s[argv[k]..if ends[k] < len then ends[k] else |s|]
    {
      Token(b, s, delims, argv, ends, k, stop, len);
    }
  }

  /** Only the last run can end where the walk ends. */
  lemma LastEnds(s: seq<byte>, delims: seq<byte>, starts: seq<nat>, ends: seq<nat>, p: nat, len: nat)
    requires AllRuns(s, delims, starts, ends, p) && forall x | x in ends :: x < len || x == p
    ensures forall k | 0 <= k < |ends| - 1 :: ends[k] < len
  {
    forall k | 0 <= k < |ends| - 1
      ensures ends[k] < len
    {
      assert ends[k] in ends;
      assert ends[k] < starts[k + 1] && Run(s, delims, starts[k + 1], ends[k + 1]);
    }
  }

  lemma NothingYet(s: seq<byte>, delims: seq<byte>, b: seq<byte>)
    ensures AllRuns(s, delims, [], [], 0) && CutAt(b, b, [], 0)
  {
  }

  /** A token is the string its pointer stands for; one that was not cut off goes on to the end of the string. */
  lemma Token(b: seq<byte>, s: seq<byte>, delims: seq<byte>, argv: seq<nat>, ends: seq<nat>, k: nat, stop: nat,
              len: nat)
    requires AllRuns(s, delims, argv, ends, stop) && k < |argv| && k < |ends| && argv[k] < ends[k] <= |s| < |b|
      && b[|s|] == 0
    requires forall x | 0 <= x < |s| :: s[x] != 0 && b[x] == if x in ends && x < len then 0 else s[x]
    requires forall x | x in ends :: x < len || x == stop
    requires forall x | x in ends :: x <= stop
    ensures CString(b, argv[k]) == s[argv[k]..if ends[k] < len then ends[k] else |s|]
  {
    hide AllRuns, Run, CString;
    var i, j := argv[k], if ends[k] < len then ends[k] else |s|;
    InsideRun(s, delims, argv, ends, k, stop);
    assert ends[k] in ends;
    CStringIs(b, i, j);
    assert b[i..j] == s[i..j];
  }

  lemma InsideRun(s: seq<byte>, delims: seq<byte>, argv: seq<nat>, ends: seq<nat>, k: nat, upto: nat)
    requires AllRuns(s, delims, argv, ends, upto) && k < |argv| && k < |ends|
    ensures forall x | argv[k] <= x < ends[k] :: x !in ends
  {
    assert Run(s, delims, argv[k], ends[k]);
    forall m | 0 <= m < |ends|
      ensures !(argv[k] <= ends[m] < ends[k])
    {
      assert Run(s, delims, argv[m], ends[m]);
    }
  }

  // ---- the tokens of a string ----

  function Pieces(s: seq<byte>, starts: seq<nat>, ends: seq<nat>): (r: seq<seq<byte>>)
    ensures |r| == |starts|
  {
    seq(|starts|, k requires 0 <= k < |starts| =>
      if k < |ends| && starts[k] <= ends[k] <= |s| then s[starts[k]..ends[k]] else [])
  }

  /** `tokens` are the maximal delimiter-free runs of s, in order. */
  ghost predicate TokensOf(s: seq<byte>, delims: seq<byte>, tokens: seq<seq<byte>>) {
    exists starts, ends :: AllRuns(s, delims, starts, ends, |s|) && tokens == Pieces(s, starts, ends)
  }

  lemma RunAt(s: seq<byte>, delims: seq<byte>, starts: seq<nat>, ends: seq<nat>, k: nat)
    requires AllRuns(s, delims, starts, ends, |s|) && k < |starts|
    ensures |starts| == |ends| && Run(s, delims, starts[k], ends[k]) && starts[k] < ends[k] <= |s|
    ensures forall m | 0 <= m < k :: starts[m] < starts[k]
    ensures forall m | k < m < |starts| :: starts[k] < starts[m]
  {
    forall m | 0 <= m < k ensures starts[m] < starts[k] { assert Run(s, delims, starts[m], ends[m]); }
    assert Run(s, delims, starts[k], ends[k]);
  }

  lemma SameLengths(s: seq<byte>, delims: seq<byte>, starts: seq<nat>, ends: seq<nat>)
    requires AllRuns(s, delims, starts, ends, |s|)
    ensures |starts| == |ends|
  {
  }

  lemma FindRun(s: seq<byte>, delims: seq<byte>, starts: seq<nat>, ends: seq<nat>, i: nat, j: nat) returns (k: nat)
    requires AllRuns(s, delims, starts, ends, |s|) && Run(s, delims, i, j) && i < |s|
    ensures k < |starts| && |starts| == |ends| && starts[k] == i && ends[k] == j
  {
    k :| 0 <= k < |starts| && starts[k] == i && ends[k] == j;
  }

  lemma {:induction false} RunsUnique(s: seq<byte>, delims: seq<byte>, starts: seq<nat>, ends: seq<nat>,
                                      starts': seq<nat>, ends': seq<nat>, k: nat)
    requires AllRuns(s, delims, starts, ends, |s|) && AllRuns(s, delims, starts', ends', |s|) && k <= |starts|
    ensures k <= |starts'| && |starts| == |ends| && |starts'| == |ends'|
    ensures forall m | 0 <= m < k :: starts'[m] == starts[m] && ends'[m] == ends[m]
  {
    hide AllRuns, Run;
    SameLengths(s, delims, starts, ends);
    SameLengths(s, delims, starts', ends');
    if k > 0 {
      RunsUnique(s, delims, starts, ends, starts', ends', k - 1);
      RunAt(s, delims, starts, ends, k - 1);
      var m := FindRun(s, delims, starts', ends', starts[k - 1], ends[k - 1]);
      assert k - 1 <= m;
      RunAt(s, delims, starts', ends', k - 1);
      var m' := FindRun(s, delims, starts, ends, starts'[k - 1], ends'[k - 1]);
      assert k - 1 <= m';
    }
  }

  /** A string has one list of tokens. */
  lemma TokensUnique(s: seq<byte>, delims: seq<byte>, tokens: seq<seq<byte>>, tokens': seq<seq<byte>>)
    requires TokensOf(s, delims, tokens) && TokensOf(s, delims, tokens')
    ensures tokens == tokens'
  {
    hide AllRuns;
    var starts, ends :| AllRuns(s, delims, starts, ends, |s|) && tokens == Pieces(s, starts, ends);
    var starts', ends' :| AllRuns(s, delims, starts', ends', |s|) && tokens' == Pieces(s, starts', ends');
    RunsUnique(s, delims, starts, ends, starts', ends', |starts|);
    RunsUnique(s, delims, starts', ends', starts, ends, |starts'|);
  }

  /** No token is empty, and none holds a delimiter or a NUL. */
  lemma TokensClean(s: seq<byte>, delims: seq<byte>, tokens: seq<seq<byte>>)
    requires TokensOf(s, delims, tokens) && forall k | 0 <= k < |s| :: s[k] != 0
    ensures forall k | 0 <= k < |tokens| ::
      tokens[k] != [] && 0 !in tokens[k] && forall c | c in delims :: c !in tokens[k]
  {
    hide AllRuns;
    var starts, ends :| AllRuns(s, delims, starts, ends, |s|) && tokens == Pieces(s, starts, ends);
    forall k | 0 <= k < |tokens|
      ensures tokens[k] != [] && 0 !in tokens[k] && forall c | c in delims :: c !in tokens[k]
    {
      RunAt(s, delims, starts, ends, k);
    }
  }

  /** Every byte that is no delimiter lies in a token. */
  lemma RunAround(s: seq<byte>, delims: seq<byte>, x: nat) returns (i: nat, j: nat)
    requires x < |s| && s[x] !in delims
    ensures Run(s, delims, i, j) && i <= x < j
  {
    i, j := x, x + 1;
    while i > 0 && s[i - 1] !in delims
      invariant i <= x && forall k | i <= k <= x :: s[k] !in delims
    {
      i := i - 1;
    }
    while j < |s| && s[j] !in delims
      invariant x < j <= |s| && forall k | i <= k < j :: s[k] !in delims
    {
      j := j + 1;
    }
  }

  lemma SomeToken(s: seq<byte>, delims: seq<byte>, tokens: seq<seq<byte>>, x: nat)
    requires TokensOf(s, delims, tokens) && x < |s| && s[x] !in delims
    ensures tokens != []
  {
    var i, j := RunAround(s, delims, x);
    hide AllRuns;
    var starts, ends :| AllRuns(s, delims, starts, ends, |s|) && tokens == Pieces(s, starts, ends);
    var k := FindRun(s, delims, starts, ends, i, j);
  }
}
