/** Byte strings and the parts of Go's `strings`, `path/filepath`, `fmt` and
    `encoding/hex` packages that the webhook service relies on. Go strings are
    byte sequences: `len` counts bytes and slicing cuts bytes, so the model
    works on bytes throughout. */
module Text {

  type byte = b: int | 0 <= b < 256
  type Bytes = seq<byte>

  // ---------------------------------------------------------------------
  // Literals

  /** UTF-8 encoding of one Unicode scalar value. */
  function EncodeChar(c: char): (r: Bytes)
    ensures 1 <= |r| <= 4
    ensures (c as int < 0x80) <==> |r| == 1
    ensures |r| == 1 ==> r[0] == c as int
    ensures |r| > 1 ==> r[0] >= 0xC0 && forall k :: 1 <= k < |r| ==> 0x80 <= r[k] < 0xC0
  {
    var n := c as int;
    if n < 0x80 then [n]
    else if n < 0x800 then [0xC0 + n / 64, 0x80 + n % 64]
    else if n < 0x10000 then [0xE0 + n / 4096, 0x80 + (n / 64) % 64, 0x80 + n % 64]
    else [0xF0 + n / 262144, 0x80 + (n / 4096) % 64, 0x80 + (n / 64) % 64, 0x80 + n % 64]
  }

  /** The UTF-8 bytes of a string literal (how Go stores its string constants). */
  function Str(s: string): Bytes
  {
    if s == [] then [] else EncodeChar(s[0]) + Str(s[1..])
  }

  lemma {:induction false} StrAppend(a: string, b: string)
    ensures Str(a + b) == Str(a) + Str(b)
  {
    if a == [] {
      assert a + b == b;
    } else {
      assert (a + b)[0] == a[0];
      assert (a + b)[1..] == a[1..] + b;
      StrAppend(a[1..], b);
    }
  }

  predicate IsAscii(s: string)
  {
    forall i :: 0 <= i < |s| ==> s[i] as int < 0x80
  }

  /** Bytes of an ASCII literal; one byte per character. */
  function Ascii(s: string): (r: Bytes)
    requires IsAscii(s)
    ensures |r| == |s| && forall i :: 0 <= i < |s| ==> r[i] == s[i] as int
  {
    seq(|s|, i requires 0 <= i < |s| => s[i] as int)
  }

  const Newline: byte := 10
  const Space: byte := 32
  const Slash: byte := 47
  const Colon: byte := 58

  // ---------------------------------------------------------------------
  // Prefixes, suffixes, substrings

  predicate HasPrefix(s: Bytes, p: Bytes)
  {
    |p| <= |s| && s[..|p|] == p
  }

  predicate HasSuffix(s: Bytes, p: Bytes)
  {
    |p| <= |s| && s[|s| - |p|..] == p
  }

  /** A text is the part before position i, the byte there and the part after. */
  lemma Reassemble(s: Bytes, i: nat)
    requires i < |s|
    ensures s == s[..i] + [s[i]] + s[i + 1..]
  {
  }

  /** strings.TrimPrefix */
  function TrimPrefix(s: Bytes, p: Bytes): (r: Bytes)
    ensures HasPrefix(s, p) ==> s == p + r
    ensures !HasPrefix(s, p) ==> r == s
  {
    if HasPrefix(s, p) then s[|p|..] else s
  }

  predicate MatchesAt(s: Bytes, t: Bytes, i: nat)
  {
    i + |t| <= |s| && s[i..i + |t|] == t
  }

  /** strings.Contains */
  predicate Contains(s: Bytes, t: Bytes)
  {
    exists i :: 0 <= i <= |s| && MatchesAt(s, t, i)
  }

  lemma ContainsIntro(s: Bytes, t: Bytes, i: nat)
    requires MatchesAt(s, t, i)
    ensures Contains(s, t)
  {
  }

  /** Every part of a concatenation is contained in it. */
  lemma ContainsConcat(a: Bytes, t: Bytes, b: Bytes)
    ensures Contains(a + t + b, t)
  {
    assert (a + t + b)[|a|..|a| + |t|] == t;
    ContainsIntro(a + t + b, t, |a|);
  }

  /** A four-part concatenation starts with its first part, ends with its last
      and contains the two in between. */
  lemma ConcatParts(a: Bytes, b: Bytes, c: Bytes, d: Bytes)
    ensures HasPrefix(a + b + c + d, a) && HasSuffix(a + b + c + d, d)
    ensures Contains(a + b + c + d, b) && Contains(a + b + c + d, c)
  {
    var s := a + b + c + d;
    assert s[..|a|] == a;
    assert s[|s| - |d|..] == d;
    ContainsConcat(a, b, c + d);
    assert a + b + (c + d) == s;
    ContainsConcat(a + b, c, d);
  }

  /** Containment is transitive. */
  lemma ContainsTransitive(s: Bytes, t: Bytes, u: Bytes)
    requires Contains(s, t) && Contains(t, u)
    ensures Contains(s, u)
  {
    var i :| 0 <= i <= |s| && MatchesAt(s, t, i);
    var j :| 0 <= j <= |t| && MatchesAt(t, u, j);
    assert forall k :: 0 <= k < |u| ==> s[i + j + k] == t[j + k] == u[k];
    assert s[i + j..i + j + |u|] == u;
    ContainsIntro(s, u, i + j);
  }

  lemma ContainsByte(s: Bytes, b: byte)
    ensures Contains(s, [b]) <==> b in s
  {
    if b in s {
      var i :| 0 <= i < |s| && s[i] == b;
      assert s[i..i + 1] == [b];
      ContainsIntro(s, [b], i);
    }
    if Contains(s, [b]) {
      var i :| 0 <= i <= |s| && MatchesAt(s, [b], i);
      assert s[i] == s[i..i + 1][0];
    }
  }

  /** strings.Index: the first occurrence of t in s, or -1. */
  function Index(s: Bytes, t: Bytes): (i: int)
    ensures -1 <= i <= |s|
    ensures i >= 0 ==> MatchesAt(s, t, i) && forall k :: 0 <= k < i ==> !MatchesAt(s, t, k)
    ensures i < 0 ==> !Contains(s, t)
    decreases |s|
  {
    if |t| > |s| then -1
    else if s[..|t|] == t then 0
    else
      var j := Index(s[1..], t);
      if j < 0 then
        assert forall k :: 1 <= k <= |s| && MatchesAt(s, t, k) ==> MatchesAt(s[1..], t, k - 1);
        -1
      else
        assert forall k :: 1 <= k < j + 1 && MatchesAt(s, t, k) ==> MatchesAt(s[1..], t, k - 1);
        assert s[1..][j..j + |t|] == s[j + 1..j + 1 + |t|];
        j + 1
  }

  /** strings.IndexByte: the first position of b in s, or -1. */
  function IndexByte(s: Bytes, b: byte): (i: int)
    ensures -1 <= i < |s|
    ensures i >= 0 ==> s[i] == b && b !in s[..i]
    ensures i < 0 <==> b !in s
  {
    if s == [] then -1
    else if s[0] == b then 0
    else
      var j := IndexByte(s[1..], b);
      if j < 0 then -1
      else
        assert s[..j + 1] == [s[0]] + s[1..][..j];
        j + 1
  }

  /** The first occurrence of b is found where it is. */
  lemma {:induction false} IndexByteAt(s: Bytes, b: byte, i: nat)
    requires i < |s| && s[i] == b && b !in s[..i]
    ensures IndexByte(s, b) == i
  {
    if i > 0 {
      assert s[0] == s[..i][0];
      assert s[1..][..i - 1] == s[..i][1..];
      IndexByteAt(s[1..], b, i - 1);
    }
  }

  /** strings.LastIndexByte: the last position of b in s, or -1. */
  function LastIndexByte(s: Bytes, b: byte): (i: int)
    ensures -1 <= i < |s|
    ensures i >= 0 ==> s[i] == b && b !in s[i + 1..]
    ensures i < 0 <==> b !in s
  {
    if s == [] then -1
    else if s[|s| - 1] == b then |s| - 1
    else
      var j := LastIndexByte(s[..|s| - 1], b);
      if j >= 0 then
        assert s[j + 1..] == s[..|s| - 1][j + 1..] + [s[|s| - 1]];
        j
      else
        assert s == s[..|s| - 1] + [s[|s| - 1]];
        -1
  }

  /** The last occurrence of b is found where it is. */
  lemma {:induction false} LastIndexByteAt(s: Bytes, b: byte, j: nat)
    requires j < |s| && s[j] == b && b !in s[j + 1..]
    ensures LastIndexByte(s, b) == j
  {
    if j < |s| - 1 {
      var t := s[..|s| - 1];
      assert s[|s| - 1] == s[j + 1..][|s| - 2 - j];
      assert t[j + 1..] == s[j + 1..|s| - 1];
      LastIndexByteAt(t, b, j);
    }
  }

  // ---------------------------------------------------------------------
  // Whitespace

  /** unicode.IsSpace restricted to ASCII: '\t', '\n', '\v', '\f', '\r', ' '. */
  predicate IsSpace(b: byte)
  {
    b == 32 || 9 <= b <= 13
  }

  /** strings.TrimLeft with unicode.IsSpace */
  function TrimLeftSpace(s: Bytes): (r: Bytes)
    ensures |r| <= |s| && r == s[|s| - |r|..]
    ensures r == [] || !IsSpace(r[0])
  {
    if s != [] && IsSpace(s[0]) then TrimLeftSpace(s[1..]) else s
  }

  /** What TrimLeft cuts off is white space. */
  lemma {:induction false} TrimLeftCut(s: Bytes)
    ensures forall i :: 0 <= i < |s| - |TrimLeftSpace(s)| ==> IsSpace(s[i])
  {
    if s != [] && IsSpace(s[0]) {
      TrimLeftCut(s[1..]);
      assert forall i :: 1 <= i < |s| ==> s[i] == s[1..][i - 1];
    }
  }

  /** strings.TrimRight with unicode.IsSpace */
  function TrimRightSpace(s: Bytes): (r: Bytes)
    ensures |r| <= |s| && r == s[..|r|]
    ensures r == [] || !IsSpace(r[|r| - 1])
  {
    if s != [] && IsSpace(s[|s| - 1]) then TrimRightSpace(s[..|s| - 1]) else s
  }

  /** What TrimRight cuts off is white space. */
  lemma {:induction false} TrimRightCut(s: Bytes)
    ensures forall i :: |TrimRightSpace(s)| <= i < |s| ==> IsSpace(s[i])
  {
    if s != [] && IsSpace(s[|s| - 1]) {
      TrimRightCut(s[..|s| - 1]);
      assert forall i :: 0 <= i < |s| - 1 ==> s[i] == s[..|s| - 1][i];
    }
  }

  predicate Trimmed(s: Bytes)
  {
    s == [] || (!IsSpace(s[0]) && !IsSpace(s[|s| - 1]))
  }

  /** strings.TrimSpace: the longest slice of s that starts and ends with a
      non-space byte; everything cut off is white space. */
  function TrimSpace(s: Bytes): (r: Bytes)
    ensures Trimmed(r) && |r| <= |s|
  {
    TrimRightSpace(TrimLeftSpace(s))
  }

  /** What TrimSpace cuts off on either side is white space. */
  lemma TrimSpaceSlice(s: Bytes)
    ensures exists i, j :: 0 <= i <= j <= |s| && TrimSpace(s) == s[i..j] &&
                           (forall k :: 0 <= k < i ==> IsSpace(s[k])) &&
                           (forall k :: j <= k < |s| ==> IsSpace(s[k]))
  {
    var l := TrimLeftSpace(s);
    var r := TrimRightSpace(l);
    var i := |s| - |l|;
    var j := i + |r|;
    TrimLeftCut(s);
    TrimRightCut(l);
    assert l == s[i..] && r == l[..|r|];
    SliceOfSlice(s, i, |r|);
    assert forall k :: j <= k < |s| ==> s[k] == l[k - i];
    assert TrimSpace(s) == s[i..j];
  }

  lemma SliceOfSlice(s: Bytes, i: nat, n: nat)
    requires i + n <= |s|
    ensures s[i..][..n] == s[i..i + n]
  {
  }

  lemma TrimmedFixpoint(s: Bytes)
    requires Trimmed(s)
    ensures TrimSpace(s) == s
  {
  }

  /** TrimSpace is idempotent. */
  lemma TrimSpaceIdempotent(s: Bytes)
    ensures TrimSpace(TrimSpace(s)) == TrimSpace(s)
  {
    TrimmedFixpoint(TrimSpace(s));
  }

  /** Cutting off leading white space does not change what TrimLeft keeps. */
  lemma {:induction false} TrimLeftDropLeading(s: Bytes, k: nat)
    requires k <= |s| && forall i :: 0 <= i < k ==> IsSpace(s[i])
    ensures TrimLeftSpace(s[k..]) == TrimLeftSpace(s)
  {
    if k == 0 {
      assert s[k..] == s;
    } else {
      var t := s[1..];
      assert IsSpace(s[0]) && TrimLeftSpace(s) == TrimLeftSpace(t);
      assert forall i :: 0 <= i < k - 1 ==> t[i] == s[i + 1];
      TrimLeftDropLeading(t, k - 1);
      assert t[k - 1..] == s[k..];
    }
  }

  /** Cutting off leading white space does not change what TrimSpace keeps. */
  lemma TrimSpaceDropLeading(s: Bytes, k: nat)
    requires k <= |s| && forall i :: 0 <= i < k ==> IsSpace(s[i])
    ensures TrimSpace(s[k..]) == TrimSpace(s)
  {
    TrimLeftDropLeading(s, k);
  }

  /** A string made only of white space trims to the empty string, and only such a string does. */
  lemma TrimSpaceEmpty(s: Bytes)
    ensures TrimSpace(s) == [] <==> forall k :: 0 <= k < |s| ==> IsSpace(s[k])
  {
    if forall k :: 0 <= k < |s| ==> IsSpace(s[k]) {
      TrimLeftAllSpace(s);
    } else {
      TrimSpaceSlice(s);
    }
  }

  lemma {:induction false} TrimLeftAllSpace(s: Bytes)
    requires forall k :: 0 <= k < |s| ==> IsSpace(s[k])
    ensures TrimLeftSpace(s) == []
  {
    if s != [] {
      assert forall k :: 0 <= k < |s| - 1 ==> s[1..][k] == s[k + 1];
      TrimLeftAllSpace(s[1..]);
    }
  }

  // ---------------------------------------------------------------------
  // Case

  /** ASCII lower-casing (strings.ToLower on ASCII text). */
  function ToLower(s: Bytes): (r: Bytes)
    ensures |r| == |s|
    ensures forall i :: 0 <= i < |s| ==> r[i] == (if 65 <= s[i] <= 90 then s[i] + 32 else s[i])
  {
    seq(|s|, i requires 0 <= i < |s| => if 65 <= s[i] <= 90 then s[i] + 32 else s[i])
  }

  // ---------------------------------------------------------------------
  // Splitting and joining

  /** strings.Join with a one-byte separator. */
  function Join(parts: seq<Bytes>, sep: byte): Bytes
  {
    if |parts| == 0 then []
    else if |parts| == 1 then parts[0]
    else parts[0] + [sep] + Join(parts[1..], sep)
  }

  /** strings.Split with a one-byte separator: the maximal pieces between
      separators, at least one (Split of "" is [""]). */
  function Split(s: Bytes, sep: byte): (parts: seq<Bytes>)
    ensures |parts| >= 1
    decreases |s|
  {
    var i := IndexByte(s, sep);
    if i < 0 then [s]
    else
      var rest := Split(s[i + 1..], sep);
      [s[..i]] + rest
  }

  /** No piece of a split holds the separator. */
  lemma {:induction false} SplitPieces(s: Bytes, sep: byte)
    ensures forall k :: 0 <= k < |Split(s, sep)| ==> sep !in Split(s, sep)[k]
    decreases |s|
  {
    var i := IndexByte(s, sep);
    if i >= 0 {
      var rest := Split(s[i + 1..], sep);
      SplitPieces(s[i + 1..], sep);
      assert forall k :: 1 <= k < |[s[..i]] + rest| ==> ([s[..i]] + rest)[k] == rest[k - 1];
    }
  }

  /** Joining a piece in front of others puts one separator between. */
  lemma JoinCons(head: Bytes, rest: seq<Bytes>, sep: byte)
    requires rest != []
    ensures Join([head] + rest, sep) == head + [sep] + Join(rest, sep)
  {
    assert ([head] + rest)[1..] == rest;
  }

  /** Joining the pieces of a split gives back the text. */
  lemma {:induction false} JoinSplit(s: Bytes, sep: byte)
    ensures Join(Split(s, sep), sep) == s
    decreases |s|
  {
    var i := IndexByte(s, sep);
    if i >= 0 {
      var head, tail := s[..i], s[i + 1..];
      var rest := Split(tail, sep);
      JoinSplit(tail, sep);
      JoinCons(head, rest, sep);
      Reassemble(s, i);
      calc {
        Join(Split(s, sep), sep);
        Join([head] + rest, sep);
        head + [sep] + Join(rest, sep);
        head + [sep] + tail;
        s;
      }
    }
  }

  /** Splitting is the inverse of joining pieces that do not hold the separator. */
  lemma {:induction false} SplitJoin(parts: seq<Bytes>, sep: byte)
    requires |parts| >= 1
    requires forall k :: 0 <= k < |parts| ==> sep !in parts[k]
    ensures Split(Join(parts, sep), sep) == parts
  {
    if |parts| == 1 {
      assert IndexByte(parts[0], sep) < 0;
    } else {
      var p0, tail := parts[0], parts[1..];
      SplitCons(p0, Join(tail, sep), sep);
      assert forall k :: 0 <= k < |tail| ==> tail[k] == parts[k + 1];
      SplitJoin(tail, sep);
      assert [p0] + tail == parts;
    }
  }

  /** A piece without the separator, then the separator, splits off first. */
  lemma SplitCons(head: Bytes, rest: Bytes, sep: byte)
    requires sep !in head
    ensures Split(head + [sep] + rest, sep) == [head] + Split(rest, sep)
  {
    var s := head + [sep] + rest;
    assert s[..|head|] == head && s[|head|] == sep && s[|head| + 1..] == rest;
    IndexByteAt(s, sep, |head|);
  }

  /** A text without the separator is one piece. */
  lemma SplitNoSep(s: Bytes, sep: byte)
    requires sep !in s
    ensures Split(s, sep) == [s]
  {
  }

  /** Joining two non-empty lists of pieces puts one separator between their joins. */
  lemma {:induction false} JoinAppend(p: seq<Bytes>, q: seq<Bytes>, sep: byte)
    requires |p| >= 1 && |q| >= 1
    ensures Join(p + q, sep) == Join(p, sep) + [sep] + Join(q, sep)
    decreases |p|
  {
    assert (p + q)[0] == p[0] && (p + q)[1..] == p[1..] + q;
    JoinCons(p[0], p[1..] + q, sep);
    if |p| > 1 {
      JoinAppend(p[1..], q, sep);
      JoinCons(p[0], p[1..], sep);
      assert [p[0]] + p[1..] == p;
    }
  }

  /** Splitting at a separator splits both sides independently. */
  lemma SplitConcat(x: Bytes, y: Bytes, sep: byte)
    ensures Split(x + [sep] + y, sep) == Split(x, sep) + Split(y, sep)
  {
    var parts := Split(x, sep) + Split(y, sep);
    SplitPieces(x, sep);
    SplitPieces(y, sep);
    assert forall k :: 0 <= k < |parts| ==> sep !in parts[k] by {
      forall k | 0 <= k < |parts|
        ensures sep !in parts[k]
      {
        if k >= |Split(x, sep)| {
          assert parts[k] == Split(y, sep)[k - |Split(x, sep)|];
        }
      }
    }
    JoinAppend(Split(x, sep), Split(y, sep), sep);
    JoinSplit(x, sep);
    JoinSplit(y, sep);
    SplitJoin(parts, sep);
  }

  /** A separator-free piece between separators splits off as it is. */
  lemma SplitOnePiece(a: Bytes, e: Bytes, b: Bytes, sep: byte)
    requires sep !in e
    ensures Split(a + [sep] + (e + [sep] + b), sep) == Split(a, sep) + ([e] + Split(b, sep))
  {
    SplitCons(e, b, sep);
    SplitConcat(a, e + [sep] + b, sep);
  }

  /** Two separator-free pieces between separators split off as they are. */
  lemma SplitTwoPieces(a: Bytes, e: Bytes, f: Bytes, b: Bytes, sep: byte)
    requires sep !in e && sep !in f
    ensures Split(a + [sep] + (e + [sep] + (f + [sep] + b)), sep) == Split(a, sep) + ([e] + ([f] + Split(b, sep)))
  {
    SplitCons(f, b, sep);
    SplitCons(e, f + [sep] + b, sep);
    SplitConcat(a, e + [sep] + (f + [sep] + b), sep);
  }

  /** A join contains all its pieces. */
  lemma JoinContainsAll(parts: seq<Bytes>, sep: byte)
    ensures forall k :: 0 <= k < |parts| ==> Contains(Join(parts, sep), parts[k])
  {
    forall k | 0 <= k < |parts|
      ensures Contains(Join(parts, sep), parts[k])
    {
      JoinContains(parts, sep, k);
    }
  }

  /** Each piece of a join is contained in it. */
  lemma {:induction false} JoinContains(parts: seq<Bytes>, sep: byte, k: nat)
    requires k < |parts|
    ensures Contains(Join(parts, sep), parts[k])
  {
    if |parts| == 1 {
      ContainsConcat([], parts[0], []);
      assert [] + parts[0] + [] == parts[0];
    } else if k == 0 {
      ContainsConcat([], parts[0], [sep] + Join(parts[1..], sep));
      assert [] + parts[0] + ([sep] + Join(parts[1..], sep)) == Join(parts, sep);
    } else {
      JoinContains(parts[1..], sep, k - 1);
      var j := Join(parts[1..], sep);
      ContainsConcat(parts[0] + [sep], j, []);
      assert parts[0] + [sep] + j + [] == Join(parts, sep);
      ContainsTransitive(Join(parts, sep), j, parts[k]);
    }
  }

  /** What is contained in a contained text is contained in the outer one. */
  lemma ContainsEach(s: Bytes, t: Bytes, parts: seq<Bytes>)
    requires Contains(s, t) && forall k :: 0 <= k < |parts| ==> Contains(t, parts[k])
    ensures forall k :: 0 <= k < |parts| ==> Contains(s, parts[k])
  {
    forall k | 0 <= k < |parts|
      ensures Contains(s, parts[k])
    {
      ContainsTransitive(s, t, parts[k]);
    }
  }

  /** strings.Join with a separator of any length. */
  function JoinWith(parts: seq<Bytes>, sep: Bytes): Bytes
  {
    if |parts| == 0 then []
    else if |parts| == 1 then parts[0]
    else parts[0] + sep + JoinWith(parts[1..], sep)
  }

  /** Each piece of a join is contained in it. */
  lemma {:induction false} JoinWithContains(parts: seq<Bytes>, sep: Bytes, k: nat)
    requires k < |parts|
    ensures Contains(JoinWith(parts, sep), parts[k])
  {
    var s := JoinWith(parts, sep);
    if |parts| == 1 {
      assert s[0..|parts[0]|] == parts[0];
      ContainsIntro(s, parts[0], 0);
    } else {
      var j := JoinWith(parts[1..], sep);
      assert s == (parts[0] + sep) + j;
      if k == 0 {
        assert s[0..|parts[0]|] == parts[0];
        ContainsIntro(s, parts[0], 0);
      } else {
        JoinWithContains(parts[1..], sep, k - 1);
        assert s[|parts[0] + sep|..|parts[0] + sep| + |j|] == j;
        ContainsIntro(s, j, |parts[0] + sep|);
        ContainsTransitive(s, j, parts[k]);
      }
    }
  }

  // ---------------------------------------------------------------------
  // Replacing

  /** strings.ReplaceAll(s, p, ""): removes the non-overlapping occurrences of p,
      scanning left to right. */
  function RemoveAll(s: Bytes, p: Bytes): (r: Bytes)
    requires p != []
    ensures |r| <= |s|
    decreases |s|
  {
    if |s| < |p| then s
    else if s[..|p|] == p then RemoveAll(s[|p|..], p)
    else [s[0]] + RemoveAll(s[1..], p)
  }

  lemma {:induction false} RemoveAllAbsent(s: Bytes, p: Bytes)
    requires p != [] && !Contains(s, p)
    ensures RemoveAll(s, p) == s
    decreases |s|
  {
    if |s| >= |p| {
      assert !MatchesAt(s, p, 0);
      if !Contains(s[1..], p) {
        RemoveAllAbsent(s[1..], p);
      } else {
        var i :| 0 <= i <= |s[1..]| && MatchesAt(s[1..], p, i);
        assert s[i + 1..i + 1 + |p|] == s[1..][i..i + |p|];
        ContainsIntro(s, p, i + 1);
      }
    }
  }

  // ---------------------------------------------------------------------
  // Numbers

  predicate IsDigit(b: byte)
  {
    48 <= b <= 57
  }

  function Digits(n: nat): (r: Bytes)
    ensures r != [] && forall k :: 0 <= k < |r| ==> IsDigit(r[k])
  {
    if n < 10 then [48 + n] else Digits(n / 10) + [48 + n % 10]
  }

  /** fmt's %d: decimal digits with a leading '-' for negative numbers. */
  function Decimal(n: int): (r: Bytes)
    ensures r != []
    ensures n >= 0 ==> forall k :: 0 <= k < |r| ==> IsDigit(r[k])
    ensures n < 0 ==> r[0] == 45 && forall k :: 1 <= k < |r| ==> IsDigit(r[k])
  {
    if n < 0 then [45] + Digits(-n) else Digits(n)
  }

  /** Reading back the digits of a natural number. */
  function ParseDigits(s: Bytes): nat
    requires forall k :: 0 <= k < |s| ==> IsDigit(s[k])
  {
    if s == [] then 0 else assert IsDigit(s[|s| - 1]); ParseDigits(s[..|s| - 1]) * 10 + (s[|s| - 1] as int - 48)
  }

  lemma {:induction false} DigitsRoundTrip(n: nat)
    ensures ParseDigits(Digits(n)) == n
  {
    if n >= 10 {
      var d := Digits(n);
      assert d[..|d| - 1] == Digits(n / 10);
      DigitsRoundTrip(n / 10);
    }
  }

  // ---------------------------------------------------------------------
  // Hexadecimal (encoding/hex)

  function HexDigit(v: int): (b: byte)
    requires 0 <= v < 16
  {
    if v < 10 then 48 + v else 87 + v
  }

  /** hex.EncodeToString: two lower-case digits per byte. */
  function HexEncode(d: Bytes): (r: Bytes)
    ensures |r| == 2 * |d|
  {
    if d == [] then [] else [HexDigit(d[0] / 16), HexDigit(d[0] % 16)] + HexEncode(d[1..])
  }

  /** The value of one hexadecimal digit, either case. */
  function HexValue(b: byte): (v: int)
    ensures -1 <= v < 16
  {
    if 48 <= b <= 57 then b - 48
    else if 97 <= b <= 102 then b - 87
    else if 65 <= b <= 70 then b - 55
    else -1
  }

  /** hex.DecodeString: fails on an odd length or a non-hex byte. */
  function HexDecode(s: Bytes): (r: Option<Bytes>)
    ensures r.Some? ==> 2 * |r.value| == |s|
    decreases |s|
  {
    if s == [] then Some([])
    else if |s| == 1 then None
    else
      var hi := HexValue(s[0]);
      var lo := HexValue(s[1]);
      if hi < 0 || lo < 0 then None
      else match HexDecode(s[2..])
        case None => None
        case Some(rest) => Some([hi * 16 + lo] + rest)
  }

  /** Decoding undoes encoding. */
  lemma {:induction false} HexRoundTrip(d: Bytes)
    ensures HexDecode(HexEncode(d)) == Some(d)
  {
    if d != [] {
      var e := HexEncode(d);
      assert e[2..] == HexEncode(d[1..]);
      HexRoundTrip(d[1..]);
      assert [d[0] / 16 * 16 + d[0] % 16] + d[1..] == d;
    }
  }

  /** No byte of s is an upper-case hexadecimal letter 'A'..'F'. */
  predicate NoUpperHex(s: Bytes)
  {
    forall k :: 0 <= k < |s| ==> !(65 <= s[k] <= 70)
  }

  /** A decodable text without upper-case digits is the encoding of what it
      decodes to. */
  lemma {:induction false} HexDecodeLower(s: Bytes)
    requires HexDecode(s).Some? && NoUpperHex(s)
    ensures HexEncode(HexDecode(s).value) == s
    decreases |s|
  {
    if s != [] {
      var hi, lo := HexValue(s[0]), HexValue(s[1]);
      var rest := HexDecode(s[2..]).value;
      var d := HexDecode(s).value;
      assert d == [hi * 16 + lo] + rest;
      SplitByte(hi, lo);
      HexDigitValue(s[0]);
      HexDigitValue(s[1]);
      assert d[1..] == rest;
      HexDecodeLower(s[2..]);
      assert s == [s[0], s[1]] + s[2..];
    }
  }

  /** A byte's two hexadecimal digits. */
  lemma SplitByte(hi: int, lo: int)
    requires 0 <= hi < 16 && 0 <= lo < 16
    ensures (hi * 16 + lo) / 16 == hi && (hi * 16 + lo) % 16 == lo
  {
  }

  /** A lower-case digit is written back as itself. */
  lemma HexDigitValue(b: byte)
    requires HexValue(b) >= 0 && !(65 <= b <= 70)
    ensures HexDigit(HexValue(b)) == b
  {
  }

  datatype Option<+T> = None | Some(value: T)
}
