/**
 * The parts of Go's `strings` and `unicode` packages that the harness helpers use,
 * over strings viewed as sequences of Unicode scalar values:
 * `unicode.IsSpace`, `strings.TrimSpace`, `strings.Split` with a one-character
 * separator, `strings.SplitN(s, sep, 2)` and, as the inverse of splitting,
 * `strings.Join`.
 */
module Text {

  /**
   * Go's `unicode.IsSpace`: in Latin-1, '\t', '\n', '\v', '\f', '\r', ' ', U+0085
   * and U+00A0; above it, the characters with Unicode's White_Space property.
   */
  predicate IsSpace(c: char) {
    if c <= '\U{00FF}' then
      c == ' ' || ('\t' <= c <= '\r') || c == '\U{0085}' || c == '\U{00A0}'
    else
      || c == '\U{1680}' || ('\U{2000}' <= c <= '\U{200A}') || c == '\U{2028}' || c == '\U{2029}'
      || c == '\U{202F}' || c == '\U{205F}' || c == '\U{3000}'
  }

  predicate AllSpace(s: string) {
    forall i :: 0 <= i < |s| ==> IsSpace(s[i])
  }

  /** Neither the first nor the last character is a space (vacuously true of ""). */
  predicate NoOuterSpace(s: string) {
    |s| == 0 || (!IsSpace(s[0]) && !IsSpace(s[|s| - 1]))
  }

  /**
   * Go's `strings.TrimSpace`: `s` with its leading and trailing spaces removed.
   * TrimSpaceSplits and TrimSpaceUnique show that this is the one way of writing
   * `s` as spaces, a block without outer spaces, and spaces.
   */
  function TrimSpace(s: string): (r: string)
    ensures NoOuterSpace(r)
    ensures |r| <= |s|
    ensures r == [] <==> AllSpace(s)
    decreases |s|
  {
    if |s| > 0 && IsSpace(s[0]) then
      assert forall i :: 0 < i < |s| ==> s[i] == s[1..][i - 1];
      TrimSpace(s[1..])
    else if |s| > 0 && IsSpace(s[|s| - 1]) then
      assert forall i :: 0 <= i < |s| - 1 ==> s[i] == s[..|s| - 1][i];
      TrimSpace(s[..|s| - 1])
    else
      s
  }

  lemma AllSpaceAppend(a: string, b: string)
    requires AllSpace(a) && AllSpace(b)
    ensures AllSpace(a + b)
  {
  }

  /** Once the first character is not a space, TrimSpace only cuts spaces off the end. */
  lemma {:induction false} TrimSpaceEnd(s: string)
    requires |s| == 0 || !IsSpace(s[0])
    ensures var r := TrimSpace(s); r == s[..|r|] && AllSpace(s[|r|..])
    decreases |s|
  {
    if |s| > 0 && IsSpace(s[|s| - 1]) {
      var u := s[..|s| - 1];
      TrimSpaceEnd(u);
      var r := TrimSpace(u);
      assert s[..|r|] == u[..|r|];
      assert s[|r|..] == u[|r|..] + [s[|s| - 1]];
      AllSpaceAppend(u[|r|..], [s[|s| - 1]]);
    }
  }

  /** Where TrimSpace's result starts in its input. */
  lemma {:induction false} TrimSpaceStart(s: string) returns (i: nat)
    ensures var r := TrimSpace(s);
      i <= |s| - |r| && s[i..i + |r|] == r && AllSpace(s[..i]) && AllSpace(s[i + |r|..])
    decreases |s|
  {
    if |s| > 0 && IsSpace(s[0]) {
      var u := s[1..];
      var j := TrimSpaceStart(u);
      var r := TrimSpace(u);
      i := j + 1;
      assert s[i..i + |r|] == u[j..j + |r|];
      assert s[..i] == [s[0]] + u[..j];
      AllSpaceAppend([s[0]], u[..j]);
      assert s[i + |r|..] == u[j + |r|..];
    } else {
      i := 0;
      TrimSpaceEnd(s);
    }
  }

  /** TrimSpace only removes spaces from the two ends. */
  lemma TrimSpaceSplits(s: string)
    ensures var r := TrimSpace(s);
      exists i :: 0 <= i <= |s| - |r| && s[i..i + |r|] == r && AllSpace(s[..i]) && AllSpace(s[i + |r|..])
  {
    var i := TrimSpaceStart(s);
  }

  /** A block without outer spaces followed by spaces trims to the block. */
  lemma {:induction false} TrimSpaceUniqueEnd(s: string, mid: string, post: string)
    requires s == mid + post
    requires AllSpace(post) && NoOuterSpace(mid)
    ensures TrimSpace(s) == mid
    decreases |post|
  {
    if |mid| == 0 {
      assert s == post;
    } else if |post| > 0 {
      assert s[0] == mid[0];
      assert s[|s| - 1] == post[|post| - 1];
      assert s[..|s| - 1] == mid + post[..|post| - 1];
      TrimSpaceUniqueEnd(s[..|s| - 1], mid, post[..|post| - 1]);
    } else {
      assert s == mid;
    }
  }

  /**
   * The decomposition of TrimSpace is unique: whenever `s` is spaces, then a block
   * without outer spaces, then spaces, TrimSpace returns exactly that block.
   */
  lemma {:induction false} TrimSpaceUnique(s: string, pre: string, mid: string, post: string)
    requires s == pre + mid + post
    requires AllSpace(pre) && AllSpace(post) && NoOuterSpace(mid)
    ensures TrimSpace(s) == mid
    decreases |pre|
  {
    if |pre| > 0 {
      assert s[0] == pre[0];
      assert s[1..] == pre[1..] + mid + post;
      TrimSpaceUnique(s[1..], pre[1..], mid, post);
    } else {
      assert s == mid + post;
      TrimSpaceUniqueEnd(s, mid, post);
    }
  }

  /** A string without outer spaces is left alone. */
  lemma TrimmedIsFixed(s: string)
    requires NoOuterSpace(s)
    ensures TrimSpace(s) == s
  {
    assert s == [] + s + [];
    TrimSpaceUnique(s, [], s, []);
  }

  /** Trimming twice is trimming once. */
  lemma TrimSpaceIdempotent(s: string)
    ensures TrimSpace(TrimSpace(s)) == TrimSpace(s)
  {
    TrimmedIsFixed(TrimSpace(s));
  }

  /** Every character TrimSpace keeps comes from its input. */
  lemma TrimSpaceKeepsCharacters(s: string, c: char)
    requires c in TrimSpace(s)
    ensures c in s
  {
    var r := TrimSpace(s);
    var i := TrimSpaceStart(s);
    var k :| 0 <= k < |r| && r[k] == c;
    assert s[i + k] == c;
  }

  /** Number of occurrences of `c` in `s`. */
  function Occurrences(s: string, c: char): (n: nat)
    ensures n == 0 <==> c !in s
    ensures n <= |s|
  {
    if |s| == 0 then 0
    else (if s[0] == c then 1 else 0) + Occurrences(s[1..], c)
  }

  /**
   * Go's `strings.Split(s, string(sep))`: the pieces between occurrences of `sep`,
   * one more piece than there are separators, none containing `sep`.
   */
  function Split(s: string, sep: char): (parts: seq<string>)
    ensures |parts| == Occurrences(s, sep) + 1
    ensures forall i :: 0 <= i < |parts| ==> sep !in parts[i]
    decreases |s|
  {
    if |s| == 0 then [[]]
    else
      var rest := Split(s[1..], sep);
      if s[0] == sep then [[]] + rest else [[s[0]] + rest[0]] + rest[1..]
  }

  /** Go's `strings.Join(parts, string(sep))`. */
  function Join(parts: seq<string>, sep: char): (s: string)
  {
    if |parts| == 0 then []
    else if |parts| == 1 then parts[0]
    else parts[0] + [sep] + Join(parts[1..], sep)
  }

  /** Putting a character in front of the first piece puts it in front of the join. */
  lemma JoinConsFirst(c: char, parts: seq<string>, sep: char)
    requires |parts| >= 1
    ensures Join([[c] + parts[0]] + parts[1..], sep) == [c] + Join(parts, sep)
  {
    var q := [[c] + parts[0]] + parts[1..];
    if |parts| > 1 {
      assert q[1..] == parts[1..];
    }
  }

  /** Joining the pieces of a split gives back the original string. */
  lemma {:induction false} JoinSplit(s: string, sep: char)
    ensures Join(Split(s, sep), sep) == s
    decreases |s|
  {
    if |s| > 0 {
      var rest := Split(s[1..], sep);
      JoinSplit(s[1..], sep);
      if s[0] == sep {
        assert ([[]] + rest)[1..] == rest;
      } else {
        JoinConsFirst(s[0], rest, sep);
      }
    }
  }

  /** A string without the separator is a single piece. */
  lemma {:induction false} SplitWithoutSeparator(s: string, sep: char)
    requires sep !in s
    ensures Split(s, sep) == [s]
    decreases |s|
  {
    if |s| > 0 {
      SplitWithoutSeparator(s[1..], sep);
      assert [s[0]] + s[1..] == s;
    }
  }

  /** Splitting `piece + sep + rest`, with no separator in `piece`, yields `piece` first. */
  lemma {:induction false} SplitAfterPiece(piece: string, sep: char, rest: string)
    requires sep !in piece
    ensures Split(piece + [sep] + rest, sep) == [piece] + Split(rest, sep)
    decreases |piece|
  {
    var s := piece + [sep] + rest;
    if |piece| == 0 {
      assert s == [sep] + rest;
      assert s[1..] == rest;
    } else {
      assert s[1..] == piece[1..] + [sep] + rest;
      SplitAfterPiece(piece[1..], sep, rest);
      assert [piece[0]] + piece[1..] == piece;
    }
  }

  /** Splitting a join of separator-free pieces gives back the pieces. */
  lemma {:induction false} SplitJoin(parts: seq<string>, sep: char)
    requires |parts| >= 1
    requires forall i :: 0 <= i < |parts| ==> sep !in parts[i]
    ensures Split(Join(parts, sep), sep) == parts
    decreases |parts|
  {
    if |parts| == 1 {
      SplitWithoutSeparator(parts[0], sep);
    } else {
      SplitAfterPiece(parts[0], sep, Join(parts[1..], sep));
      SplitJoin(parts[1..], sep);
      assert [parts[0]] + parts[1..] == parts;
    }
  }

  /** Index of the first `c` in `s`, or `|s|` when there is none. */
  function IndexOf(s: string, c: char): (i: nat)
    ensures i <= |s|
    ensures i < |s| ==> s[i] == c
    ensures c !in s[..i]
    ensures i == |s| <==> c !in s
  {
    if |s| == 0 then 0
    else if s[0] == c then 0
    else
      assert s[..1 + IndexOf(s[1..], c)] == [s[0]] + s[1..][..IndexOf(s[1..], c)];
      1 + IndexOf(s[1..], c)
  }

  /**
   * Go's `strings.SplitN(s, string(sep), 2)`: the whole string when `sep` does
   * not occur, otherwise the text before the first `sep` and everything after it.
   */
  function SplitFirst(s: string, sep: char): (parts: seq<string>)
    ensures |parts| == 1 || |parts| == 2
    ensures |parts| == 2 <==> sep in s
    ensures |parts| == 1 ==> parts[0] == s
    ensures |parts| == 2 ==> sep !in parts[0] && parts[0] + [sep] + parts[1] == s
  {
    var i := IndexOf(s, sep);
    if i == |s| then [s]
    else
      assert s[..i] + [sep] + s[i + 1..] == s;
      [s[..i], s[i + 1..]]
  }

  /** The two pieces of SplitFirst are determined by the first separator alone. */
  lemma {:induction false} SplitFirstAt(head: string, sep: char, value: string)
    requires sep !in head
    ensures SplitFirst(head + [sep] + value, sep) == [head, value]
  {
    var s := head + [sep] + value;
    assert s[..|head|] == head;
    assert s[|head|] == sep;
    assert IndexOf(s, sep) == |head|;
    assert s[|head| + 1..] == value;
  }
}
