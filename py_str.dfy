/**
 * The pieces of Python's str semantics the formatter relies on: slicing with
 * clamped bounds (s[:k], s[i:j], s[-k:]), str.split() with no separator, and
 * str.join.
 */
module PyStr {

  function Min(a: int, b: int): int { if a < b then a else b }

  function Max(a: int, b: int): int { if a < b then b else a }

  /** str.isspace() for one character: the characters str.split() with no separator splits on. */
  predicate IsSpace(c: char) {
    var k := c as int;
    || (0x09 <= k <= 0x0D) || (0x1C <= k <= 0x20) || k == 0x85 || k == 0xA0 || k == 0x1680
    || (0x2000 <= k <= 0x200A) || k == 0x2028 || k == 0x2029 || k == 0x202F || k == 0x205F
    || k == 0x3000
  }

  /** A token str.split() can return: non-empty and free of whitespace. */
  predicate IsWord(w: string) {
    w != [] && forall i | 0 <= i < |w| :: !IsSpace(w[i])
  }

  /** s[:k] for k >= 0: the first k characters, or all of s when it is shorter. */
  function Prefix(s: string, k: nat): (r: string)
    ensures |r| == Min(k, |s|)
    ensures r == s[..|r|]
  {
    if k < |s| then s[..k] else s
  }

  /** s[i:j] for 0 <= i <= j: both bounds are clamped to the length of s. */
  function Slice(s: string, i: nat, j: nat): (r: string)
    requires i <= j
    ensures |r| == Min(j, |s|) - Min(i, |s|)
    ensures forall k | 0 <= k < |r| :: r[k] == s[i + k]
  {
    s[Min(i, |s|)..Min(j, |s|)]
  }

  /** s[-k:] for k > 0: the last k characters, or all of s when it is shorter. */
  function Suffix(s: string, k: nat): (r: string)
    requires k > 0
    ensures |r| == Min(k, |s|)
    ensures r == s[|s| - |r|..]
  {
    if k < |s| then s[|s| - k..] else s
  }

  /** The length of the run of non-whitespace characters that starts s. */
  function WordLength(s: string): (k: nat)
    ensures k <= |s|
    ensures forall i | 0 <= i < k :: !IsSpace(s[i])
    ensures k < |s| ==> IsSpace(s[k])
  {
    if s == [] || IsSpace(s[0]) then 0 else 1 + WordLength(s[1..])
  }

  /** s.split(): the maximal runs of non-whitespace characters of s, in order. */
  function Split(s: string): (r: seq<string>)
    ensures forall i | 0 <= i < |r| :: IsWord(r[i])
    decreases |s|
  {
    if s == [] then []
    else if IsSpace(s[0]) then Split(s[1..])
    else
      var k := WordLength(s);
      [s[..k]] + Split(s[k..])
  }

  /** sep.join(words). */
  function Join(words: seq<string>, sep: string): string
  {
    if words == [] then ""
    else if |words| == 1 then words[0]
    else words[0] + sep + Join(words[1..], sep)
  }

  /** sep.join(words) starts with the first word and ends with the last. */
  lemma {:induction false} JoinEnds(words: seq<string>, sep: string)
    requires words != []
    ensures |words[0]| <= |Join(words, sep)| && Join(words, sep)[..|words[0]|] == words[0]
    ensures var r, last := Join(words, sep), words[|words| - 1];
      |last| <= |r| && r[|r| - |last|..] == last
  {
    if |words| > 1 {
      JoinEnds(words[1..], sep);
    }
  }

  /** The characters of s that are not whitespace, in order. */
  function NonSpace(s: string): string
  {
    if s == [] then "" else (if IsSpace(s[0]) then "" else [s[0]]) + NonSpace(s[1..])
  }

  /** Concatenation of a sequence of strings. */
  function Concat(words: seq<string>): string
  {
    if words == [] then "" else words[0] + Concat(words[1..])
  }

  /** A word followed by whitespace (or nothing) is split off as the first token. */
  lemma SplitWord(w: string, rest: string)
    requires IsWord(w)
    requires rest == [] || IsSpace(rest[0])
    ensures Split(w + rest) == [w] + Split(rest)
  {
    var s := w + rest;
    assert s[0] == w[0];
    var k := WordLength(s);
    assert forall i | 0 <= i < |w| :: s[i] == w[i];
    assert |w| < |s| ==> s[|w|] == rest[0];
    assert k == |w|;
    assert s[..k] == w;
    assert s[k..] == rest;
  }

  /**
   * Splitting undoes joining with single spaces: a sequence of words joined by
   * " " splits back into the same words.
   */
  lemma {:induction false} SplitJoin(words: seq<string>)
    requires forall i | 0 <= i < |words| :: IsWord(words[i])
    ensures Split(Join(words, " ")) == words
  {
    if words == [] {
    } else if |words| == 1 {
      SplitWord(words[0], "");
      assert words[0] + "" == words[0];
    } else {
      var rest := Join(words[1..], " ");
      assert Join(words, " ") == words[0] + (" " + rest);
      SplitWord(words[0], " " + rest);
      assert (" " + rest)[1..] == rest;
      SplitJoin(words[1..]);
    }
  }

  lemma {:induction false} NonSpaceAppend(a: string, b: string)
    ensures NonSpace(a + b) == NonSpace(a) + NonSpace(b)
  {
    if a == [] {
      assert a + b == b;
    } else {
      assert (a + b)[1..] == a[1..] + b;
      NonSpaceAppend(a[1..], b);
    }
  }

  lemma {:induction false} NonSpaceOfWord(w: string)
    requires forall i | 0 <= i < |w| :: !IsSpace(w[i])
    ensures NonSpace(w) == w
  {
    if w != [] {
      NonSpaceOfWord(w[1..]);
    }
  }

  /**
   * str.split() loses only whitespace: the tokens, concatenated, are exactly the
   * non-whitespace characters of s in their original order.
   */
  lemma {:induction false} SplitKeepsCharacters(s: string)
    ensures Concat(Split(s)) == NonSpace(s)
    decreases |s|
  {
    if s == [] {
    } else if IsSpace(s[0]) {
      SplitKeepsCharacters(s[1..]);
    } else {
      var k := WordLength(s);
      assert s == s[..k] + s[k..];
      NonSpaceAppend(s[..k], s[k..]);
      NonSpaceOfWord(s[..k]);
      SplitKeepsCharacters(s[k..]);
      assert Split(s) == [s[..k]] + Split(s[k..]);
    }
  }

  /** The first run of non-whitespace characters of a + t ends inside a when t starts with whitespace. */
  lemma WordLengthAppend(a: string, t: string)
    requires t != [] && IsSpace(t[0])
    ensures WordLength(a + t) == WordLength(a)
  {
    assert forall i | 0 <= i < |a| :: (a + t)[i] == a[i];
    assert (a + t)[|a|] == t[0];
  }

  /**
   * One whitespace character separates tokens and is never part of one: a run
   * of whitespace, however long, splits like a single separator.
   */
  lemma {:induction false} SplitAtSpace(a: string, c: char, b: string)
    requires IsSpace(c)
    ensures Split(a + [c] + b) == Split(a) + Split(b)
    decreases |a|
  {
    var s := a + [c] + b;
    if a == [] {
      assert s[1..] == b;
    } else if IsSpace(a[0]) {
      assert s[1..] == a[1..] + [c] + b;
      SplitAtSpace(a[1..], c, b);
    } else {
      var k := WordLength(a);
      WordLengthAppend(a, [c] + b);
      assert s == a + ([c] + b);
      assert s[..k] == a[..k];
      assert s[k..] == a[k..] + [c] + b;
      SplitAtSpace(a[k..], c, b);
    }
  }

  /** A string made only of whitespace (in particular the empty string) has no tokens. */
  lemma {:induction false} SplitBlank(s: string)
    requires forall i | 0 <= i < |s| :: IsSpace(s[i])
    ensures Split(s) == []
  {
    if s != [] {
      SplitBlank(s[1..]);
    }
  }
}
