/**
  The few operations on Rust's `str` that the bot's parsers use, on strings as
  sequences of Unicode scalar values: `char::is_whitespace`, `trim`,
  `trim_start_matches`, `starts_with`,
  `split(char)` and `split_whitespace`.
 */
module RustStr {

  /** Rust's `char::is_whitespace`: the Unicode White_Space property. */
  predicate IsWhitespace(c: char) {
    var n := c as int;
    n == 0x20 || 0x09 <= n <= 0x0D || n == 0x85 || n == 0xA0 || n == 0x1680
    || 0x2000 <= n <= 0x200A || n == 0x2028 || n == 0x2029 || n == 0x202F
    || n == 0x205F || n == 0x3000
  }

  predicate AllWhitespace(s: string) {
    forall i :: 0 <= i < |s| ==> IsWhitespace(s[i])
  }

  predicate NoWhitespace(s: string) {
    forall i :: 0 <= i < |s| ==> !IsWhitespace(s[i])
  }

  /** `starts_with`: `p` is a prefix of `s`. */
  predicate StartsWith(s: string, p: string) {
    |p| <= |s| && s[..|p|] == p
  }

  /** Neither the first nor the last character is whitespace. */
  predicate NoOuterWhitespace(s: string) {
    s == [] || (!IsWhitespace(s[0]) && !IsWhitespace(s[|s| - 1]))
  }

  /** `trim_start`: drops the longest all-whitespace prefix. */
  function TrimStart(s: string): (r: string)
    ensures |r| <= |s|
    ensures r == [] || !IsWhitespace(r[0])
  {
    if s != [] && IsWhitespace(s[0]) then TrimStart(s[1..]) else s
  }

  /** What `trim_start` drops is a whitespace prefix; what it keeps is the rest. */
  lemma {:induction false} TrimStartSplits(s: string)
    ensures TrimStart(s) == s[|s| - |TrimStart(s)|..]
    ensures AllWhitespace(s[..|s| - |TrimStart(s)|])
  {
    if s != [] && IsWhitespace(s[0]) {
      TrimStartSplits(s[1..]);
      var k := |s| - |TrimStart(s)|;
      assert s[..k] == [s[0]] + s[1..][..k - 1];
    }
  }

  /** `trim_end`: drops the longest all-whitespace suffix. */
  function TrimEnd(s: string): (r: string)
    ensures |r| <= |s|
    ensures r == [] || !IsWhitespace(r[|r| - 1])
  {
    if s != [] && IsWhitespace(s[|s| - 1]) then TrimEnd(s[..|s| - 1]) else s
  }

  /** What `trim_end` keeps is a prefix; what it drops is a whitespace suffix. */
  lemma {:induction false} TrimEndSplits(s: string)
    ensures TrimEnd(s) == s[..|TrimEnd(s)|]
    ensures AllWhitespace(s[|TrimEnd(s)|..])
  {
    if s != [] && IsWhitespace(s[|s| - 1]) {
      var p := s[..|s| - 1];
      TrimEndSplits(p);
      var k := |TrimEnd(s)|;
      assert s[k..] == p[k..] + [s[|s| - 1]];
    }
  }

  /** `trim`: whitespace removed from both ends. */
  function Trim(s: string): (r: string)
    ensures |r| <= |s|
    ensures NoOuterWhitespace(r)
  {
    TrimFacts(s);
    TrimEnd(TrimStart(s))
  }

  /** `trim` leaves nothing exactly when `s` is all whitespace. */
  lemma TrimEmpty(s: string)
    ensures Trim(s) == [] <==> AllWhitespace(s)
  {
    TrimFacts(s);
  }

  lemma TrimFacts(s: string)
    ensures NoOuterWhitespace(TrimEnd(TrimStart(s)))
    ensures TrimEnd(TrimStart(s)) == [] <==> AllWhitespace(s)
  {
    var t := TrimStart(s);
    var r := TrimEnd(t);
    TrimStartSplits(s);
    TrimEndSplits(t);
    if r != [] {
      assert r[0] == t[0];
    }
    if r == [] {
      assert t == [];
      assert s[..|s| - |t|] == s;
    }
    if t != [] {
      assert t[0] == s[|s| - |t|];
    }
  }

  /** `trim_start` removes exactly a whitespace padding that precedes a non-whitespace character. */
  lemma {:induction false} TrimStartPadded(pre: string, rest: string)
    requires AllWhitespace(pre) && (rest == [] || !IsWhitespace(rest[0]))
    ensures TrimStart(pre + rest) == rest
  {
    if pre != [] {
      assert (pre + rest)[1..] == pre[1..] + rest;
      TrimStartPadded(pre[1..], rest);
    } else {
      assert pre + rest == rest;
    }
  }

  /** `trim_end` removes exactly a whitespace padding that follows a non-whitespace character. */
  lemma {:induction false} TrimEndPadded(rest: string, post: string)
    requires AllWhitespace(post) && (rest == [] || !IsWhitespace(rest[|rest| - 1]))
    ensures TrimEnd(rest + post) == rest
  {
    if post != [] {
      var p := post[..|post| - 1];
      assert (rest + post)[..|rest + post| - 1] == rest + p;
      TrimEndPadded(rest, p);
    } else {
      assert rest + post == rest;
    }
  }

  /** `trim` finds the text between any whitespace padding, so it undoes padding exactly. */
  lemma TrimPadded(pre: string, core: string, post: string)
    requires AllWhitespace(pre) && AllWhitespace(post) && NoOuterWhitespace(core)
    ensures Trim(pre + core + post) == core
  {
    var s := pre + core + post;
    if core == [] {
      assert s == pre + post;
      assert AllWhitespace(s) by {
        forall i | 0 <= i < |s| ensures IsWhitespace(s[i]) {
          if i < |pre| { assert s[i] == pre[i]; } else { assert s[i] == post[i - |pre|]; }
        }
      }
      TrimEmpty(s);
    } else {
      assert s == pre + (core + post);
      TrimStartPadded(pre, core + post);
      TrimEndPadded(core, post);
    }
  }

  /** Trimming a trimmed string changes nothing. */
  lemma TrimIdempotent(s: string)
    ensures Trim(Trim(s)) == Trim(s)
  {
    var r := Trim(s);
    TrimPadded([], r, []);
    assert [] + r + [] == r;
  }

  /** `trim` only removes characters. */
  lemma TrimChars(s: string, c: char)
    ensures c in Trim(s) ==> c in s
  {
    var t := TrimStart(s);
    var r := TrimEnd(t);
    TrimStartSplits(s);
    TrimEndSplits(t);
    if c in r {
      var i :| 0 <= i < |r| && r[i] == c;
      assert t[i] == c;
      assert s[|s| - |t| + i] == c;
    }
  }

  /** `k` back-to-back copies of `p`. */
  function Repeat(p: string, k: nat): string {
    if k == 0 then [] else p + Repeat(p, k - 1)
  }

  /** `trim_start_matches(p)` for a non-empty literal `p`: strips `p` again and again while it is a prefix. */
  function TrimStartMatches(s: string, p: string): (r: string)
    requires p != []
    ensures |r| <= |s|
    ensures !StartsWith(r, p)
    ensures r != s ==> StartsWith(s, p)
    decreases |s|
  {
    if StartsWith(s, p) then TrimStartMatches(s[|p|..], p) else s
  }

  /** Whatever follows a run of copies of `p` is what `trim_start_matches` leaves, provided it does not itself start with `p`. */
  lemma {:induction false} TrimStartMatchesRepeat(p: string, k: nat, rest: string)
    requires p != [] && !StartsWith(rest, p)
    ensures TrimStartMatches(Repeat(p, k) + rest, p) == rest
  {
    if k > 0 {
      var s := Repeat(p, k) + rest;
      assert s == p + (Repeat(p, k - 1) + rest);
      assert StartsWith(s, p);
      assert s[|p|..] == Repeat(p, k - 1) + rest;
      TrimStartMatchesRepeat(p, k - 1, rest);
    }
  }

  /** `trim_start_matches` leaves a suffix of its input. */
  lemma {:induction false} TrimStartMatchesSuffix(s: string, p: string)
    requires p != []
    ensures TrimStartMatches(s, p) == s[|s| - |TrimStartMatches(s, p)|..]
    decreases |s|
  {
    if StartsWith(s, p) {
      TrimStartMatchesSuffix(s[|p|..], p);
    }
  }

  /** `trim_start_matches` only removes characters. */
  lemma TrimStartMatchesChars(s: string, p: string, c: char)
    requires p != []
    ensures c in TrimStartMatches(s, p) ==> c in s
  {
    TrimStartMatchesSuffix(s, p);
    var r := TrimStartMatches(s, p);
    if c in r {
      var i :| 0 <= i < |r| && r[i] == c;
      assert s[|s| - |r| + i] == c;
    }
  }

  /** Index of the first occurrence of `c`. */
  function IndexOf(s: string, c: char): (i: nat)
    requires c in s
    ensures i < |s| && s[i] == c
    ensures forall j :: 0 <= j < i ==> s[j] != c
  {
    if s[0] == c then 0 else 1 + IndexOf(s[1..], c)
  }

  /** The pieces of a `split`, put back together with the separator between them. */
  function Join(parts: seq<string>, sep: char): string
    requires parts != []
  {
    if |parts| == 1 then parts[0] else parts[0] + [sep] + Join(parts[1..], sep)
  }

  /**
    `split(sep)` for a single character: the maximal separator-free pieces, one more
    than there are separators (so the empty string gives one empty piece).
   */
  function Split(s: string, sep: char): (parts: seq<string>)
    ensures |parts| == multiset(s)[sep] + 1
    ensures forall k :: 0 <= k < |parts| ==> sep !in parts[k]
    decreases |s|
  {
    if sep !in s then [s]
    else
      var i := IndexOf(s, sep);
      var rest := Split(s[i + 1..], sep);
      assert s == s[..i] + [sep] + s[i + 1..];
      assert multiset(s)[sep] == multiset(s[..i])[sep] + 1 + multiset(s[i + 1..])[sep];
      assert ([s[..i]] + rest)[1..] == rest;
      [s[..i]] + rest
  }

  /** Joining the pieces with the separator gives back the input. */
  lemma {:induction false} SplitJoin(s: string, sep: char)
    ensures Join(Split(s, sep), sep) == s
    decreases |s|
  {
    if sep in s {
      var i := IndexOf(s, sep);
      var rest := Split(s[i + 1..], sep);
      SplitJoin(s[i + 1..], sep);
      assert ([s[..i]] + rest)[1..] == rest;
      assert s == s[..i] + [sep] + s[i + 1..];
    }
  }

  /** With exactly one separator, `split` gives the text before it and the text after it. */
  lemma SplitOnce(s: string, sep: char)
    requires multiset(s)[sep] == 1
    ensures sep in s
    ensures Split(s, sep) == [s[..IndexOf(s, sep)], s[IndexOf(s, sep) + 1..]]
  {
    assert sep in multiset(s);
    var i := IndexOf(s, sep);
    var a, b := s[..i], s[i + 1..];
    assert s == a + [sep] + b;
    assert multiset(s) == multiset(a) + multiset{sep} + multiset(b);
    assert sep !in b by {
      assert multiset(b)[sep] == 0;
    }
    assert Split(b, sep) == [b];
  }

  /** The longest prefix of `s` that holds no whitespace. */
  function TakeWord(s: string): (w: string)
    ensures |w| <= |s| && w == s[..|w|] && NoWhitespace(w)
    ensures |w| == |s| || IsWhitespace(s[|w|])
  {
    if s == [] || IsWhitespace(s[0]) then [] else [s[0]] + TakeWord(s[1..])
  }

  /** Words are the non-empty whitespace-free runs. */
  predicate Words(words: seq<string>) {
    forall k :: 0 <= k < |words| ==> words[k] != [] && NoWhitespace(words[k])
  }

  /** `split_whitespace`: the maximal runs of non-whitespace characters, in order. */
  function SplitWhitespace(s: string): (words: seq<string>)
    ensures Words(words)
    decreases |s|
  {
    var t := TrimStart(s);
    if t == [] then []
    else
      var w := TakeWord(t);
      [w] + SplitWhitespace(t[|w|..])
  }

  /** Words separated by single spaces. */
  function Unwords(words: seq<string>): string {
    if words == [] then []
    else if |words| == 1 then words[0]
    else words[0] + " " + Unwords(words[1..])
  }

  lemma {:induction false} TakeWordOf(w: string, rest: string)
    requires NoWhitespace(w) && (rest == [] || IsWhitespace(rest[0]))
    ensures TakeWord(w + rest) == w
  {
    if w != [] {
      assert (w + rest)[1..] == w[1..] + rest;
      TakeWordOf(w[1..], rest);
    }
  }

  /** A word followed by a space and more text splits off as the first word. */
  lemma SplitWhitespaceCons(w: string, u: string)
    requires w != [] && NoWhitespace(w)
    ensures SplitWhitespace(w + " " + u) == [w] + SplitWhitespace(u)
  {
    var s := w + " " + u;
    assert s == w + (" " + u);
    TakeWordOf(w, " " + u);
    assert TrimStart(s) == s;
    assert s[|w|..] == " " + u;
    assert (" " + u)[1..] == u;
    assert TrimStart(" " + u) == TrimStart(u);
  }

  /** `seps[0] + words[0] + seps[1] + … + words[n - 1] + seps[n]`: words with the text between them. */
  function Interleave(seps: seq<string>, words: seq<string>): string
    requires |seps| == |words| + 1
  {
    if words == [] then seps[0] else seps[0] + words[0] + Interleave(seps[1..], words[1..])
  }

  /**
    Separators as `split_whitespace` sees them: all whitespace, and non-empty
    between two words (the leading and trailing ones may be empty).
   */
  predicate Separators(seps: seq<string>) {
    |seps| >= 1
    && (forall k :: 0 <= k < |seps| ==> AllWhitespace(seps[k]))
    && (forall k :: 0 < k < |seps| - 1 ==> seps[k] != [])
  }

  /** An all-whitespace text has no words. */
  lemma SplitWhitespaceBlank(s: string)
    requires AllWhitespace(s)
    ensures SplitWhitespace(s) == []
  {
    TrimStartPadded(s, []);
    assert s + [] == s;
  }

  /** Whitespace, then a word, then whitespace or nothing: the word comes first. */
  lemma SplitWhitespaceLead(pre: string, w: string, rest: string)
    requires AllWhitespace(pre) && w != [] && NoWhitespace(w) && (rest == [] || IsWhitespace(rest[0]))
    ensures SplitWhitespace(pre + w + rest) == [w] + SplitWhitespace(rest)
  {
    var s := pre + w + rest;
    assert s == pre + (w + rest);
    TrimStartPadded(pre, w + rest);
    TakeWordOf(w, rest);
    assert (w + rest)[|w|..] == rest;
  }

  /**
    `split_whitespace` of any words separated by any whitespace runs, with any
    whitespace before and after, gives back exactly the words.
   */
  lemma {:induction false} SplitWhitespaceOf(seps: seq<string>, words: seq<string>)
    requires |seps| == |words| + 1 && Separators(seps) && Words(words)
    ensures SplitWhitespace(Interleave(seps, words)) == words
  {
    if words == [] {
      SplitWhitespaceBlank(seps[0]);
    } else {
      var rest := Interleave(seps[1..], words[1..]);
      if |words| > 1 {
        assert rest == seps[1] + words[1] + Interleave(seps[2..], words[2..]);
        assert rest[0] == seps[1][0];
      }
      SplitWhitespaceLead(seps[0], words[0], rest);
      SplitWhitespaceOf(seps[1..], words[1..]);
    }
  }

  /** The separators `Unwords` puts around its words: single spaces inside, nothing outside. */
  function SingleSpaces(n: nat): (seps: seq<string>)
    ensures |seps| == n + 1 && Separators(seps)
  {
    seq(n + 1, k requires 0 <= k <= n => if 0 < k < n then " " else "")
  }

  /** A separator put in front of an interleaving that starts with nothing just comes first. */
  lemma InterleaveLead(p: string, seps: seq<string>, words: seq<string>)
    requires |seps| == |words| + 1 && seps[0] == []
    ensures Interleave([p] + seps[1..], words) == p + Interleave(seps, words)
  {
    var lead := [p] + seps[1..];
    assert lead[1..] == seps[1..];
    if words == [] {
      assert p + [] == p;
    } else {
      assert p + ([] + words[0] + Interleave(seps[1..], words[1..]))
             == p + words[0] + Interleave(seps[1..], words[1..]);
    }
  }

  /** `Unwords` is the interleaving with single spaces. */
  lemma {:induction false} UnwordsInterleave(words: seq<string>)
    ensures Unwords(words) == Interleave(SingleSpaces(|words|), words)
  {
    var n := |words|;
    var seps := SingleSpaces(n);
    if n == 1 {
      assert Interleave(seps[1..], words[1..]) == [];
      assert words[0] + [] == words[0];
    } else if n > 1 {
      UnwordsInterleave(words[1..]);
      var inner := SingleSpaces(n - 1);
      assert seps[1..] == [" "] + inner[1..];
      InterleaveLead(" ", inner, words[1..]);
      assert Interleave(seps, words) == [] + words[0] + (" " + Unwords(words[1..]));
    }
  }

  /** `split_whitespace` recovers the words of a space-separated text. */
  lemma SplitUnwords(words: seq<string>)
    requires Words(words)
    ensures SplitWhitespace(Unwords(words)) == words
  {
    UnwordsInterleave(words);
    SplitWhitespaceOf(SingleSpaces(|words|), words);
  }

  /** The whitespace runs around the words of `split_whitespace`, leading and trailing ones included. */
  function Gaps(s: string): (g: seq<string>)
    ensures |g| == |SplitWhitespace(s)| + 1
    decreases |s|
  {
    var t := TrimStart(s);
    if t == [] then [s]
    else
      var w := TakeWord(t);
      [s[..|s| - |t|]] + Gaps(t[|w|..])
  }

  /** The runs `Gaps` finds are whitespace, and only the outer ones may be empty. */
  lemma {:induction false} GapsSeparators(s: string)
    ensures Separators(Gaps(s))
    ensures s != [] && IsWhitespace(s[0]) ==> Gaps(s)[0] != []
    decreases |s|
  {
    var t := TrimStart(s);
    TrimStartSplits(s);
    if t == [] {
      assert s[..|s|] == s;
    } else {
      var w := TakeWord(t);
      var r := t[|w|..];
      GapsSeparators(r);
      var g := Gaps(s);
      var h := Gaps(r);
      assert g == [s[..|s| - |t|]] + h;
      assert r != [] ==> IsWhitespace(r[0]);
      assert forall k :: 0 < k < |g| ==> g[k] == h[k - 1];
    }
  }

  /** A text with a word in it is its leading whitespace, its first word, and the rest. */
  lemma FirstWordSplits(s: string)
    requires TrimStart(s) != []
    ensures s == s[..|s| - |TrimStart(s)|] + TakeWord(TrimStart(s)) + TrimStart(s)[|TakeWord(TrimStart(s))|..]
  {
    TrimStartSplits(s);
    var t := TrimStart(s);
    var w := TakeWord(t);
    ThreeParts(s, |s| - |t|, |w|);
  }

  /** Cutting a text twice, at `i` and then `j` further on, loses nothing. */
  lemma ThreeParts(s: string, i: nat, j: nat)
    requires i <= |s| && j <= |s| - i
    ensures s == s[..i] + s[i..][..j] + s[i..][j..]
  {
    assert s[i..] == s[i..][..j] + s[i..][j..];
    assert s == s[..i] + s[i..];
  }

  /**
    Every text is its `split_whitespace` words interleaved with the runs `Gaps`
    finds, so together with `SplitWhitespaceOf` this fixes the words of every input.
   */
  lemma {:induction false} GapsSplit(s: string)
    ensures Interleave(Gaps(s), SplitWhitespace(s)) == s
    decreases |s|
  {
    var t := TrimStart(s);
    if t == [] {
      TrimStartSplits(s);
      assert s[..|s|] == s;
    } else {
      var w := TakeWord(t);
      var r := t[|w|..];
      var g, words := Gaps(s), SplitWhitespace(s);
      assert g[0] == s[..|s| - |t|] && g[1..] == Gaps(r);
      assert words[0] == w && words[1..] == SplitWhitespace(r);
      GapsSplit(r);
      FirstWordSplits(s);
    }
  }
}
