/**
  The string operations the downloader borrows from Python's `str`, restricted
  to ASCII: `isspace`, `strip()`, `split()`, `lower()`, the substring test
  `w in t`, `sep.join(...)` and the POSIX form of `os.path.join`.
 */
module Text {

  /** The ASCII characters Python's `str.isspace` accepts. */
  predicate IsSpace(c: char) {
    c == ' ' || c == '\t' || c == '\n' || c == '\r' || c == '\U{B}' || c == '\U{C}'
    || ('\U{1C}' <= c <= '\U{1F}')
  }

  predicate IsAsciiAlnum(c: char) {
    ('a' <= c <= 'z') || ('A' <= c <= 'Z') || ('0' <= c <= '9')
  }

  predicate IsUpper(c: char) {
    'A' <= c <= 'Z'
  }

  /** Text without upper-case ASCII letters. */
  predicate IsLowerCase(s: string) {
    forall i :: 0 <= i < |s| ==> !IsUpper(s[i])
  }

  /** One character of `lower()`: a capital becomes the same letter in small
      case, every other character stays. */
  function LowerChar(c: char): (d: char)
    ensures !IsUpper(d)
    ensures !IsUpper(c) ==> d == c
    ensures IsUpper(c) ==> 'a' <= d <= 'z' && d as int - 'a' as int == c as int - 'A' as int
  {
    if IsUpper(c) then (c as int + 32) as char else c
  }

  /** `s.lower()` on ASCII letters: every character is lower-cased in place
      as `LowerChar` says, so no capital letter is left. */
  function Lower(s: string): (r: string)
    ensures |r| == |s| && IsLowerCase(r)
  {
    seq(|s|, i requires 0 <= i < |s| => LowerChar(s[i]))
  }

  /** `s.lstrip()`: drop the leading whitespace; `StripLeftDropsSpace`
      says what it keeps and what it drops. */
  function StripLeft(s: string): (r: string)
    ensures |r| <= |s|
  {
    if s != [] && IsSpace(s[0]) then StripLeft(s[1..]) else s
  }

  /** `lstrip()` keeps a suffix of its argument and drops only whitespace,
      and all of the leading whitespace. */
  lemma {:induction false} StripLeftDropsSpace(s: string)
    ensures var r := StripLeft(s);
      && r == s[|s| - |r|..]
      && (r == [] || !IsSpace(r[0]))
      && forall i :: 0 <= i < |s| - |r| ==> IsSpace(s[i])
    decreases |s|
  {
    if s != [] && IsSpace(s[0]) {
      StripLeftDropsSpace(s[1..]);
      assert s[1..][|s| - 1 - |StripLeft(s)|..] == s[|s| - |StripLeft(s)|..];
    }
  }

  /** `s.rstrip()`: drop the trailing whitespace; `StripRightDropsSpace`
      says what it keeps and what it drops. */
  function StripRight(s: string): (r: string)
    ensures |r| <= |s|
  {
    if s != [] && IsSpace(s[|s| - 1]) then StripRight(s[..|s| - 1]) else s
  }

  /** `rstrip()` keeps a prefix of its argument and drops only whitespace,
      and all of the trailing whitespace. */
  lemma {:induction false} StripRightDropsSpace(s: string)
    ensures var r := StripRight(s);
      && r == s[..|r|]
      && (r == [] || !IsSpace(r[|r| - 1]))
      && forall i :: |r| <= i < |s| ==> IsSpace(s[i])
    decreases |s|
  {
    if s != [] && IsSpace(s[|s| - 1]) {
      StripRightDropsSpace(s[..|s| - 1]);
      assert s[..|s| - 1][..|StripRight(s)|] == s[..|StripRight(s)|];
    }
  }

  /** Text without upper-case ASCII letters is its own lower-case form. */
  lemma LowerOfLowerCase(s: string)
    requires IsLowerCase(s)
    ensures Lower(s) == s
  {
  }

  /** Lower-casing twice is lower-casing once. */
  lemma LowerIdempotent(s: string)
    ensures Lower(Lower(s)) == Lower(s)
  {
    LowerOfLowerCase(Lower(s));
  }

  lemma {:induction false} TakeWordBeforeSpace(w: string, rest: string)
    requires NoSpace(w)
    ensures TakeWord(w + " " + rest) == w
  {
    if w != [] {
      assert (w + " " + rest)[1..] == w[1..] + " " + rest;
      TakeWordBeforeSpace(w[1..], rest);
    }
  }

  /** Leading whitespace does not change what `split()` returns. */
  lemma SplitSkipsSpace(c: char, rest: string)
    requires IsSpace(c)
    ensures Split([c] + rest) == Split(rest)
  {
    StripLeftSkipsSpace(c, rest);
    SplitOfStripped([c] + rest, rest);
  }

  lemma StripLeftSkipsSpace(c: char, rest: string)
    requires IsSpace(c)
    ensures StripLeft([c] + rest) == StripLeft(rest)
  {
    assert ([c] + rest)[1..] == rest;
  }

  /** `split()` only looks at the text without its leading whitespace. */
  lemma SplitOfStripped(a: string, b: string)
    requires StripLeft(a) == StripLeft(b)
    ensures Split(a) == Split(b)
  {
    var t := StripLeft(a);
    if t != [] {
      var w := TakeWord(t);
      assert Split(a) == [w] + Split(t[|w|..]);
      assert Split(b) == [w] + Split(t[|w|..]);
    }
  }

  /** `split()` of a word, a blank and more text starts with that word. */
  lemma SplitWordThenSpace(w: string, rest: string)
    requires IsWord(w)
    ensures Split(w + " " + rest) == [w] + Split(rest)
  {
    var s := w + " " + rest;
    assert s[0] == w[0];
    assert StripLeft(s) == s;
    TakeWordBeforeSpace(w, rest);
    assert s[|w|..] == [' '] + rest;
    SplitSkipsSpace(' ', rest);
  }

  /** `split()` of a single word is that word. */
  lemma SplitOneWord(w: string)
    requires IsWord(w)
    ensures Split(w) == [w]
  {
    assert StripLeft(w) == w;
    TakeWordWhole(w);
    assert w[|w|..] == [];
  }

  lemma {:induction false} TakeWordWhole(w: string)
    requires NoSpace(w)
    ensures TakeWord(w) == w
  {
    if w != [] {
      TakeWordWhole(w[1..]);
    }
  }

  /** `w` occurs in `t` starting at index `i`. */
  predicate OccursAt(t: string, w: string, i: nat) {
    i + |w| <= |t| && t[i..i + |w|] == w
  }

  /** `s.strip()`. */
  function Strip(s: string): string {
    StripRight(StripLeft(s))
  }

  lemma StripRightKeepsHead(s: string)
    requires s == [] || !IsSpace(s[0])
    ensures StripRight(s) == [] || StripRight(s)[0] == s[0]
  {
    StripRightDropsSpace(s);
  }

  /** Whatever `strip()` returns is a contiguous piece of its argument. */
  lemma StripIsInfix(s: string)
    ensures exists i: nat :: OccursAt(s, Strip(s), i)
  {
    var l := StripLeft(s);
    var t := StripRight(l);
    StripLeftDropsSpace(s);
    StripRightDropsSpace(l);
    var i: nat := |s| - |l|;
    assert Strip(s) == t;
    assert l == s[i..] && t == l[..|t|];
    assert s[i..][..|t|] == s[i..i + |t|];
    assert OccursAt(s, t, i);
  }

  /** `strip()` leaves no whitespace at either end. */
  lemma StripTrimsBothEnds(s: string)
    ensures Strip(s) == [] || (!IsSpace(Strip(s)[0]) && !IsSpace(Strip(s)[|Strip(s)| - 1]))
  {
    StripLeftDropsSpace(s);
    StripRightDropsSpace(StripLeft(s));
    StripRightKeepsHead(StripLeft(s));
  }

  /** Stripping twice is stripping once. */
  lemma StripIdempotent(s: string)
    ensures Strip(Strip(s)) == Strip(s)
  {
    var t := Strip(s);
    StripTrimsBothEnds(s);
    assert StripLeft(t) == t;
    assert StripRight(t) == t;
  }

  /** No character of `w` is whitespace. */
  predicate NoSpace(w: string) {
    forall i :: 0 <= i < |w| ==> !IsSpace(w[i])
  }

  /** What `split()` can return as one of its parts. */
  predicate IsWord(w: string) {
    w != [] && NoSpace(w)
  }

  /** Every character of `s` is whitespace. */
  predicate AllSpace(s: string) {
    forall i :: 0 <= i < |s| ==> IsSpace(s[i])
  }

  /** The prefix of `s` up to its first whitespace character. */
  function TakeWord(s: string): (w: string)
    ensures |w| <= |s| && w == s[..|w|]
    ensures NoSpace(w)
    ensures |w| == |s| || IsSpace(s[|w|])
    ensures s != [] && !IsSpace(s[0]) ==> w != []
  {
    if s == [] || IsSpace(s[0]) then [] else [s[0]] + TakeWord(s[1..])
  }

  /** `s.split()`: the maximal runs of non-whitespace characters, in order. */
  function Split(s: string): (ws: seq<string>)
    ensures forall w :: w in ws ==> IsWord(w)
    ensures ws == [] <==> AllSpace(s)
    decreases |s|
  {
    var t := StripLeft(s);
    StripLeftDropsSpace(s);
    if t == [] then []
    else
      var w := TakeWord(t);
      var rest := Split(t[|w|..]);
      assert t[0] == s[|s| - |t|];
      assert !AllSpace(s);
      var ws := [w] + rest;
      ws
  }

  /** Both halves of `a + " " + b` occur in it. */
  lemma OccursInJoined(a: string, b: string)
    ensures OccursAt(a + " " + b, a, 0)
    ensures OccursAt(a + " " + b, b, |a| + 1)
  {
    var s := a + " " + b;
    assert s[..|a|] == a;
    assert s[|a| + 1..] == b;
  }

  /** Python's substring test `w in t`: compare at the front, then move on. */
  function Contains(t: string, w: string): bool
    decreases |t|
  {
    if |w| > |t| then false
    else if t[..|w|] == w then true
    else Contains(t[1..], w)
  }

  /** The substring test holds exactly when `w` occurs somewhere in `t`. */
  lemma {:induction false} ContainsIsOccurrence(t: string, w: string)
    ensures Contains(t, w) <==> exists i: nat :: OccursAt(t, w, i)
    decreases |t|
  {
    if |w| > |t| {
      assert forall i: nat :: !OccursAt(t, w, i);
    } else if t[..|w|] == w {
      assert OccursAt(t, w, 0);
    } else {
      ContainsIsOccurrence(t[1..], w);
      assert forall i: nat :: OccursAt(t[1..], w, i) <==> OccursAt(t, w, i + 1);
      assert !OccursAt(t, w, 0);
      if Contains(t[1..], w) {
        var i: nat :| OccursAt(t[1..], w, i);
        assert OccursAt(t, w, i + 1);
      } else {
        forall i: nat ensures !OccursAt(t, w, i) {
          if i > 0 { assert !OccursAt(t[1..], w, i - 1); }
        }
      }
    }
  }

  /** `sep.join(parts)`. */
  function Join(parts: seq<string>, sep: string): string {
    if parts == [] then []
    else if |parts| == 1 then parts[0]
    else parts[0] + sep + Join(parts[1..], sep)
  }

  /** POSIX `os.path.join(a, b)`: an absolute `b` replaces `a`; otherwise a
      single separator is inserted unless `a` is empty or already ends in one. */
  function PathJoin(a: string, b: string): string {
    if b != [] && b[0] == '/' then b
    else if a == [] || a[|a| - 1] == '/' then a + b
    else a + "/" + b
  }

  predicate StartsWith(s: string, p: string) {
    |p| <= |s| && s[..|p|] == p
  }
}
