/**
  The filename sanitiser (`sanitize_filename`): remove every character that is
  illegal in a Windows file name, cut the result to 200 characters, then strip
  surrounding whitespace.
 */
module Sanitizer {
  import opened Text

  /** The longest name the sanitiser lets through. */
  const MaxNameLength := 200

  /** The characters removed: `< > : " / \ | ? *`. */
  predicate IsIllegal(c: char) {
    c == '<' || c == '>' || c == ':' || c == '"' || c == '/' || c == '\\'
    || c == '|' || c == '?' || c == '*'
  }

  predicate NoIllegal(s: string) {
    forall i :: 0 <= i < |s| ==> !IsIllegal(s[i])
  }

  /** `re.sub(r'[<>:"/\\|?*]', '', s)`: every illegal character goes, every
      other character stays, in order. */
  function RemoveIllegal(s: string): (r: string)
    ensures |r| <= |s|
    ensures NoIllegal(r)
  {
    if s == [] then []
    else if IsIllegal(s[0]) then RemoveIllegal(s[1..])
    else [s[0]] + RemoveIllegal(s[1..])
  }

  /** Every legal character keeps its number of occurrences. */
  lemma {:induction false} RemoveIllegalKeepsOthers(s: string)
    ensures forall c :: !IsIllegal(c) ==> multiset(RemoveIllegal(s))[c] == multiset(s)[c]
    decreases |s|
  {
    if s != [] {
      assert s == [s[0]] + s[1..];
      RemoveIllegalKeepsOthers(s[1..]);
    }
  }

  /** The removal works character by character from left to right, so the
      characters kept keep their order: cleaning a concatenation cleans
      each part. */
  lemma {:induction false} RemoveIllegalInOrder(a: string, b: string)
    ensures RemoveIllegal(a + b) == RemoveIllegal(a) + RemoveIllegal(b)
    decreases |a|
  {
    if a == [] {
      assert a + b == b;
    } else {
      var c, t := a[0], a[1..];
      assert a == [c] + t && a + b == [c] + (t + b);
      RemoveIllegalInOrder(t, b);
      RemoveIllegalCons(c, t + b);
      RemoveIllegalCons(c, t);
      var h := if IsIllegal(c) then [] else [c];
      assert h + (RemoveIllegal(t) + RemoveIllegal(b)) == (h + RemoveIllegal(t)) + RemoveIllegal(b);
    }
  }

  /** The first character is kept exactly when it is legal. */
  lemma RemoveIllegalCons(c: char, t: string)
    ensures RemoveIllegal([c] + t) == (if IsIllegal(c) then [] else [c]) + RemoveIllegal(t)
  {
    assert ([c] + t)[0] == c && ([c] + t)[1..] == t;
  }

  /** `s[:200]` when `s` is longer than 200 characters. */
  function Truncate(s: string): (r: string)
    ensures |r| <= MaxNameLength
    ensures |r| <= |s| && r == s[..|r|]
    ensures |s| <= MaxNameLength ==> r == s
    ensures |s| > MaxNameLength ==> |r| == MaxNameLength
  {
    if |s| > MaxNameLength then s[..MaxNameLength] else s
  }

  /** `sanitize_filename`: the result holds no illegal character, is at most
      200 characters long, has no whitespace at either end, and is a
      contiguous piece of the cut-down, cleaned name. */
  function SanitizeFilename(s: string): (r: string)
    ensures NoIllegal(r)
    ensures |r| <= MaxNameLength
    ensures r == [] || (!IsSpace(r[0]) && !IsSpace(r[|r| - 1]))
    ensures exists i: nat :: OccursAt(Truncate(RemoveIllegal(s)), r, i)
  {
    var t := Truncate(RemoveIllegal(s));
    StripIsInfix(t);
    StripTrimsBothEnds(t);
    StripKeepsClean(t);
    Strip(t)
  }

  /** A piece of a name without illegal characters has none either. */
  lemma StripKeepsClean(t: string)
    requires NoIllegal(t)
    ensures NoIllegal(Strip(t))
  {
    var r := Strip(t);
    StripIsInfix(t);
    var i: nat :| OccursAt(t, r, i);
    forall k | 0 <= k < |r| ensures !IsIllegal(r[k]) {
      assert r[k] == t[i + k];
    }
  }

  /** A name without illegal characters passes the removal step unchanged. */
  lemma {:induction false} RemoveIllegalKeepsClean(s: string)
    requires NoIllegal(s)
    ensures RemoveIllegal(s) == s
  {
    if s != [] {
      assert !IsIllegal(s[0]);
      RemoveIllegalKeepsClean(s[1..]);
    }
  }

  /** Sanitising a sanitised name changes nothing. */
  lemma SanitizeIdempotent(s: string)
    ensures SanitizeFilename(SanitizeFilename(s)) == SanitizeFilename(s)
  {
    var r := SanitizeFilename(s);
    RemoveIllegalKeepsClean(r);
    assert Truncate(RemoveIllegal(r)) == r;
    StripIdempotent(Truncate(RemoveIllegal(s)));
  }
}
