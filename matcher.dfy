/**
  The candidate matcher (`_find_best_match`). For each search entry in turn it
  tests whether the lower-cased title contains every lower-cased query word,
  and then whether it contains at least one; the first entry passing either
  test is returned. With no such entry the first entry is returned, and an
  empty list gives None.
 */
module Matcher {
  import opened Wrappers
  import opened Text

  /** One search result; only the title takes part in the choice. A title of
      None stands for an entry without a `title` key. */
  datatype Entry = Entry(id: string, title: Option<string>, duration: Option<int>)

  /** `entry.get('title', '').lower()` */
  function TitleText(e: Entry): string {
    Lower(match e.title { case None => "" case Some(t) => t })
  }

  /** `all(word in title for word in words)` */
  predicate ContainsAll(title: string, words: seq<string>) {
    forall k :: 0 <= k < |words| ==> Contains(title, words[k])
  }

  /** `any(word in title for word in words)` */
  predicate ContainsAny(title: string, words: seq<string>) {
    exists k :: 0 <= k < |words| && Contains(title, words[k])
  }

  /** The per-entry test of the loop: the full-match test, then the partial one. */
  predicate Accepts(words: seq<string>, e: Entry) {
    ContainsAll(TitleText(e), words) || ContainsAny(TitleText(e), words)
  }

  /** The lower-cased query words, `query.lower().split()`. */
  function QueryWords(query: string): seq<string> {
    Split(Lower(query))
  }

  /** The position of the first entry at or after `from` that the loop accepts. */
  function FirstAccepted(words: seq<string>, entries: seq<Entry>, from: nat): (r: Option<nat>)
    requires from <= |entries|
    ensures r.Some? ==> from <= r.value < |entries| && Accepts(words, entries[r.value])
    ensures r.Some? ==> forall j :: from <= j < r.value ==> !Accepts(words, entries[j])
    ensures r.None? ==> forall j :: from <= j < |entries| ==> !Accepts(words, entries[j])
    decreases |entries| - from
  {
    if from == |entries| then None
    else if Accepts(words, entries[from]) then Some(from)
    else FirstAccepted(words, entries, from + 1)
  }

  /** `_find_best_match(query, entries)`: None exactly for an empty list, and
      otherwise always one of the entries. */
  function FindBestMatch(query: string, entries: seq<Entry>): (r: Option<Entry>)
    ensures r.None? <==> entries == []
    ensures r.Some? ==> r.value in entries
  {
    match FirstAccepted(QueryWords(query), entries, 0)
    case Some(k) => Some(entries[k])
    case None => if entries == [] then None else Some(entries[0])
  }

  /** An entry mentions the query when its title contains at least one query word. */
  predicate Mentions(query: string, e: Entry) {
    ContainsAny(TitleText(e), QueryWords(query))
  }

  /** When some word is present the two tests of the loop coincide: the
      full-match test never decides anything the partial test would not. */
  lemma AcceptsIsMentions(query: string, e: Entry)
    requires QueryWords(query) != []
    ensures Accepts(QueryWords(query), e) <==> Mentions(query, e)
  {
    var words := QueryWords(query);
    if ContainsAll(TitleText(e), words) {
      assert Contains(TitleText(e), words[0]);
    }
  }

  /** The matcher returns the first entry that mentions some query word. */
  lemma FindBestMatchPicksFirstMention(query: string, entries: seq<Entry>, k: nat)
    requires k < |entries| && Mentions(query, entries[k])
    requires forall j :: 0 <= j < k ==> !Mentions(query, entries[j])
    ensures FindBestMatch(query, entries) == Some(entries[k])
  {
    var words := QueryWords(query);
    assert words != [];
    forall j | 0 <= j <= k ensures Accepts(words, entries[j]) <==> j == k {
      AcceptsIsMentions(query, entries[j]);
    }
  }

  /** With no entry mentioning any query word, the first entry is returned. */
  lemma FindBestMatchFallsBackToFirst(query: string, entries: seq<Entry>)
    requires entries != []
    requires forall j :: 0 <= j < |entries| ==> !Mentions(query, entries[j])
    ensures FindBestMatch(query, entries) == Some(entries[0])
  {
    var words := QueryWords(query);
    if words != [] {
      forall j | 0 <= j < |entries| ensures !Accepts(words, entries[j]) {
        AcceptsIsMentions(query, entries[j]);
      }
    }
  }

  lemma QueryWordsOfTwo(a: string, b: string)
    requires IsWord(a) && IsWord(b) && IsLowerCase(a) && IsLowerCase(b)
    ensures Lower(a + " " + b) == a + " " + b
    ensures QueryWords(a + " " + b) == [a, b]
  {
    var query := a + " " + b;
    assert IsLowerCase(query) by {
      forall i | 0 <= i < |query| ensures !IsUpper(query[i]) {
        if i < |a| { assert query[i] == a[i]; }
        else if i > |a| { assert query[i] == b[i - |a| - 1]; }
      }
    }
    LowerOfLowerCase(query);
    SplitWordThenSpace(a, b);
    SplitOneWord(b);
  }

  /** The scan is one pass: for the query "a b", an earlier entry titled "a"
      is chosen over a later entry titled "a b" that holds every word. */
  lemma PartialMatchBeatsLaterFullMatch(a: string, b: string)
    requires IsWord(a) && IsWord(b) && IsLowerCase(a) && IsLowerCase(b)
    requires !Contains(a, b)
    ensures var entries := [Entry("1", Some(a), None), Entry("2", Some(a + " " + b), None)];
            && ContainsAll(TitleText(entries[1]), QueryWords(a + " " + b))
            && !ContainsAll(TitleText(entries[0]), QueryWords(a + " " + b))
            && FindBestMatch(a + " " + b, entries) == Some(entries[0])
  {
    var query := a + " " + b;
    var entries := [Entry("1", Some(a), None), Entry("2", Some(query), None)];
    QueryWordsOfTwo(a, b);
    LowerOfLowerCase(a);
    assert TitleText(entries[0]) == a;
    assert TitleText(entries[1]) == query;
    JoinedHoldsBoth(a, b);
    PartialOnly(a, b);
    assert Mentions(query, entries[0]);
    FindBestMatchPicksFirstMention(query, entries, 0);
  }

  /** Both words occur in `a + " " + b`. */
  lemma JoinedHoldsBoth(a: string, b: string)
    ensures ContainsAll(a + " " + b, [a, b])
  {
    OccursInJoined(a, b);
    ContainsIsOccurrence(a + " " + b, a);
    ContainsIsOccurrence(a + " " + b, b);
  }

  /** The title `a` matches the query "a b" partially but not fully. */
  lemma PartialOnly(a: string, b: string)
    requires !Contains(a, b)
    ensures ContainsAny(a, [a, b]) && !ContainsAll(a, [a, b])
  {
    HoldsItself(a);
    assert [a, b][0] == a && [a, b][1] == b;
  }

  /** A word occurs in itself. */
  lemma HoldsItself(a: string)
    ensures Contains(a, a)
  {
    assert OccursAt(a, a, 0);
    ContainsIsOccurrence(a, a);
  }
}
