/** The history screen: the search over past requests, the success marker of
    an entry, and when "Clear All" and the empty-list message are shown. */
module History {
  import opened Wrappers
  import opened Transaction
  import Seqs

  /** Lower-cases one character; only ASCII letters are mapped. */
  function LowerChar(c: char): char
  {
    if 'A' <= c <= 'Z' then (c as int + 32) as char else c
  }

  /** Lower-cases a string character by character. */
  function Lower(s: string): (r: string)
    ensures |r| == |s|
    ensures forall i :: 0 <= i < |s| ==> r[i] == LowerChar(s[i])
    decreases |s|
  {
    if s == [] then [] else [LowerChar(s[0])] + Lower(s[1..])
  }

  /** Lower-casing twice is lower-casing once. */
  lemma LowerIdempotent(s: string)
    ensures Lower(Lower(s)) == Lower(s)
  {
  }

  /** `term` occurs in `text` starting at position `i`. */
  predicate OccursAt(text: string, term: string, i: int)
  {
    0 <= i && i + |term| <= |text| && text[i..i + |term|] == term
  }

  /** String `includes`: `term` is a prefix of `text` or of one of its suffixes. */
  predicate Includes(text: string, term: string)
    decreases |text|
  {
    term <= text || (text != [] && Includes(text[1..], term))
  }

  /** `Includes` holds exactly when `term` occurs somewhere in `text`. */
  lemma {:induction false} IncludesIff(text: string, term: string)
    ensures Includes(text, term) <==> exists i :: OccursAt(text, term, i)
    decreases |text|
  {
    if text != [] {
      IncludesIff(text[1..], term);
      if term <= text {
        assert OccursAt(text, term, 0);
      }
      if Includes(text[1..], term) {
        var i :| OccursAt(text[1..], term, i);
        assert OccursAt(text, term, i + 1);
      }
      if exists i :: OccursAt(text, term, i) {
        var i :| OccursAt(text, term, i);
        if i > 0 {
          assert OccursAt(text[1..], term, i - 1);
        } else {
          assert term <= text;
        }
      }
    } else {
      if term == [] {
        assert OccursAt(text, term, 0);
      }
      if exists i :: OccursAt(text, term, i) {
        var i :| OccursAt(text, term, i);
        assert term == [];
      }
    }
  }

  /** Every string includes the empty string. */
  lemma IncludesEmpty(text: string)
    ensures Includes(text, "")
  {
  }

  /** An entry is kept when the lower-cased term occurs in its lower-cased URL
      or in its lower-cased method. */
  predicate Matches(item: HistoryItem, term: string)
    ensures Matches(item, term) <==>
      (exists i :: OccursAt(Lower(item.request.url), Lower(term), i)) ||
      (exists i :: OccursAt(Lower(item.request.httpMethod), Lower(term), i))
  {
    var url, verb, needle := Lower(item.request.url), Lower(item.request.httpMethod), Lower(term);
    IncludesIff(url, needle);
    IncludesIff(verb, needle);
    assert Includes(url, needle) <==>
      exists i :: OccursAt(Lower(item.request.url), Lower(term), i);
    assert Includes(verb, needle) <==>
      exists i :: OccursAt(Lower(item.request.httpMethod), Lower(term), i);
    Includes(url, needle) || Includes(verb, needle)
  }

  function Keep(term: string): HistoryItem -> bool
  {
    item => Matches(item, term)
  }

  /** The entries listed for search `term`, in history order. */
  function Search(history: seq<HistoryItem>, term: string): (r: seq<HistoryItem>)
    ensures |r| <= |history|
    ensures forall i :: 0 <= i < |r| ==> Matches(r[i], term)
  {
    Seqs.Filter(history, Keep(term))
  }

  /** The listed entries are an order-preserving subsequence of the history
      holding each matching entry as often as the history does, and no other. */
  lemma SearchKeepsExactlyMatches(history: seq<HistoryItem>, term: string, item: HistoryItem)
    ensures Seqs.IsSubsequence(Search(history, term), history)
    ensures multiset(Search(history, term))[item] ==
      if Matches(item, term) then multiset(history)[item] else 0
  {
    Seqs.FilterIsSubsequence(history, Keep(term));
    Seqs.FilterMultiplicity(history, Keep(term), item);
  }

  /** The empty search lists the whole history. */
  lemma SearchEmptyTermListsAll(history: seq<HistoryItem>)
    ensures Search(history, "") == history
  {
    forall i | 0 <= i < |history| ensures Keep("")(history[i]) {
      IncludesEmpty(Lower(history[i].request.url));
    }
    Seqs.FilterKeepsAll(history, Keep(""));
  }

  /** Searching the listed entries again with the same term lists them again. */
  lemma SearchIdempotent(history: seq<HistoryItem>, term: string)
    ensures Search(Search(history, term), term) == Search(history, term)
  {
    Seqs.FilterIdempotent(history, Keep(term));
  }

  /** The search ignores the case of ASCII letters in the term. */
  lemma SearchIgnoresCase(history: seq<HistoryItem>, term: string)
    ensures Search(history, Lower(term)) == Search(history, term)
  {
    LowerIdempotent(term);
    Seqs.FilterAgreeing(history, Keep(Lower(term)), Keep(term));
  }

  /** `c` and `d` are the same character, or the same ASCII letter in
      upper and lower case. */
  predicate SameLetterUpToCase(c: char, d: char)
  {
    c == d ||
    ('A' <= c <= 'Z' && d as int == c as int + 32) ||
    ('A' <= d <= 'Z' && c as int == d as int + 32)
  }

  /** Terms that differ only in the case of ASCII letters list the same
      entries. */
  lemma SearchIgnoresLetterCase(history: seq<HistoryItem>, term1: string, term2: string)
    requires |term1| == |term2|
    requires forall i :: 0 <= i < |term1| ==> SameLetterUpToCase(term1[i], term2[i])
    ensures Search(history, term1) == Search(history, term2)
  {
    assert Lower(term1) == Lower(term2);
    Seqs.FilterAgreeing(history, Keep(term1), Keep(term2));
  }

  /** An entry is marked successful when it has a response with a 2xx status. */
  function IsSuccess(item: HistoryItem): (r: bool)
    ensures r <==> item.response.Some? && item.response.value.statusCode / 100 == 2
  {
    item.response.Some? && 200 <= item.response.value.statusCode < 300
  }

  /** "Clear All" is offered when there is any history. */
  function ShowsClearAll(history: seq<HistoryItem>): (r: bool)
    ensures r <==> Search(history, "") != []
  {
    SearchEmptyTermListsAll(history);
    |history| > 0
  }

  /** The "No history found" message replaces the list when nothing is listed. */
  function ShowsEmptyMessage(history: seq<HistoryItem>, term: string): (r: bool)
    ensures r <==> forall i :: 0 <= i < |history| ==> !Matches(history[i], term)
  {
    Seqs.FilterEmptyIff(history, Keep(term));
    Search(history, term) == []
  }

  /** With no history the message shows whatever the term; with the empty
      term it shows exactly when "Clear All" is not offered. */
  lemma {:induction false} EmptyMessageAndClearAll(history: seq<HistoryItem>, term: string)
    ensures !ShowsClearAll(history) ==> ShowsEmptyMessage(history, term)
    ensures ShowsEmptyMessage(history, "") <==> !ShowsClearAll(history)
  {
    SearchEmptyTermListsAll(history);
  }
}
