/** The search filter behind `getFilteredPokemonList`: keep, in list order,
    the items whose name contains the query, ignoring case. Case folding is
    restricted to the ASCII letters. */
module Search {
  import opened Model

  /** One character in lower case (ASCII letters only). */
  function Fold(c: char): (d: char)
    ensures !('A' <= d <= 'Z')
    ensures 'A' <= c <= 'Z' ==> 'a' <= d <= 'z' && d as int - 'a' as int == c as int - 'A' as int
    ensures !('A' <= c <= 'Z') ==> d == c
  {
    if 'A' <= c <= 'Z' then (c as int + 32) as char else c
  }

  /** Kotlin's `String.lowercase()`, restricted to ASCII letters. */
  function Lowercase(s: string): (r: string)
    ensures |r| == |s|
    ensures forall i :: 0 <= i < |r| ==> !('A' <= r[i] <= 'Z')
    ensures forall i :: 0 <= i < |s| ==> Fold(r[i]) == Fold(s[i])
  {
    seq(|s|, i requires 0 <= i < |s| => Fold(s[i]))
  }

  /** `c` and `d` are one ASCII letter in its two cases. */
  predicate SameLetter(c: char, d: char)
  {
    || ('A' <= c <= 'Z' && d as int == c as int + 32)
    || ('A' <= d <= 'Z' && c as int == d as int + 32)
  }

  /** Two characters fold alike exactly when they are equal or are the two
      cases of one letter: what `ignoreCase` compares, for ASCII. */
  lemma FoldAlike(c: char, d: char)
    ensures Fold(c) == Fold(d) <==> c == d || SameLetter(c, d)
  {
    if 'A' <= c <= 'Z' && !('A' <= d <= 'Z') && Fold(c) == Fold(d) {
      assert d as int == c as int + 32;
    }
  }

  /** `pat` occurs in `text` at position `i`, ignoring case. */
  predicate MatchesAt(text: string, pat: string, i: int)
  {
    && 0 <= i
    && i + |pat| <= |text|
    && forall j :: 0 <= j < |pat| ==> Fold(text[i + j]) == Fold(pat[j])
  }

  /** Kotlin's `text.contains(pat, ignoreCase = true)`. */
  predicate ContainsIgnoreCase(text: string, pat: string)
  {
    exists i :: 0 <= i <= |text| - |pat| && MatchesAt(text, pat, i)
  }

  predicate NameMatches(item: PokemonItem, query: string)
  {
    ContainsIgnoreCase(item.name, query)
  }

  /** `xs` is `ys` with some elements left out, the rest in their order. */
  ghost predicate IsSubsequence<T>(xs: seq<T>, ys: seq<T>)
    decreases |ys|
  {
    || xs == []
    || (&& ys != []
        && ((xs[0] == ys[0] && IsSubsequence(xs[1..], ys[1..])) || IsSubsequence(xs, ys[1..])))
  }

  /** `items.filter { it.name.contains(query, ignoreCase = true) }`: the items
      that match, each as often as it occurs, in their original order. */
  function FilterByName(items: seq<PokemonItem>, query: string): (r: seq<PokemonItem>)
    ensures forall k :: 0 <= k < |r| ==> NameMatches(r[k], query)
    ensures |r| <= |items|
    decreases |items|
  {
    if items == [] then []
    else if NameMatches(items[0], query) then [items[0]] + FilterByName(items[1..], query)
    else FilterByName(items[1..], query)
  }

  /** The filter keeps the list order. */
  lemma {:induction false} FilterIsSubsequence(items: seq<PokemonItem>, query: string)
    ensures IsSubsequence(FilterByName(items, query), items)
    decreases |items|
  {
    if items != [] {
      FilterIsSubsequence(items[1..], query);
    }
  }

  /** The filter keeps every matching item as often as it occurs, and drops
      every other one. */
  lemma {:induction false} FilterCounts(items: seq<PokemonItem>, query: string)
    ensures forall x :: multiset(FilterByName(items, query))[x] ==
                          (if NameMatches(x, query) then multiset(items)[x] else 0)
    decreases |items|
  {
    if items != [] {
      FilterCounts(items[1..], query);
      assert items == [items[0]] + items[1..];
    }
  }

  /** The empty query occurs in every name. */
  lemma ContainsEmpty(text: string)
    ensures ContainsIgnoreCase(text, "")
  {
    assert MatchesAt(text, "", 0);
  }

  /** Lower-casing the query first, as the view model does, changes nothing. */
  lemma ContainsLowercase(text: string, pat: string)
    ensures ContainsIgnoreCase(text, Lowercase(pat)) == ContainsIgnoreCase(text, pat)
  {
    forall i | 0 <= i <= |text| - |pat|
      ensures MatchesAt(text, Lowercase(pat), i) == MatchesAt(text, pat, i)
    {
    }
    if ContainsIgnoreCase(text, pat) {
      var i :| 0 <= i <= |text| - |pat| && MatchesAt(text, pat, i);
      assert MatchesAt(text, Lowercase(pat), i);
    }
    if ContainsIgnoreCase(text, Lowercase(pat)) {
      var i :| 0 <= i <= |text| - |pat| && MatchesAt(text, Lowercase(pat), i);
      assert MatchesAt(text, pat, i);
    }
  }

  /** With an empty query the filter returns the whole list. */
  lemma {:induction false} FilterEmptyQuery(items: seq<PokemonItem>)
    ensures FilterByName(items, "") == items
    decreases |items|
  {
    if items != [] {
      ContainsEmpty(items[0].name);
      FilterEmptyQuery(items[1..]);
    }
  }

  /** A query that no name contains leaves nothing. */
  lemma {:induction false} FilterNoMatch(items: seq<PokemonItem>, query: string)
    requires forall k :: 0 <= k < |items| ==> !NameMatches(items[k], query)
    ensures FilterByName(items, query) == []
    decreases |items|
  {
    if items != [] {
      FilterNoMatch(items[1..], query);
    }
  }

  /** The filter sees the query's case not at all. */
  lemma {:induction false} FilterLowercaseQuery(items: seq<PokemonItem>, query: string)
    ensures FilterByName(items, Lowercase(query)) == FilterByName(items, query)
    decreases |items|
  {
    if items != [] {
      ContainsLowercase(items[0].name, query);
      FilterLowercaseQuery(items[1..], query);
    }
  }

  /** Filtering a concatenation filters each part, keeping the list order. */
  lemma {:induction false} FilterAppend(xs: seq<PokemonItem>, ys: seq<PokemonItem>, query: string)
    ensures FilterByName(xs + ys, query) == FilterByName(xs, query) + FilterByName(ys, query)
    decreases |xs|
  {
    if xs != [] {
      assert (xs + ys)[0] == xs[0];
      assert (xs + ys)[1..] == xs[1..] + ys;
      FilterAppend(xs[1..], ys, query);
    } else {
      assert xs + ys == ys;
    }
  }

  /** Filtering twice with the same query is filtering once. */
  lemma {:induction false} FilterIdempotent(items: seq<PokemonItem>, query: string)
    ensures FilterByName(FilterByName(items, query), query) == FilterByName(items, query)
    decreases |items|
  {
    if items != [] {
      FilterIdempotent(items[1..], query);
    }
  }

  /** A name without the letter p in either case does not contain "PH". */
  lemma NoFoldedP(text: string)
    requires forall k :: 0 <= k < |text| ==> text[k] != 'p' && text[k] != 'P'
    ensures !ContainsIgnoreCase(text, "PH")
  {
    forall i | 0 <= i <= |text| - 2 ensures !MatchesAt(text, "PH", i) {
      assert Fold(text[i]) != Fold("PH"[0]);
    }
  }

  /** The filter matches substrings, not prefixes: each of "alpha", "bravo"
      and "charlie" contains "a", and only "alpha" contains "PH". */
  lemma SubstringExample(a: PokemonItem, b: PokemonItem, c: PokemonItem)
    requires a.name == "alpha" && b.name == "bravo" && c.name == "charlie"
    ensures FilterByName([a, b, c], "a") == [a, b, c]
    ensures FilterByName([a, b, c], "PH") == [a]
  {
    assert [a, b, c][1..] == [b, c];
    assert [b, c][1..] == [c];
    assert [c][1..] == [];
    assert MatchesAt(a.name, "a", 0);
    assert MatchesAt(b.name, "a", 2);
    assert MatchesAt(c.name, "a", 2);
    assert FilterByName([c], "a") == [c];
    assert FilterByName([b, c], "a") == [b, c];
    assert MatchesAt(a.name, "PH", 2);
    NoFoldedP(b.name);
    NoFoldedP(c.name);
    assert FilterByName([c], "PH") == [];
    assert FilterByName([b, c], "PH") == [];
  }
}
