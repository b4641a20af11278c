/** The search-box semantics the admin pages share: the filter is lower-cased and split on single
    spaces; every word must let the item through; a word starting with `!` (and longer than the
    `!` alone) inverts its own test. What a word is judged against differs per page and is given
    as a `test` on the word without its `!`. */
module SearchQuery {
  import opened Text

  /** One page's verdict on a word: whether the word fits the item, and whether the page rejects
      the item outright for this word, whatever the `!` says. */
  datatype WordVerdict = WordVerdict(keywordFits: bool, rejectNow: bool)

  /** The word (already stripped of its `!`) lets the item through under `inverse`. */
  predicate Passes(word: string, test: string -> WordVerdict, inverse: bool)
  {
    !test(word).rejectNow && test(word).keywordFits != inverse
  }

  /** One query word: a bare `!` is skipped; `!w` is `w` inverted; any other word is judged as it is. */
  predicate WordAccepts(word: string, test: string -> WordVerdict)
  {
    if |word| > 0 && word[0] == '!' then
      |word| < 2 || Passes(word[1..], test, true)
    else
      Passes(word, test, false)
  }

  predicate AllAccept(words: seq<string>, test: string -> WordVerdict)
  {
    forall k :: 0 <= k < |words| ==> WordAccepts(words[k], test)
  }

  /** The words of a filter, as the pages split them. */
  function QueryWords(filter: string): seq<string>
  {
    Split(ToLower(filter), ' ')
  }

  /** `doesThisProjectMatchSearch`: an empty filter matches everything; otherwise every word of
      the filter must accept. */
  predicate Matches(filter: string, test: string -> WordVerdict)
  {
    filter == "" || AllAccept(QueryWords(filter), test)
  }

  /** Lower-casing keeps spaces where they were and creates none. */
  lemma LowerKeepsSpaces(s: string)
    ensures ' ' in ToLower(s) <==> ' ' in s
  {
    if ' ' in s {
      var k :| 0 <= k < |s| && s[k] == ' ';
      assert ToLower(s)[k] == ' ';
    }
    if ' ' in ToLower(s) {
      var k :| 0 <= k < |s| && ToLower(s)[k] == ' ';
      assert s[k] == ' ';
    }
  }

  /** The words of two filters joined by a space are the words of the one, then of the other. */
  lemma QueryWordsConcat(a: string, b: string)
    ensures QueryWords(a + " " + b) == QueryWords(a) + QueryWords(b)
  {
    ToLowerConcat(a + " ", b);
    ToLowerConcat(a, " ");
    assert ToLower(" ") == [' '];
    SplitConcat(ToLower(a), ToLower(b), ' ');
  }

  /** The search is a conjunction: two filters joined by a space match exactly the items both
      filters match. */
  lemma MatchesConjunction(a: string, b: string, test: string -> WordVerdict)
    requires a != "" && b != ""
    ensures Matches(a + " " + b, test) <==> Matches(a, test) && Matches(b, test)
  {
    var wa := QueryWords(a);
    var wb := QueryWords(b);
    QueryWordsConcat(a, b);
    var w := wa + wb;
    assert AllAccept(w, test) ==> AllAccept(wa, test) && AllAccept(wb, test) by {
      if AllAccept(w, test) {
        forall k | 0 <= k < |wa| ensures WordAccepts(wa[k], test) {
          assert w[k] == wa[k];
        }
        forall k | 0 <= k < |wb| ensures WordAccepts(wb[k], test) {
          assert w[|wa| + k] == wb[k];
        }
      }
    }
    assert AllAccept(wa, test) && AllAccept(wb, test) ==> AllAccept(w, test) by {
      if AllAccept(wa, test) && AllAccept(wb, test) {
        forall k | 0 <= k < |w| ensures WordAccepts(w[k], test) {
          if k < |wa| {
            assert w[k] == wa[k];
          } else {
            assert w[k] == wb[k - |wa|];
          }
        }
      }
    }
  }

  /** Typing another word can only narrow the results. */
  lemma MoreWordsNeverWiden(a: string, b: string, test: string -> WordVerdict)
    requires a != "" && b != ""
    ensures Matches(a + " " + b, test) ==> Matches(a, test)
  {
    MatchesConjunction(a, b, test);
  }

  /** A lone `!` as a further word changes nothing. */
  lemma BareBangSkipped(a: string, test: string -> WordVerdict)
    requires a != ""
    ensures Matches(a + " !", test) <==> Matches(a, test)
  {
    MatchesConjunction(a, "!", test);
    assert a + " " + "!" == a + " !";
    assert ToLower("!") == "!";
    SplitWithoutSep("!", ' ');
  }

  /** A single word without spaces is judged by the page's test on its lower-cased text, and the
      same word with a `!` in front by the inverted test; a rejection stays a rejection. */
  lemma SingleWord(w: string, test: string -> WordVerdict)
    requires w != "" && ' ' !in w && w[0] != '!'
    ensures Matches(w, test) <==> Passes(ToLower(w), test, false)
    ensures Matches("!" + w, test) <==> Passes(ToLower(w), test, true)
    ensures !test(ToLower(w)).rejectNow ==> (Matches("!" + w, test) <==> !Matches(w, test))
  {
    LowerKeepsSpaces(w);
    SplitWithoutSep(ToLower(w), ' ');
    ToLowerConcat("!", w);
    assert ToLower("!") == "!";
    var lw := ToLower("!" + w);
    assert lw == "!" + ToLower(w);
    assert ' ' !in lw;
    SplitWithoutSep(lw, ' ');
    assert lw[0] == '!' && |lw| >= 2 && lw[1..] == ToLower(w);
    assert QueryWords("!" + w) == [lw];
    assert WordAccepts(lw, test) <==> Passes(ToLower(w), test, true);
    assert AllAccept([lw], test) <==> WordAccepts(lw, test) by {
      assert [lw][0] == lw;
    }
    assert "!" + w != "";
  }
}
