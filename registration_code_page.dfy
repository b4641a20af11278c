/** The registration-code admin page: the list of sign-up codes, filtered with the shared search
    semantics. */
module RegistrationCodePage {
  import opened Wrappers
  import opened Text
  import opened SearchQuery
  import opened SearchFilterStorage

  /** One sign-up code; `None` is an absent optional field. */
  datatype RegistrationCode = RegistrationCode(clearanceLevel: int, role: Option<string>, code: string, textNote: Option<string>)

  /** The storage key under which this page keeps its search filter. */
  const FilterKey: string := "registrationCode"

  /** A word is mentioned by a code: a piece of its decimal clearance level, of its present
      lower-cased note or role, or of the lower-cased code itself. */
  predicate Mentions(c: RegistrationCode, w: string)
  {
    Contains(ToLower(IntToString(c.clearanceLevel)), w) ||
    (c.textNote.Some? && Contains(ToLower(c.textNote.value), w)) ||
    (c.role.Some? && Contains(ToLower(c.role.value), w)) ||
    Contains(ToLower(c.code), w)
  }

  function CodeTest(c: RegistrationCode): string -> WordVerdict
  {
    (w: string) => WordVerdict(Mentions(c, w), false)
  }

  /** A single word matches exactly the codes that mention it, and with `!` in front exactly the
      others. */
  lemma WordMatchesMentions(c: RegistrationCode, w: string)
    requires w != "" && ' ' !in w && w[0] != '!'
    ensures Matches(w, CodeTest(c)) <==> Mentions(c, ToLower(w))
    ensures Matches("!" + w, CodeTest(c)) <==> !Mentions(c, ToLower(w))
  {
    SingleWord(w, CodeTest(c));
  }

  /** Typing a code (in any case) finds it, and `!` in front of it hides it. */
  lemma CodeSearchFindsCode(c: RegistrationCode)
    requires c.code != "" && ' ' !in c.code && c.code[0] != '!'
    ensures Matches(c.code, CodeTest(c))
    ensures !Matches("!" + c.code, CodeTest(c))
  {
    WordMatchesMentions(c, c.code);
    ContainsAt(ToLower(c.code), ToLower(c.code), 0);
  }

  /** An absent note and role never match: such a code is found only through its level or its
      code. */
  lemma AbsentFieldsNeverMatch(c: RegistrationCode, w: string)
    requires c.textNote.None? && c.role.None?
    ensures Mentions(c, w) <==> Contains(ToLower(IntToString(c.clearanceLevel)), w) || Contains(ToLower(c.code), w)
  {
  }

  /** The empty word fits every code, through its code text. */
  lemma BlankFilterMatchesAll(c: RegistrationCode)
    ensures Matches(" ", CodeTest(c))
  {
    assert ToLower(" ") == " ";
    assert " "[1..] == "";
    assert QueryWords(" ") == ["", ""];
    assert Contains(ToLower(c.code), "");
  }

  class RegistrationCodeManager {
    var searchFilter: string

    constructor(store: FilterStore)
      ensures searchFilter == store.GetSearchFilters(FilterKey)
    {
      searchFilter := store.GetSearchFilters(FilterKey);
    }

    /** The search box: the typed filter is saved for this page and used at once. */
    method OnSearchChange(store: FilterStore, value: string)
      modifies this, store
      ensures searchFilter == value && store.GetSearchFilters(FilterKey) == value
      ensures store.blob == Some(Put(old(store.blob), FilterKey, value))
    {
      store.SetSearchFilters(FilterKey, value);
      searchFilter := value;
    }

    /** `doesThisProjectMatchSearch`: the word loop with its flags. */
    method DoesThisProjectMatchSearch(project: RegistrationCode) returns (fitsSearch: bool)
      ensures fitsSearch == Matches(searchFilter, CodeTest(project))
      ensures searchFilter == "" ==> fitsSearch
    {
      if searchFilter == "" {
        return true;
      }
      ghost var test := CodeTest(project);
      fitsSearch := true;
      var allQueryWords := Split(ToLower(searchFilter), ' ');
      for i := 0 to |allQueryWords|
        invariant fitsSearch <==> forall k :: 0 <= k < i ==> WordAccepts(allQueryWords[k], test)
      {
        var queryWord := allQueryWords[i];
        var keywordFits := true;
        var inverse := false;
        if |queryWord| > 0 && queryWord[0] == '!' {
          if |queryWord| < 2 {
            continue;
          }
          inverse := true;
          queryWord := queryWord[1..];
        }
        if !Contains(ToLower(IntToString(project.clearanceLevel)), queryWord) &&
           !(project.textNote.Some? && Contains(ToLower(project.textNote.value), queryWord)) &&
           !(project.role.Some? && Contains(ToLower(project.role.value), queryWord)) &&
           !Contains(ToLower(project.code), queryWord) {
          keywordFits := false;
        }
        if inverse {
          keywordFits := !keywordFits;
        }
        if !keywordFits {
          fitsSearch := false;
        }
      }
    }
  }
}
