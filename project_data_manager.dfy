/** The project-data admin page: free-form JSON records tagged with a project id. The page shows
    each record's attributes as their JSON text wrapped in one pair of double quotes, strips that
    pair again before parsing, and filters the list with the shared search semantics. */
module ProjectDataManager {
  import opened Wrappers
  import opened Text
  import opened SearchQuery
  import opened SearchFilterStorage
  import DisplayItemsEditor

  datatype ProjectData = ProjectData(projectId: string, attributes: string, clearanceLevelNeeded: int)

  /** The storage key this page reads its saved filter from. */
  const FilterKey: string := "projectData"

  /** The storage key the search box of this page writes to. */
  const WrittenFilterKey: string := "projects"

  /** `JSON.stringify({})`. */
  const EmptyObjectJson: string := "{}"

  /** `"${text}"`: the form's representation of an attributes JSON text. */
  function Wrap(json: string): (r: string)
    ensures |r| == |json| + 2 && r[0] == '"' && r[|r| - 1] == '"' && r[1..|r| - 1] == json
  {
    "\"" + json + "\""
  }

  /** The form the page opens with and resets to: no id, the empty object, level 0. */
  const InitialForm: ProjectData := ProjectData("", Wrap(EmptyObjectJson), 0)

  // ---------------------------------------------------------------------------------------------
  // Quote wrapping

  /** The strip in `handleSubmit` and `isValidData`: a text that starts and ends with a double
      quote loses its first and last character. For the one-character text `"` the two bounds
      cross, JavaScript swaps them, and the text is left as it is. */
  function StripQuotes(data: string): (r: string)
    ensures |data| >= 2 && data[0] == '"' && data[|data| - 1] == '"' ==> r == data[1..|data| - 1]
    ensures !(|data| >= 2 && data[0] == '"' && data[|data| - 1] == '"') ==> r == data
  {
    if StartsWith(data, "\"") && EndsWith(data, "\"") then Substring(data, 1, |data| - 1) else data
  }

  /** Stripping undoes the wrapping done when records are fetched. */
  lemma StripUndoesWrap(json: string)
    ensures StripQuotes(Wrap(json)) == json
  {
  }

  /** At most one pair of quotes goes: the result is the text itself or its inside. */
  lemma StripRemovesAtMostOnePair(data: string)
    ensures var r := StripQuotes(data);
      r == data || (|data| >= 2 && r == data[1..|data| - 1] && data[0] == '"' && data[|data| - 1] == '"')
    ensures StripQuotes("\"") == "\""
    ensures StripQuotes("\"\"") == ""
  {
    assert StartsWith("\"", "\"") && EndsWith("\"", "\"");
    assert Substring("\"", 1, 0) == "\"";
  }

  /** `isValidData`: whether the text, stripped of one quote pair, parses as JSON. `parses`
      stands for `JSON.parse` succeeding; the check itself never fails. */
  function IsValidData(data: string, parses: string -> bool): (valid: bool)
  {
    parses(StripQuotes(data))
  }

  /** A fetched record's attributes are valid exactly when their JSON text parses, and the
      opening form is valid when `{}` parses. */
  lemma FetchedAttributesValid(json: string, parses: string -> bool)
    ensures IsValidData(Wrap(json), parses) == parses(json)
    ensures IsValidData(InitialForm.attributes, parses) == parses(EmptyObjectJson)
  {
    StripUndoesWrap(json);
    StripUndoesWrap(EmptyObjectJson);
  }

  /** `emptyEditingCheck`: no id typed and the attributes still the empty object. */
  function EmptyEditingCheck(p: ProjectData): (empty: bool)
    ensures empty <==> p.projectId == "" && p.attributes == "\"{}\""
  {
    if p.projectId != "" then false
    else p.attributes == Wrap(EmptyObjectJson)
  }

  /** The opening form is empty, and stays empty whatever clearance level is chosen; any typed
      id makes it non-empty. */
  lemma InitialFormIsEmpty(level: int, id: string)
    ensures EmptyEditingCheck(InitialForm)
    ensures EmptyEditingCheck(InitialForm.(clearanceLevelNeeded := level))
    ensures id != "" ==> !EmptyEditingCheck(InitialForm.(projectId := id))
  {
  }

  // ---------------------------------------------------------------------------------------------
  // Search

  /** A word is mentioned by a record: a piece of its lower-cased id, of its lower-cased
      attributes text, or of its decimal clearance level. */
  predicate Mentions(p: ProjectData, w: string)
  {
    Contains(ToLower(p.projectId), w) || Contains(ToLower(p.attributes), w) ||
    Contains(IntToString(p.clearanceLevelNeeded), w)
  }

  function RecordTest(p: ProjectData): string -> WordVerdict
  {
    (w: string) => WordVerdict(Mentions(p, w), false)
  }

  /** A single word matches exactly the records that mention it, and with `!` in front exactly
      the others. */
  lemma WordMatchesMentions(p: ProjectData, w: string)
    requires w != "" && ' ' !in w && w[0] != '!'
    ensures Matches(w, RecordTest(p)) <==> Mentions(p, ToLower(w))
    ensures Matches("!" + w, RecordTest(p)) <==> !Mentions(p, ToLower(w))
  {
    SingleWord(w, RecordTest(p));
  }

  /** Digits are their own lower case. */
  lemma DigitsAreLower(s: string)
    requires forall k :: 0 <= k < |s| ==> '0' <= s[k] <= '9'
    ensures ToLower(s) == s
  {
  }

  /** Searching for a record's non-negative level finds the record. */
  lemma LevelSearchFindsRecord(p: ProjectData)
    requires p.clearanceLevelNeeded >= 0
    ensures Matches(NatToString(p.clearanceLevelNeeded), RecordTest(p))
  {
    var digits := NatToString(p.clearanceLevelNeeded);
    DigitsAreLower(digits);
    WordMatchesMentions(p, digits);
    ContainsAt(digits, digits, 0);
  }

  /** The empty word fits every record. */
  lemma BlankFilterMatchesAll(p: ProjectData)
    ensures Matches(" ", RecordTest(p))
  {
    assert ToLower(" ") == " ";
    assert " "[1..] == "";
    assert QueryWords(" ") == ["", ""];
    assert Contains(ToLower(p.projectId), "");
  }

  // ---------------------------------------------------------------------------------------------
  // The saved search filter

  /** The search box as written: the typed filter is stored under the display-item page's key. */
  function SearchChangeAsWritten(blob: Option<Filters>, value: string): Filters
  {
    Put(blob, WrittenFilterKey, value)
  }

  /** As written, the filter typed here is never restored on this page, and it replaces the
      display-item page's saved filter instead. */
  lemma SearchFilterNotRestored(blob: Option<Filters>, value: string)
    ensures Lookup(Some(SearchChangeAsWritten(blob, value)), FilterKey) == Lookup(blob, FilterKey)
    ensures Lookup(Some(SearchChangeAsWritten(blob, value)), DisplayItemsEditor.FilterKey) == value
    ensures Lookup(Some(SearchChangeAsWritten(None, "abc")), FilterKey) != "abc"
  {
    PutThenLookup(blob, WrittenFilterKey, value, FilterKey);
    PutThenLookup(None, WrittenFilterKey, "abc", FilterKey);
  }

  /** The search box as intended: the filter is stored under the key this page reads. */
  function SearchChange(blob: Option<Filters>, value: string): Filters
  {
    Put(blob, FilterKey, value)
  }

  /** The page, opened again, shows the filter last typed on it, and the display-item page keeps
      its own filter. */
  lemma SearchFilterRestored(blob: Option<Filters>, value: string)
    ensures Lookup(Some(SearchChange(blob, value)), FilterKey) == value
    ensures Lookup(Some(SearchChange(blob, value)), DisplayItemsEditor.FilterKey) ==
      Lookup(blob, DisplayItemsEditor.FilterKey)
  {
    PutThenLookup(blob, FilterKey, value, DisplayItemsEditor.FilterKey);
  }

  // ---------------------------------------------------------------------------------------------
  // The page

  class ProjectDataManagerPage {
    var newProject: ProjectData
    var searchFilter: string

    constructor(store: FilterStore)
      ensures newProject == InitialForm && searchFilter == store.GetSearchFilters(FilterKey)
    {
      newProject := InitialForm;
      searchFilter := store.GetSearchFilters(FilterKey);
    }

    /** The search box as written: the filter is used at once but stored under the display-item
        page's key, so this page's own saved filter stays as it was. */
    method OnSearchChange(store: FilterStore, value: string)
      modifies this, store
      ensures searchFilter == value && newProject == old(newProject)
      ensures store.blob == Some(SearchChangeAsWritten(old(store.blob), value))
      ensures store.GetSearchFilters(FilterKey) == old(store.GetSearchFilters(FilterKey))
      ensures store.GetSearchFilters(DisplayItemsEditor.FilterKey) == value
    {
      store.SetSearchFilters(WrittenFilterKey, value);
      searchFilter := value;
    }

    /** The Clear button. */
    method ClearForm()
      modifies this
      ensures newProject == InitialForm && EmptyEditingCheck(newProject)
      ensures searchFilter == old(searchFilter)
    {
      newProject := ProjectData("", Wrap(EmptyObjectJson), 0);
    }

    /** The attributes text `handleSubmit` hands to `JSON.parse`. */
    method SubmittedAttributes() returns (json: string)
      ensures json == StripQuotes(newProject.attributes)
      ensures newProject == InitialForm ==> json == EmptyObjectJson
    {
      json := newProject.attributes;
      if StartsWith(json, "\"") && EndsWith(json, "\"") {
        json := Substring(json, 1, |json| - 1);
      }
    }

    /** `doesThisProjectMatchSearch`: the word loop with its flags. */
    method DoesThisProjectMatchSearch(project: ProjectData) returns (fitsSearch: bool)
      ensures fitsSearch == Matches(searchFilter, RecordTest(project))
      ensures searchFilter == "" ==> fitsSearch
    {
      if searchFilter == "" {
        return true;
      }
      ghost var test := RecordTest(project);
      fitsSearch := true;
      var allQueryWords := Split(ToLower(searchFilter), ' ');
      for i := 0 to |allQueryWords|
        invariant fitsSearch <==> forall k :: 0 <= k < i ==> WordAccepts(allQueryWords[k], test)
      {
        var queryWord := allQueryWords[i];
        var keywordFits := true;
        var inverse := false;
        if |queryWord| > 0 && queryWord[0] == '!' {
          if |queryWord| < 2 {
            continue;
          }
          inverse := true;
          queryWord := queryWord[1..];
        }
        if !Contains(ToLower(project.projectId), queryWord) &&
           !Contains(ToLower(project.attributes), queryWord) &&
           !Contains(IntToString(project.clearanceLevelNeeded), queryWord) {
          keywordFits := false;
        }
        if inverse {
          keywordFits := !keywordFits;
        }
        if !keywordFits {
          fitsSearch := false;
        }
      }
    }
  }
}
