/** The display-item admin page: its search box, the edits on the info-page list of the item
    being edited, and the two form checks that decide which buttons are shown. */
module DisplayItemsEditor {
  import opened Wrappers
  import opened Text
  import opened SearchQuery
  import opened ItemDisplayModel
  import opened SearchFilterStorage

  /** The storage key under which this page keeps its search filter. */
  const FilterKey: string := "projects"

  /** The form the page opens with: every text empty, one blank page, no tags. */
  const InitialForm: ItemDisplay :=
    ItemDisplay(None, "", Some(""), Some(""), Some(""), [BlankPage], false, false, false, [], "")

  /** The form a successful submit resets to: thumbnail, description and link are left absent. */
  const SubmittedForm: ItemDisplay :=
    ItemDisplay(None, "", None, None, None, [BlankPage], false, false, false, [], "")

  // ---------------------------------------------------------------------------------------------
  // Search

  /** A word (lower-cased, without its `!`) is mentioned by the item: the spoiler or nsfw flag
      word, or a piece of the lower-cased title, serialised pages, a tag, the type, or a present
      description or link. `stringify` is the JSON serialisation of the pages. */
  predicate Mentions(item: ItemDisplay, stringify: seq<InfoPage> -> string, w: string)
  {
    (item.spoiler && Contains("spoiler", w)) ||
    (item.nsfw && Contains("nsfw", w)) ||
    Contains(ToLower(item.title), w) ||
    Contains(ToLower(stringify(item.infoPages)), w) ||
    (exists k :: 0 <= k < |item.tags| && Contains(ToLower(item.tags[k]), w)) ||
    Contains(ToLower(item.displayItemType), w) ||
    (item.description.Some? && Contains(ToLower(item.description.value), w)) ||
    (item.link.Some? && Contains(ToLower(item.link.value), w))
  }

  /** A piece of "hidden" or "shown" is a visibility word; it fits when it names the item's
      visibility. */
  predicate IsVisibilityWord(w: string)
  {
    Contains("hidden", w) || Contains("shown", w)
  }

  predicate VisibilityFits(item: ItemDisplay, w: string)
  {
    (item.hidden && Contains("hidden", w)) || (!item.hidden && Contains("shown", w))
  }

  /** This page's verdict on a word: a visibility word always fits, but a visibility mismatch
      rejects the item outright; any other word fits when the item mentions it. */
  function ItemVerdict(item: ItemDisplay, stringify: seq<InfoPage> -> string, w: string): WordVerdict
  {
    if IsVisibilityWord(w) then WordVerdict(true, !VisibilityFits(item, w))
    else WordVerdict(Mentions(item, stringify, w), false)
  }

  function ItemTest(item: ItemDisplay, stringify: seq<InfoPage> -> string): string -> WordVerdict
  {
    (w: string) => ItemVerdict(item, stringify, w)
  }

  /** Which of the two visibility words is a piece of which. */
  lemma VisibilityWordFacts()
    ensures Contains("hidden", "hidden") && Contains("shown", "shown")
    ensures !Contains("shown", "hidden") && !Contains("hidden", "shown")
    ensures ToLower("hidden") == "hidden" && ToLower("shown") == "shown"
  {
    assert "hidden"[..6] == "hidden" && "shown"[..5] == "shown";
    assert "hidden"[1..] == "idden" && "idden"[1..] == "dden";
    assert "hidden"[..5][0] == 'h' && "idden"[..5][0] == 'i';
    assert !Contains("dden", "shown");
    assert LowerChar('h') == 'h' && LowerChar('i') == 'i' && LowerChar('d') == 'd' && LowerChar('e') == 'e';
    assert LowerChar('n') == 'n' && LowerChar('s') == 's' && LowerChar('o') == 'o' && LowerChar('w') == 'w';
  }

  /** `!hidden` rejects every item: for a hidden item the match is inverted, for a shown one the
      visibility mismatch rejects regardless of the `!`. */
  lemma NegatedHiddenRejectsAll(item: ItemDisplay, stringify: seq<InfoPage> -> string)
    ensures !Matches("!hidden", ItemTest(item, stringify))
  {
    var test := ItemTest(item, stringify);
    VisibilityWordFacts();
    assert test("hidden").keywordFits;
    assert !Passes("hidden", test, true);
    SingleWord("hidden", test);
    assert "!hidden" == "!" + "hidden";
  }

  /** `hidden` selects exactly the hidden items and `shown` exactly the others. */
  lemma VisibilityWordsSelect(item: ItemDisplay, stringify: seq<InfoPage> -> string)
    ensures Matches("hidden", ItemTest(item, stringify)) <==> item.hidden
    ensures Matches("shown", ItemTest(item, stringify)) <==> !item.hidden
  {
    var test := ItemTest(item, stringify);
    VisibilityWordFacts();
    SingleWord("hidden", test);
    SingleWord("shown", test);
    assert test("hidden") == WordVerdict(true, !item.hidden);
    assert test("shown") == WordVerdict(true, item.hidden);
  }

  /** The empty word (two spaces, or a trailing space) fits every item through the visibility
      branch. */
  lemma BlankFilterMatchesAll(item: ItemDisplay, stringify: seq<InfoPage> -> string)
    ensures Matches(" ", ItemTest(item, stringify))
  {
    assert ToLower(" ") == " ";
    assert " "[1..] == "";
    assert QueryWords(" ") == ["", ""];
    assert Contains("hidden", "") && Contains("shown", "");
  }

  /** Any other single word matches exactly the items that mention it, and with a `!` in front
      exactly the items that do not. */
  lemma OrdinaryWordMatchesMentions(item: ItemDisplay, stringify: seq<InfoPage> -> string, w: string)
    requires w != "" && ' ' !in w && w[0] != '!'
    requires !IsVisibilityWord(ToLower(w))
    ensures Matches(w, ItemTest(item, stringify)) <==> Mentions(item, stringify, ToLower(w))
    ensures Matches("!" + w, ItemTest(item, stringify)) <==> !Mentions(item, stringify, ToLower(w))
  {
    SingleWord(w, ItemTest(item, stringify));
  }

  // ---------------------------------------------------------------------------------------------
  // Info-page list edits

  datatype PageField = Title | Content

  /** `{ ...page, [field]: value }`. */
  function EditedPage(page: InfoPage, field: PageField, value: string): InfoPage
  {
    match field
    case Title => page.(title := value)
    case Content => page.(content := value)
  }

  /** Writing a field sets it and leaves the other field as it was; a second write wins. */
  lemma EditedPageFields(page: InfoPage, field: PageField, value: string, later: string)
    ensures field == Title ==> EditedPage(page, field, value) == InfoPage(value, page.content)
    ensures field == Content ==> EditedPage(page, field, value) == InfoPage(page.title, value)
    ensures EditedPage(EditedPage(page, field, value), field, later) == EditedPage(page, field, later)
  {
  }

  /** `moveInfoPage`: the pages with `index` and `index + direction` swapped, or unchanged when
      the other position is outside the list. */
  function Moved(pages: seq<InfoPage>, index: nat, direction: int): seq<InfoPage>
    requires index < |pages|
  {
    var other := index + direction;
    if other < 0 || other >= |pages| then pages
    else pages[index := pages[other]][other := pages[index]]
  }

  /** A move exchanges the two pages, keeps every other page and the multiset of pages, and is
      undone by the opposite move from the new position. */
  lemma MoveSwapsNeighbours(pages: seq<InfoPage>, index: nat, direction: int)
    requires index < |pages| && (direction == -1 || direction == 1)
    requires 0 <= index + direction < |pages|
    ensures var r := Moved(pages, index, direction);
      |r| == |pages| &&
      r[index] == pages[index + direction] && r[index + direction] == pages[index] &&
      (forall k :: 0 <= k < |pages| && k != index && k != index + direction ==> r[k] == pages[k]) &&
      multiset(r) == multiset(pages) &&
      Moved(r, index + direction, -direction) == pages
  {
    var r := Moved(pages, index, direction);
    var other := index + direction;
    var back := Moved(r, other, -direction);
    assert back == r[other := r[index]][index := r[other]];
    assert back == pages;
  }

  /** A move toward a position outside the list changes nothing. */
  lemma MoveOffTheEndIsNoOp(pages: seq<InfoPage>)
    requires |pages| > 0
    ensures Moved(pages, 0, -1) == pages
    ensures Moved(pages, |pages| - 1, 1) == pages
  {
  }

  /** `removeInfoPage`: every page whose position is not `index`, in order. */
  function Removed(pages: seq<InfoPage>, index: int): (r: seq<InfoPage>)
    ensures 0 <= index < |pages| ==> |r| == |pages| - 1
    ensures 0 <= index < |pages| ==> forall k :: 0 <= k < index ==> r[k] == pages[k]
    ensures 0 <= index < |pages| ==> forall k :: index <= k < |r| ==> r[k] == pages[k + 1]
    ensures !(0 <= index < |pages|) ==> r == pages
  {
    if 0 <= index < |pages| then pages[..index] + pages[index + 1..] else pages
  }

  /** Removing a page takes exactly that page out of the multiset of pages. */
  lemma RemovedTakesOnePage(pages: seq<InfoPage>, index: nat)
    requires index < |pages|
    ensures multiset(Removed(pages, index)) + multiset{pages[index]} == multiset(pages)
  {
    assert pages == pages[..index] + [pages[index]] + pages[index + 1..];
  }

  /** `addInfoPage` followed by removing the page it added gives the list back. */
  lemma RemoveUndoesAdd(pages: seq<InfoPage>)
    ensures Removed(pages + [BlankPage], |pages|) == pages
  {
    assert (pages + [BlankPage])[..|pages|] == pages;
  }

  // ---------------------------------------------------------------------------------------------
  // Form checks

  /** `previewableCheck`: there is something to preview unless the only page is blank. */
  function PreviewableCheck(p: ItemDisplay): (previewable: bool)
    ensures previewable <==> p.infoPages != [BlankPage]
  {
    if |p.infoPages| != 1 then true
    else if p.infoPages[0].title != "" then true
    else p.infoPages[0].content != ""
  }

  /** `emptyEditingCheck`: nothing has been typed. An absent text field is not `""`, so it counts
      as filled in. */
  function EmptyEditingCheck(p: ItemDisplay): (empty: bool)
    ensures empty <==>
      p.title == "" && p.thumbnailImage == Some("") && p.description == Some("") &&
      p.link == Some("") && p.infoPages == [BlankPage] && p.tags == []
  {
    if p.title != "" then false
    else if p.thumbnailImage != Some("") then false
    else if p.description != Some("") then false
    else if p.link != Some("") then false
    else if |p.infoPages| != 1 then false
    else if p.infoPages[0].title != "" then false
    else if p.infoPages[0].content != "" then false
    else |p.tags| == 0
  }

  /** An empty form has nothing to preview; the opening form is empty, but the form a submit
      resets to is not, because it lacks the three optional fields. */
  lemma FormChecks(p: ItemDisplay)
    ensures EmptyEditingCheck(p) ==> !PreviewableCheck(p)
    ensures EmptyEditingCheck(InitialForm) && !PreviewableCheck(InitialForm)
    ensures !EmptyEditingCheck(SubmittedForm) && !PreviewableCheck(SubmittedForm)
  {
  }

  /** Adding a page to a non-empty list always gives something to preview. */
  lemma AddedPageIsPreviewable(p: ItemDisplay)
    requires |p.infoPages| >= 1
    ensures PreviewableCheck(p.(infoPages := p.infoPages + [BlankPage]))
  {
  }

  // ---------------------------------------------------------------------------------------------
  // The page

  /** The branches of the search callback that look at one word (stripped of its `!`): a
      visibility word keeps `keywordFits` but may reject the item at once; otherwise the word
      fits when a flag word or a field mentions it. */
  method JudgeWord(project: ItemDisplay, stringify: seq<InfoPage> -> string, queryWord: string)
    returns (keywordFits: bool, rejectNow: bool)
    ensures WordVerdict(keywordFits, rejectNow) == ItemVerdict(project, stringify, queryWord)
  {
    keywordFits := true;
    rejectNow := false;
    if Contains("hidden", queryWord) || Contains("shown", queryWord) {
      if project.hidden && Contains("hidden", queryWord) {
        keywordFits := true;
      } else if !project.hidden && Contains("shown", queryWord) {
        keywordFits := true;
      } else {
        rejectNow := true;
      }
    } else if project.spoiler && Contains("spoiler", queryWord) {
      keywordFits := true;
    } else if project.nsfw && Contains("nsfw", queryWord) {
      keywordFits := true;
    } else if !Contains(ToLower(project.title), queryWord) &&
              !Contains(ToLower(stringify(project.infoPages)), queryWord) &&
              !(exists k :: 0 <= k < |project.tags| && Contains(ToLower(project.tags[k]), queryWord)) &&
              !Contains(ToLower(project.displayItemType), queryWord) &&
              !(project.description.Some? && Contains(ToLower(project.description.value), queryWord)) &&
              !(project.link.Some? && Contains(ToLower(project.link.value), queryWord)) {
      keywordFits := false;
    }
  }

  class DisplayItemsManager {
    var newProject: ItemDisplay
    var previewProject: Option<ItemDisplay>
    var searchFilter: string

    /** The page opens with the blank form and the filter saved for this page. */
    constructor(store: FilterStore)
      ensures newProject == InitialForm && previewProject == None
      ensures searchFilter == store.GetSearchFilters(FilterKey)
    {
      newProject := InitialForm;
      previewProject := None;
      searchFilter := store.GetSearchFilters(FilterKey);
    }

    /** The search box: the typed filter is saved for this page and used at once. */
    method OnSearchChange(store: FilterStore, value: string)
      modifies this, store
      ensures searchFilter == value && store.GetSearchFilters(FilterKey) == value
      ensures store.blob == Some(Put(old(store.blob), FilterKey, value))
      ensures newProject == old(newProject) && previewProject == old(previewProject)
    {
      store.SetSearchFilters(FilterKey, value);
      searchFilter := value;
    }

    /** `doesThisProjectMatchSearch`: the word loop with its flags. */
    method DoesThisProjectMatchSearch(project: ItemDisplay, stringify: seq<InfoPage> -> string)
      returns (fitsSearch: bool)
      ensures fitsSearch == Matches(searchFilter, ItemTest(project, stringify))
      ensures searchFilter == "" ==> fitsSearch
    {
      if searchFilter == "" {
        return true;
      }
      ghost var test := ItemTest(project, stringify);
      fitsSearch := true;
      var allQueryWords := Split(ToLower(searchFilter), ' ');
      for i := 0 to |allQueryWords|
        invariant fitsSearch <==> forall k :: 0 <= k < i ==> WordAccepts(allQueryWords[k], test)
      {
        var queryWord := allQueryWords[i];
        var keywordFits := true;
        var inverse := false;
        if |queryWord| > 0 && queryWord[0] == '!' {
          if |queryWord| < 2 {
            continue;
          }
          inverse := true;
          queryWord := queryWord[1..];
        }
        assert WordAccepts(allQueryWords[i], test) <==> Passes(queryWord, test, inverse);
        var rejectNow;
        keywordFits, rejectNow := JudgeWord(project, stringify, queryWord);
        if rejectNow {
          fitsSearch := false;
        }
        if inverse {
          keywordFits := !keywordFits;
        }
        if !keywordFits {
          fitsSearch := false;
        }
      }
    }

    /** `moveInfoPage`, from the arrow buttons beside page `index`. */
    method MoveInfoPage(index: nat, direction: int)
      requires index < |newProject.infoPages| && (direction == -1 || direction == 1)
      modifies this
      ensures index + direction < 0 || index + direction >= |old(newProject.infoPages)| ==>
        newProject == old(newProject) && previewProject == old(previewProject)
      ensures 0 <= index + direction < |old(newProject.infoPages)| ==>
        newProject == old(newProject).(infoPages := Moved(old(newProject.infoPages), index, direction)) &&
        previewProject == Some(newProject)
      ensures searchFilter == old(searchFilter)
    {
      var pages := newProject.infoPages;
      var newIndex := index + direction;
      if newIndex < 0 || newIndex >= |pages| {
        return;
      }
      var moving := pages[index];
      pages := pages[index := pages[newIndex]];
      pages := pages[newIndex := moving];
      newProject := newProject.(infoPages := pages);
      previewProject := Some(newProject);
    }

    /** `handleInfoPageChange`, from the title and content inputs of page `index`. */
    method HandleInfoPageChange(index: nat, field: PageField, value: string)
      requires index < |newProject.infoPages|
      modifies this
      ensures newProject == old(newProject).(infoPages :=
        old(newProject.infoPages)[index := EditedPage(old(newProject.infoPages)[index], field, value)])
      ensures previewProject == Some(newProject) && searchFilter == old(searchFilter)
    {
      var pages := newProject.infoPages;
      pages := pages[index := EditedPage(pages[index], field, value)];
      newProject := newProject.(infoPages := pages);
      previewProject := Some(newProject);
    }

    /** `addInfoPage`: one blank page at the end. */
    method AddInfoPage()
      modifies this
      ensures newProject == old(newProject).(infoPages := old(newProject.infoPages) + [BlankPage])
      ensures previewProject == old(previewProject) && searchFilter == old(searchFilter)
    {
      newProject := newProject.(infoPages := newProject.infoPages + [BlankPage]);
    }

    /** `removeInfoPage`, from the delete button of page `index`. */
    method RemoveInfoPage(index: int)
      modifies this
      ensures newProject == old(newProject).(infoPages := Removed(old(newProject.infoPages), index))
      ensures previewProject == old(previewProject) && searchFilter == old(searchFilter)
    {
      newProject := newProject.(infoPages := Removed(newProject.infoPages, index));
    }
  }
}
