/**
 The list screen's state and the user events that change it. The filters
 live in the address (`search` and `type`); the size of the visible window
 is local to the screen. Every filter edit restates both parameters and
 shrinks the window back to one page. Moving through the browser history
 between two addresses of the list screen changes the address under a
 screen that stays mounted, so it keeps the window as it was; coming back
 from a detail page mounts the screen afresh, which is `Open`.
 */
module ListScreen {
  import opened Seqs
  import opened Address

  /** Cards added to the window by one "Load More", and the window's initial size. */
  const PageSize: nat := 12

  datatype Screen = Screen(params: Params, visibleCount: nat)

  /** The screen as first shown on the given address. */
  function Open(params: Params): (s: Screen)
    ensures s.params == params
    ensures s.visibleCount == PageSize
    ensures WindowAligned(s)
  {
    Screen(params, PageSize)
  }

  datatype Event =
    | SearchEdited(value: string)
    | TypeToggled(name: string, checked: bool)
    | TypesCleared
    | MoreLoaded
    | Navigated(params: Params)

  /** The events by which the user changes a filter on the screen itself. */
  predicate IsFilterEdit(e: Event) {
    e.SearchEdited? || e.TypeToggled? || e.TypesCleared?
  }

  /** Typing in the search box: the new text replaces the search term, the
      current selection is restated, and the window is reset. */
  function EditSearch(s: Screen, value: string): (s': Screen)
    ensures s'.params.Keys == {SearchKey, TypeKey}
    ensures SearchTerm(s'.params) == value
    ensures s'.params[TypeKey] == EncodeTypes(SelectedTypes(s.params))
    ensures SelectedTypes(s'.params) == SelectedTypes(s.params)
    ensures s'.visibleCount == PageSize
  {
    var selected := SelectedTypes(s.params);
    DecodeEncode(selected);
    Screen(Restate(value, EncodeTypes(selected)), PageSize)
  }

  /** Ticking or unticking a type's checkbox: ticking appends the type,
      unticking removes every occurrence of it; the search term is restated
      unchanged and the window is reset. */
  function ToggleType(s: Screen, name: string, checked: bool): (s': Screen)
    ensures s'.params.Keys == {SearchKey, TypeKey}
    ensures SearchTerm(s'.params) == SearchTerm(s.params)
    ensures checked && ValidTypeName(name) ==>
              SelectedTypes(s'.params) == SelectedTypes(s.params) + [name]
    ensures !checked ==> SelectedTypes(s'.params) == Without(SelectedTypes(s.params), name)
    ensures s'.visibleCount == PageSize
  {
    var selected := SelectedTypes(s.params);
    var next := if checked then selected + [name] else Without(selected, name);
    assert ValidTypeNames(next) ==> DecodeTypes(EncodeTypes(next)) == next by {
      if ValidTypeNames(next) {
        DecodeEncode(next);
      }
    }
    Screen(Restate(SearchTerm(s.params), EncodeTypes(next)), PageSize)
  }

  /** A click on a type's checkbox. The checkbox shows ticked exactly when
      the type is selected, so a click on a selected type unselects every
      copy of it and a click on any other type appends it. */
  function ClickType(s: Screen, name: string): (s': Screen)
    ensures s'.params.Keys == {SearchKey, TypeKey}
    ensures SearchTerm(s'.params) == SearchTerm(s.params)
    ensures name in SelectedTypes(s.params) ==>
              name !in SelectedTypes(s'.params)
              && SelectedTypes(s'.params) == Without(SelectedTypes(s.params), name)
    ensures name !in SelectedTypes(s.params) && ValidTypeName(name) ==>
              SelectedTypes(s'.params) == SelectedTypes(s.params) + [name]
    ensures s'.visibleCount == PageSize
  {
    ToggleType(s, name, name !in SelectedTypes(s.params))
  }

  /** "Clear Types": the selection is emptied and the search term kept. */
  function ClearTypes(s: Screen): (s': Screen)
    ensures s'.params.Keys == {SearchKey, TypeKey}
    ensures SearchTerm(s'.params) == SearchTerm(s.params)
    ensures s'.params[TypeKey] == ""
    ensures SelectedTypes(s'.params) == []
    ensures s'.visibleCount == PageSize
  {
    Screen(Restate(SearchTerm(s.params), ""), PageSize)
  }

  /** "Load More": one more page of cards; the address is untouched. */
  function LoadMore(s: Screen): (s': Screen)
    ensures s'.params == s.params
    ensures s'.visibleCount == s.visibleCount + PageSize
  {
    s.(visibleCount := s.visibleCount + PageSize)
  }

  function Step(s: Screen, e: Event): Screen {
    match e
    case SearchEdited(value) => EditSearch(s, value)
    case TypeToggled(name, checked) => ToggleType(s, name, checked)
    case TypesCleared => ClearTypes(s)
    case MoreLoaded => LoadMore(s)
    case Navigated(params) => s.(params := params)
  }

  function Run(s: Screen, events: seq<Event>): Screen
    decreases |events|
  {
    if |events| == 0 then s else Run(Step(s, events[0]), events[1..])
  }

  /** The window is always a whole, non-zero number of pages. */
  predicate WindowAligned(s: Screen) {
    s.visibleCount >= PageSize && s.visibleCount % PageSize == 0
  }

  /** Every filter edit resets the window to one page whatever it was and
      rewrites both parameters; "Load More" grows the window by exactly one
      page and keeps the address; history navigation between two list-screen
      addresses replaces the address and keeps the window. So on a mounted
      screen the window never shrinks except on a reset. */
  lemma StepWindow(s: Screen, e: Event)
    ensures IsFilterEdit(e) ==> Step(s, e).visibleCount == PageSize
    ensures IsFilterEdit(e) ==> Step(s, e).params.Keys == {SearchKey, TypeKey}
    ensures e.MoreLoaded? ==> Step(s, e).visibleCount == s.visibleCount + PageSize
    ensures e.MoreLoaded? ==> Step(s, e).params == s.params
    ensures e.Navigated? ==> Step(s, e).visibleCount == s.visibleCount
    ensures e.Navigated? ==> Step(s, e).params == e.params
    ensures !IsFilterEdit(e) ==> Step(s, e).visibleCount >= s.visibleCount
  {
  }

  /** From the screen as opened, any sequence of events keeps the window aligned. */
  lemma {:induction false} RunKeepsWindowAligned(s: Screen, events: seq<Event>)
    requires WindowAligned(s)
    ensures WindowAligned(Run(s, events))
    decreases |events|
  {
    if |events| > 0 {
      StepWindow(s, events[0]);
      RunKeepsWindowAligned(Step(s, events[0]), events[1..]);
    }
  }

  /** After any filter edit the `type` parameter is in the form the screen
      writes, so reading and restating it changes nothing. */
  lemma FilterEditCanonical(s: Screen, e: Event)
    requires IsFilterEdit(e)
    requires e.TypeToggled? && e.checked ==> ValidTypeName(e.name)
    ensures EncodeTypes(SelectedTypes(Step(s, e).params)) == Step(s, e).params[TypeKey]
  {
  }

  /** Clicking a type that is not selected and then clicking it again leaves
      the selection and the search term as they were. */
  lemma ClickTwice(s: Screen, name: string)
    requires ValidTypeName(name) && name !in SelectedTypes(s.params)
    ensures SelectedTypes(ClickType(ClickType(s, name), name).params) == SelectedTypes(s.params)
    ensures SearchTerm(ClickType(ClickType(s, name), name).params) == SearchTerm(s.params)
  {
    var selected := SelectedTypes(s.params);
    var once := ClickType(s, name);
    assert SelectedTypes(once.params) == selected + [name];
    assert name in SelectedTypes(once.params);
    var twice := ToggleType(once, name, false);
    assert ClickType(once, name) == twice;
    WithoutAppended(selected, name);
  }
}
