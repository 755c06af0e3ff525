/**
 What the list screen shows, derived afresh from the roster query, one
 membership query per selected type (in selection order), the search term
 and the window size: the base list, the cards matching the search, the
 cards inside the window, whether "Load More" is offered, and the combined
 loading and error state.
 */
module ListView {
  import opened Seqs
  import opened Text
  import opened Queries
  import opened Address
  import opened ListScreen

  /** One roster entry: a creature's name and the address of its record. */
  datatype Entry = Entry(name: string, url: string)

  /** The roster as far as it has arrived: nothing until the query has loaded. */
  function Roster(q: Query<seq<Entry>>): seq<Entry> {
    if q.Loaded? then q.value else []
  }

  /** Whether an entry's name is among the given names. */
  function NamedIn(names: set<string>): Entry -> bool {
    (e: Entry) => e.name in names
  }

  /** The list before the search is applied. With no type selected it is the
      roster; otherwise it is the roster entries named by any loaded membership
      list (a union over the selected types), still in roster order. */
  function BaseList(roster: Query<seq<Entry>>, selected: seq<string>,
                    typeQueries: seq<Query<seq<string>>>): (base: seq<Entry>)
    ensures !roster.Loaded? ==> base == []
    ensures roster.Loaded? && |selected| == 0 ==> base == roster.value
    ensures IsSubseq(base, Roster(roster))
    ensures forall e :: e in base <==>
              e in Roster(roster)
              && (|selected| == 0
                  || exists i :: 0 <= i < |typeQueries| && typeQueries[i].Loaded?
                                 && e.name in typeQueries[i].value)
    ensures forall i :: 0 <= i < |Roster(roster)| ==>
              multiset(base)[Roster(roster)[i]]
              == if |selected| == 0 || Roster(roster)[i].name in MemberNames(typeQueries)
                 then multiset(Roster(roster))[Roster(roster)[i]] else 0
  {
    var entries := Roster(roster);
    if |selected| > 0 then
      var keep := NamedIn(MemberNames(typeQueries));
      KeepIsSubseq(entries, keep);
      Keep(entries, keep)
    else
      SubseqRefl(entries);
      entries
  }

  /** Case-insensitive substring match of the search term against a name. */
  predicate Matches(name: string, term: string) {
    Includes(Lower(name), Lower(term))
  }

  /** Matching ignores case on both sides: lower-casing the name or the term
      first changes nothing. */
  lemma MatchesIgnoresCase(name: string, term: string)
    ensures Matches(Lower(name), term) == Matches(name, term)
    ensures Matches(name, Lower(term)) == Matches(name, term)
  {
    LowerIdempotent(name);
    LowerIdempotent(term);
  }

  function MatchingEntry(term: string): Entry -> bool {
    (e: Entry) => Matches(e.name, term)
  }

  /** The base entries whose name matches the search term, in base order. */
  function Filtered(base: seq<Entry>, term: string): (filtered: seq<Entry>)
    ensures IsSubseq(filtered, base)
    ensures forall e :: e in filtered <==> e in base && Matches(e.name, term)
    ensures term == "" ==> filtered == base
    ensures forall i :: 0 <= i < |base| ==>
              multiset(filtered)[base[i]] == if Matches(base[i].name, term) then multiset(base)[base[i]] else 0
  {
    var matching := MatchingEntry(term);
    KeepIsSubseq(base, matching);
    assert term == "" ==> Keep(base, matching) == base by {
      if term == "" {
        forall i | 0 <= i < |base|
          ensures matching(base[i])
        {
          IncludesEmpty(Lower(base[i].name));
        }
        KeepAll(base, matching);
      }
    }
    Keep(base, matching)
  }

  /** The cards inside the window: the first `visibleCount` matching cards. */
  function Displayed(filtered: seq<Entry>, visibleCount: nat): (shown: seq<Entry>)
    ensures shown <= filtered
    ensures |shown| == if visibleCount < |filtered| then visibleCount else |filtered|
  {
    Take(filtered, visibleCount)
  }

  /** "Load More" is offered when some matching card lies outside the window. */
  function LoadMoreOffered(filtered: seq<Entry>, visibleCount: nat): (offered: bool)
    ensures offered <==> Displayed(filtered, visibleCount) != filtered
  {
    |filtered| > visibleCount
  }

  /** The list is loading when the roster is, or, with types selected, when
      any membership query is. */
  function IsLoading(roster: Query<seq<Entry>>, selected: seq<string>,
                     typeQueries: seq<Query<seq<string>>>): (loading: bool)
    ensures loading <==> roster.Loading?
                         || (|selected| > 0 && exists i :: 0 <= i < |typeQueries| && typeQueries[i].Loading?)
  {
    if |selected| > 0 then AnyLoading(typeQueries) || roster.Loading? else roster.Loading?
  }

  /** The list's error: with types selected, the first failed membership query
      in selection order, else the roster's error; with none, the roster's. */
  function ListError(roster: Query<seq<Entry>>, selected: seq<string>,
                     typeQueries: seq<Query<seq<string>>>): (error: Option<string>)
    ensures |selected| == 0 ==> error == ErrorOf(roster)
    ensures (forall i :: 0 <= i < |typeQueries| ==> !typeQueries[i].Failed?) ==> error == ErrorOf(roster)
    ensures |selected| > 0 && (exists i :: 0 <= i < |typeQueries| && typeQueries[i].Failed?) ==>
              error.Some?
              && exists i :: 0 <= i < |typeQueries| && typeQueries[i] == Failed(error.value)
                             && forall j :: 0 <= j < i ==> !typeQueries[j].Failed?
  {
    if |selected| > 0 then
      match FirstError(typeQueries)
      case Some(e) => Some(e)
      case None => ErrorOf(roster)
    else ErrorOf(roster)
  }

  /** An entry is found by the search exactly when it is in the roster, its
      name matches the term, and no type is selected or some loaded membership
      list names it. */
  lemma SearchResultMembers(roster: Query<seq<Entry>>, selected: seq<string>,
                            typeQueries: seq<Query<seq<string>>>, term: string)
    ensures forall e :: e in Filtered(BaseList(roster, selected, typeQueries), term) <==>
              e in Roster(roster) && Matches(e.name, term)
              && (|selected| == 0
                  || exists i :: 0 <= i < |typeQueries| && typeQueries[i].Loaded?
                                 && e.name in typeQueries[i].value)
  {
    var base := BaseList(roster, selected, typeQueries);
    forall e
      ensures e in Filtered(base, term) <==> e in base && Matches(e.name, term)
    {
    }
  }

  datatype View = View(base: seq<Entry>, filtered: seq<Entry>, displayed: seq<Entry>,
                       loadMore: bool, loading: bool, error: Option<string>)

  /** Everything the list screen derives on one render. The screen runs one
      membership query per selected type, so there are as many as selected types. */
  function Derive(roster: Query<seq<Entry>>, typeQueries: seq<Query<seq<string>>>, s: Screen): (v: View)
    requires |typeQueries| == |SelectedTypes(s.params)|
    ensures IsSubseq(v.displayed, v.filtered) && IsSubseq(v.filtered, v.base)
    ensures IsSubseq(v.base, Roster(roster))
    ensures v.displayed <= v.filtered
    ensures |v.displayed| == if s.visibleCount < |v.filtered| then s.visibleCount else |v.filtered|
    ensures v.loadMore <==> |v.filtered| > s.visibleCount
  {
    var selected := SelectedTypes(s.params);
    var base := BaseList(roster, selected, typeQueries);
    var filtered := Filtered(base, SearchTerm(s.params));
    var displayed := Displayed(filtered, s.visibleCount);
    PrefixIsSubseq(filtered, |displayed|);
    assert displayed == filtered[..|displayed|];
    View(base, filtered, displayed,
         LoadMoreOffered(filtered, s.visibleCount),
         IsLoading(roster, selected, typeQueries),
         ListError(roster, selected, typeQueries))
  }

  /** What one render shows, in terms of the queries and the address alone:
      the cards found by the search are the roster entries that match the
      term and, with types selected, are named by some loaded membership list;
      the list is loading when the roster is or, with types selected, some
      membership query is; and its error is the first failed membership query
      in selection order when types are selected and one failed, else the
      roster's. */
  lemma DeriveMeaning(roster: Query<seq<Entry>>, typeQueries: seq<Query<seq<string>>>, s: Screen)
    requires |typeQueries| == |SelectedTypes(s.params)|
    ensures forall e :: e in Derive(roster, typeQueries, s).filtered <==>
              e in Roster(roster) && Matches(e.name, SearchTerm(s.params))
              && (|SelectedTypes(s.params)| == 0
                  || exists i :: 0 <= i < |typeQueries| && typeQueries[i].Loaded?
                                 && e.name in typeQueries[i].value)
    ensures Derive(roster, typeQueries, s).loading <==>
              roster.Loading?
              || (|SelectedTypes(s.params)| > 0
                  && exists i :: 0 <= i < |typeQueries| && typeQueries[i].Loading?)
    ensures |SelectedTypes(s.params)| == 0 ==>
              Derive(roster, typeQueries, s).error == ErrorOf(roster)
    ensures (forall i :: 0 <= i < |typeQueries| ==> !typeQueries[i].Failed?) ==>
              Derive(roster, typeQueries, s).error == ErrorOf(roster)
    ensures |SelectedTypes(s.params)| > 0 && (exists i :: 0 <= i < |typeQueries| && typeQueries[i].Failed?) ==>
              Derive(roster, typeQueries, s).error.Some?
              && exists i :: 0 <= i < |typeQueries|
                             && typeQueries[i] == Failed(Derive(roster, typeQueries, s).error.value)
                             && forall j :: 0 <= j < i ==> !typeQueries[j].Failed?
  {
    SearchResultMembers(roster, SelectedTypes(s.params), typeQueries, SearchTerm(s.params));
  }

  /** Every card on show is a roster entry, shown in roster order. */
  lemma DisplayedFromRoster(roster: Query<seq<Entry>>, typeQueries: seq<Query<seq<string>>>, s: Screen)
    requires |typeQueries| == |SelectedTypes(s.params)|
    ensures IsSubseq(Derive(roster, typeQueries, s).displayed, Roster(roster))
    ensures |Derive(roster, typeQueries, s).displayed| <= |Roster(roster)|
  {
    var v := Derive(roster, typeQueries, s);
    SubseqTrans(v.displayed, v.filtered, v.base);
    SubseqTrans(v.displayed, v.base, Roster(roster));
    SubseqBounds(v.displayed, Roster(roster));
  }

  /** Which of the four panels the list area shows. */
  datatype Panel = LoadingPanel | ErrorPanel(message: string) | Cards(shown: seq<Entry>, loadMore: bool) | NothingFound

  function ListPanel(v: View): (p: Panel)
    ensures p.LoadingPanel? <==> v.loading
    ensures p.ErrorPanel? <==> !v.loading && v.error.Some?
    ensures p.Cards? <==> !v.loading && v.error.None? && |v.filtered| > 0
    ensures p.Cards? ==> p.shown == v.displayed && p.loadMore == v.loadMore
  {
    if v.loading then LoadingPanel
    else if v.error.Some? then ErrorPanel(v.error.value)
    else if |v.filtered| > 0 then Cards(v.displayed, v.loadMore)
    else NothingFound
  }

  /** While the queries stand still, "Load More" keeps the matching cards,
      shows the ones already on show first and strictly more of them, and keeps
      the window at most one page past the end of the list. */
  lemma LoadMoreShowsMore(roster: Query<seq<Entry>>, typeQueries: seq<Query<seq<string>>>, s: Screen)
    requires |typeQueries| == |SelectedTypes(s.params)|
    ensures |typeQueries| == |SelectedTypes(LoadMore(s).params)|
    ensures Derive(roster, typeQueries, LoadMore(s)).filtered == Derive(roster, typeQueries, s).filtered
    ensures Derive(roster, typeQueries, s).displayed <= Derive(roster, typeQueries, LoadMore(s)).displayed
    ensures Derive(roster, typeQueries, s).loadMore ==>
              |Derive(roster, typeQueries, s).displayed| < |Derive(roster, typeQueries, LoadMore(s)).displayed|
    ensures Derive(roster, typeQueries, s).loadMore ==>
              LoadMore(s).visibleCount <= |Derive(roster, typeQueries, LoadMore(s)).filtered| + PageSize
  {
  }

  /** After "Clear Types" the list is the roster again, searched, and its
      loading and error state is the roster's alone, whatever the membership
      queries that were running had come to. */
  lemma ClearedShowsRoster(roster: Query<seq<Entry>>, s: Screen)
    ensures Derive(roster, [], ClearTypes(s)).base == Roster(roster)
    ensures Derive(roster, [], ClearTypes(s)).filtered == Filtered(Roster(roster), SearchTerm(s.params))
    ensures Derive(roster, [], ClearTypes(s)).loading == roster.Loading?
    ensures Derive(roster, [], ClearTypes(s)).error == ErrorOf(roster)
  {
  }
}
