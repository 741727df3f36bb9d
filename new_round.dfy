/**
 * The new-round screen: the course list and its search, the selected course,
 * the editable list of player names, and the round request it posts.
 */
module NewRound {
  import opened Wrappers
  import opened JsStrings
  import opened Seqs
  import AuthSession

  /** A course as listed by the server; `location` may be missing. */
  datatype Course = Course(id: string, name: string, location: Option<string>)

  /** The lower-cased name contains the lower-cased query, or a present location does. */
  predicate MatchesQuery(c: Course, q: string) {
    || Includes(ToLower(c.name), ToLower(q))
    || (Truthy(c.location) && Includes(ToLower(c.location.value), ToLower(q)))
  }

  function QueryFilter(q: string): Course -> bool {
    c => MatchesQuery(c, q)
  }

  /** The search effect: a blank query lists every course, any other keeps the matching ones in order. */
  function SearchCourses(courses: seq<Course>, q: string): seq<Course> {
    if Trim(q) == "" then courses else Filter(courses, QueryFilter(q))
  }

  /** A course is listed exactly when it is in the list and the query is blank or it matches. */
  lemma SearchMembership(courses: seq<Course>, q: string, c: Course)
    ensures c in SearchCourses(courses, q) <==> c in courses && (Blank(q) || MatchesQuery(c, q))
  {
    FilterMembership(courses, QueryFilter(q), c);
  }

  /** The search keeps the server's order, and lists each course as often as it was loaded or not at all. */
  lemma SearchKeepsOrder(courses: seq<Course>, q: string, c: Course)
    ensures IsSubsequence(SearchCourses(courses, q), courses)
    ensures multiset(SearchCourses(courses, q))[c] == if Blank(q) || MatchesQuery(c, q) then multiset(courses)[c] else 0
  {
    FilterIsSubsequence(courses, QueryFilter(q));
    FilterCounts(courses, QueryFilter(q), c);
    if Blank(q) { SubsequenceOfSelf(courses); }
  }

  /** Lower-casing is idempotent. */
  lemma ToLowerTwice(s: string)
    ensures ToLower(ToLower(s)) == ToLower(s)
  {
  }

  /** Lower-casing keeps white space where it is. */
  lemma BlankToLower(s: string)
    ensures Blank(ToLower(s)) <==> Blank(s)
  {
    assert forall i :: 0 <= i < |s| ==> (IsSpace(ToLower(s)[i]) <==> IsSpace(s[i]));
  }

  /** The search ignores the case of the query. */
  lemma SearchIgnoresQueryCase(courses: seq<Course>, q: string)
    ensures SearchCourses(courses, ToLower(q)) == SearchCourses(courses, q)
  {
    ToLowerTwice(q);
    BlankToLower(q);
    FilterSamePredicate(courses, QueryFilter(ToLower(q)), QueryFilter(q));
  }

  /** A query typed exactly as it appears in a course's name finds that course. */
  lemma NameFragmentMatches(c: Course, q: string, i: nat)
    requires OccursAt(c.name, q, i)
    ensures MatchesQuery(c, q)
  {
    var name := ToLower(c.name);
    assert name[i..i + |q|] == ToLower(q);
    assert OccursAt(name, ToLower(q), i);
    IncludesIff(name, ToLower(q));
  }

  /**
   * The first-course selection of the fetch callback as written: the
   * callback closes over the first render's `selectedCourse`, which is
   * `null`, so any non-empty list overwrites the current selection.
   */
  function AutoSelectAsWritten(current: Option<string>, data: seq<Course>): (r: Option<string>)
    ensures |data| > 0 ==> r == Some(data[0].id)
    ensures |data| == 0 ==> r == current
  {
    var seen: Option<string> := None;
    if !Truthy(seen) && |data| > 0 then Some(data[0].id) else current
  }

  /** The evidently intended selection: the first course only when nothing is selected yet. */
  function AutoSelect(current: Option<string>, data: seq<Course>): (r: Option<string>)
    ensures Truthy(current) ==> r == current
    ensures !Truthy(current) && |data| > 0 ==> r == Some(data[0].id)
    ensures !Truthy(current) && |data| == 0 ==> r == current
  {
    if !Truthy(current) && |data| > 0 then Some(data[0].id) else current
  }

  /** A course passed in the route is lost as written and kept by the intended selection. */
  lemma RouteCourseOverwritten()
    ensures var data := [Course("c1", "Maple Hill", None), Course("c7", "Pier Park", None)];
      && AutoSelectAsWritten(Some("c7"), data) == Some("c1")
      && AutoSelect(Some("c7"), data) == Some("c7")
  {
  }

  /** After a successful fetch a selection exists whenever there is a course to select. */
  lemma AutoSelectSelects(current: Option<string>, data: seq<Course>)
    requires |data| > 0
    ensures AutoSelect(current, data).Some?
    ensures AutoSelect(current, data) == current || AutoSelect(current, data) == Some(data[0].id)
  {
  }

  /** The name the first player row is pre-filled with: first name, then `' ' + lastName` when that is non-empty. */
  function DisplayName(u: AuthSession.User): (r: string)
    ensures u.firstName <= r
    ensures r == u.firstName <==> u.lastName == ""
    ensures u.lastName != "" ==> r[|u.firstName|..] == " " + u.lastName
  {
    u.firstName + if u.lastName != "" then " " + u.lastName else ""
  }

  const NonBlank: string -> bool := (name: string) => !Blank(name)

  /** `playerNames.slice(1).filter(name => name.trim() !== '')` */
  function AdditionalPlayers(names: seq<string>): seq<string> {
    if |names| == 0 then [] else Filter(names[1..], NonBlank)
  }

  /** The first row (the user) is never sent; of the others, every non-blank name is sent, in order, and nothing else. */
  lemma AdditionalPlayersMeaning(names: seq<string>, name: string)
    requires |names| >= 1
    ensures IsSubsequence(AdditionalPlayers(names), names[1..])
    ensures forall k :: 0 <= k < |AdditionalPlayers(names)| ==> !Blank(AdditionalPlayers(names)[k])
    ensures multiset(AdditionalPlayers(names))[name] == if Blank(name) then 0 else multiset(names[1..])[name]
  {
    FilterIsSubsequence(names[1..], NonBlank);
    FilterCounts(names[1..], NonBlank, name);
  }

  /** When every added row holds a name, all of them are sent, in row order. */
  lemma AllNamedPlayersSent(names: seq<string>)
    requires |names| >= 1
    requires forall k :: 1 <= k < |names| ==> !Blank(names[k])
    ensures AdditionalPlayers(names) == names[1..]
  {
    FilterAllKept(names[1..], NonBlank);
  }

  /** The body of the round request; the start date is the clock's and is left out. */
  datatype RoundRequest = RoundRequest(courseId: string, playerNames: seq<string>)

  class NewRoundScreen {
    var loading: bool
    var courses: seq<Course>
    var filteredCourses: seq<Course>
    var searchQuery: string
    var selectedCourse: Option<string>
    var playerNames: seq<string>

    /** There is always a player row, and the shown list is the search over the loaded list. */
    predicate Valid()
      reads this
    {
      |playerNames| >= 1 && filteredCourses == SearchCourses(courses, searchQuery)
    }

    constructor ()
      ensures Valid()
      ensures loading && courses == [] && filteredCourses == [] && searchQuery == ""
      ensures selectedCourse == None && playerNames == [""]
    {
      loading := true;
      courses, filteredCourses := [], [];
      searchQuery := "";
      selectedCourse := None;
      playerNames := [""];
      assert Trim("") == [];
    }

    /** The route-parameter effect: a non-empty `courseId` becomes the selection. */
    method ApplyCourseParam(courseId: Option<string>)
      requires Valid()
      modifies this
      ensures Valid()
      ensures selectedCourse == if Truthy(courseId) then courseId else old(selectedCourse)
      ensures courses == old(courses) && filteredCourses == old(filteredCourses) && searchQuery == old(searchQuery)
      ensures playerNames == old(playerNames) && loading == old(loading)
    {
      if Truthy(courseId) {
        selectedCourse := courseId;
      }
    }

    /**
     * `fetchCourses`, with the search effect it triggers: on an answer the
     * list is replaced and the first course is selected if nothing is; on a
     * failure the list stays. Loading ends either way.
     */
    method FetchCourses(response: Option<seq<Course>>)
      requires Valid()
      modifies this
      ensures Valid() && !loading
      ensures response.Some? ==>
                && courses == response.value
                && selectedCourse == AutoSelect(old(selectedCourse), response.value)
      ensures response.None? ==> courses == old(courses) && selectedCourse == old(selectedCourse)
      ensures searchQuery == old(searchQuery) && playerNames == old(playerNames)
    {
      loading := true;
      if response.Some? {
        var data := response.value;
        courses := data;
        filteredCourses := data;
        selectedCourse := AutoSelect(selectedCourse, data);
        if |courses| > 0 {
          filteredCourses := SearchCourses(courses, searchQuery);
        }
      }
      loading := false;
    }

    /** Typing in the search box, with the search effect it triggers. */
    method SetSearchQuery(q: string)
      requires Valid()
      modifies this
      ensures Valid()
      ensures searchQuery == q && filteredCourses == SearchCourses(courses, q)
      ensures courses == old(courses) && selectedCourse == old(selectedCourse)
      ensures playerNames == old(playerNames) && loading == old(loading)
    {
      searchQuery := q;
      if |courses| > 0 {
        filteredCourses := SearchCourses(courses, q);
      }
    }

    /** Tapping a course card selects it. */
    method SelectCourse(id: string)
      requires Valid()
      modifies this
      ensures Valid() && selectedCourse == Some(id)
      ensures courses == old(courses) && filteredCourses == old(filteredCourses)
      ensures searchQuery == old(searchQuery) && playerNames == old(playerNames) && loading == old(loading)
    {
      selectedCourse := Some(id);
    }

    /** The user effect: a user with a non-empty first name replaces the rows with their display name. */
    method PrefillUser(user: Option<AuthSession.User>)
      requires Valid()
      modifies this
      ensures Valid()
      ensures user.Some? && user.value.firstName != "" ==> playerNames == [DisplayName(user.value)]
      ensures !(user.Some? && user.value.firstName != "") ==> playerNames == old(playerNames)
      ensures courses == old(courses) && filteredCourses == old(filteredCourses) && searchQuery == old(searchQuery)
      ensures selectedCourse == old(selectedCourse) && loading == old(loading)
    {
      if user.Some? && user.value.firstName != "" {
        playerNames := [DisplayName(user.value)];
      }
    }

    /** `addPlayer`: one empty row at the end. */
    method AddPlayer()
      requires Valid()
      modifies this
      ensures Valid() && playerNames == old(playerNames) + [""]
      ensures courses == old(courses) && filteredCourses == old(filteredCourses) && searchQuery == old(searchQuery)
      ensures selectedCourse == old(selectedCourse) && loading == old(loading)
    {
      playerNames := playerNames + [""];
    }

    /** `updatePlayerName(text, index)` for a shown row: only that row changes. */
    method UpdatePlayerName(text: string, index: nat)
      requires Valid() && index < |playerNames|
      modifies this
      ensures Valid() && |playerNames| == |old(playerNames)| && playerNames[index] == text
      ensures forall k :: 0 <= k < |playerNames| && k != index ==> playerNames[k] == old(playerNames)[k]
      ensures courses == old(courses) && filteredCourses == old(filteredCourses) && searchQuery == old(searchQuery)
      ensures selectedCourse == old(selectedCourse) && loading == old(loading)
    {
      playerNames := playerNames[index := text];
    }

    /** `removePlayer(index)`: removes that row, keeping the order of the others, unless it is the only row. */
    method RemovePlayer(index: nat)
      requires Valid()
      modifies this
      ensures Valid()
      ensures playerNames == if |old(playerNames)| > 1 then RemoveAt(old(playerNames), index) else old(playerNames)
      ensures |old(playerNames)| > 1 && index < |old(playerNames)| ==>
                |playerNames| == |old(playerNames)| - 1
                && forall k :: 0 <= k < |playerNames| ==>
                     playerNames[k] == if k < index then old(playerNames)[k] else old(playerNames)[k + 1]
      ensures courses == old(courses) && filteredCourses == old(filteredCourses) && searchQuery == old(searchQuery)
      ensures selectedCourse == old(selectedCourse) && loading == old(loading)
    {
      if |playerNames| > 1 {
        playerNames := RemoveAt(playerNames, index);
      }
    }

    /** `createRound` up to the post: no request without a selected course; otherwise the course and the additional players. */
    method CreateRound() returns (r: Option<RoundRequest>)
      requires Valid()
      ensures r.Some? <==> selectedCourse.Some? && selectedCourse.value != ""
      ensures r.Some? ==> r.value == RoundRequest(selectedCourse.value, AdditionalPlayers(playerNames))
    {
      if !Truthy(selectedCourse) {
        return None;
      }
      r := Some(RoundRequest(selectedCourse.value, AdditionalPlayers(playerNames)));
    }
  }

  /** Opening the screen for a given course and loading the list keeps that course selected. */
  method OpenForCourse(courseId: string, data: seq<Course>) returns (selected: Option<string>, request: Option<RoundRequest>)
    requires courseId != ""
    ensures selected == Some(courseId)
    ensures request == Some(RoundRequest(courseId, []))
  {
    var screen := new NewRoundScreen();
    screen.ApplyCourseParam(Some(courseId));
    screen.FetchCourses(Some(data));
    selected := screen.selectedCourse;
    request := screen.CreateRound();
  }
}
