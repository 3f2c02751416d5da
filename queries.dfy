/**
  The lookups the pages perform over the two tables: login membership,
  the registration guard, the current user's profile, the corridor search
  and its route selector, and the trip history.
*/
module Queries {
  import opened Wrappers
  import opened Seqs
  import opened Text
  import opened Tables

  // ----- users -----

  /** The `payUserID` column of the user table. */
  function IdColumn(users: seq<UserProfile>): (ids: seq<string>)
    ensures |ids| == |users|
    ensures forall i :: 0 <= i < |users| ==> ids[i] == users[i].payUserID
  {
    seq(|users|, i requires 0 <= i < |users| => users[i].payUserID)
  }

  /** The ID occurs in the `payUserID` column (app.py, login and duplicate check). */
  predicate Registered(users: seq<UserProfile>, id: string)
    ensures Registered(users, id) <==> exists i :: 0 <= i < |users| && users[i].payUserID == id
  {
    id in IdColumn(users)
  }

  /** How many rows of the user table carry the ID. */
  function IdCount(users: seq<UserProfile>, id: string): nat {
    multiset(IdColumn(users))[id]
  }

  /**
    The first row of the user table whose ID equals the session's user ID;
    a missing user ID (Python's None) matches no row.
  */
  function ProfileFor(users: seq<UserProfile>, userId: Option<string>): (r: Option<UserProfile>)
    ensures r.Some? <==> userId.Some? && Registered(users, userId.value)
    ensures r.Some? ==> exists i :: 0 <= i < |users| && users[i] == r.value &&
                                    users[i].payUserID == userId.value &&
                                    forall j :: 0 <= j < i ==> users[j].payUserID != userId.value
  {
    match userId
    case None => None
    case Some(id) =>
      var found := FirstWhere(users, (u: UserProfile) => u.payUserID == id);
      assert found.None? <==> id !in IdColumn(users);
      if found.Some? then Some(users[found.value]) else None
  }

  /**
    For the loaded user table, the profile found for an ID is made of the
    profile columns of that ID's first trip row.
  */
  lemma LoadedProfileIsFirstTrip(trips: seq<TripRecord>, id: string, i: nat)
    requires i < |trips| && trips[i].payUserID == id
    requires forall j :: 0 <= j < i ==> trips[j].payUserID != id
    ensures ProfileFor(LoadUsers(trips), Some(id)) == Some(ProfileColumns(trips[i]))
  {
    var has := (u: UserProfile) => u.payUserID == id;
    var rows := ProfileRows(trips);
    DedupKeepsFirst(rows, has);
    FirstWhereIs(rows, has, i);
    var users := LoadUsers(trips);
    var k := FirstWhere(users, has).value;
    assert users[k] == rows[i];
  }

  // ----- registration -----

  /** A new pay-user ID must be twelve digits. */
  predicate WellFormedId(id: string) {
    IsDigitString(id) && |id| == 12
  }

  datatype Verdict = Accept | RejectFormat | RejectDuplicate

  /** The guard of the sign-up button: the format is checked first, then uniqueness. */
  function CheckRegistration(users: seq<UserProfile>, id: string): (v: Verdict)
    ensures v == RejectFormat <==> |id| != 12 || exists i :: 0 <= i < |id| && !IsDigit(id[i])
    ensures v == RejectDuplicate <==> v != RejectFormat && IdCount(users, id) > 0
    ensures v == Accept ==> |id| == 12 && IdCount(users, id) == 0
  {
    if !WellFormedId(id) then RejectFormat
    else if Registered(users, id) then RejectDuplicate
    else Accept
  }

  /**
    An accepted sign-up appends a profile whose ID is then present exactly
    once, found by the lookup, with every other ID's count unchanged.
  */
  lemma RegistrationAddsOne(users: seq<UserProfile>, p: UserProfile)
    requires CheckRegistration(users, p.payUserID) == Accept
    ensures Registered(users + [p], p.payUserID)
    ensures IdCount(users, p.payUserID) == 0 && IdCount(users + [p], p.payUserID) == 1
    ensures forall id :: id != p.payUserID ==> IdCount(users + [p], id) == IdCount(users, id)
    ensures ProfileFor(users + [p], Some(p.payUserID)) == Some(p)
  {
    var after := users + [p];
    assert IdColumn(after) == IdColumn(users) + [p.payUserID];
    assert multiset(IdColumn(after)) == multiset(IdColumn(users)) + multiset{p.payUserID};
  }

  // ----- corridor search -----

  /** The corridor name of the first trip row, in table order, on the given route. */
  function CorridorFor(trips: seq<TripRecord>, route: string): (r: Option<string>)
    ensures r.None? <==> forall i :: 0 <= i < |trips| ==> trips[i].routeName != Some(route)
    ensures r.Some? ==> exists i :: 0 <= i < |trips| && trips[i].routeName == Some(route) &&
                                    r.value == trips[i].corridorName &&
                                    forall j :: 0 <= j < i ==> trips[j].routeName != Some(route)
  {
    match FirstWhere(trips, (t: TripRecord) => t.routeName == Some(route))
    case None => None
    case Some(i) => Some(trips[i].corridorName)
  }

  /** The route-name column without its missing cells (`dropna`). */
  function RouteNames(trips: seq<TripRecord>): (names: seq<string>)
    ensures forall r :: r in names <==> exists i :: 0 <= i < |trips| && trips[i].routeName == Some(r)
  {
    if |trips| == 0 then []
    else
      var init := trips[..|trips| - 1];
      var last := trips[|trips| - 1];
      assert forall i :: 0 <= i < |init| ==> init[i] == trips[i];
      RouteNames(init) + (if last.routeName.Some? then [last.routeName.value] else [])
  }

  /**
    The options of the route selector: each route name that occurs in the
    trip table, once, in ascending order, and nothing else.
  */
  function RouteOptions(trips: seq<TripRecord>): (options: seq<string>)
    ensures StrictlyAscending(options)
    ensures forall r :: r in options <==> exists i :: 0 <= i < |trips| && trips[i].routeName == Some(r)
  {
    var distinct := Dedup(RouteNames(trips));
    SortAscending(distinct);
    assert forall r :: r in Sort(distinct) <==> r in distinct by {
      forall r ensures r in Sort(distinct) <==> r in distinct {
        SortMembers(distinct, r);
      }
    }
    Sort(distinct)
  }

  /** Searching a route offered by the selector always finds a corridor. */
  lemma SelectedRouteIsFound(trips: seq<TripRecord>, route: string)
    requires route in RouteOptions(trips)
    ensures CorridorFor(trips, route).Some?
  {
  }

  // ----- history -----

  /** The five columns the history page shows. */
  datatype HistoryRow = HistoryRow(
    transID: string, routeID: string, transDate: string, duration: string, direction: string)

  function HistoryColumns(t: TripRecord): HistoryRow {
    HistoryRow(t.transID, t.routeID, t.transDate, t.duration, t.direction)
  }

  /** The trip rows of one pay-user, in table order, cut down to the five history columns. */
  function TripHistory(trips: seq<TripRecord>, id: string): (rows: seq<HistoryRow>)
    ensures |rows| <= |trips|
    ensures rows == [] <==> forall i :: 0 <= i < |trips| ==> trips[i].payUserID != id
  {
    if |trips| == 0 then []
    else
      var init := trips[..|trips| - 1];
      var last := trips[|trips| - 1];
      assert forall i :: 0 <= i < |init| ==> init[i] == trips[i];
      TripHistory(init, id) + (if last.payUserID == id then [HistoryColumns(last)] else [])
  }

  /** The positions of one pay-user's trip rows, in ascending order. */
  function TripIndices(trips: seq<TripRecord>, id: string): (idx: seq<nat>)
    ensures forall k :: 0 <= k < |idx| ==> idx[k] < |trips| && trips[idx[k]].payUserID == id
    ensures forall k, l :: 0 <= k < l < |idx| ==> idx[k] < idx[l]
    ensures forall i :: 0 <= i < |trips| && trips[i].payUserID == id ==> i in idx
  {
    if |trips| == 0 then []
    else
      var n := |trips| - 1;
      var init := trips[..n];
      assert forall i :: 0 <= i < n ==> init[i] == trips[i];
      TripIndices(init, id) + (if trips[n].payUserID == id then [n] else [])
  }

  /**
    The history holds exactly the user's trip rows: row k is the projection
    of the k-th trip of that user, the trips taken in table order.
  */
  lemma {:induction false} HistoryIsUsersTrips(trips: seq<TripRecord>, id: string)
    ensures |TripHistory(trips, id)| == |TripIndices(trips, id)|
    ensures forall k :: 0 <= k < |TripHistory(trips, id)| ==>
              TripHistory(trips, id)[k] == HistoryColumns(trips[TripIndices(trips, id)[k]])
  {
    if |trips| > 0 {
      var n := |trips| - 1;
      var init := trips[..n];
      HistoryIsUsersTrips(init, id);
      var rows, idx := TripHistory(init, id), TripIndices(init, id);
      var rowTail := if trips[n].payUserID == id then [HistoryColumns(trips[n])] else [];
      var idxTail := if trips[n].payUserID == id then [n] else [];
      assert TripHistory(trips, id) == rows + rowTail;
      assert TripIndices(trips, id) == idx + idxTail;
      forall k | 0 <= k < |rows + rowTail|
        ensures (rows + rowTail)[k] == HistoryColumns(trips[(idx + idxTail)[k]])
      {
        if k < |rows| {
          assert idx[k] < n && init[idx[k]] == trips[idx[k]];
        }
      }
    }
  }

  /** What the history page shows: an error, or the profile and its trip rows. */
  datatype HistoryView = NoProfile | Shown(profile: UserProfile, rows: seq<HistoryRow>)

  /**
    The page reports a missing user exactly when the ID has no profile;
    otherwise it shows the first profile with the ID and that ID's trip
    rows, which are empty exactly when the user has no trip row.
  */
  function ViewHistory(users: seq<UserProfile>, trips: seq<TripRecord>, userId: Option<string>): (v: HistoryView)
    ensures v.NoProfile? <==> userId.None? || !Registered(users, userId.value)
    ensures v.Shown? ==> Some(v.profile) == ProfileFor(users, userId) && v.profile.payUserID == userId.value
    ensures v.Shown? ==>
              (v.rows == [] <==> forall i :: 0 <= i < |trips| ==> trips[i].payUserID != userId.value)
  {
    match ProfileFor(users, userId)
    case None => NoProfile
    case Some(p) => Shown(p, TripHistory(trips, userId.value))
  }
}
