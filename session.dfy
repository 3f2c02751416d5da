/**
  The per-session state machine of the application: five pages, the
  logged-in pay-user and the session's copies of the two tables, changed
  one button press at a time.
*/
module App {
  import opened Wrappers
  import opened Tables
  import opened Queries

  datatype Page = Login | Register | MainMenu | Corridor | History

  /** The inline message a button press leaves behind, if any. */
  datatype Notice =
    | Quiet                       // nothing is reported
    | IdNotFound                  // login with an unknown ID
    | BadIdFormat                 // sign-up ID that is not twelve digits
    | IdTaken                     // sign-up ID already in the user table
    | SignedUp                    // sign-up accepted
    | CorridorFound(name: string) // search result
    | CorridorNotFound            // search without a matching row
    | UserNotFound                // history of an ID without a profile
    | NoHistory                   // history with no trip row

  datatype Kind = NoMessage | Success | Error | Warning

  /** Whether the notice is shown with `st.success`, `st.error` or `st.warning`. */
  function KindOf(n: Notice): (k: Kind)
    ensures k == NoMessage <==> n == Quiet
    ensures k == Success <==> n == SignedUp || n.CorridorFound?
    ensures k == Warning <==> n == NoHistory
  {
    match n
    case Quiet => NoMessage
    case SignedUp => Success
    case CorridorFound(_) => Success
    case NoHistory => Warning
    case _ => Error
  }

  /** The notice the history page shows for what it found. */
  function HistoryNotice(v: HistoryView): (n: Notice)
    ensures n == UserNotFound <==> v.NoProfile?
    ensures n == NoHistory <==> v.Shown? && v.rows == []
    ensures n == Quiet <==> v.Shown? && v.rows != []
  {
    match v
    case NoProfile => UserNotFound
    case Shown(_, rows) => if rows == [] then NoHistory else Quiet
  }

  /** The choices of the sex selector on the sign-up form. */
  const SexChoices: seq<string> := ["Laki-laki", "Perempuan"]

  /** The range the birth-year input accepts. */
  predicate FormValues(sex: string, birthYear: int) {
    sex in SexChoices && 1900 <= birthYear <= 2025
  }

  /** A button press, with the values of the page's inputs at that moment. */
  datatype Action =
    | PressLogin(payId: string)                                 // "Login"
    | PressRegister                                             // "Register"
    | PressSignUp(newId: string, typeCard: string, name: string,
                  sex: string, birthYear: int)                  // "Daftar"
    | PressBack                                                 // "Kembali"
    | PressFindCorridor                                         // "Cari Koridor"
    | PressHistory                                              // "Cek Riwayat"
    | PressLogout                                               // "Logout"
    | PressSearch(route: string)                                // "Cari" with the selector's value

  /**
    Whether the page, as rendered for this state, shows the button: the
    main menu renders nothing when the user has no profile, the search
    button appears only for a non-empty selector value (which is one of the
    options), and the history page stops before its back button when the
    user has no profile.
  */
  predicate Offered(page: Page, a: Action, users: seq<UserProfile>,
                    trips: seq<TripRecord>, userId: Option<string>)
    ensures Offered(page, a, users, trips, userId) && a.PressSearch? ==>
              CorridorFor(trips, a.route).Some?
    ensures Offered(page, a, users, trips, userId) && page == History ==>
              ViewHistory(users, trips, userId).Shown?
    ensures Offered(page, a, users, trips, userId) && page == MainMenu ==>
              ProfileFor(users, userId).Some?
  {
    match page
    case Login => a.PressLogin? || a.PressRegister?
    case Register => a.PressSignUp? || a.PressBack?
    case MainMenu =>
      ProfileFor(users, userId).Some? && (a.PressFindCorridor? || a.PressHistory? || a.PressLogout?)
    case Corridor => (a.PressSearch? && a.route != "" && a.route in RouteOptions(trips)) || a.PressBack?
    case History => a.PressBack? && ProfileFor(users, userId).Some?
  }

  /** The transitions of the page state machine. */
  predicate Edge(from: Page, to: Page) {
    from == to ||
    match from
    case Login => to == MainMenu || to == Register
    case Register => to == Login
    case MainMenu => to == Corridor || to == History || to == Login
    case Corridor => to == MainMenu
    case History => to == MainMenu
  }

  /**
    The history page's message for a session user: the missing-user error
    exactly without a profile, the no-history warning exactly for a
    registered user without a trip row, and nothing once rows are shown.
  */
  lemma HistoryNoticeFor(users: seq<UserProfile>, trips: seq<TripRecord>, userId: Option<string>)
    ensures HistoryNotice(ViewHistory(users, trips, userId)) == UserNotFound <==>
              userId.None? || !Registered(users, userId.value)
    ensures HistoryNotice(ViewHistory(users, trips, userId)) == NoHistory <==>
              userId.Some? && Registered(users, userId.value) &&
              forall i :: 0 <= i < |trips| ==> trips[i].payUserID != userId.value
    ensures HistoryNotice(ViewHistory(users, trips, userId)) == Quiet <==>
              userId.Some? && Registered(users, userId.value) &&
              exists i :: 0 <= i < |trips| && trips[i].payUserID == userId.value
  {
  }

  /** With no profile the history page reports the missing user and offers no button. */
  lemma HistoryWithoutProfile(users: seq<UserProfile>, trips: seq<TripRecord>, userId: Option<string>, a: Action)
    requires userId.None? || !Registered(users, userId.value)
    ensures KindOf(HistoryNotice(ViewHistory(users, trips, userId))) == Error
    ensures !Offered(History, a, users, trips, userId)
  {
  }

  /** A session: `st.session_state` with its keys `page`, `user_id`, `users` and `df`. */
  class Session {
    var page: Page
    var userId: Option<string>
    var users: seq<UserProfile>
    var trips: seq<TripRecord>

    /**
      A user ID is held exactly on the pages behind the login, and it is
      always one the user table knows (so the main menu finds a profile).
    */
    ghost predicate Valid()
      reads this
    {
      (userId.None? <==> page == Login || page == Register) &&
      (userId.Some? ==> Registered(users, userId.value))
    }

    /** A fresh session: the login page, nobody logged in, the loaded tables. */
    constructor (raw: seq<RawTrip>)
      ensures Valid()
      ensures page == Login && userId == None
      ensures trips == LoadTrips(raw) && users == LoadUsers(trips)
    {
      page := Login;
      userId := None;
      var loaded := LoadTrips(raw);
      trips := loaded;
      users := LoadUsers(loaded);
    }

    /** `go_to`: the one place the page changes. */
    method GoTo(p: Page)
      modifies this`page
      ensures page == p
    {
      page := p;
    }

    /** "Login": enter the main menu when the ID is in the user table. */
    method SubmitLogin(payId: string) returns (notice: Notice)
      requires Valid() && page == Login
      modifies this
      ensures Valid()
      ensures users == old(users) && trips == old(trips)
      ensures Registered(users, payId) ==>
                page == MainMenu && userId == Some(payId) && notice == Quiet
      ensures !Registered(users, payId) ==>
                page == Login && userId == old(userId) && notice == IdNotFound
    {
      if Registered(users, payId) {
        userId := Some(payId);
        GoTo(MainMenu);
        notice := Quiet;
      } else {
        notice := IdNotFound;
      }
    }

    /** "Register" on the login page. */
    method OpenSignUp()
      requires Valid() && page == Login
      modifies this
      ensures Valid()
      ensures page == Register
      ensures userId == old(userId) && users == old(users) && trips == old(trips)
    {
      GoTo(Register);
    }

    /**
      "Daftar": reject a malformed or taken ID and stay; otherwise append
      the new profile and return to the login page.
    */
    method SubmitSignUp(newId: string, typeCard: string, name: string, sex: string, birthYear: int)
      returns (notice: Notice)
      requires Valid() && page == Register
      requires FormValues(sex, birthYear)
      modifies this
      ensures Valid()
      ensures userId == old(userId) && trips == old(trips)
      ensures CheckRegistration(old(users), newId) == Accept ==>
                users == old(users) + [UserProfile(newId, typeCard, name, sex, birthYear)] &&
                page == Login && notice == SignedUp
      ensures CheckRegistration(old(users), newId) == RejectFormat ==>
                users == old(users) && page == Register && notice == BadIdFormat
      ensures CheckRegistration(old(users), newId) == RejectDuplicate ==>
                users == old(users) && page == Register && notice == IdTaken
    {
      if !WellFormedId(newId) {
        notice := BadIdFormat;
      } else if Registered(users, newId) {
        notice := IdTaken;
      } else {
        users := users + [UserProfile(newId, typeCard, name, sex, birthYear)];
        notice := SignedUp;
        GoTo(Login);
      }
    }

    /** "Kembali": from the sign-up form to the login page, otherwise to the main menu. */
    method Back()
      requires Valid() && (page == Register || page == Corridor || page == History)
      modifies this
      ensures Valid()
      ensures old(page) == Register ==> page == Login
      ensures old(page) != Register ==> page == MainMenu
      ensures userId == old(userId) && users == old(users) && trips == old(trips)
    {
      if page == Register {
        GoTo(Login);
      } else {
        GoTo(MainMenu);
      }
    }

    /** The name the main menu greets: that of the first profile with the user's ID. */
    method Greeting() returns (name: string)
      requires Valid() && page == MainMenu
      ensures exists i :: 0 <= i < |users| && users[i].payUserID == userId.value &&
                          name == users[i].userName &&
                          forall j :: 0 <= j < i ==> users[j].payUserID != userId.value
    {
      name := ProfileFor(users, userId).value.userName;
    }

    /** "Cari Koridor". */
    method OpenCorridor()
      requires Valid() && page == MainMenu
      modifies this
      ensures Valid()
      ensures page == Corridor
      ensures userId == old(userId) && users == old(users) && trips == old(trips)
    {
      GoTo(Corridor);
    }

    /** "Cek Riwayat". */
    method OpenHistory()
      requires Valid() && page == MainMenu
      modifies this
      ensures Valid()
      ensures page == History
      ensures userId == old(userId) && users == old(users) && trips == old(trips)
    {
      GoTo(History);
    }

    /** "Logout": forget the user and return to the login page. */
    method Logout()
      requires Valid() && page == MainMenu
      modifies this
      ensures Valid()
      ensures page == Login && userId == None
      ensures users == old(users) && trips == old(trips)
    {
      userId := None;
      GoTo(Login);
    }

    /** "Cari": report the corridor of the first trip row on the route. */
    method SearchCorridor(route: string) returns (notice: Notice)
      requires page == Corridor
      ensures notice.CorridorFound? || notice == CorridorNotFound
      ensures notice == CorridorNotFound <==>
                forall i :: 0 <= i < |trips| ==> trips[i].routeName != Some(route)
      ensures notice.CorridorFound? ==>
                exists i :: 0 <= i < |trips| && trips[i].routeName == Some(route) &&
                            notice.name == trips[i].corridorName &&
                            forall j :: 0 <= j < i ==> trips[j].routeName != Some(route)
    {
      match CorridorFor(trips, route)
      case Some(c) => notice := CorridorFound(c);
      case None => notice := CorridorNotFound;
    }

    /**
      The router: run the handler of the current page for a button that
      page shows; any other press changes nothing.
    */
    method Dispatch(a: Action) returns (notice: Notice)
      requires Valid()
      requires a.PressSignUp? ==> FormValues(a.sex, a.birthYear)
      modifies this
      ensures Valid()
      ensures trips == old(trips)
      ensures Edge(old(page), page)
      ensures !Offered(old(page), a, old(users), old(trips), old(userId)) ==>
                page == old(page) && userId == old(userId) && users == old(users) && notice == Quiet
      ensures users == old(users) ||
              (a.PressSignUp? && WellFormedId(a.newId) && IdCount(old(users), a.newId) == 0 &&
               users == old(users) + [UserProfile(a.newId, a.typeCard, a.name, a.sex, a.birthYear)])
      ensures userId != old(userId) ==>
                (old(page) == Login && page == MainMenu) ||
                (old(page) == MainMenu && page == Login && userId == None)
      ensures notice != CorridorNotFound
      // what each button the page shows does
      ensures Offered(old(page), a, old(users), old(trips), old(userId)) && a.PressLogin? ==>
                users == old(users) &&
                (Registered(old(users), a.payId) ==>
                   page == MainMenu && userId == Some(a.payId) && notice == Quiet) &&
                (!Registered(old(users), a.payId) ==>
                   page == Login && userId == old(userId) && notice == IdNotFound)
      ensures Offered(old(page), a, old(users), old(trips), old(userId)) && a.PressRegister? ==>
                page == Register && userId == old(userId) && users == old(users) && notice == Quiet
      ensures Offered(old(page), a, old(users), old(trips), old(userId)) && a.PressSignUp? ==>
                userId == old(userId) &&
                (CheckRegistration(old(users), a.newId) == Accept ==>
                   users == old(users) + [UserProfile(a.newId, a.typeCard, a.name, a.sex, a.birthYear)] &&
                   page == Login && notice == SignedUp) &&
                (CheckRegistration(old(users), a.newId) == RejectFormat ==>
                   users == old(users) && page == Register && notice == BadIdFormat) &&
                (CheckRegistration(old(users), a.newId) == RejectDuplicate ==>
                   users == old(users) && page == Register && notice == IdTaken)
      ensures Offered(old(page), a, old(users), old(trips), old(userId)) && a.PressBack? ==>
                page == (if old(page) == Register then Login else MainMenu) &&
                userId == old(userId) && users == old(users) && notice == Quiet
      ensures Offered(old(page), a, old(users), old(trips), old(userId)) && a.PressFindCorridor? ==>
                page == Corridor && userId == old(userId) && users == old(users) && notice == Quiet
      ensures Offered(old(page), a, old(users), old(trips), old(userId)) && a.PressHistory? ==>
                page == History && userId == old(userId) && users == old(users) && notice == Quiet
      ensures Offered(old(page), a, old(users), old(trips), old(userId)) && a.PressLogout? ==>
                page == Login && userId == None && users == old(users) && notice == Quiet
      ensures Offered(old(page), a, old(users), old(trips), old(userId)) && a.PressSearch? ==>
                page == Corridor && userId == old(userId) && users == old(users) &&
                notice == CorridorFound(CorridorFor(trips, a.route).value)
    {
      if !Offered(page, a, users, trips, userId) {
        return Quiet;
      }
      match page
      case Login =>
        if a.PressLogin? {
          notice := SubmitLogin(a.payId);
        } else {
          OpenSignUp();
          notice := Quiet;
        }
      case Register =>
        if a.PressSignUp? {
          notice := SubmitSignUp(a.newId, a.typeCard, a.name, a.sex, a.birthYear);
        } else {
          Back();
          notice := Quiet;
        }
      case MainMenu =>
        if a.PressFindCorridor? {
          OpenCorridor();
        } else if a.PressHistory? {
          OpenHistory();
        } else {
          Logout();
        }
        notice := Quiet;
      case Corridor =>
        if a.PressSearch? {
          SelectedRouteIsFound(trips, a.route);
          notice := SearchCorridor(a.route);
        } else {
          Back();
          notice := Quiet;
        }
      case History =>
        Back();
        notice := Quiet;
    }
  }
}

/**
  A walk through the application: a rider with trips on "Rute 1" logs in,
  opens the corridor search and finds "Corridor 1".
*/
module Walkthrough {
  import opened Wrappers
  import opened Tables
  import opened Queries
  import opened App

  method LoginAndFindCorridor() returns (notice: Notice)
    ensures notice == CorridorFound("Corridor 1")
  {
    var rider := RawTrip("T1", Str("123456789012"), "Bank", "Sari", "Perempuan", 1990,
                         "R1", Some("Rute 1"), "Corridor 1", "2023-04-01", "30", "0");
    var other := RawTrip("T2", Str("999999999999"), "Flazz", "Budi", "Laki-laki", 1985,
                         "R2", Some("Rute 2"), "Corridor 2", "2023-04-02", "45", "1");
    var s := new Session([rider, other]);
    assert ProfileRows(s.trips)[0].payUserID == "123456789012";
    assert IdColumn(s.users)[0] == "123456789012";
    var shown := s.SubmitLogin("123456789012");
    assert s.page == MainMenu;
    s.OpenCorridor();
    notice := s.SearchCorridor("Rute 1");
  }
}
