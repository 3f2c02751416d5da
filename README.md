# TransJakarta rider front-end: session model

This project models the logic of `app.py`, a small Streamlit form application
over a TransJakarta ridership spreadsheet. A rider logs in with a pay-user ID
or registers a new one. The rider can then look up the corridor of a route
and view their own trip history.

Under the widget calls the application is a per-session state machine. The
session record holds the current page (`login`, `register`, `main_menu`,
`corridor`, `history`), the logged-in pay-user ID, the session's copy of the
user table and the trip table. Each button press is one guarded transition.
The data logic is a handful of lookups over the two in-memory tables.

Layout, one module per concern:

- `wrappers.dfy` (`Wrappers`): `Option`, standing in for Python's `None`.
- `seqs.dfy` (`Seqs`): the two dataframe idioms the code relies on. "First
  row where ..." (a boolean mask followed by `.iloc[0]`) is `FirstWhere`.
  "Drop repeated rows, keeping the first" (`drop_duplicates`, `unique`) is
  `Dedup`.
- `text.dfy` (`Text`): `str.isdigit`, the decimal rendering that
  `astype(str)` gives a numeric ID, and Python's code-point string order with
  the sort the route selector uses.
- `tables.dfy` (`Tables`): the trip and user records and `load_data`.
- `queries.dfy` (`Queries`): the pure lookups. These are login membership,
  the registration guard, the current user's profile, the corridor search and
  its route list, and the history filter.
- `session.dfy` (`App`, `Walkthrough`): the `Session` class. It has one
  method per button, `GoTo` for `go_to`, and `Dispatch` for the router at the
  end of the file. A short walkthrough client follows the class.

The session invariant `Session.Valid` holds that a user ID is set exactly on
the three pages behind the login, and that it is always an ID of the user
table. The main menu indexes the first matching profile without a check
(app.py:85). The invariant is what makes that safe. Every handler and the
router preserve it.

Two facts about `app.py` shape the user table and the sign-up guard:

- The user table is `drop_duplicates()` over the five profile columns
  (app.py:11). One pay-user ID can therefore appear in several rows when its
  trip rows disagree on name, card type, sex or birth year.
  `LoadedUsersExactlyOnce` states what the code guarantees: each distinct
  profile tuple appears exactly once. `LoadedProfileIsFirstTrip` states which
  profile the lookups then find.
- The format check on a new pay-user ID runs before the duplicate check
  (app.py:63-66). A malformed ID is reported as malformed even when it is
  already registered.

## Model

| member | source | states |
|---|---|---|
| `Text.Decimal` | app.py:10 | `astype(str)` of a numeric ID is a non-empty digit string with no leading zero |
| `Text.DecimalRoundTrip` | app.py:10 | reading the rendered digits back gives the original number |
| `Tables.NumericIdsStayDistinct` | app.py:10 | two different numeric IDs never become the same string |
| `Tables.LoadTrips` | app.py:9-10 | the trip table keeps every row, in order, with every column as read except the ID, which becomes the string form of its raw cell |
| `Seqs.Dedup` | app.py:11 | dropping repeated rows keeps every value that occurs, and no value twice |
| `Seqs.DistinctCounts` | app.py:11 | in a table without repeated rows every row occurs exactly once |
| `Tables.LoadedUsersExactlyOnce` | app.py:11 | the loaded user table holds each distinct profile tuple of the trip table exactly once, and nothing else |
| `Seqs.DedupKeepsFirst` | app.py:11 | dropping repeated rows keeps, for any condition, the first row that meets it |
| `Tables.LoadUsers` | app.py:11 | the user table has no repeated row, holds the profile columns of every trip row, and nothing else |
| `Queries.LoadedProfileIsFirstTrip` | app.py:11 | the profile found for an ID in the loaded user table is the profile columns of that ID's first trip row |
| `App.Session.constructor` | app.py:19-26 | a fresh session is on the login page, has no user and holds the loaded trip and user tables |
| `App.Session.GoTo` | app.py:31-32 | `go_to` sets the page and changes nothing else |
| `App.Session.SubmitLogin` | app.py:42-47 | a registered ID becomes the session's user and opens the main menu; an unknown ID reports an error and leaves page, user and tables as they were |
| `App.Session.OpenSignUp` | app.py:49-50 | the Register button opens the sign-up form and changes nothing else |
| `Queries.CheckRegistration` | app.py:62-66 | the format error is reported exactly when the ID is not twelve digits, before uniqueness is considered; the duplicate error exactly when a well-formed ID is already in the user table |
| `App.Session.SubmitSignUp` | app.py:62-77 | a rejected sign-up leaves the user table alone and stays on the form with the matching error; an accepted one appends exactly the submitted profile at the end and returns to login |
| `Queries.RegistrationAddsOne` | app.py:65-75 | after an accepted sign-up the new ID passes the login check, its row count goes from 0 to 1, every other ID's count is unchanged, and the lookup finds exactly the submitted profile |
| `Queries.Registered` | app.py:43 | an ID passes the membership test (login here, the duplicate check at app.py:65) exactly when some row of the user table carries it |
| `App.Session.Back` | app.py:79-80 | "Kembali" leads from the sign-up form to login, and from the corridor page (app.py:110-111) and the history page (app.py:137-138) to the main menu, touching nothing else |
| `Queries.ProfileFor` | app.py:85 | a profile is found exactly when the session's ID is in the user table; it is the first row with that ID |
| `App.Session.Greeting` | app.py:84-86 | the main menu greets the user by the name in the first profile row with the user's ID, which the session invariant guarantees exists |
| `App.Session.OpenCorridor` | app.py:88-89 | "Cari Koridor" opens the corridor page without touching the user or the tables |
| `App.Session.OpenHistory` | app.py:90-91 | "Cek Riwayat" opens the history page without touching the user or the tables |
| `App.Session.Logout` | app.py:92-94 | logout clears the user and returns to the login page |
| `Queries.RouteNames` | app.py:100 | the route list without missing cells holds exactly the route names that occur in the trip table |
| `Queries.RouteOptions` | app.py:100-101 | the selector lists every route name of the trip table, once, in strictly ascending code-point order, and nothing else |
| `Text.LexTransitive` | app.py:101 | the string order used for sorting is transitive |
| `Text.LexTotal` | app.py:101 | any two different strings are ordered one way or the other |
| `Text.LexIrreflexive` | app.py:101 | no string comes before itself |
| `Text.Insert` | app.py:101 | inserting into a sorted list adds exactly the one element |
| `Text.Sort` | app.py:101 | sorting is a permutation of its input |
| `Text.SortAscending` | app.py:101 | sorting a list without repetitions gives a strictly ascending list |
| `Text.SortMembers` | app.py:101 | sorting neither adds nor loses a member |
| `Seqs.FirstWhere` | app.py:104-106 | the first position, in table order, that meets the condition, or none when no position does |
| `Queries.CorridorFor` | app.py:104-108 | the search yields the corridor of the first trip row on the route, and nothing exactly when no row is on the route |
| `Queries.SelectedRouteIsFound` | app.py:101-106 | a route taken from the selector always has a corridor, so "not found" cannot follow a selection |
| `App.Session.SearchCorridor` | app.py:103-108 | "Cari" reports the corridor of the first matching row, or the not-found error exactly when no row is on the route, and changes nothing |
| `Queries.TripIndices` | app.py:131 | the positions of the user's trip rows, ascending, and every such position |
| `Queries.TripHistory` | app.py:131 | the history of an ID is empty exactly when no trip row carries that ID, and never longer than the trip table |
| `Queries.HistoryIsUsersTrips` | app.py:131 | the history has one row per trip of the user, in table order, each the five shown columns of that trip |
| `Queries.ViewHistory` | app.py:118-135 | the history page reports a missing user exactly when the ID is unset or has no profile; otherwise it shows the first profile with that ID, and its rows are empty ("no history") exactly when the user has no trip row |
| `App.HistoryNotice` | app.py:120-135 | the history page reports the missing user exactly when nothing was found, the no-history warning exactly when a profile was found without trip rows, and nothing exactly when rows are shown |
| `App.HistoryNoticeFor` | app.py:118-135 | for a session user, the missing-user error appears exactly when the ID is unset or unregistered, the no-history warning exactly when a registered user has no trip row, and nothing exactly when a registered user has one |
| `App.HistoryWithoutProfile` | app.py:120-122 | without a profile the history page shows an error and returns before offering any button |
| `App.Offered` | app.py:38-40 | which buttons each page shows (login: app.py:38-40; sign-up: 62, 79; main menu: 85-92; corridor: 103, 110; history: 120-122, 137): a search button shown for a selector value always finds a corridor, the history page shows a button only when it found a profile, and the main menu only when the user has one |
| `App.KindOf` | app.py:47 | which inline call reports each outcome: nothing for a quiet press, `st.success` for a sign-up or a found corridor (app.py:76, 106), `st.warning` for an empty history (app.py:133), `st.error` for every other notice (app.py:47, 64, 66, 108, 121) |
| `App.Session.Dispatch` | app.py:143-152 | every button the current page shows runs that page's handler: login, sign-up, back, the three menu buttons and search each have their outcome stated (page, user, user table, notice); a button the page does not show changes nothing; the router keeps the session invariant, moves only along the page diagram and never reports "not found" |
| `Walkthrough.LoginAndFindCorridor` | app.py:103-106 | a rider on "Rute 1" who logs in and searches that route is shown "Corridor 1" |

## Left out

- Rendering: titles, greetings, tables and message texts are not modelled. A
  button press yields only the kind of inline message (`Notice`, `KindOf`).
- Streamlit's rerun-per-click execution is not modelled. One button press is
  one method call, and `Dispatch` takes the press together with the values of
  the page's inputs.
- Reading `TransJakarta_FP.xlsx` is not modelled. The raw rows are the
  constructor's input. A failed read has no counterpart.
- `@st.cache_data` and sharing between sessions are not modelled. Each
  session is one object.
- `Tables.IdString`: a numeric ID cell is a non-negative integer rendered in
  decimal. Float cells (a column with missing IDs) and negative numbers are
  not modelled.
- Cell types: trip ID, route ID, date, duration and direction are opaque
  strings. Missing values are modelled only for the route name, the one column
  the code drops them from. Pandas' rendering of other missing cells is not
  modelled.
- `Text.IsDigitString`: `str.isdigit` is limited to ASCII `'0'..'9'`. Python
  also accepts other Unicode digits.
- `App.Session.SubmitSignUp`: the sex choice and the 1900–2025 birth-year range
  are enforced by the input widgets. They are preconditions, not validation
  logic.
- `App.Offered`: the route selector is assumed to return one of its options. A
  selector with no options returns nothing, and the search button is then not
  shown.
- The main menu with a user ID that has no profile raises an IndexError in the
  source. The session invariant rules that state out, and `Offered` shows no
  button for it.
