/**
  The two in-memory tables and how they are loaded (app.py, `load_data`):
  the trip table with its pay-user IDs turned into strings, and the user
  table made of the distinct profile columns of the trip rows.
*/
module Tables {
  import opened Wrappers
  import opened Seqs
  import opened Text

  /** A pay-user ID cell as the spreadsheet reader delivers it. */
  datatype RawId = Num(n: nat) | Str(s: string)

  /** One spreadsheet row, before the ID column is converted. */
  datatype RawTrip = RawTrip(
    transID: string, payUserID: RawId,
    typeCard: string, userName: string, userSex: string, userBirthYear: int,
    routeID: string, routeName: Option<string>, corridorName: string,
    transDate: string, duration: string, direction: string)

  /** One row of the trip table: a single ride by a pay-user. */
  datatype TripRecord = TripRecord(
    transID: string, payUserID: string,
    typeCard: string, userName: string, userSex: string, userBirthYear: int,
    routeID: string, routeName: Option<string>, corridorName: string,
    transDate: string, duration: string, direction: string)

  /** One row of the user table. */
  datatype UserProfile = UserProfile(
    payUserID: string, typeCard: string, userName: string, userSex: string, userBirthYear: int)

  /** `astype(str)` on one cell: a number becomes its decimal digits, text stays as it is. */
  function IdString(id: RawId): string {
    match id
    case Num(n) => Decimal(n)
    case Str(s) => s
  }

  function ToTrip(r: RawTrip): TripRecord {
    TripRecord(r.transID, IdString(r.payUserID), r.typeCard, r.userName, r.userSex,
               r.userBirthYear, r.routeID, r.routeName, r.corridorName,
               r.transDate, r.duration, r.direction)
  }

  /** The five profile columns of a trip row. */
  function ProfileColumns(t: TripRecord): UserProfile {
    UserProfile(t.payUserID, t.typeCard, t.userName, t.userSex, t.userBirthYear)
  }

  /** The trip table: every row kept, in order, with its ID as a string. */
  function LoadTrips(raw: seq<RawTrip>): (trips: seq<TripRecord>)
    ensures |trips| == |raw|
    ensures forall i :: 0 <= i < |raw| ==> trips[i].payUserID == IdString(raw[i].payUserID)
    ensures forall i :: 0 <= i < |raw| ==>
              trips[i].transID == raw[i].transID && trips[i].typeCard == raw[i].typeCard &&
              trips[i].userName == raw[i].userName && trips[i].userSex == raw[i].userSex &&
              trips[i].userBirthYear == raw[i].userBirthYear && trips[i].routeID == raw[i].routeID &&
              trips[i].routeName == raw[i].routeName && trips[i].corridorName == raw[i].corridorName &&
              trips[i].transDate == raw[i].transDate && trips[i].duration == raw[i].duration &&
              trips[i].direction == raw[i].direction
  {
    seq(|raw|, i requires 0 <= i < |raw| => ToTrip(raw[i]))
  }

  /** The profile columns of every trip row, in table order. */
  function ProfileRows(trips: seq<TripRecord>): seq<UserProfile> {
    seq(|trips|, i requires 0 <= i < |trips| => ProfileColumns(trips[i]))
  }

  /** The user table: the profile columns with repeated rows dropped, first occurrence kept. */
  function LoadUsers(trips: seq<TripRecord>): (users: seq<UserProfile>)
    ensures Distinct(users)
    ensures forall k :: 0 <= k < |users| ==>
              exists i :: 0 <= i < |trips| && ProfileColumns(trips[i]) == users[k]
    ensures forall i :: 0 <= i < |trips| ==> ProfileColumns(trips[i]) in users
  {
    var rows := ProfileRows(trips);
    assert forall i :: 0 <= i < |trips| ==> rows[i] == ProfileColumns(trips[i]);
    Dedup(rows)
  }

  /**
    Each distinct profile tuple of the trip table appears in the user table
    exactly once, and nothing else does.
  */
  lemma LoadedUsersExactlyOnce(trips: seq<TripRecord>, p: UserProfile)
    ensures multiset(LoadUsers(trips))[p] ==
            if exists i :: 0 <= i < |trips| && ProfileColumns(trips[i]) == p then 1 else 0
  {
    var rows := ProfileRows(trips);
    DistinctCounts(LoadUsers(trips));
    if exists i :: 0 <= i < |trips| && ProfileColumns(trips[i]) == p {
      var i :| 0 <= i < |trips| && ProfileColumns(trips[i]) == p;
      assert rows[i] == p;
    }
  }

  /** Two numeric IDs become the same string only when they are the same number. */
  lemma NumericIdsStayDistinct(m: nat, n: nat)
    requires m != n
    ensures IdString(Num(m)) != IdString(Num(n))
  {
    if Decimal(m) == Decimal(n) {
      DecimalInjective(m, n);
    }
  }
}
