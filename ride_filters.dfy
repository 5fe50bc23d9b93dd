/** The ride lists' filters: the passenger's own-rides list, the search box
    and status drop-down of the three ride pages, and the passenger-name
    dictionary the searches read. */
module RideFilters {
  import opened JsValues
  import opened Rides
  import opened Seqs

  /** `toLowerCase()` on one character, for the ASCII letters. */
  function LowerChar(c: char): char {
    if 'A' <= c <= 'Z' then (c as int + 32) as char else c
  }

  /** `toLowerCase()`, for the ASCII letters. */
  function Lower(s: string): string {
    seq(|s|, i requires 0 <= i < |s| => LowerChar(s[i]))
  }

  /** `hay.includes(needle)`: `needle` is a prefix of some suffix of `hay`. */
  predicate Contains(hay: string, needle: string) {
    needle <= hay || (hay != [] && Contains(hay[1..], needle))
  }

  /** Every text includes the empty text. */
  lemma ContainsEmpty(hay: string)
    ensures Contains(hay, "")
  {
  }

  // ---- the passenger-name dictionary ----

  /** `user.name || user.email || 'Unknown User'`: never empty. */
  function DisplayName(u: User): (name: string)
    ensures name != ""
    ensures Truthy(u.name) ==> name == u.name.s
  {
    if Truthy(u.name) then u.name.s
    else if Truthy(u.email) then u.email.s
    else "Unknown User"
  }

  /** The dictionary `start` after `users.forEach(user => allUsers[user._id] =
      DisplayName(user))`. */
  function WithUsers(start: map<string, string>, users: seq<User>): map<string, string> {
    if users == [] then start
    else
      var last := users[|users| - 1];
      WithUsers(start, users[..|users| - 1])[last.id := DisplayName(last)]
  }

  /** The ids present in a list of users. */
  function Ids(users: seq<User>): set<string> {
    set u | u in users :: u.id
  }

  /** After loading, the dictionary holds the old ids and every loaded
      user's id; an id nobody loaded keeps its old name; and each loaded id
      names the last user in the list with that id. */
  lemma {:induction false} WithUsersSpec(start: map<string, string>, users: seq<User>)
    ensures WithUsers(start, users).Keys == start.Keys + Ids(users)
    ensures forall k :: k in start && k !in Ids(users) ==> WithUsers(start, users)[k] == start[k]
    ensures forall i :: 0 <= i < |users| && (forall j :: i < j < |users| ==> users[j].id != users[i].id) ==>
              WithUsers(start, users)[users[i].id] == DisplayName(users[i])
  {
    if users != [] {
      var n := |users| - 1;
      var init := users[..n];
      WithUsersSpec(start, init);
      assert users == init + [users[n]];
      assert Ids(users) == Ids(init) + {users[n].id};
      forall i | 0 <= i < |users| && (forall j :: i < j < |users| ==> users[j].id != users[i].id)
        ensures WithUsers(start, users)[users[i].id] == DisplayName(users[i])
      {
        if i < n {
          assert users[n].id != users[i].id;
          assert init[i] == users[i];
          forall j | i < j < |init| ensures init[j].id != init[i].id {
            assert init[j] == users[j];
          }
        }
      }
    }
  }

  /** A loaded dictionary never holds an empty name when it started without
      one. */
  lemma {:induction false} WithUsersNamesNonEmpty(start: map<string, string>, users: seq<User>)
    requires forall k :: k in start ==> start[k] != ""
    ensures forall k :: k in WithUsers(start, users) ==> WithUsers(start, users)[k] != ""
  {
    if users != [] {
      WithUsersNamesNonEmpty(start, users[..|users| - 1]);
    }
  }

  /** `getUserName(userId)`: the dictionary entry under `String(userId)`
      when it has a non-empty one, else "User <id>". It is never empty, so
      the source's final `|| 'N/A'` fallback is never taken. */
  function UserName(names: map<string, string>, userId: Value): (name: string)
    ensures name != ""
    ensures ToStr(userId) in names && names[ToStr(userId)] != "" ==> name == names[ToStr(userId)]
    ensures ToStr(userId) !in names ==> name == "User " + ToStr(userId)
  {
    var key := ToStr(userId);
    if key in names && names[key] != "" then names[key] else "User " + key
  }

  // ---- the passenger's own rides ----

  /** The own-rides rule: the ride's passenger id equals the visitor's as
      strings, and the ride is not cancelled. */
  predicate OwnedAndActive(r: Ride, userId: Value) {
    ToStr(r.userId) == ToStr(userId) && !Is(r.status, "cancelled")
  }

  /** The own-rides list: exactly the rides of `list` the rule keeps, each
      as often as it occurs, in their original order. */
  function MyRides(list: seq<Ride>, userId: Value): (mine: seq<Ride>)
    ensures IsSubsequence(mine, list)
    ensures forall r :: multiset(mine)[r] == if OwnedAndActive(r, userId) then multiset(list)[r] else 0
    ensures forall i :: 0 <= i < |mine| ==> OwnedAndActive(mine[i], userId)
  {
    var p := r => OwnedAndActive(r, userId);
    FilterIsSubsequence(list, p);
    FilterAllSatisfy(list, p);
    forall r ensures multiset(Filter(list, p))[r] == if OwnedAndActive(r, userId) then multiset(list)[r] else 0 {
      FilterMultiplicity(list, p, r);
    }
    Filter(list, p)
  }

  /** Cancelling a ride removes it from the own-rides list, whoever owns it. */
  lemma CancelledNeverListed(list: seq<Ride>, userId: Value, r: Ride)
    requires Is(r.status, "cancelled")
    ensures r !in MyRides(list, userId)
  {
    assert multiset(MyRides(list, userId))[r] == 0;
  }

  /** The passenger dashboard counts rides by strict equality of the ids;
      for a stored id that is a string other than "null" or "undefined" it
      selects the same rides as the own-rides list, before the latter drops
      the cancelled ones. */
  lemma {:induction false} DashboardOwnershipAgrees(list: seq<Ride>, userId: Value)
    requires userId.Str? && userId.s != "null" && userId.s != "undefined"
    ensures MyRides(list, userId) == Filter(list, (r: Ride) => r.userId == userId && !Is(r.status, "cancelled"))
  {
    if list != [] {
      DashboardOwnershipAgrees(list[1..], userId);
      StringEqualIsStrictForOrdinaryText(list[0].userId, userId);
    }
  }

  /** With the stored id "undefined" (what storage keeps when the login
      payload has no user id), a ride without a passenger id is listed as
      the visitor's own, though the dashboard does not count it. */
  lemma OwnRidesAdmitMissingOwner(rideWithoutOwner: Ride)
    requires rideWithoutOwner.userId == Undefined && !Is(rideWithoutOwner.status, "cancelled")
    ensures MyRides([rideWithoutOwner], Str("undefined")) == [rideWithoutOwner]
    ensures Filter([rideWithoutOwner], (r: Ride) => r.userId == Str("undefined")) == []
  {
  }

  // ---- the search box and the status drop-down ----

  /** `statusValue === 'all' || ride.status === statusValue`. */
  predicate StatusMatches(r: Ride, statusValue: string) {
    statusValue == "all" || r.status == Str(statusValue)
  }

  /** `(field && field.toLowerCase().includes(term))`. */
  predicate FieldMatches(v: Value, term: string) {
    Truthy(v) && Contains(Lower(v.s), term)
  }

  /** The administrator's search: passenger name, pickup, destination, or
      the passenger id itself (not lower-cased). */
  predicate AdminSearchMatches(r: Ride, names: map<string, string>, term: string) {
    || Contains(Lower(UserName(names, r.userId)), term)
    || FieldMatches(r.pickup, term)
    || FieldMatches(r.destination, term)
    || (Truthy(r.userId) && Contains(r.userId.s, term))
  }

  /** The driver's search: passenger name, pickup or destination. */
  predicate DriverSearchMatches(r: Ride, names: map<string, string>, term: string) {
    || Contains(Lower(UserName(names, r.userId)), term)
    || FieldMatches(r.pickup, term)
    || FieldMatches(r.destination, term)
  }

  /** The passenger's search: pickup or destination only. */
  predicate MyRidesSearchMatches(r: Ride, term: string) {
    FieldMatches(r.pickup, term) || FieldMatches(r.destination, term)
  }

  /** Which of the three pages a search runs on. */
  datatype ListPage = AdminList | DriverList | PassengerList

  /** A ride survives the search box `search` and the drop-down
      `statusValue` on the given page. */
  predicate Matches(page: ListPage, r: Ride, names: map<string, string>, search: string, statusValue: string) {
    var term := Lower(search);
    && (match page
        case AdminList => AdminSearchMatches(r, names, term)
        case DriverList => DriverSearchMatches(r, names, term)
        case PassengerList => MyRidesSearchMatches(r, term))
    && StatusMatches(r, statusValue)
  }

  /** The three searches are nested: whatever the passenger's search finds
      the driver's finds, and whatever the driver's finds the
      administrator's finds. */
  lemma SearchesNest(r: Ride, names: map<string, string>, term: string)
    ensures MyRidesSearchMatches(r, term) ==> DriverSearchMatches(r, names, term)
    ensures DriverSearchMatches(r, names, term) ==> AdminSearchMatches(r, names, term)
  {
  }

  /** `filterRides()`: every loaded ride that matches, each as often as it
      is loaded, in order, so never more than were loaded (the "Showing n of
      m" line); with a status other than "all" chosen, only rides of that
      status. */
  function Visible(page: ListPage, rides: seq<Ride>, names: map<string, string>, search: string, statusValue: string): (shown: seq<Ride>)
    ensures |shown| <= |rides|
    ensures IsSubsequence(shown, rides)
    ensures forall r :: multiset(shown)[r] == if Matches(page, r, names, search, statusValue) then multiset(rides)[r] else 0
    ensures forall r :: r in shown <==> r in rides && Matches(page, r, names, search, statusValue)
    ensures statusValue != "all" ==> forall i :: 0 <= i < |shown| ==> shown[i].status == Str(statusValue)
  {
    var p := r => Matches(page, r, names, search, statusValue);
    FilterLength(rides, p);
    FilterIsSubsequence(rides, p);
    FilterAllSatisfy(rides, p);
    forall r ensures r in Filter(rides, p) <==> r in rides && p(r) {
      FilterMembership(rides, p, r);
    }
    forall r ensures multiset(Filter(rides, p))[r] == if p(r) then multiset(rides)[r] else 0 {
      FilterMultiplicity(rides, p, r);
    }
    Filter(rides, p)
  }

  /** On the administrator's and the driver's pages an empty search with
      "all" shows every ride, since every passenger name includes "". */
  lemma EmptySearchShowsAll(page: ListPage, rides: seq<Ride>, names: map<string, string>)
    requires page != PassengerList
    ensures Visible(page, rides, names, "", "all") == rides
  {
    var p := r => Matches(page, r, names, "", "all");
    assert Lower("") == "";
    forall i | 0 <= i < |rides| ensures p(rides[i]) {
      ContainsEmpty(Lower(UserName(names, rides[i].userId)));
    }
    FilterKeepsAll(rides, p);
  }

  /** On the passenger's page the same empty search hides every ride that
      has neither a pickup nor a destination: matching needs one of the two
      fields to be present. */
  lemma PassengerEmptySearchNeedsPlace(rides: seq<Ride>, names: map<string, string>, r: Ride)
    requires r in rides
    ensures r in Visible(PassengerList, rides, names, "", "all") <==> Truthy(r.pickup) || Truthy(r.destination)
  {
    assert Lower("") == "";
    if Truthy(r.pickup) { ContainsEmpty(Lower(r.pickup.s)); }
    if Truthy(r.destination) { ContainsEmpty(Lower(r.destination.s)); }
  }
}
