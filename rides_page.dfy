/** The state the administrator's ride list keeps between events: the rides
    last loaded, the passenger-name dictionary (which is never cleared, only
    added to on each reload), and whether cards or a table are shown. The
    API responses are parameters; `None` stands for a request that failed. */
module RidesPageState {
  import opened JsValues
  import opened Rides
  import opened Seqs
  import opened RideFilters

  datatype View = Cards | Table

  class RidesPage {
    var allRides: seq<Ride>
    var allUsers: map<string, string>
    var currentView: View

    /** Every name in the dictionary is non-empty. */
    ghost predicate Valid()
      reads this
    {
      forall k :: k in allUsers ==> allUsers[k] != ""
    }

    constructor ()
      ensures Valid()
      ensures allRides == [] && allUsers == map[] && currentView == Cards
    {
      allRides := [];
      allUsers := map[];
      currentView := Cards;
    }

    /** `loadUsers()`: on success each loaded user's display name is stored
        under the user's id, in list order; a failed request (the visitor
        may not list users) leaves the dictionary as it was. */
    method LoadUsers(response: Option<seq<User>>)
      requires Valid()
      modifies this`allUsers
      ensures Valid()
      ensures response.None? ==> allUsers == old(allUsers)
      ensures response.Some? ==> allUsers == WithUsers(old(allUsers), response.value)
    {
      if response.Some? {
        var users := response.value;
        for i := 0 to |users|
          invariant allUsers == WithUsers(old(allUsers), users[..i])
          invariant Valid()
        {
          assert users[..i + 1][..i] == users[..i];
          allUsers := allUsers[users[i].id := DisplayName(users[i])];
        }
        assert users[..|users|] == users;
      }
    }

    /** `loadRides()`: load the names, then the rides; when the ride request
        fails the list keeps its previous rides. */
    method LoadRides(usersResponse: Option<seq<User>>, ridesResponse: Option<seq<Ride>>)
      requires Valid()
      modifies this`allUsers, this`allRides
      ensures Valid()
      ensures usersResponse.None? ==> allUsers == old(allUsers)
      ensures usersResponse.Some? ==> allUsers == WithUsers(old(allUsers), usersResponse.value)
      ensures allRides == if ridesResponse.Some? then ridesResponse.value else old(allRides)
    {
      LoadUsers(usersResponse);
      if ridesResponse.Some? {
        allRides := ridesResponse.value;
      }
    }

    /** The card and table buttons. */
    method SetView(v: View)
      modifies this`currentView
      ensures currentView == v
    {
      currentView := v;
    }

    /** `filterRides()` on this page: the loaded rides that match the search
        box and the drop-down, each as often as it is loaded and in order,
        never more than are loaded. */
    function Shown(search: string, statusValue: string): (shown: seq<Ride>)
      reads this
      ensures |shown| <= |allRides|
      ensures IsSubsequence(shown, allRides)
      ensures forall r :: multiset(shown)[r] == if Matches(AdminList, r, allUsers, search, statusValue) then multiset(allRides)[r] else 0
      ensures forall r :: r in shown <==> r in allRides && Matches(AdminList, r, allUsers, search, statusValue)
    {
      Visible(AdminList, allRides, allUsers, search, statusValue)
    }

    /** A name in the dictionary is what the page shows for a loaded
        passenger id, because no entry is empty. */
    lemma NameShownForLoadedUser(id: string)
      requires Valid() && id in allUsers
      ensures UserName(allUsers, Str(id)) == allUsers[id]
    {
    }
  }
}
