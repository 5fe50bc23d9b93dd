/** The ride status progression: a fixed sequence of four statuses and the
    "Next Status" step the administrator's ride list applies. */
module Status {
  import opened JsValues

  const StatusSequence: seq<string> := ["requested", "accepted", "ongoing", "completed"]
  const Completed := "completed"

  /** `s.indexOf(x)`: the first position of `x`, or -1 when it is absent. */
  function IndexOf(s: seq<string>, x: string): (i: int)
    ensures -1 <= i < |s|
    ensures i == -1 <==> x !in s
    ensures i >= 0 ==> s[i] == x && x !in s[..i]
  {
    if s == [] then -1
    else if s[0] == x then 0
    else
      var j := IndexOf(s[1..], x);
      assert s[1..][..if j < 0 then 0 else j] == s[1..if j < 0 then 1 else j + 1];
      if j == -1 then -1 else j + 1
  }

  /** `getNextStatus`: each status of the sequence moves to the one after
      it, the last is a fixed point, and a status outside the sequence
      (`cancelled`, say, whose index is -1) moves to the first. The result
      is always in the sequence. */
  function NextStatus(current: string): (next: string)
    ensures next in StatusSequence
    ensures current == Completed ==> next == Completed
    ensures current !in StatusSequence ==> next == StatusSequence[0]
    ensures forall i :: 0 <= i < |StatusSequence| - 1 && current == StatusSequence[i] ==>
              next == StatusSequence[i + 1]
  {
    var idx := IndexOf(StatusSequence, current);
    if idx < |StatusSequence| - 1 then StatusSequence[idx + 1] else current
  }

  /** `k` presses of "Next Status". */
  function Iterate(k: nat, s: string): string {
    if k == 0 then s else Iterate(k - 1, NextStatus(s))
  }

  /** How many presses a status needs to reach `completed`: the distance
      along the sequence, plus one for a status outside it. */
  function StepsToCompleted(s: string): (n: nat)
    ensures n <= |StatusSequence|
    ensures s in StatusSequence ==> n < |StatusSequence|
  {
    var idx := IndexOf(StatusSequence, s);
    if idx == -1 then |StatusSequence| else |StatusSequence| - 1 - idx
  }

  /** Each step before the end advances by exactly one position. */
  lemma NextAdvancesOne(s: string)
    ensures s in StatusSequence && s != Completed ==>
              IndexOf(StatusSequence, NextStatus(s)) == IndexOf(StatusSequence, s) + 1 &&
              StepsToCompleted(NextStatus(s)) == StepsToCompleted(s) - 1
  {
    if s in StatusSequence && s != Completed {
      var i := IndexOf(StatusSequence, s);
      assert StatusSequence[i] == s;
      assert NextStatus(s) == StatusSequence[i + 1];
    }
  }

  /** From any status, `StepsToCompleted` presses reach `completed` (at
      most three from a status in the sequence, four from any other) and
      every further press stays there; fewer presses do not reach it. */
  lemma {:induction false} ReachesCompleted(s: string, k: nat)
    ensures k >= StepsToCompleted(s) ==> Iterate(k, s) == Completed
    ensures k < StepsToCompleted(s) ==> Iterate(k, s) != Completed
    decreases k
  {
    if k > 0 {
      var t := NextStatus(s);
      if s == Completed {
        ReachesCompleted(t, k - 1);
      } else if s in StatusSequence {
        NextAdvancesOne(s);
        ReachesCompleted(t, k - 1);
      } else {
        assert t == "requested";
        assert StepsToCompleted(t) == 3;
        ReachesCompleted(t, k - 1);
      }
    } else {
      assert Iterate(0, s) == s;
      if s == Completed {
        assert IndexOf(StatusSequence, s) == 3;
      }
    }
  }

  /** The status the administrator's "Next Status" button patches a ride
      to: a ride without a status counts as `requested`, the status its
      card shows, so the button moves it on to `accepted`. */
  function AdminNextStatus(status: Value): (next: string)
    ensures next in StatusSequence
    ensures !Truthy(status) ==> next == "accepted"
    ensures Truthy(status) && status.s in StatusSequence && status.s != Completed ==>
              StepsToCompleted(next) == StepsToCompleted(status.s) - 1
  {
    var shown := OrElse(status, "requested");
    NextAdvancesOne(shown);
    NextStatus(shown)
  }
}
