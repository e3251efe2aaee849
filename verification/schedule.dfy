/** The timer of the gravity system's two-rate loop
    (Assets/Scripts/GravitySystem.cs, Update): every frame applies the cached
    gravity, but the cache is recalculated only when more than the update
    frequency has passed since the last recalculation. */
module Schedule {

  /** The test at the head of Update (a strict comparison): with a
      non-negative frequency only a later frame can be due, and a frame
      exactly one interval after the last recalculation is not. */
  predicate Due(last: real, now: real, frequency: real): (r: bool)
    ensures frequency >= 0.0 && r ==> last < now
    ensures now == last + frequency ==> !r
  {
    last < now - frequency
  }

  /** The time of the last recalculation after a frame at `now`: the frame's
      time when it was due, the old time otherwise. With a non-negative
      frequency the timer never goes back, and a second frame at the same
      time is not due again. */
  function Next(last: real, now: real, frequency: real): (r: real)
    ensures r == now || r == last
    ensures r != last ==> Due(last, now, frequency)
    ensures frequency >= 0.0 ==> last <= r && !Due(r, now, frequency)
  {
    if Due(last, now, frequency) then now else last
  }

  /** The frame times, among `times`, at which a recalculation runs, starting
      from a last recalculation at `last`: one Update per frame, each
      restarting the timer through Next. */
  function Recalculations(last: real, times: seq<real>, frequency: real): seq<real>
    decreases |times|
  {
    if times == [] then []
    else
      var rest := Recalculations(Next(last, times[0], frequency), times[1..], frequency);
      if Due(last, times[0], frequency) then [times[0]] + rest else rest
  }

  /** Consecutive times more than `frequency` apart. */
  predicate Spaced(r: seq<real>, frequency: real) {
    forall k :: 0 < k < |r| ==> r[k] - r[k - 1] > frequency
  }

  /** Recalculations are more than `frequency` apart, and the first is more
      than `frequency` after the starting time. */
  lemma {:induction false} RecalculationsSpaced(last: real, times: seq<real>, frequency: real)
    ensures Spaced([last] + Recalculations(last, times, frequency), frequency)
    decreases |times|
  {
    if times != [] && Due(last, times[0], frequency) {
      RecalculationsSpaced(times[0], times[1..], frequency);
      var r' := [times[0]] + Recalculations(times[0], times[1..], frequency);
      var r := [last] + r';
      assert [last] + Recalculations(last, times, frequency) == r;
      forall k | 0 < k < |r| ensures r[k] - r[k - 1] > frequency {
        if k > 1 {
          assert r[k] == r'[k - 1] && r[k - 1] == r'[k - 2];
        }
      }
    } else if times != [] {
      RecalculationsSpaced(last, times[1..], frequency);
    }
  }

  /** A run of frames recalculates at all exactly when one of its frames
      comes more than `frequency` after the last recalculation; so frames
      inside one interval all apply the same cached gravity. */
  lemma {:induction false} RecalculationsNoneIff(last: real, times: seq<real>, frequency: real)
    ensures Recalculations(last, times, frequency) == []
        <==> forall k :: 0 <= k < |times| ==> times[k] <= last + frequency
  {
    if times != [] {
      RecalculationsNoneIff(last, times[1..], frequency);
      assert forall k :: 1 <= k < |times| ==> times[k] == times[1..][k - 1];
    }
  }
}
