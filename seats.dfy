/** Turn rotation: the seat after a given one, skipping seats that are out of turn. */
module Seats {
  import opened State

  /** The seat k places after cur around a table of n seats. */
  function SeatAfter(cur: nat, k: nat, n: nat): (s: nat)
    requires n > 0
    ensures s < n
  {
    (cur + k) % n
  }

  /** The offsets used here stay below 2n + 2, so the remainder is a subtraction. */
  lemma SeatAfterValue(cur: nat, k: nat, n: nat)
    requires cur < n && k <= n + 1
    ensures SeatAfter(cur, k, n) ==
      if cur + k < n then cur + k else if cur + k < 2 * n then cur + k - n else cur + k - 2 * n
  {
  }

  lemma SeatAfterStep(cur: nat, k: nat, n: nat)
    requires cur < n && k <= n
    ensures (SeatAfter(cur, k, n) + 1) % n == SeatAfter(cur, k + 1, n)
  {
    SeatAfterValue(cur, k, n);
    SeatAfterValue(cur, k + 1, n);
    var x := SeatAfter(cur, k, n);
    if x + 1 == n {
      ModBelow(0, n);
      assert (x + 1) % n == 0 by { ModOnce(x + 1, n); }
    } else {
      ModBelow(x + 1, n);
    }
  }

  lemma ModBelow(x: nat, n: nat)
    requires x < n
    ensures x % n == x
  {
  }

  lemma ModOnce(x: nat, n: nat)
    requires n <= x < 2 * n
    ensures x % n == x - n
  {
  }

  /** Every seat other than cur lies some k in 1..n-1 places after cur, and cur itself n places. */
  lemma SeatReached(cur: nat, s: nat, n: nat) returns (k: nat)
    requires cur < n && s < n
    ensures 1 <= k <= n && SeatAfter(cur, k, n) == s
    ensures s != cur <==> k < n
  {
    k := if s > cur then s - cur else s + n - cur;
    SeatAfterValue(cur, k, n);
  }

  /** advanceTurn's loop condition: a safe seat is passed over. */
  predicate Skipped(players: seq<Player>, s: nat)
    requires s < |players|
  {
    players[s].status == Safe
  }

  /** The least offset k' >= k (up to n) whose seat is not skipped, or n + 1 if there is none:
      the loop of advanceTurn stops at offset loopCheck + 1. */
  function NextOffset(players: seq<Player>, cur: nat, k: nat): (r: nat)
    requires 0 < |players| && 1 <= k <= |players| + 1
    decreases |players| + 1 - k
    ensures k <= r <= |players| + 1
    ensures forall j :: k <= j < r ==> Skipped(players, SeatAfter(cur, j, |players|))
    ensures r <= |players| ==> !Skipped(players, SeatAfter(cur, r, |players|))
  {
    if k <= |players| && Skipped(players, SeatAfter(cur, k, |players|)) then NextOffset(players, cur, k + 1)
    else k
  }

  /** The seat advanceTurn moves to from cur. */
  function NextSeat(players: seq<Player>, cur: nat): (s: nat)
    requires 0 < |players|
    ensures s < |players|
  {
    SeatAfter(cur, NextOffset(players, cur, 1), |players|)
  }

  /** When some seat is not safe, advanceTurn lands on a seat that is not safe, and every
      seat it passes over on the way is safe. */
  lemma {:induction false} NextSeatIsNextActive(players: seq<Player>, cur: nat, s: nat)
    requires cur < |players| && s < |players| && players[s].status != Safe
    ensures players[NextSeat(players, cur)].status != Safe
    ensures exists k :: 1 <= k <= |players| && NextSeat(players, cur) == SeatAfter(cur, k, |players|)
              && forall j :: 1 <= j < k ==> players[SeatAfter(cur, j, |players|)].status == Safe
  {
    var n := |players|;
    var k := SeatReached(cur, s, n);
    var r := NextOffset(players, cur, 1);
    assert r <= k;
  }

  /** The lead-pass loop's condition in resolveClear: a seat is passed over when it is safe,
      or when its hand is empty and it is not the winner w. */
  predicate PassedOver(players: seq<Player>, s: nat, w: nat)
    requires s < |players|
  {
    players[s].status == Safe || (|players[s].hand| == 0 && s != w)
  }

  function LeadOffset(players: seq<Player>, w: nat, k: nat): (r: nat)
    requires 0 < |players| && 1 <= k <= |players| + 1
    decreases |players| + 1 - k
    ensures k <= r <= |players| + 1
    ensures forall j :: k <= j < r ==> PassedOver(players, SeatAfter(w, j, |players|), w)
    ensures r <= |players| ==> !PassedOver(players, SeatAfter(w, r, |players|), w)
  {
    if k <= |players| && PassedOver(players, SeatAfter(w, k, |players|), w) then LeadOffset(players, w, k + 1)
    else k
  }

  /** The seat the lead passes to when the winner w of a clear has no cards left. */
  function LeadPassSeat(players: seq<Player>, w: nat): (s: nat)
    requires 0 < |players|
    ensures s < |players|
  {
    SeatAfter(w, LeadOffset(players, w, 1), |players|)
  }

  /** When the winner is not safe, the lead goes to the first seat after it that is neither
      safe nor empty-handed: every seat passed over is safe or empty-handed, and the lead
      comes back to the winner itself exactly when there is no such seat. */
  lemma {:induction false} LeadPassFinds(players: seq<Player>, w: nat)
    requires w < |players| && players[w].status != Safe
    ensures var s := LeadPassSeat(players, w);
      (s == w || (players[s].status != Safe && |players[s].hand| > 0))
      && (s == w <==> forall j :: 1 <= j < |players| ==>
            var q := players[SeatAfter(w, j, |players|)]; q.status == Safe || |q.hand| == 0)
  ensures exists k :: 1 <= k <= |players| && LeadPassSeat(players, w) == SeatAfter(w, k, |players|)
            && forall j :: 1 <= j < k ==>
                 var q := players[SeatAfter(w, j, |players|)]; q.status == Safe || |q.hand| == 0
  {
    var n := |players|;
    var r := LeadOffset(players, w, 1);
    SeatAfterValue(w, n, n);
    assert r <= n;
    forall j | 1 <= j < n ensures SeatAfter(w, j, n) != w {
      SeatAfterValue(w, j, n);
    }
    if r < n {
      SeatAfterValue(w, r, n);
    }
  }

  /** advanceTurn: the bounded loop over the seats after currentIndex. */
  method AdvanceTurn(players: seq<Player>, cur: nat) returns (next: nat)
    requires 0 < |players| && cur < |players|
    ensures next == NextSeat(players, cur)
  {
    var n := |players|;
    next := (cur + 1) % n;
    var loopCheck := 0;
    while players[next].status == Safe && loopCheck < n
      invariant 0 <= loopCheck <= n
      invariant next == SeatAfter(cur, loopCheck + 1, n)
      invariant NextOffset(players, cur, 1) == NextOffset(players, cur, loopCheck + 1)
    {
      SeatAfterStep(cur, loopCheck + 1, n);
      next := (next + 1) % n;
      loopCheck := loopCheck + 1;
    }
  }

  /** The lead-pass loop of resolveClear, from the seat after the winner. */
  method PassLead(players: seq<Player>, winner: nat) returns (next: nat)
    requires 0 < |players| && winner < |players|
    ensures next == LeadPassSeat(players, winner)
  {
    var n := |players|;
    next := (winner + 1) % n;
    var loops := 0;
    while (players[next].status == Safe || (|players[next].hand| == 0 && next != winner)) && loops < n
      invariant 0 <= loops <= n
      invariant next == SeatAfter(winner, loops + 1, n)
      invariant LeadOffset(players, winner, 1) == LeadOffset(players, winner, loops + 1)
    {
      SeatAfterStep(winner, loops + 1, n);
      next := (next + 1) % n;
      loops := loops + 1;
    }
  }
}
