/** The Redis claims behind alert suppression: set-if-absent with an expiry, and set-add with a renewed expiry. */
module Suppression {
  /** A claim made at a Redis time, in milliseconds. */
  datatype Attempt = Attempt(key: string, now: int)

  /** Keys with their expiry times. */
  type Keys = map<string, int>

  predicate Live(keys: Keys, key: string, now: int) { key in keys && now < keys[key] }

  /** `SET key 1 EX window NX`. */
  function SetNx(keys: Keys, a: Attempt, window: nat): (Keys, bool) {
    if Live(keys, a.key, a.now) then (keys, false) else (keys[a.key := a.now + window], true)
  }

  /** `SADD` then `EXPIRE`: every attempt, won or lost, renews the expiry. */
  function SetAdd(keys: Keys, a: Attempt, window: nat): (Keys, bool) {
    (keys[a.key := a.now + window], !Live(keys, a.key, a.now))
  }

  function Deliveries(keys: Keys, attempts: seq<Attempt>, window: nat): seq<bool>
    decreases |attempts|
  {
    if attempts == [] then []
    else [SetNx(keys, attempts[0], window).1] + Deliveries(SetNx(keys, attempts[0], window).0, attempts[1..], window)
  }

  function Escalations(keys: Keys, attempts: seq<Attempt>, window: nat): seq<bool>
    decreases |attempts|
  {
    if attempts == [] then []
    else [SetAdd(keys, attempts[0], window).1] + Escalations(SetAdd(keys, attempts[0], window).0, attempts[1..], window)
  }

  predicate InOrder(attempts: seq<Attempt>) {
    forall i, j :: 0 <= i < j < |attempts| ==> attempts[i].now <= attempts[j].now
  }

  lemma {:induction false} DeliveriesLength(keys: Keys, attempts: seq<Attempt>, window: nat)
    ensures |Deliveries(keys, attempts, window)| == |attempts|
    decreases |attempts|
  {
    if attempts != [] { DeliveriesLength(SetNx(keys, attempts[0], window).0, attempts[1..], window); }
  }

  lemma {:induction false} EscalationsLength(keys: Keys, attempts: seq<Attempt>, window: nat)
    ensures |Escalations(keys, attempts, window)| == |attempts|
    decreases |attempts|
  {
    if attempts != [] { EscalationsLength(SetAdd(keys, attempts[0], window).0, attempts[1..], window); }
  }

  /** While a key lives, a claim on it loses. */
  lemma {:induction false} LosesWhileLive(keys: Keys, attempts: seq<Attempt>, window: nat, j: nat)
    requires InOrder(attempts) && j < |attempts| && |Deliveries(keys, attempts, window)| == |attempts|
    requires attempts[j].key in keys && attempts[j].now < keys[attempts[j].key]
    ensures !Deliveries(keys, attempts, window)[j]
    decreases |attempts|
  {
    if j > 0 {
      DeliveriesLength(SetNx(keys, attempts[0], window).0, attempts[1..], window);
      assert attempts[0].now <= attempts[j].now;
      LosesWhileLive(SetNx(keys, attempts[0], window).0, attempts[1..], window, j - 1);
    }
  }

  /** A restart or a second replica cannot send twice: two winning delivery claims on one key are a whole window apart. */
  lemma {:induction false} DeliveriesAWindowApart(keys: Keys, attempts: seq<Attempt>, window: nat, i: nat, j: nat)
    requires InOrder(attempts) && i < j < |attempts| && attempts[i].key == attempts[j].key
    requires |Deliveries(keys, attempts, window)| == |attempts|
    requires Deliveries(keys, attempts, window)[i] && Deliveries(keys, attempts, window)[j]
    ensures attempts[j].now - attempts[i].now >= window
    decreases |attempts|
  {
    var (keys1, won) := SetNx(keys, attempts[0], window);
    DeliveriesLength(keys1, attempts[1..], window);
    if i > 0 {
      DeliveriesAWindowApart(keys1, attempts[1..], window, i - 1, j - 1);
    } else if attempts[j].now < attempts[0].now + window {
      LosesWhileLive(keys1, attempts[1..], window, j - 1);
    }
  }

  /** What `SET NX` answers from some keys on: nobody holds the key, and no win in between is less than a window ago. */
  ghost predicate Unclaimed(keys: Keys, attempts: seq<Attempt>, window: nat, j: nat)
    requires j < |attempts| == |Deliveries(keys, attempts, window)|
  {
    && (attempts[j].key in keys ==> keys[attempts[j].key] <= attempts[j].now)
    && NoRecentWin(attempts, Deliveries(keys, attempts, window), window, j)
  }

  /** Every earlier win on the key of attempt `j` is at least a window before it. */
  predicate NoRecentWin(attempts: seq<Attempt>, wins: seq<bool>, window: nat, j: nat)
    requires j < |attempts| == |wins|
  {
    forall i :: 0 <= i < j && attempts[i].key == attempts[j].key && wins[i] ==> attempts[j].now - attempts[i].now >= window
  }

  lemma {:induction false} WinsIfUnclaimed(keys: Keys, attempts: seq<Attempt>, window: nat, j: nat)
    requires InOrder(attempts) && j < |attempts| == |Deliveries(keys, attempts, window)|
    ensures Deliveries(keys, attempts, window)[j] <==> Unclaimed(keys, attempts, window, j)
    decreases |attempts|
  {
    var (keys1, won) := SetNx(keys, attempts[0], window);
    var wins, rest := Deliveries(keys, attempts, window), Deliveries(keys1, attempts[1..], window);
    DeliveriesLength(keys1, attempts[1..], window);
    assert wins == [won] + rest;
    if j > 0 {
      assert attempts[1..][j - 1] == attempts[j] && attempts[0].now <= attempts[j].now;
      WinsIfUnclaimed(keys1, attempts[1..], window, j - 1);
      LaterWins(attempts, wins, window, j);
    }
  }

  lemma LaterWins(attempts: seq<Attempt>, wins: seq<bool>, window: nat, j: nat)
    requires 0 < j < |attempts| == |wins|
    ensures NoRecentWin(attempts, wins, window, j) <==>
      && NoRecentWin(attempts[1..], wins[1..], window, j - 1)
      && (attempts[0].key == attempts[j].key && wins[0] ==> attempts[j].now - attempts[0].now >= window)
  {
    var later, rest := attempts[1..], wins[1..];
    assert forall i :: 1 <= i < |attempts| ==> attempts[i] == later[i - 1] && wins[i] == rest[i - 1];
    if NoRecentWin(later, rest, window, j - 1) {
      forall i | 1 <= i < j && attempts[i].key == attempts[j].key && wins[i] ensures attempts[j].now - attempts[i].now >= window {
        assert later[i - 1].key == later[j - 1].key && rest[i - 1];
      }
    }
  }

  /**
   * From an empty Redis, for attempts in the order of their times: an attempt to deliver
   * wins exactly when every earlier win on its key is at least a window old. So the first
   * attempt on a key wins.
   */
  lemma DeliveryWinsExactly(attempts: seq<Attempt>, window: nat, j: nat)
    requires InOrder(attempts) && j < |attempts|
    ensures |Deliveries(map[], attempts, window)| == |attempts|
    ensures Deliveries(map[], attempts, window)[j] <==>
      forall i :: 0 <= i < j && attempts[i].key == attempts[j].key && Deliveries(map[], attempts, window)[i]
        ==> attempts[j].now - attempts[i].now >= window
    ensures (forall i :: 0 <= i < j ==> attempts[i].key != attempts[j].key) ==> Deliveries(map[], attempts, window)[j]
  {
    DeliveriesLength(map[], attempts, window);
    WinsIfUnclaimed(map[], attempts, window, j);
  }

  /**
   * Escalation claims on one key, one attempt after the other: an attempt after the
   * first wins exactly when a whole window has passed since the attempt before it.
   */
  lemma {:induction false} RenewalDecides(keys: Keys, attempts: seq<Attempt>, window: nat, j: nat)
    requires |Escalations(keys, attempts, window)| == |attempts| && 0 < j < |attempts|
    requires forall i :: 0 <= i < |attempts| ==> attempts[i].key == attempts[0].key
    ensures Escalations(keys, attempts, window)[j] <==> attempts[j].now - attempts[j - 1].now >= window
    decreases |attempts|
  {
    var keys1 := SetAdd(keys, attempts[0], window).0;
    EscalationsLength(keys1, attempts[1..], window);
    if j > 1 {
      RenewalDecides(keys1, attempts[1..], window, j - 1);
    } else {
      assert Escalations(keys, attempts, window)[1] == SetAdd(keys1, attempts[1], window).1;
    }
  }

  /** The key is not held from before, and no attempt on it in between is less than a window ago. */
  predicate Quiet(keys: Keys, attempts: seq<Attempt>, window: nat, j: nat)
    requires j < |attempts|
  {
    && ((forall i :: 0 <= i < j ==> attempts[i].key != attempts[j].key) ==>
          attempts[j].key in keys ==> keys[attempts[j].key] <= attempts[j].now)
    && (forall i :: 0 <= i < j && attempts[i].key == attempts[j].key ==> attempts[j].now - attempts[i].now >= window)
  }

  lemma {:induction false} WinsIfQuiet(keys: Keys, attempts: seq<Attempt>, window: nat, j: nat)
    requires InOrder(attempts) && j < |attempts| == |Escalations(keys, attempts, window)|
    ensures Escalations(keys, attempts, window)[j] <==> Quiet(keys, attempts, window, j)
    decreases |attempts|
  {
    var keys1 := SetAdd(keys, attempts[0], window).0;
    EscalationsLength(keys1, attempts[1..], window);
    if j > 0 {
      assert attempts[1..][j - 1] == attempts[j] && attempts[0].now <= attempts[j].now;
      WinsIfQuiet(keys1, attempts[1..], window, j - 1);
      LaterQuiet(keys, attempts, window, j);
    }
  }

  lemma LaterQuiet(keys: Keys, attempts: seq<Attempt>, window: nat, j: nat)
    requires InOrder(attempts) && 0 < j < |attempts|
    ensures Quiet(keys, attempts, window, j) <==> Quiet(SetAdd(keys, attempts[0], window).0, attempts[1..], window, j - 1)
  {
    var later := attempts[1..];
    assert forall i :: 1 <= i < |attempts| ==> attempts[i] == later[i - 1];
    assert forall i :: 1 <= i < |attempts| ==> attempts[0].now <= attempts[i].now;
    assert (forall i :: 0 <= i < j - 1 ==> later[i].key != later[j - 1].key) <==>
           (forall i :: 1 <= i < j ==> attempts[i].key != attempts[j].key);
  }

  /**
   * From an empty Redis, over any keys: an escalation claim wins exactly when every earlier
   * attempt on its key, won or lost, is at least a window old.
   */
  lemma EscalationWinsExactly(attempts: seq<Attempt>, window: nat, j: nat)
    requires InOrder(attempts) && j < |attempts|
    ensures |Escalations(map[], attempts, window)| == |attempts|
    ensures Escalations(map[], attempts, window)[j] <==>
      forall i :: 0 <= i < j && attempts[i].key == attempts[j].key ==> attempts[j].now - attempts[i].now >= window
  {
    EscalationsLength(map[], attempts, window);
    WinsIfQuiet(map[], attempts, window, j);
  }

  class Redis {
    var keys: Keys

    method ClaimAlertDelivery(a: Attempt, window: nat) returns (claimed: bool)
      modifies this
      ensures (keys, claimed) == SetNx(old(keys), a, window)
    {
      if a.key in keys && a.now < keys[a.key] { return false; }
      keys := keys[a.key := a.now + window];
      return true;
    }

    method ClaimEscalationLevel(a: Attempt, window: nat) returns (claimed: bool)
      modifies this
      ensures (keys, claimed) == SetAdd(old(keys), a, window)
    {
      claimed := !(a.key in keys && a.now < keys[a.key]);
      keys := keys[a.key := a.now + window];
    }
  }
}
