/** What becomes of an item that a tick has found: sent once, unless its winner or every visitor gives up. */
module EscalationDelivery {
  import opened Escalation

  /** The claim on an item is in one place: with its winner, sent, or given up. */
  ghost predicate ClaimOk(s: State, id: ItemId) {
    && (forall i: nat :: Winning(s, i, id) ==> id in s.escalated && id !in s.sent && id !in s.unsent)
    && (forall i: nat, j: nat :: Winning(s, i, id) && Winning(s, j, id) ==> i == j)
    && (id in s.sent ==> id in s.escalated && id !in s.unsent)
    && (id in s.unsent ==> id in s.escalated && exists i: nat :: Dropped(s, i, id))
    && (id in s.escalated ==> id in s.sent || id in s.unsent || exists i: nat :: Winning(s, i, id))
    && (forall i: nat :: Saw(s, i, id) ==> id in s.escalated || Pending(s, i, id, Claim) || Dropped(s, i, id))
  }

  ghost predicate ClaimsOk(s: State) {
    Once(s.sent) && forall id: nat :: ClaimOk(s, id)
  }

  /** Nothing about the claim on `x` is different. */
  ghost predicate SameClaim(s: State, u: State, x: ItemId) {
    && (x in u.escalated <==> x in s.escalated)
    && (x in u.sent <==> x in s.sent)
    && (x in u.unsent <==> x in s.unsent)
    && (forall i: nat :: Winning(u, i, x) <==> Winning(s, i, x))
    && (forall i: nat :: Saw(u, i, x) <==> Saw(s, i, x))
    && (forall i: nat :: Dropped(u, i, x) <==> Dropped(s, i, x))
    && (forall i: nat :: Pending(u, i, x, Claim) <==> Pending(s, i, x, Claim))
  }

  lemma SameClaimOk(s: State, u: State, x: ItemId)
    requires ClaimOk(s, x) && SameClaim(s, u, x)
    ensures ClaimOk(u, x)
  {
    if x in s.unsent {
      var i: nat :| Dropped(s, i, x);
      assert Dropped(u, i, x);
    }
    if x in s.escalated && x !in s.sent && x !in s.unsent {
      var i: nat :| Winning(s, i, x);
      assert Winning(u, i, x);
    }
  }

  lemma OneClaimKeeps(s: State, u: State, id: ItemId)
    requires ClaimsOk(s) && Once(u.sent) && ClaimOk(u, id)
    requires forall x: nat :: x != id ==> SameClaim(s, u, x)
    ensures ClaimsOk(u)
  {
    forall x: nat ensures ClaimOk(u, x) {
      if x != id {
        assert ClaimOk(s, x) && SameClaim(s, u, x);
        SameClaimOk(s, u, x);
      }
    }
  }

  // ---------------------------------------------------------------- one step

  lemma SetAddElsewhere(t: Timing, s: State, i: nat, id: ItemId)
    requires Pending(s, i, id, Claim)
    ensures forall x: nat :: x != id ==> SameClaim(s, Step(t, s, SetAdd(i, id)), x)
  {
  }

  lemma SetAddClaim(t: Timing, s: State, i: nat, id: ItemId)
    requires ClaimOk(s, id) && Pending(s, i, id, Claim) && (id in s.escalated <==> Live(s, id))
    ensures ClaimOk(Step(t, s, SetAdd(i, id)), id)
  {
    var u := Step(t, s, SetAdd(i, id));
    assert forall k: nat :: Saw(u, k, id) <==> Saw(s, k, id);
    assert forall k: nat :: Dropped(u, k, id) <==> Dropped(s, k, id);
    assert forall k: nat :: k != i ==> (Winning(u, k, id) <==> Winning(s, k, id));
    assert forall k: nat :: k != i ==> (Pending(u, k, id, Claim) <==> Pending(s, k, id, Claim));
    assert !Winning(s, i, id) && (Winning(u, i, id) <==> !Live(s, id));
    if id in s.unsent { var k: nat :| Dropped(s, k, id); assert Dropped(u, k, id); }
    if Live(s, id) && id !in s.sent && id !in s.unsent { var k: nat :| Winning(s, k, id); assert Winning(u, k, id); }
  }

  lemma SetAddKeepsClaims(t: Timing, s: State, i: nat, id: ItemId)
    requires Inv(t, s) && ClaimsOk(s) && Span(t) < t.window && Pending(s, i, id, Claim)
    ensures ClaimsOk(Step(t, s, SetAdd(i, id)))
  {
    assert ItemInv(t, s, id) && Busy(s, i, id) && ClaimOk(s, id);
    if id in s.escalated { KeyStaysAlive(t, s, i, id); }
    SetAddElsewhere(t, s, i, id);
    SetAddClaim(t, s, i, id);
    OneClaimKeeps(s, Step(t, s, SetAdd(i, id)), id);
  }

  lemma ExpireElsewhere(t: Timing, s: State, i: nat, id: ItemId)
    requires Renewing(s, i, id)
    ensures forall x: nat :: x != id ==> SameClaim(s, Step(t, s, Expire(i, id)), x)
  {
  }

  lemma ExpireClaim(t: Timing, s: State, i: nat, id: ItemId)
    requires ClaimOk(s, id) && Renewing(s, i, id)
    ensures ClaimOk(Step(t, s, Expire(i, id)), id)
  {
    var u := Step(t, s, Expire(i, id));
    assert forall k: nat :: Saw(u, k, id) <==> Saw(s, k, id);
    assert forall k: nat :: Dropped(u, k, id) <==> Dropped(s, k, id);
    assert forall k: nat :: Winning(u, k, id) <==> k != i && Winning(s, k, id);
    assert forall k: nat :: Pending(u, k, id, Claim) <==> Pending(s, k, id, Claim);
    if id in s.unsent { var k: nat :| Dropped(s, k, id); assert Dropped(u, k, id); }
    if id in u.escalated && id !in u.sent && id !in u.unsent { var k: nat :| Winning(s, k, id); assert Winning(u, k, id); }
  }

  lemma ExpireKeepsClaims(t: Timing, s: State, i: nat, id: ItemId)
    requires ClaimsOk(s) && Renewing(s, i, id)
    ensures ClaimsOk(Step(t, s, Expire(i, id)))
  {
    assert ClaimOk(s, id);
    ExpireElsewhere(t, s, i, id);
    ExpireClaim(t, s, i, id);
    OneClaimKeeps(s, Step(t, s, Expire(i, id)), id);
  }

  lemma AbandonElsewhere(s: State, i: nat, id: ItemId)
    requires Busy(s, i, id)
    ensures forall x: nat :: x != id ==> SameClaim(s, GiveUp(s, i, id), x)
  {
  }

  lemma AbandonClaim(s: State, i: nat, id: ItemId)
    requires ClaimOk(s, id) && Busy(s, i, id)
    ensures ClaimOk(GiveUp(s, i, id), id)
  {
    var u := GiveUp(s, i, id);
    assert Dropped(u, i, id);
    assert forall k: nat :: Saw(u, k, id) <==> Saw(s, k, id);
    assert forall k: nat :: Dropped(u, k, id) <==> k == i || Dropped(s, k, id);
    assert forall k: nat :: Winning(u, k, id) <==> k != i && Winning(s, k, id);
    assert forall k: nat :: k != i ==> (Pending(u, k, id, Claim) <==> Pending(s, k, id, Claim));
    if id in u.escalated && id !in u.sent && id !in u.unsent { var k: nat :| Winning(s, k, id); assert Winning(u, k, id); }
  }

  lemma AbandonKeepsClaims(t: Timing, s: State, i: nat, id: ItemId)
    requires ClaimsOk(s) && Busy(s, i, id)
    ensures ClaimsOk(Step(t, s, Abandon(i, id)))
  {
    assert ClaimOk(s, id);
    AbandonElsewhere(s, i, id);
    AbandonClaim(s, i, id);
    OneClaimKeeps(s, GiveUp(s, i, id), id);
  }

  lemma TickKeepsClaims(t: Timing, s: State)
    requires ClaimsOk(s)
    ensures ClaimsOk(Step(t, s, StartTick))
  {
    var u, n := Step(t, s, StartTick), |s.ticks|;
    forall x: nat ensures ClaimOk(u, x) {
      assert ClaimOk(s, x);
      assert forall i: nat :: Winning(u, i, x) <==> Winning(s, i, x);
      assert forall i: nat :: Dropped(u, i, x) <==> Dropped(s, i, x);
      assert forall i: nat :: i < n ==> (Saw(u, i, x) <==> Saw(s, i, x)) && (Pending(u, i, x, Claim) <==> Pending(s, i, x, Claim));
      assert Saw(u, n, x) ==> Pending(u, n, x, Claim);
      if x in s.unsent { var i: nat :| Dropped(s, i, x); assert Dropped(u, i, x); }
      if x in s.escalated && x !in s.sent && x !in s.unsent { var i: nat :| Winning(s, i, x); assert Winning(u, i, x); }
    }
  }

  lemma QuietKeepsClaims(t: Timing, s: State, a: Action)
    requires ClaimsOk(s) && (a.Create? || a.Acknowledge? || a.Pass?)
    ensures ClaimsOk(Step(t, s, a))
  {
    var u := Step(t, s, a);
    forall x: nat ensures ClaimOk(u, x) {
      assert ClaimOk(s, x);
      SameClaimOk(s, u, x);
    }
  }

  lemma StepKeepsClaims(t: Timing, s: State, a: Action)
    requires Inv(t, s) && ClaimsOk(s) && Span(t) < t.window
    ensures ClaimsOk(Step(t, s, a))
  {
    match a
    case StartTick => TickKeepsClaims(t, s);
    case SetAdd(i, id) => if Pending(s, i, id, Claim) { SetAddKeepsClaims(t, s, i, id); }
    case Expire(i, id) => if Renewing(s, i, id) { ExpireKeepsClaims(t, s, i, id); }
    case Abandon(i, id) => if Busy(s, i, id) { AbandonKeepsClaims(t, s, i, id); }
    case _ => QuietKeepsClaims(t, s, a);
  }

  // ---------------------------------------------------------------- whole runs

  lemma {:induction false} RunKeepsClaims(t: Timing, s: State, actions: seq<Action>)
    requires Inv(t, s) && ClaimsOk(s) && Span(t) < t.window && Timely(t, s, actions)
    ensures Inv(t, Run(t, s, actions)) && ClaimsOk(Run(t, s, actions))
    decreases |actions|
  {
    if actions != [] {
      StepKeepsInv(t, s, actions[0]);
      StepKeepsClaims(t, s, actions[0]);
      RunKeepsClaims(t, Step(t, s, actions[0]), actions[1..]);
    }
  }

  /** Every tick that found the item gave up on it. */
  ghost predicate AllGaveUp(s: State, id: ItemId) {
    forall i: nat :: Saw(s, i, id) ==> Dropped(s, i, id)
  }

  /**
   * An item that was found and that nobody works on any more has been sent, and never
   * twice, unless its one winner gave up before sending or every tick that found it gave
   * up before a claim was won.
   */
  lemma FoundIsSettled(t: Timing, actions: seq<Action>, id: ItemId)
    requires Span(t) < t.window && Timely(t, START, actions)
    requires forall i: nat :: !Busy(Run(t, START, actions), i, id)
    requires exists i: nat :: Saw(Run(t, START, actions), i, id)
    ensures var s := Run(t, START, actions);
      && Once(s.sent)
      && (id in s.sent <==> !(id in s.unsent || (id !in s.escalated && AllGaveUp(s, id))))
      && (id in s.unsent ==> id in s.escalated)
  {
    RunKeepsClaims(t, START, actions);
    var s := Run(t, START, actions);
    assert ClaimOk(s, id);
    assert forall i: nat :: Busy(s, i, id) || (!Winning(s, i, id) && !Pending(s, i, id, Claim));
  }

  /** Where no tick ever gives up, an item that was found is sent exactly once. */
  lemma FoundIsSentOnce(t: Timing, actions: seq<Action>, id: ItemId)
    requires t.faults == 0 && Span(t) < t.window && Timely(t, START, actions)
    requires forall i: nat :: !Busy(Run(t, START, actions), i, id)
    requires exists i: nat :: Saw(Run(t, START, actions), i, id)
    ensures id in Run(t, START, actions).sent && Once(Run(t, START, actions).sent)
  {
    FoundIsSettled(t, actions, id);
    RunKeepsClaims(t, START, actions);
    var s := Run(t, START, actions);
    assert ClaimOk(s, id) && ItemInv(t, s, id);
    assert forall i: nat :: !Dropped(s, i, id) by {
      forall i: nat | i < |s.ticks| ensures !Dropped(s, i, id) { assert Attended(s, i, 0, id); }
    }
  }
}
