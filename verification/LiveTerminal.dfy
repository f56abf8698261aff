/** Does a terminal episode stay terminal, and its money stay counted? Exactly which writes
    undo either, the schedules that reach them, and the discipline that rules them out. */
module LiveTerminal {
  import opened Domain
  import opened Text
  import opened Live
  import opened LiveProtocol
  import LiveProperties

  /* ----- which deliveries share a claim ----- */

  /** Two deliveries compete for one claim exactly when their identities are equal, or both
      fill the column and agree as far as it reaches: then the later one is dropped although
      it is another delivery. */
  lemma ClaimSharedExactly(d: Delivery, e: Delivery)
    ensures ClaimKey(d) == ClaimKey(e) <==>
            || Identity(d) == Identity(e)
            || (&& |Identity(d)| >= 200 && |Identity(e)| >= 200
                && Identity(d)[..200] == Identity(e)[..200])
  {
    if |Identity(d)| == KEY_WIDTH {
      assert Identity(d)[..KEY_WIDTH] == Identity(d);
    }
    if |Identity(e)| == KEY_WIDTH {
      assert Identity(e)[..KEY_WIDTH] == Identity(e);
    }
  }

  /** So once event and provider id fill the column, the second no longer counts. */
  lemma LongLabelIsClaim(d: Delivery)
    requires |LiveProperties.Label(d)| >= KEY_WIDTH
    ensures ClaimKey(d) == LiveProperties.Label(d)[..KEY_WIDTH]
  {
    assert Identity(d) == LiveProperties.Label(d) + ([':'] + IntText(Seconds(d.at)));
  }

  lemma LongLabelsShareAClaim(d: Delivery, e: Delivery)
    requires LiveProperties.Label(d) == LiveProperties.Label(e) && |LiveProperties.Label(d)| >= KEY_WIDTH
    ensures ClaimKey(d) == ClaimKey(e)
  {
    LongLabelIsClaim(d);
    LongLabelIsClaim(e);
  }

  /* ----- exactly which steps disturb a closed row ----- */

  /** The step writes this episode's row. */
  predicate Writes(s: State, step: Step, ref: string)
    requires Enabled(s, step)
  {
    (step.Put? || step.OpenPut?) && s.workers[step.w].ref == ref
  }

  /** Equal in every column but the amount, which no write to an existing row touches. */
  predicate SameColumns(a: Row, b: Row) {
    a.(amount := b.amount) == b
  }

  /** The row already shows what this payment makes of an open episode. */
  predicate ShowsPayment(r: Row, read: Row, d: Delivery) {
    && r.recovered == Received(d)
    && r.state == (if Received(d) >= read.amount then Recovered else PartiallyRecovered)
    && r.closedAt == Some(d.at) && r.reason == "payment received via " + d.event
    && r.providerId == read.providerId
  }

  /** The row already shows what this halt makes of an open episode. */
  predicate ShowsHalt(r: Row, read: Row, d: Delivery) {
    && r.recovered == 0 && r.state == Escalated
    && r.closedAt == Some(d.at) && r.reason == "subscription halted; needs a human"
    && r.providerId == read.providerId
  }

  /** A closed row changes exactly when a worker that read something else puts it back, a
      worker that read it open puts anything the row does not already show, or a second
      opener puts over it. */
  lemma ClosedRowChangesExactly(s: State, step: Step, ref: string)
    requires Inv(s) && Enabled(s, step) && ref in s.rows && s.rows[ref].IsTerminal()
    ensures ref in Next(s, step).rows
    ensures var r, me := s.rows[ref], s.workers[step.w];
            Next(s, step).rows[ref] != r <==>
              && Writes(s, step, ref)
              && if step.OpenPut? then !SameColumns(step.row, r)
                 else if me.read.IsTerminal() then !SameColumns(me.read, r)
                 else if IsPayment(me.d) then !ShowsPayment(r, me.read, me.d)
                 else if me.d.event == HALTED then !ShowsHalt(r, me.read, me.d)
                 else true
  {
    assert WorkerSound(s.workers[step.w], s.claims);
  }

  /** What a write leaves recovered: what a closed episode was read with, what the payment
      brings to an open one, and nothing otherwise. */
  function AmountWritten(me: Worker, step: Step): Paise
    requires step.Put? ==> me.HasApplied?
  {
    if step.Put? && me.read.IsTerminal() then me.read.recovered
    else if step.Put? && IsPayment(me.d) then Received(me.d)
    else 0
  }

  /** Recovered money shrinks exactly when such a write brings less than the row holds. So a
      late failure notice, a halt and a second opener erase any recovery, and a smaller
      payment, or an older reading of the row, overwrites a larger one. */
  lemma RecoveryShrinksExactly(s: State, step: Step, ref: string)
    requires Inv(s) && Enabled(s, step) && ref in s.rows
    ensures ref in Next(s, step).rows
    ensures Next(s, step).rows[ref].recovered < s.rows[ref].recovered <==>
            Writes(s, step, ref) && AmountWritten(s.workers[step.w], step) < s.rows[ref].recovered
  {
    assert WorkerSound(s.workers[step.w], s.claims);
  }

  /** A closed episode reopens exactly when a worker that read it open puts an event that
      closes nothing, or a second opener is left waiting. */
  lemma ClosedRowReopensExactly(s: State, step: Step, ref: string)
    requires Enabled(s, step) && ref in s.rows && s.rows[ref].IsTerminal()
    ensures ref in Next(s, step).rows
    ensures !Next(s, step).rows[ref].IsTerminal() <==>
              && Writes(s, step, ref)
              && if step.OpenPut? then step.row.state == Waiting
                 else !s.workers[step.w].read.IsTerminal() && !Closes(s.workers[step.w].d)
  {
  }

  /* ----- the discipline that rules them out ----- */

  /** A write finds the row as it was read, or absent for an opener: what a compare before
      the put would check. */
  predicate Undisturbed(s: State, step: Step)
    requires Enabled(s, step)
  {
    && (step.Put? ==> s.rows[s.workers[step.w].ref] == s.workers[step.w].read)
    && (step.OpenPut? ==> s.workers[step.w].ref !in s.rows)
  }

  ghost predicate UndisturbedRun(s: State, steps: seq<Step>)
    requires IsRun(s, steps)
    decreases |steps|
  {
    steps == [] || (Undisturbed(s, steps[0]) && UndisturbedRun(Next(s, steps[0]), steps[1..]))
  }

  /** Over any run whose writes are undisturbed, a closed episode stays exactly as it is. */
  lemma {:induction false} ClosedStaysClosed(s: State, steps: seq<Step>, ref: string)
    requires IsRun(s, steps) && UndisturbedRun(s, steps)
    requires ref in s.rows && s.rows[ref].IsTerminal()
    ensures ref in After(s, steps).rows && After(s, steps).rows[ref] == s.rows[ref]
    decreases |steps|
  {
    if steps != [] {
      ClosedStaysClosed(Next(s, steps[0]), steps[1..], ref);
    }
  }

  /** Between a read and the put that answers it: nobody writes the row, and the worker itself
      only claims and applies. */
  ghost predicate LeftAlone(s: State, steps: seq<Step>, w: nat, ref: string)
    requires IsRun(s, steps)
    decreases |steps|
  {
    steps == [] ||
    (&& !Writes(s, steps[0], ref)
     && (steps[0].w == w ==> steps[0].Claim? || steps[0].Apply?)
     && LeftAlone(Next(s, steps[0]), steps[1..], w, ref))
  }

  /** The worker is idle again, or still holds what it read. */
  predicate StillHolds(me: Worker, ref: string, d: Delivery, read: Row) {
    me in {Idle, HasRead(ref, d, read), HasClaimed(ref, d, read), HasApplied(ref, d, read)}
  }

  lemma {:induction false} LeftAloneKeeps(s: State, steps: seq<Step>, w: nat, ref: string, d: Delivery, read: Row)
    requires IsRun(s, steps) && LeftAlone(s, steps, w, ref)
    requires w < |s.workers| && ref in s.rows && s.rows[ref] == read && StillHolds(s.workers[w], ref, d, read)
    ensures var t := After(s, steps);
            && w < |t.workers| && ref in t.rows && t.rows[ref] == read && StillHolds(t.workers[w], ref, d, read)
    decreases |steps|
  {
    if steps != [] {
      LeftAloneKeeps(Next(s, steps[0]), steps[1..], w, ref, d, read);
    }
  }

  /** A schedule that leaves the row alone between a worker's read and its put gives what the
      sequential handler gives, whatever else goes on. */
  lemma UndisturbedPutSettles(s: State, w: nat, ref: string, d: Delivery, between: seq<Step>)
    requires Enabled(s, Read(w, ref, d))
    requires IsRun(Next(s, Read(w, ref, d)), between) && LeftAlone(Next(s, Read(w, ref, d)), between, w, ref)
    requires Enabled(After(Next(s, Read(w, ref, d)), between), Put(w))
    ensures var t := After(Next(s, Read(w, ref, d)), between);
            && Undisturbed(t, Put(w))
            && Next(t, Put(w)).rows == t.rows[ref := Settled(s.rows[ref], d)]
  {
    LeftAloneKeeps(Next(s, Read(w, ref, d)), between, w, ref, d, s.rows[ref]);
  }

  /* ----- schedules that reach them ----- */

  /** An open episode and two idle workers. */
  lemma AnEpisodeIsOpen(ref: string, amount: Paise) returns (s: State)
    ensures Reachable(s)
    ensures s == State(map[ref := Row(amount, Waiting, "p", 0, None, "")], [], [Idle, Idle])
  {
    var open := Row(amount, Waiting, "p", 0, None, "");
    s := State(map[], [], [Idle, Idle]);
    assert IsRun(s, []) && After(s, []) == s;
    ReachableNext(s, OpenRead(0, ref, amount));
    s := Next(s, OpenRead(0, ref, amount));
    assert s.workers == [Opening(ref, amount), Idle];
    ReachableNext(s, OpenPut(0, open));
    s := Next(s, OpenPut(0, open));
    assert s.workers == [Idle, Idle];
  }

  /** One worker has read it for `d` and claimed the delivery. */
  lemma OneWorkerHasRead(ref: string, amount: Paise, d: Delivery) returns (s: State)
    requires d.episodeRef == ref
    ensures Reachable(s)
    ensures var open := Row(amount, Waiting, "p", 0, None, "");
            s == State(map[ref := open], [Claimed(ref, d)], [HasApplied(ref, d, open), Idle])
  {
    s := AnEpisodeIsOpen(ref, amount);
    var open := s.rows[ref];
    ReachableNext(s, Read(0, ref, d));
    s := Next(s, Read(0, ref, d));
    assert s.workers == [HasRead(ref, d, open), Idle] && s.claims == [];
    ReachableNext(s, Claim(0));
    s := Next(s, Claim(0));
    assert s.workers == [HasClaimed(ref, d, open), Idle] && s.claims == [Claimed(ref, d)];
    ReachableNext(s, Apply(0));
    s := Next(s, Apply(0));
    assert s.workers == [HasApplied(ref, d, open), Idle];
  }

  /** Then the other reads it for `paid`, claims that and applies it. */
  lemma TheOtherApplies(ref: string, amount: Paise, d: Delivery, paid: Delivery) returns (s: State)
    requires d.episodeRef == ref && paid.episodeRef == ref && ClaimKey(d) != ClaimKey(paid)
    ensures Reachable(s)
    ensures var open := Row(amount, Waiting, "p", 0, None, "");
            s == State(map[ref := open], [Claimed(ref, d), Claimed(ref, paid)],
                       [HasApplied(ref, d, open), HasApplied(ref, paid, open)])
  {
    s := OneWorkerHasRead(ref, amount, d);
    var open, late := s.rows[ref], s.workers[0];
    ReachableNext(s, Read(1, ref, paid));
    s := Next(s, Read(1, ref, paid));
    assert s.workers == [late, HasRead(ref, paid, open)] && s.claims == [Claimed(ref, d)];
    assert !IsClaimed(s, ref, paid);
    ReachableNext(s, Claim(1));
    s := Next(s, Claim(1));
    assert s.workers == [late, HasClaimed(ref, paid, open)] && s.claims == [Claimed(ref, d), Claimed(ref, paid)];
    ReachableNext(s, Apply(1));
    s := Next(s, Apply(1));
    assert s.workers == [late, HasApplied(ref, paid, open)];
  }

  /** And writes it. */
  lemma TheOtherHandles(ref: string, amount: Paise, d: Delivery, paid: Delivery) returns (s: State)
    requires d.episodeRef == ref && paid.episodeRef == ref && ClaimKey(d) != ClaimKey(paid)
    ensures Reachable(s)
    ensures var open := Row(amount, Waiting, "p", 0, None, "");
            && s.rows == map[ref := Settled(open, paid)]
            && s.workers == [HasApplied(ref, d, open), Idle]
            && s.claims == [Claimed(ref, d), Claimed(ref, paid)]
  {
    s := TheOtherApplies(ref, amount, d, paid);
    var late := s.workers[0];
    ReachableNext(s, Put(1));
    s := Next(s, Put(1));
    assert s.workers == [late, Idle];
  }

  /** Event names that differ within the key's width keep two claims apart. */
  lemma EventsTellApart(d: Delivery, e: Delivery, i: nat)
    requires i < |d.event| && i < |e.event| && i < KEY_WIDTH && d.event[i] != e.event[i]
    ensures ClaimKey(d) != ClaimKey(e)
  {
    assert Identity(d)[i] == d.event[i] && Identity(e)[i] == e.event[i];
  }

  /** A failure notice read before the payment was written and put after it reopens a
      recovered episode and erases the money. The payment is claimed by then, so redelivering
      it does not help. */
  lemma ARecoveryCanBeLost(ref: string, amount: Paise, at: Instant) returns (s: State)
    requires amount > 0
    ensures Reachable(s) && Enabled(s, Put(0)) && ref in s.rows
    ensures s.rows[ref].state == Recovered && s.rows[ref].recovered == amount
    ensures Next(s, Put(0)).rows[ref].state == Waiting && Next(s, Put(0)).rows[ref].recovered == 0
    ensures IsClaimed(Next(s, Put(0)), ref, Delivery("payment_link.paid", ref, "p", amount, at))
  {
    var paid := Delivery("payment_link.paid", ref, "p", amount, at);
    var failed := Delivery("payment.failed", ref, "p", 0, at);
    EventsTellApart(paid, failed, 7);
    s := TheOtherHandles(ref, amount, failed, paid);
    assert Claimed(ref, paid) in s.claims;
  }

  /** A halt read before and put after erases the money and leaves the episode closed. */
  lemma AHaltCanEraseARecovery(ref: string, amount: Paise, at: Instant) returns (s: State)
    requires amount > 0
    ensures Reachable(s) && Enabled(s, Put(0)) && ref in s.rows
    ensures s.rows[ref].state == Recovered && s.rows[ref].recovered == amount
    ensures Next(s, Put(0)).rows[ref].state == Escalated && Next(s, Put(0)).rows[ref].recovered == 0
  {
    var paid := Delivery("payment_link.paid", ref, "p", amount, at);
    var halted := Delivery("subscription.halted", ref, "p", 0, at);
    EventsTellApart(paid, halted, 0);
    s := TheOtherHandles(ref, amount, halted, paid);
  }

  /** A smaller payment read before and put after overwrites the larger one. */
  lemma ASmallerPaymentCanOverwrite(ref: string, amount: Paise, part: nat, at: Instant) returns (s: State)
    requires part < amount
    ensures Reachable(s) && Enabled(s, Put(0)) && ref in s.rows
    ensures s.rows[ref].state == Recovered && s.rows[ref].recovered == amount
    ensures Next(s, Put(0)).rows[ref].state == PartiallyRecovered && Next(s, Put(0)).rows[ref].recovered == part
  {
    var paid := Delivery("payment_link.paid", ref, "p", amount, at);
    var captured := Delivery("payment.captured", ref, "p", part, at);
    EventsTellApart(paid, captured, 7);
    s := TheOtherHandles(ref, amount, captured, paid);
  }

  /** Two openers found nothing; one has opened the episode. */
  lemma TwoOpeners(ref: string, amount: Paise) returns (s: State)
    ensures Reachable(s)
    ensures s == State(map[ref := Row(amount, Waiting, "p", 0, None, "")], [], [Idle, Opening(ref, amount)])
  {
    s := State(map[], [], [Idle, Idle]);
    assert IsRun(s, []) && After(s, []) == s;
    ReachableNext(s, OpenRead(0, ref, amount));
    s := Next(s, OpenRead(0, ref, amount));
    assert s.workers == [Opening(ref, amount), Idle];
    ReachableNext(s, OpenRead(1, ref, amount));
    s := Next(s, OpenRead(1, ref, amount));
    assert s.workers == [Opening(ref, amount), Opening(ref, amount)];
    var open := Row(amount, Waiting, "p", 0, None, "");
    ReachableNext(s, OpenPut(0, open));
    s := Next(s, OpenPut(0, open));
    assert s.workers == [Idle, Opening(ref, amount)];
  }

  /** A second opener that found nothing puts a fresh row over the recovered one. */
  lemma ASecondOpenerCanEraseARecovery(ref: string, amount: Paise, at: Instant) returns (s: State)
    requires amount > 0
    ensures var again := OpenPut(1, Row(amount, Waiting, "p", 0, None, ""));
            && Reachable(s) && Enabled(s, again) && ref in s.rows
            && s.rows[ref].state == Recovered && s.rows[ref].recovered == amount
            && Next(s, again).rows[ref].state == Waiting && Next(s, again).rows[ref].recovered == 0
  {
    var paid := Delivery("payment_link.paid", ref, "p", amount, at);
    s := TwoOpeners(ref, amount);
    var open, second := s.rows[ref], s.workers[1];
    ReachableNext(s, Read(0, ref, paid));
    s := Next(s, Read(0, ref, paid));
    assert s.workers == [HasRead(ref, paid, open), second];
    ReachableNext(s, Claim(0));
    s := Next(s, Claim(0));
    assert s.workers == [HasClaimed(ref, paid, open), second];
    ReachableNext(s, Apply(0));
    s := Next(s, Apply(0));
    assert s.workers == [HasApplied(ref, paid, open), second];
    ReachableNext(s, Put(0));
    s := Next(s, Put(0));
    assert s.workers == [Idle, second];
  }
}
