/** What the gate guarantees about a single ruling. */
module GateProperties {
  import opened Domain
  import opened Policy
  import opened Gate

  /* ----- quiet hours ----- */

  /** Local midnight at or before `t`. */
  function Midnight(t: Instant): Instant {
    t - LocalTimeOfDay(t)
  }

  lemma TimeOfDayAfterMidnight(t: Instant, x: int)
    requires 0 <= x < DAY
    ensures LocalTimeOfDay(Midnight(t) + x) == x
    ensures LocalTimeOfDay(Midnight(t) + DAY + x) == x
  {
    var days := (t + IST_OFFSET) / DAY;
    assert t + IST_OFFSET == days * DAY + LocalTimeOfDay(t);
    assert Midnight(t) + x + IST_OFFSET == days * DAY + x;
    assert Midnight(t) + DAY + x + IST_OFFSET == (days + 1) * DAY + x;
    ModOfMultiple(days, x);
    ModOfMultiple(days + 1, x);
  }

  lemma ModOfMultiple(days: int, x: int)
    requires 0 <= x < DAY
    ensures (days * DAY + x) % DAY == x
  {
  }

  /** Midnight in India falls five and a half hours before midnight UTC; in microseconds. */
  function IndianMidnight(day: int): Instant {
    86_400_000_000 * day - 19_800_000_000
  }

  /** An instant is quiet exactly when it lies in the stretch some Indian day starts: from the
      window's start to its end, on the next day when the end comes first. */
  lemma QuietExactly(w: QuietWindow, t: Instant)
    requires w.Valid()
    ensures w.Quiet(t) <==> exists day: int ::
              IndianMidnight(day) + w.start <= t < IndianMidnight(if w.start <= w.end then day else day + 1) + w.end
  {
    var today := (t + IST_OFFSET) / DAY;
    DayStarts(t);
    if w.Quiet(t) {
      var day := if w.start <= w.end || w.start <= LocalTimeOfDay(t) then today else today - 1;
      assert IndianMidnight(day) + w.start <= t < IndianMidnight(if w.start <= w.end then day else day + 1) + w.end;
    }
    forall day: int |
      IndianMidnight(day) + w.start <= t < IndianMidnight(if w.start <= w.end then day else day + 1) + w.end
      ensures w.Quiet(t)
    {
      DaysApart(today, day);
      DaysApart(today - 1, day);
    }
  }

  lemma DayStarts(t: Instant)
    ensures var today := (t + IST_OFFSET) / DAY;
            IndianMidnight(today) == Midnight(t) <= t < IndianMidnight(today + 1) == Midnight(t) + DAY
  {
    var today := (t + IST_OFFSET) / DAY;
    assert t + IST_OFFSET == today * DAY + LocalTimeOfDay(t);
  }

  lemma DaysApart(a: int, b: int)
    ensures a < b ==> IndianMidnight(a) + DAY <= IndianMidnight(b)
    ensures b < a ==> IndianMidnight(b) + DAY <= IndianMidnight(a)
  {
  }

  ghost predicate IsEarliestOutside(r: Instant, t: Instant, w: QuietWindow) {
    t <= r && !w.Quiet(r) && forall u | t <= u < r :: w.Quiet(u)
  }

  /** Where the gate's target falls, in days and times after the local midnight of `t`. */
  lemma TargetShape(t: Instant, w: QuietWindow)
    requires w.Valid() && w.Quiet(t)
    ensures 0 <= w.EndMinute() <= w.end < DAY
    ensures w.end % MINUTE == 0 <==> w.EndMinute() == w.end
    ensures NextAllowedTime(t, w) ==
            Midnight(t) + w.EndMinute() + (if w.EndMinute() <= LocalTimeOfDay(t) then DAY else 0)
    ensures LocalTimeOfDay(NextAllowedTime(t, w)) == w.EndMinute()
    ensures t < NextAllowedTime(t, w) <= t + DAY
  {
    TimeOfDayAfterMidnight(t, w.EndMinute());
  }

  /** For a window that ends on a whole minute, wrapping midnight or not, the target is
      the earliest instant from `t` on outside the window. */
  lemma TargetIsEarliest(t: Instant, w: QuietWindow)
    requires w.Valid() && w.end % MINUTE == 0
    ensures IsEarliestOutside(NextAllowedTime(t, w), t, w)
  {
    if w.Quiet(t) {
      TargetShape(t, w);
      var r := NextAllowedTime(t, w);
      forall u | t <= u < r ensures w.Quiet(u) {
        if u < Midnight(t) + DAY {
          TimeOfDayAfterMidnight(t, u - Midnight(t));
        } else {
          TimeOfDayAfterMidnight(t, u - Midnight(t) - DAY);
        }
      }
    }
  }

  /** The target is earliest exactly when nothing had to move or the end is a whole minute. */
  lemma TargetIsEarliestExactly(t: Instant, w: QuietWindow)
    requires w.Valid()
    ensures IsEarliestOutside(NextAllowedTime(t, w), t, w) <==> !w.Quiet(t) || w.end % MINUTE == 0
  {
    if w.end % MINUTE == 0 {
      TargetIsEarliest(t, w);
    } else if w.Quiet(t) {
      TargetShape(t, w);
      var sameDay := Midnight(t) + w.end;
      TimeOfDayAfterMidnight(t, w.end);
      assert !w.Quiet(sameDay);
      assert !w.Contains(w.EndMinute()) ==> t <= sameDay < NextAllowedTime(t, w);
    }
  }

  /** The target leaves the window exactly when the window does not hold the minute it ends in. */
  lemma TargetLeavesWindow(t: Instant, w: QuietWindow)
    requires w.Valid() && w.Quiet(t)
    ensures w.Quiet(NextAllowedTime(t, w)) <==> w.Contains(w.EndMinute())
  {
    TargetShape(t, w);
  }

  /** A window ending half a minute past eight sends a late message to the next morning,
      inside the window still. */
  lemma SecondsInTheEndAreLost()
    ensures var w := QuietWindow(21 * HOUR, 8 * HOUR + 30_000_000);
            exists t :: w.Valid() && w.Quiet(t) && w.Quiet(NextAllowedTime(t, w))
  {
    var w := QuietWindow(21 * HOUR, 8 * HOUR + 30_000_000);
    var t := 22 * HOUR - IST_OFFSET;
    TargetShape(t, w);
    assert w.Valid() && w.Quiet(t) && w.Quiet(NextAllowedTime(t, w));
  }

  /* ----- reading the contact history ----- */

  /** Contacts since an instant, that instant included, are as many as there are positions in
      the history that hold one. */
  lemma {:induction false} ContactsSinceExactly(h: seq<ContactRecord>, since: Instant, voiceOnly: bool)
    ensures ContactsSince(h, since, voiceOnly) ==
            |set i | 0 <= i < |h| && since <= h[i].at && (voiceOnly ==> h[i].channel == Voice)|
  {
    var all := set i | 0 <= i < |h| && since <= h[i].at && (voiceOnly ==> h[i].channel == Voice);
    if h != [] {
      var n := |h| - 1;
      var before := set i | 0 <= i < n && since <= h[..n][i].at && (voiceOnly ==> h[..n][i].channel == Voice);
      ContactsSinceExactly(h[..n], since, voiceOnly);
      if since <= h[n].at && (voiceOnly ==> h[n].channel == Voice) {
        assert all == before + {n};
      } else {
        assert all == before;
      }
    }
  }

  /** No contact is later than the one at `i`, and none before it as late. */
  predicate IsFirstOfTheLatest(h: seq<ContactRecord>, i: nat)
    requires i < |h|
  {
    && (forall j | 0 <= j < |h| :: h[j].at <= h[i].at)
    && (forall j | 0 <= j < i :: h[j].at < h[i].at)
  }

  /** The last contact is the first of those with the latest instant. */
  lemma {:induction false} LastContactIsFirstOfTheLatest(h: seq<ContactRecord>) returns (i: nat)
    requires h != []
    ensures i < |h| && LastContact(h) == Some(h[i]) && IsFirstOfTheLatest(h, i)
  {
    var n := |h| - 1;
    assert h == h[..n] + [h[n]];
    if n == 0 {
      i := 0;
    } else {
      i := LastContactIsFirstOfTheLatest(h[..n]);
      OneMoreContact(h[..n], h[n], i);
      if h[i].at < h[n].at {
        i := n;
      }
    }
  }

  lemma OneMoreContact(h: seq<ContactRecord>, c: ContactRecord, i: nat)
    requires i < |h| && IsFirstOfTheLatest(h, i)
    ensures if h[i].at < c.at then IsFirstOfTheLatest(h + [c], |h|) else IsFirstOfTheLatest(h + [c], i)
  {
  }

  /* ----- what an approval rests on ----- */

  ghost predicate Approved(action: ProposedAction, ctx: GateContext, p: PolicyBundle) {
    Ruling(action, ctx, p).verdict != Deny
  }

  /** A denial gives one reason: the check that did not pass. */
  lemma OneReason(action: ProposedAction, ctx: GateContext, p: PolicyBundle)
    requires Ruling(action, ctx, p).verdict == Deny
    ensures |Ruling(action, ctx, p).reasons| == 1 && Ruling(action, ctx, p).reasons[0].Because?
  {
  }

  /** Nothing but an exit is approved past a budget or the kill switch. */
  lemma ApprovedWithinBudget(action: ProposedAction, ctx: GateContext, p: PolicyBundle)
    requires Approved(action, ctx, p) && action.tool !in ALWAYS_ALLOWED
    ensures !ctx.killSwitchEngaged
    ensures ctx.actionsUsed < p.budgets.maxActionsPerEpisode
    ensures ctx.spend < p.budgets.maxSpendPerEpisode
    ensures ctx.orgSpendToday < p.budgets.dailyOrgSpendCap
  {
    assert BudgetFinding(ctx, p) == Pass;
  }

  /** A retry is approved only under a live mandate, for a cause nobody in play forbids,
      within the count, and for an instant at least the gap after the last one. */
  lemma ApprovedRetry(action: ProposedAction, ctx: GateContext, p: PolicyBundle)
    requires Approved(action, ctx, p) && action.tool == RetryPayment
    ensures ctx.hasValidMandate
    ensures ctx.rootCause !in p.money.neverRetryCauses && ctx.rootCause !in NEVER_RETRY
    ensures CauseInPlay(ctx, p.money.neverRetryCauses) == None
    ensures ctx.rootCause in p.money.verifyBeforeRetryCauses ==> ctx.captureVerified
    ensures ctx.retriesUsed < p.money.maxRetriesPerPayment
    ensures ctx.lastRetryAt.Some? ==>
            Target(Ruling(action, ctx, p).action.value, ctx)
            >= ctx.lastRetryAt.value + p.money.minGapBetweenRetriesHours * HOUR
  {
    assert BudgetFinding(ctx, p) == Pass;
    assert NeverRetryFinding(ctx, p) == Pass;
  }

  /** Room, seen at `when`, for one more contact after `used` of them: under every cap, and
      the last one answered or long enough ago. */
  predicate RoomFor(caps: FrequencyCaps, used: nat, h: seq<ContactRecord>, voice: bool, when: Instant) {
    && used < caps.contactsPerEpisode
    && ContactsSince(h, when - DAY, false) < caps.messagesPerDay
    && ContactsSince(h, when - 7 * DAY, false) < caps.messagesPerWeek
    && (voice ==> ContactsSince(h, when - 7 * DAY, true) < caps.voiceCallsPerWeek)
    && (h != [] && !LastContact(h).value.responded ==>
          when - LastContact(h).value.at >= caps.cooldownAfterNoResponseHours * HOUR)
  }

  /** A contact is approved only to someone who may be contacted, at most one rung up,
      and within every cap at the moment of checking. */
  lemma ApprovedContact(action: ProposedAction, ctx: GateContext, p: PolicyBundle)
    requires Approved(action, ctx, p) && action.tool in CONTACT_ACTIONS
    ensures !ctx.optedOut && !ctx.disputeOpen && !action.args.recipientIsThirdParty
    ensures p.contact.honourDndRegistry ==> !ctx.onDndRegistry
    ensures p.contact.requireChannelConsent ==> action.args.channel in ctx.consent
    ensures DispositionOf(ctx.rootCause).contactCustomer
    ensures RequestedRung(action, ctx) <= ctx.escalationRung + 1
    ensures RungAt(p.ladder, RequestedRung(action, ctx)).Some?
    ensures RoomFor(p.contact.caps, ctx.contactsUsed, ctx.history, action.args.channel.Voice?, ctx.now)
    ensures Target(Ruling(action, ctx, p).action.value, ctx)
            == NextAllowedTime(Target(action, ctx), p.contact.WindowFor(action.args.channel))
  {
    assert BudgetFinding(ctx, p) == Pass;
    assert MoneyFinding(action, ctx, p) == Pass;
    ApprovedFindings(action, ctx, p);
    assert RungOrderingFinding(RequestedRung(action, ctx), ctx, p) == Pass;
    assert CooldownFinding(ctx, p.contact.caps) == Pass;
  }

  lemma ApprovedFindings(action: ProposedAction, ctx: GateContext, p: PolicyBundle)
    requires Approved(action, ctx, p) && action.tool in CONTACT_ACTIONS
    ensures StandingFinding(action, ctx, p) == Pass
    ensures LadderFinding(action, ctx, p) == Pass
    ensures FrequencyFinding(action.args.channel, ctx, p.contact.caps) == Pass
  {
    assert BudgetFinding(ctx, p) == Pass;
    assert MoneyFinding(action, ctx, p) == Pass;
  }

  /* ----- rewriting ----- */

  /** A rewrite moves the action to a later instant and changes nothing else. */
  lemma RewriteOnlyDelays(action: ProposedAction, ctx: GateContext, p: PolicyBundle)
    requires p.Valid()
    requires Ruling(action, ctx, p).verdict == Modify
    ensures var rewritten := Ruling(action, ctx, p).action.value;
            && rewritten == action.(scheduledFor := rewritten.scheduledFor)
            && rewritten.scheduledFor.Some?
            && rewritten.scheduledFor.value > Target(action, ctx)
    ensures action.tool == RetryPayment || action.tool in CONTACT_ACTIONS
  {
    assert BudgetFinding(ctx, p) == Pass;
    if action.tool == RetryPayment {
      assert NeverRetryFinding(ctx, p) == Pass;
    } else {
      assert MoneyFinding(action, ctx, p).Reschedule? ==> false;
      ApprovedContact(action, ctx, p);
      var w := p.contact.WindowFor(action.args.channel);
      if w.Quiet(Target(action, ctx)) {
        TargetShape(Target(action, ctx), w);
      }
    }
  }

  /** Resubmitted in the same context, the rewritten action is approved unchanged, unless
      it waits for quiet hours whose window still holds the minute it ends in. */
  lemma RewriteIsFixpoint(action: ProposedAction, ctx: GateContext, p: PolicyBundle)
    requires p.Valid()
    requires Ruling(action, ctx, p).verdict == Modify
    ensures var rewritten := Ruling(action, ctx, p).action.value;
            var w := p.contact.WindowFor(action.args.channel);
            Ruling(rewritten, ctx, p) == Allowed(rewritten, Passed(ChecksFor(rewritten)))
            <==> action.tool == RetryPayment || !w.Contains(w.EndMinute())
  {
    var rewritten := Ruling(action, ctx, p).action.value;
    RewriteOnlyDelays(action, ctx, p);
    assert BudgetFinding(ctx, p) == Pass;
    if action.tool == RetryPayment {
      assert NeverRetryFinding(ctx, p) == Pass;
      assert RetryGapFinding(rewritten, ctx, p) == Pass;
    } else {
      var w := p.contact.WindowFor(action.args.channel);
      var t := Target(action, ctx);
      ApprovedContact(action, ctx, p);
      ApprovedFindings(action, ctx, p);
      assert w.Quiet(t);
      TargetLeavesWindow(t, w);
      TargetShape(t, w);
      var r := NextAllowedTime(t, w);
      if w.Quiet(r) {
        TargetShape(r, w);
        assert QuietFinding(rewritten, ctx, p).Reschedule?;
      } else {
        assert QuietFinding(rewritten, ctx, p) == Pass;
      }
      assert ContactFinding(rewritten, ctx, p) == QuietFinding(rewritten, ctx, p);
      assert MoneyFinding(rewritten, ctx, p) == Pass;
      assert Examine(rewritten, ctx, p) == QuietFinding(rewritten, ctx, p);
    }
  }
}
