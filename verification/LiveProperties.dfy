/** Provider events handled one after another: closed stays closed, duplicates change
    nothing, and the audit notes account for every rupee. */
module LiveProperties {
  import opened Domain
  import opened Text
  import opened Live

  /** Event and provider id, as the identity joins them. */
  function Label(d: Delivery): string {
    d.event + ([':'] + d.providerId)
  }

  /** Two deliveries are told apart by the joined event and provider id and by the whole
      second, and by nothing else: the amount is not part of the identity. */
  lemma IdentityExactly(d: Delivery, e: Delivery)
    ensures Identity(d) == Identity(e) <==> Label(d) == Label(e) && Seconds(d.at) == Seconds(e.at)
  {
    assert Identity(d) == Label(d) + ([':'] + IntText(Seconds(d.at)));
    assert Identity(e) == Label(e) + ([':'] + IntText(Seconds(e.at)));
    if Identity(d) == Identity(e) {
      SplitAtLast(':', Label(d), IntText(Seconds(d.at)), Label(e), IntText(Seconds(e.at)));
      ReadIntText(Seconds(d.at));
      ReadIntText(Seconds(e.at));
    }
  }

  /** Event names hold no colon, so the label tells event and provider id apart too. */
  lemma LabelExactly(d: Delivery, e: Delivery)
    requires ':' !in d.event && ':' !in e.event
    ensures Label(d) == Label(e) <==> d.event == e.event && d.providerId == e.providerId
  {
    if Label(d) == Label(e) {
      SplitAt(':', d.event, d.providerId, e.event, e.providerId);
    }
  }

  function HandleAll(v: View, log: seq<Delivery>): View {
    if log == [] then v else Handle(HandleAll(v, log[..|log| - 1]), log[|log| - 1]).0
  }

  /** The notes the chain is told, in order. */
  function NotesOf(v: View, log: seq<Delivery>): seq<Note> {
    if log == [] then []
    else
      var n := |log| - 1;
      NotesOf(v, log[..n]) + [Note(Handle(HandleAll(v, log[..n]), log[n]).1, log[n])]
  }

  /* ----- where a delivery goes never changes ----- */

  /** The same episodes under the same provider ids. */
  ghost predicate SameIndex(v: View, w: View) {
    && v.order == w.order && v.rows.Keys == w.rows.Keys
    && forall k <- v.rows :: v.rows[k].row.providerId == w.rows[k].row.providerId
  }

  lemma {:induction false} FirstWithAgrees(v: View, w: View, order: seq<string>, providerId: string)
    requires SameIndex(v, w)
    ensures FirstWith(v, order, providerId) == FirstWith(w, order, providerId)
  {
    if order != [] {
      assert order[0] in v.rows <==> order[0] in w.rows;
      FirstWithAgrees(v, w, order[1..], providerId);
    }
  }

  lemma ResolveAgrees(v: View, w: View, d: Delivery)
    requires SameIndex(v, w)
    ensures Resolve(v, d) == Resolve(w, d)
  {
    assert d.episodeRef in v.rows <==> d.episodeRef in w.rows;
    FirstWithAgrees(v, w, v.order, d.providerId);
  }

  /** What the deliveries in `log` that reach `ref` are known by. */
  function Identities(v: View, log: seq<Delivery>, ref: string): set<string> {
    if log == [] then {}
    else
      var n := |log| - 1;
      Identities(v, log[..n], ref) + (if Resolve(v, log[n]) == Some(ref) then {Identity(log[n])} else {})
  }

  lemma {:induction false} IdentitiesHold(v: View, log: seq<Delivery>, ref: string, i: nat)
    requires i < |log| && Resolve(v, log[i]) == Some(ref)
    ensures Identity(log[i]) in Identities(v, log, ref)
  {
    if i < |log| - 1 {
      IdentitiesHold(v, log[..|log| - 1], ref, i);
    }
  }

  /** Handling never re-files an episode, and remembers exactly what reached it. */
  lemma {:induction false} HandlingKeepsIndex(v: View, log: seq<Delivery>)
    ensures SameIndex(v, HandleAll(v, log))
    ensures forall k <- v.rows :: HandleAll(v, log).rows[k].seen == v.rows[k].seen + Identities(v, log, k)
  {
    if log != [] {
      var n := |log| - 1;
      HandlingKeepsIndex(v, log[..n]);
      ResolveAgrees(v, HandleAll(v, log[..n]), log[n]);
    }
  }

  /* ----- duplicates ----- */

  predicate SameDelivery(v: View, d: Delivery, e: Delivery) {
    Resolve(v, d) == Resolve(v, e) && Identity(d) == Identity(e)
  }

  /** The log without deliveries that repeat an earlier one. */
  function Deduplicated(v: View, log: seq<Delivery>): seq<Delivery> {
    if log == [] then []
    else
      var n := |log| - 1;
      var kept := Deduplicated(v, log[..n]);
      if exists i | 0 <= i < n :: SameDelivery(v, log[i], log[n]) then kept else kept + [log[n]]
  }

  /** A delivery already handled changes nothing. */
  lemma RepeatChangesNothing(v: View, log: seq<Delivery>, d: Delivery, i: nat)
    requires i < |log| && SameDelivery(v, log[i], d)
    ensures Handle(HandleAll(v, log), d).0 == HandleAll(v, log)
  {
    HandlingKeepsIndex(v, log);
    ResolveAgrees(v, HandleAll(v, log), d);
    if Resolve(v, d).Some? {
      IdentitiesHold(v, log, Resolve(v, d).value, i);
    }
  }

  /** However often a provider redelivers, the outcome is that of each delivery once. */
  lemma {:induction false} DuplicatesChangeNothing(v: View, log: seq<Delivery>)
    ensures HandleAll(v, log) == HandleAll(v, Deduplicated(v, log))
  {
    if log != [] {
      var before, d := log[..|log| - 1], log[|log| - 1];
      var kept := Deduplicated(v, before);
      DuplicatesChangeNothing(v, before);
      if i :| 0 <= i < |before| && SameDelivery(v, log[i], d) {
        assert before[i] == log[i];
        RepeatChangesNothing(v, before, d, i);
      } else {
        assert (kept + [d])[..|kept|] == kept;
      }
    }
  }

  lemma {:induction false} KeptDeliveriesAreInTheLog(v: View, log: seq<Delivery>)
    ensures forall d <- Deduplicated(v, log) :: exists i | 0 <= i < |log| :: log[i] == d
  {
    if log != [] {
      var n := |log| - 1;
      KeptDeliveriesAreInTheLog(v, log[..n]);
      forall d <- Deduplicated(v, log) ensures exists i | 0 <= i < |log| :: log[i] == d {
        if d in Deduplicated(v, log[..n]) {
          var i :| 0 <= i < n && log[..n][i] == d;
          assert log[i] == d;
        } else {
          assert log[n] == d;
        }
      }
    }
  }

  /** No two kept deliveries are the same one. */
  lemma {:induction false} KeptDeliveriesDiffer(v: View, log: seq<Delivery>)
    ensures forall i, j | 0 <= i < j < |Deduplicated(v, log)| ::
              !SameDelivery(v, Deduplicated(v, log)[i], Deduplicated(v, log)[j])
  {
    if log != [] {
      var n := |log| - 1;
      KeptDeliveriesDiffer(v, log[..n]);
      KeptDeliveriesAreInTheLog(v, log[..n]);
      var kept := Deduplicated(v, log[..n]);
      if !exists i | 0 <= i < n :: SameDelivery(v, log[i], log[n]) {
        forall i | 0 <= i < |kept| ensures !SameDelivery(v, kept[i], log[n]) {
          assert kept[i] in kept;
          var k :| 0 <= k < |log[..n]| && log[..n][k] == kept[i];
          assert log[k] == kept[i];
        }
      }
    }
  }

  /* ----- closed episodes ----- */

  /** A terminal episode stays exactly as it is, whatever arrives. */
  lemma {:induction false} TerminalAbsorbs(v: View, log: seq<Delivery>, ref: string)
    requires ref in v.rows && v.rows[ref].row.IsTerminal()
    ensures ref in HandleAll(v, log).rows && HandleAll(v, log).rows[ref].row == v.rows[ref].row
  {
    if log != [] {
      TerminalAbsorbs(v, log[..|log| - 1], ref);
    }
  }

  /** A recovered episode holds at least its amount, a partly recovered one less. */
  predicate StateFits(r: Row) {
    && (r.state == Recovered ==> r.recovered >= r.amount)
    && (r.state == PartiallyRecovered ==> r.recovered < r.amount)
  }

  ghost predicate StatesFit(v: View) {
    forall k <- v.rows :: StateFits(v.rows[k].row)
  }

  /** Events keep every state true to its amount. */
  lemma {:induction false} StatesStayTrue(v: View, log: seq<Delivery>)
    requires StatesFit(v)
    ensures StatesFit(HandleAll(v, log))
  {
    if log != [] {
      StatesStayTrue(v, log[..|log| - 1]);
    }
  }

  /* ----- the notes add up ----- */

  /** A note of a payment that was counted for `ref`. */
  predicate IsCredit(n: Note, ref: string) {
    n.answer.Applied? && n.answer.ref == ref && n.answer.changed && IsPayment(n.delivery)
  }

  function Credited(notes: seq<Note>, ref: string): int {
    if notes == [] then 0
    else
      var last := notes[|notes| - 1];
      Credited(notes[..|notes| - 1], ref) + (if IsCredit(last, ref) then Received(last.delivery) else 0)
  }

  function Credits(notes: seq<Note>, ref: string): nat {
    if notes == [] then 0
    else Credits(notes[..|notes| - 1], ref) + (if IsCredit(notes[|notes| - 1], ref) then 1 else 0)
  }

  /** One delivery moves the recovered amount by what its note credits. */
  lemma NoteMatchesChange(v: View, d: Delivery, ref: string)
    requires ref in v.rows
    ensures var note := Note(Handle(v, d).1, d);
            var was, now := v.rows[ref].row, Handle(v, d).0.rows[ref].row;
            && now.recovered == was.recovered + (if IsCredit(note, ref) then Received(d) else 0)
            && (IsCredit(note, ref) ==> !was.IsTerminal() && now.IsTerminal())
            && (was.IsTerminal() ==> now == was)
  {
  }

  /** The recovered amount is what the noted payments say; an open episode takes at most one
      of them, and once it has taken one it is closed. */
  lemma {:induction false} NotesReconcile(v: View, log: seq<Delivery>, ref: string)
    requires ref in v.rows
    ensures ref in HandleAll(v, log).rows
    ensures HandleAll(v, log).rows[ref].row.recovered == v.rows[ref].row.recovered + Credited(NotesOf(v, log), ref)
    ensures Credits(NotesOf(v, log), ref) <= 1
    ensures Credits(NotesOf(v, log), ref) == 1 ==>
              !v.rows[ref].row.IsTerminal() && HandleAll(v, log).rows[ref].row.IsTerminal()
  {
    if log != [] {
      var n := |log| - 1;
      var notes := NotesOf(v, log);
      NotesReconcile(v, log[..n], ref);
      assert notes[..|notes| - 1] == NotesOf(v, log[..n]);
      NoteMatchesChange(HandleAll(v, log[..n]), log[n], ref);
      if v.rows[ref].row.IsTerminal() {
        TerminalAbsorbs(v, log[..n], ref);
      }
    }
  }

  /* ----- one delivery, exactly ----- */

  /** The provider's three ways of saying that money came. */
  predicate SaysPaid(d: Delivery) {
    d.event == "payment_link.paid" || d.event == "payment.captured" || d.event == "subscription.charged"
  }

  function OrNothing(amount: Paise): nat {
    if amount > 0 then amount else 0
  }

  /** Money is credited exactly for a payment to an open episode, never less than nothing; it
      closes the episode, and fully exactly when it now holds its amount. */
  lemma CreditExactly(r: Row, d: Delivery)
    ensures var after := Settled(r, d);
            && after.recovered == r.recovered + (if !r.IsTerminal() && SaysPaid(d) then OrNothing(d.amount) else 0)
            && (!r.IsTerminal() && SaysPaid(d) ==>
                  && (after.state == Recovered <==> r.amount <= r.recovered + OrNothing(d.amount))
                  && (after.state == PartiallyRecovered <==> r.recovered + OrNothing(d.amount) < r.amount)
                  && after.reason == "payment received via " + d.event)
  {
  }

  /** An open episode is closed exactly by a payment or a halt, at that instant; a failed attempt
      leaves it waiting, a halt hands it to a person, and nothing else moves it. What it is
      worth and where it waits never change. */
  lemma ClosingExactly(r: Row, d: Delivery)
    ensures var after := Settled(r, d);
            && (after.IsTerminal() <==> r.IsTerminal() || SaysPaid(d) || d.event == "subscription.halted")
            && (after.closedAt == if !r.IsTerminal() && after.IsTerminal() then Some(d.at) else r.closedAt)
            && (!r.IsTerminal() && d.event == "subscription.halted" ==> after.state == Escalated)
            && (!r.IsTerminal() && d.event == "payment.failed" ==> after == r.(state := Waiting))
            && (!r.IsTerminal() && !SaysPaid(d) && d.event !in ["payment.failed", "subscription.halted"] ==> after == r)
            && after.amount == r.amount && after.providerId == r.providerId
  {
  }

  /** The first episode in the order kept that waits on this link, and none before it does. */
  lemma {:induction false} FirstWithIsFirst(v: View, order: seq<string>, providerId: string, i: nat)
    requires i < |order| && order[i] in v.rows && v.rows[order[i]].row.providerId == providerId
    requires forall j | 0 <= j < i :: order[j] !in v.rows || v.rows[order[j]].row.providerId != providerId
    ensures FirstWith(v, order, providerId) == Some(order[i])
  {
    if i > 0 {
      assert forall j | 0 <= j < i - 1 :: order[1..][j] == order[j + 1];
      FirstWithIsFirst(v, order[1..], providerId, i - 1);
    }
  }

  /** A delivery goes to the episode it names, else to the first that waits on its link, else
      nowhere; one without a link is never matched by it. */
  lemma ResolvedExactly(v: View, d: Delivery)
    ensures d.episodeRef in v.rows ==> Resolve(v, d) == Some(d.episodeRef)
    ensures d.episodeRef !in v.rows && d.providerId == "" ==> Resolve(v, d) == None
    ensures d.episodeRef !in v.rows && d.providerId != "" ==> Resolve(v, d) == FirstWith(v, v.order, d.providerId)
  {
  }

  /** The answer says where a delivery went, whether it had been there before, and otherwise
      whether it meant anything to an episode still open. */
  lemma AnsweredExactly(v: View, d: Delivery)
    ensures var ref, answer := Resolve(v, d), Handle(v, d).1;
            && (answer == Unmatched <==> ref == None)
            && (ref.Some? ==>
                  var before := v.rows[ref.value];
                  if Identity(d) in before.seen then answer == Duplicate(ref.value, before.row.state)
                  else answer == Applied(ref.value, Handle(v, d).0.rows[ref.value].row.state,
                                         !before.row.IsTerminal() &&
                                         (SaysPaid(d) || d.event in ["payment.failed", "subscription.halted"])))
  {
  }

  /** Whole seconds, dropped toward zero on either side of it. */
  lemma SecondsExactly(at: Instant)
    ensures at >= 0 ==> 1_000_000 * Seconds(at) <= at < 1_000_000 * Seconds(at) + 1_000_000
    ensures Seconds(-at) == -Seconds(at)
  {
  }
}
