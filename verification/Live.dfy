/** Episodes the service is working now, and what provider events do to them. */
module Live {
  import opened Domain
  import opened Text

  /** A verified provider event. */
  datatype Delivery = Delivery(event: string, episodeRef: string, providerId: string, amount: Paise, at: Instant)

  const PAYMENT_EVENTS: set<string> := {"payment_link.paid", "payment.captured", "subscription.charged"}
  const ATTEMPT_FAILED: string := "payment.failed"
  const HALTED: string := "subscription.halted"

  /** The fields of an episode that events read and write. */
  datatype Row = Row(
    amount: Paise,
    state: EpisodeState,
    providerId: string,
    recovered: Paise,
    closedAt: Option<Instant>,
    reason: string)
  {
    predicate IsTerminal() {
      state in TERMINAL_STATES
    }
  }

  predicate IsPayment(d: Delivery) {
    d.event in PAYMENT_EVENTS
  }

  /** The events that end an open episode. */
  predicate Closes(d: Delivery) {
    IsPayment(d) || d.event == HALTED
  }

  predicate IsActedOn(d: Delivery) {
    Closes(d) || d.event == ATTEMPT_FAILED
  }

  function Received(d: Delivery): nat {
    Max(0, d.amount)
  }

  /** What a delivery makes of an episode. */
  function Settled(r: Row, d: Delivery): Row {
    if r.IsTerminal() then r
    else if IsPayment(d) then
      var recovered := r.recovered + Received(d);
      r.(recovered := recovered, state := if recovered >= r.amount then Recovered else PartiallyRecovered,
         closedAt := Some(d.at), reason := "payment received via " + d.event)
    else if d.event == ATTEMPT_FAILED then r.(state := Waiting)
    else if d.event == HALTED then
      r.(state := Escalated, closedAt := Some(d.at), reason := "subscription halted; needs a human")
    else r
  }

  /** Whole seconds, toward zero. */
  function Seconds(at: Instant): int {
    if at >= 0 then at / 1_000_000 else -(-at / 1_000_000)
  }

  function Identity(d: Delivery): string {
    d.event + ([':'] + (d.providerId + ([':'] + IntText(Seconds(d.at)))))
  }

  /** An episode with the deliveries already applied to it. */
  datatype Stored = Stored(row: Row, seen: set<string>)

  /** The store as a value; `order` is the insertion order of its references. */
  datatype View = View(rows: map<string, Stored>, order: seq<string>)

  datatype Answer =
    | Unmatched
    | Duplicate(ref: string, state: EpisodeState)
    | Applied(ref: string, state: EpisodeState, changed: bool)

  /** What the audit chain is told of a delivery. */
  datatype Note = Note(answer: Answer, delivery: Delivery)

  function FirstWith(v: View, order: seq<string>, providerId: string): (ref: Option<string>)
    ensures ref.Some? ==> ref.value in v.rows && ref.value in order && v.rows[ref.value].row.providerId == providerId
    ensures ref.None? ==> forall k <- order :: k in v.rows ==> v.rows[k].row.providerId != providerId
  {
    if order == [] then None
    else if order[0] in v.rows && v.rows[order[0]].row.providerId == providerId then Some(order[0])
    else FirstWith(v, order[1..], providerId)
  }

  /** By reference, else by provider id when there is one. */
  function Resolve(v: View, d: Delivery): (ref: Option<string>)
    ensures ref.Some? ==> ref.value in v.rows
  {
    if d.episodeRef in v.rows then Some(d.episodeRef)
    else if d.providerId == "" then None
    else FirstWith(v, v.order, d.providerId)
  }

  /** One webhook, start to finish. */
  function Handle(v: View, d: Delivery): (View, Answer) {
    var ref := Resolve(v, d);
    if ref.None? then (v, Unmatched)
    else
      var e := v.rows[ref.value];
      if Identity(d) in e.seen then (v, Duplicate(ref.value, e.row.state))
      else
        var row := Settled(e.row, d);
        (v.(rows := v.rows[ref.value := Stored(row, e.seen + {Identity(d)})]),
         Applied(ref.value, row.state, !e.row.IsTerminal() && IsActedOn(d)))
  }

  /* ----- the service as it runs ----- */

  class LiveEpisode {
    const ref: string
    const amountPaise: Paise
    var state: EpisodeState
    var providerId: string
    var recoveredPaise: Paise
    var closedAt: Option<Instant>
    var terminalReason: string
    var seenEvents: set<string>

    constructor (ref: string, amountPaise: Paise)
      ensures this.ref == ref && Current() == Row(amountPaise, Ingested, "", 0, None, "") && seenEvents == {}
    {
      this.ref, this.amountPaise := ref, amountPaise;
      state, providerId, recoveredPaise, closedAt, terminalReason := Ingested, "", 0, None, "";
      seenEvents := {};
    }

    function Current(): Row
      reads this
    {
      Row(amountPaise, state, providerId, recoveredPaise, closedAt, terminalReason)
    }

    /** Three refusals in order: a closed episode, an attempt that failed, an unknown event. */
    method ApplyEvent(d: Delivery) returns (changed: bool)
      modifies this`state, this`recoveredPaise, this`closedAt, this`terminalReason
      ensures Current() == Settled(old(Current()), d)
      ensures changed <==> !old(Current()).IsTerminal() && IsActedOn(d)
    {
      if state in TERMINAL_STATES {
        return false;
      }
      if d.event in PAYMENT_EVENTS {
        recoveredPaise := recoveredPaise + Max(0, d.amount);
        state := if recoveredPaise >= amountPaise then Recovered else PartiallyRecovered;
        closedAt := Some(d.at);
        terminalReason := "payment received via " + d.event;
        return true;
      }
      if d.event == ATTEMPT_FAILED {
        state := Waiting;
        return true;
      }
      if d.event == HALTED {
        state := Escalated;
        closedAt := Some(d.at);
        terminalReason := "subscription halted; needs a human";
        return true;
      }
      return false;
    }
  }

  class InMemoryEpisodeStore {
    var episodes: map<string, LiveEpisode>
    var order: seq<string>

    constructor ()
      ensures Valid() && Contents() == View(map[], [])
    {
      episodes, order := map[], [];
    }

    ghost predicate Valid()
      reads this
    {
      && (forall k <- order :: k in episodes)
      && (forall k <- episodes :: k in order && episodes[k].ref == k)
    }

    ghost function Contents(): View
      reads this, episodes.Values
    {
      View(map k | k in episodes :: Stored(episodes[k].Current(), episodes[k].seenEvents), order)
    }

    method Get(ref: string) returns (e: LiveEpisode?)
      ensures if ref in episodes then e == episodes[ref] else e == null
    {
      e := if ref in episodes then episodes[ref] else null;
    }

    method Put(e: LiveEpisode)
      requires Valid()
      modifies this
      ensures Valid()
      ensures episodes == old(episodes)[e.ref := e]
      ensures order == if e.ref in old(episodes) then old(order) else old(order) + [e.ref]
    {
      if e.ref !in episodes {
        order := order + [e.ref];
      }
      episodes := episodes[e.ref := e];
    }

    method ByProviderId(providerId: string) returns (e: LiveEpisode?)
      requires Valid()
      ensures var ref := FirstWith(Contents(), order, providerId);
              if providerId == "" || ref.None? then e == null
              else e == episodes[ref.value]
    {
      if providerId == "" {
        return null;
      }
      for i := 0 to |order|
        invariant FirstWith(Contents(), order, providerId) == FirstWith(Contents(), order[i..], providerId)
      {
        e := episodes[order[i]];
        if e.providerId == providerId {
          return e;
        }
      }
      return null;
    }

    /** True for the first delivery of this identity, and never again. */
    method ClaimEvent(e: LiveEpisode, identity: string) returns (claimed: bool)
      modifies e`seenEvents
      ensures claimed <==> identity !in old(e.seenEvents)
      ensures e.seenEvents == old(e.seenEvents) + {identity}
    {
      if identity in e.seenEvents {
        return false;
      }
      e.seenEvents := e.seenEvents + {identity};
      return true;
    }
  }

  class WebhookService {
    const store: InMemoryEpisodeStore
    var notes: seq<Note>

    constructor (store: InMemoryEpisodeStore)
      ensures this.store == store && notes == []
    {
      this.store := store;
      notes := [];
    }

    method Find(d: Delivery) returns (e: LiveEpisode?)
      requires store.Valid()
      ensures Resolve(store.Contents(), d) == if e == null then None else Some(e.ref)
      ensures e != null ==> e.ref in store.episodes && store.episodes[e.ref] == e
    {
      e := store.Get(d.episodeRef);
      if e == null {
        e := store.ByProviderId(d.providerId);
      }
    }

    /** Claim, apply, put: touches the one episode and answers for it. */
    method Settle(e: LiveEpisode, d: Delivery) returns (answer: Answer)
      requires store.Valid() && e.ref in store.episodes && store.episodes[e.ref] == e
      modifies store, e
      ensures store.Valid() && store.episodes == old(store.episodes) && store.order == old(store.order)
      ensures answer == if Identity(d) in old(e.seenEvents) then Duplicate(e.ref, old(e.state))
                        else Applied(e.ref, Settled(old(e.Current()), d).state,
                                     !old(e.Current()).IsTerminal() && IsActedOn(d))
      ensures e.seenEvents == old(e.seenEvents) + {Identity(d)}
      ensures e.Current() == if Identity(d) in old(e.seenEvents) then old(e.Current()) else Settled(old(e.Current()), d)
    {
      var claimed := store.ClaimEvent(e, Identity(d));
      if !claimed {
        return Duplicate(e.ref, e.state);
      }
      var changed := e.ApplyEvent(d);
      store.Put(e);
      assert store.episodes == old(store.episodes);
      return Applied(e.ref, e.state, changed);
    }

    /** Look up, claim, apply, put, note: one delivery does to the store what `Handle` says. */
    method RazorpayWebhook(d: Delivery) returns (answer: Answer)
      requires store.Valid()
      modifies this, store, store.episodes.Values
      ensures store.Valid() && store.episodes == old(store.episodes)
      ensures (store.Contents(), answer) == Handle(old(store.Contents()), d)
      ensures notes == old(notes) + [Note(answer, d)]
    {
      ghost var before := store.Contents();
      var e := Find(d);
      if e == null {
        notes := notes + [Note(Unmatched, d)];
        return Unmatched;
      }
      ghost var was := before.rows[e.ref];
      assert forall k <- store.episodes :: k != e.ref ==> store.episodes[k] != e;
      answer := Settle(e, d);
      assert store.Contents().rows == before.rows[e.ref := Stored(e.Current(), e.seenEvents)];
      if Identity(d) in was.seen {
        assert was.seen + {Identity(d)} == was.seen;
        assert before.rows[e.ref := was] == before.rows;
      }
      notes := notes + [Note(answer, d)];
    }
  }
}
