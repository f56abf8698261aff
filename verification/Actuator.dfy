/** Creating payment links at a provider that may fail, from a process that may die. */
module Actuator {
  import opened Domain
  import opened Text
  import opened Gate

  /* ----- keys ----- */

  function Underscored(s: string): string {
    if s == [] then [] else [if s[0] == ' ' then '_' else s[0]] + Underscored(s[1..])
  }

  /** Parts joined by dashes, spaces underscored, empty parts dropped. */
  function JoinParts(parts: seq<string>): string {
    if parts == [] then []
    else
      var last := parts[|parts| - 1];
      var before := JoinParts(parts[..|parts| - 1]);
      if last == [] then before
      else if before == [] then Underscored(last)
      else before + (['-'] + Underscored(last))
  }

  function IdempotencyKey(episodeRef: string, step: int): string {
    JoinParts(["wapas", episodeRef, IntText(step)])
  }

  /* ----- results ----- */

  datatype ActuationResult = ActuationResult(
    ok: bool, key: string, providerId: string, replayed: bool, reconciled: bool)
  {
    predicate CausedAnEffect() {
      ok && !(replayed || reconciled)
    }
  }

  datatype ActuationRefused = Denied | NoAction | WrongTool | BadAmount

  datatype Outcome = Refused(why: ActuationRefused) | Done(result: ActuationResult)

  function RefusalOf(decision: GateDecision, amount: Paise): Option<ActuationRefused> {
    if decision.verdict == Deny then Some(Denied)
    else if decision.action.None? then Some(NoAction)
    else if decision.action.value.tool != CreatePaymentLink then Some(WrongTool)
    else if amount <= 0 then Some(BadAmount)
    else None
  }

  /* ----- the provider ----- */

  datatype Link = Link(id: string, referenceId: string)

  /** What becomes of one create call: it goes through under `id`, it fails before or after
      taking effect, or it fails looking like a duplicate. */
  datatype CreateFate = GoesThrough(id: string) | FailsBefore | FailsAfter(id: string) | LooksDuplicate

  /** What becomes of one listing: it fails, or shows the links at some positions. */
  datatype ListFate = ListFails | Lists(positions: seq<nat>)

  datatype Fate = Fate(create: CreateFate, list: ListFate)

  datatype Reply = Created(id: string) | DuplicateReference | OtherError

  predicate Holds(links: seq<Link>, key: string) {
    exists i | 0 <= i < |links| :: links[i].referenceId == key
  }

  /** Reference ids are unique at the provider. */
  function LinksAfter(links: seq<Link>, key: string, fate: CreateFate): seq<Link> {
    if Holds(links, key) then links
    else
      match fate
      case GoesThrough(id) => links + [Link(id, key)]
      case FailsAfter(id) => links + [Link(id, key)]
      case _ => links
  }

  function ReplyTo(links: seq<Link>, key: string, fate: CreateFate): Reply {
    if Holds(links, key) then (if fate.FailsBefore? then OtherError else DuplicateReference)
    else
      match fate
      case GoesThrough(id) => Created(id)
      case LooksDuplicate => DuplicateReference
      case _ => OtherError
  }

  function Listed(links: seq<Link>, positions: seq<nat>): (page: seq<Link>)
    ensures forall l <- page :: l in links
  {
    if positions == [] then []
    else (if positions[0] < |links| then [links[positions[0]]] else []) + Listed(links, positions[1..])
  }

  class Provider {
    var links: seq<Link>

    method Create(key: string, fate: CreateFate) returns (reply: Reply)
      modifies this
      ensures links == LinksAfter(old(links), key, fate) && reply == ReplyTo(old(links), key, fate)
    {
      reply := ReplyTo(links, key, fate);
      links := LinksAfter(links, key, fate);
    }
  }

  /* ----- one call ----- */

  function Failure(key: string): ActuationResult {
    ActuationResult(false, key, "", false, false)
  }

  /** The id of the first listed link with this reference. */
  function FindLink(page: seq<Link>, key: string): (id: Option<string>)
    ensures id.Some? ==> Link(id.value, key) in page
    ensures id.None? ==> forall l <- page :: l.referenceId != key
  {
    if page == [] then None
    else if page[0].referenceId == key then
      assert page[0] == Link(page[0].id, key);
      Some(page[0].id)
    else FindLink(page[1..], key)
  }

  function Reconciled(links: seq<Link>, key: string, list: ListFate): ActuationResult {
    if list.ListFails? then Failure(key)
    else
      match FindLink(Listed(links, list.positions), key)
      case Some(id) => ActuationResult(true, key, id, false, true)
      case None => Failure(key)
  }

  function ResultOf(links: seq<Link>, key: string, fate: Fate): ActuationResult {
    match ReplyTo(links, key, fate.create)
    case Created(id) => ActuationResult(true, key, id, false, false)
    case DuplicateReference => Reconciled(links, key, fate.list)
    case OtherError => Failure(key)
  }

  /** The provider's links and what this process remembers. */
  datatype World = World(links: seq<Link>, store: map<string, ActuationResult>, calls: nat)

  datatype Request = Request(decision: GateDecision, episodeRef: string, step: int, amount: Paise, fate: Fate) {
    function Key(): string {
      IdempotencyKey(episodeRef, step)
    }
  }

  function Attempt(w: World, q: Request, dryRun: bool): (World, Outcome) {
    var refusal := RefusalOf(q.decision, q.amount);
    var key := q.Key();
    if refusal.Some? then (w, Refused(refusal.value))
    else if key in w.store then (w, Done(w.store[key].(replayed := true)))
    else if dryRun then
      var r := ActuationResult(true, key, "dry_" + key, false, false);
      (w.(store := w.store[key := r]), Done(r))
    else
      var r := ResultOf(w.links, key, q.fate);
      var calls := if ReplyTo(w.links, key, q.fate.create).DuplicateReference? then 2 else 1;
      (World(LinksAfter(w.links, key, q.fate.create), w.store[key := r], w.calls + calls), Done(r))
  }

  class RazorpayActuator {
    const provider: Provider
    const dryRun: bool
    var store: map<string, ActuationResult>
    var callsMade: nat

    /** A new process remembers nothing. */
    constructor (provider: Provider, dryRun: bool)
      ensures this.provider == provider && this.dryRun == dryRun
      ensures store == map[] && callsMade == 0
    {
      this.provider, this.dryRun := provider, dryRun;
      store, callsMade := map[], 0;
    }

    ghost function Current(): World
      reads this, provider
    {
      World(provider.links, store, callsMade)
    }

    method CreatePaymentLink(q: Request) returns (outcome: Outcome)
      modifies this, provider
      ensures (Current(), outcome) == Attempt(old(Current()), q, dryRun)
    {
      var refusal := RefusalOf(q.decision, q.amount);
      if refusal.Some? {
        return Refused(refusal.value);
      }
      var key := IdempotencyKey(q.episodeRef, q.step);
      if key in store {
        return Done(store[key].(replayed := true));
      }
      var result;
      if dryRun {
        result := ActuationResult(true, key, "dry_" + key, false, false);
        store := store[key := result];
        return Done(result);
      }
      callsMade := callsMade + 1;
      var reply := provider.Create(key, q.fate.create);
      match reply {
        case Created(id) => result := ActuationResult(true, key, id, false, false);
        case DuplicateReference => result := Reconcile(key, q.fate.list);
        case OtherError => result := Failure(key);
      }
      store := store[key := result];
      return Done(result);
    }

    /** Scans one page for the link this process forgot. */
    method Reconcile(key: string, list: ListFate) returns (result: ActuationResult)
      modifies this`callsMade
      ensures callsMade == old(callsMade) + 1
      ensures result == Reconciled(provider.links, key, list)
    {
      callsMade := callsMade + 1;
      if list.ListFails? {
        return Failure(key);
      }
      var page := Listed(provider.links, list.positions);
      for i := 0 to |page|
        invariant FindLink(page, key) == FindLink(page[i..], key)
      {
        if page[i].referenceId == key {
          return ActuationResult(true, key, page[i].id, false, true);
        }
      }
      return Failure(key);
    }
  }
}
