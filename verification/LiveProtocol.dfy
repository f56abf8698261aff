/** Webhook workers sharing one database: reads, claims, and writes of whole rows, in any
    interleaving, with crashes. */
module LiveProtocol {
  import opened Domain
  import opened Text
  import opened Live

  /** A claimed delivery: a row of the table with the unique index. */
  datatype Claimed = Claimed(ref: string, d: Delivery)

  /** The column is 200 characters wide. */
  const KEY_WIDTH: nat := 200

  function ClaimKey(d: Delivery): string {
    if |Identity(d)| <= KEY_WIDTH then Identity(d) else Identity(d)[..KEY_WIDTH]
  }

  /** What a worker holds between its transactions. */
  datatype Worker =
    | Idle
    | HasRead(ref: string, d: Delivery, read: Row)
    | HasClaimed(ref: string, d: Delivery, read: Row)
    | HasApplied(ref: string, d: Delivery, read: Row)
    | Opening(ref: string, amount: Paise)

  datatype State = State(rows: map<string, Row>, claims: seq<Claimed>, workers: seq<Worker>)

  datatype Step =
    | Read(w: nat, ref: string, d: Delivery)
    | Claim(w: nat)
    | Apply(w: nat)
    | Put(w: nat)
    | OpenRead(w: nat, ref: string, amount: Paise)
    | OpenPut(w: nat, row: Row)
    | Crash(w: nat)

  predicate IsInitial(s: State) {
    s.rows == map[] && s.claims == [] && forall w | 0 <= w < |s.workers| :: s.workers[w] == Idle
  }

  predicate IsClaimed(s: State, ref: string, d: Delivery) {
    exists c <- s.claims :: c.ref == ref && ClaimKey(c.d) == ClaimKey(d)
  }

  predicate Enabled(s: State, step: Step) {
    && step.w < |s.workers|
    && var me := s.workers[step.w];
       match step
       case Read(_, ref, d) =>
         me.Idle? && ref in s.rows &&
         (ref == d.episodeRef ||
          (d.episodeRef !in s.rows && d.providerId != "" && s.rows[ref].providerId == d.providerId))
       case Claim(_) => me.HasRead?
       case Apply(_) => me.HasClaimed?
       case Put(_) => me.HasApplied? && me.ref in s.rows
       case OpenRead(_, ref, _) => me.Idle? && ref !in s.rows
       case OpenPut(_, row) =>
         me.Opening? && row.recovered == 0 && row.state in {Suppressed, Waiting, Failed}
       case Crash(_) => true
  }

  /** A put writes every column but the amount, which is set when the row is created. */
  function Write(rows: map<string, Row>, ref: string, row: Row): map<string, Row> {
    rows[ref := if ref in rows then row.(amount := rows[ref].amount) else row]
  }

  function Next(s: State, step: Step): State
    requires Enabled(s, step)
  {
    var me := s.workers[step.w];
    match step
    case Read(w, ref, d) => s.(workers := s.workers[w := HasRead(ref, d, s.rows[ref])])
    case Claim(w) =>
      if IsClaimed(s, me.ref, me.d) then s.(workers := s.workers[w := Idle])
      else s.(claims := s.claims + [Claimed(me.ref, me.d)], workers := s.workers[w := HasClaimed(me.ref, me.d, me.read)])
    case Apply(w) => s.(workers := s.workers[w := HasApplied(me.ref, me.d, me.read)])
    case Put(w) => s.(rows := Write(s.rows, me.ref, Settled(me.read, me.d)), workers := s.workers[w := Idle])
    case OpenRead(w, ref, amount) => s.(workers := s.workers[w := Opening(ref, amount)])
    case OpenPut(w, row) =>
      s.(rows := Write(s.rows, me.ref, row.(amount := me.amount)), workers := s.workers[w := Idle])
    case Crash(w) => s.(workers := s.workers[w := Idle])
  }

  ghost predicate IsRun(s: State, steps: seq<Step>)
    decreases |steps|
  {
    steps == [] || (Enabled(s, steps[0]) && IsRun(Next(s, steps[0]), steps[1..]))
  }

  function After(s: State, steps: seq<Step>): State
    requires IsRun(s, steps)
    decreases |steps|
  {
    if steps == [] then s else After(Next(s, steps[0]), steps[1..])
  }

  /* ----- what every interleaving keeps ----- */

  /** A single claimed payment of this episode that brought exactly this much. */
  ghost predicate PaidOnce(ref: string, recovered: Paise, claims: seq<Claimed>) {
    exists c <- claims :: c.ref == ref && IsPayment(c.d) && recovered == Received(c.d)
  }

  ghost predicate Sound(ref: string, r: Row, claims: seq<Claimed>) {
    && (!r.IsTerminal() ==> r.recovered == 0)
    && (r.recovered == 0 || PaidOnce(ref, r.recovered, claims))
  }

  ghost predicate WorkerSound(me: Worker, claims: seq<Claimed>) {
    && (me.HasRead? || me.HasClaimed? || me.HasApplied? ==> Sound(me.ref, me.read, claims))
    && (me.HasClaimed? || me.HasApplied? ==> Claimed(me.ref, me.d) in claims)
  }

  ghost predicate ClaimedOnce(claims: seq<Claimed>) {
    forall i, j | 0 <= i < j < |claims| ::
      claims[i].ref != claims[j].ref || ClaimKey(claims[i].d) != ClaimKey(claims[j].d)
  }

  ghost predicate Inv(s: State) {
    && ClaimedOnce(s.claims)
    && (forall ref <- s.rows :: Sound(ref, s.rows[ref], s.claims))
    && (forall w | 0 <= w < |s.workers| :: WorkerSound(s.workers[w], s.claims))
  }

  lemma SettledIsSound(ref: string, r: Row, d: Delivery, claims: seq<Claimed>)
    requires Sound(ref, r, claims) && Claimed(ref, d) in claims
    ensures Sound(ref, Settled(r, d), claims)
  {
    if !r.IsTerminal() && IsPayment(d) {
      assert Settled(r, d).recovered == Received(d);
      assert PaidOnce(ref, Received(d), claims);
    }
  }

  lemma MoreClaimsKeepSound(ref: string, r: Row, claims: seq<Claimed>, c: Claimed)
    requires Sound(ref, r, claims)
    ensures Sound(ref, r, claims + [c])
  {
    if PaidOnce(ref, r.recovered, claims) {
      var p :| p in claims && p.ref == ref && IsPayment(p.d) && r.recovered == Received(p.d);
      assert p in claims + [c];
    }
  }

  lemma ClaimKeepsInv(s: State, w: nat)
    requires Inv(s) && Enabled(s, Claim(w))
    ensures Inv(Next(s, Claim(w)))
  {
    var me := s.workers[w];
    if !IsClaimed(s, me.ref, me.d) {
      var c := Claimed(me.ref, me.d);
      forall ref <- s.rows ensures Sound(ref, s.rows[ref], s.claims + [c]) {
        MoreClaimsKeepSound(ref, s.rows[ref], s.claims, c);
      }
      forall v | 0 <= v < |s.workers| ensures WorkerSound(s.workers[v], s.claims + [c]) {
        if !s.workers[v].Idle? && !s.workers[v].Opening? {
          MoreClaimsKeepSound(s.workers[v].ref, s.workers[v].read, s.claims, c);
        }
      }
      assert c in s.claims + [c];
    }
  }

  lemma PutKeepsInv(s: State, w: nat)
    requires Inv(s) && Enabled(s, Put(w))
    ensures Inv(Next(s, Put(w)))
  {
    var me := s.workers[w];
    SettledIsSound(me.ref, me.read, me.d, s.claims);
  }

  lemma StepKeepsInv(s: State, step: Step)
    requires Inv(s) && Enabled(s, step)
    ensures Inv(Next(s, step))
  {
    match step
    case Claim(w) => ClaimKeepsInv(s, w);
    case Put(w) => PutKeepsInv(s, w);
    case _ =>
  }

  lemma {:induction false} RunKeepsInv(s: State, steps: seq<Step>)
    requires Inv(s) && IsRun(s, steps)
    ensures Inv(After(s, steps))
    decreases |steps|
  {
    if steps != [] {
      StepKeepsInv(s, steps[0]);
      RunKeepsInv(Next(s, steps[0]), steps[1..]);
    }
  }

  ghost predicate Reachable(s: State) {
    exists start: State, steps: seq<Step> :: IsInitial(start) && IsRun(start, steps) && After(start, steps) == s
  }

  /** However workers interleave and crash: a delivery identity wins one claim per episode,
      and what an episode has recovered is nothing, or the amount of one claimed payment, and
      nothing while it is open. */
  lemma NothingIsCreditedTwice(s: State)
    requires Reachable(s)
    ensures ClaimedOnce(s.claims)
    ensures forall ref <- s.rows ::
              && (!s.rows[ref].IsTerminal() ==> s.rows[ref].recovered == 0)
              && (s.rows[ref].recovered == 0 || PaidOnce(ref, s.rows[ref].recovered, s.claims))
  {
    var start, steps :| IsInitial(start) && IsRun(start, steps) && After(start, steps) == s;
    RunKeepsInv(start, steps);
    assert forall ref <- s.rows :: Sound(ref, s.rows[ref], s.claims);
  }

  lemma {:induction false} RunThenStep(s: State, steps: seq<Step>, step: Step)
    requires IsRun(s, steps) && Enabled(After(s, steps), step)
    ensures IsRun(s, steps + [step]) && After(s, steps + [step]) == Next(After(s, steps), step)
    decreases |steps|
  {
    if steps == [] {
      assert IsRun(Next(s, step), []);
      assert ([step])[1..] == [];
    } else {
      RunThenStep(Next(s, steps[0]), steps[1..], step);
      assert (steps + [step])[1..] == steps[1..] + [step];
    }
  }

  lemma ReachableNext(s: State, step: Step)
    requires Reachable(s) && Enabled(s, step)
    ensures Reachable(Next(s, step))
  {
    var start, steps :| IsInitial(start) && IsRun(start, steps) && After(start, steps) == s;
    RunThenStep(start, steps, step);
  }

  /* ----- the steps against the handlers ----- */

  /** A value of the store with the same rows as the table. */
  ghost predicate SameRows(v: View, s: State) {
    && v.rows.Keys == s.rows.Keys && (forall k <- v.rows :: v.rows[k].row == s.rows[k])
    && forall k <- v.rows :: k in v.order
  }

  /** An idle worker can read the episode the handler would find, and none when it finds none. */
  lemma ReadsWhatTheHandlerFinds(v: View, s: State, w: nat, d: Delivery)
    requires SameRows(v, s) && w < |s.workers| && s.workers[w] == Idle
    ensures Resolve(v, d).Some? ==> Enabled(s, Read(w, Resolve(v, d).value, d))
    ensures Resolve(v, d).None? ==> forall ref :: !Enabled(s, Read(w, ref, d))
    ensures forall ref :: Enabled(s, Read(w, ref, d)) ==>
              ref in s.rows && (ref == d.episodeRef || (d.episodeRef !in s.rows && s.rows[ref].providerId == d.providerId != ""))
  {
    forall ref | Enabled(s, Read(w, ref, d)) ensures Resolve(v, d).Some? {
      assert ref in v.order;
    }
  }

  /** What an opener makes of a new episode: suppressed when the gate denied the link, waiting
      when there is nobody to create it or it was created, failed when creating it failed. */
  function OpenedState(denied: bool, created: Option<bool>): EpisodeState {
    if denied then Suppressed
    else
      match created
      case None => Waiting
      case Some(ok) => if ok then Waiting else Failed
  }

  /** An opener that found nothing can put exactly such a row, with nothing recovered. */
  lemma OpenersPutExactly(s: State, w: nat, row: Row)
    requires w < |s.workers| && s.workers[w].Opening?
    ensures Enabled(s, OpenPut(w, row)) <==>
            row.recovered == 0 && exists denied, created :: row.state == OpenedState(denied, created)
  {
    assert OpenedState(true, None) == Suppressed && OpenedState(false, None) == Waiting;
    assert OpenedState(false, Some(false)) == Failed;
  }

  /** Only a put writes the table, only a first claim enters the claims, and only the worker
      that steps moves; it is idle again after a put, a refused claim and a crash. */
  lemma StepsExactly(s: State, step: Step)
    requires Enabled(s, step)
    ensures var t, w := Next(s, step), step.w;
            && (!step.Put? && !step.OpenPut? ==> t.rows == s.rows)
            && (t.claims == if step.Claim? && !IsClaimed(s, s.workers[w].ref, s.workers[w].d)
                            then s.claims + [Claimed(s.workers[w].ref, s.workers[w].d)] else s.claims)
            && |t.workers| == |s.workers| && (forall k | 0 <= k < |s.workers| && k != w :: t.workers[k] == s.workers[k])
            && (t.workers[w] == Idle <==>
                  step.Put? || step.OpenPut? || step.Crash? || (step.Claim? && IsClaimed(s, s.workers[w].ref, s.workers[w].d)))
  {
  }

  /** An opener's put creates the row with the amount it was asked to open, or leaves that of
      the row it finds. */
  lemma OpenersAmount(s: State, w: nat, row: Row)
    requires Enabled(s, OpenPut(w, row))
    ensures var ref := s.workers[w].ref;
            ref in Next(s, OpenPut(w, row)).rows &&
            Next(s, OpenPut(w, row)).rows[ref].amount == if ref in s.rows then s.rows[ref].amount else s.workers[w].amount
  {
  }

  /** A worker may die at any point. */
  lemma AnyoneCanDie(s: State, w: nat)
    requires w < |s.workers|
    ensures Enabled(s, Crash(w)) && Next(s, Crash(w)).rows == s.rows && Next(s, Crash(w)).claims == s.claims
  {
  }
}
