/**
 External effects (`src/controllers/effects.ts` over the effect table of
 `src/controllers/sqlite.ts`): reserve a record, observe when the record was
 already there, apply, store the answer. A pass may crash between any two of
 these; passes for one (uid, key) are serial, passes for different keys interleave.
 */
module Effects {
  import opened Options

  type Uid = nat

  datatype Key = Key(uid: Uid, name: string)

  datatype State = Pending | Applied | Rejected | Indeterminate

  /** What must not differ when a key is used again. */
  datatype Request = Request(generation: nat, kind: string, fingerprint: string)

  datatype Record = Record(request: Request, state: State)

  datatype Observation = SawApplied | SawNotApplied | SawIndeterminate

  /** A call into the effect's own code and what came back; None when it threw. */
  datatype Call = ObserveCall(key: Key, seen: Option<Observation>) | ApplyCall(key: Key, answer: Option<State>)

  /** `live` are the uids in the resource table; `reached` counts what the external system received. */
  datatype World = World(records: map<Key, Record>, live: set<Uid>, reached: map<Key, nat>, calls: seq<Call>)

  predicate Final(s: State) { s.Applied? || s.Rejected? }

  function Reached(w: World, k: Key): nat {
    if k in w.reached then w.reached[k] else 0
  }

  /** An observer never claims more or less than the external system has received. */
  predicate Truthful(w: World, k: Key, answer: Option<Observation>) {
    && (answer == Some(SawApplied) ==> 0 < Reached(w, k))
    && (answer == Some(SawNotApplied) ==> Reached(w, k) == 0)
  }

  /** How `reserveEffect` leaves a pass. */
  datatype Reservation = Created | Existing(state: State) | Refused

  function AfterReserve(w: World, k: Key, request: Request): (World, Reservation) {
    if k in w.records then
      (w, if w.records[k].request != request then Refused else Existing(w.records[k].state))
    else if k.uid !in w.live then (w, Refused)
    else (w.(records := w.records[k := Record(request, Pending)]), Created)
  }

  function AfterObserve(w: World, k: Key, seen: Option<Observation>): World {
    w.(calls := w.calls + [ObserveCall(k, seen)])
  }

  function AfterApply(w: World, k: Key, effect: bool, answer: Option<State>): World {
    w.(calls := w.calls + [ApplyCall(k, answer)],
       reached := if effect then w.reached[k := Reached(w, k) + 1] else w.reached)
  }

  /** `updateEffect`: false when it throws, because the row is gone or already final otherwise. */
  function AfterStore(w: World, k: Key, state: State): (World, bool) {
    if k !in w.records || (Final(w.records[k].state) && w.records[k].state != state) then (w, false)
    else (w.(records := w.records[k := w.records[k].(state := state)]), true)
  }

  function Observed(o: Observation): State
    requires !o.SawNotApplied?
  {
    if o.SawApplied? then Applied else Indeterminate
  }

  /** A throwing apply is recorded as indeterminate. */
  function Answered(answer: Option<State>): State {
    match answer
    case None => Indeterminate
    case Some(s) => s
  }

  // ------------------------------------------------------------------- machine

  datatype Phase = Reserving(request: Request) | Observing | Applying | Storing(state: State)

  datatype Sys = Sys(w: World, passes: map<Key, Phase>, used: set<Uid>)

  const Init := Sys(World(map[], {}, map[], []), map[], {})

  datatype Action =
    | Create(uid: Uid)
    | Remove(uid: Uid)
    | Begin(k: Key, request: Request)
    | Reserve(k: Key)
    | Observe(k: Key, seen: Option<Observation>)
    | Apply(k: Key, effect: bool, answer: Option<State>)
    | Store(k: Key)
    | Crash(k: Key)

  predicate Enabled(s: Sys, a: Action) {
    match a
    case Create(uid) => uid !in s.used
    case Remove(_) => true
    case Begin(k, _) => k !in s.passes && k.uid in s.used
    case Reserve(k) => k in s.passes && s.passes[k].Reserving?
    case Observe(k, seen) => k in s.passes && s.passes[k].Observing? && Truthful(s.w, k, seen)
    case Apply(k, _, answer) => k in s.passes && s.passes[k].Applying? && answer != Some(Pending)
    case Store(k) => k in s.passes && s.passes[k].Storing?
    case Crash(k) => k in s.passes
  }

  function Next(s: Sys, a: Action): Sys
    requires Enabled(s, a)
  {
    match a
    case Create(uid) => s.(w := s.w.(live := s.w.live + {uid}), used := s.used + {uid})
    case Remove(uid) =>
      s.(w := s.w.(live := s.w.live - {uid}, records := map k | k in s.w.records && k.uid != uid :: s.w.records[k]))
    case Begin(k, request) => s.(passes := s.passes[k := Reserving(request)])
    case Reserve(k) =>
      var (w', r) := AfterReserve(s.w, k, s.passes[k].request);
      s.(w := w', passes :=
        match r
        case Created => s.passes[k := Applying]
        case Existing(state) => if Final(state) then s.passes - {k} else s.passes[k := Observing]
        case Refused => s.passes - {k})
    case Observe(k, seen) =>
      s.(w := AfterObserve(s.w, k, seen), passes :=
        match seen
        case None => s.passes - {k}
        case Some(o) => s.passes[k := if o.SawNotApplied? then Applying else Storing(Observed(o))])
    case Apply(k, effect, answer) =>
      s.(w := AfterApply(s.w, k, effect, answer), passes := s.passes[k := Storing(Answered(answer))])
    case Store(k) => s.(w := AfterStore(s.w, k, s.passes[k].state).0, passes := s.passes - {k})
    case Crash(k) => s.(passes := s.passes - {k})
  }

  ghost predicate ValidRun(s: Sys, run: seq<Action>)
    decreases |run|
  {
    run == [] || (Enabled(s, run[0]) && ValidRun(Next(s, run[0]), run[1..]))
  }

  ghost function After(s: Sys, run: seq<Action>): Sys
    requires ValidRun(s, run)
    decreases |run|
  {
    if run == [] then s else After(Next(s, run[0]), run[1..])
  }

  // ---------------------------------------------------------------- invariant

  predicate FinalAt(w: World, k: Key) {
    k in w.records && Final(w.records[k].state)
  }

  ghost predicate Inv(s: Sys) {
    && s.w.live <= s.used
    && (forall k | k in s.w.records :: k.uid in s.w.live)
    // What was reached left a record, unless the resource is gone for good.
    && (forall k | 0 < Reached(s.w, k) ::
        Reached(s.w, k) == 1 && k.uid in s.used && (k in s.w.records || k.uid !in s.w.live))
    // A pass about to apply knows that nothing was applied; a final record has no such pass.
    && (forall k | k in s.passes && s.passes[k].Applying? ::
        Reached(s.w, k) == 0 && (k in s.w.records || k.uid !in s.w.live))
    && (forall k | k in s.passes ::
          k.uid in s.used && (!s.passes[k].Reserving? ==> !FinalAt(s.w, k) && (k in s.w.records || k.uid !in s.w.live)))
  }

  lemma ReserveInv(s: Sys, k: Key)
    requires Inv(s) && Enabled(s, Reserve(k))
    ensures Inv(Next(s, Reserve(k)))
  {
    assert forall other :: Reached(Next(s, Reserve(k)).w, other) == Reached(s.w, other);
  }

  lemma CallInv(s: Sys, a: Action)
    requires Inv(s) && Enabled(s, a) && (a.Observe? || a.Apply?)
    ensures Inv(Next(s, a))
  {
    var s' := Next(s, a);
    assert forall other | other != a.k :: Reached(s'.w, other) == Reached(s.w, other);
  }

  lemma StoreInv(s: Sys, a: Action)
    requires Inv(s) && Enabled(s, a) && (a.Store? || a.Crash? || a.Begin?)
    ensures Inv(Next(s, a))
  {
    assert forall k :: Reached(Next(s, a).w, k) == Reached(s.w, k);
  }

  lemma ResourceInv(s: Sys, a: Action)
    requires Inv(s) && Enabled(s, a) && (a.Create? || a.Remove?)
    ensures Inv(Next(s, a))
  {
    assert forall k :: Reached(Next(s, a).w, k) == Reached(s.w, k);
  }

  lemma NextInv(s: Sys, a: Action)
    requires Inv(s) && Enabled(s, a)
    ensures Inv(Next(s, a))
  {
    match a
    case Reserve(k) => ReserveInv(s, k);
    case Observe(_, _) => CallInv(s, a);
    case Apply(_, _, _) => CallInv(s, a);
    case Create(_) => ResourceInv(s, a);
    case Remove(_) => ResourceInv(s, a);
    case _ => StoreInv(s, a);
  }

  lemma {:induction false} RunInv(s: Sys, run: seq<Action>)
    requires Inv(s) && ValidRun(s, run)
    ensures Inv(After(s, run))
    decreases |run|
  {
    if run != [] {
      NextInv(s, run[0]);
      RunInv(Next(s, run[0]), run[1..]);
    }
  }

  /** Main result: no run, whatever crashes and deletions it holds, reaches the external system twice for one key. */
  lemma AtMostOnce(run: seq<Action>, k: Key)
    requires ValidRun(Init, run)
    ensures Reached(After(Init, run).w, k) <= 1
  {
    RunInv(Init, run);
  }

  /** The external system is reached by apply alone, once for each that takes effect, and under its own key. */
  lemma OnlyApplyReaches(s: Sys, a: Action, k: Key)
    requires Enabled(s, a)
    ensures Reached(Next(s, a).w, k) == Reached(s.w, k) + if a.Apply? && a.k == k && a.effect then 1 else 0
    ensures Next(s, a).w.calls == s.w.calls + (
      if a.Apply? then [ApplyCall(a.k, a.answer)] else if a.Observe? then [ObserveCall(a.k, a.seen)] else [])
  {
  }

  // ------------------------------------------------------------- what a record says

  /** What a call told about the effect: a throwing apply, or an observer that cannot tell, leaves it undetermined. */
  predicate Tells(c: Call, state: State) {
    match state
    case Pending => false
    case Applied => c == ApplyCall(c.key, Some(Applied)) || c == ObserveCall(c.key, Some(SawApplied))
    case Rejected => c == ApplyCall(c.key, Some(Rejected))
    case Indeterminate =>
      || c == ApplyCall(c.key, Some(Indeterminate)) || c == ApplyCall(c.key, None)
      || c == ObserveCall(c.key, Some(SawIndeterminate))
  }

  /** The latest call for the key. */
  function LastCall(calls: seq<Call>, k: Key): Option<Call> {
    if calls == [] then None
    else if calls[|calls| - 1].key == k then Some(calls[|calls| - 1])
    else LastCall(calls[..|calls| - 1], k)
  }

  lemma LastCallAfter(calls: seq<Call>, c: Call, k: Key)
    ensures LastCall(calls + [c], k) == if c.key == k then Some(c) else LastCall(calls, k)
  {
    assert (calls + [c])[..|calls|] == calls;
  }

  lemma {:induction false} LastCallIn(calls: seq<Call>, k: Key)
    ensures LastCall(calls, k).Some? ==> LastCall(calls, k).value in calls && LastCall(calls, k).value.key == k
    decreases |calls|
  {
    if calls != [] && calls[|calls| - 1].key != k { LastCallIn(calls[..|calls| - 1], k); }
  }

  ghost predicate Told(calls: seq<Call>, k: Key, state: State) {
    exists c | c in calls :: c.key == k && Tells(c, state)
  }

  predicate ToldLast(calls: seq<Call>, k: Key, state: State) {
    LastCall(calls, k).Some? && Tells(LastCall(calls, k).value, state)
  }

  /** Every answer on record was given, and what is about to be stored is the latest answer. */
  ghost predicate Honest(s: Sys) {
    && (forall k | k in s.w.records :: s.w.records[k].state == Pending || Told(s.w.calls, k, s.w.records[k].state))
    && (forall k | k in s.passes && s.passes[k].Storing? :: ToldLast(s.w.calls, k, s.passes[k].state))
  }

  lemma ToldStays(calls: seq<Call>, c: Call, k: Key, state: State)
    requires Told(calls, k, state)
    ensures Told(calls + [c], k, state)
  {
    var d :| d in calls && d.key == k && Tells(d, state);
    assert d in calls + [c];
  }

  lemma CallIsHonest(s: Sys, a: Action)
    requires Honest(s) && Enabled(s, a) && (a.Observe? || a.Apply?)
    ensures Honest(Next(s, a))
  {
    var s', n := Next(s, a), |s.w.calls|;
    var c := s'.w.calls[n];
    assert s'.w.calls == s.w.calls + [c] && c.key == a.k;
    forall k | k in s'.w.records ensures
      s'.w.records[k].state == Pending || Told(s'.w.calls, k, s'.w.records[k].state)
    {
      if s.w.records[k].state != Pending { ToldStays(s.w.calls, c, k, s.w.records[k].state); }
    }
    forall k | k in s'.passes && s'.passes[k].Storing? ensures ToldLast(s'.w.calls, k, s'.passes[k].state) {
      LastCallAfter(s.w.calls, c, k);
    }
  }

  lemma StoreIsHonest(s: Sys, k: Key)
    requires Honest(s) && Enabled(s, Store(k))
    ensures Honest(Next(s, Store(k)))
  {
    LastCallIn(s.w.calls, k);
    assert Told(s.w.calls, k, s.passes[k].state);
  }

  lemma NextHonest(s: Sys, a: Action)
    requires Honest(s) && Enabled(s, a) && (a.Apply? ==> a.answer != Some(Pending))
    ensures Honest(Next(s, a))
  {
    if a.Observe? || a.Apply? {
      CallIsHonest(s, a);
    } else if a.Store? {
      StoreIsHonest(s, a.k);
    }
  }

  lemma {:induction false} RunHonest(s: Sys, run: seq<Action>)
    requires Honest(s) && ValidRun(s, run)
    ensures Honest(After(s, run))
    decreases |run|
  {
    if run != [] {
      NextHonest(s, run[0]);
      RunHonest(Next(s, run[0]), run[1..]);
    }
  }

  /**
   Main result: in any run a record says applied only if apply answered so or an observer saw it, rejected only if
   apply answered so, and indeterminate only if apply threw or answered so or an observer could not tell.
   */
  lemma RecordWasTold(run: seq<Action>, k: Key)
    requires ValidRun(Init, run) && k in After(Init, run).w.records
    ensures var w := After(Init, run).w;
      w.records[k].state == Pending || exists c | c in w.calls :: c.key == k && Tells(c, w.records[k].state)
  {
    RunHonest(Init, run);
  }

  /** And what is stored is what the latest call told: after a throwing apply the record is indeterminate. */
  lemma StoresWhatWasTold(run: seq<Action>, k: Key)
    requires ValidRun(Init, run) && Enabled(After(Init, run), Store(k)) && k in After(Init, run).w.records
    ensures var (s, s') := (After(Init, run), Next(After(Init, run), Store(k)));
      && LastCall(s.w.calls, k).Some? && k in s'.w.records
      && Tells(LastCall(s.w.calls, k).value, s'.w.records[k].state)
      && (LastCall(s.w.calls, k) == Some(ApplyCall(k, None)) ==> s'.w.records[k].state == Indeterminate)
  {
    RunInv(Init, run);
    RunHonest(Init, run);
  }

  ghost predicate CallsTo(calls: seq<Call>, k: Key) {
    exists c | c in calls :: c.key == k
  }

  /** A final record, or a deleted resource, and no pass beyond its reservation. */
  ghost predicate Closed(s: Sys, k: Key) {
    && k.uid in s.used && (FinalAt(s.w, k) || k.uid !in s.w.live)
    && (k in s.passes ==> s.passes[k].Reserving?)
  }

  lemma NextClosed(s: Sys, a: Action, k: Key)
    requires Inv(s) && Enabled(s, a) && Closed(s, k)
    ensures var s' := Next(s, a);
      && Closed(s', k)
      && (k in s'.w.records ==> k in s.w.records && s'.w.records[k] == s.w.records[k])
      && s.w.calls <= s'.w.calls && !CallsTo(s'.w.calls[|s.w.calls|..], k)
  {
    var s' := Next(s, a);
    if a.Observe? || a.Apply? {
      assert s'.w.calls[|s.w.calls|..] == [s'.w.calls[|s.w.calls|]];
    } else {
      assert s'.w.calls[|s.w.calls|..] == [];
    }
  }

  /**
   Main result: once applied or rejected the record never changes while it exists,
   and neither observe nor apply is called for the key again.
   */
  lemma {:induction false} FinalForGood(s: Sys, run: seq<Action>, k: Key)
    requires Inv(s) && ValidRun(s, run) && Closed(s, k)
    ensures var s' := After(s, run);
      && (k in s'.w.records ==> k in s.w.records && s'.w.records[k] == s.w.records[k])
      && s.w.calls <= s'.w.calls && !CallsTo(s'.w.calls[|s.w.calls|..], k)
    decreases |run|
  {
    if run == [] {
      assert s.w.calls[|s.w.calls|..] == [];
    } else {
      var t := Next(s, run[0]);
      NextInv(s, run[0]);
      NextClosed(s, run[0], k);
      FinalForGood(t, run[1..], k);
      var s' := After(s, run);
      var n, m := |s.w.calls|, |t.w.calls|;
      assert s'.w.calls[n..] == t.w.calls[n..] + s'.w.calls[m..];
    }
  }

  // --------------------------------------------------------------------- class

  datatype Result = Returned(state: State) | Threw

  /** One uninterrupted pass, as a function of the answers its environment gives. */
  function Pass(w: World, k: Key, request: Request, seen: Option<Observation>, effect: bool, answer: Option<State>):
    (World, Result)
  {
    var (w1, r) := AfterReserve(w, k, request);
    match r
    case Refused => (w1, Threw)
    case Created => ApplyAndStore(w1, k, effect, answer)
    case Existing(state) =>
      if Final(state) then (w1, Returned(state))
      else ObserveAndApply(w1, k, seen, effect, answer)
  }

  function ObserveAndApply(w: World, k: Key, seen: Option<Observation>, effect: bool, answer: Option<State>):
    (World, Result)
  {
    match seen
    case None => (AfterObserve(w, k, seen), Threw)
    case Some(o) =>
      if o.SawNotApplied? then ApplyAndStore(AfterObserve(w, k, seen), k, effect, answer)
      else Stored(AfterObserve(w, k, seen), k, Observed(o))
  }

  function Stored(w: World, k: Key, state: State): (World, Result) {
    var (w', ok) := AfterStore(w, k, state);
    (w', if ok then Returned(state) else Threw)
  }

  function ApplyAndStore(w: World, k: Key, effect: bool, answer: Option<State>): (World, Result) {
    Stored(AfterApply(w, k, effect, answer), k, Answered(answer))
  }

  lemma Prepend(s: Sys, a: Action, tail: seq<Action>) returns (run: seq<Action>)
    requires Enabled(s, a) && ValidRun(Next(s, a), tail)
    ensures ValidRun(s, run) && After(s, run) == After(Next(s, a), tail)
  {
    run := [a] + tail;
    assert run[1..] == tail;
  }

  lemma StoreTail(s: Sys, k: Key) returns (run: seq<Action>)
    requires Enabled(s, Store(k))
    ensures ValidRun(s, run) && After(s, run) == Next(s, Store(k))
  {
    run := Prepend(s, Store(k), []);
  }

  lemma ApplyTail(s: Sys, k: Key, effect: bool, answer: Option<State>) returns (run: seq<Action>)
    requires k in s.passes && s.passes[k].Applying? && answer != Some(Pending)
    ensures ValidRun(s, run) && After(s, run).w == ApplyAndStore(s.w, k, effect, answer).0
  {
    var tail := StoreTail(Next(s, Apply(k, effect, answer)), k);
    run := Prepend(s, Apply(k, effect, answer), tail);
  }

  lemma ObserveTail(s: Sys, k: Key, seen: Option<Observation>, effect: bool, answer: Option<State>)
    returns (run: seq<Action>)
    requires k in s.passes && s.passes[k].Observing? && answer != Some(Pending) && Truthful(s.w, k, seen)
    ensures ValidRun(s, run) && After(s, run).w == ObserveAndApply(s.w, k, seen, effect, answer).0
  {
    var t := Next(s, Observe(k, seen));
    var tail := [];
    if seen.Some? {
      if seen.value.SawNotApplied? { tail := ApplyTail(t, k, effect, answer); } else { tail := StoreTail(t, k); }
    }
    run := Prepend(s, Observe(k, seen), tail);
  }

  /** An uninterrupted pass is a run of the machine, so the results above cover it. */
  lemma PassIsRun(s: Sys, k: Key, request: Request, seen: Option<Observation>, effect: bool, answer: Option<State>)
    returns (run: seq<Action>)
    requires k !in s.passes && k.uid in s.used && answer != Some(Pending) && Truthful(s.w, k, seen)
    ensures ValidRun(s, run) && After(s, run).w == Pass(s.w, k, request, seen, effect, answer).0
  {
    var t := Next(s, Begin(k, request));
    var u := Next(t, Reserve(k));
    var tail := [];
    var r := AfterReserve(s.w, k, request).1;
    if r.Created? {
      tail := ApplyTail(u, k, effect, answer);
    } else if r.Existing? && !Final(r.state) {
      tail := ObserveTail(u, k, seen, effect, answer);
    }
    run := Prepend(t, Reserve(k), tail);
    run := Prepend(s, Begin(k, request), run);
  }

  class EffectStore {
    var w: World

    constructor ()
      ensures w == Init.w
    {
      w := World(map[], {}, map[], []);
    }
  }

  class ControllerEffectService {
    const store: EffectStore
    const uid: Uid
    const generation: nat
    var used: bool

    constructor (store: EffectStore, uid: Uid, generation: nat)
      ensures !used && this.store == store && this.uid == uid && this.generation == generation
    {
      this.store, this.uid, this.generation := store, uid, generation;
      used := false;
    }

    /** A service serves one effect: a second call throws before it touches anything. */
    method Ensure(name: string, kind: string, fingerprint: string,
        seen: Option<Observation>, effect: bool, answer: Option<State>) returns (result: Result)
      modifies this`used, store
      ensures used
      ensures old(used) ==> result == Threw && store.w == old(store.w)
      ensures !old(used) ==>
        (store.w, result)
           == Pass(old(store.w), Key(uid, name), Request(generation, kind, fingerprint), seen, effect, answer)
      ensures !old(used) && Key(uid, name) !in old(store.w).records ==>
        if uid !in old(store.w).live then result == Threw && store.w == old(store.w)
        else
          && result == Returned(if answer.Some? then answer.value else Indeterminate)
          && store.w.records ==
             old(store.w).records[Key(uid, name) := Record(Request(generation, kind, fingerprint), result.state)]
          && store.w.calls == old(store.w).calls + [ApplyCall(Key(uid, name), answer)]
      ensures !old(used) && Key(uid, name) in old(store.w).records ==>
        var before := old(store.w).records[Key(uid, name)];
        if before.request != Request(generation, kind, fingerprint) then result == Threw && store.w == old(store.w)
        else if before.state == Applied || before.state == Rejected then
          result == Returned(before.state) && store.w == old(store.w)
        else
          && store.w.calls == old(store.w).calls + [ObserveCall(Key(uid, name), seen)] +
             (if seen == Some(SawNotApplied) then [ApplyCall(Key(uid, name), answer)] else [])
          && result == (
               if seen.None? then Threw
               else if seen.value == SawApplied then Returned(Applied)
               else if seen.value == SawIndeterminate || answer.None? then Returned(Indeterminate)
               else Returned(answer.value))
          && store.w.records == (
               if result.Threw? then old(store.w).records
               else old(store.w).records[Key(uid, name) := before.(state := result.state)])
    {
      if used { return Threw; }
      used := true;
      var k, request := Key(uid, name), Request(generation, kind, fingerprint);
      var created := k !in store.w.records;
      if created {
        if uid !in store.w.live { return Threw; }
        store.w := store.w.(records := store.w.records[k := Record(request, Pending)]);
      } else {
        var existing := store.w.records[k];
        if existing.request != request { return Threw; }
        if Final(existing.state) { return Returned(existing.state); }
      }
      if !created {
        store.w := store.w.(calls := store.w.calls + [ObserveCall(k, seen)]);
        if seen.None? { return Threw; }
        if !seen.value.SawNotApplied? {
          result := Update(k, if seen.value.SawApplied? then Applied else Indeterminate);
          return;
        }
      }
      store.w := store.w.(calls := store.w.calls + [ApplyCall(k, answer)]);
      if effect {
        store.w := store.w.(reached := store.w.reached[k := Reached(store.w, k) + 1]);
      }
      result := Update(k, if answer.Some? then answer.value else Indeterminate);
    }

    method Update(k: Key, state: State) returns (result: Result)
      modifies store
      ensures (store.w, result) == Stored(old(store.w), k, state)
      ensures result == Returned(state) <==>
        k in old(store.w).records &&
        (old(store.w).records[k].state == Pending || old(store.w).records[k].state == Indeterminate ||
         old(store.w).records[k].state == state)
      ensures result == Returned(state) || result == Threw
      ensures store.w == if result.Threw? then old(store.w)
        else old(store.w).(records := old(store.w).records[k := old(store.w).records[k].(state := state)])
    {
      if k !in store.w.records { return Threw; }
      var row := store.w.records[k];
      if Final(row.state) && row.state != state { return Threw; }
      store.w := store.w.(records := store.w.records[k := row.(state := state)]);
      return Returned(state);
    }
  }
}
