/**
 The concurrency control around document ingestion (tenant_concurrency_manager.py).

 Any number of tasks run `tenant_slot` at once.  A task suspends only at an await, so its code
 between two awaits is one atomic action of the transition system below.  Cancellation can strike
 wherever a task may be kept waiting and an exception can end the body; the five small locked
 methods never wait while they hold their lock, so a task is never suspended inside one of them.
 */
module TenantSlots {
  import opened Basics

  type TaskId = nat

  /** How a task left `tenant_slot`. */
  datatype Outcome = Returned | Raised | Cancelled | AlreadyProcessing

  /** The await a task stands at. */
  datatype Phase =
    | Arriving                         // about to ask for the document lock
    | AwaitGlobal                      // document locked; wants a global permit
    | AwaitLookup                      // global permit held; about to look up the tenant's semaphore
    | AwaitTenant                      // wants a tenant permit
    | AwaitCount                       // tenant permit held; about to be counted
    | InBody                           // the body of the `async with` is running
    | AwaitUncount(outcome: Outcome)   // the body is over; about to be uncounted
    | AwaitUnlock(outcome: Outcome)    // permits returned; about to unlock the document
    | Gone(outcome: Outcome)
  {
    predicate HoldsDoc() { !Arriving? && !Gone? }
    predicate HoldsGlobal() { AwaitLookup? || AwaitTenant? || HoldsTenant() }
    predicate HoldsTenant() { AwaitCount? || Counted() }
    predicate Counted() { InBody? || AwaitUncount? }
    predicate KnowsSemaphore() { AwaitTenant? || HoldsTenant() }
  }

  datatype Slot = Slot(doc: string, tenant: string, phase: Phase)

  /** The manager's own fields: locked documents, free permits per tenant, active counts. */
  datatype Registry = Registry(docs: set<string>, permits: map<string, nat>, active: map<string, nat>) {
    function WithSemaphore(tenant: string, limit: nat): Registry {
      if tenant in permits then this else this.(permits := permits[tenant := limit])
    }
    function Locked(doc: string): Registry { this.(docs := docs + {doc}) }
    function Unlocked(doc: string): Registry { this.(docs := docs - {doc}) }
    function ActiveCount(tenant: string): nat { if tenant in active then active[tenant] else 0 }
    function CountedUp(tenant: string): Registry {
      this.(active := active[tenant := ActiveCount(tenant) + 1])
    }
    function CountedDown(tenant: string): Registry {
      this.(active := if ActiveCount(tenant) <= 1 then active - {tenant}
                      else active[tenant := active[tenant] - 1])
    }
  }

  datatype Limits = Limits(global: nat, perTenant: nat)

  datatype State = State(reg: Registry, globalFree: nat, slots: map<TaskId, Slot>)

  datatype Action =
    | Arrive(id: TaskId, doc: string, tenant: string)
    | TryLock(id: TaskId)
    | TakeGlobal(id: TaskId)
    | LookUp(id: TaskId)
    | TakeTenant(id: TaskId)
    | CountUp(id: TaskId)
    | LeaveBody(id: TaskId, outcome: Outcome)
    | CountDown(id: TaskId)
    | Unlock(id: TaskId)
    | Cancel(id: TaskId)

  predicate Enabled(s: State, a: Action) {
    if a.Arrive? then
      a.id !in s.slots
    else if a.id !in s.slots then
      false
    else
      var slot := s.slots[a.id];
      match a
      case TryLock(_) => slot.phase.Arriving?
      case TakeGlobal(_) => slot.phase.AwaitGlobal? && s.globalFree > 0
      case LookUp(_) => slot.phase.AwaitLookup?
      case TakeTenant(_) =>
        slot.phase.AwaitTenant? && slot.tenant in s.reg.permits && s.reg.permits[slot.tenant] > 0
      case CountUp(_) => slot.phase.AwaitCount?
      case LeaveBody(_, outcome) => slot.phase.InBody? && outcome != AlreadyProcessing
      case CountDown(_) => slot.phase.AwaitUncount?
      case Unlock(_) => slot.phase.AwaitUnlock?
      case Cancel(_) =>
        slot.phase.Arriving? || slot.phase.AwaitGlobal? || slot.phase.AwaitTenant? || slot.phase.InBody?
      case Arrive(_, _, _) => false
  }

  /** The slot of task `id` moves to `phase`. */
  function Moved(s: State, id: TaskId, phase: Phase): State
    requires id in s.slots
  {
    s.(slots := s.slots[id := s.slots[id].(phase := phase)])
  }

  function Step(c: Limits, s: State, a: Action): State
    requires Enabled(s, a)
  {
    if a.Arrive? then s.(slots := s.slots[a.id := Slot(a.doc, a.tenant, Arriving)])
    else
      var slot := s.slots[a.id];
      match a
      case TryLock(id) =>
        if slot.doc in s.reg.docs then Moved(s, id, Gone(AlreadyProcessing))
        else Moved(s, id, AwaitGlobal).(reg := s.reg.Locked(slot.doc))
      case TakeGlobal(id) => Moved(s, id, AwaitLookup).(globalFree := s.globalFree - 1)
      case LookUp(id) => Moved(s, id, AwaitTenant).(reg := s.reg.WithSemaphore(slot.tenant, c.perTenant))
      case TakeTenant(id) =>
        var permits := s.reg.permits[slot.tenant := s.reg.permits[slot.tenant] - 1];
        Moved(s, id, AwaitCount).(reg := s.reg.(permits := permits))
      case CountUp(id) => Moved(s, id, InBody).(reg := s.reg.CountedUp(slot.tenant))
      case LeaveBody(id, outcome) => Moved(s, id, AwaitUncount(outcome))
      case CountDown(id) =>
        var reg := s.reg.CountedDown(slot.tenant);
        var permits := if slot.tenant in reg.permits
                       then reg.permits[slot.tenant := reg.permits[slot.tenant] + 1] else reg.permits;
        Moved(s, id, AwaitUnlock(slot.phase.outcome))
          .(reg := reg.(permits := permits), globalFree := s.globalFree + 1)
      case Unlock(id) => Moved(s, id, Gone(slot.phase.outcome)).(reg := s.reg.Unlocked(slot.doc))
      case Cancel(id) =>
        match slot.phase
        case Arriving => Moved(s, id, Gone(Cancelled))
        case AwaitGlobal => Moved(s, id, AwaitUnlock(Cancelled))
        case AwaitTenant => Moved(s, id, AwaitUnlock(Cancelled)).(globalFree := s.globalFree + 1)
        case _ => Moved(s, id, AwaitUncount(Cancelled))
  }

  function Initial(c: Limits): State {
    State(Registry({}, map[], map[]), c.global, map[])
  }

  /** The state after performing `acts` from `s`; None when some action was not enabled. */
  function Run(c: Limits, s: State, acts: seq<Action>): Option<State>
    decreases |acts|
  {
    if acts == [] then Some(s)
    else if !Enabled(s, acts[0]) then None
    else Run(c, Step(c, s, acts[0]), acts[1..])
  }

  // ---------------------------------------------------------------- who holds what

  type Slots = map<TaskId, Slot>

  function LockHolders(slots: Slots): set<TaskId> { set t | t in slots && slots[t].phase.HoldsDoc() }
  function GlobalHolders(slots: Slots): set<TaskId> { set t | t in slots && slots[t].phase.HoldsGlobal() }
  function TenantHolders(slots: Slots, tenant: string): set<TaskId> {
    set t | t in slots && slots[t].tenant == tenant && slots[t].phase.HoldsTenant()
  }
  function Bodies(slots: Slots, tenant: string): set<TaskId> {
    set t | t in slots && slots[t].tenant == tenant && slots[t].phase.Counted()
  }

  /** The locked documents are exactly those of the tasks past the lock, one task each. */
  ghost predicate LocksAccounted(s: State) {
    && (forall t :: t in s.slots && s.slots[t].phase.HoldsDoc() ==> s.slots[t].doc in s.reg.docs)
    && (forall d :: d in s.reg.docs ==> exists t :: t in s.slots && s.slots[t].phase.HoldsDoc() && s.slots[t].doc == d)
    && (forall t, u :: t in s.slots && u in s.slots && s.slots[t].phase.HoldsDoc() && s.slots[u].phase.HoldsDoc()
                       && s.slots[t].doc == s.slots[u].doc
                       ==> t == u)
  }

  /** Free permits and permits held add up to the limits. */
  ghost predicate PermitsAccounted(c: Limits, s: State) {
    && s.globalFree + |GlobalHolders(s.slots)| == c.global
    && (forall t :: t in s.slots && s.slots[t].phase.KnowsSemaphore() ==> s.slots[t].tenant in s.reg.permits)
    && (forall k :: k in s.reg.permits ==> s.reg.permits[k] + |TenantHolders(s.slots, k)| == c.perTenant)
  }

  /** A tenant's active count is the number of its bodies, and is stored only while positive. */
  ghost predicate CountsAccounted(s: State) {
    && (forall k :: s.reg.ActiveCount(k) == |Bodies(s.slots, k)|)
    && (forall k :: k in s.reg.active ==> s.reg.active[k] > 0)
  }

  ghost predicate Accounted(c: Limits, s: State) {
    LocksAccounted(s) && PermitsAccounted(c, s) && CountsAccounted(s)
  }

  function One(b: bool): nat { if b then 1 else 0 }

  lemma Toggle<T>(before: set<T>, after: set<T>, x: T)
    requires after - {x} == before - {x}
    ensures |after| == |before| - One(x in before) + One(x in after)
  {
    assert before == (before - {x}) + (if x in before then {x} else {});
    assert after == (after - {x}) + (if x in after then {x} else {});
  }

  /** Updating one slot shifts each holder count by what that task gave up or gained. */
  lemma HoldersAfterUpdate(slots: Slots, id: TaskId, old': Slot, new': Slot)
    requires id in slots && slots[id] == old' && old'.tenant == new'.tenant
    ensures |GlobalHolders(slots[id := new'])| == |GlobalHolders(slots)| - One(old'.phase.HoldsGlobal()) + One(new'.phase.HoldsGlobal())
  {
    Toggle(GlobalHolders(slots), GlobalHolders(slots[id := new']), id);
  }

  lemma TenantHoldersAfterUpdate(slots: Slots, id: TaskId, old': Slot, new': Slot, k: string)
    requires id in slots && slots[id] == old' && old'.tenant == new'.tenant
    ensures |TenantHolders(slots[id := new'], k)| ==
            |TenantHolders(slots, k)| - One(k == old'.tenant && old'.phase.HoldsTenant()) + One(k == old'.tenant && new'.phase.HoldsTenant())
    ensures |Bodies(slots[id := new'], k)| ==
            |Bodies(slots, k)| - One(k == old'.tenant && old'.phase.Counted()) + One(k == old'.tenant && new'.phase.Counted())
  {
    Toggle(TenantHolders(slots, k), TenantHolders(slots[id := new'], k), id);
    Toggle(Bodies(slots, k), Bodies(slots[id := new'], k), id);
  }

  /**
   What any action of a task already present does to the shared fields: it pays for exactly the
   lock, permits and count its task gains or gives up.
   */
  ghost predicate Settles(c: Limits, s: State, n: State, id: TaskId) {
    id in s.slots && id in n.slots &&
    var before, after := s.slots[id], n.slots[id];
    && n.slots == s.slots[id := after] && after.doc == before.doc && after.tenant == before.tenant
    && (before.phase.HoldsDoc() == after.phase.HoldsDoc() ==> n.reg.docs == s.reg.docs)
    && (before.phase.HoldsDoc() && !after.phase.HoldsDoc() ==> n.reg.docs == s.reg.docs - {before.doc})
    && (!before.phase.HoldsDoc() && after.phase.HoldsDoc() ==>
          before.doc !in s.reg.docs && n.reg.docs == s.reg.docs + {before.doc})
    && n.globalFree == s.globalFree + One(before.phase.HoldsGlobal()) - One(after.phase.HoldsGlobal())
    && s.reg.permits.Keys <= n.reg.permits.Keys <= s.reg.permits.Keys + {before.tenant}
    && (after.phase.KnowsSemaphore() ==> before.tenant in n.reg.permits)
    && (before.tenant !in s.reg.permits && before.tenant in n.reg.permits ==>
          !after.phase.HoldsTenant() && n.reg.permits[before.tenant] == c.perTenant)
    && (before.tenant in s.reg.permits ==>
          n.reg.permits[before.tenant] ==
          s.reg.permits[before.tenant] + One(before.phase.HoldsTenant()) - One(after.phase.HoldsTenant()))
    && (forall k :: k in s.reg.permits && k != before.tenant ==> n.reg.permits[k] == s.reg.permits[k])
  }

  ghost predicate Recounts(s: State, n: State, id: TaskId) {
    id in s.slots && id in n.slots &&
    var before, after := s.slots[id], n.slots[id];
    && n.slots == s.slots[id := after] && after.tenant == before.tenant
    && (forall k :: n.reg.ActiveCount(k) ==
          s.reg.ActiveCount(k) - One(k == before.tenant && before.phase.Counted()) + One(k == before.tenant && after.phase.Counted()))
    && (forall k :: k in n.reg.active && k !in s.reg.active ==> n.reg.active[k] > 0)
    && (forall k :: k in n.reg.active && k in s.reg.active && s.reg.active[k] > 0 ==> n.reg.active[k] > 0)
  }

  lemma StepSettles(c: Limits, s: State, a: Action)
    requires Enabled(s, a) && !a.Arrive?
    requires s.slots[a.id].phase.KnowsSemaphore() ==> s.slots[a.id].tenant in s.reg.permits
    ensures Settles(c, s, Step(c, s, a), a.id)
  {
    hide Settles, Step;
    if a.Cancel? || a.LeaveBody? || a.Unlock? || a.CountDown? {
      LeavingSettles(c, s, a);
    } else {
      GoingOnSettles(c, s, a);
    }
  }

  lemma LeavingSettles(c: Limits, s: State, a: Action)
    requires Enabled(s, a) && (a.Cancel? || a.LeaveBody? || a.Unlock? || a.CountDown?)
    requires s.slots[a.id].phase.KnowsSemaphore() ==> s.slots[a.id].tenant in s.reg.permits
    ensures Settles(c, s, Step(c, s, a), a.id)
  {
  }

  lemma GoingOnSettles(c: Limits, s: State, a: Action)
    requires Enabled(s, a) && (a.TryLock? || a.TakeGlobal? || a.LookUp? || a.TakeTenant? || a.CountUp?)
    requires s.slots[a.id].phase.KnowsSemaphore() ==> s.slots[a.id].tenant in s.reg.permits
    ensures Settles(c, s, Step(c, s, a), a.id)
  {
  }

  lemma StepRecounts(c: Limits, s: State, a: Action)
    requires Enabled(s, a) && !a.Arrive?
    requires s.slots[a.id].phase.Counted() ==> s.reg.ActiveCount(s.slots[a.id].tenant) > 0
    ensures Recounts(s, Step(c, s, a), a.id)
  {
  }

  lemma SettlingKeepsLocks(c: Limits, s: State, n: State, id: TaskId)
    requires LocksAccounted(s) && Settles(c, s, n, id)
    ensures LocksAccounted(n)
  {
    forall d | d in n.reg.docs ensures exists t :: t in n.slots && n.slots[t].phase.HoldsDoc() && n.slots[t].doc == d {
      if d in s.reg.docs {
        var t :| t in s.slots && s.slots[t].phase.HoldsDoc() && s.slots[t].doc == d;
        assert t in n.slots && n.slots[t].phase.HoldsDoc() && n.slots[t].doc == d;
      } else {
        assert id in n.slots && n.slots[id].phase.HoldsDoc() && n.slots[id].doc == d;
      }
    }
  }

  lemma SettlingKeepsPermits(c: Limits, s: State, n: State, id: TaskId)
    requires PermitsAccounted(c, s) && Settles(c, s, n, id)
    ensures PermitsAccounted(c, n)
  {
    HoldersAfterUpdate(s.slots, id, s.slots[id], n.slots[id]);
    forall k | k in n.reg.permits ensures n.reg.permits[k] + |TenantHolders(n.slots, k)| == c.perTenant {
      TenantHoldersAfterUpdate(s.slots, id, s.slots[id], n.slots[id], k);
      if k !in s.reg.permits {
        assert TenantHolders(s.slots, k) == {};
      }
    }
  }

  lemma RecountingKeepsCounts(s: State, n: State, id: TaskId)
    requires CountsAccounted(s) && Recounts(s, n, id)
    ensures CountsAccounted(n)
  {
    forall k ensures n.reg.ActiveCount(k) == |Bodies(n.slots, k)| {
      TenantHoldersAfterUpdate(s.slots, id, s.slots[id], n.slots[id], k);
    }
  }

  lemma SettlingKeepsAccounts(c: Limits, s: State, n: State, id: TaskId)
    requires Accounted(c, s) && Settles(c, s, n, id) && Recounts(s, n, id)
    ensures Accounted(c, n)
  {
    SettlingKeepsLocks(c, s, n, id);
    SettlingKeepsPermits(c, s, n, id);
    RecountingKeepsCounts(s, n, id);
  }

  lemma ArrivalKeepsLocks(s: State, id: TaskId, slot: Slot)
    requires LocksAccounted(s) && id !in s.slots && slot.phase.Arriving?
    ensures LocksAccounted(s.(slots := s.slots[id := slot]))
  {
    var slots := s.slots[id := slot];
    forall d | d in s.reg.docs ensures exists t :: t in slots && slots[t].phase.HoldsDoc() && slots[t].doc == d {
      var t :| t in s.slots && s.slots[t].phase.HoldsDoc() && s.slots[t].doc == d;
      assert t in slots && slots[t].phase.HoldsDoc() && slots[t].doc == d;
    }
  }

  lemma ArrivalKeepsAccounts(c: Limits, s: State, id: TaskId, slot: Slot)
    requires Accounted(c, s) && id !in s.slots && slot.phase.Arriving?
    ensures Accounted(c, s.(slots := s.slots[id := slot]))
  {
    var slots := s.slots[id := slot];
    ArrivalKeepsLocks(s, id, slot);
    hide LocksAccounted;
    assert GlobalHolders(slots) == GlobalHolders(s.slots);
    assert forall k :: TenantHolders(slots, k) == TenantHolders(s.slots, k) && Bodies(slots, k) == Bodies(s.slots, k);
  }

  lemma StepKeepsAccounts(c: Limits, s: State, a: Action)
    requires Accounted(c, s) && Enabled(s, a)
    ensures Accounted(c, Step(c, s, a))
  {
    if a.Arrive? {
      var slot := Slot(a.doc, a.tenant, Arriving);
      ArrivalKeepsAccounts(c, s, a.id, slot);
      assert Step(c, s, a) == s.(slots := s.slots[a.id := slot]);
    } else {
      assert s.slots[a.id].phase.Counted() ==> a.id in Bodies(s.slots, s.slots[a.id].tenant);
      StepSettles(c, s, a);
      StepRecounts(c, s, a);
      SettlingKeepsAccounts(c, s, Step(c, s, a), a.id);
    }
  }

  lemma {:induction false} RunKeepsAccounts(c: Limits, s: State, acts: seq<Action>)
    requires Accounted(c, s) && Run(c, s, acts).Some?
    ensures Accounted(c, Run(c, s, acts).value)
    decreases |acts|
  {
    if acts != [] {
      StepKeepsAccounts(c, s, acts[0]);
      RunKeepsAccounts(c, Step(c, s, acts[0]), acts[1..]);
    }
  }

  // ---------------------------------------------------------------- safety

  /** What the manager promises about any state it can get into. */
  ghost predicate Safe(c: Limits, s: State) {
    && s.reg.docs == (set t | t in LockHolders(s.slots) :: s.slots[t].doc)
    && (forall t, u :: t in LockHolders(s.slots) && u in LockHolders(s.slots) && t != u ==> s.slots[t].doc != s.slots[u].doc)
    && |GlobalHolders(s.slots)| <= c.global
    && (forall k :: |Bodies(s.slots, k)| <= |TenantHolders(s.slots, k)| <= c.perTenant)
    && (forall k :: k in s.reg.active <==> Bodies(s.slots, k) != {})
    && (forall k :: k in s.reg.active ==> s.reg.active[k] == |Bodies(s.slots, k)|)
  }

  lemma SubsetIsNoLarger<T>(a: set<T>, b: set<T>)
    requires a <= b
    ensures |a| <= |b|
  {
    assert |b| == |a| + |b - a| by { assert b == a + (b - a); }
  }

  lemma AccountedIsSafe(c: Limits, s: State)
    requires Accounted(c, s)
    ensures Safe(c, s)
  {
    forall k ensures |Bodies(s.slots, k)| <= |TenantHolders(s.slots, k)| <= c.perTenant {
      SubsetIsNoLarger(Bodies(s.slots, k), TenantHolders(s.slots, k));
      if k !in s.reg.permits {
        assert TenantHolders(s.slots, k) == {};
      }
    }
    assert forall k :: s.reg.ActiveCount(k) == |Bodies(s.slots, k)|;
  }

  lemma InitiallyAccounted(c: Limits)
    ensures Accounted(c, Initial(c))
  {
    var s := Initial(c);
    assert GlobalHolders(s.slots) == {};
    assert forall k :: TenantHolders(s.slots, k) == {} && Bodies(s.slots, k) == {};
  }

  /** Theorem: every state any number of tasks can reach is safe. */
  lemma EveryRunIsSafe(c: Limits, acts: seq<Action>)
    requires Run(c, Initial(c), acts).Some?
    ensures Safe(c, Run(c, Initial(c), acts).value)
  {
    InitiallyAccounted(c);
    RunKeepsAccounts(c, Initial(c), acts);
    AccountedIsSafe(c, Run(c, Initial(c), acts).value);
  }

  /** A task lets go of its document in no step but its unlock. */
  lemma LetsGo(c: Limits, s: State, a: Action)
    requires Enabled(s, a) && !a.Arrive? && s.slots[a.id].phase.HoldsDoc()
    ensures a.id in Step(c, s, a).slots
    ensures Step(c, s, a).slots[a.id].phase.HoldsDoc() <==> a != Unlock(a.id)
  {
  }

  lemma HolderDecides(c: Limits, s: State, a: Action, holder: TaskId)
    requires LocksAccounted(s) && Enabled(s, a) && holder in LockHolders(s.slots)
    requires a.Arrive? || Settles(c, s, Step(c, s, a), a.id)
    ensures s.slots[holder].doc in Step(c, s, a).reg.docs <==> a != Unlock(holder)
  {
    if !a.Arrive? {
      if s.slots[a.id].phase.HoldsDoc() {
        LetsGo(c, s, a);
      }
      hide Step, Enabled;
    }
  }

  /**
   Theorem: in a reachable state only the one task that holds a document can unlock it; a refused,
   cancelled or failing task never frees another task's lock.
   */
  lemma OnlyTheHolderUnlocks(c: Limits, acts: seq<Action>, a: Action, doc: string)
    requires Run(c, Initial(c), acts).Some? && Enabled(Run(c, Initial(c), acts).value, a)
    requires doc in Run(c, Initial(c), acts).value.reg.docs
    ensures var s := Run(c, Initial(c), acts).value;
            exists holder :: && holder in LockHolders(s.slots) && s.slots[holder].doc == doc
                             && (doc in Step(c, s, a).reg.docs <==> a != Unlock(holder))
  {
    hide Run, Step, Settles;
    InitiallyAccounted(c);
    RunKeepsAccounts(c, Initial(c), acts);
    var s := Run(c, Initial(c), acts).value;
    var holder :| holder in s.slots && s.slots[holder].phase.HoldsDoc() && s.slots[holder].doc == doc;
    assert holder in LockHolders(s.slots);
    if !a.Arrive? {
      assert s.slots[a.id].phase.Counted() ==> a.id in Bodies(s.slots, s.slots[a.id].tenant);
      StepSettles(c, s, a);
    }
    HolderDecides(c, s, a, holder);
  }

  // ---------------------------------------------------------------- how tasks leave

  /** The outcome a task is on its way out with, if it is. */
  function OutcomeOf(s: State, id: TaskId): Option<Outcome> {
    if id !in s.slots then None
    else
      match s.slots[id].phase
      case AwaitUncount(o) => Some(o)
      case AwaitUnlock(o) => Some(o)
      case Gone(o) => Some(o)
      case _ => None
  }

  /** The action gives the task that outcome: its body ends so, it is cancelled, or it finds its document locked. */
  predicate Decides(s: State, a: Action, id: TaskId, o: Outcome) {
    || a == LeaveBody(id, o)
    || (o.Cancelled? && a == Cancel(id))
    || (o.AlreadyProcessing? && a == TryLock(id) && id in s.slots && s.slots[id].doc in s.reg.docs)
  }

  /** Some action of the run does. */
  predicate Decided(c: Limits, s: State, acts: seq<Action>, id: TaskId, o: Outcome)
    requires Run(c, s, acts).Some?
    decreases |acts|
  {
    acts != [] && (Decides(s, acts[0], id, o) || Decided(c, Step(c, s, acts[0]), acts[1..], id, o))
  }

  lemma StepDecides(c: Limits, s: State, a: Action, id: TaskId, o: Outcome)
    requires Enabled(s, a)
    ensures OutcomeOf(Step(c, s, a), id) == Some(o) <==> OutcomeOf(s, id) == Some(o) || Decides(s, a, id, o)
  {
  }

  /** Theorem: in any run a task has an outcome exactly if some action has given it that one; it never changes. */
  lemma {:induction false} OutcomesAreDecided(c: Limits, s: State, acts: seq<Action>, id: TaskId, o: Outcome)
    requires Run(c, s, acts).Some?
    ensures OutcomeOf(Run(c, s, acts).value, id) == Some(o) <==> OutcomeOf(s, id) == Some(o) || Decided(c, s, acts, id, o)
    decreases |acts|
  {
    if acts != [] {
      StepDecides(c, s, acts[0], id, o);
      hide Step, Enabled, Decides, OutcomeOf;
      OutcomesAreDecided(c, Step(c, s, acts[0]), acts[1..], id, o);
    }
  }

  /** The `k`-th action finds the task's document locked. */
  ghost predicate Refuses(c: Limits, s: State, acts: seq<Action>, id: TaskId, k: nat) {
    && k < |acts| && acts[k] == TryLock(id) && Run(c, s, acts[..k]).Some?
    && var m := Run(c, s, acts[..k]).value; id in m.slots && m.slots[id].doc in m.reg.docs
  }

  lemma RefusesLater(c: Limits, s: State, acts: seq<Action>, id: TaskId, k: nat)
    requires acts != [] && Enabled(s, acts[0]) && k + 1 < |acts|
    ensures Refuses(c, s, acts, id, k + 1) <==> Refuses(c, Step(c, s, acts[0]), acts[1..], id, k)
  {
    assert acts[..k+1][0] == acts[0] && acts[..k+1][1..] == acts[1..][..k];
  }

  ghost predicate Refused(c: Limits, s: State, acts: seq<Action>, id: TaskId) { exists k: nat :: Refuses(c, s, acts, id, k) }

  lemma RefusedNowOrLater(c: Limits, s: State, acts: seq<Action>, id: TaskId)
    requires acts != [] && Enabled(s, acts[0])
    ensures Refused(c, s, acts, id) <==>
              (acts[0] == TryLock(id) && s.slots[id].doc in s.reg.docs) || Refused(c, Step(c, s, acts[0]), acts[1..], id)
  {
    var n, rest := Step(c, s, acts[0]), acts[1..];
    assert acts[..0] == [];
    if k: nat :| Refuses(c, n, rest, id, k) {
      RefusesLater(c, s, acts, id, k);
    }
    if k: nat :| Refuses(c, s, acts, id, k) && k > 0 {
      RefusesLater(c, s, acts, id, k - 1);
    }
    assert acts[0] == TryLock(id) && s.slots[id].doc in s.reg.docs ==> Refuses(c, s, acts, id, 0);
    hide Step;
  }

  /** What the decisions are, as actions of the run. */
  lemma {:induction false} DecisionsAreActions(c: Limits, s: State, acts: seq<Action>, id: TaskId, o: Outcome)
    requires Run(c, s, acts).Some?
    ensures Decided(c, s, acts, id, o) <==>
              LeaveBody(id, o) in acts || (o.Cancelled? && Cancel(id) in acts) || (o.AlreadyProcessing? && Refused(c, s, acts, id))
    decreases |acts|
  {
    if acts != [] {
      hide Step, Refused;
      DecisionsAreActions(c, Step(c, s, acts[0]), acts[1..], id, o);
      RefusedNowOrLater(c, s, acts, id);
      assert acts == [acts[0]] + acts[1..];
    }
  }

  lemma {:induction false} BodyNeverRefuses(c: Limits, s: State, acts: seq<Action>, id: TaskId)
    requires Run(c, s, acts).Some?
    ensures LeaveBody(id, AlreadyProcessing) !in acts
    decreases |acts|
  {
    if acts != [] {
      BodyNeverRefuses(c, Step(c, s, acts[0]), acts[1..], id);
      assert acts == [acts[0]] + acts[1..];
    }
  }

  /**
   Theorem: a task leaves with the outcome of its body, an exception included, if its body ended by itself; cancelled
   if and only if a cancellation struck it, in the body or at a wait; and refused if and only if it met its document locked.
   */
  lemma TasksLeaveAsTheyDid(c: Limits, acts: seq<Action>, id: TaskId)
    requires Run(c, Initial(c), acts).Some?
    requires id in Run(c, Initial(c), acts).value.slots && Run(c, Initial(c), acts).value.slots[id].phase.Gone?
    ensures var o := Run(c, Initial(c), acts).value.slots[id].phase.outcome;
            && (o == Returned <==> LeaveBody(id, Returned) in acts)
            && (o == Raised <==> LeaveBody(id, Raised) in acts)
            && (o == Cancelled <==> Cancel(id) in acts || LeaveBody(id, Cancelled) in acts)
            && (o == AlreadyProcessing <==> exists k: nat :: Refuses(c, Initial(c), acts, id, k))
  {
    forall o: Outcome
      ensures Run(c, Initial(c), acts).value.slots[id].phase.outcome == o <==> Decided(c, Initial(c), acts, id, o)
    {
      OutcomesAreDecided(c, Initial(c), acts, id, o);
    }
    DecisionsAreActions(c, Initial(c), acts, id, Returned);
    DecisionsAreActions(c, Initial(c), acts, id, Raised);
    DecisionsAreActions(c, Initial(c), acts, id, Cancelled);
    DecisionsAreActions(c, Initial(c), acts, id, AlreadyProcessing);
    BodyNeverRefuses(c, Initial(c), acts, id);
  }

  lemma {:induction false} OutcomeStays(c: Limits, s: State, acts: seq<Action>, id: TaskId, o: Outcome)
    requires Run(c, s, acts).Some? && OutcomeOf(s, id) == Some(o)
    ensures OutcomeOf(Run(c, s, acts).value, id) == Some(o)
  {
    OutcomesAreDecided(c, s, acts, id, o);
  }

  /** Theorem: a task that may be kept waiting, or is in its body, can be cancelled there, and then gets out without any wait. */
  lemma CancelledTasksGetOut(c: Limits, s: State, id: TaskId) returns (acts: seq<Action>)
    requires id in s.slots
    requires var p := s.slots[id].phase; p.Arriving? || p.AwaitGlobal? || p.AwaitTenant? || p.InBody?
    ensures acts != [] && acts[0] == Cancel(id) && forall k :: 0 < k < |acts| ==> acts[k] == CountDown(id) || acts[k] == Unlock(id)
    ensures Run(c, s, acts).Some? && OutcomeOf(Run(c, s, acts).value, id) == Some(Cancelled)
    ensures Run(c, s, acts).value.slots[id].phase.Gone?
    ensures !s.slots[id].phase.Arriving? ==> s.slots[id].doc !in Run(c, s, acts).value.reg.docs
  {
    var phase, n := s.slots[id].phase, Step(c, s, Cancel(id));
    if phase.Arriving? {
      acts := [Cancel(id)];
      assert acts[1..] == [];
    } else if phase.InBody? {
      var m := Step(c, n, CountDown(id));
      acts := [Cancel(id), CountDown(id), Unlock(id)];
      assert acts[1..] == [CountDown(id), Unlock(id)] && acts[1..][1..] == [Unlock(id)] && acts[1..][1..][1..] == [];
      assert Run(c, m, [Unlock(id)]) == Some(Step(c, m, Unlock(id))) && Run(c, n, acts[1..]) == Run(c, m, [Unlock(id)]);
    } else {
      acts := [Cancel(id), Unlock(id)];
      assert acts[1..] == [Unlock(id)] && acts[1..][1..] == [];
      assert Run(c, n, [Unlock(id)]) == Some(Step(c, n, Unlock(id)));
    }
  }

  // ---------------------------------------------------------------- progress

  ghost predicate CanMove(s: State) {
    exists a: Action :: Enabled(s, a) && !a.Arrive? && !a.Cancel?
  }

  /** The action that takes a task past the await it stands at. */
  function Onward(id: TaskId, phase: Phase): Action {
    match phase
    case Arriving => TryLock(id)
    case AwaitGlobal => TakeGlobal(id)
    case AwaitLookup => LookUp(id)
    case AwaitTenant => TakeTenant(id)
    case AwaitCount => CountUp(id)
    case InBody => LeaveBody(id, Returned)
    case AwaitUncount(_) => CountDown(id)
    case AwaitUnlock(_) => Unlock(id)
    case Gone(_) => Cancel(id)
  }

  lemma OnlySemaphoresBlock(s: State, id: TaskId)
    requires id in s.slots && !s.slots[id].phase.Gone?
    requires s.slots[id].phase.AwaitGlobal? ==> s.globalFree > 0
    requires s.slots[id].phase.AwaitTenant? ==> s.slots[id].tenant in s.reg.permits && s.reg.permits[s.slots[id].tenant] > 0
    ensures CanMove(s)
  {
    var a := Onward(id, s.slots[id].phase);
    assert Enabled(s, a);
  }

  /** Theorem: with both limits at least 1 a state with a live task is never deadlocked. */
  lemma NeverDeadlocked(c: Limits, s: State, t: TaskId)
    requires PermitsAccounted(c, s) && c.global >= 1 && c.perTenant >= 1
    requires t in s.slots && !s.slots[t].phase.Gone?
    ensures CanMove(s)
  {
    if u :| u in s.slots && !s.slots[u].phase.Gone? && !s.slots[u].phase.AwaitGlobal? && !s.slots[u].phase.AwaitTenant? {
      OnlySemaphoresBlock(s, u);
    } else if u :| u in s.slots && s.slots[u].phase.AwaitTenant? {
      assert TenantHolders(s.slots, s.slots[u].tenant) == {};
      OnlySemaphoresBlock(s, u);
    } else {
      assert GlobalHolders(s.slots) == {};
      OnlySemaphoresBlock(s, t);
    }
  }

  function Rank(p: Phase): nat {
    match p
    case Arriving => 8
    case AwaitGlobal => 7
    case AwaitLookup => 6
    case AwaitTenant => 5
    case AwaitCount => 4
    case InBody => 3
    case AwaitUncount(_) => 2
    case AwaitUnlock(_) => 1
    case Gone(_) => 0
  }

  /** The actions still ahead of the tasks present, at most eight each. */
  ghost function Ahead(slots: Slots): set<(TaskId, int)> {
    set t, i | t in slots && 0 <= i < Rank(slots[t].phase) :: (t, i)
  }

  lemma StepConsumes(c: Limits, s: State, a: Action)
    requires Enabled(s, a) && !a.Arrive?
    ensures |Ahead(Step(c, s, a).slots)| < |Ahead(s.slots)|
  {
    var n := Step(c, s, a);
    var last := (a.id, Rank(s.slots[a.id].phase) - 1);
    assert Rank(n.slots[a.id].phase) < Rank(s.slots[a.id].phase);
    assert last in Ahead(s.slots) && last !in Ahead(n.slots);
    SubsetIsNoLarger(Ahead(n.slots), Ahead(s.slots) - {last});
  }

  /** Theorem: without new arrivals a run is no longer than the actions ahead of its tasks. */
  lemma {:induction false} RunsAreBounded(c: Limits, s: State, acts: seq<Action>)
    requires Run(c, s, acts).Some? && forall a :: a in acts ==> !a.Arrive?
    ensures |acts| + |Ahead(Run(c, s, acts).value.slots)| <= |Ahead(s.slots)|
    decreases |acts|
  {
    if acts != [] {
      StepConsumes(c, s, acts[0]);
      RunsAreBounded(c, Step(c, s, acts[0]), acts[1..]);
    }
  }

  ghost predicate Drained(c: Limits, s: State) {
    && (forall t :: t in s.slots ==> s.slots[t].phase.Gone?)
    && s.reg.docs == {} && s.reg.active == map[] && s.globalFree == c.global
    && (forall k :: k in s.reg.permits ==> s.reg.permits[k] == c.perTenant)
  }

  /** A state in which every task has left has given everything back. */
  lemma AllGoneIsDrained(c: Limits, s: State)
    requires Accounted(c, s) && forall t :: t in s.slots ==> s.slots[t].phase.Gone?
    ensures Drained(c, s)
  {
    assert GlobalHolders(s.slots) == {};
    assert forall k :: TenantHolders(s.slots, k) == {} && Bodies(s.slots, k) == {};
    assert forall k :: k in s.reg.active ==> s.reg.ActiveCount(k) == 0;
  }

  /**
   Theorem: a run without new arrivals that cannot be extended (it must end, by RunsAreBounded) ends
   with no document locked, no tenant counted and every permit back, whatever was cancelled or raised.
   */
  lemma StuckRunsAreDrained(c: Limits, acts: seq<Action>)
    requires c.global >= 1 && c.perTenant >= 1
    requires Run(c, Initial(c), acts).Some? && !CanMove(Run(c, Initial(c), acts).value)
    ensures Drained(c, Run(c, Initial(c), acts).value)
  {
    InitiallyAccounted(c);
    RunKeepsAccounts(c, Initial(c), acts);
    var s := Run(c, Initial(c), acts).value;
    forall t | t in s.slots ensures s.slots[t].phase.Gone? {
      if !s.slots[t].phase.Gone? {
        NeverDeadlocked(c, s, t);
      }
    }
    AllGoneIsDrained(c, s);
  }

  // ---------------------------------------------------------------- the manager itself

  /**
   The manager object.  The five locked methods come first; `Resume` runs the code of one task's
   `tenant_slot` from the await it stands at to the next one.
   */
  class TenantConcurrencyManager {
    const limits: Limits
    var docs: set<string>
    var permits: map<string, nat>
    var active: map<string, nat>
    var globalFree: nat
    var slots: Slots

    function Reg(): Registry
      reads this
    {
      Registry(docs, permits, active)
    }

    function View(): State
      reads this
    {
      State(Reg(), globalFree, slots)
    }

    constructor (limits: Limits)
      ensures this.limits == limits && View() == Initial(limits) && Safe(limits, View())
    {
      this.limits := limits;
      docs, permits, active, globalFree, slots := {}, map[], map[], limits.global, map[];
      new;
      InitiallyAccounted(limits);
      AccountedIsSafe(limits, Initial(limits));
    }

    method GetSemaphore(tenant: string) returns (free: nat)
      modifies this`permits
      ensures Reg() == old(Reg()).WithSemaphore(tenant, limits.perTenant)
      ensures tenant in permits && free == permits[tenant]
    {
      if tenant !in permits {
        permits := permits[tenant := limits.perTenant];
      }
      free := permits[tenant];
    }

    method TryAcquireDocLock(doc: string) returns (acquired: bool)
      modifies this`docs
      ensures acquired == (doc !in old(docs)) && Reg() == old(Reg()).Locked(doc)
    {
      if doc in docs {
        assert docs == docs + {doc};
        return false;
      }
      docs := docs + {doc};
      return true;
    }

    method ReleaseDocLock(doc: string)
      modifies this`docs
      ensures Reg() == old(Reg()).Unlocked(doc)
    {
      if doc in docs {
        docs := docs - {doc};
      } else {
        assert docs == docs - {doc};
      }
    }

    method IncrementActiveJobs(tenant: string)
      modifies this`active
      ensures Reg() == old(Reg()).CountedUp(tenant)
    {
      active := active[tenant := (if tenant in active then active[tenant] else 0) + 1];
    }

    method DecrementActiveJobs(tenant: string)
      modifies this`active
      ensures Reg() == old(Reg()).CountedDown(tenant)
    {
      var current := if tenant in active then active[tenant] else 0;
      if current <= 1 {
        active := active - {tenant};
      } else {
        active := active[tenant := current - 1];
      }
    }

    method GetActiveJobsCount(tenant: string) returns (count: nat)
      requires Accounted(limits, View())
      ensures count == |Bodies(slots, tenant)|
    {
      count := if tenant in active then active[tenant] else 0;
      assert Reg().ActiveCount(tenant) == count;
    }

    method Move(id: TaskId, phase: Phase)
      requires id in slots
      modifies this`slots
      ensures slots == old(slots)[id := old(slots)[id].(phase := phase)]
    {
      slots := slots[id := slots[id].(phase := phase)];
    }

    /** The two `async with` exits of a task that held a permit of `tenant`, and the global one. */
    method ReturnPermits(tenant: string)
      modifies this`permits, this`globalFree
      ensures globalFree == old(globalFree) + 1
      ensures permits == if tenant in old(permits) then old(permits)[tenant := old(permits)[tenant] + 1] else old(permits)
    {
      if tenant in permits {
        permits := permits[tenant := permits[tenant] + 1];
      }
      globalFree := globalFree + 1;
    }

    /** Whatever happens next, in any order among any tasks, the manager stays safe. */
    method Resume(a: Action)
      requires Accounted(limits, View()) && Enabled(View(), a)
      modifies this
      ensures View() == Step(limits, old(View()), a)
      ensures Safe(limits, View()) && Accounted(limits, View())
    {
      ghost var before := View();
      Act(a);
      StepKeepsAccounts(limits, before, a);
      AccountedIsSafe(limits, View());
    }

    method Act(a: Action)
      requires Enabled(View(), a)
      modifies this
      ensures View() == Step(limits, old(View()), a)
    {
      match a {
        case Arrive(id, doc, tenant) => slots := slots[id := Slot(doc, tenant, Arriving)];
        case TryLock(id) =>
          var acquired := TryAcquireDocLock(slots[id].doc);
          Move(id, if acquired then AwaitGlobal else Gone(AlreadyProcessing));
        case TakeGlobal(id) =>
          globalFree := globalFree - 1;
          Move(id, AwaitLookup);
        case LookUp(id) =>
          var _ := GetSemaphore(slots[id].tenant);
          Move(id, AwaitTenant);
        case TakeTenant(id) =>
          permits := permits[slots[id].tenant := permits[slots[id].tenant] - 1];
          Move(id, AwaitCount);
        case CountUp(id) =>
          IncrementActiveJobs(slots[id].tenant);
          Move(id, InBody);
        case LeaveBody(id, outcome) => Move(id, AwaitUncount(outcome));
        case CountDown(id) =>
          DecrementActiveJobs(slots[id].tenant);
          ReturnPermits(slots[id].tenant);
          Move(id, AwaitUnlock(slots[id].phase.outcome));
        case Unlock(id) =>
          ReleaseDocLock(slots[id].doc);
          Move(id, Gone(slots[id].phase.outcome));
        case Cancel(id) => Interrupt(id);
      }
    }

    /** CancelledError is raised at the await where task `id` is kept waiting. */
    method Interrupt(id: TaskId)
      requires Enabled(View(), Cancel(id))
      modifies this
      ensures View() == Step(limits, old(View()), Cancel(id))
    {
      match slots[id].phase {
        case Arriving => Move(id, Gone(Cancelled));
        case AwaitGlobal => Move(id, AwaitUnlock(Cancelled));
        case AwaitTenant =>
          globalFree := globalFree + 1;
          Move(id, AwaitUnlock(Cancelled));
        case InBody => Move(id, AwaitUncount(Cancelled));
      }
    }
  }
}
