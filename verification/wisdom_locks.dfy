/** Concurrent wisdom writes: the lock table behind its guard, one lock per page, and what
    each writer sees and leaves. A run is any interleaving of the writers' steps. */
module WisdomLocks {
  import opened Options

  datatype Stage =
    | Entered
    | Observed(created: bool)
    | Filed(created: bool)
    | Half(created: bool)
    | Landed(created: bool)
    | Broke(created: bool)

  datatype Pc =
    | Start
    | AtGuard
    | Found(seen: Option<nat>)
    | Waiting(lock: nat)
    | Inside(lock: nat, stage: Stage)
    | Done(created: bool)
    | Failed(created: bool)

  /** A document row: whether it is active and which write it comes from. */
  datatype Row = Row(active: bool, writer: Option<nat>)

  /** `key` is each writer's page; `last` is the writer that entered each page's lock last. */
  datatype State = State(key: map<nat, string>, pc: map<nat, Pc>, locks: map<string, nat>, made: nat,
      guard: Option<nat>, held: map<nat, nat>, rows: map<string, Row>, files: map<string, nat>, last: map<string, nat>)

  predicate Active(s: State, k: string) { k in s.rows && s.rows[k].active }

  // ------------------------------------------------------------------
  // Steps.

  /** `Commit` is the persist's first transaction, `Land` its end; `Break` is a failure inside
      the persist, whose handler deactivates the row; `Abandon` is a failure or cancellation
      anywhere else, which only lets go of what is held. */
  datatype Action = TakeGuard | LookUp | Settle | Enter | Observe | WriteFile | Commit | Land | Break | Leave | Abandon

  /** Whether the step is one this writer can take now. */
  predicate Can(s: State, w: nat, a: Action)
    requires w in s.pc
  {
    var pc := s.pc[w];
    match a
    case TakeGuard => pc.Start? && s.guard.None?
    case LookUp => pc.AtGuard?
    case Settle => pc.Found?
    case Enter => pc.Waiting? && pc.lock !in s.held
    case Observe => pc.Inside? && pc.stage.Entered?
    case WriteFile => pc.Inside? && pc.stage.Observed?
    case Commit => pc.Inside? && pc.stage.Filed?
    case Land => pc.Inside? && pc.stage.Half?
    case Break => pc.Inside? && (pc.stage.Filed? || pc.stage.Half?)
    case Leave => pc.Inside? && (pc.stage.Landed? || pc.stage.Broke?)
    case Abandon => pc.Start? || pc.AtGuard? || pc.Waiting? || (pc.Inside? && !pc.stage.Half? && !pc.stage.Broke?)
  }

  function NextPc(s: State, w: nat, a: Action): Pc
    requires w in s.pc && w in s.key && Can(s, w, a)
  {
    var k, pc := s.key[w], s.pc[w];
    match a
    case TakeGuard => AtGuard
    case LookUp => Found(if k in s.locks then Some(s.locks[k]) else None)
    case Settle => Waiting(if pc.seen.Some? then pc.seen.value else s.made)
    case Enter => Inside(pc.lock, Entered)
    case Observe => Inside(pc.lock, Observed(!Active(s, k)))
    case WriteFile => Inside(pc.lock, Filed(pc.stage.created))
    case Commit => Inside(pc.lock, Half(pc.stage.created))
    case Land => Inside(pc.lock, Landed(pc.stage.created))
    case Break => Inside(pc.lock, Broke(pc.stage.created))
    case Leave => if pc.stage.Landed? then Done(pc.stage.created) else Failed(pc.stage.created)
    case Abandon => Failed(Claims(pc))
  }

  /** The step makes the page's lock object. */
  predicate Makes(s: State, w: nat, a: Action)
    requires w in s.pc
  {
    a.Settle? && s.pc[w].Found? && s.pc[w].seen.None?
  }

  /** The step gives up a lock the writer holds. */
  predicate Exits(s: State, w: nat, a: Action)
    requires w in s.pc
  {
    s.pc[w].Inside? && (a.Leave? || a.Abandon?)
  }

  function Next(s: State, w: nat, a: Action): State
    requires w in s.pc && w in s.key && Can(s, w, a)
  {
    var k, pc := s.key[w], s.pc[w];
    State(s.key,
          s.pc[w := NextPc(s, w, a)],
          if Makes(s, w, a) then s.locks[k := s.made] else s.locks,
          if Makes(s, w, a) then s.made + 1 else s.made,
          if a.TakeGuard? then Some(w) else if a.Settle? || (a.Abandon? && pc.AtGuard?) then None else s.guard,
          if a.Enter? then s.held[pc.lock := w] else if Exits(s, w, a) then s.held - {pc.lock} else s.held,
          if a.Commit? then s.rows[k := Row(true, Some(w))] else if a.Break? then Deactivated(s.rows, k) else s.rows,
          if a.WriteFile? then s.files[k := w] else s.files,
          if a.Enter? then s.last[k := w] else s.last)
  }

  /** The writer holds, or has reported, that it created the page. */
  predicate Claims(pc: Pc) {
    match pc
    case Inside(_, stage) => !stage.Entered? && stage.created
    case Done(c) => c
    case Failed(c) => c
    case _ => false
  }

  function Deactivated(rows: map<string, Row>, k: string): map<string, Row> {
    if k in rows then rows[k := rows[k].(active := false)] else rows
  }

  datatype Event = Event(writer: nat, action: Action)

  /** The state after a run, if every step of it was possible. */
  function After(s: State, run: seq<Event>): Option<State> {
    if run == [] then Some(s)
    else
      match After(s, run[..|run| - 1])
      case None => None
      case Some(mid) =>
        var e := run[|run| - 1];
        if e.writer in mid.pc && e.writer in mid.key && Can(mid, e.writer, e.action)
        then Some(Next(mid, e.writer, e.action))
        else None
  }

  ghost predicate Initial(s: State) {
    && s.pc.Keys == s.key.Keys && (forall w :: w in s.pc ==> s.pc[w].Start?)
    && s.locks == map[] && s.guard.None? && s.held == map[] && s.last == map[]
  }

  // ------------------------------------------------------------------
  // One lock per page, one writer per lock.

  predicate HoldsGuard(pc: Pc) { pc.AtGuard? || pc.Found? }

  ghost predicate GuardInv(s: State) {
    && s.pc.Keys == s.key.Keys
    && forall w :: w in s.pc ==> (HoldsGuard(s.pc[w]) <==> s.guard == Some(w))
  }

  /** The lock objects of different pages are different, and all were made before. */
  ghost predicate Separate(locks: map<string, nat>, made: nat) {
    && (forall k :: k in locks ==> locks[k] < made)
    && (forall k, l :: k in locks && l in locks && k != l ==> locks[k] != locks[l])
  }

  ghost predicate LockTable(s: State) { Separate(s.locks, s.made) }

  /** The module's dictionary of locks. */
  class WriteLocks {
    var locks: map<string, nat>
    var made: nat

    constructor ()
      ensures locks == map[] && made == 0
    {
      locks, made := map[], 0;
    }

    /** Looks the page's lock up, making it if need be. */
    method Acquire(key: string) returns (lock: nat)
      requires Separate(locks, made)
      modifies this
      ensures Separate(locks, made) && key in locks && lock == locks[key]
      ensures key in old(locks) ==> locks == old(locks) && made == old(made)
      ensures key !in old(locks) ==> locks == old(locks)[key := old(made)] && made == old(made) + 1
    {
      if key !in locks {
        locks := locks[key := made];
        made := made + 1;
      }
      lock := locks[key];
    }
  }

  /** The two steps under the guard are that method: same table, same lock. */
  lemma GuardedStepsAcquire(s: State, w: nat)
    requires GuardInv(s) && w in s.pc && s.pc[w].AtGuard?
    ensures Can(s, w, LookUp) && Can(Next(s, w, LookUp), w, Settle)
    ensures var t := Next(Next(s, w, LookUp), w, Settle); var k := s.key[w];
            && t.locks == (if k in s.locks then s.locks else s.locks[k := s.made])
            && t.made == (if k in s.locks then s.made else s.made + 1)
            && t.pc[w] == Waiting(t.locks[k]) && t.guard.None?
  {
  }

  predicate Lock(s: State, w: nat, l: nat)
    requires w in s.key
  {
    s.key[w] in s.locks && s.locks[s.key[w]] == l
  }

  /** Whatever lock a writer has looked up, waits for or holds is the lock of its page. */
  ghost predicate LockMatches(s: State, w: nat)
    requires w in s.pc && w in s.key
  {
    var pc := s.pc[w];
    && (pc.Found? && pc.seen.None? ==> s.key[w] !in s.locks)
    && (pc.Found? && pc.seen.Some? ==> Lock(s, w, pc.seen.value))
    && (pc.Waiting? || pc.Inside? ==> Lock(s, w, pc.lock))
  }

  ghost predicate LocksMatch(s: State)
    requires s.pc.Keys == s.key.Keys
  {
    forall w :: w in s.pc ==> LockMatches(s, w)
  }

  ghost predicate HeldInv(s: State) {
    && (forall w :: w in s.pc && s.pc[w].Inside? ==> s.pc[w].lock in s.held && s.held[s.pc[w].lock] == w)
    && forall l :: l in s.held ==> s.held[l] in s.pc && s.pc[s.held[l]].Inside? && s.pc[s.held[l]].lock == l
  }

  ghost predicate LockInv(s: State) { GuardInv(s) && LockTable(s) && LocksMatch(s) && HeldInv(s) }

  lemma GuardKept(s: State, w: nat, a: Action)
    requires GuardInv(s) && w in s.pc && Can(s, w, a)
    ensures GuardInv(Next(s, w, a))
  {
  }

  lemma LockTableKept(s: State, w: nat, a: Action)
    requires GuardInv(s) && LockTable(s) && w in s.pc && Can(s, w, a)
    ensures LockTable(Next(s, w, a))
  {
  }

  /** The guard is what keeps two writers from making two locks for one page. */
  lemma LocksMatchKept(s: State, w: nat, a: Action)
    requires GuardInv(s) && LocksMatch(s) && w in s.pc && Can(s, w, a)
    ensures GuardInv(Next(s, w, a)) && LocksMatch(Next(s, w, a))
  {
    GuardKept(s, w, a);
  }

  lemma HeldKept(s: State, w: nat, a: Action)
    requires GuardInv(s) && HeldInv(s) && w in s.pc && Can(s, w, a)
    ensures HeldInv(Next(s, w, a))
  {
  }

  lemma LockInvKept(s: State, w: nat, a: Action)
    requires LockInv(s) && w in s.pc && Can(s, w, a)
    ensures LockInv(Next(s, w, a))
  {
    GuardKept(s, w, a);
    LockTableKept(s, w, a);
    LocksMatchKept(s, w, a);
    HeldKept(s, w, a);
  }

  /** Two writers of one page wait for one lock object and are never inside together. */
  lemma MutualExclusion(s: State, v: nat, w: nat)
    requires LockInv(s) && v in s.pc && w in s.pc && s.key[v] == s.key[w]
    ensures s.pc[v].Inside? && s.pc[w].Inside? ==> v == w
    ensures (s.pc[v].Waiting? || s.pc[v].Inside?) && (s.pc[w].Waiting? || s.pc[w].Inside?) ==>
            s.pc[v].lock == s.pc[w].lock
  {
    assert LockMatches(s, v) && LockMatches(s, w);
  }

  // ------------------------------------------------------------------
  // What a writer inside sees.

  ghost predicate StageOk(s: State, w: nat, stage: Stage)
    requires w in s.key
  {
    var k := s.key[w];
    && (k in s.last && s.last[k] == w)
    && (stage.Filed? || stage.Half? || stage.Landed? ==> k in s.files && s.files[k] == w)
    && (stage.Half? || stage.Landed? ==> k in s.rows && s.rows[k] == Row(true, Some(w)))
    && (stage.Observed? || stage.Filed? ==> (stage.created <==> !Active(s, k)))
    && (stage.Broke? ==> !Active(s, k))
  }

  /** From entry to its own commit a writer's page does not change under it, so its `created`
      flag says whether the row was absent or inactive when it entered. */
  ghost predicate StagesOk(s: State)
    requires GuardInv(s)
  {
    forall w :: w in s.pc && s.pc[w].Inside? ==> StageOk(s, w, s.pc[w].stage)
  }

  /** A step of `w` leaves every other page, and everyone else on it, alone. */
  lemma OtherPagesKept(s: State, w: nat, a: Action, k: string)
    requires GuardInv(s) && w in s.pc && Can(s, w, a) && k != s.key[w]
    ensures var t := Next(s, w, a);
            && (k in t.rows <==> k in s.rows) && (k in s.rows ==> t.rows[k] == s.rows[k])
            && (k in t.files <==> k in s.files) && (k in s.files ==> t.files[k] == s.files[k])
            && (k in t.last <==> k in s.last) && (k in s.last ==> t.last[k] == s.last[k])
  {
  }

  lemma OthersKept(s: State, w: nat, a: Action, v: nat)
    requires GuardInv(s) && w in s.pc && Can(s, w, a) && v in s.pc && v != w
    ensures v in Next(s, w, a).pc && Next(s, w, a).pc[v] == s.pc[v] && Next(s, w, a).key == s.key
  {
  }

  /** While someone is inside a page, only that writer's steps change the page. */
  lemma OnlyTheHolderWrites(s: State, w: nat, a: Action, v: nat)
    requires LockInv(s) && w in s.pc && Can(s, w, a) && v in s.pc && v != w && s.pc[v].Inside? && s.key[v] == s.key[w]
    ensures var t := Next(s, w, a); t.rows == s.rows && t.files == s.files && t.last == s.last
  {
    MutualExclusion(s, v, w);
    assert LockMatches(s, v) && LockMatches(s, w);
  }

  lemma OwnStage(s: State, w: nat, a: Action)
    requires LockInv(s) && StagesOk(s) && w in s.pc && Can(s, w, a)
    ensures var t := Next(s, w, a); t.pc[w].Inside? ==> StageOk(t, w, t.pc[w].stage)
  {
    if s.pc[w].Inside? { assert StageOk(s, w, s.pc[w].stage); }
  }

  lemma StagesKept(s: State, w: nat, a: Action)
    requires LockInv(s) && StagesOk(s) && w in s.pc && Can(s, w, a)
    ensures GuardInv(Next(s, w, a)) && StagesOk(Next(s, w, a))
  {
    GuardKept(s, w, a);
    var t := Next(s, w, a);
    forall v | v in t.pc && t.pc[v].Inside? ensures StageOk(t, v, t.pc[v].stage) {
      if v == w {
        OwnStage(s, w, a);
      } else {
        OthersKept(s, w, a, v);
        assert StageOk(s, v, s.pc[v].stage);
        if s.key[v] == s.key[w] { OnlyTheHolderWrites(s, w, a, v); } else { OtherPagesKept(s, w, a, s.key[v]); }
      }
    }
  }

  // ------------------------------------------------------------------
  // What the last writer leaves.

  ghost predicate LastKnown(s: State)
    requires GuardInv(s)
  {
    forall k :: k in s.last ==>
      var w := s.last[k];
      w in s.pc && s.key[w] == k && (s.pc[w].Inside? || s.pc[w].Done? || s.pc[w].Failed?)
  }

  /** Row and file of the page are this writer's. */
  predicate Owns(s: State, w: nat)
    requires w in s.key
  {
    var k := s.key[w];
    k in s.rows && s.rows[k] == Row(true, Some(w)) && k in s.files && s.files[k] == w
  }

  /** A page whose last lock holder finished has that writer's row and file. */
  ghost predicate LastWins(s: State)
    requires GuardInv(s)
  {
    forall w :: w in s.pc && s.pc[w].Done? && s.key[w] in s.last && s.last[s.key[w]] == w ==> Owns(s, w)
  }

  lemma LastKnownKept(s: State, w: nat, a: Action)
    requires GuardInv(s) && LastKnown(s) && w in s.pc && Can(s, w, a)
    ensures GuardInv(Next(s, w, a)) && LastKnown(Next(s, w, a))
  {
    GuardKept(s, w, a);
  }

  lemma LastWinsKept(s: State, w: nat, a: Action)
    requires LockInv(s) && StagesOk(s) && LastWins(s) && w in s.pc && Can(s, w, a)
    ensures GuardInv(Next(s, w, a)) && LastWins(Next(s, w, a))
  {
    GuardKept(s, w, a);
    var t := Next(s, w, a);
    if s.pc[w].Inside? { assert StageOk(s, w, s.pc[w].stage); }
    forall v | v in t.pc && t.pc[v].Done? && t.key[v] in t.last && t.last[t.key[v]] == v ensures Owns(t, v) {
      if v != w {
        OthersKept(s, w, a, v);
        if s.key[v] != s.key[w] { OtherPagesKept(s, w, a, s.key[v]); }
      }
    }
  }

  // ------------------------------------------------------------------
  // How often a page is created.

  ghost function Creators(s: State, k: string): set<nat> {
    set w | w in s.pc && w in s.key && s.key[w] == k && Claims(s.pc[w])
  }

  predicate HasFailed(pc: Pc) { pc.Failed? || (pc.Inside? && pc.stage.Broke?) }

  ghost function Failures(s: State, k: string): set<nat> {
    set w | w in s.pc && w in s.key && s.key[w] == k && HasFailed(s.pc[w])
  }

  /** A writer inside has claimed the page and not committed its row yet. */
  predicate Claiming(pc: Pc) { pc.Inside? && (pc.stage.Observed? || pc.stage.Filed?) && pc.stage.created }

  ghost predicate Free(s: State, k: string) {
    !Active(s, k) && forall w :: w in s.pc && w in s.key && s.key[w] == k ==> !Claiming(s.pc[w])
  }

  /** Each claim beyond the first of an inactive page is paid for by a failure. */
  ghost predicate ClaimsPaid(s: State, k: string, activeAtFirst: bool) {
    |Creators(s, k)| + (if Free(s, k) then 1 else 0) <= |Failures(s, k)| + (if activeAtFirst then 0 else 1)
  }

  lemma CreatorsStep(s: State, w: nat, a: Action, k: string)
    requires GuardInv(s) && w in s.pc && Can(s, w, a)
    ensures Creators(Next(s, w, a), k) ==
            Creators(s, k) + if a.Observe? && s.key[w] == k && !Active(s, k) then {w} else {}
    ensures a.Observe? ==> w !in Creators(s, k)
  {
    var t := Next(s, w, a);
    forall v | v in s.pc && v != w ensures t.pc[v] == s.pc[v] { OthersKept(s, w, a, v); }
  }

  lemma FailuresStep(s: State, w: nat, a: Action, k: string)
    requires GuardInv(s) && w in s.pc && Can(s, w, a)
    ensures Failures(Next(s, w, a), k) == Failures(s, k) + if (a.Break? || a.Abandon?) && s.key[w] == k then {w} else {}
    ensures a.Break? || a.Abandon? ==> w !in Failures(s, k)
  {
    var t := Next(s, w, a);
    forall v | v in s.pc && v != w ensures t.pc[v] == s.pc[v] { OthersKept(s, w, a, v); }
  }

  /** Only a failure frees a page. */
  lemma FreeStep(s: State, w: nat, a: Action, k: string)
    requires GuardInv(s) && w in s.pc && Can(s, w, a) && Free(Next(s, w, a), k)
    ensures Free(s, k) || ((a.Break? || a.Abandon?) && s.key[w] == k)
  {
    var t := Next(s, w, a);
    forall v | v in s.pc && v != w ensures t.pc[v] == s.pc[v] { OthersKept(s, w, a, v); }
    if s.key[w] != k { OtherPagesKept(s, w, a, k); }
  }

  /** A claim is made on a free page, which it takes. */
  lemma ClaimTakes(s: State, w: nat, k: string)
    requires LockInv(s) && w in s.pc && Can(s, w, Observe) && s.key[w] == k && !Active(s, k)
    ensures Free(s, k) && !Free(Next(s, w, Observe), k)
  {
    forall v | v in s.pc && s.key[v] == k ensures !Claiming(s.pc[v]) {
      if s.pc[v].Inside? { MutualExclusion(s, v, w); }
    }
    assert Claiming(Next(s, w, Observe).pc[w]);
  }

  lemma ClaimsPaidKept(s: State, w: nat, a: Action, k: string, activeAtFirst: bool)
    requires LockInv(s) && w in s.pc && Can(s, w, a) && ClaimsPaid(s, k, activeAtFirst)
    ensures ClaimsPaid(Next(s, w, a), k, activeAtFirst)
  {
    var t := Next(s, w, a);
    CreatorsStep(s, w, a, k);
    FailuresStep(s, w, a, k);
    if a.Observe? && s.key[w] == k && !Active(s, k) { ClaimTakes(s, w, k); }
    if Free(t, k) { FreeStep(s, w, a, k); }
  }

  predicate PastEntry(pc: Pc) { (pc.Inside? && !pc.stage.Entered?) || pc.Done? }

  /** Once a page that was inactive is active, or a writer has looked at it, it has a creator. */
  ghost predicate HasCreator(s: State, k: string) {
    (Active(s, k) || exists w :: w in s.pc && w in s.key && s.key[w] == k && PastEntry(s.pc[w])) ==>
      Creators(s, k) != {}
  }

  lemma HasCreatorKept(s: State, w: nat, a: Action, k: string)
    requires GuardInv(s) && w in s.pc && Can(s, w, a) && HasCreator(s, k)
    ensures HasCreator(Next(s, w, a), k)
  {
    var t := Next(s, w, a);
    CreatorsStep(s, w, a, k);
    forall v | v in s.pc && v != w ensures t.pc[v] == s.pc[v] { OthersKept(s, w, a, v); }
    if s.key[w] != k { OtherPagesKept(s, w, a, k); }
    if s.key[w] == k && (a.WriteFile? || a.Commit? || a.Land? || a.Break? || a.Leave?) { assert PastEntry(s.pc[w]); }
  }

  /** As long as no writer of the page failed: once one is done the page is active, and
      nobody inside reports to be creating it. */
  ghost predicate ClaimsSettled(s: State, k: string) {
    Failures(s, k) == {} ==>
      forall d :: d in s.pc && d in s.key && s.key[d] == k && s.pc[d].Done? ==> Active(s, k) && NobodyClaims(s, k)
  }

  ghost predicate NobodyClaims(s: State, k: string) {
    forall c :: c in s.pc && c in s.key && s.key[c] == k && s.pc[c].Inside? ==> !Claims(s.pc[c])
  }

  lemma ClaimsSettledKept(s: State, w: nat, a: Action, k: string)
    requires LockInv(s) && StagesOk(s) && w in s.pc && Can(s, w, a) && ClaimsSettled(s, k)
    ensures ClaimsSettled(Next(s, w, a), k)
  {
    var t := Next(s, w, a);
    FailuresStep(s, w, a, k);
    if Failures(t, k) == {} {
      if s.key[w] != k {
        OtherPagesKept(s, w, a, k);
      } else if s.pc[w].Inside? {
        assert StageOk(s, w, s.pc[w].stage);
      }
      forall d | d in t.pc && t.key[d] == k && t.pc[d].Done? ensures Active(t, k) && NobodyClaims(t, k) {
        forall c | c in t.pc && t.key[c] == k && t.pc[c].Inside? ensures !Claims(t.pc[c]) {
          ClaimStep(s, w, a, k, d, c);
        }
      }
    }
  }

  /** The step lets no writer claim beside a done one. */
  lemma ClaimStep(s: State, w: nat, a: Action, k: string, d: nat, c: nat)
    requires LockInv(s) && w in s.pc && Can(s, w, a) && ClaimsSettled(s, k) && Failures(s, k) == {}
    requires var t := Next(s, w, a);
             d in t.pc && c in t.pc && s.key[d] == s.key[c] == k && t.pc[d].Done? && t.pc[c].Inside?
    ensures !Claims(Next(s, w, a).pc[c])
  {
    if d != w {
      OthersKept(s, w, a, d);
      assert NobodyClaims(s, k);
    } else {
      OthersKept(s, w, a, c);
      MutualExclusion(s, c, w);
    }
    if c != w { OthersKept(s, w, a, c); }
  }

  // ------------------------------------------------------------------
  // Over every run.

  ghost predicate Good(s: State) { LockInv(s) && StagesOk(s) && LastKnown(s) && LastWins(s) }

  lemma {:induction false} EveryRunIsGood(s0: State, run: seq<Event>)
    requires Initial(s0) && After(s0, run).Some?
    ensures Good(After(s0, run).value)
  {
    if run != [] {
      var n := |run| - 1;
      EveryRunIsGood(s0, run[..n]);
      var s := After(s0, run[..n]).value;
      var e := run[n];
      LockInvKept(s, e.writer, e.action);
      StagesKept(s, e.writer, e.action);
      LastKnownKept(s, e.writer, e.action);
      LastWinsKept(s, e.writer, e.action);
    }
  }

  lemma {:induction false} EveryRunPays(s0: State, run: seq<Event>, k: string)
    requires Initial(s0) && After(s0, run).Some?
    ensures ClaimsPaid(After(s0, run).value, k, Active(s0, k))
    ensures !Active(s0, k) ==> HasCreator(After(s0, run).value, k)
  {
    if run == [] {
      assert Creators(s0, k) == {};
    } else {
      var n := |run| - 1;
      EveryRunPays(s0, run[..n], k);
      EveryRunIsGood(s0, run[..n]);
      var s := After(s0, run[..n]).value;
      var e := run[n];
      ClaimsPaidKept(s, e.writer, e.action, k, Active(s0, k));
      if !Active(s0, k) { HasCreatorKept(s, e.writer, e.action, k); }
    }
  }

  /** Writers of one page share one lock and are never inside together, in any interleaving. */
  lemma WritersNeverOverlap(s0: State, run: seq<Event>, v: nat, w: nat)
    requires Initial(s0) && After(s0, run).Some?
    ensures var s := After(s0, run).value;
            v in s.pc && w in s.pc && v in s.key && w in s.key && s.key[v] == s.key[w] ==>
              && (s.pc[v].Inside? && s.pc[w].Inside? ==> v == w)
              && ((s.pc[v].Waiting? || s.pc[v].Inside?) && (s.pc[w].Waiting? || s.pc[w].Inside?) ==>
                  s.pc[v].lock == s.pc[w].lock)
  {
    EveryRunIsGood(s0, run);
    var s := After(s0, run).value;
    if v in s.pc && w in s.pc && s.key[v] == s.key[w] { MutualExclusion(s, v, w); }
  }

  /** While a writer is inside, nobody else's steps touch its page. */
  lemma {:induction false} PageIsFrozen(s: State, run: seq<Event>, w: nat)
    requires LockInv(s) && w in s.pc && s.pc[w].Inside? && After(s, run).Some?
    requires forall i :: 0 <= i < |run| ==> run[i].writer != w
    ensures var t := After(s, run).value; var k := s.key[w];
            && LockInv(t) && w in t.pc && t.pc[w] == s.pc[w] && t.key == s.key
            && (Active(t, k) <==> Active(s, k)) && (k in t.files <==> k in s.files) &&
                (k in s.files ==> t.files[k] == s.files[k])
  {
    if run != [] {
      var n := |run| - 1;
      PageIsFrozen(s, run[..n], w);
      var mid := After(s, run[..n]).value;
      var e := run[n];
      LockInvKept(mid, e.writer, e.action);
      OthersKept(mid, e.writer, e.action, w);
      if mid.key[e.writer] == s.key[w] {
        OnlyTheHolderWrites(mid, e.writer, e.action, w);
      } else {
        OtherPagesKept(mid, e.writer, e.action, s.key[w]);
      }
    }
  }

  /** `created` tells whether the row was absent or inactive when the writer got its lock,
      whatever the others did before it looked. */
  lemma CreatedTellsTheRowAtEntry(s: State, w: nat, run: seq<Event>)
    requires LockInv(s) && w in s.pc && Can(s, w, Enter) && After(Next(s, w, Enter), run).Some?
    requires forall i :: 0 <= i < |run| ==> run[i].writer != w
    ensures var t := After(Next(s, w, Enter), run).value;
            && w in t.pc && w in t.key && Can(t, w, Observe)
            && (Claims(Next(t, w, Observe).pc[w]) <==> !Active(s, s.key[w]))
  {
    LockInvKept(s, w, Enter);
    PageIsFrozen(Next(s, w, Enter), run, w);
  }

  /** When the last writer to enter has finished, row and file are both that writer's. */
  lemma LastHolderWins(s0: State, run: seq<Event>, w: nat)
    requires Initial(s0) && After(s0, run).Some?
    ensures var s := After(s0, run).value;
            w in s.pc && w in s.key && s.key[w] in s.last && s.last[s.key[w]] == w && s.pc[w].Done? ==> Owns(s, w)
  {
    EveryRunIsGood(s0, run);
  }

  lemma {:induction false} EveryRunSettles(s0: State, run: seq<Event>, k: string)
    requires Initial(s0) && After(s0, run).Some?
    ensures ClaimsSettled(After(s0, run).value, k)
  {
    if run != [] {
      var n := |run| - 1;
      EveryRunSettles(s0, run[..n], k);
      EveryRunIsGood(s0, run[..n]);
      ClaimsSettledKept(After(s0, run[..n]).value, run[n].writer, run[n].action, k);
    }
  }

  /** From an inactive start, and with no failed writer: as soon as one writer is done,
      exactly one has reported having created the page, and that one is done. */
  lemma CreatedExactlyOnce(s0: State, run: seq<Event>, k: string, d: nat) returns (creator: nat)
    requires Initial(s0) && After(s0, run).Some? && !Active(s0, k)
    requires var s := After(s0, run).value;
             Failures(s, k) == {} && d in s.pc && d in s.key && s.key[d] == k && s.pc[d].Done?
    ensures var s := After(s0, run).value;
            creator in s.pc && s.pc[creator] == Done(true) && Creators(s, k) == {creator}
  {
    EveryRunPays(s0, run, k);
    EveryRunSettles(s0, run, k);
    var s := After(s0, run).value;
    assert PastEntry(s.pc[d]) && Creators(s, k) != {};
    creator :| creator in Creators(s, k);
    assert NobodyClaims(s, k) && creator !in Failures(s, k);
    OnlyMember(Creators(s, k), creator);
  }

  lemma OnlyMember(xs: set<nat>, x: nat)
    requires x in xs && |xs| <= 1
    ensures xs == {x}
  {
    assert |xs - {x}| == |xs| - 1;
  }

  /** Before any writer is done there is at most one claim, as long as none failed. */
  lemma AtMostOneClaims(s0: State, run: seq<Event>, k: string)
    requires Initial(s0) && After(s0, run).Some? && !Active(s0, k)
    ensures Failures(After(s0, run).value, k) == {} ==> |Creators(After(s0, run).value, k)| <= 1
  {
    EveryRunPays(s0, run, k);
  }
}
