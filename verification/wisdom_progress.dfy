/** Concurrent wisdom writes get done: the steps each writer takes, that some writer can always
    go on, and which rows are left active. */
module WisdomProgress {
  import opened Options
  import opened WisdomLocks

  /** What writer `w` did in the run. */
  function TakenBy(run: seq<Event>, w: nat): seq<Action> {
    if run == [] then []
    else
      var e := run[|run| - 1];
      TakenBy(run[..|run| - 1], w) + if e.writer == w then [e.action] else []
  }

  const PATH: seq<Action> := [TakeGuard, LookUp, Settle, Enter, Observe, WriteFile, Commit, Land, Leave]

  /** How many steps of the path bring a writer where it is; what broke or failed has left it. */
  function StepsTo(pc: Pc): Option<nat> {
    match pc
    case Start => Some(0)
    case AtGuard => Some(1)
    case Found(_) => Some(2)
    case Waiting(_) => Some(3)
    case Inside(_, Entered) => Some(4)
    case Inside(_, Observed(_)) => Some(5)
    case Inside(_, Filed(_)) => Some(6)
    case Inside(_, Half(_)) => Some(7)
    case Inside(_, Landed(_)) => Some(8)
    case Done(_) => Some(9)
    case _ => None
  }

  ghost predicate OnPath(pc: Pc, taken: seq<Action>) {
    match StepsTo(pc)
    case Some(n) => n <= 9 && taken == PATH[..n]
    case None =>
      if pc.Inside? then taken == PATH[..6] + [Break] || taken == PATH[..7] + [Break]
      else pc.Failed? && |taken| <= 9
  }

  lemma StepKeepsPath(s: State, w: nat, a: Action, taken: seq<Action>)
    requires w in s.pc && w in s.key && Can(s, w, a) && OnPath(s.pc[w], taken)
    ensures OnPath(NextPc(s, w, a), taken + [a])
  {
    if !(a.Break? || a.Abandon? || (s.pc[w].Inside? && s.pc[w].stage.Broke?)) {
      var n := StepsTo(s.pc[w]).value;
      assert a == PATH[n] && PATH[..n + 1] == PATH[..n] + [a];
    }
  }

  /** Each writer takes the steps of the path in order, and none twice: a writer that is done
      has taken all nine, and none takes more. */
  lemma {:induction false} StepsInOrder(s0: State, run: seq<Event>, w: nat)
    requires Initial(s0) && After(s0, run).Some? && w in s0.pc
    ensures w in After(s0, run).value.pc && OnPath(After(s0, run).value.pc[w], TakenBy(run, w))
    ensures |TakenBy(run, w)| <= 9
    ensures After(s0, run).value.pc[w].Done? ==> TakenBy(run, w) == PATH
  {
    if run != [] {
      var n := |run| - 1;
      StepsInOrder(s0, run[..n], w);
      var s, e := After(s0, run[..n]).value, run[n];
      if e.writer == w {
        StepKeepsPath(s, w, e.action, TakenBy(run[..n], w));
      } else {
        EveryRunIsGood(s0, run[..n]);
        OthersKept(s, e.writer, e.action, w);
      }
    }
    assert PATH[..9] == PATH;
  }

  // ------------------------------------------------------------------
  // Nobody is stuck.

  predicate Out(pc: Pc) { pc.Done? || pc.Failed? }

  /** The writer can go on by itself, without a failure. */
  predicate Moves(s: State, w: nat, a: Action)
    requires w in s.pc
  {
    !a.Break? && !a.Abandon? && Can(s, w, a)
  }

  lemma InsideMoves(s: State, w: nat) returns (a: Action)
    requires w in s.pc && s.pc[w].Inside?
    ensures Moves(s, w, a)
  {
    match s.pc[w].stage
    case Entered => a := Observe;
    case Observed(_) => a := WriteFile;
    case Filed(_) => a := Commit;
    case Half(_) => a := Land;
    case Landed(_) => a := Leave;
    case Broke(_) => a := Leave;
  }

  /** The guard is free or some writer has it. */
  ghost predicate GuardIsHeld(s: State) { s.guard.Some? ==> s.guard.value in s.pc }

  /** As long as a writer is not out, somebody can take a step that is no failure: locks and
      guard never wait for each other. */
  lemma SomebodyMoves(s: State, w: nat) returns (v: nat, a: Action)
    requires LockInv(s) && GuardIsHeld(s) && w in s.pc && !Out(s.pc[w])
    ensures v in s.pc && Moves(s, v, a)
  {
    if u :| u in s.pc && s.pc[u].Inside? {
      v := u;
      a := InsideMoves(s, u);
    } else if u :| u in s.pc && HoldsGuard(s.pc[u]) {
      v, a := u, if s.pc[u].AtGuard? then LookUp else Settle;
    } else if s.pc[w].Waiting? {
      v, a := w, Enter;
    } else {
      v, a := w, TakeGuard;
    }
  }

  lemma {:induction false} EveryRunGuards(s0: State, run: seq<Event>)
    requires Initial(s0) && After(s0, run).Some?
    ensures GuardIsHeld(After(s0, run).value)
  {
    if run != [] {
      EveryRunGuards(s0, run[..|run| - 1]);
      EveryRunIsGood(s0, run[..|run| - 1]);
    }
  }

  /** A run that nobody can continue has every writer out: done, or failed. */
  lemma StuckRunsAreOver(s0: State, run: seq<Event>, w: nat)
    requires Initial(s0) && After(s0, run).Some? && w in s0.pc
    ensures var s := After(s0, run).value;
            w in s.pc && ((forall v, a :: v in s.pc ==> !Moves(s, v, a)) ==> Out(s.pc[w]))
  {
    StepsInOrder(s0, run, w);
    EveryRunIsGood(s0, run);
    EveryRunGuards(s0, run);
    var s := After(s0, run).value;
    if !Out(s.pc[w]) { var v, a := SomebodyMoves(s, w); }
  }

  /** A failure can strike a writer anywhere but between its two steps under the guard and in
      the handler of a broken persist.  While the file is written and the row not complete it can
      be the persist's own, and whatever strikes after the row is begun leaves it inactive. */
  lemma FailuresStrikeAnywhere(s: State, w: nat)
    requires GuardInv(s) && w in s.pc && !Out(s.pc[w])
    ensures Can(s, w, Break) || Can(s, w, Abandon) <==> !s.pc[w].Found? && !(s.pc[w].Inside? && s.pc[w].stage.Broke?)
    ensures Can(s, w, Break) <==> s.pc[w].Inside? && (s.pc[w].stage.Filed? || s.pc[w].stage.Half?)
    ensures s.pc[w].Inside? && s.pc[w].stage.Half? ==>
              !Can(s, w, Abandon) && !Active(Next(s, w, Break), s.key[w])
    ensures Can(s, w, Abandon) ==> Next(s, w, Abandon).rows == s.rows && Next(s, w, Abandon).pc[w].Failed?
  {
  }

  // ------------------------------------------------------------------
  // Active rows.

  /** No row from before carries one of these writers. */
  ghost predicate RowsAreOld(s: State) {
    forall k :: k in s.rows && s.rows[k].writer.Some? ==> s.rows[k].writer.value !in s.pc
  }

  /** An active row of a writer of this run is on its page, and that writer has landed, unless
      it is just about to. */
  ghost predicate RowLanded(s: State, run: seq<Event>, w: nat)
    requires w in s.pc && w in s.key
  {
    && (s.pc[w].Inside? && s.pc[w].stage.Landed? ==> Event(w, Land) in run)
    && forall k :: k in s.rows && s.rows[k] == Row(true, Some(w)) ==>
         k == s.key[w] && (Event(w, Land) in run || (s.pc[w].Inside? && s.pc[w].stage.Half?))
  }

  lemma {:induction false} ActiveRowsLanded(s0: State, run: seq<Event>, w: nat)
    requires Initial(s0) && RowsAreOld(s0) && After(s0, run).Some? && w in s0.pc
    ensures var s := After(s0, run).value; w in s.pc && w in s.key && RowLanded(s, run, w)
  {
    if run != [] {
      var n := |run| - 1;
      ActiveRowsLanded(s0, run[..n], w);
      EveryRunIsGood(s0, run[..n]);
      assert run == run[..n] + [run[n]];
      RowLandedKept(After(s0, run[..n]).value, run[..n], run[n], w);
    }
  }

  lemma RowLandedKept(s: State, run: seq<Event>, e: Event, w: nat)
    requires GuardInv(s) && w in s.pc && e.writer in s.pc && Can(s, e.writer, e.action) && RowLanded(s, run, w)
    ensures var t := Next(s, e.writer, e.action); w in t.pc && w in t.key && RowLanded(t, run + [e], w)
  {
  }
}
