/** Files written through a temporary sibling and a rename, and names claimed by exclusive
    creation: any interleaving of writers, claimants and faults on one path. */
module AtomicFiles {
  import opened Options

  datatype File = File(text: string, mode: nat)

  /** The mode of a claimed placeholder, owner read and write. */
  const PLACEHOLDER_MODE := 384

  /** `Unfilled` has opened its temporary file, `Broken` is in the cleanup of a failed write. */
  datatype Pc = WriterStart | Unfilled | Filled | Ready | Broken | Wrote | GaveUp | ClaimStart | Won | Lost

  /** Each caller has a temporary name of its own. */
  datatype State = State(path: Option<File>, temps: map<nat, File>, pc: map<nat, Pc>)

  /** What each writer writes, and the mode new files get. */
  datatype World = World(data: nat -> string, umask: nat)

  /** A write that fails may have put any text into its temporary file; the removal of that
      file may fail as well. */
  datatype Action = Open | Fill | CopyMode | Replace | Fail(partial: string) | Unlink(works: bool) | Claim

  datatype Event = Event(caller: nat, action: Action)

  predicate Can(s: State, w: nat, a: Action)
    requires w in s.pc
  {
    var pc := s.pc[w];
    match a
    case Open => pc.WriterStart?
    case Fill => pc.Unfilled? && w in s.temps
    case CopyMode => pc.Filled? && w in s.temps
    case Replace => pc.Ready? && w in s.temps
    case Fail(_) => pc.WriterStart? || pc.Unfilled? || pc.Filled? || pc.Ready?
    case Unlink(_) => pc.Broken?
    case Claim => pc.ClaimStart?
  }

  function NextPc(s: State, w: nat, a: Action): Pc
    requires w in s.pc && Can(s, w, a)
  {
    match a
    case Open => Unfilled
    case Fill => Filled
    case CopyMode => Ready
    case Replace => Wrote
    case Fail(_) => Broken
    case Unlink(_) => GaveUp
    case Claim => if s.path.None? then Won else Lost
  }

  function NextTemps(world: World, s: State, w: nat, a: Action): map<nat, File>
    requires w in s.pc && Can(s, w, a)
  {
    match a
    case Open => s.temps[w := File("", world.umask)]
    case Fill => s.temps[w := s.temps[w].(text := world.data(w))]
    case CopyMode => if s.path.Some? then s.temps[w := s.temps[w].(mode := s.path.value.mode)] else s.temps
    case Replace => s.temps - {w}
    case Fail(partial) =>
      if s.pc[w].Unfilled? && w in s.temps then s.temps[w := s.temps[w].(text := partial)] else s.temps
    case Unlink(works) => if works then s.temps - {w} else s.temps
    case Claim => s.temps
  }

  function Next(world: World, s: State, w: nat, a: Action): State
    requires w in s.pc && Can(s, w, a)
  {
    State(if a.Replace? then Some(s.temps[w])
          else if a.Claim? && s.path.None? then Some(File("", PLACEHOLDER_MODE))
          else s.path,
          NextTemps(world, s, w, a), s.pc[w := NextPc(s, w, a)])
  }

  function After(world: World, s: State, run: seq<Event>): Option<State> {
    if run == [] then Some(s)
    else
      var e := run[|run| - 1];
      match After(world, s, run[..|run| - 1])
      case None => None
      case Some(mid) =>
        if e.caller in mid.pc && Can(mid, e.caller, e.action) then Some(Next(world, mid, e.caller, e.action)) else None
  }

  // ------------------------------------------------------------------
  // One call, from its first step to its last.

  /** Where a write fails: before a step, with what reached the temporary file, and whether
      the cleanup works. */
  datatype Fault = NoFault | FailsAt(step: nat, partial: string, removed: bool)

  class Directory {
    var state: State

    constructor (state: State)
      ensures this.state == state
    {
      this.state := state;
    }

    /** One system call. */
    method Step(world: World, w: nat, a: Action, ghost was: State, ghost before: seq<Event>)
      requires w in state.pc && Can(state, w, a) && After(world, was, before) == Some(state)
      modifies this
      ensures state == Next(world, old(state), w, a) && After(world, was, before + [Event(w, a)]) == Some(state)
    {
      assert (before + [Event(w, a)])[..|before|] == before;
      state := Next(world, state, w, a);
    }

    /** The cleanup after a failed step. */
    method GiveUp(world: World, w: nat, fault: Fault, ghost was: State, ghost before: seq<Event>)
        returns (ghost run: seq<Event>)
      requires fault.FailsAt? && w in state.pc && Can(state, w, Fail(fault.partial)) &&
               After(world, was, before) == Some(state)
      modifies this
      ensures run == before + [Event(w, Fail(fault.partial))] + [Event(w, Unlink(fault.removed))]
      ensures After(world, was, run) == Some(state)
      ensures state.path == old(state).path && (fault.removed ==> state.temps == old(state).temps - {w})
    {
      Step(world, w, Fail(fault.partial), was, before);
      Step(world, w, Unlink(fault.removed), was, before + [Event(w, Fail(fault.partial))]);
      run := before + [Event(w, Fail(fault.partial))] + [Event(w, Unlink(fault.removed))];
    }

    /** The file a finished write of `w` leaves: its text, and the mode the path had. */
    function Whole(world: World, w: nat): File
      reads this
    {
      File(world.data(w), if state.path.Some? then state.path.value.mode else world.umask)
    }

    ghost predicate Reached(world: World, w: nat, was: State, run: seq<Event>, pc: Pc)
      reads this
    {
      && After(world, was, run) == Some(state) && (forall e :: e in run ==> e.caller == w)
      && w in state.pc && state.pc[w] == pc && state.path == was.path
    }

    method OpenTemp(world: World, w: nat, ghost was: State) returns (ghost run: seq<Event>)
      requires was == state && w in state.pc && state.pc[w].WriterStart?
      modifies this
      ensures Reached(world, w, was, run, Unfilled) && state.temps == was.temps[w := File("", world.umask)]
    {
      Step(world, w, Open, was, []);
      run := [] + [Event(w, Open)];
    }

    method FillTemp(world: World, w: nat, ghost was: State, ghost before: seq<Event>) returns (ghost run: seq<Event>)
      requires Reached(world, w, was, before, Unfilled) && w in state.temps
      modifies this
      ensures Reached(world, w, was, run, Filled)
      ensures state.temps == old(state).temps[w := File(world.data(w), old(state).temps[w].mode)]
    {
      Step(world, w, Fill, was, before);
      run := before + [Event(w, Fill)];
    }

    method ChmodTemp(world: World, w: nat, ghost was: State, ghost before: seq<Event>) returns (ghost run: seq<Event>)
      requires Reached(world, w, was, before, Filled) && w in state.temps
      modifies this
      ensures Reached(world, w, was, run, Ready)
      ensures var f := old(state).temps[w];
              state.temps == old(state).temps[w := File(f.text, if was.path.Some? then was.path.value.mode else f.mode)]
    {
      Step(world, w, CopyMode, was, before);
      run := before + [Event(w, CopyMode)];
    }

    /** The temporary file, filled and with the path's mode. */
    method PrepareTemp(world: World, w: nat, fault: Fault) returns (ok: bool, ghost run: seq<Event>)
      requires w in state.pc && state.pc[w].WriterStart? && w !in state.temps
      modifies this
      ensures After(world, old(state), run) == Some(state) && forall e :: e in run ==> e.caller == w
      ensures ok <==> !(fault.FailsAt? && fault.step < 3)
      ensures state.path == old(state).path
      ensures ok ==> w in state.pc && state.pc[w].Ready? && state.temps == old(state).temps[w := old(Whole(world, w))]
      ensures !ok && fault.removed ==> state.temps == old(state).temps
    {
      ghost var was := state;
      run := [];
      if fault.FailsAt? && fault.step == 0 { run := GiveUp(world, w, fault, was, run); return false, run; }
      run := OpenTemp(world, w, was);
      if fault.FailsAt? && fault.step == 1 { run := GiveUp(world, w, fault, was, run); return false, run; }
      run := FillTemp(world, w, was, run);
      if fault.FailsAt? && fault.step == 2 { run := GiveUp(world, w, fault, was, run); return false, run; }
      run := ChmodTemp(world, w, was, run);
      ok := true;
    }

    /** The whole call, a run of its caller's own steps. On success the path has the writer's
        text, and its old mode if it existed; on failure the path is as it was; either way
        the temporary file is gone unless its removal failed. */
    method AtomicWriteText(world: World, w: nat, fault: Fault) returns (ok: bool, ghost run: seq<Event>)
      requires w in state.pc && state.pc[w].WriterStart? && w !in state.temps
      modifies this
      ensures After(world, old(state), run) == Some(state) && forall e :: e in run ==> e.caller == w
      ensures ok <==> !(fault.FailsAt? && fault.step < 4)
      ensures state.path == if ok then Some(old(Whole(world, w))) else old(state).path
      ensures ok || fault.removed ==> state.temps == old(state).temps
    {
      ghost var was := state;
      ok, run := PrepareTemp(world, w, fault);
      if !ok { return; }
      if fault.FailsAt? && fault.step == 3 { run := GiveUp(world, w, fault, was, run); return false, run; }
      Step(world, w, Replace, was, run);
      run := run + [Event(w, Replace)];
    }

    /** Claims the name iff it is free. */
    method ReservePath(world: World, w: nat) returns (won: bool)
      requires w in state.pc && state.pc[w].ClaimStart?
      modifies this
      ensures After(world, old(state), [Event(w, Claim)]) == Some(state)
      ensures won <==> old(state).path.None?
      ensures state.path == if won then Some(File("", PLACEHOLDER_MODE)) else old(state).path
    {
      won := state.path.None?;
      assert [] + [Event(w, Claim)] == [Event(w, Claim)];
      Step(world, w, Claim, state, []);
    }
  }

  ghost predicate Initial(s: State) {
    s.temps == map[] && forall w :: w in s.pc ==> s.pc[w].WriterStart? || s.pc[w].ClaimStart?
  }

  // ------------------------------------------------------------------
  // The path as an atomic register.

  /** The text of a register to which each rename writes a whole text and each claim writes
      an empty one if the register has none. */
  function Register(world: World, at: Option<string>, run: seq<Event>): Option<string> {
    if run == [] then at
    else
      var before := Register(world, at, run[..|run| - 1]);
      var e := run[|run| - 1];
      match e.action
      case Replace => Some(world.data(e.caller))
      case Claim => if before.None? then Some("") else before
      case _ => before
  }

  function Text(f: Option<File>): Option<string> { if f.Some? then Some(f.value.text) else None }

  /** What a writer about to rename has in its temporary file is its whole text. */
  ghost predicate TempsWhole(world: World, s: State) {
    forall w :: w in s.pc && (s.pc[w].Filled? || s.pc[w].Ready?) ==> w in s.temps && s.temps[w].text == world.data(w)
  }

  /** No temporary file outlives its writer, except where its removal failed. */
  ghost predicate TempsOwned(s: State) {
    forall w :: w in s.temps ==>
      w in s.pc && (s.pc[w].Unfilled? || s.pc[w].Filled? || s.pc[w].Ready? || s.pc[w].Broken? || s.pc[w].GaveUp?)
  }

  lemma TempsWholeKept(world: World, s: State, w: nat, a: Action)
    requires TempsWhole(world, s) && w in s.pc && Can(s, w, a)
    ensures TempsWhole(world, Next(world, s, w, a))
  {
  }

  lemma TempsOwnedKept(world: World, s: State, w: nat, a: Action)
    requires TempsOwned(s) && w in s.pc && Can(s, w, a)
    ensures TempsOwned(Next(world, s, w, a))
  {
  }

  /** In every interleaving, faults included, the path is an atomic register: a reader finds
      what was there at first, a claimed placeholder, or the whole text of one writer. */
  lemma {:induction false} PathIsARegister(world: World, s: State, run: seq<Event>)
    requires Initial(s) && After(world, s, run).Some?
    ensures var t := After(world, s, run).value;
            Text(t.path) == Register(world, Text(s.path), run) && TempsWhole(world, t) && TempsOwned(t)
  {
    if run != [] {
      var n := |run| - 1;
      PathIsARegister(world, s, run[..n]);
      var mid := After(world, s, run[..n]).value;
      TempsWholeKept(world, mid, run[n].caller, run[n].action);
      TempsOwnedKept(world, mid, run[n].caller, run[n].action);
    }
  }

  /** So the text on the path is the initial one, an empty claim, or one writer's data, and
      that writer finished. */
  lemma {:induction false} ReadersSeeWholeWrites(world: World, s: State, run: seq<Event>)
    requires Initial(s) && After(world, s, run).Some?
    ensures var t := After(world, s, run).value;
            || t.path == s.path
            || (exists w :: w in t.pc && t.pc[w].Wrote? && Text(t.path) == Some(world.data(w)))
            || (s.path.None? && t.path == Some(File("", PLACEHOLDER_MODE)) && exists w :: w in t.pc && t.pc[w].Won?)
  {
    if run != [] {
      var n := |run| - 1;
      ReadersSeeWholeWrites(world, s, run[..n]);
      PathIsARegister(world, s, run[..n]);
      var mid := After(world, s, run[..n]).value;
      var t := After(world, s, run).value;
      var e := run[n];
      if !e.action.Replace? && !(e.action.Claim? && mid.path.None?) {
        if w :| w in mid.pc && mid.pc[w].Wrote? && Text(mid.path) == Some(world.data(w)) { assert t.pc[w].Wrote?; }
        if w :| w in mid.pc && mid.pc[w].Won? { assert t.pc[w].Won?; }
      } else {
        assert e.caller in t.pc;
      }
    }
  }

  /** A writer that fails leaves the path as it was: only renames and winning claims touch it. */
  lemma {:induction false} FailuresLeaveThePath(world: World, s: State, run: seq<Event>)
    requires After(world, s, run).Some? && s.path.Some?
    requires forall i :: 0 <= i < |run| ==> !run[i].action.Replace?
    ensures After(world, s, run).value.path == s.path
  {
    if run != [] { FailuresLeaveThePath(world, s, run[..|run| - 1]); }
  }

  /** An existing file keeps its mode through any number of rewrites. */
  ghost predicate ModesCopied(s: State, mode: nat) {
    s.path.Some? && s.path.value.mode == mode && forall w :: w in s.pc && s.pc[w].Ready? && w in s.temps ==>
      s.temps[w].mode == mode
  }

  lemma {:induction false} ModeSurvives(world: World, s: State, run: seq<Event>)
    requires Initial(s) && s.path.Some? && After(world, s, run).Some?
    ensures ModesCopied(After(world, s, run).value, s.path.value.mode)
  {
    if run != [] { ModeSurvives(world, s, run[..|run| - 1]); }
  }

  // ------------------------------------------------------------------
  // Claims.

  ghost function Winners(s: State): set<nat> { set w | w in s.pc && s.pc[w].Won? }

  ghost function Losers(s: State): set<nat> { set w | w in s.pc && s.pc[w].Lost? }

  predicate Replaces(run: seq<Event>) { exists i :: 0 <= i < |run| && run[i].action.Replace? }

  lemma WinnersStep(world: World, s: State, w: nat, a: Action)
    requires w in s.pc && Can(s, w, a)
    ensures Winners(Next(world, s, w, a)) == Winners(s) + (if a.Claim? && s.path.None? then {w} else {})
    ensures Losers(Next(world, s, w, a)) == Losers(s) + (if a.Claim? && s.path.Some? then {w} else {})
    ensures a.Claim? ==> w !in Winners(s)
  {
    var t := Next(world, s, w, a);
    assert forall v :: v in s.pc && v != w ==> t.pc[v] == s.pc[v];
  }

  /** At most one claimant of a name wins, and none wins a name that is taken. Where no
      rename got there first, a claimant that lost an absent name lost it to a winner. */
  lemma {:induction false} OneClaimWins(world: World, s: State, run: seq<Event>)
    requires Initial(s) && After(world, s, run).Some?
    ensures var t := After(world, s, run).value;
            && |Winners(t)| <= (if s.path.None? then 1 else 0)
            && (t.path.None? ==> Winners(t) == {} && Losers(t) == {})
            && (s.path.None? && !Replaces(run) && t.path.Some? ==> |Winners(t)| == 1)
            && (s.path.Some? ==> t.path.Some?)
  {
    if run == [] {
      assert Winners(s) == {} && Losers(s) == {};
    } else {
      var n := |run| - 1;
      OneClaimWins(world, s, run[..n]);
      var mid := After(world, s, run[..n]).value;
      WinnersStep(world, mid, run[n].caller, run[n].action);
      assert Replaces(run[..n]) ==> Replaces(run);
      if run[n].action.Replace? { assert Replaces(run); }
    }
  }

  /** Racing claimants of an absent name, with nobody renaming onto it: once all have
      returned, exactly one returned true. */
  lemma ExactlyOneClaimant(world: World, s: State, run: seq<Event>, w: nat)
    requires Initial(s) && After(world, s, run).Some? && s.path.None? && !Replaces(run)
    requires var t := After(world, s, run).value; w in t.pc && (t.pc[w].Won? || t.pc[w].Lost?)
    ensures |Winners(After(world, s, run).value)| == 1
  {
    OneClaimWins(world, s, run);
    var t := After(world, s, run).value;
    assert w in Winners(t) || w in Losers(t);
  }
}
