/**
  The second pass of vCont: which live threads a valid action list sets in motion.  The case for
  "continue" falls through to the case for "step", so a thread that could not be resumed is stepped.
*/
module ContinueThreads {
  import opened Options
  import opened ThreadActions
  import ThreadIds

  type Koid = k: nat | 0 < k < ALL witness 1

  datatype ThreadState = New | InException | Other

  datatype Thread = Thread(id: Koid, state: ThreadState)

  /** A thread that was resumed from its exception, or for one step. */
  datatype Move = Resumed(id: Koid) | Stepped(id: Koid)

  /** Whether the kernel lets a thread resume, and step. */
  datatype Kernel = Kernel(resumes: Koid -> bool, steps: Koid -> bool)

  function MovesOf(t: Thread, action: Option<Action>, k: Kernel): seq<Move> {
    if action == Some(Continue) && !t.state.Other? && k.resumes(t.id) then [Resumed(t.id)]
    else if action.Some? && t.state.InException? && k.steps(t.id) then [Stepped(t.id)]
    else []
  }

  function Moves(threads: seq<Thread>, actions: Parsed, pid: nat, k: Kernel): seq<Move> {
    if threads == [] then []
    else
      var n := |threads| - 1;
      Moves(threads[..n], actions, pid, k) + MovesOf(threads[n], ActionFor(actions, pid, threads[n].id), k)
  }

  method ResumeAll(threads: seq<Thread>, actions: ThreadActionList, pid: Koid, k: Kernel)
    returns (moves: seq<Move>)
    ensures moves == Moves(threads, Parsed(actions.valid, actions.default, actions.actions), pid, k)
  {
    moves := [];
    for i := 0 to |threads|
      invariant moves == Moves(threads[..i], Parsed(actions.valid, actions.default, actions.actions), pid, k)
    {
      var t := threads[i];
      assert threads[..i + 1][..i] == threads[..i];
      var action := actions.GetAction(pid, t.id);
      ghost var before := moves;
      var state := t.state;
      if action == Some(Continue) {
        if !state.Other? && k.resumes(t.id) {
          moves := moves + [Resumed(t.id)];
          state := Other;
        }
      }
      if action == Some(Continue) || action == Some(Step) {
        if state.InException? && k.steps(t.id) { moves := moves + [Stepped(t.id)]; }
      }
      assert action.Some? ==> action.value.Continue? || action.value.Step?;
      assert moves == before + MovesOf(t, action, k);
    }
    assert threads[..|threads|] == threads;
  }

  predicate DistinctIds(threads: seq<Thread>) {
    forall i, j | 0 <= i < j < |threads| :: threads[i].id != threads[j].id
  }

  lemma {:induction false} MovesAre(threads: seq<Thread>, actions: Parsed, pid: nat, k: Kernel, m: Move)
    ensures m in Moves(threads, actions, pid, k) <==>
      exists i | 0 <= i < |threads| :: m in MovesOf(threads[i], ActionFor(actions, pid, threads[i].id), k)
  {
    if threads != [] {
      var n := |threads| - 1;
      MovesAre(threads[..n], actions, pid, k, m);
      if m in Moves(threads[..n], actions, pid, k) {
        var i :| 0 <= i < n && m in MovesOf(threads[..n][i], ActionFor(actions, pid, threads[..n][i].id), k);
        assert threads[..n][i] == threads[i];
      }
      if i :| 0 <= i < |threads| && m in MovesOf(threads[i], ActionFor(actions, pid, threads[i].id), k) {
        if i < n { assert threads[..n][i] == threads[i]; }
      }
    }
  }

  /** No thread is set in motion twice. */
  lemma {:induction false} MovesOnce(threads: seq<Thread>, actions: Parsed, pid: nat, k: Kernel)
    requires DistinctIds(threads)
    ensures var ms := Moves(threads, actions, pid, k);
      forall i, j | 0 <= i < j < |ms| :: ms[i].id != ms[j].id
  {
    if threads != [] {
      var n := |threads| - 1;
      var before := Moves(threads[..n], actions, pid, k);
      assert DistinctIds(threads[..n]);
      MovesOnce(threads[..n], actions, pid, k);
      forall i | 0 <= i < |before| ensures before[i].id != threads[n].id {
        MovesAre(threads[..n], actions, pid, k, before[i]);
        var j :| 0 <= j < n && before[i] in MovesOf(threads[..n][j], ActionFor(actions, pid, threads[..n][j].id), k);
        assert threads[..n][j] == threads[j];
      }
    }
  }

  /** A thread is stepped exactly when it is in an exception, can be stepped, and the list says step,
      or says continue and resuming failed. */
  lemma SteppedIff(threads: seq<Thread>, actions: Parsed, pid: nat, k: Kernel, i: nat)
    requires DistinctIds(threads) && i < |threads|
    ensures var t := threads[i]; var action := ActionFor(actions, pid, t.id);
      Stepped(t.id) in Moves(threads, actions, pid, k) <==>
        t.state.InException? && k.steps(t.id)
        && (action == Some(Step) || (action == Some(Continue) && !k.resumes(t.id)))
  {
    var m, action := Stepped(threads[i].id), ActionFor(actions, pid, threads[i].id);
    assert action.Some? ==> action.value.Continue? || action.value.Step?;
    MovesAre(threads, actions, pid, k, m);
    if m in Moves(threads, actions, pid, k) {
      var j :| 0 <= j < |threads| && m in MovesOf(threads[j], ActionFor(actions, pid, threads[j].id), k);
      assert j == i;
    }
  }

  /** A thread is resumed exactly when it is new or in an exception, the list says continue and the
      kernel lets it resume. */
  lemma ResumedIff(threads: seq<Thread>, actions: Parsed, pid: nat, k: Kernel, i: nat)
    requires DistinctIds(threads) && i < |threads|
    ensures var t := threads[i];
      Resumed(t.id) in Moves(threads, actions, pid, k) <==>
        && ActionFor(actions, pid, t.id) == Some(Continue)
        && (t.state.New? || t.state.InException?) && k.resumes(t.id)
  {
    var m := Resumed(threads[i].id);
    MovesAre(threads, actions, pid, k, m);
    if m in Moves(threads, actions, pid, k) {
      var j :| 0 <= j < |threads| && m in MovesOf(threads[j], ActionFor(actions, pid, threads[j].id), k);
      assert j == i;
    }
  }

  /** Threads are set in motion in the order in which they are listed. */
  lemma {:induction false} MovesInOrder(threads: seq<Thread>, actions: Parsed, pid: nat, k: Kernel, a: nat, b: nat)
    returns (i: nat, j: nat)
    requires a < b < |Moves(threads, actions, pid, k)|
    ensures i < j < |threads|
    ensures threads[i].id == Moves(threads, actions, pid, k)[a].id
    ensures threads[j].id == Moves(threads, actions, pid, k)[b].id
  {
    var n := |threads| - 1;
    var before := Moves(threads[..n], actions, pid, k);
    if b < |before| {
      i, j := MovesInOrder(threads[..n], actions, pid, k, a, b);
    } else {
      MovesAre(threads[..n], actions, pid, k, before[a]);
      i :| 0 <= i < n && before[a] in MovesOf(threads[..n][i], ActionFor(actions, pid, threads[..n][i].id), k);
      j := n;
    }
  }

  /** "vCont;c" resumes every thread that is new or in an exception and that the kernel lets resume,
      and "vCont;s" steps every thread in an exception that the kernel lets step. */
  lemma DefaultActions(threads: seq<Thread>, curProc: nat, stale: string -> nat, k: Kernel, i: nat)
    requires DistinctIds(threads) && i < |threads| && 0 < curProc < KOID_LIMIT
    ensures var all, t := Parse("c", curProc, stale), threads[i];
      all.valid && (Resumed(t.id) in Moves(threads, all, curProc, k) <==> !t.state.Other? && k.resumes(t.id))
    ensures var all, t := Parse("s", curProc, stale), threads[i];
      all.valid && (Stepped(t.id) in Moves(threads, all, curProc, k) <==> t.state.InException? && k.steps(t.id))
  {
    OneLetter('c', Continue, curProc, stale);
    OneLetter('s', Step, curProc, stale);
    ResumedIff(threads, Parse("c", curProc, stale), curProc, k, i);
    SteppedIff(threads, Parse("s", curProc, stale), curProc, k, i);
  }

  lemma OneLetter(c: char, a: Action, curProc: nat, stale: string -> nat)
    requires 0 < curProc < KOID_LIMIT && ((c == 'c' && a == Continue) || (c == 's' && a == Step))
    ensures Parse([c], curProc, stale) == Parsed(true, Some(a), [])
  {
    assert [c][..1] == [c];
    assert ThreadIds.Find([c], ';', 0) == 1 by { assert [c][0] != ';'; }
    assert StepperFor(curProc, stale)([c]) == SetDefault(a);
    assert ParseRest("", StepperFor(curProc, stale), Some(a), []) == Parsed(true, Some(a), []);
  }
}
