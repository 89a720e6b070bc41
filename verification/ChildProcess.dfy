/**
Ownership of POSIX child processes (src/platform/subprocess_posix.cpp): `process` objects are
spawned, polled, waited for, signalled, moved and destroyed. The kernel's table of unreaped
children is part of the state; a process id may be reused once its child has been reaped.
*/
module ChildProcess {
  import opened Common

  type Pid = n: nat | 0 < n witness 1

  // A wait status: a normal exit with its code, or death by a signal.
  datatype Exit = Exited(code: nat) | Signaled

  // A child the parent has not reaped.
  datatype Child = Child(pid: Pid, exit: Option<Exit>)

  // One process object: pid_, finished_, raw_status_, and which child it was given.
  datatype Proc = Proc(pid: int, finished: bool, rawStatus: Exit, child: nat)

  const Empty := Proc(-1, false, Exited(0), 0)

  predicate Holds(o: Proc) { 0 < o.pid }

  predicate Active(o: Proc) { 0 < o.pid && !o.finished }

  // ---------------------------------------------------------------------
  // What every operation keeps
  // ---------------------------------------------------------------------

  type Objects = map<nat, Proc>

  type Children = map<nat, Child>

  // The kernel finds a child by pid: unreaped children have distinct pids, pids of reaped
  // ones may come back.
  ghost predicate DistinctPids(children: Children) {
    forall c, d :: c in children && d in children && c != d ==> children[c].pid != children[d].pid
  }

  // An object that has not seen its child finish holds an unreaped child.
  ghost predicate ActiveHoldUnreaped(objs: Objects, children: Children, interrupted: set<nat>) {
    forall i :: i in objs && Active(objs[i]) ==>
      && objs[i].child in children && children[objs[i].child].pid == objs[i].pid
      && objs[i].child !in interrupted
  }

  // No two objects hold the same child.
  ghost predicate OneOwner(objs: Objects) {
    forall i, j :: i in objs && j in objs && i != j && Holds(objs[i]) && Holds(objs[j]) ==>
      objs[i].child != objs[j].child
  }

  ghost predicate Statuses(objs: Objects, spawned: nat, reaped: set<nat>, interrupted: set<nat>) {
    forall i :: i in objs ==>
      && (!Holds(objs[i]) ==> !objs[i].finished)
      && (Holds(objs[i]) ==> objs[i].child < spawned)
      && (Holds(objs[i]) && objs[i].finished ==> objs[i].child in reaped || objs[i].child in interrupted)
  }

  // A child nobody watches any more was lost to an interrupted wait.
  ghost predicate Watched(objs: Objects, children: Children, interrupted: set<nat>, watcher: map<nat, nat>) {
    forall c :: c in children && c !in interrupted ==>
      && c in watcher && watcher[c] in objs
      && Active(objs[watcher[c]]) && objs[watcher[c]].child == c
  }

  // Every child created so far is either unreaped or reaped, never both.
  ghost predicate Accounting(children: Children, spawned: nat, reaped: set<nat>, interrupted: set<nat>) {
    && (forall c :: c in children || c in reaped <==> 0 <= c < spawned)
    && (forall c :: c in reaped ==> c !in children)
    && (forall c :: c in interrupted ==> c in children)
  }

  lemma FinishedIsSettled(objs: Objects, children: Children, spawned: nat, reaped: set<nat>, interrupted: set<nat>,
                          id: nat)
    requires Statuses(objs, spawned, reaped, interrupted) && Accounting(children, spawned, reaped, interrupted)
    requires id in objs
    ensures Holds(objs[id]) && objs[id].finished ==>
              var c := objs[id].child;
              (c in reaped <==> c !in interrupted) && (c in reaped ==> c !in children)
  {}

  // The state of the objects after one has taken over another's child.
  ghost predicate Moved(objs: Objects, objs': Objects, dst: nat, src: nat) {
    && dst in objs && src in objs && dst != src && !Holds(objs[dst])
    && objs'.Keys == objs.Keys
    && objs'[dst] == objs[src] && objs'[src] == Empty
    && forall i :: i in objs && i != dst && i != src ==> objs'[i] == objs[i]
  }

  lemma MoveKeepsOneOwner(objs: Objects, objs': Objects, dst: nat, src: nat)
    requires Moved(objs, objs', dst, src) && OneOwner(objs)
    ensures OneOwner(objs')
  {
    forall i, j | i in objs' && j in objs' && i != j && Holds(objs'[i]) && Holds(objs'[j])
      ensures objs'[i].child != objs'[j].child
    {
      var i', j' := if i == dst then src else i, if j == dst then src else j;
      assert objs'[i] == objs[i'] && objs'[j] == objs[j'];
    }
  }

  lemma MoveKeepsStatuses(objs: Objects, objs': Objects, dst: nat, src: nat,
                          children: Children, spawned: nat, reaped: set<nat>, interrupted: set<nat>)
    requires Moved(objs, objs', dst, src)
    requires ActiveHoldUnreaped(objs, children, interrupted) && Statuses(objs, spawned, reaped, interrupted)
    ensures ActiveHoldUnreaped(objs', children, interrupted) && Statuses(objs', spawned, reaped, interrupted)
  {
    forall i | i in objs'
      ensures objs'[i] == Empty || exists j :: j in objs && objs'[i] == objs[j]
    {
      var j := if i == dst then src else i;
      assert j in objs && (i == src || objs'[i] == objs[j]);
    }
  }

  lemma MoveKeepsWatched(objs: Objects, objs': Objects, dst: nat, src: nat,
                         children: Children, interrupted: set<nat>, watcher: map<nat, nat>)
    requires Moved(objs, objs', dst, src) && OneOwner(objs) && Watched(objs, children, interrupted, watcher)
    ensures var watcher' := if Active(objs[src]) then watcher[objs[src].child := dst] else watcher;
            Watched(objs', children, interrupted, watcher')
  {
    var watcher' := if Active(objs[src]) then watcher[objs[src].child := dst] else watcher;
    forall c | c in children && c !in interrupted
      ensures c in watcher' && watcher'[c] in objs' && Active(objs'[watcher'[c]]) && objs'[watcher'[c]].child == c
    {
      var w := watcher[c];
      assert w in objs && Active(objs[w]) && objs[w].child == c;
      assert w != dst;
    }
  }

  // One more child, with one more object to hold it.
  lemma SpawnKeepsPids(children: Children, c: nat, pid: Pid)
    requires DistinctPids(children) && c !in children && forall d :: d in children ==> children[d].pid != pid
    ensures DistinctPids(children[c := Child(pid, None)])
  {}

  lemma SpawnKeepsOneOwner(objs: Objects, spawned: nat, reaped: set<nat>, interrupted: set<nat>, id: nat, o: Proc)
    requires OneOwner(objs) && Statuses(objs, spawned, reaped, interrupted) && id !in objs && o.child == spawned
    ensures OneOwner(objs[id := o])
  {}

  lemma SpawnKeepsStatuses(objs: Objects, children: Children, spawned: nat, reaped: set<nat>, interrupted: set<nat>,
                           id: nat, pid: Pid)
    requires ActiveHoldUnreaped(objs, children, interrupted) && Statuses(objs, spawned, reaped, interrupted)
    requires Accounting(children, spawned, reaped, interrupted) && id !in objs
    ensures var objs' := objs[id := Proc(pid, false, Exited(0), spawned)];
            var children' := children[spawned := Child(pid, None)];
            && ActiveHoldUnreaped(objs', children', interrupted)
            && Statuses(objs', spawned + 1, reaped, interrupted)
            && Accounting(children', spawned + 1, reaped, interrupted)
  {}

  lemma SpawnKeepsWatched(objs: Objects, children: Children, interrupted: set<nat>, watcher: map<nat, nat>, c: nat,
                          id: nat, pid: Pid)
    requires Watched(objs, children, interrupted, watcher) && c !in children && id !in objs
    ensures Watched(objs[id := Proc(pid, false, Exited(0), c)], children[c := Child(pid, None)], interrupted,
                    watcher[c := id])
  {}

  const SIGKILL: int := 9

  // The kernel's side: the unreaped children, which children have been reaped and which were lost to
  // an interrupted wait, and every signal sent, with the child it went to.
  datatype Kernel = Kernel(children: Children, reaped: set<nat>, interrupted: set<nat>, signals: seq<(nat, int)>)

  // What giving up the child of an object does: nothing if there is none or it is finished; if it has
  // exited by itself, it is reaped; if it is running, it gets SIGKILL and no other signal, and is reaped
  // unless the wait is interrupted. No other child is touched.
  ghost predicate LetGo(k: Kernel, k': Kernel, o: Proc, eintr: bool) {
    if !Active(o) then k' == k
    else
      && o.child in k.children
      && var running := k.children[o.child].exit.None?;
         && k'.signals == k.signals + (if running then [(o.child, SIGKILL)] else [])
         && if running && eintr
            then k'.interrupted == k.interrupted + {o.child} && k'.reaped == k.reaped && k'.children == k.children
            else && k'.interrupted == k.interrupted && k'.reaped == k.reaped + {o.child}
                 && k'.children == k.children - {o.child}
  }

  // The status an object has after that.
  ghost function Ended(k: Kernel, o: Proc, eintr: bool): Proc
    requires Active(o) ==> o.child in k.children
  {
    if !Active(o) then o
    else match k.children[o.child].exit
      case Some(e) => o.(finished := true, rawStatus := e)
      case None => if eintr then o.(finished := true) else o.(finished := true, rawStatus := Signaled)
  }

  class Processes {
    var objs: map<nat, Proc>            // the live process objects
    var children: map<nat, Child>       // the kernel's unreaped children, by order of creation
    var spawned: nat                    // number of children created so far
    ghost var reaped: set<nat>          // children whose status has been collected
    ghost var interrupted: set<nat>     // children on which a blocking waitpid failed with EINTR
    ghost var watcher: map<nat, nat>    // the object watching an unreaped child
    ghost var signals: seq<(nat, int)>  // the signals sent, each with the child it went to

    ghost function Now(): Kernel
      reads this
    {
      Kernel(children, reaped, interrupted, signals)
    }

    ghost predicate Valid()
      reads this
    {
      && DistinctPids(children)
      && ActiveHoldUnreaped(objs, children, interrupted)
      && OneOwner(objs)
      && Statuses(objs, spawned, reaped, interrupted)
      && Watched(objs, children, interrupted, watcher)
      && Accounting(children, spawned, reaped, interrupted)
    }

    constructor ()
      ensures Valid() && objs == map[] && spawned == 0 && signals == []
    {
      objs, children, spawned := map[], map[], 0;
      reaped, interrupted, watcher, signals := {}, {}, map[], [];
    }

    // -------------------------------------------------------------------
    // The kernel
    // -------------------------------------------------------------------

    // A running child exits on its own.
    method ChildExits(c: nat, exit: Exit)
      requires Valid() && c in children && children[c].exit.None?
      modifies this`children
      ensures Valid() && children == old(children)[c := Child(old(children)[c].pid, Some(exit))]
    {
      children := children[c := Child(children[c].pid, Some(exit))];
    }

    // kill(2) on a pid: it must reach the child the caller means.
    method Kill(pid: int, ghost c: nat, signal: int)
      requires c in children && children[c].pid == pid
      modifies this`signals
      ensures signals == old(signals) + [(c, signal)]
    {
      signals := signals + [(c, signal)];
    }

    // waitpid(2) on a pid whose child has exited: its status is collected, it leaves the table,
    // and its pid is free.
    method Reap(pid: int, c: nat) returns (exit: Exit)
      requires c in children && children[c].pid == pid && children[c].exit.Some?
      modifies this`children, this`reaped
      ensures exit == old(children)[c].exit.value
      ensures children == old(children) - {c} && reaped == old(reaped) + {c}
    {
      exit := children[c].exit.value;
      reaped := reaped + {c};
      children := children - {c};
    }

    // -------------------------------------------------------------------
    // process
    // -------------------------------------------------------------------

    // spawn in the parent: fork gave a pid no unreaped child has.
    method Spawn(id: nat, pid: Pid)
      requires Valid() && id !in objs && forall c :: c in children ==> children[c].pid != pid
      modifies this
      ensures Valid()
      ensures objs == old(objs)[id := Proc(pid, false, Exited(0), old(spawned))] && spawned == old(spawned) + 1
      ensures children == old(children)[old(spawned) := Child(pid, None)]
      ensures reaped == old(reaped) && interrupted == old(interrupted) && signals == old(signals)
    {
      var o := Proc(pid, false, Exited(0), spawned);
      assert spawned !in children;
      SpawnKeepsPids(children, spawned, pid);
      SpawnKeepsOneOwner(objs, spawned, reaped, interrupted, id, o);
      SpawnKeepsStatuses(objs, children, spawned, reaped, interrupted, id, pid);
      SpawnKeepsWatched(objs, children, interrupted, watcher, spawned, id, pid);
      objs := objs[id := o];
      children := children[spawned := Child(pid, None)];
      watcher := watcher[spawned := id];
      spawned := spawned + 1;
    }

    // The object's child has exited and is collected.
    method Finish(id: nat)
      requires Valid() && id in objs && Active(objs[id]) && children[objs[id].child].exit.Some?
      modifies this`objs, this`children, this`reaped
      ensures Valid()
      ensures objs == old(objs)[id := old(objs)[id].(finished := true,
                                       rawStatus := old(children)[old(objs)[id].child].exit.value)]
      ensures children == old(children) - {old(objs)[id].child}
      ensures reaped == old(reaped) + {old(objs)[id].child}
    {
      var status := Reap(objs[id].pid, objs[id].child);
      objs := objs[id := objs[id].(finished := true, rawStatus := status)];
    }

    // poll_exit: true exactly when the child has been collected, now or before.
    method PollExit(id: nat) returns (done: bool)
      requires Valid() && id in objs
      modifies this`objs, this`children, this`reaped
      ensures Valid() && objs.Keys == old(objs.Keys)
      ensures done == objs[id].finished
      ensures !Active(old(objs[id])) || !done ==>
                objs == old(objs) && children == old(children) && reaped == old(reaped)
      ensures Active(old(objs[id])) ==> done == old(children[objs[id].child].exit.Some?)
      ensures Active(old(objs[id])) && done ==>
                && objs == old(objs[id := objs[id].(finished := true,
                                                    rawStatus := children[objs[id].child].exit.value)])
                && reaped == old(reaped + {objs[id].child}) && children == old(children - {objs[id].child})
    {
      if !Holds(objs[id]) || objs[id].finished {
        return objs[id].finished;
      }
      if children[objs[id].child].exit.Some? {
        Finish(id);
        return true;
      }
      return false;
    }

    // A signal interrupts a blocking waitpid only while the child is running: a status that is there
    // is returned at once.
    predicate Interrupts(id: nat, eintr: bool)
      requires id in objs && objs[id].child in children
      reads this
    {
      eintr && children[objs[id].child].exit.None?
    }

    // The wait has failed and the object takes its child for finished.
    method Lose(id: nat)
      requires Valid() && id in objs && Active(objs[id])
      modifies this`objs, this`interrupted
      ensures Valid() && objs == old(objs[id := objs[id].(finished := true)])
      ensures interrupted == old(interrupted + {objs[id].child})
    {
      interrupted := interrupted + {objs[id].child};
      objs := objs[id := objs[id].(finished := true)];
    }

    // A blocking waitpid followed by `finished_ = true`. Uninterrupted it returns once the child has
    // exited (with `exit`, if it was still running). Interrupted it fails, and the failure is ignored.
    method BlockingWait(id: nat, eintr: bool, exit: Exit)
      requires Valid() && id in objs && Active(objs[id])
      modifies this`objs, this`children, this`reaped, this`interrupted
      ensures Valid()
      ensures old(Interrupts(id, eintr)) ==>
                && objs == old(objs[id := objs[id].(finished := true)]) && children == old(children)
                && reaped == old(reaped) && interrupted == old(interrupted + {objs[id].child})
      ensures !old(Interrupts(id, eintr)) ==>
                && objs == old(objs[id := objs[id].(finished := true, rawStatus := FinalStatus(id, exit))])
                && reaped == old(reaped + {objs[id].child}) && interrupted == old(interrupted)
                && children == old(children - {objs[id].child})
    {
      if Interrupts(id, eintr) {
        Lose(id);
        return;
      }
      if children[objs[id].child].exit.None? {
        ChildExits(objs[id].child, exit);
      }
      Finish(id);
    }

    // The status the child has exited with, or will.
    function FinalStatus(id: nat, exit: Exit): Exit
      requires id in objs && objs[id].child in children
      reads this
    {
      match children[objs[id].child].exit
      case Some(e) => e
      case None => exit
    }

    // wait: the exit code, or 1 for a child killed by a signal or an object without a child.
    method Wait(id: nat, eintr: bool, exit: Exit) returns (code: nat)
      requires Valid() && id in objs
      modifies this`objs, this`children, this`reaped, this`interrupted
      ensures Valid() && objs.Keys == old(objs.Keys)
      ensures !Holds(old(objs[id])) ==> code == 1
      ensures !Active(old(objs[id])) ==> objs == old(objs) && Now() == old(Now())
      ensures Active(old(objs[id])) && (!eintr || old(children[objs[id].child]).exit.Some?) ==>
                old(objs[id].child) in reaped
      ensures Holds(objs[id]) ==> objs[id].finished
      ensures Holds(objs[id]) && objs[id].rawStatus.Exited? ==> code == objs[id].rawStatus.code
      ensures Holds(objs[id]) && objs[id].rawStatus.Signaled? ==> code == 1
      ensures Active(old(objs[id])) && !old(Interrupts(id, eintr)) ==>
                && children == old(children - {objs[id].child})
                && objs == old(objs[id := objs[id].(finished := true, rawStatus := FinalStatus(id, exit))])
                && reaped == old(reaped + {objs[id].child}) && interrupted == old(interrupted)
      ensures Active(old(objs[id])) && old(Interrupts(id, eintr)) ==>
                && objs == old(objs[id := objs[id].(finished := true)]) && children == old(children)
                && reaped == old(reaped) && interrupted == old(interrupted + {objs[id].child})
    {
      if !Holds(objs[id]) {
        return 1;
      }
      if !objs[id].finished {
        BlockingWait(id, eintr, exit);
      }
      match objs[id].rawStatus {
        case Exited(c) => return c;
        case Signaled => return 1;
      }
    }

    // terminate: nothing for a finished child; otherwise SIGKILL and wait.
    method Terminate(id: nat, eintr: bool)
      requires Valid() && id in objs
      modifies this`objs, this`children, this`reaped, this`interrupted, this`signals
      ensures Valid() && LetGo(old(Now()), Now(), old(objs[id]), eintr)
      ensures objs == old(objs[id := Ended(Now(), objs[id], eintr)])
    {
      if !Active(objs[id]) {
        return;
      }
      var done := PollExit(id);
      if done {
        return;
      }
      KillAndWait(id, eintr);
    }

    method KillAndWait(id: nat, eintr: bool)
      requires Valid() && id in objs && Active(objs[id]) && children[objs[id].child].exit.None?
      modifies this`objs, this`children, this`reaped, this`interrupted, this`signals
      ensures Valid() && LetGo(old(Now()), Now(), old(objs[id]), eintr)
      ensures objs == old(objs[id := Ended(Now(), objs[id], eintr)])
    {
      Kill(objs[id].pid, objs[id].child, SIGKILL);
      BlockingWait(id, eintr, Signaled);
    }

    // A running child that is terminated has got SIGKILL and is reaped, and a later wait reports 1.
    method TerminateThenWait(id: nat, eintr: bool, exit: Exit) returns (code: nat)
      requires Valid() && id in objs && Active(objs[id]) && children[objs[id].child].exit.None?
      modifies this`objs, this`children, this`reaped, this`interrupted, this`signals
      ensures Valid() && code == 1
      ensures signals == old(signals + [(objs[id].child, SIGKILL)]) && old(objs[id].child) in reaped
    {
      Terminate(id, false);
      code := Wait(id, eintr, exit);
    }

    // send_signal reaches only an unreaped child, the object's own, with the signal asked for.
    method SendSignal(id: nat, signal: int) returns (sent: bool)
      requires Valid() && id in objs
      modifies this`signals
      ensures Valid() && sent == Active(objs[id])
      ensures sent ==> objs[id].child in children && children[objs[id].child].pid == objs[id].pid
      ensures signals == old(signals) + (if sent then [(objs[id].child, signal)] else [])
    {
      if !Active(objs[id]) {
        return false;
      }
      Kill(objs[id].pid, objs[id].child, signal);
      return true;
    }

    // Forgetting a finished or childless object keeps everything else in order.
    method Clear(id: nat)
      requires Valid() && id in objs && !Active(objs[id])
      modifies this`objs
      ensures Valid() && objs == old(objs)[id := Empty]
    {
      objs := objs[id := Empty];
    }

    // reset: the object gives up its child, collecting it first if need be.
    method Reset(id: nat, eintr: bool)
      requires Valid() && id in objs
      modifies this`objs, this`children, this`reaped, this`interrupted, this`signals
      ensures Valid() && LetGo(old(Now()), Now(), old(objs[id]), eintr)
      ensures objs == old(objs)[id := Empty]
      ensures Holds(old(objs[id])) ==> Settled(old(objs[id].child))
      ensures Active(old(objs[id])) && !eintr ==> old(objs[id].child) in reaped
    {
      if Active(objs[id]) {
        Terminate(id, eintr);
      }
      FinishedIsSettled(objs, children, spawned, reaped, interrupted, id);
      Clear(id);
    }

    // The child has been reaped, unless a blocking wait on it was interrupted: then it never is.
    ghost predicate Settled(c: nat)
      reads this
    {
      (c in reaped <==> c !in interrupted) && (c in reaped ==> c !in children)
    }

    // Move assignment (and, into a fresh object, move construction): the child changes hands.
    method MoveAssign(dst: nat, src: nat, eintr: bool)
      requires Valid() && dst in objs && src in objs
      modifies this`objs, this`children, this`reaped, this`interrupted, this`watcher, this`signals
      ensures Valid()
      ensures dst == src ==> objs == old(objs) && Now() == old(Now())
      ensures dst != src ==> objs == old(objs)[dst := old(objs[src])][src := Empty]
      ensures dst != src ==> LetGo(old(Now()), Now(), old(objs[dst]), eintr)
      ensures dst != src && Holds(old(objs[dst])) ==> Settled(old(objs[dst].child))
    {
      if dst == src {
        return;
      }
      Reset(dst, eintr);
      MoveFrom(dst, src);
    }

    // move_from, into an object that holds nothing
    method MoveFrom(dst: nat, src: nat)
      requires Valid() && dst in objs && src in objs && dst != src && !Holds(objs[dst])
      modifies this`objs, this`watcher
      ensures Valid() && objs == old(objs)[dst := old(objs[src])][src := Empty]
    {
      ghost var before, watched := objs, watcher;
      if Active(objs[src]) {
        watcher := watcher[objs[src].child := dst];
      }
      objs := objs[dst := objs[src]][src := Empty];
      MoveKeepsOneOwner(before, objs, dst, src);
      MoveKeepsStatuses(before, objs, dst, src, children, spawned, reaped, interrupted);
      MoveKeepsWatched(before, objs, dst, src, children, interrupted, watched);
    }

    // A default-constructed object.
    method New(id: nat)
      requires Valid() && id !in objs
      modifies this`objs
      ensures Valid() && objs == old(objs)[id := Empty]
    {
      objs := objs[id := Empty];
    }

    // ~process
    method Destroy(id: nat, eintr: bool)
      requires Valid() && id in objs
      modifies this`objs, this`children, this`reaped, this`interrupted, this`signals
      ensures Valid() && objs == old(objs) - {id} && LetGo(old(Now()), Now(), old(objs[id]), eintr)
      ensures Holds(old(objs[id])) ==> Settled(old(objs[id].child))
      ensures Active(old(objs[id])) && !eintr ==> old(objs[id].child) in reaped
    {
      Reset(id, eintr);
      objs := objs - {id};
    }

    // A child no object holds any more has been reaped, exactly once, if and only if no blocking
    // wait on it was interrupted.
    lemma UnheldIsSettled(c: nat)
      requires Valid() && c < spawned
      requires forall i :: i in objs && Holds(objs[i]) ==> objs[i].child != c
      ensures Settled(c)
    {
      if c in children && c !in interrupted {
        assert Holds(objs[watcher[c]]);
        assert false;
      }
    }

    // One operation, or nothing if it does not apply.
    method Do(op: Op)
      requires Valid()
      modifies this
      ensures Valid() && Extends(old(Now()), Now()) && Did(op, old(objs), old(Now()), objs, Now())
    {
      match op {
        case OpSpawn(id, pid) =>
          if id !in objs && forall c :: c in children ==> children[c].pid != pid {
            Spawn(id, pid);
          }
        case OpNew(id) =>
          if id !in objs {
            New(id);
          }
        case OpExit(c, exit) =>
          if c in children && children[c].exit.None? {
            ChildExits(c, exit);
          }
        case OpPoll(id) =>
          if id in objs {
            var _ := PollExit(id);
          }
        case OpWait(id, eintr, exit) =>
          if id in objs {
            var _ := Wait(id, eintr, exit);
          }
        case OpTerminate(id, eintr) =>
          if id in objs {
            Terminate(id, eintr);
          }
        case OpSignal(id, signal) =>
          if id in objs {
            var _ := SendSignal(id, signal);
          }
        case OpMove(dst, src, eintr) =>
          if dst in objs && src in objs {
            MoveAssign(dst, src, eintr);
          }
        case OpDestroy(id, eintr) =>
          if id in objs {
            Destroy(id, eintr);
          }
      }
    }

    // Any sequence of operations whatsoever, each of them carried out; the trace has the states they
    // were carried out in. A reaped child stays reaped, no signal is taken back, and a child on which a
    // blocking wait was interrupted stays in the kernel's table: nothing ever reaps it.
    method Execute(ops: seq<Op>) returns (ghost trace: seq<(Objects, Kernel)>)
      requires Valid()
      modifies this
      ensures Valid() && Extends(old(Now()), Now())
      ensures |trace| == |ops| + 1 && trace[0] == (old(objs), old(Now())) && trace[|ops|] == (objs, Now())
      ensures forall i :: 0 <= i < |ops| ==> Did(ops[i], trace[i].0, trace[i].1, trace[i + 1].0, trace[i + 1].1)
      ensures forall c :: c in old(interrupted) ==> c in children && c !in reaped
    {
      trace := [(objs, Now())];
      for n := 0 to |ops|
        invariant Valid() && Extends(old(Now()), Now())
        invariant |trace| == n + 1 && trace[0] == (old(objs), old(Now())) && trace[n] == (objs, Now())
        invariant forall i :: 0 <= i < n ==> Did(ops[i], trace[i].0, trace[i].1, trace[i + 1].0, trace[i + 1].1)
      {
        Do(ops[n]);
        trace := trace + [(objs, Now())];
      }
    }

    // One signal during the wait for a new child is enough, whatever the program did before and
    // does afterwards: the object reports success for a child that is still running, and the child
    // is never reaped.
    method InterruptedWaitLosesChild(id: nat, pid: Pid, rest: seq<Op>) returns (child: nat, code: nat)
      requires Valid() && id !in objs && forall c :: c in children ==> children[c].pid != pid
      modifies this
      ensures Valid() && child == old(spawned)
      ensures code == 0 && child in children && child in interrupted && child !in reaped
    {
      child := spawned;
      Spawn(id, pid);
      code := Wait(id, true, Signaled);
      ghost var _ := Execute(rest);
    }
  }

  datatype Op =
    | OpSpawn(id: nat, pid: Pid)
    | OpNew(id: nat)
    | OpExit(child: nat, exit: Exit)
    | OpPoll(id: nat)
    | OpWait(id: nat, eintr: bool, exit: Exit)
    | OpTerminate(id: nat, eintr: bool)
    | OpSignal(id: nat, signal: int)
    | OpMove(dst: nat, src: nat, eintr: bool)
    | OpDestroy(id: nat, eintr: bool)

  // Reaped and lost children stay so, and signals are not taken back.
  ghost predicate Extends(k: Kernel, k': Kernel) {
    k.reaped <= k'.reaped && k.interrupted <= k'.interrupted && k.signals <= k'.signals
  }

  // What shows that an operation was carried out.
  ghost predicate Did(op: Op, objs: Objects, k: Kernel, objs': Objects, k': Kernel) {
    match op
    case OpSpawn(id, pid) =>
      id !in objs && (forall c :: c in k.children ==> k.children[c].pid != pid) ==> id in objs' && objs'[id].pid == pid
    case OpNew(id) => id in objs'
    case OpExit(c, exit) =>
      c in k.children && k.children[c].exit.None? ==> c in k'.children && k'.children[c].exit == Some(exit)
    case OpPoll(id) =>
      && objs'.Keys == objs.Keys
      && (id in objs && Active(objs[id]) && objs[id].child in k.children && k.children[objs[id].child].exit.Some? ==>
            objs'[id].finished && objs[id].child in k'.reaped)
    case OpWait(id, _, _) => objs'.Keys == objs.Keys && (id in objs && Holds(objs[id]) ==> objs'[id].finished)
    case OpTerminate(id, eintr) =>
      objs'.Keys == objs.Keys && (id in objs ==> LetGo(k, k', objs[id], eintr) && !Active(objs'[id]))
    case OpSignal(id, signal) =>
      id in objs && Active(objs[id]) ==> k' == k.(signals := k.signals + [(objs[id].child, signal)])
    case OpMove(dst, src, eintr) =>
      dst in objs && src in objs && dst != src ==>
        objs' == objs[dst := objs[src]][src := Empty] && LetGo(k, k', objs[dst], eintr)
    case OpDestroy(id, eintr) =>
      id !in objs' && (id in objs ==> LetGo(k, k', objs[id], eintr))
  }
}
