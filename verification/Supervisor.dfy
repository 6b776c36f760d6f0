/** The supervisor object: the sections it runs under its mutex and the statements it sends to the database, each proved
    to be the transition of the protocol that it stands for. */
module SupervisorObject {
  import opened Common
  import opened Protocol

  /** The threads with the watchers in `done` cancelled. */
  function CancelledIn(threads: map<Tid, Thread>, done: set<Tid>): map<Tid, Thread> {
    map t | t in threads :: if threads[t].Watcher? && t in done then threads[t].(cancelled := true) else threads[t]
  }

  class Supervisor {
    // guarded by the mutex
    var watches: map<App, Tid>
    var shutdown: bool
    // the instances and apps tables
    var rows: map<App, Row>
    var policies: map<App, Policy>
    // the goroutines and their contexts
    var threads: map<Tid, Thread>
    var nextTid: nat
    // what the rest of the protocol refers to
    ghost var pending: set<App>
    ghost var live: set<Proc>
    ghost var past: set<Proc>
    ghost var log: seq<Event>

    ghost function View(): State
      reads this
    {
      State(watches, shutdown, pending, rows, policies, threads, nextTid, live, past, log)
    }

    constructor (policies: map<App, Policy>, rows: map<App, Row>, ghost live: set<Proc>, ghost past: set<Proc>,
                 ghost log: seq<Event>)
      ensures View() == State(map[], false, policies.Keys, rows, policies, map[], 0, live, past, log)
    {
      this.watches, this.shutdown, this.rows, this.policies := map[], false, rows, policies;
      this.threads, this.nextTid := map[], 0;
      this.pending, this.live, this.past, this.log := policies.Keys, live, past, log;
    }

    /** Calls the cancel function kept for thread `t`. */
    method Cancel(t: Tid)
      modifies this`threads
      ensures threads == CancelThread(old(threads), t)
    {
      if t in threads && threads[t].Watcher? {
        threads := threads[t := threads[t].(cancelled := true)];
      }
    }

    /** The check at the head of StartApp; a call that passes it goes on in a thread of its own. */
    method TryStart(a: App) returns (ok: bool)
      requires pending == {}
      modifies this
      ensures ok == (a !in old(watches)) == Enabled(old(View()), BeginStart(a))
      ensures View() == if ok then Apply(old(View()), BeginStart(a)) else old(View())
    {
      if a in watches {
        return false;
      }
      threads := threads[nextTid := Starter(a, SBuild)];
      nextTid := nextTid + 1;
      return true;
    }

    method StartWatcher(a: App, h: Handle)
      modifies this
      ensures View() == Protocol.StartWatcher(old(View()), a, h)
    {
      if shutdown {
        return;
      }
      if a in watches {
        Cancel(watches[a]);
      }
      watches := watches[a := nextTid];
      threads := threads[nextTid := Watcher(a, false, Waiting(h))];
      nextTid := nextTid + 1;
    }

    method CancelWatcher(a: App)
      modifies this
      ensures View() == Protocol.CancelWatcher(old(View()), a)
    {
      if a in watches {
        Cancel(watches[a]);
        watches := watches - {a};
      }
    }

    method Shutdown()
      modifies this`shutdown, this`watches, this`threads
      ensures View() == ShutdownAll(old(View()))
    {
      shutdown := true;
      CancelAll();
    }

    /** for name, cancel := range s.watches */
    method CancelAll()
      modifies this`watches, this`threads
      ensures watches == map[] && threads == CancelledIn(old(threads), old(watches).Values)
    {
      ghost var all := watches;
      ghost var done: set<Tid> := {};
      var names := watches.Keys;
      while names != {}
        invariant names == watches.Keys
        invariant forall a :: a in watches ==> a in all && watches[a] == all[a]
        invariant forall a :: a in all ==> a in watches || all[a] in done
        invariant done <= all.Values
        invariant threads == CancelledIn(old(threads), done)
        decreases names
      {
        var name :| name in names;
        Cancel(watches[name]);
        done := done + {watches[name]};
        watches := watches - {name};
        names := names - {name};
      }
      assert done == all.Values;
    }

    method UpdateInstance(a: App, h: Handle)
      modifies this`rows
      ensures View() == Protocol.UpdateInstance(old(View()), a, h)
    {
      if a in rows {
        rows := rows[a := Row(Running, Handle(h.pid, h.ctime, rows[a].h.inst), rows[a].restarts)];
      }
    }

    method MarkState(a: App, state: RowState)
      modifies this`rows
      ensures View() == Protocol.MarkState(old(View()), a, state)
    {
      if a in rows {
        rows := rows[a := rows[a].(state := state)];
      }
    }

    // ----- the statements of the watch loop -----

    /** readPolicy: without one, or with the watchdog off, the row is marked stopped next. */
    method ReadPolicy(t: Tid, ok: bool)
      requires WatchEnabled(View(), t, PolicyRead(ok))
      modifies this`threads
      ensures View() == ApplyWatch(old(View()), t, PolicyRead(ok))
    {
      var a := threads[t].app;
      if !ok || a !in policies || !policies[a].watchdog {
        MovesTo(t, Closing(Stopped));
      } else {
        MovesTo(t, Counting(policies[a].maxRestarts));
      }
    }

    /** SELECT restart_count, zero without a row or when it fails. */
    method CurrentRestartCount(a: App, ok: bool) returns (n: nat)
      ensures ok && a in rows ==> n == rows[a].restarts
      ensures !ok || a !in rows ==> n == 0
    {
      n := 0;
      if ok && a in rows {
        n := rows[a].restarts;
      }
    }

    /** currentRestartCount and the limit: a limit of zero is none. */
    method ReadCount(t: Tid, ok: bool)
      requires WatchEnabled(View(), t, CountRead(ok))
      modifies this`threads
      ensures View() == ApplyWatch(old(View()), t, CountRead(ok))
    {
      var count := CurrentRestartCount(threads[t].app, ok);
      var max := threads[t].pc.max;
      if max > 0 && count >= max {
        MovesTo(t, Closing(Failed));
      } else {
        MovesTo(t, Marking(count));
      }
    }

    method MarkStarting(t: Tid, ok: bool)
      requires WatchEnabled(View(), t, StartingMarked(ok))
      modifies this`threads, this`rows
      ensures View() == ApplyWatch(old(View()), t, StartingMarked(ok))
    {
      var a := threads[t].app;
      if ok {
        MarkState(a, Starting);
      }
      MovesTo(t, Backoff(threads[t].pc.count));
    }

    /** insertInstance after a relaunch: the count goes up by one, and `h = next`. */
    method RecordRelaunch(t: Tid, ok: bool)
      requires WatchEnabled(View(), t, RelaunchRecorded(ok))
      modifies this`threads, this`rows
      ensures View() == ApplyWatch(old(View()), t, RelaunchRecorded(ok))
    {
      var h, count := threads[t].pc.h, threads[t].pc.count;
      if ok {
        InsertInstance(threads[t].app, h, count + 1);
      }
      MovesTo(t, Waiting(h));
    }

    method MarkFinal(t: Tid, ok: bool)
      requires WatchEnabled(View(), t, FinalMark(ok))
      modifies this`threads, this`rows
      ensures View() == ApplyWatch(old(View()), t, FinalMark(ok))
    {
      if ok {
        MarkState(threads[t].app, threads[t].pc.final);
      }
      MovesTo(t, Returning);
    }

    /** The deferred delete, by name, of a watcher that returns. */
    method Return(t: Tid)
      requires WatchEnabled(View(), t, Leave)
      modifies this`threads, this`watches
      ensures View() == ApplyWatch(old(View()), t, Leave)
    {
      watches := watches - {threads[t].app};
      threads := threads - {t};
      assert live - {} + {} == live && past + {} == past;
    }

    /** The watcher's program counter moves on. */
    method MovesTo(t: Tid, pc: WatchPc)
      requires t in threads && threads[t].Watcher?
      modifies this`threads
      ensures threads == old(threads)[t := old(threads)[t].(pc := pc)]
      ensures live - {} + {} == live && past + {} == past
    {
      threads := threads[t := threads[t].(pc := pc)];
    }

    // ----- the statements of StartApp and StopApp -----

    /** The upsert: a first launch and a relaunch replace the whole row. */
    method InsertInstance(a: App, h: Handle, restarts: nat)
      modifies this`rows
      ensures rows == old(rows)[a := Row(Running, h, restarts)]
    {
      rows := rows[a := Row(Running, h, restarts)];
    }

    /** insertInstance after a launch by an operator: the count starts again. */
    method RecordStart(t: Tid, ok: bool)
      requires StartEnabled(View(), t, Insert(ok))
      modifies this`threads, this`rows
      ensures View() == ApplyStart(old(View()), t, Insert(ok))
    {
      var a, h := threads[t].app, threads[t].spc.h;
      if ok {
        InsertInstance(a, h, 0);
      }
      threads := threads[t := Starter(a, SRegister(h))];
      assert live - {} + {} == live && past + {} == past;
    }

    /** The startWatcher at the end of StartApp. */
    method FinishStart(t: Tid)
      requires StartEnabled(View(), t, Register)
      modifies this
      ensures View() == ApplyStart(old(View()), t, Register)
    {
      StartWatcher(threads[t].app, threads[t].spc.h);
      threads := threads - {t};
      assert live - {} + {} == live && past + {} == past;
    }

    /** The head of StopApp: the watcher is cancelled before anything is read. */
    method TryStop(a: App)
      requires pending == {}
      modifies this
      ensures View() == Apply(old(View()), BeginStop(a))
    {
      CancelWatcher(a);
      threads := threads[nextTid := Stopper(a, TRead)];
      nextTid := nextTid + 1;
    }

    /** The query of StopApp, for an active row only. */
    method ReadForStop(t: Tid, ok: bool)
      requires StopEnabled(View(), t, Read(ok))
      modifies this`threads
      ensures View() == ApplyStop(old(View()), t, Read(ok))
    {
      var a := threads[t].app;
      if ok && a in rows && rows[a].state in {Running, Starting} {
        threads := threads[t := Stopper(a, TKill(rows[a].h))];
      } else {
        threads := threads - {t};
      }
      assert live - {} + {} == live && past + {} == past;
    }

    /** The mark at the end of StopApp. */
    method FinishStop(t: Tid, ok: bool)
      requires StopEnabled(View(), t, Mark(ok))
      modifies this`threads, this`rows
      ensures View() == ApplyStop(old(View()), t, Mark(ok))
    {
      if ok {
        MarkState(threads[t].app, Stopped);
      }
      threads := threads - {t};
      assert live - {} + {} == live && past + {} == past;
    }

    // ----- startup -----

    /** reconcileApp; `alive` is the answer of the liveness check, `found` the first discovered process with the
        row's instance id. */
    method ReconcileApp(a: App, checkOk: bool, alive: bool, found: Option<Proc>, writeOk: bool)
      requires Enabled(View(), Protocol.ReconcileApp(a, checkOk, found, writeOk))
      requires a in rows ==> alive == IsAlive(View(), rows[a].h)
      modifies this
      ensures View() == AfterReconcile(old(View()), a, checkOk, found, writeOk)
    {
      pending := pending - {a};
      if a !in rows || rows[a].state !in {Running, Starting} || !checkOk {
        return;
      }
      if alive {
        StartWatcher(a, rows[a].h);
      } else if found.Some? {
        if writeOk {
          UpdateInstance(a, HandleOf(found.value));
          StartWatcher(a, HandleOf(found.value));
        }
      } else if writeOk {
        MarkState(a, Stopped);
      }
    }
  }
}
