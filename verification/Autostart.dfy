/** Starting the apps marked for it, one after the other, when nothing else is going on: every launch succeeds, and a
    process that is up stays up. */
module Autostart {
  import opened Common

  type App = string
  type Instant = nat  // nanoseconds

  const SECOND: Instant := 1_000_000_000
  const DEPENDENCY_TIMEOUT: Instant := 120 * SECOND

  /** An instances row, and whether the process it names is alive. */
  datatype Status = Status(state: RowState, alive: bool)

  datatype Policy = Policy(dependsOn: seq<App>, startDelay: nat)

  /** Where things stand: rows, the apps being watched, and the policies that can be read. */
  datatype Site = Site(rows: map<App, Status>, watched: set<App>, policies: map<App, Policy>)

  /** Up, or coming up: nothing to start. */
  predicate Skipped(s: Site, a: App) {
    a in s.watched || (a in s.rows && s.rows[a].state in {Running, Starting} && s.rows[a].alive)
  }

  /** What a dependent waits for; a process still STARTING is not enough. */
  predicate Ready(s: Site, a: App) {
    a in s.rows && s.rows[a].state == Running && s.rows[a].alive
  }

  predicate AllReady(s: Site, deps: seq<App>) {
    forall i :: 0 <= i < |deps| ==> Ready(s, deps[i])
  }

  function AfterLaunch(s: Site, a: App): Site {
    s.(rows := s.rows[a := Status(Running, true)], watched := s.watched + {a})
  }

  /** The site after the first `n` apps of the list. */
  function After(s: Site, apps: seq<App>, n: nat): Site
    requires n <= |apps|
  {
    if n == 0 then s
    else
      var before := After(s, apps, n - 1);
      if Launches(before, apps[n - 1]) then AfterLaunch(before, apps[n - 1]) else before
  }

  predicate Launches(s: Site, a: App) {
    !Skipped(s, a) && a in s.policies && AllReady(s, s.policies[a].dependsOn)
  }

  /** Whether the n-th app of the list is launched when its turn comes. */
  predicate LaunchedAt(s: Site, apps: seq<App>, n: nat)
    requires n < |apps|
  {
    Launches(After(s, apps, n), apps[n])
  }

  /** The apps among the first `n` that are launched when their turn comes, in the order of the list. */
  function LaunchedOf(s: Site, apps: seq<App>, n: nat): seq<App>
    requires n <= |apps|
  {
    if n == 0 then []
    else LaunchedOf(s, apps, n - 1) + if LaunchedAt(s, apps, n - 1) then [apps[n - 1]] else []
  }

  /** The start delays of the apps. */
  function Delays(policies: map<App, Policy>, apps: seq<App>): nat {
    if apps == [] then 0
    else
      var a := apps[|apps| - 1];
      Delays(policies, apps[..|apps| - 1]) + if a in policies then policies[a].startDelay else 0
  }

  // ----- the procedure -----

  /** What of the Supervisor a boot reads and writes. */
  class Autostarter {
    var rows: map<App, Status>
    var watched: set<App>
    const policies: map<App, Policy>
    var now: Instant

    constructor (rows: map<App, Status>, watched: set<App>, policies: map<App, Policy>, now: Instant)
      ensures View() == Site(rows, watched, policies) && this.now == now
    {
      this.rows, this.watched, this.policies, this.now := rows, watched, policies, now;
    }

    function View(): Site
      reads this
    {
      Site(rows, watched, policies)
    }

    /** GetStatus: a row of a process that is gone reads as stopped. */
    method GetStatus(a: App) returns (found: bool, state: RowState)
      ensures found <==> a in rows
      ensures found ==>
                state == if rows[a].state in {Running, Starting} && !rows[a].alive then Stopped else rows[a].state
    {
      found, state := a in rows, Stopped;
      if found {
        state := rows[a].state;
        if state in {Running, Starting} && !rows[a].alive {
          state := Stopped;
        }
      }
    }

    /** Polls once a second, or less often, until each dependency is up or the time for all of them together is over. */
    method WaitForDeps(deps: seq<App>) returns (ok: bool)
      modifies this`now
      ensures ok <==> AllReady(View(), deps)
      ensures if ok then now == old(now) else now > old(now) + DEPENDENCY_TIMEOUT
    {
      if |deps| == 0 {
        return true;
      }
      var deadline := now + DEPENDENCY_TIMEOUT;
      for i := 0 to |deps|
        invariant now == old(now)
        invariant forall j :: 0 <= j < i ==> Ready(View(), deps[j])
      {
        while true
          invariant now == old(now) || !Ready(View(), deps[i])
          decreases deadline + 1 - now
        {
          var found, state := GetStatus(deps[i]);
          if found && state == Running {
            var alive := rows[deps[i]].alive;
            if alive {
              break;
            }
          }
          if now > deadline {
            return false;
          }
          var slept: nat :| slept >= SECOND;
          now := now + slept;
        }
      }
      return true;
    }

    method StartApp(a: App)
      requires a !in watched
      modifies this`rows, this`watched
      ensures View() == AfterLaunch(old(View()), a)
    {
      rows := rows[a := Status(Running, true)];
      watched := watched + {a};
    }

    /** Autostart over the apps in (start_order, name) order. */
    method Autostart(apps: seq<App>) returns (launched: seq<App>)
      modifies this
      ensures View() == After(old(View()), apps, |apps|)
      ensures launched == LaunchedOf(old(View()), apps, |apps|)
      ensures now >= old(now) + Delays(policies, launched)
    {
      launched := [];
      for i := 0 to |apps|
        invariant View() == After(old(View()), apps, i)
        invariant launched == LaunchedOf(old(View()), apps, i)
        invariant now >= old(now) + Delays(policies, launched)
      {
        var a := apps[i];
        if a in watched {
          continue;
        }
        var found, state := GetStatus(a);
        if found && state in {Running, Starting} {
          var alive := rows[a].alive;
          if alive {
            continue;
          }
        }
        if a !in policies {
          continue;
        }
        var ok := WaitForDeps(policies[a].dependsOn);
        if !ok {
          continue;
        }
        now := now + policies[a].startDelay;
        assert LaunchedAt(old(View()), apps, i);
        assert (launched + [a])[..|launched|] == launched;
        StartApp(a);
        launched := launched + [a];
      }
    }
  }

  // ----- what that amounts to -----

  lemma {:induction false} LaunchedAreThose(s: Site, apps: seq<App>, n: nat, a: App)
    requires n <= |apps|
    ensures a in LaunchedOf(s, apps, n) <==> exists i :: 0 <= i < n && apps[i] == a && LaunchedAt(s, apps, i)
  {
    if n > 0 {
      LaunchedAreThose(s, apps, n - 1, a);
    }
  }

  predicate DistinctApps(apps: seq<App>) {
    forall i, j :: 0 <= i < j < |apps| ==> apps[i] != apps[j]
  }

  /** A site later in the list differs only by the apps launched on the way. */
  lemma {:induction false} LaterSite(s: Site, apps: seq<App>, n: nat, a: App)
    requires n <= |apps|
    ensures After(s, apps, n).policies == s.policies
    ensures Ready(After(s, apps, n), a)
        <==> Ready(s, a) || exists j :: 0 <= j < n && apps[j] == a && LaunchedAt(s, apps, j)
    ensures Skipped(After(s, apps, n), a)
        <==> Skipped(s, a) || exists j :: 0 <= j < n && apps[j] == a && LaunchedAt(s, apps, j)
  {
    if n > 0 {
      LaterSite(s, apps, n - 1, a);
      if LaunchedAt(s, apps, n - 1) {
        assert After(s, apps, n) == AfterLaunch(After(s, apps, n - 1), apps[n - 1]);
      }
    }
  }

  /** A dependency of a listed app is met: it was up at the beginning or has been launched earlier. */
  ghost predicate Met(s: Site, apps: seq<App>, n: nat, dep: App)
    requires n <= |apps|
  {
    || (dep in s.rows && s.rows[dep] == Status(Running, true))
    || exists j :: 0 <= j < n && apps[j] == dep && LaunchedAt(s, apps, j)
  }

  /** Exactly those apps are launched that were not up, whose policy can be read, and whose every dependency was up at
      the beginning or was launched earlier in the list. */
  lemma LaunchedExactly(s: Site, apps: seq<App>, n: nat)
    requires DistinctApps(apps) && n < |apps|
    ensures LaunchedAt(s, apps, n)
        <==> && apps[n] !in s.watched
             && (apps[n] in s.rows && s.rows[apps[n]].alive ==> s.rows[apps[n]].state !in {Running, Starting})
             && apps[n] in s.policies
             && forall i :: 0 <= i < |s.policies[apps[n]].dependsOn| ==>
                  Met(s, apps, n, s.policies[apps[n]].dependsOn[i])
  {
    LaterSite(s, apps, n, apps[n]);
    if apps[n] in s.policies {
      var deps := s.policies[apps[n]].dependsOn;
      forall i | 0 <= i < |deps|
        ensures Ready(After(s, apps, n), deps[i]) <==> Met(s, apps, n, deps[i])
      {
        LaterSite(s, apps, n, deps[i]);
      }
    }
  }

  /** What was launched is up and watched; nothing else has changed. */
  lemma {:induction false} LaunchedAreUp(s: Site, apps: seq<App>, n: nat, a: App)
    requires n <= |apps|
    ensures var s' := After(s, apps, n);
            if a in LaunchedOf(s, apps, n)
            then a in s'.watched && a in s'.rows && s'.rows[a] == Status(Running, true)
            else (a in s'.watched <==> a in s.watched) && (a in s'.rows <==> a in s.rows)
                 && (a in s.rows ==> s'.rows[a] == s.rows[a])
  {
    if n > 0 {
      LaunchedAreUp(s, apps, n - 1, a);
    }
  }

  /** Each member waits for another member, and none is up: a cycle of dependencies, for instance. */
  predicate Deadlocked(s: Site, members: set<App>) {
    forall a :: a in members ==>
      && !Ready(s, a)
      && (a in s.policies ==> exists i :: 0 <= i < |s.policies[a].dependsOn| && s.policies[a].dependsOn[i] in members)
  }

  /** No member of a deadlocked set is ever launched. */
  lemma {:induction false} DeadlockStays(s: Site, apps: seq<App>, n: nat, members: set<App>)
    requires DistinctApps(apps) && Deadlocked(s, members) && n < |apps| && apps[n] in members
    ensures !LaunchedAt(s, apps, n)
  {
    if LaunchedAt(s, apps, n) {
      LaunchedExactly(s, apps, n);
      var deps := s.policies[apps[n]].dependsOn;
      var i :| 0 <= i < |deps| && deps[i] in members;
      assert Met(s, apps, n, deps[i]);
      var j :| 0 <= j < n && apps[j] == deps[i] && LaunchedAt(s, apps, j);
      DeadlockStays(s, apps, j, members);
    }
  }

  /** Listed after all it depends on, every app that is not up is launched. */
  lemma {:induction false} OrderedAllStart(s: Site, apps: seq<App>, n: nat)
    requires DistinctApps(apps) && n < |apps|
    requires forall k :: 0 <= k < |apps| ==> !Skipped(s, apps[k]) && apps[k] in s.policies
    requires forall k, i :: 0 <= k < |apps| && 0 <= i < |s.policies[apps[k]].dependsOn| ==>
               Ready(s, s.policies[apps[k]].dependsOn[i]) || s.policies[apps[k]].dependsOn[i] in apps[..k]
    ensures LaunchedAt(s, apps, n)
  {
    var deps := s.policies[apps[n]].dependsOn;
    forall i | 0 <= i < |deps|
      ensures Met(s, apps, n, deps[i])
    {
      if !Ready(s, deps[i]) {
        var j :| 0 <= j < n && apps[..n][j] == deps[i];
        OrderedAllStart(s, apps, j);
      }
    }
    LaunchedExactly(s, apps, n);
  }
}
