/** What every run can still reach. */
module SyncReach {
  import opened Operations
  import opened StoreFacts
  import opened SyncInvariants
  import opened SyncLimits
  import opened SyncOrigins
  import opened SyncProgress
  import opened SyncRuns
  import opened SyncSystems
  import opened SyncTheorems
  import opened SyncTracking

  /** The clients whose documents are open or can be opened. */
  ghost function Openable(s: System): set<ClientId> {
    set c | c in s.clients && CanOpen(s.doc, s.clients[c])
  }

  ghost function SoundOnes(s: System): set<ClientId> {
    set c | c in s.clients && CursorSound(Log(s), s.doc, s.clients[c].db)
  }

  function LastOf(run: seq<System>): System
    requires run != []
  {
    run[|run| - 1]
  }

  ghost predicate Continues(longer: seq<System>, run: seq<System>) {
    IsRun(longer) && |run| <= |longer| && longer[..|run|] == run
  }

  lemma CalmReached(run: seq<System>, s: System)
    requires IsRun(run) && s == LastOf(run)
    ensures Plan(run, SoundOnes(s)).Gets(AllCalmed(s, Openable(s))) && Calm(AllCalmed(s, Openable(s)), Openable(s))
  {
    CalmGets(run, s);
    CalmInRun(run, s);
    OthersSound(Plan(run, {}), Plan(run, SoundOnes(s)), AllCalmed(s, Openable(s)));
  }

  ghost predicate SoundOnesTracked(s: System) {
    forall c | c in SoundOnes(s) :: TrackedAt(AllCalmed(s, Openable(s)), c)
  }

  lemma CalmInRun(run: seq<System>, s: System)
    requires IsRun(run) && s == LastOf(run)
    ensures Calm(AllCalmed(s, Openable(s)), Openable(s)) && SoundOnesTracked(s)
  {
    InvariantInEveryRun(run, |run| - 1);
    CalmIsCalm(s);
    CalmIsTracked(s);
  }

  lemma CalmGets(run: seq<System>, s: System)
    requires IsRun(run) && s == LastOf(run)
    ensures Plan(run, {}).Gets(AllCalmed(s, Openable(s)))
  {
    var q := Plan(run, {});
    assert q.Extends(run, s);
    CalmAll(q, s, Openable(s));
  }

  lemma OthersSound(q: Plan, q': Plan, s: System)
    requires q.Gets(s) && q'.run == q.run && forall c | c in q'.sound :: TrackedAt(s, c)
    ensures q'.Gets(s)
  {
    var longer :| q.Extends(longer, s);
    assert q'.Extends(longer, s);
  }

  lemma CalmIsCalm(s: System)
    requires Invariant(s)
    ensures Calm(AllCalmed(s, Openable(s)), Openable(s))
  {
    ShutHaveNoSession(s);
    AreCalm(s, Openable(s));
  }

  lemma AreCalm(s: System, open: set<ClientId>)
    requires forall c | c in s.clients && c !in open :: s.clients[c].session.None?
    requires open <= s.clients.Keys
    ensures Calm(AllCalmed(s, open), open)
  {}

  lemma CalmIsTracked(s: System)
    requires Invariant(s)
    ensures SoundOnesTracked(s)
  {
    ShutHaveNoSession(s);
    forall c | c in SoundOnes(s) ensures TrackedAt(AllCalmed(s, Openable(s)), c) {
      SoundIsTracked(s, Openable(s), c);
    }
  }

  lemma SoundIsTracked(s: System, open: set<ClientId>, c: ClientId)
    requires c in SoundOnes(s) && (c in open || s.clients[c].session.None?)
    ensures TrackedAt(AllCalmed(s, open), c)
  {
    assert AllCalmed(s, open).clients[c].session.None?;
  }

  lemma ShutHaveNoSession(s: System)
    requires Invariant(s)
    ensures forall c | c in s.clients && c !in Openable(s) :: s.clients[c].session.None?
  {
    forall c | c in s.clients && c !in Openable(s) ensures s.clients[c].session.None? {
      assert ClientOk(s.created, Log(s), s.doc, c, s.clients[c]);
    }
  }

  /** The client is up to date, and knows exactly the log if its cursor was sound. */
  ghost predicate CaughtUp(s: System, s': System, c: ClientId) {
    && UpToDate(s', c) && s'.clients[c].replica.Some?
    && (c in SoundOnes(s) ==> KnownOf(s'.clients[c].db, s'.doc) == LoggedOps(Log(s')))
  }

  lemma SoundOnesConverge(q: Plan, s': System, c: ClientId)
    requires q.Gets(s') && c in q.sound && UpToDate(s', c)
    ensures KnownOf(s'.clients[c].db, s'.doc) == LoggedOps(Log(s'))
  {
    var longer :| q.Extends(longer, s');
    SoundMeansConverged(longer, |longer| - 1, c);
    assert TrackedAt(s', c);
  }

  lemma OnwardFrom(run: seq<System>, s: System) returns (s': System)
    requires IsRun(run) && s == LastOf(run)
    requires s.server.sequence + |Unlogged(s, Openable(s))| <= MAX_SAFE_INTEGER
    ensures Plan(run, SoundOnes(s)).Gets(s') && Unlogged(s', Openable(s)) == {}
    ensures forall c | c in Openable(s) :: Idle(s', c) && UpToDate(s', c)
  {
    var q, open, s1 := Plan(run, SoundOnes(s)), Openable(s), AllCalmed(s, Openable(s));
    CalmReached(run, s);
    assert Unlogged(s1, open) == Unlogged(s, open);
    var s2 := UploadAll(q, s1, open);
    assert forall c | c in open :: Waits(s2, c);
    s' := AllCatchUp(q, s2, open, open);
  }

  /** Every run can be continued, without another edit, until each client whose document
      is not shut is up to date and the log holds all that they made. A cursor that was
      sound stays so, and its client then knows exactly the log. */
  lemma EveryoneCanCatchUp(run: seq<System>) returns (longer: seq<System>)
    requires IsRun(run)
    requires LastOf(run).server.sequence + |Unlogged(LastOf(run), Openable(LastOf(run)))| <= MAX_SAFE_INTEGER
    ensures Continues(longer, run)
    ensures var s, s' := LastOf(run), LastOf(longer);
      && s'.doc == s.doc && s'.created == s.created && s'.clients.Keys == s.clients.Keys
      && Unlogged(s', Openable(s)) == {}
      && forall c | c in Openable(s) :: CaughtUp(s, s', c)
  {
    var s := LastOf(run);
    var s' := OnwardFrom(run, s);
    var q := Plan(run, SoundOnes(s));
    forall c | c in Openable(s) ensures CaughtUp(s, s', c) {
      if c in SoundOnes(s) { SoundOnesConverge(q, s', c); }
    }
    longer :| q.Extends(longer, s');
  }

  /** All clients are up to date and know everything that was ever made. */
  ghost predicate Converged(s: System) {
    Quiet(s) && forall c | c in s.clients :: KnownOf(s.clients[c].db, s.doc) == s.created
  }

  ghost predicate AllOpenable(s: System) {
    forall c | c in s.clients :: c in Openable(s)
  }

  ghost predicate ConvergesAfter(run: seq<System>) {
    exists longer :: Continues(longer, run) && Converged(LastOf(longer))
  }

  /** With sound cursors, convergence stays in reach exactly as long as no document is
      shut. */
  lemma ConvergenceIsInReachExactly(run: seq<System>)
    requires IsRun(run) && forall c | c in LastOf(run).clients :: c in SoundOnes(LastOf(run))
    requires LastOf(run).server.sequence + |Unlogged(LastOf(run), Openable(LastOf(run)))| <= MAX_SAFE_INTEGER
    ensures ConvergesAfter(run) <==> AllOpenable(LastOf(run))
  {
    if AllOpenable(LastOf(run)) { OpenablesConverge(run); }
    if ConvergesAfter(run) {
      var longer :| Continues(longer, run) && Converged(LastOf(longer));
      ConvergedWereOpenable(run, longer);
    }
  }

  lemma OpenablesConverge(run: seq<System>)
    requires IsRun(run) && forall c | c in LastOf(run).clients :: c in SoundOnes(LastOf(run))
    requires LastOf(run).server.sequence + |Unlogged(LastOf(run), Openable(LastOf(run)))| <= MAX_SAFE_INTEGER
    requires AllOpenable(LastOf(run))
    ensures ConvergesAfter(run)
  {
    var longer := EveryoneCanCatchUp(run);
    AllCaughtUpConverged(LastOf(run), longer);
    assert Continues(longer, run) && Converged(LastOf(longer));
  }

  lemma ConvergedWereOpenable(run: seq<System>, longer: seq<System>)
    requires IsRun(run) && Continues(longer, run) && Converged(LastOf(longer))
    ensures AllOpenable(LastOf(run))
  {
    var s, i := LastOf(run), |run| - 1;
    assert longer[i] == longer[..|run|][i] == s;
    ConvergedLacksNothing(LastOf(longer));
    forall c | c in s.clients ensures c in Openable(s) {
      if !CanOpen(s.doc, s.clients[c]) {
        ShutInRun(run, i, c);
        ShutNeverConverges(longer, i, |longer| - 1, c, KnownOf(s.clients[c].db, s.doc));
      }
    }
  }

  lemma AllCaughtUpConverged(s: System, longer: seq<System>)
    requires IsRun(longer) && LastOf(longer).clients.Keys == s.clients.Keys
    requires forall c | c in s.clients :: c in SoundOnes(s) && CaughtUp(s, LastOf(longer), c)
    ensures Converged(LastOf(longer))
  {
    var s' := LastOf(longer);
    assert Quiet(s');
    forall c | c in s'.clients ensures KnownOf(s'.clients[c].db, s'.doc) == s'.created {
      assert CaughtUp(s, s', c);
      SoundMeansConverged(longer, |longer| - 1, c);
      QuietMeansConverged(longer, |longer| - 1, c);
    }
  }

  lemma NotOpenableIsShut(s: System, c: ClientId)
    requires Invariant(s) && c in s.clients && !CanOpen(s.doc, s.clients[c])
    ensures Shut(s, c, KnownOf(s.clients[c].db, s.doc))
  {
    assert ClientOk(s.created, Log(s), s.doc, c, s.clients[c]);
  }

  ghost predicate LacksSomething(s: System, c: ClientId) {
    c in s.clients && KnownOf(s.clients[c].db, s.doc) != s.created
  }

  lemma ConvergedLacksNothing(s: System)
    requires Converged(s)
    ensures forall c :: !LacksSomething(s, c)
  {}

  lemma ShutLacksSomething(s: System, c: ClientId, K: OpMap)
    requires Invariant(s) && Shut(s, c, K)
    ensures LacksSomething(s, c)
  {}

  lemma ShutInRun(run: seq<System>, i: nat, c: ClientId)
    requires IsRun(run) && i < |run| && c in run[i].clients && !CanOpen(run[i].doc, run[i].clients[c])
    ensures Shut(run[i], c, KnownOf(run[i].clients[c].db, run[i].doc))
  {
    InvariantInEveryRun(run, i);
    NotOpenableIsShut(run[i], c);
  }

  lemma ShutLacks(run: seq<System>, j: nat, c: ClientId, K: OpMap)
    requires IsRun(run) && j < |run| && Shut(run[j], c, K)
    ensures LacksSomething(run[j], c)
  {
    InvariantInEveryRun(run, j);
    ShutLacksSomething(run[j], c, K);
  }

  lemma ShutNeverConverges(longer: seq<System>, i: nat, j: nat, c: ClientId, K: OpMap)
    requires IsRun(longer) && i <= j < |longer| && Shut(longer[i], c, K)
    ensures LacksSomething(longer[j], c)
  {
    ShutLater(longer, i, j, c, K);
    ShutLacks(longer, j, c, K);
  }
}
