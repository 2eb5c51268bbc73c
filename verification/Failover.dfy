/**
 Failover end to end: the store a backup has is the store the leader had, so the new leader
 gives every client back the locks it held.
 */
module Failover {
  import opened Database
  import opened Service
  import opened Requests
  import Runs
  import R = Replication
  import opened ReplicatedLogs

  /** The store a replica gets by running its log. */
  function StoreOf(c: R.Cluster<Cmd>, r: nat): Db
    requires r < |c.reps|
  {
    Run(EMPTY_DB, c.reps[r].log)
  }

  /** If no crash ever cut a command short, all live replicas have the same store between
      commands. */
  lemma SameStores(n: nat, actions: seq<R.Action<Cmd>>, a: nat, b: nat)
    requires NeverCut(R.Start(n), actions) && forall e :: !Busy(R.Run(R.Start(n), actions), e)
    requires R.Up(R.Run(R.Start(n), actions), a) && R.Up(R.Run(R.Start(n), actions), b)
    ensures StoreOf(R.Run(R.Start(n), actions), a) == StoreOf(R.Run(R.Start(n), actions), b)
  {
    StartHasLogs<Cmd>(n);
    RunKeepsLevel(R.Start(n), actions);
  }

  /** The leader, replica a, has served requests and crashes between two commands. Replica b
      takes over: it has the leader's store, and although it reads every row of it twice, the
      held set it builds for each client is the one the leader had. */
  lemma NewLeaderKeepsLocks(n: nat, actions: seq<R.Action<Cmd>>, ops: seq<Op>, a: nat, b: nat, backup: Srv,
                            rows: seq<(string, string)>, client: Client)
    requires NeverCut(R.Start(n), actions) && forall e :: !Busy(R.Run(R.Start(n), actions), e)
    requires R.Up(R.Run(R.Start(n), actions), a)
    requires LawfulRun(Intended, START, ops) && RunOps(Intended, START, ops).end == Returned
    requires RunOps(Intended, START, ops).srv.db == StoreOf(R.Run(R.Start(n), actions), a)
    requires R.Up(R.Step(R.Run(R.Start(n), actions), R.Crash(a)), b)
    requires backup.db == StoreOf(R.Step(R.Run(R.Start(n), actions), R.Crash(a)), b)
    requires ListedTwice(rows, backup.db) && client != NO_OWNER
    ensures var leader := RunOps(Intended, START, ops).srv;
            && backup.db == leader.db
            && GetSet(InitializeLeader(backup, rows).held, client) == GetSet(leader.held, client)
  {
    var c := R.Run(R.Start(n), actions);
    assert R.Up(c, b) && R.Step(c, R.Crash(a)).reps[b].log == c.reps[b].log;
    SameStores(n, actions, a, b);
    StartIsGood();
    Runs.RunIsSafe(START, ops);
    Runs.FailoverKeepsLocks(RunOps(Intended, START, ops).srv, backup, rows, client);
  }
}
