/** Groups that never elect anyone: all logs are cut from the founder's, whatever guards the appends. */
module OneAppender {
  import opened Words
  import opened Messages
  import opened Replica
  import opened Election
  import opened ChainRuns
  import opened LogMatching

  ghost predicate CutFromFounder(g: Group, s: Cluster, n: u64)
    requires n in s.nodes && g.founder in s.nodes
  {
    && Intact(g.sha1, g.gid, s.nodes[n].r) && s.nodes[n].r.role != Observer
    && (s.nodes[n].r.leader == n ==> n == g.founder)
    && Log(s, n) <= Log(s, g.founder)
  }

  ghost predicate AllCut(g: Group, s: System) {
    && g.founder in s.cluster.nodes
    && (forall n :: n in s.cluster.nodes ==> CutFromFounder(g, s.cluster, n))
    && (forall held :: held in s.waiting ==> held.n == g.founder)
    && (forall req :: req in s.sent ==> SentOk(s.cluster, req))
  }

  /** The other members and the network when `n` has changed. */
  lemma OthersStayCut(g: Group, s: System, s': System, n: u64)
    requires AllCut(g, s) && Grows(s.cluster, s'.cluster, n) && s'.sent == s.sent && s'.waiting <= s.waiting
    requires CutFromFounder(g, s'.cluster, n)
    ensures AllCut(g, s')
  {
    LogsGrow(s.cluster, s'.cluster, n, g.founder);
    forall x | x in s'.cluster.nodes ensures CutFromFounder(g, s'.cluster, x) {
      if x != n {
        assert CutFromFounder(g, s.cluster, x);
      }
    }
    forall req | req in s'.sent ensures SentOk(s'.cluster, req) {
      SentStays(s.cluster, s'.cluster, n, req);
    }
  }

  lemma VoteKeepsCut(g: Group, s: System, v: u64, act: VoterAct)
    requires AllCut(g, s) && Possible(g, s, Take(Ballot(v, act)))
    ensures AllCut(g, Done(g, s, Take(Ballot(v, act))))
  {
    assert CutFromFounder(g, s.cluster, v);
    OthersStayCut(g, s, Done(g, s, Take(Ballot(v, act))), v);
  }

  lemma CampaignKeepsCut(g: Group, s: System, c: u64, act: CandidateAct)
    requires AllCut(g, s) && Possible(g, s, Take(Campaign(c, act))) && !act.Win?
    ensures AllCut(g, Done(g, s, Take(Campaign(c, act))))
  {
    assert CutFromFounder(g, s.cluster, c);
    OthersStayCut(g, s, Done(g, s, Take(Campaign(c, act))), c);
  }

  /** A request brings a member no further than its sender, and the founder nowhere. */
  lemma RequestKeepsCut(g: Group, s: System, n: u64, env: Env, req: AppendRequest)
    requires AllCut(g, s) && n in s.cluster.nodes && Honest(g, s, n, M.Request(env, req))
    ensures AppendEntries(env, s.cluster.nodes[n].r, req).0.log == Log(s.cluster, n) ||
            AppendEntries(env, s.cluster.nodes[n].r, req).0.log <= Log(s.cluster, g.founder)
  {
    if req.entries == [] {
      EmptyRequestKeepsLog(env, s.cluster.nodes[n].r, req);
    } else {
      assert SentOk(s.cluster, req);
      var lead := req.leaderId;
      var k :| CutAfter(Log(s.cluster, lead), req, k);
      assert CutFromFounder(g, s.cluster, n) && CutFromFounder(g, s.cluster, lead);
      CutsMatch(Log(s.cluster, n), Log(s.cluster, lead), Log(s.cluster, g.founder));
      RequestFollowsSender(env, s.cluster.nodes[n].r, req, Log(s.cluster, lead), k);
    }
  }

  lemma CommandGrowsFounder(g: Group, s: System, n: u64, ev: M.Event)
    requires AllCut(g, s) && n in s.cluster.nodes && Honest(g, s, n, ev) && !ev.Request?
    requires M.After(s.cluster.nodes[n].r, ev).log != Log(s.cluster, n)
    ensures n == g.founder
  {
    assert CutFromFounder(g, s.cluster, n);
    if ev.ClientCommand? {
      assert Held(n, ev.cmd) in s.waiting;
    } else if !ev.Pull? {
      M.OtherEventsKeepLog(s.cluster.nodes[n].r, ev);
      assert false;
    }
  }

  lemma LocalKeepsCut(g: Group, s: System, n: u64, ev: M.Event)
    requires AllCut(g, s) && Possible(g, s, Take(Local(n, ev)))
    ensures AllCut(g, Done(g, s, Take(Local(n, ev))))
  {
    var s', r := Done(g, s, Take(Local(n, ev))), s.cluster.nodes[n].r;
    assert CutFromFounder(g, s.cluster, n);
    EventKeepsChain(g.sha1, g.gid, r, ev);
    M.StaysNoObserver(r, ev);
    LeaderKeepsTerm(n, r, ev);
    if ev.Request? {
      RequestKeepsCut(g, s, n, ev.env, ev.req);
    } else if M.After(r, ev).log != r.log {
      CommandGrowsFounder(g, s, n, ev);
    }
    OthersStayCut(g, s, s', n);
  }

  lemma WinReigns(g: Group, s: System, c: u64)
    requires Possible(g, s, Take(Campaign(c, Win)))
    ensures Done(g, s, Take(Campaign(c, Win))).cluster.reigns != {}
  {
    assert ReignOf(c, s.cluster.nodes[c]) in Done(g, s, Take(Campaign(c, Win))).cluster.reigns;
  }

  lemma ActKeepsCut(g: Group, s: System, act: Act)
    requires AllCut(g, s) && Possible(g, s, act) && Done(g, s, act).cluster.reigns == {}
    ensures AllCut(g, Done(g, s, act))
  {
    match act
    case Send(env, n, peer) =>
      assert CutFromFounder(g, s.cluster, n);
      HeartbeatIsCut(g, s, env, n, peer);
    case Admit(_, n, _) => assert CutFromFounder(g, s.cluster, n);
    case Take(step) =>
      match step
      case Ballot(v, vote) => VoteKeepsCut(g, s, v, vote);
      case Local(n, ev) => LocalKeepsCut(g, s, n, ev);
      case Campaign(c, run) =>
        if run.Win? {
          WinReigns(g, s, c);
          assert false;
        }
        CampaignKeepsCut(g, s, c, run);
  }

  lemma {:induction false} RunKeepsCut(g: Group, s: System, acts: seq<Act>, t: System)
    requires AllCut(g, s) && Runs(g, s, acts, t) && t.cluster.reigns == {}
    ensures AllCut(g, t)
    decreases |acts|
  {
    if acts != [] {
      ReignsGrow(g, Done(g, s, acts[0]), acts[1..], t);
      ActKeepsCut(g, s, acts[0]);
      RunKeepsCut(g, Done(g, s, acts[0]), acts[1..], t);
    }
  }

  /** In a group of one or two members the logs match after every run, guarded or not. */
  lemma PairsMatch(g: Group, s: System, acts: seq<Act>, t: System)
    requires Start(g, s) && Runs(g, s, acts, t) && |g.w.members| <= 2
    ensures AllMatch(t.cluster)
  {
    RunsElect(g, s, acts, t);
    Safety.NoElectionBelowThree(g.w, s.cluster, Steps(acts), t.cluster);
    RunKeepsCut(g, s, acts, t);
    forall m, n | m in t.cluster.nodes && n in t.cluster.nodes ensures Matching(Log(t.cluster, m), Log(t.cluster, n)) {
      assert CutFromFounder(g, t.cluster, m) && CutFromFounder(g, t.cluster, n);
      CutsMatch(Log(t.cluster, m), Log(t.cluster, n), Log(t.cluster, g.founder));
    }
  }
}
