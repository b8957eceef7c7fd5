/** Runs of the whole system, without naming their acts; elections as a part of them. */
module SystemRuns {
  import opened Words
  import opened Messages
  import opened LogChain
  import opened Replica
  import opened Election
  import opened LogMatching
  import opened Polls

  /** From `s` to `t` with this care in elections. */
  ghost predicate Brings(g: Group, s: System, t: System, care: Care) {
    exists acts :: Runs(g, s, acts, t) && CarefulRun(g.w, s.cluster, Steps(acts), care)
  }

  ghost predicate Arrives(g: Group, t: System, care: Care) {
    exists s :: Start(g, s) && Brings(g, s, t, care)
  }

  lemma NothingBrings(g: Group, s: System, care: Care)
    ensures Brings(g, s, s, care)
  {
    assert Runs(g, s, [], s) && Steps([]) == [] && CarefulRun(g.w, s.cluster, [], care);
  }

  lemma OneAct(g: Group, s: System, act: Act, care: Care) returns (t: System)
    requires Possible(g, s, act)
    requires act.Take? ==> Careful(s.cluster, act.step, care)
    ensures t == Done(g, s, act) && Brings(g, s, t, care)
  {
    t := Done(g, s, act);
    assert [act][1..] == [];
    assert Runs(g, t, [], t);
    if act.Take? {
      assert Steps([act]) == [act.step] && [act.step][1..] == [];
      assert CarefulRun(g.w, t.cluster, [], care);
    } else {
      assert Steps([act]) == [];
    }
    assert Runs(g, s, [act], t) && CarefulRun(g.w, s.cluster, Steps([act]), care);
  }

  /** What an act makes of a state, as one function. */
  ghost function Move(g: Group): (System, Act) -> Option<System> {
    (s, act) => if Possible(g, s, act) then Some(Done(g, s, act)) else None
  }

  ghost predicate Path<S, A>(move: (S, A) -> Option<S>, s: S, acts: seq<A>, t: S)
    decreases |acts|
  {
    if acts == [] then s == t
    else move(s, acts[0]).Some? && Path(move, move(s, acts[0]).value, acts[1..], t)
  }

  lemma {:induction false} PathThrough<S, A>(move: (S, A) -> Option<S>, s: S, first: seq<A>, u: S, rest: seq<A>, t: S)
    requires Path(move, s, first, u) && Path(move, u, rest, t)
    ensures Path(move, s, first + rest, t)
    decreases |first|
  {
    if first == [] {
      assert first + rest == rest;
    } else {
      assert (first + rest)[0] == first[0] && (first + rest)[1..] == first[1..] + rest;
      PathThrough(move, move(s, first[0]).value, first[1..], u, rest, t);
    }
  }

  lemma {:induction false} RunsArePaths(g: Group, s: System, acts: seq<Act>, t: System)
    ensures Runs(g, s, acts, t) <==> Path(Move(g), s, acts, t)
    decreases |acts|
  {
    if acts != [] && Possible(g, s, acts[0]) {
      RunsArePaths(g, Done(g, s, acts[0]), acts[1..], t);
    }
  }

  lemma {:induction false} StepsThrough(first: seq<Act>, rest: seq<Act>)
    ensures Steps(first + rest) == Steps(first) + Steps(rest)
    decreases |first|
  {
    if first == [] {
      assert first + rest == rest;
    } else {
      assert (first + rest)[0] == first[0] && (first + rest)[1..] == first[1..] + rest;
      StepsThrough(first[1..], rest);
    }
  }

  lemma RunsThrough(g: Group, s: System, first: seq<Act>, u: System, rest: seq<Act>, t: System)
    requires Runs(g, s, first, u) && Runs(g, u, rest, t)
    ensures Runs(g, s, first + rest, t)
  {
    RunsArePaths(g, s, first, u);
    RunsArePaths(g, u, rest, t);
    PathThrough(Move(g), s, first, u, rest, t);
    RunsArePaths(g, s, first + rest, t);
  }

  lemma BringsOn(g: Group, s: System, u: System, t: System, care: Care)
    requires Brings(g, s, u, care) && Brings(g, u, t, care)
    ensures Brings(g, s, t, care)
  {
    var first :| Runs(g, s, first, u) && CarefulRun(g.w, s.cluster, Steps(first), care);
    var rest :| Runs(g, u, rest, t) && CarefulRun(g.w, u.cluster, Steps(rest), care);
    RunsThrough(g, s, first, u, rest, t);
    StepsThrough(first, rest);
    RunsElect(g, s, first, u);
    CarefulThrough(g.w, s.cluster, Steps(first), u.cluster, Steps(rest), care);
  }

  /** A run of elections alone is a run of the system. */
  lemma {:induction false} ElectionRuns(g: Group, s: System, steps: seq<Step>, t: Cluster) returns (acts: seq<Act>)
    requires Reaches(g.w, s.cluster, steps, t) && ElectionOnly(steps)
    ensures Runs(g, s, acts, s.(cluster := t)) && Steps(acts) == steps
    decreases |steps|
  {
    if steps == [] {
      acts := [];
    } else {
      var u := Done(g, s, Take(steps[0]));
      assert u.waiting == s.waiting;
      var rest := ElectionRuns(g, u, steps[1..], t);
      acts := [Take(steps[0])] + rest;
      assert acts[1..] == rest;
    }
  }

  lemma ElectionBrings(g: Group, s: System, t: Cluster, care: Care)
    requires Leads(g.w, s.cluster, t, care)
    ensures Brings(g, s, s.(cluster := t), care)
  {
    var steps :| Reaches(g.w, s.cluster, steps, t) && CarefulRun(g.w, s.cluster, steps, care) && ElectionOnly(steps);
    var acts := ElectionRuns(g, s, steps, t);
  }

  /** Elections leave logs and peer records alone, and take away no leadership. */
  predicate SameLog(a: Node, b: Node) {
    && b.r.log == a.r.log && b.r.applied == a.r.applied && b.r.peers == a.r.peers
    && (b.r.leader == a.r.leader || b.r.role == Leader)
    && (a.r.role == Leader ==> b.r.role == Leader)
  }

  ghost predicate SameLogs(s: Cluster, t: Cluster) {
    t.nodes.Keys == s.nodes.Keys && forall n :: n in s.nodes ==> SameLog(s.nodes[n], t.nodes[n])
  }

  lemma VoterLeavesLog(s: Cluster, node: Node, act: VoterAct)
    requires CanVote(s, node, act)
    ensures SameLog(node, VoterAfter(s, node, act))
  {
  }

  lemma CandidateLeavesLog(w: World, s: Cluster, c: u64, node: Node, act: CandidateAct)
    requires CanRun(w, s, c, node, act)
    ensures SameLog(node, CandidateAfter(w, s, c, node, act))
  {
  }

  lemma ElectionStepLeavesLogs(w: World, s: Cluster, step: Step)
    requires Enabled(w, s, step) && !step.Local?
    ensures SameLogs(s, Next(w, s, step))
  {
    match step
    case Ballot(v, act) => VoterLeavesLog(s, s.nodes[v], act);
    case Campaign(c, act) => CandidateLeavesLog(w, s, c, s.nodes[c], act);
  }

  lemma {:induction false} ElectionLeavesLogs(w: World, s: Cluster, steps: seq<Step>, t: Cluster)
    requires Reaches(w, s, steps, t) && ElectionOnly(steps)
    ensures SameLogs(s, t)
    decreases |steps|
  {
    if steps != [] {
      ElectionStepLeavesLogs(w, s, steps[0]);
      ElectionLeavesLogs(w, Next(w, s, steps[0]), steps[1..], t);
    }
  }

  lemma LeadsLeavesLogs(w: World, s: Cluster, t: Cluster, care: Care)
    requires Leads(w, s, t, care)
    ensures SameLogs(s, t)
  {
    var steps :| Reaches(w, s, steps, t) && CarefulRun(w, s, steps, care) && ElectionOnly(steps);
    ElectionLeavesLogs(w, s, steps, t);
  }

  // ---------- leaders append ----------

  function FirstLog(g: Group): seq<LogEntry> {
    [LogEntry(0, 1, LogHash(g.sha1, g.sha1(GenesisText(g.gid)), 1, 0, []), Command(g.gid, 0, 0, 0, [], []))]
  }

  lemma FirstLogIsValid(g: Group)
    ensures ChainValid(g.sha1, g.gid, FirstLog(g)) && LastIndex(FirstLog(g)) == 1
  {
    ChainExtend(g.sha1, g.gid, [], FirstLog(g)[0]);
    assert [] + FirstLog(g) == FirstLog(g);
  }
}
