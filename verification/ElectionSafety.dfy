/** What holds over every run of elections, and what a careful run adds. */
module ElectionSafety {
  import opened Words
  import opened Messages
  import opened LogChain
  import opened Quorum
  import opened Replica
  import opened Election

  // ---------- every run ----------

  /** `s'` is `s` with one member changed, no term lowered, and history only added to. */
  ghost predicate Extends(s: Cluster, s': Cluster, n: u64) {
    && n in s.nodes && s'.nodes.Keys == s.nodes.Keys
    && (forall x :: x in s.nodes && x != n ==> s'.nodes[x] == s.nodes[x])
    && s.nodes[n].r.term <= s'.nodes[n].r.term
    && s.requests <= s'.requests && s.grants <= s'.grants && s.reigns <= s'.reigns
  }

  lemma BackedStays(s: Cluster, s': Cluster, reign: Reign, v: u64)
    requires s.grants <= s'.grants && Backed(s, reign, v)
    ensures Backed(s', reign, v)
  {
    var g :| g in s.grants && g.voter == v && g.req.candidateId == reign.leader && g.req.term == reign.term &&
             g.req.logIndex == reign.lastIndex;
    assert g in s'.grants;
  }

  lemma CampaignStays(w: World, s: Cluster, s': Cluster, c: u64, votes: seq<Grant>)
    requires c in s.nodes && c in s'.nodes && s.grants <= s'.grants && CampaignOk(w, s, c, votes)
    requires CandidacyRequest(EnvAt(w, c), s.nodes[c].r) == CandidacyRequest(EnvAt(w, c), s'.nodes[c].r)
    ensures CampaignOk(w, s', c, votes)
  {
  }

  lemma ReignStays(w: World, s: Cluster, s': Cluster, reign: Reign)
    requires s.grants <= s'.grants && ReignOk(w, s, reign)
    ensures ReignOk(w, s', reign)
  {
    forall v | v in reign.voters ensures Backed(s', reign, v) {
      BackedStays(s, s', reign, v);
    }
  }

  lemma NodeStays(w: World, s: Cluster, s': Cluster, x: u64)
    requires x in s.nodes && x in s'.nodes && s'.nodes[x] == s.nodes[x]
    requires s.requests <= s'.requests && s.grants <= s'.grants && NodeOk(w, s, x)
    ensures NodeOk(w, s', x)
  {
    if s.nodes[x].running.Collecting? {
      CampaignStays(w, s, s', x, s.nodes[x].running.votes);
    }
  }

  lemma Frame(w: World, s: Cluster, s': Cluster, n: u64)
    requires Inv(w, s) && Extends(s, s', n)
    ensures forall req :: req in s.requests ==> RequestOk(s', req)
    ensures forall g :: g in s.grants ==> GrantOk(s', g)
    ensures forall x :: x in s.nodes && x != n ==> NodeOk(w, s', x)
    ensures forall reign :: reign in s.reigns ==> ReignOk(w, s', reign)
  {
    forall req | req in s.requests ensures RequestOk(s', req) {
      assert RequestOk(s, req);
    }
    forall g | g in s.grants ensures GrantOk(s', g) {
      assert GrantOk(s, g);
    }
    forall x | x in s.nodes && x != n ensures NodeOk(w, s', x) {
      NodeStays(w, s, s', x);
    }
    forall reign | reign in s.reigns ensures ReignOk(w, s', reign) {
      ReignStays(w, s, s', reign);
    }
  }

  /** No new support, no new conflict. */
  lemma SupportStays(s: Cluster, s': Cluster)
    requires forall a: u64, b: u64, t: u64 :: Supports(s', a, b, t) ==> Supports(s, a, b, t)
    requires forall a: u64, b: u64, t: u64 :: Supports(s, a, b, t) ==> !Supports(s, b, a, t)
    ensures forall a: u64, b: u64, t: u64 :: Supports(s', a, b, t) ==> !Supports(s', b, a, t)
  {
  }

  /** A member that supports a candidate has seen a request that the candidate itself has outgrown or reached. */
  lemma SupportNeedsRequest(w: World, s: Cluster, v: u64, c: u64, term: u64)
    requires Inv(w, s) && Supports(s, v, c, term)
    ensures c in s.nodes && term <= s.nodes[c].r.term && v != c
  {
    if v in s.nodes && Seeks(s.nodes[v], c, term) {
      assert NodeOk(w, s, v);
      assert RequestOk(s, Sought(s.nodes[v]).value);
    } else {
      var g :| g in s.grants && g.voter == v && g.req.candidateId == c && g.req.term == term;
      assert GrantOk(s, g);
      assert RequestOk(s, g.req);
    }
  }

  /** A step of `n` that grants nothing and sets nobody up for a vote. */
  ghost predicate Quiet(s: Cluster, s': Cluster, n: u64) {
    && Extends(s, s', n) && s'.grants == s.grants
    && (Sought(s'.nodes[n]).Some? ==> Sought(s'.nodes[n]) == Sought(s.nodes[n]))
  }

  lemma QuietKeepsInv(w: World, s: Cluster, s': Cluster, n: u64)
    requires Inv(w, s) && Quiet(s, s', n) && NodeOk(w, s', n)
    requires forall req :: req in s'.requests ==> req in s.requests || RequestOk(s', req)
    requires forall reign :: reign in s'.reigns ==> reign in s.reigns || ReignOk(w, s', reign)
    ensures Inv(w, s')
  {
    Frame(w, s, s', n);
    forall a: u64, b: u64, t: u64 | Supports(s', a, b, t) ensures Supports(s, a, b, t) {
    }
    SupportStays(s, s');
  }

  // ---------- a voter's steps ----------

  /** Only what the voter does to itself: its campaign and its size go on as they were. */
  lemma VoterGoesOn(w: World, s: Cluster, v: u64, act: VoterAct)
    requires Enabled(w, s, Ballot(v, act)) && NodeOk(w, s, v)
    ensures var s' := Next(w, s, Ballot(v, act)); Extends(s, s', v) && RunningOk(w, s', v)
    ensures |Next(w, s, Ballot(v, act)).nodes[v].r.peers| == |w.members|
  {
    var s' := Next(w, s, Ballot(v, act));
    if s.nodes[v].running.Collecting? {
      CampaignStays(w, s, s', v, s.nodes[v].running.votes);
    }
  }

  lemma LookKeepsInv(w: World, s: Cluster, v: u64, req: VoteRequest)
    requires Inv(w, s) && Enabled(w, s, Ballot(v, Look(req)))
    ensures Inv(w, Next(w, s, Ballot(v, Look(req))))
  {
    var s' := Next(w, s, Ballot(v, Look(req)));
    assert RequestOk(s, req) && NodeOk(w, s, v);
    VoterGoesOn(w, s, v, Look(req));
    Frame(w, s, s', v);
    assert NodeOk(w, s', v);
    var c, t := req.candidateId, req.term;
    if s.nodes[v].r.term < t && Supports(s, c, v, t) {
      SupportNeedsRequest(w, s, c, v, t);
      assert false;
    }
    forall a: u64, b: u64, u: u64 | Supports(s', a, b, u)
      ensures Supports(s, a, b, u) || (a == v && b == c && u == t && s.nodes[v].r.term < t)
    {
    }
  }

  /** The checks ask for what CheckedBy says, of what was read before. */
  lemma QuietVoterKeepsInv(w: World, s: Cluster, v: u64, act: VoterAct)
    requires Inv(w, s) && Enabled(w, s, Ballot(v, act)) && !act.Look? && !act.Give?
    ensures Inv(w, Next(w, s, Ballot(v, act)))
  {
    var s' := Next(w, s, Ballot(v, act));
    assert NodeOk(w, s, v);
    VoterGoesOn(w, s, v, act);
    assert VotingOk(s', v);
    QuietKeepsInv(w, s, s', v);
  }

  lemma GiveKeepsInv(w: World, s: Cluster, v: u64)
    requires Inv(w, s) && Enabled(w, s, Ballot(v, Give))
    ensures Inv(w, Next(w, s, Ballot(v, Give)))
  {
    var s' := Next(w, s, Ballot(v, Give));
    assert NodeOk(w, s, v);
    VoterGoesOn(w, s, v, Give);
    Frame(w, s, s', v);
    assert GrantOk(s', GrantOf(v, s.nodes[v].voting.p));
    assert NodeOk(w, s', v);
    forall a: u64, b: u64, u: u64 | Supports(s', a, b, u) ensures Supports(s, a, b, u) {
    }
    SupportStays(s, s');
  }

  // ---------- a candidate's steps ----------

  lemma OneMoreVote(w: World, s: Cluster, c: u64, before: seq<Grant>, g: Grant)
    requires c in s.nodes && CampaignOk(w, s, c, before)
    requires g in s.grants && g.req == CandidacyRequest(EnvAt(w, c), s.nodes[c].r) && g.voter !in Voters(before)
    ensures CampaignOk(w, s, c, before + [g])
  {
    assert Voters(before + [g]) == Voters(before) + {g.voter};
  }

  lemma {:induction false} CountedAtMostAll(env: Env, lastIndex: u64, responses: seq<Response>)
    ensures |CountedVotes(env, lastIndex, responses)| <= |responses|
    decreases |responses|
  {
    if responses != [] {
      CountedAtMostAll(env, lastIndex, responses[..|responses| - 1]);
    }
  }

  lemma CampaignBacks(w: World, s: Cluster, c: u64, reign: Reign)
    requires Inv(w, s) && c in s.nodes && s.nodes[c].running.Collecting?
    requires |CountedIn(w, c, s.nodes[c])| >= QuorumSize(s.nodes[c].r)
    requires reign == ReignOf(c, s.nodes[c])
    ensures ReignOk(w, s, reign)
  {
    assert NodeOk(w, s, c);
    var votes := s.nodes[c].running.votes;
    CountedAtMostAll(EnvAt(w, c), LastIndex(s.nodes[c].r.log), ResponsesOf(w, votes));
    forall v | v in reign.voters ensures Backed(s, reign, v) {
      var g :| g in votes && g.voter == v;
      assert g in s.grants;
    }
  }

  lemma CandidateEffect(w: World, s: Cluster, c: u64, node: Node, act: CandidateAct)
    requires CanRun(w, s, c, node, act)
    ensures var node' := CandidateAfter(w, s, c, node, act);
            node'.voting == node.voting && node'.r.peers == node.r.peers && node.r.term <= node'.r.term
  {
  }

  /** What a candidate does to itself sets nobody up for a vote and lowers no term. */
  lemma CandidateIsQuiet(w: World, s: Cluster, c: u64, act: CandidateAct)
    requires Enabled(w, s, Campaign(c, act)) && NodeOk(w, s, c)
    ensures Quiet(s, Next(w, s, Campaign(c, act)), c) && VotingOk(Next(w, s, Campaign(c, act)), c)
    ensures |Next(w, s, Campaign(c, act)).nodes[c].r.peers| == |w.members|
  {
    CandidateEffect(w, s, c, s.nodes[c], act);
  }

  /** Its campaign holds one vote per voter at each step. */
  lemma CandidateGoesOn(w: World, s: Cluster, c: u64, act: CandidateAct)
    requires Enabled(w, s, Campaign(c, act)) && NodeOk(w, s, c)
    ensures RunningOk(w, Next(w, s, Campaign(c, act)), c)
  {
    var s' := Next(w, s, Campaign(c, act));
    if act.Collect? {
      var before := s.nodes[c].running.votes;
      OneMoreVote(w, s, c, before, act.grant);
      CampaignStays(w, s, s', c, before + [act.grant]);
    } else if act.Ask? {
      assert Voters([]) == {};
    }
  }

  /** A win adds a reign that its campaign backs; no other step adds one. */
  lemma ReignsAreBacked(w: World, s: Cluster, c: u64, act: CandidateAct)
    requires Inv(w, s) && Enabled(w, s, Campaign(c, act))
    ensures var s' := Next(w, s, Campaign(c, act));
            forall reign :: reign in s'.reigns ==> reign in s.reigns || ReignOk(w, s', reign)
  {
    if act.Win? {
      CampaignBacks(w, s, c, ReignOf(c, s.nodes[c]));
      ReignStays(w, s, Next(w, s, Campaign(c, act)), ReignOf(c, s.nodes[c]));
    }
  }

  lemma CampaignKeepsInv(w: World, s: Cluster, c: u64, act: CandidateAct)
    requires Inv(w, s) && Enabled(w, s, Campaign(c, act))
    ensures Inv(w, Next(w, s, Campaign(c, act)))
  {
    assert NodeOk(w, s, c);
    CandidateIsQuiet(w, s, c, act);
    CandidateGoesOn(w, s, c, act);
    ReignsAreBacked(w, s, c, act);
    QuietKeepsInv(w, s, Next(w, s, Campaign(c, act)), c);
  }

  // ---------- whole runs ----------

  /** A local operation sets nobody up for a vote, and only late votes come into a campaign. */
  lemma LocalIsQuiet(w: World, s: Cluster, n: u64, ev: MemberRuns.Event)
    requires Enabled(w, s, Local(n, ev)) && NodeOk(w, s, n)
    ensures Quiet(s, Next(w, s, Local(n, ev)), n) && NodeOk(w, Next(w, s, Local(n, ev)), n)
  {
    var s' := Next(w, s, Local(n, ev));
    LocalEffect(s.nodes[n].r, ev);
    if s'.nodes[n].running.Collecting? {
      CampaignStays(w, s, s', n, s.nodes[n].running.votes);
    }
  }

  lemma LocalKeepsInv(w: World, s: Cluster, n: u64, ev: MemberRuns.Event)
    requires Inv(w, s) && Enabled(w, s, Local(n, ev))
    ensures Inv(w, Next(w, s, Local(n, ev)))
  {
    assert NodeOk(w, s, n);
    LocalIsQuiet(w, s, n, ev);
    QuietKeepsInv(w, s, Next(w, s, Local(n, ev)), n);
  }

  lemma StepKeepsInv(w: World, s: Cluster, step: Step)
    requires Inv(w, s) && Enabled(w, s, step)
    ensures Inv(w, Next(w, s, step))
  {
    match step
    case Ballot(v, act) =>
      if act.Look? {
        LookKeepsInv(w, s, v, act.req);
      } else if act.Give? {
        GiveKeepsInv(w, s, v);
      } else {
        QuietVoterKeepsInv(w, s, v, act);
      }
    case Campaign(c, act) => CampaignKeepsInv(w, s, c, act);
    case Local(n, ev) => LocalKeepsInv(w, s, n, ev);
  }

  lemma InitHasInv(w: World, s: Cluster)
    requires Init(w, s)
    ensures Inv(w, s)
  {
  }

  lemma {:induction false} RunKeepsInv(w: World, s: Cluster, steps: seq<Step>, t: Cluster)
    requires Inv(w, s) && Reaches(w, s, steps, t)
    ensures Inv(w, t)
    decreases |steps|
  {
    if steps != [] {
      StepKeepsInv(w, s, steps[0]);
      RunKeepsInv(w, Next(w, s, steps[0]), steps[1..], t);
    }
  }

  lemma ReachableHasInv(w: World, s: Cluster, steps: seq<Step>, t: Cluster)
    requires Init(w, s) && Reaches(w, s, steps, t)
    ensures Inv(w, t)
  {
    InitHasInv(w, s);
    RunKeepsInv(w, s, steps, t);
  }

  // ---------- the election restriction ----------

  /** A vote behind a reign: cast by `v` while its log was no longer and its term lower, by no more than the bump. */
  ghost predicate FairVote(t: Cluster, reign: Reign, v: u64) {
    exists g :: g in t.grants && g.voter == v && g.req.candidateId == reign.leader && g.req.term == reign.term &&
                g.logIndex <= reign.lastIndex && g.term < reign.term <= g.term + 20
  }

  lemma BackingIsFair(w: World, t: Cluster, reign: Reign, v: u64)
    requires Inv(w, t) && reign in t.reigns && v in reign.voters
    ensures v in w.members && reign.leader in w.members && v != reign.leader
    ensures FairVote(t, reign, v)
    ensures Supports(t, v, reign.leader, reign.term)
  {
    assert ReignOk(w, t, reign);
    assert Backed(t, reign, v);
    var g :| g in t.grants && g.voter == v && g.req.candidateId == reign.leader && g.req.term == reign.term &&
             g.req.logIndex == reign.lastIndex;
    assert GrantOk(t, g);
    assert RequestOk(t, g.req);
  }

  lemma ReignsAreFair(w: World, t: Cluster, reign: Reign)
    requires Inv(w, t) && reign in t.reigns
    ensures reign.leader in w.members && reign.voters <= w.members - {reign.leader}
    ensures |reign.voters| >= ExpectedPlayers(|w.members|)
    ensures forall v :: v in reign.voters ==> FairVote(t, reign, v)
  {
    assert ReignOk(w, t, reign);
    forall v | v in reign.voters
      ensures v in w.members - {reign.leader} && reign.leader in w.members && FairVote(t, reign, v)
    {
      BackingIsFair(w, t, reign, v);
    }
    var one :| one in reign.voters;
  }

  /**
   Every candidacy that was won had a quorum of distinct other members behind it, each of which was asked while its
   last index was no larger than the new leader's and its term lower than the new leader's by at most 20.
   */
  lemma ElectionRestriction(w: World, s: Cluster, steps: seq<Step>, t: Cluster, reign: Reign)
    requires Init(w, s) && Reaches(w, s, steps, t) && reign in t.reigns
    ensures reign.voters <= w.members - {reign.leader}
    ensures |reign.voters| >= |w.members| / 2 + 1
    ensures forall v :: v in reign.voters ==> FairVote(t, reign, v)
  {
    ReachableHasInv(w, s, steps, t);
    ReignsAreFair(w, t, reign);
    ExpectedPlayersIsMajority(|w.members|);
  }

  /** A candidate's own vote never counts, so a group of one or two members never elects anyone. */
  lemma NoElectionBelowThree(w: World, s: Cluster, steps: seq<Step>, t: Cluster)
    requires Init(w, s) && Reaches(w, s, steps, t) && |w.members| <= 2
    ensures t.reigns == {}
  {
    ReachableHasInv(w, s, steps, t);
    forall reign | reign in t.reigns ensures false {
      ReignsAreFair(w, t, reign);
      SubsetSize(reign.voters, w.members - {reign.leader});
    }
  }

  lemma EveryoneElse(members: set<u64>, leader: u64, voters: set<u64>, other: u64)
    requires |members| <= 4 && leader in members && voters <= members - {leader}
    requires |voters| >= ExpectedPlayers(|members|)
    requires other in members && other != leader
    ensures other in voters
  {
    if other !in voters {
      SubsetSize(voters, members - {leader} - {other});
      assert false;
    }
  }

  lemma SmallGroupPair(w: World, t: Cluster, a: Reign, b: Reign)
    requires Inv(w, t) && |w.members| <= 4
    requires a in t.reigns && b in t.reigns && a.term == b.term
    ensures a.leader == b.leader
  {
    ReignsAreFair(w, t, a);
    ReignsAreFair(w, t, b);
    if a.leader != b.leader {
      EveryoneElse(w.members, a.leader, a.voters, b.leader);
      EveryoneElse(w.members, b.leader, b.voters, a.leader);
      BackingIsFair(w, t, a, b.leader);
      BackingIsFair(w, t, b, a.leader);
      assert false;
    }
  }

  /** Among at most four, a quorum is everyone else, so two leaders of one term would have voted for each other. */
  lemma SmallGroupsAreSafe(w: World, s: Cluster, steps: seq<Step>, t: Cluster)
    requires Init(w, s) && Reaches(w, s, steps, t) && |w.members| <= 4
    ensures OneLeaderPerTerm(t)
  {
    ReachableHasInv(w, s, steps, t);
    forall a, b | a in t.reigns && b in t.reigns && a.term == b.term ensures a.leader == b.leader {
      SmallGroupPair(w, t, a, b);
    }
  }

  // ---------- careful runs ----------

  /** The vote record as it is meant: a vote that is half written counts as written. */
  datatype Ballots = Ballots(to: u64, term: u64)

  function Recorded(node: Node): Ballots {
    if node.voting.Marked? then Ballots(node.voting.p.req.candidateId, node.voting.p.req.term)
    else Ballots(node.r.votedTo, node.r.votedTerm)
  }

  /** A past grant can no longer be contradicted: its term is over, outvoted, or still on record. */
  predicate Covered(node: Node, req: VoteRequest) {
    || req.term <= node.r.term
    || req.term < Recorded(node).term
    || (req.term == Recorded(node).term && req.candidateId == Recorded(node).to)
  }

  /** The term before a reset that has already raised it. */
  function BaseTerm(node: Node): int {
    if node.running.Bumped? then node.r.term - 1 else node.r.term
  }

  /** A vote past its checks is for whom the member has voted before in that term, unless it would not be careful. */
  predicate Agrees(node: Node, req: VoteRequest) {
    match node.voting
    case Passed(p) =>
      req.term == p.req.term ==>
        req.candidateId == p.req.candidateId || node.r.votedTerm > p.req.term > BaseTerm(node)
    case Marked(p) => req.term == p.req.term ==> req.candidateId == p.req.candidateId
    case _ => true
  }

  /** What is read stays true while no reset overlaps it. */
  predicate Undisturbed(node: Node) {
    && (Deciding(node) ==> !Resetting(node))
    && (node.voting.Looked? ==> node.voting.term == node.r.term)
    && (node.voting.Checking? ==> node.voting.p.term == node.r.term)
    && (node.voting.Marked? ==> node.r.votedTo == node.voting.p.req.candidateId)
    && (node.running.Cleared? ==> node.r.votedTerm == 0)
  }

  ghost predicate CarefulInv(s: Cluster) {
    && (forall v :: v in s.nodes ==> Undisturbed(s.nodes[v]))
    && (forall g :: g in s.grants && g.voter in s.nodes ==>
          Covered(s.nodes[g.voter], g.req) && Agrees(s.nodes[g.voter], g.req))
    && (forall g, g' :: g in s.grants && g' in s.grants && g.voter == g'.voter && g.req.term == g'.req.term ==>
          g.req.candidateId == g'.req.candidateId)
  }

  lemma InitIsCareful(w: World, s: Cluster)
    requires Init(w, s)
    ensures CarefulInv(s)
  {
  }

  /** A reset at or above the last voted term keeps every grant covered; below it, the record of that vote is lost. */
  lemma ResetCoversExactly(node: Node, term: u64, req: VoteRequest)
    requires Covered(node, req) && node.r.term <= term && !node.voting.Marked?
    ensures var reset := node.(r := ResetTerm(node.r, term));
            && (node.r.votedTerm <= term ==> Covered(reset, req))
            && (req.term == node.r.votedTerm && term < node.r.votedTerm ==> !Covered(reset, req))
  {
  }

  /** Where one member changes and no grant is added, only that member's side has to be looked at. */
  lemma CarefulFrame(s: Cluster, s': Cluster, n: u64)
    requires CarefulInv(s) && n in s.nodes && s'.nodes.Keys == s.nodes.Keys && s'.grants == s.grants
    requires forall x :: x in s.nodes && x != n ==> s'.nodes[x] == s.nodes[x]
    requires Undisturbed(s'.nodes[n])
    requires forall g :: g in s.grants && g.voter == n ==> Covered(s'.nodes[n], g.req) && Agrees(s'.nodes[n], g.req)
    ensures CarefulInv(s')
  {
  }

  /** One step of a voter, on one grant it has given. */
  lemma VoterKeepsGrant(w: World, s: Cluster, v: u64, act: VoterAct, g: Grant)
    requires Inv(w, s) && CarefulInv(s) && Enabled(w, s, Ballot(v, act)) && Careful(s, Ballot(v, act), ALL)
    requires g in s.grants && g.voter == v
    ensures var node := VoterAfter(s, s.nodes[v], act); Covered(node, g.req) && (act.Give? || Agrees(node, g.req))
    ensures act.Give? && g.req.term == s.nodes[v].voting.p.req.term ==>
              g.req.candidateId == s.nodes[v].voting.p.req.candidateId
  {
    assert Covered(s.nodes[v], g.req) && Agrees(s.nodes[v], g.req) && Undisturbed(s.nodes[v]);
    assert GrantOk(s, g);
    assert RequestOk(s, g.req);
  }

  lemma CarefulVoter(w: World, s: Cluster, v: u64, act: VoterAct)
    requires Inv(w, s) && CarefulInv(s) && Enabled(w, s, Ballot(v, act)) && Careful(s, Ballot(v, act), ALL)
    requires !act.Give?
    ensures CarefulInv(Next(w, s, Ballot(v, act)))
  {
    var s' := Next(w, s, Ballot(v, act));
    forall g | g in s.grants && g.voter == v ensures Covered(s'.nodes[v], g.req) && Agrees(s'.nodes[v], g.req) {
      VoterKeepsGrant(w, s, v, act, g);
    }
    assert Undisturbed(s.nodes[v]);
    CarefulFrame(s, s', v);
  }

  lemma CarefulGive(w: World, s: Cluster, v: u64)
    requires Inv(w, s) && CarefulInv(s) && Enabled(w, s, Ballot(v, Give)) && Careful(s, Ballot(v, Give), ALL)
    ensures CarefulInv(Next(w, s, Ballot(v, Give)))
  {
    var s' := Next(w, s, Ballot(v, Give));
    var given := GrantOf(v, s.nodes[v].voting.p);
    forall g | g in s.grants && g.voter == v
      ensures Covered(s'.nodes[v], g.req)
      ensures g.req.term == given.req.term ==> g.req.candidateId == given.req.candidateId
    {
      VoterKeepsGrant(w, s, v, Give, g);
    }
    assert Undisturbed(s.nodes[v]);
  }

  /** One step of a candidate, on one grant it has given. */
  lemma CandidateKeepsGrant(w: World, s: Cluster, c: u64, act: CandidateAct, req: VoteRequest)
    requires Enabled(w, s, Campaign(c, act)) && Careful(s, Campaign(c, act), ALL)
    requires Undisturbed(s.nodes[c]) && Covered(s.nodes[c], req) && Agrees(s.nodes[c], req)
    ensures var node := CandidateAfter(w, s, c, s.nodes[c], act);
            Undisturbed(node) && Covered(node, req) && Agrees(node, req)
  {
    if act.Win? {
      WinEffect(EnvAt(w, c), s.nodes[c].r, ResponsesOf(w, s.nodes[c].running.votes));
    }
  }

  lemma CandidateUndisturbed(w: World, s: Cluster, c: u64, act: CandidateAct)
    requires Enabled(w, s, Campaign(c, act)) && Careful(s, Campaign(c, act), ALL) && Undisturbed(s.nodes[c])
    ensures Undisturbed(CandidateAfter(w, s, c, s.nodes[c], act))
  {
    if act.Win? {
      WinEffect(EnvAt(w, c), s.nodes[c].r, ResponsesOf(w, s.nodes[c].running.votes));
    }
  }

  lemma CarefulCandidate(w: World, s: Cluster, c: u64, act: CandidateAct)
    requires CarefulInv(s) && Enabled(w, s, Campaign(c, act)) && Careful(s, Campaign(c, act), ALL)
    ensures CarefulInv(Next(w, s, Campaign(c, act)))
  {
    var s' := Next(w, s, Campaign(c, act));
    assert Undisturbed(s.nodes[c]);
    CandidateUndisturbed(w, s, c, act);
    forall g | g in s.grants && g.voter == c ensures Covered(s'.nodes[c], g.req) && Agrees(s'.nodes[c], g.req) {
      CandidateKeepsGrant(w, s, c, act, g.req);
    }
    CarefulFrame(s, s', c);
  }

  lemma CarefulLocal(w: World, s: Cluster, n: u64, ev: MemberRuns.Event)
    requires CarefulInv(s) && Enabled(w, s, Local(n, ev)) && Careful(s, Local(n, ev), ALL)
    ensures CarefulInv(Next(w, s, Local(n, ev)))
  {
    var s' := Next(w, s, Local(n, ev));
    LocalEffect(s.nodes[n].r, ev);
    assert Undisturbed(s.nodes[n]);
    forall g | g in s.grants && g.voter == n ensures Covered(s'.nodes[n], g.req) && Agrees(s'.nodes[n], g.req) {
      assert Covered(s.nodes[n], g.req) && Agrees(s.nodes[n], g.req);
    }
    CarefulFrame(s, s', n);
  }

  lemma CarefulStep(w: World, s: Cluster, step: Step)
    requires Inv(w, s) && CarefulInv(s) && Enabled(w, s, step) && Careful(s, step, ALL)
    ensures CarefulInv(Next(w, s, step))
  {
    match step
    case Ballot(v, act) =>
      if act.Give? {
        CarefulGive(w, s, v);
      } else {
        CarefulVoter(w, s, v, act);
      }
    case Campaign(c, act) => CarefulCandidate(w, s, c, act);
    case Local(n, ev) => CarefulLocal(w, s, n, ev);
  }

  lemma {:induction false} CarefulRunKeeps(w: World, s: Cluster, steps: seq<Step>, t: Cluster)
    requires Inv(w, s) && CarefulInv(s) && CarefulRun(w, s, steps, ALL) && Reaches(w, s, steps, t)
    ensures Inv(w, t) && CarefulInv(t)
    decreases |steps|
  {
    if steps != [] {
      StepKeepsInv(w, s, steps[0]);
      CarefulStep(w, s, steps[0]);
      CarefulRunKeeps(w, Next(w, s, steps[0]), steps[1..], t);
    }
  }

  lemma CarefulPair(w: World, t: Cluster, a: Reign, b: Reign)
    requires Inv(w, t) && CarefulInv(t)
    requires a in t.reigns && b in t.reigns && a.term == b.term
    ensures a.leader == b.leader
  {
    ReignsAreFair(w, t, a);
    ReignsAreFair(w, t, b);
    var v := QuorumsIntersect(w.members, a.voters, b.voters);
    assert FairVote(t, a, v) && FairVote(t, b, v);
  }

  /**
   Election safety: in a group of any size, a run whose voters never reset their term below the term they last voted in,
   never grant below it, and keep candidacies of their own out of the checks and the record of a vote has at most one
   leader in each term, whatever else is interleaved.
   */
  lemma ElectionSafety(w: World, s: Cluster, steps: seq<Step>, t: Cluster)
    requires Init(w, s) && Reaches(w, s, steps, t) && CarefulRun(w, s, steps, ALL)
    ensures OneLeaderPerTerm(t)
  {
    InitHasInv(w, s);
    InitIsCareful(w, s);
    CarefulRunKeeps(w, s, steps, t);
    forall a, b | a in t.reigns && b in t.reigns && a.term == b.term ensures a.leader == b.leader {
      CarefulPair(w, t, a, b);
    }
  }
}
