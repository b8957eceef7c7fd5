/**
 Elections of a group with fixed membership, as interleaved steps over its members (server/group.go RequestVote,
 server/vote.go). Two locks shape the interleaving, and they do not exclude each other. RequestVote holds VoteLock from
 its first read to the end of its lazy wait; BecomeCandidate holds the group lock until its candidacy is decided. What
 the two read and write of each other's fields is one step each, so a candidacy of the voter's own may come between any
 two reads or writes of its vote. Everything else a member does runs through MemberRuns.After, on requests that may say
 anything.
 */
module Election {
  import opened Words
  import opened Messages
  import opened LogChain
  import opened Quorum
  import opened Replica
  import MemberRuns

  /** The fixed membership and what each member sees around itself. */
  datatype World = World(members: set<u64>, env: u64 -> Env)

  function EnvAt(w: World, n: u64): Env {
    w.env(n).(self := n)
  }

  /** What RequestVote has read: the term it compares, the term it signs, and the last index. */
  datatype Pending = Pending(req: VoteRequest, term: u64, voteTerm: u64, logIndex: u64)

  /** How far RequestVote has come; VoteLock is held unless it is idle. */
  datatype Voting =
    | Idle
    | Looked(req: VoteRequest, term: u64)  // the term is read
    | Checking(p: Pending)                 // and the last index
    | Passed(p: Pending)                   // the vote record allows it: the lazy wait
    | Marked(p: Pending)                   // LastVotedTo is written, LastVotedTerm is not

  /** How far BecomeCandidate has come; the group lock is held unless it rests. */
  datatype Running =
    | Resting
    | Turned                               // the role is written
    | Bumped                               // and the term
    | Cleared                              // and LastVotedTerm, but not LastVotedTo
    | Collecting(votes: seq<Grant>)        // the requests are out

  datatype Node = Node(r: Replica, voting: Voting, running: Running)

  /** History: a vote given, and a candidacy won. */
  datatype Grant = Grant(voter: u64, req: VoteRequest, term: u64, voteTerm: u64, logIndex: u64)
  datatype Reign = Reign(term: u64, leader: u64, lastIndex: u64, voters: set<u64>)

  datatype Cluster = Cluster(
    nodes: map<u64, Node>,
    requests: set<VoteRequest>,
    grants: set<Grant>,
    reigns: set<Reign>)

  datatype VoterAct =
    | Look(req: VoteRequest)
    | ReadLog
    | Check
    | Mark
    | Give
    | LetGo                                // refused, or the wait is over

  datatype CandidateAct =
    | Turn
    | Bump
    | ClearTerm
    | Ask
    | Collect(grant: Grant)
    | Win
    | GiveUp

  datatype Step =
    | Ballot(v: u64, vote: VoterAct)
    | Campaign(c: u64, act: CandidateAct)
    | Local(n: u64, ev: MemberRuns.Event)

  function Actor(step: Step): u64 {
    match step
    case Ballot(v, _) => v
    case Campaign(c, _) => c
    case Local(n, _) => n
  }

  // ---------- a voter ----------

  predicate CanVote(s: Cluster, node: Node, act: VoterAct) {
    match act
    case Look(req) => node.voting.Idle? && req in s.requests
    case ReadLog => node.voting.Looked? && node.r.log != []
    case Check =>
      && node.voting.Checking?
      && var p := node.voting.p; Judge(p.term, p.logIndex, node.r.votedTerm, node.r.votedTo, p.req) == Waiting
    case Mark => node.voting.Passed? && node.r.role != Follower
    case Give => node.voting.Marked?
    case LetGo => node.voting.Looked? || node.voting.Checking? || node.voting.Passed?
  }

  function VoterAfter(s: Cluster, node: Node, act: VoterAct): Node
    requires CanVote(s, node, act)
  {
    match act
    case Look(req) => node.(voting := Looked(req, node.r.term))
    case ReadLog =>
      node.(voting := Checking(Pending(node.voting.req, node.voting.term, node.r.term, LastIndex(node.r.log))))
    case Check => node.(voting := Passed(node.voting.p))
    case Mark => node.(r := node.r.(votedTo := node.voting.p.req.candidateId), voting := Marked(node.voting.p))
    case Give => node.(r := node.r.(votedTerm := node.voting.p.req.term), voting := Idle)
    case LetGo => node.(voting := Idle)
  }

  function GrantOf(v: u64, p: Pending): Grant {
    Grant(v, p.req, p.term, p.voteTerm, p.logIndex)
  }

  function GrantsAfter(s: Cluster, v: u64, node: Node, act: VoterAct): set<Grant>
    requires CanVote(s, node, act)
  {
    if act.Give? then {GrantOf(v, node.voting.p)} else {}
  }

  /** The reads and checks of a vote in one go are those of RequestVote. */
  lemma ChecksInOneGo(s: Cluster, node: Node, req: VoteRequest)
    requires CanVote(s, node, Look(req)) && node.r.log != []
    ensures var looked := VoterAfter(s, node, Look(req));
            && CanVote(s, looked, ReadLog)
            && var read := VoterAfter(s, looked, ReadLog);
               && (CanVote(s, read, Check) <==> CheckVote(node.r, req) == Waiting)
               && read.voting.p == Pending(req, node.r.term, node.r.term, LastIndex(node.r.log))
  {
  }

  /** Mark and Give in one go are the record that RequestVote makes. */
  lemma MarkAndGiveRecord(s: Cluster, node: Node)
    requires CanVote(s, node, Mark)
    ensures var marked := VoterAfter(s, node, Mark);
            && CanVote(s, marked, Give)
            && VoterAfter(s, marked, Give).r == RecordVote(node.r, node.voting.p.req)
  {
  }

  // ---------- a candidate ----------

  function GrantedVote(w: World, g: Grant): Vote {
    VoteOn(EnvAt(w, g.voter), g.voteTerm, g.logIndex, g.req, true)
  }

  /** The responses these votes arrive in, each from the host that was asked for it. */
  function ResponsesOf(w: World, votes: seq<Grant>): (responses: seq<Response>)
    ensures |responses| == |votes|
  {
    if votes == [] then []
    else
      var n := |votes| - 1;
      ResponsesOf(w, votes[..n]) + [Response(votes[n].voter, GrantedVote(w, votes[n]))]
  }

  function Voters(votes: seq<Grant>): set<u64> {
    set g | g in votes :: g.voter
  }

  function CountedIn(w: World, c: u64, node: Node): seq<Vote>
    requires node.running.Collecting?
  {
    CountedVotes(EnvAt(w, c), LastIndex(node.r.log), ResponsesOf(w, node.running.votes))
  }

  predicate CanRun(w: World, s: Cluster, c: u64, node: Node, act: CandidateAct) {
    match act
    case Turn => node.running.Resting? && TimerTick(EnvAt(w, c), node.r) == RunForLeader
    case Bump => node.running.Turned? && node.r.term < MAX_U64
    case ClearTerm => node.running.Bumped?
    case Ask => node.running.Cleared?
    case Collect(g) =>
      && node.running.Collecting? && g in s.grants && g.req == CandidacyRequest(EnvAt(w, c), node.r)
      && g.voter !in Voters(node.running.votes) && node.r.log != []
    case Win =>
      && node.running.Collecting? && node.r.role == Candidate
      && |CountedIn(w, c, node)| >= QuorumSize(node.r)
    case GiveUp => node.running.Collecting?
  }

  function CandidateAfter(w: World, s: Cluster, c: u64, node: Node, act: CandidateAct): Node
    requires CanRun(w, s, c, node, act)
  {
    match act
    case Turn => node.(r := node.r.(role := Candidate), running := Turned)
    case Bump => node.(r := node.r.(term := node.r.term + 1, votes := []), running := Bumped)
    case ClearTerm => node.(r := node.r.(votedTerm := 0), running := Cleared)
    case Ask =>
      node.(r := node.r.(votedTo := 0, sendVotes := MarkAll(node.r.sendVotes, node.r.peers.Keys)),
            running := Collecting([]))
    case Collect(g) => node.(running := Collecting(node.running.votes + [g]))
    case Win =>
      node.(r := FinishCandidacy(EnvAt(w, c), node.r, ResponsesOf(w, node.running.votes)), running := Resting)
    case GiveUp => node.(running := Resting)
  }

  function RequestsAfter(w: World, c: u64, node: Node, act: CandidateAct): set<VoteRequest> {
    if act.Ask? then {CandidacyRequest(EnvAt(w, c), node.r)} else {}
  }

  function ReignOf(c: u64, node: Node): Reign
    requires node.running.Collecting?
  {
    Reign(node.r.term, c, LastIndex(node.r.log), Voters(node.running.votes))
  }

  function ReignsAfter(w: World, s: Cluster, c: u64, node: Node, act: CandidateAct): set<Reign>
    requires CanRun(w, s, c, node, act)
  {
    if act.Win? then {ReignOf(c, node)} else {}
  }

  /** The four writes of a candidacy in one go are BecomeCandidate up to its request. */
  lemma CandidacyInOneGo(w: World, s: Cluster, c: u64, node: Node)
    requires CanRun(w, s, c, node, Turn) && node.r.term < MAX_U64
    ensures var turned := CandidateAfter(w, s, c, node, Turn);
            && CanRun(w, s, c, turned, Bump)
            && var bumped := CandidateAfter(w, s, c, turned, Bump);
               && CanRun(w, s, c, bumped, ClearTerm)
               && var cleared := CandidateAfter(w, s, c, bumped, ClearTerm);
                  && CanRun(w, s, c, cleared, Ask)
                  && CandidateAfter(w, s, c, cleared, Ask).r == StartCandidacy(node.r)
  {
  }

  // ---------- everything else ----------

  /** AppendEntries waits for VoteLock exactly when it comes to weigh the votes of a new leader. */
  predicate NeedsVoteLock(r: Replica, ev: MemberRuns.Event) {
    ev.Request? && WeighsVotes(r, ev.req)
  }

  /** A local operation that resets the term: the votes of a new leader convince. */
  predicate Resets(r: Replica, ev: MemberRuns.Event) {
    NeedsVoteLock(r, ev) && ConvincedBy(ev.env, r, ev.req)
  }

  /** All but the late votes of an earlier candidacy need the group lock. */
  predicate CanAct(node: Node, ev: MemberRuns.Event) {
    && (node.running.Resting? || ev.LateVotes?)
    && (ev.Request? || ev.ClientCommand? || ev.Reply? || ev.Pull? || ev.LateVotes?)
    && (NeedsVoteLock(node.r, ev) ==> node.voting.Idle?)
  }

  // ---------- steps of the group ----------

  predicate Enabled(w: World, s: Cluster, step: Step) {
    && Actor(step) in s.nodes
    && var node := s.nodes[Actor(step)];
       match step
       case Ballot(_, act) => CanVote(s, node, act)
       case Campaign(c, act) => CanRun(w, s, c, node, act)
       case Local(_, ev) => CanAct(node, ev)
  }

  function Next(w: World, s: Cluster, step: Step): Cluster
    requires Enabled(w, s, step)
  {
    var node := s.nodes[Actor(step)];
    match step
    case Ballot(v, act) =>
      s.(nodes := s.nodes[v := VoterAfter(s, node, act)], grants := s.grants + GrantsAfter(s, v, node, act))
    case Campaign(c, act) =>
      s.(nodes := s.nodes[c := CandidateAfter(w, s, c, node, act)],
         requests := s.requests + RequestsAfter(w, c, node, act),
         reigns := s.reigns + ReignsAfter(w, s, c, node, act))
    case Local(n, ev) =>
      s.(nodes := s.nodes[n := node.(r := MemberRuns.After(node.r, ev))])
  }

  /** Members come on board with any terms, roles and logs, each counting the whole group; no election is under way. */
  ghost predicate Init(w: World, s: Cluster) {
    && s.nodes.Keys == w.members && 0 !in w.members
    && (forall n :: n in s.nodes ==>
          s.nodes[n].voting.Idle? && s.nodes[n].running.Resting? && |s.nodes[n].r.peers| == |w.members|)
    && s.requests == {} && s.grants == {} && s.reigns == {}
  }

  ghost predicate Reaches(w: World, s: Cluster, steps: seq<Step>, t: Cluster)
    decreases |steps|
  {
    if steps == [] then s == t
    else Enabled(w, s, steps[0]) && Reaches(w, Next(w, s, steps[0]), steps[1..], t)
  }

  // ---------- care ----------

  /**
   What voters take care of: that no reset goes below the term last voted in, that no grant does, and that a candidacy
   of the voter's own does not overlap the checks of a vote or its record (the lazy wait between them is free).
   */
  datatype Care = Care(resets: bool, grants: bool, overlaps: bool)

  const ALL: Care := Care(true, true, true)

  predicate ResetKept(s: Cluster, step: Step)
    requires Actor(step) in s.nodes
  {
    var r := s.nodes[Actor(step)].r;
    match step
    case Campaign(_, act) => act.ClearTerm? ==> r.votedTerm <= r.term
    case Local(_, ev) => Resets(r, ev) ==> r.votedTerm <= ev.req.term
    case Ballot(_, _) => true
  }

  predicate GrantKept(s: Cluster, step: Step)
    requires Actor(step) in s.nodes
  {
    var node := s.nodes[Actor(step)];
    step.Ballot? && step.vote.Mark? && node.voting.Passed? ==> node.r.votedTerm <= node.voting.p.req.term
  }

  /** Between the write of the role and the requests. */
  predicate Resetting(node: Node) {
    node.running.Turned? || node.running.Bumped? || node.running.Cleared?
  }

  /** Inside the checks of a vote, or inside its record. */
  predicate Deciding(node: Node) {
    node.voting.Looked? || node.voting.Checking? || node.voting.Marked?
  }

  predicate OverlapKept(s: Cluster, step: Step)
    requires Actor(step) in s.nodes
  {
    var node := s.nodes[Actor(step)];
    match step
    case Ballot(_, act) => !act.LetGo? ==> !Resetting(node)
    case Campaign(_, act) => act.Turn? ==> !Deciding(node)
    case Local(_, _) => true
  }

  predicate Careful(s: Cluster, step: Step, care: Care)
    requires Actor(step) in s.nodes
  {
    && (care.resets ==> ResetKept(s, step))
    && (care.grants ==> GrantKept(s, step))
    && (care.overlaps ==> OverlapKept(s, step))
  }

  ghost predicate CarefulRun(w: World, s: Cluster, steps: seq<Step>, care: Care)
    decreases |steps|
  {
    || steps == []
    || (&& Enabled(w, s, steps[0]) && Careful(s, steps[0], care)
        && CarefulRun(w, Next(w, s, steps[0]), steps[1..], care))
  }

  predicate OneLeaderPerTerm(s: Cluster) {
    forall a, b :: a in s.reigns && b in s.reigns && a.term == b.term ==> a.leader == b.leader
  }

  // ---------- what every run keeps ----------

  lemma {:induction false} PullLeavesTerm(env: Env, r: Replica, entries: seq<LogEntry>)
    ensures var r' := PullEntries(env, r, entries).0; r' == r.(log := r'.log, applied := r'.applied)
    decreases |entries|
  {
    if entries != [] && AppendLocal(env.sha1, env.gid, r.log, entries[0]) == Stored {
      PullLeavesTerm(env, r.(log := Insert(r.log, entries[0]), applied := r.applied + [entries[0]]), entries[1..]);
    }
  }

  /** Term, vote record and number of peers, which is all that elections see of a local operation. */
  datatype Record = Record(term: u64, votedTerm: u64, votedTo: u64, peers: nat)

  function RecordOf(r: Replica): Record {
    Record(r.term, r.votedTerm, r.votedTo, |r.peers|)
  }

  lemma RequestEffect(env: Env, r: Replica, req: AppendRequest)
    ensures RecordOf(AppendEntries(env, r, req).0) ==
            if WeighsVotes(r, req) && ConvincedBy(env, r, req) then Record(req.term, 0, 0, |r.peers|) else RecordOf(r)
  {
  }

  lemma ReplyEffect(env: Env, r: Replica, reply: AppendReply)
    ensures RecordOf(HandleReply(env, r, reply)) == RecordOf(r)
  {
    var r' := HandleReply(env, r, reply);
    assert r'.peers.Keys == r.peers.Keys;
    assert |r'.peers| == |r'.peers.Keys| && |r.peers| == |r.peers.Keys|;
  }

  /** A local operation resets term and vote record exactly when it is convinced, and else leaves both alone. */
  lemma LocalEffect(r: Replica, ev: MemberRuns.Event)
    requires ev.Request? || ev.ClientCommand? || ev.Reply? || ev.Pull? || ev.LateVotes?
    ensures RecordOf(MemberRuns.After(r, ev)) ==
            if Resets(r, ev) then Record(ev.req.term, 0, 0, |r.peers|) else RecordOf(r)
    ensures Resets(r, ev) ==> r.term <= ev.req.term
  {
    match ev
    case Request(env, req) => RequestEffect(env, r, req);
    case Reply(env, reply) => ReplyEffect(env, r, reply);
    case Pull(env, entries) => PullLeavesTerm(env, r, entries);
    case _ =>
  }

  lemma WinEffect(env: Env, r: Replica, responses: seq<Response>)
    ensures var r' := FinishCandidacy(env, r, responses);
            && r'.term == r.term && r'.votedTerm == r.votedTerm && r'.votedTo == r.votedTo
            && r'.peers == r.peers && r'.log == r.log
  {
  }

  ghost predicate RequestOk(s: Cluster, req: VoteRequest) {
    req.candidateId in s.nodes && req.term <= s.nodes[req.candidateId].r.term
  }

  /** The request `req` was checked by `v` at a term and index that allowed a vote. */
  ghost predicate CheckedBy(s: Cluster, v: u64, req: VoteRequest, term: u64, logIndex: u64) {
    && v in s.nodes && req in s.requests && v != req.candidateId
    && term < req.term && req.term - term <= MAX_TERM_BUMP && logIndex <= req.logIndex
  }

  ghost predicate GrantOk(s: Cluster, g: Grant) {
    CheckedBy(s, g.voter, g.req, g.term, g.logIndex)
  }

  /** The request a member may still vote for, as far as it has read. */
  function Sought(node: Node): Option<VoteRequest> {
    match node.voting
    case Idle => None
    case Looked(req, term) => if term < req.term then Some(req) else None
    case Checking(p) => if p.term < p.req.term then Some(p.req) else None
    case Passed(p) => Some(p.req)
    case Marked(p) => Some(p.req)
  }

  predicate Seeks(node: Node, c: u64, term: u64) {
    Sought(node).Some? && Sought(node).value.candidateId == c && Sought(node).value.term == term
  }

  /** Every vote under consideration or given: by whom, for whom, in which term. */
  ghost predicate Supports(s: Cluster, v: u64, c: u64, term: u64) {
    || (v in s.nodes && Seeks(s.nodes[v], c, term))
    || (exists g :: g in s.grants && g.voter == v && g.req.candidateId == c && g.req.term == term)
  }

  /** A candidate that counts itself among its peers will send the votes it collects. */
  predicate SendsVotes(r: Replica, n: u64) {
    n in r.peers ==> n in r.sendVotes && r.sendVotes[n]
  }

  /** A campaign holds one vote per voter, each given to the request of this candidacy. */
  ghost predicate CampaignOk(w: World, s: Cluster, c: u64, votes: seq<Grant>)
    requires c in s.nodes
  {
    && |Voters(votes)| == |votes|
    && (forall g :: g in votes ==> g in s.grants && g.req == CandidacyRequest(EnvAt(w, c), s.nodes[c].r))
  }

  /** What a voter has read is true of the request; once past the checks, so is what they ask. */
  ghost predicate VotingOk(s: Cluster, n: u64)
    requires n in s.nodes
  {
    var node := s.nodes[n];
    && (Sought(node).Some? ==> Sought(node).value in s.requests && n != Sought(node).value.candidateId)
    && (node.voting.Passed? || node.voting.Marked? ==>
          CheckedBy(s, n, node.voting.p.req, node.voting.p.term, node.voting.p.logIndex))
  }

  ghost predicate RunningOk(w: World, s: Cluster, n: u64)
    requires n in s.nodes
  {
    s.nodes[n].running.Collecting? ==>
      CampaignOk(w, s, n, s.nodes[n].running.votes) && SendsVotes(s.nodes[n].r, n)
  }

  ghost predicate NodeOk(w: World, s: Cluster, n: u64)
    requires n in s.nodes
  {
    |s.nodes[n].r.peers| == |w.members| && VotingOk(s, n) && RunningOk(w, s, n)
  }

  ghost predicate Backed(s: Cluster, reign: Reign, v: u64) {
    exists g :: g in s.grants && g.voter == v && g.req.candidateId == reign.leader && g.req.term == reign.term &&
                g.req.logIndex == reign.lastIndex
  }

  ghost predicate ReignOk(w: World, s: Cluster, reign: Reign) {
    && |reign.voters| >= ExpectedPlayers(|w.members|)
    && forall v :: v in reign.voters ==> Backed(s, reign, v)
  }

  ghost predicate Inv(w: World, s: Cluster) {
    && s.nodes.Keys == w.members && 0 !in w.members
    && (forall req {:trigger RequestOk(s, req)} :: req in s.requests ==> RequestOk(s, req))
    && (forall g {:trigger GrantOk(s, g)} :: g in s.grants ==> GrantOk(s, g))
    && (forall n {:trigger NodeOk(w, s, n)} :: n in s.nodes ==> NodeOk(w, s, n))
    && (forall reign {:trigger ReignOk(w, s, reign)} :: reign in s.reigns ==> ReignOk(w, s, reign))
    && (forall a: u64, b: u64, t: u64 :: Supports(s, a, b, t) ==> !Supports(s, b, a, t))
  }
}
