/**
 Client commands at one member (server/bftraft.go ExecCommand). The leader field is read before the group lock is taken
 and not again under it, so a command that was let in may be appended when the member no longer leads.
 */
module Admission {
  import opened Words
  import opened Messages
  import opened LogChain
  import opened Quorum
  import opened Replica
  import opened MemberRuns

  /** A member and the commands that wait for its lock. */
  datatype Member = Member(r: Replica, waiting: multiset<Command>)

  datatype Act =
    | Admit(env: Env, cmd: Command)
    | Do(ev: Event)

  predicate Can(m: Member, act: Act) {
    match act
    case Admit(env, _) => Admits(env, m.r)
    case Do(ev) => ev.ClientCommand? ==> ev.cmd in m.waiting
  }

  function Done(m: Member, act: Act): Member {
    match act
    case Admit(_, cmd) => m.(waiting := m.waiting + multiset{cmd})
    case Do(ev) => Member(After(m.r, ev), if ev.ClientCommand? then m.waiting - multiset{ev.cmd} else m.waiting)
  }

  ghost predicate HonestAct(self: u64, m: Member, act: Act) {
    match act
    case Admit(env, _) => env.self == self
    case Do(ev) => HonestTo(self, ev) && (ev.Timeout? ==> m.r.term < MAX_U64)
  }

  /** The acts can be done one after the other, by an honest network, and no candidacy starts at the largest term. */
  ghost predicate HonestRun(self: u64, m: Member, acts: seq<Act>)
    decreases |acts|
  {
    || acts == []
    || (&& Can(m, acts[0]) && HonestAct(self, m, acts[0])
        && HonestRun(self, Done(m, acts[0]), acts[1..]))
  }

  predicate Appends(m: Member, act: Act) {
    act.Do? && act.ev.ClientCommand? && After(m.r, act.ev).log != m.r.log
  }

  /** Whenever a command is appended, the member holds the leader role. */
  predicate AppendsInRole(m: Member, acts: seq<Act>)
    decreases |acts|
  {
    acts == [] || ((Appends(m, acts[0]) ==> m.r.role == Leader) && AppendsInRole(Done(m, acts[0]), acts[1..]))
  }

  /** Whenever a command is appended, the test that let it in would still hold. */
  predicate StillLeads(self: u64, m: Member, acts: seq<Act>)
    decreases |acts|
  {
    acts == [] || ((Appends(m, acts[0]) ==> m.r.leader == self) && StillLeads(self, Done(m, acts[0]), acts[1..]))
  }

  /** In an honest run commands are appended in the leader role alone exactly when the test holds at each append. */
  lemma {:induction false} RoleIsTheTest(self: u64, m: Member, acts: seq<Act>)
    requires LeaderFieldMatchesRole(self, m.r) && Ascending(m.r.log) && HonestRun(self, m, acts)
    ensures AppendsInRole(m, acts) <==> StillLeads(self, m, acts)
    decreases |acts|
  {
    if acts != [] {
      if acts[0].Do? {
        EventKeepsRole(self, m.r, acts[0].ev);
        EventGrows(m.r, acts[0].ev);
      }
      RoleIsTheTest(self, Done(m, acts[0]), acts[1..]);
    }
  }

  // ---------- a leader that is deposed meanwhile ----------

  /** An environment in which every signature checks. */
  function Trusting(self: u64, gid: u64, sha1: Hasher): Env {
    Env(self, gid, sha1, t => t, (h, s, t) => true, h => true, h => true)
  }

  /** Votes of all these members for one leader. */
  lemma {:induction false} VotesOf(members: set<u64>, gid: u64, leader: u64) returns (votes: seq<Vote>)
    ensures forall m :: m in members ==>
              exists i :: 0 <= i < |votes| && votes[i].voter == m && votes[i].group == gid &&
                          votes[i].candidateId == leader && votes[i].granted
    decreases |members|
  {
    if members == {} {
      votes := [];
    } else {
      var x :| x in members;
      var rest := VotesOf(members - {x}, gid, leader);
      votes := rest + [Vote.Vote(gid, 0, 0, leader, x, true, [])];
      forall m | m in members
        ensures exists i :: 0 <= i < |votes| && votes[i].voter == m && votes[i].group == gid &&
                            votes[i].candidateId == leader && votes[i].granted
      {
        if m == x {
          assert votes[|rest|].voter == x;
        } else {
          assert m in members - {x};
          var i :| 0 <= i < |rest| && rest[i].voter == m && rest[i].group == gid &&
                   rest[i].candidateId == leader && rest[i].granted;
          assert votes[i] == rest[i];
        }
      }
    }
  }

  /** A claim of leadership that this member must believe. */
  lemma ConvincingClaim(env: Env, r: Replica, b: u64) returns (req: AppendRequest)
    requires env == Trusting(env.self, env.gid, env.sha1) && b in r.peers && r.leader != b
    ensures req.leaderId == b && AppendEntries(env, r, req).0 == Follow(r, b, r.term)
  {
    var votes := VotesOf(r.peers.Keys, env.gid, b);
    req := AppendRequest(env.gid, r.term, b, 0, 0, votes, []);
    var valid := ValidVoters(env, r.peers.Keys, votes, b);
    forall m | m in r.peers.Keys ensures m in valid {
      var i :| 0 <= i < |votes| && votes[i].voter == m && votes[i].group == env.gid &&
               votes[i].candidateId == b && votes[i].granted;
      assert CountsFor(env, votes[i], b);
    }
    assert valid == r.peers.Keys && |r.peers| == |r.peers.Keys|;
    ExpectedPlayersIsMajority(|r.peers|);
  }

  /** A follower that appends all the same. */
  lemma FollowerAppends(self: u64, env: Env, r: Replica, cmd: Command)
    requires env.self == self && r.log == [] && cmd.group == env.gid
    requires r.role != Leader && r.leader != self
    ensures var (m, act) := (Member(r, multiset{cmd}), Do(ClientCommand(env, cmd)));
            && HonestRun(self, m, [act]) && !AppendsInRole(m, [act]) && !StillLeads(self, m, [act])
  {
    var (m, act) := (Member(r, multiset{cmd}), Do(ClientCommand(env, cmd)));
    assert [act][1..] == [];
    assert HonestRun(self, Done(m, act), []);
    assert Appends(m, act);
  }

  /** Acts that append nothing before a run do not change what is said of it. */
  lemma PrependQuiet(self: u64, m: Member, act: Act, acts: seq<Act>)
    requires Can(m, act) && HonestAct(self, m, act) && !Appends(m, act) && HonestRun(self, Done(m, act), acts)
    ensures HonestRun(self, m, [act] + acts)
    ensures AppendsInRole(m, [act] + acts) <==> AppendsInRole(Done(m, act), acts)
    ensures StillLeads(self, m, [act] + acts) <==> StillLeads(self, Done(m, act), acts)
  {
    assert ([act] + acts)[1..] == acts;
  }

  /** A leader lets a command in, becomes a follower, and appends the command as one. */
  lemma DeposedLeaderAppends(self: u64, gid: u64, sha1: Hasher, r: Replica, b: u64) returns (acts: seq<Act>)
    requires r.leader == self && r.role == Leader && r.log == []
    requires b in r.peers && b != self
    ensures HonestRun(self, Member(r, multiset{}), acts)
    ensures !AppendsInRole(Member(r, multiset{}), acts) && !StillLeads(self, Member(r, multiset{}), acts)
  {
    var env := Trusting(self, gid, sha1);
    var cmd := Command(gid, 0, 0, 0, [], []);
    var claim := ConvincingClaim(env, r, b);
    FollowerAppends(self, env, Follow(r, b, r.term), cmd);
    var last := [Do(ClientCommand(env, cmd))];
    var m := Member(r, multiset{cmd});
    PrependQuiet(self, m, Do(Request(env, claim)), last);
    assert Done(Member(r, multiset{}), Admit(env, cmd)) == m;
    PrependQuiet(self, Member(r, multiset{}), Admit(env, cmd), [Do(Request(env, claim))] + last);
    acts := [Admit(env, cmd)] + ([Do(Request(env, claim))] + last);
  }

  /**
   From the start of a group's creator with another member, every honest run appends in the leader role alone exactly
   when it is a run in which commands are appended only while the test that let them in still holds.
   */
  lemma OnlyLeaderRoleAppendsExactly(self: u64, gid: u64, sha1: Hasher, peers: map<u64, Peer>, b: u64, kept: bool)
    requires b in peers && b != self
    ensures var m := Member(Onboard(self, Created, 0, peers, []), multiset{});
            (forall acts :: HonestRun(self, m, acts) && (kept ==> StillLeads(self, m, acts)) ==> AppendsInRole(m, acts))
            <==> kept
  {
    var m := Member(Onboard(self, Created, 0, peers, []), multiset{});
    if kept {
      forall acts | HonestRun(self, m, acts) && StillLeads(self, m, acts) ensures AppendsInRole(m, acts) {
        RoleIsTheTest(self, m, acts);
      }
    } else {
      var acts := DeposedLeaderAppends(self, gid, sha1, m.r, b);
    }
  }
}
