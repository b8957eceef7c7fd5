/**
 The two places that stack one quorum on another: the client's wait for command replies (client/user_client.go)
 and a joining node's wait for invitations (server/membership.go NodeJoin).
 */
module ClientReplies {
  import opened Words
  import opened Messages
  import opened Quorum

  // ---------- the client ----------

  /** `Data([])` is also what the client returns when no reply has the majority: a missing map entry is a nil slice. */
  datatype ClientResult = TimedOut | Data(result: Bytes)

  function ResultOf(hashData: Bytes -> u64, replies: seq<Bytes>, majority: u64): Bytes {
    if replies == [] then []
    else
      var last := replies[|replies| - 1];
      if hashData(last) == majority then last else ResultOf(hashData, replies[..|replies| - 1], majority)
  }

  /** What the client answers once exactly these replies were collected. */
  ghost function ChosenReply(hashData: Bytes -> u64, replies: seq<Bytes>): Bytes {
    ResultOf(hashData, replies, Majority(multiset(HashAll(hashData, replies))))
  }

  /** The client among `hosts` hosts, with `channel` the replies that reach it before its timeout. */
  method ExecCommand(hashData: Bytes -> u64, hosts: nat, channel: seq<Bytes>) returns (res: ClientResult)
    ensures var quorum := hosts / 2 + 1;
            res == if |channel| < quorum then TimedOut else Data(ChosenReply(hashData, channel[..quorum]))
  {
    var expectedResponse := ExpectedPlayers(hosts);
    ExpectedPlayersIsMajority(hosts);
    if |channel| < expectedResponse {
      return TimedOut;
    }
    var responseReceived: map<u64, Bytes> := map[];
    var responseHashes: seq<u64> := [];
    for i := 0 to expectedResponse
      invariant responseHashes == HashAll(hashData, channel[..i])
      invariant forall v: u64 :: ResultOf(hashData, channel[..i], v) ==
                                 if v in responseReceived then responseReceived[v] else []
    {
      assert channel[..i + 1][..i] == channel[..i];
      var hash := hashData(channel[i]);
      responseReceived := responseReceived[hash := channel[i]];
      responseHashes := responseHashes + [hash];
    }
    var majorityHash := PickMajority(responseHashes);
    if majorityHash in responseReceived {
      return Data(responseReceived[majorityHash]);
    }
    return Data([]);
  }

  lemma {:induction false} ResultOfPresent(hashData: Bytes -> u64, replies: seq<Bytes>, t: Bytes)
    requires NoHashCollision(hashData, (set x | x in replies) + {t}) && t in replies
    ensures ResultOf(hashData, replies, hashData(t)) == t
  {
    var last := replies[|replies| - 1];
    if hashData(last) != hashData(t) {
      var init := replies[..|replies| - 1];
      assert replies == init + [last];
      ResultOfPresent(hashData, init, t);
    }
  }

  lemma {:induction false} ResultOfIsReply(hashData: Bytes -> u64, replies: seq<Bytes>, v: u64)
    ensures ResultOf(hashData, replies, v) == [] ||
            (ResultOf(hashData, replies, v) in replies && hashData(ResultOf(hashData, replies, v)) == v)
  {
    if replies != [] && hashData(replies[|replies| - 1]) != v {
      ResultOfIsReply(hashData, replies[..|replies| - 1], v);
    }
  }

  /**
   The client's answer is a given reply exactly when more than half of the collected replies are that reply.
   The two values that stand for "no majority", the hash 0 and the empty result, are set aside.
   */
  lemma ChosenReplyExact(hashData: Bytes -> u64, replies: seq<Bytes>, t: Bytes)
    requires NoHashCollision(hashData, (set x | x in replies) + {t})
    requires hashData(t) != 0 && t != []
    ensures ChosenReply(hashData, replies) == t <==> 2 * multiset(replies)[t] > |replies|
  {
    var hashes := multiset(HashAll(hashData, replies));
    HashingKeepsCounts(hashData, replies, t);
    MajorityMeaning(hashes, hashData(t));
    if 2 * multiset(replies)[t] > |replies| {
      assert t in multiset(replies);
      ResultOfPresent(hashData, replies, t);
    }
    if ChosenReply(hashData, replies) == t {
      ResultOfIsReply(hashData, replies, Majority(hashes));
    }
  }

  /** A majority reply is chosen even when its hash is 0 or the reply is empty. */
  lemma MajorityReplyIsChosen(hashData: Bytes -> u64, replies: seq<Bytes>, t: Bytes)
    requires NoHashCollision(hashData, set x | x in replies)
    requires 2 * multiset(replies)[t] > |replies|
    ensures ChosenReply(hashData, replies) == t
  {
    assert t in multiset(replies);
    assert (set x | x in replies) + {t} == set x | x in replies;
    HashingKeepsCounts(hashData, replies, t);
    MajorityMeaning(multiset(HashAll(hashData, replies)), hashData(t));
    ResultOfPresent(hashData, replies, t);
  }

  /** The positions of the replies with this hash. */
  ghost function HashedTo(hashData: Bytes -> u64, replies: seq<Bytes>, v: u64): set<int> {
    set i | 0 <= i < |replies| && hashData(replies[i]) == v
  }

  lemma {:induction false} HashCounts(hashData: Bytes -> u64, replies: seq<Bytes>, v: u64)
    ensures multiset(HashAll(hashData, replies))[v] == |HashedTo(hashData, replies, v)|
    decreases |replies|
  {
    if replies == [] {
      assert HashedTo(hashData, replies, v) == {};
    } else {
      var n := |replies| - 1;
      var init := replies[..n];
      HashCounts(hashData, init, v);
      assert HashAll(hashData, replies) == HashAll(hashData, init) + [hashData(replies[n])];
      forall i | 0 <= i < n ensures init[i] == replies[i] {}
      assert HashedTo(hashData, replies, v) ==
             HashedTo(hashData, init, v) + if hashData(replies[n]) == v then {n} else {};
    }
  }

  lemma {:induction false} ResultIsLast(hashData: Bytes -> u64, replies: seq<Bytes>, v: u64)
    ensures || (ResultOf(hashData, replies, v) == [] && forall k :: 0 <= k < |replies| ==> hashData(replies[k]) != v)
            || exists k :: 0 <= k < |replies| && hashData(replies[k]) == v &&
                           ResultOf(hashData, replies, v) == replies[k] &&
                           forall j :: k < j < |replies| ==> hashData(replies[j]) != v
    decreases |replies|
  {
    if replies != [] {
      var n := |replies| - 1;
      if hashData(replies[n]) == v {
        assert replies[n] == ResultOf(hashData, replies, v);
      } else {
        ResultIsLast(hashData, replies[..n], v);
        forall i | 0 <= i < n ensures replies[..n][i] == replies[i] {}
      }
    }
  }

  /**
   In every case the answer is the last reply with the hash that more than half of the replies have, or with hash 0 when
   there is none, or nothing when no reply has that hash.
   */
  lemma ChosenReplyMeans(hashData: Bytes -> u64, replies: seq<Bytes>) returns (hash: u64)
    ensures || 2 * |HashedTo(hashData, replies, hash)| > |replies|
            || (hash == 0 && forall v: u64 :: 2 * |HashedTo(hashData, replies, v)| <= |replies|)
    ensures var answer := ChosenReply(hashData, replies);
            || (answer == [] && forall k :: 0 <= k < |replies| ==> hashData(replies[k]) != hash)
            || exists k :: 0 <= k < |replies| && hashData(replies[k]) == hash && answer == replies[k] &&
                           forall j :: k < j < |replies| ==> hashData(replies[j]) != hash
  {
    var hashes := multiset(HashAll(hashData, replies));
    hash := Majority(hashes);
    MajorityMeaning(hashes, hash);
    forall v: u64 ensures hashes[v] == |HashedTo(hashData, replies, v)| {
      HashCounts(hashData, replies, v);
    }
    ResultIsLast(hashData, replies, hash);
  }

  /** A quorum inside a quorum tolerates a quarter of the hosts, for every number of hosts. */
  lemma NestedQuorumSlack(n: nat)
    ensures ExpectedPlayers(n) - ExpectedPlayers(ExpectedPlayers(n)) == n / 4
  {
    ExpectedPlayersIsMajority(n);
    ExpectedPlayersIsMajority(ExpectedPlayers(n));
  }

  /** The fault bound: with at most n/4 wrong replies among those collected, the client answers the correct one. */
  lemma ClientFaultBound(hashData: Bytes -> u64, hosts: nat, replies: seq<Bytes>, correct: Bytes)
    requires |replies| == ExpectedPlayers(hosts)
    requires NoHashCollision(hashData, set x | x in replies)
    requires |replies| - multiset(replies)[correct] <= hosts / 4
    ensures ChosenReply(hashData, replies) == correct
  {
    NestedQuorumSlack(hosts);
    ExpectedPlayersIsMajority(|replies|);
    MajorityReplyIsChosen(hashData, replies, correct);
  }

  function Repeat(t: Bytes, n: nat): (s: seq<Bytes>)
    ensures |s| == n && forall r :: r in s ==> r == t
  {
    if n == 0 then [] else Repeat(t, n - 1) + [t]
  }

  lemma {:induction false} CountRepeat(t: Bytes, n: nat, x: Bytes)
    ensures multiset(Repeat(t, n))[x] == if x == t then n else 0
  {
    if n > 0 {
      CountRepeat(t, n - 1, x);
    }
  }

  /** `bad` wrong replies and the rest of `total` correct ones. */
  function Mixture(correct: Bytes, wrong: Bytes, total: nat, bad: nat): (replies: seq<Bytes>)
    requires bad <= total
    ensures |replies| == total
  {
    Repeat(wrong, bad) + Repeat(correct, total - bad)
  }

  lemma MixtureCounts(correct: Bytes, wrong: Bytes, total: nat, bad: nat)
    requires bad <= total && correct != wrong
    ensures multiset(Mixture(correct, wrong, total, bad))[correct] == total - bad
    ensures forall r :: r in Mixture(correct, wrong, total, bad) ==> r == correct || r == wrong
  {
    CountRepeat(wrong, bad, correct);
    CountRepeat(correct, total - bad, correct);
  }

  /** The bound is tight for every number of hosts: one wrong reply more, and the client can be misled. */
  lemma ClientFaultBoundIsTight(hashData: Bytes -> u64, hosts: nat, correct: Bytes, wrong: Bytes)
      returns (replies: seq<Bytes>)
    requires hashData(correct) != hashData(wrong) && hashData(correct) != 0 && correct != []
    ensures |replies| == ExpectedPlayers(hosts)
    ensures forall r :: r in replies ==> r == correct || r == wrong
    ensures |replies| - multiset(replies)[correct] == hosts / 4 + 1
    ensures ChosenReply(hashData, replies) != correct
  {
    var total, bad := ExpectedPlayers(hosts), hosts / 4 + 1;
    assert bad <= total && 2 * (total - bad) <= total by {
      NestedQuorumSlack(hosts);
      ExpectedPlayersIsMajority(total);
    }
    replies := Mixture(correct, wrong, total, bad);
    MixtureCounts(correct, wrong, total, bad);
    assert NoHashCollision(hashData, (set x | x in replies) + {correct}) by {
      assert (set x | x in replies) + {correct} <= {correct, wrong};
    }
    ChosenReplyExact(hashData, replies, correct);
  }

  // ---------- the joining node ----------

  function Inviters(hosts: set<u64>, invitations: seq<Invitation>): set<u64> {
    set i | 0 <= i < |invitations| && invitations[i].node in hosts :: invitations[i].node
  }

  /** The leaders named by the first invitation of each member, in order of arrival. */
  function InvitedLeaders(hosts: set<u64>, invitations: seq<Invitation>): seq<u64> {
    if invitations == [] then []
    else
      var init, inv := invitations[..|invitations| - 1], invitations[|invitations| - 1];
      if inv.node in hosts && inv.node !in Inviters(hosts, init) then InvitedLeaders(hosts, init) + [inv.leader]
      else InvitedLeaders(hosts, init)
  }

  lemma InvitersMean(hosts: set<u64>, invitations: seq<Invitation>)
    ensures Inviters(hosts, invitations) ==
            set n | n in hosts && (exists i :: 0 <= i < |invitations| && invitations[i].node == n)
  {
  }

  /** The first invitation of `n` names `leader`. */
  ghost predicate FirstNames(invitations: seq<Invitation>, n: u64, leader: u64) {
    exists i :: 0 <= i < |invitations| && invitations[i].node == n && invitations[i].leader == leader &&
                forall j :: 0 <= j < i ==> invitations[j].node != n
  }

  lemma FirstNamesStep(invitations: seq<Invitation>, n: u64, leader: u64)
    requires invitations != []
    ensures var (init, inv) := (invitations[..|invitations| - 1], invitations[|invitations| - 1]);
            FirstNames(invitations, n, leader) <==>
            || FirstNames(init, n, leader)
            || (inv.node == n && inv.leader == leader && forall j :: 0 <= j < |init| ==> init[j].node != n)
  {
    var init := invitations[..|invitations| - 1];
    forall j | 0 <= j < |init| ensures init[j] == invitations[j] {}
    if FirstNames(init, n, leader) {
      var i :| 0 <= i < |init| && init[i].node == n && init[i].leader == leader &&
               forall j :: 0 <= j < i ==> init[j].node != n;
      assert invitations[i] == init[i];
    }
  }

  /** The members whose first invitation names this leader. */
  ghost function Namers(hosts: set<u64>, invitations: seq<Invitation>, leader: u64): set<u64> {
    set n | n in hosts && FirstNames(invitations, n, leader)
  }

  lemma NamersStep(hosts: set<u64>, invitations: seq<Invitation>, leader: u64)
    requires invitations != []
    ensures var (init, inv) := (invitations[..|invitations| - 1], invitations[|invitations| - 1]);
            var adds := inv.node in hosts && inv.node !in Inviters(hosts, init) && inv.leader == leader;
            && Namers(hosts, invitations, leader) == Namers(hosts, init, leader) + (if adds then {inv.node} else {})
            && (adds ==> inv.node !in Namers(hosts, init, leader))
  {
    var init, inv := invitations[..|invitations| - 1], invitations[|invitations| - 1];
    forall n | n in hosts
      ensures FirstNames(invitations, n, leader) <==>
              FirstNames(init, n, leader) || (n == inv.node && n !in Inviters(hosts, init) && inv.leader == leader)
    {
      FirstNamesStep(invitations, n, leader);
    }
  }

  /** A leader is counted once for each member whose first invitation names it; later ones and strangers are not. */
  lemma {:induction false} FirstInvitationsCount(hosts: set<u64>, invitations: seq<Invitation>, leader: u64)
    ensures multiset(InvitedLeaders(hosts, invitations))[leader] == |Namers(hosts, invitations, leader)|
    decreases |invitations|
  {
    if invitations == [] {
      assert Namers(hosts, invitations, leader) == {};
    } else {
      var init, inv := invitations[..|invitations| - 1], invitations[|invitations| - 1];
      FirstInvitationsCount(hosts, init, leader);
      NamersStep(hosts, invitations, leader);
    }
  }

  /** The leader a joined group starts with; its role is FOLLOWER in every case. */
  function StartLeader(self: u64, majority: u64): u64 {
    if majority == self then 0 else majority
  }

  /**
   NodeJoin after its command was accepted: `received` are the invitations processed by the time the quorum is
   noticed, which may be more than the quorum. None stands for the timeout.
   */
  method NodeJoin(self: u64, hosts: set<u64>, received: seq<Invitation>) returns (leader: Option<u64>)
    ensures leader.Some? <==>
            |set n | n in hosts && (exists i :: 0 <= i < |received| && received[i].node == n)| >= |hosts| / 2 + 1
    ensures leader.Some? ==> leader.value == StartLeader(self, Majority(multiset(InvitedLeaders(hosts, received))))
  {
    var invitations: map<u64, Invitation> := map[];
    var invLeaders: seq<u64> := [];
    for i := 0 to |received|
      invariant invitations.Keys == Inviters(hosts, received[..i])
      invariant invLeaders == InvitedLeaders(hosts, received[..i])
    {
      var inv := received[i];
      assert received[..i + 1][..i] == received[..i];
      assert Inviters(hosts, received[..i + 1]) ==
             Inviters(hosts, received[..i]) + if inv.node in hosts then {inv.node} else {} by {
        forall j | 0 <= j < i ensures received[..i + 1][j] == received[..i][j] {}
        assert received[..i + 1][i] == inv;
      }
      if inv.node in hosts {
        if inv.node !in invitations {
          invitations := invitations[inv.node := inv];
          invLeaders := invLeaders + [inv.leader];
        }
      }
    }
    assert received[..|received|] == received;
    assert |invitations| == |invitations.Keys|;
    InvitersMean(hosts, received);
    ExpectedPlayersIsMajority(|hosts|);
    if |invitations| < ExpectedPlayers(|hosts|) {
      return None;
    }
    var picked := PickMajority(invLeaders);
    if picked == self {
      picked := 0;
    }
    return Some(picked);
  }

  lemma {:induction false} OneLeaderPerInviter(hosts: set<u64>, invitations: seq<Invitation>)
    ensures |InvitedLeaders(hosts, invitations)| == |Inviters(hosts, invitations)|
  {
    if invitations != [] {
      var init, inv := invitations[..|invitations| - 1], invitations[|invitations| - 1];
      OneLeaderPerInviter(hosts, init);
      forall j | 0 <= j < |init| ensures invitations[j] == init[j] {}
      assert Inviters(hosts, invitations) == Inviters(hosts, init) + if inv.node in hosts then {inv.node} else {};
    }
  }

  /**
   A joining node is pointed at the right leader when at most n/4 of the counted invitations name another one,
   however many members beyond the quorum were heard; hearing itself named, it starts with no leader (0).
   */
  lemma JoinFaultBound(self: u64, hosts: set<u64>, received: seq<Invitation>, leader: u64)
    requires |Inviters(hosts, received)| >= ExpectedPlayers(|hosts|)
    requires |InvitedLeaders(hosts, received)| - multiset(InvitedLeaders(hosts, received))[leader] <= |hosts| / 4
    ensures StartLeader(self, Majority(multiset(InvitedLeaders(hosts, received)))) ==
            if leader == self then 0 else leader
  {
    OneLeaderPerInviter(hosts, received);
    NestedQuorumSlack(|hosts|);
    ExpectedPlayersIsMajority(|hosts|);
    MajorityMeaning(multiset(InvitedLeaders(hosts, received)), leader);
  }

  lemma SpareMember(all: set<u64>, some: set<u64>)
    requires |some| < |all|
    ensures all - some != {}
  {
    if all <= some {
      SubsetSize(all, some);
      assert false;
    } else {
      var x :| x in all && x !in some;
      assert x in all - some;
    }
  }

  /** Invitations of `k` different members, of which the first `bad` name `wrong` and the others `leader`. */
  lemma {:induction false} Invite(hosts: set<u64>, k: nat, bad: nat, leader: u64, wrong: u64)
      returns (received: seq<Invitation>)
    requires k <= |hosts| && leader != wrong
    ensures |Inviters(hosts, received)| == |InvitedLeaders(hosts, received)| == k
    ensures multiset(InvitedLeaders(hosts, received))[leader] == if k <= bad then 0 else k - bad
    decreases k
  {
    if k == 0 {
      received := [];
    } else {
      var init := Invite(hosts, k - 1, bad, leader, wrong);
      var known := Inviters(hosts, init);
      SpareMember(hosts, known);
      var node :| node in hosts - known;
      var inv := Invitation(0, if k <= bad then wrong else leader, node);
      received := init + [inv];
      assert received[..|received| - 1] == init && received[|received| - 1] == inv;
      OneLeaderPerInviter(hosts, received);
      assert InvitedLeaders(hosts, received) == InvitedLeaders(hosts, init) + [inv.leader];
    }
  }

  /** The bound of a joining node is tight for every number of members: one wrong invitation more can mislead it. */
  lemma JoinFaultBoundIsTight(self: u64, hosts: set<u64>, leader: u64, wrong: u64)
      returns (received: seq<Invitation>)
    requires hosts != {} && leader != wrong && leader != 0 && leader != self
    ensures |Inviters(hosts, received)| == ExpectedPlayers(|hosts|)
    ensures |InvitedLeaders(hosts, received)| - multiset(InvitedLeaders(hosts, received))[leader] == |hosts| / 4 + 1
    ensures StartLeader(self, Majority(multiset(InvitedLeaders(hosts, received)))) != leader
  {
    var k, bad := ExpectedPlayers(|hosts|), |hosts| / 4 + 1;
    ExpectedPlayersIsMajority(|hosts|);
    NestedQuorumSlack(|hosts|);
    ExpectedPlayersIsMajority(k);
    received := Invite(hosts, k, bad, leader, wrong);
    MajorityMeaning(multiset(InvitedLeaders(hosts, received)), leader);
  }
}
