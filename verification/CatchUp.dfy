/** How fast a follower catches up when heartbeat rounds get through (server/group.go, server/peers.go). */
module CatchUp {
  import opened Words
  import opened Messages
  import opened LogChain
  import opened Replica
  import opened Batches
  import opened Replication

  /** The leader and one follower. */
  datatype Pair = Pair(lead: Replica, follower: Replica)

  /** Where one round runs: the directories of both sides may change from round to round. */
  datatype Site = Site(lead: Env, follower: Env)

  /** A follower that recognises this leader and can be verified by it. */
  ghost predicate Connected(site: Site, s: Pair, h: Hasher) {
    var (le, fe) := (site.lead, site.follower);
    && le.gid == fe.gid && le.sha1 == h && fe.sha1 == h
    && fe.self in s.lead.peers && le.self in s.follower.peers
    && s.follower.leader == le.self
    && fe.hasKey(le.self) && le.hasKey(fe.self)
  }

  predicate Tracks(site: Site, s: Pair) {
    site.follower.self in s.lead.peers
  }

  function Record(site: Site, s: Pair): Peer
    requires Tracks(site, s)
  {
    s.lead.peers[site.follower.self]
  }

  function Matched(site: Site, s: Pair): nat
    requires Tracks(site, s)
  {
    Record(site, s).matchIndex
  }

  ghost predicate Behind(site: Site, s: Pair) {
    && Tracks(site, s)
    && ChainValid(site.lead.sha1, site.lead.gid, s.lead.log) && |s.lead.log| + 1 < U64_LIMIT
    && s.follower.log <= s.lead.log && s.follower.applied == s.follower.log
    && TrackedAt(Record(site, s), Matched(site, s))
    && Matched(site, s) <= |s.follower.log|
  }

  function RoundRequest(site: Site, s: Pair): AppendRequest
    requires Tracks(site, s)
  {
    HeartbeatRequest(site.lead, s.lead, site.follower.self)
  }

  /** What the answer to a request leaves behind on both sides. */
  function Settle(site: Site, s: Pair, follower: Replica, outcome: AppendOutcome): Pair {
    Pair(if outcome.Replied? then HandleReply(site.lead, s.lead, outcome.reply) else s.lead, follower)
  }

  /** One heartbeat round that is delivered both ways. */
  function Round(site: Site, s: Pair): Pair
    requires Tracks(site, s)
  {
    var (follower, outcome) := AppendEntries(site.follower, s.follower, RoundRequest(site, s));
    Settle(site, s, follower, outcome)
  }

  /** What is still missing: entries at the follower, and knowledge of them at the leader. */
  function Gap(site: Site, s: Pair): int
    requires Tracks(site, s)
  {
    (|s.lead.log| - |s.follower.log|) + (|s.lead.log| - Matched(site, s))
  }

  function OpenReply(site: Site, s: Pair): AppendReply {
    FirstReply(site.follower, s.follower).(convinced := true)
  }

  /** A recognised leader's request goes straight to the entries. */
  lemma NoTransfer(site: Site, s: Pair)
    requires Tracks(site, s) && site.lead.self in s.follower.peers
    requires s.follower.leader == site.lead.self && site.follower.hasKey(site.lead.self)
    ensures AppendEntries(site.follower, s.follower, RoundRequest(site, s)) ==
            ReceiveEntries(site.follower, s.follower, OpenReply(site, s), RoundRequest(site, s))
  {
  }

  /** How the leader's record follows a reply that is not behind it. */
  ghost predicate Closed(site: Site, s: Pair, s': Pair, follower: Replica, index: nat) {
    && Tracks(site, s) && Tracks(site, s')
    && s'.follower == follower
    && s'.lead == s.lead.(peers := s'.lead.peers, sendVotes := s'.lead.sendVotes)
    && s'.lead.peers.Keys == s.lead.peers.Keys
    && Matched(site, s') == index
    && TrackedAt(Record(site, s'), index)
  }

  lemma SettleCloses(site: Site, s: Pair, follower: Replica, reply: AppendReply)
    requires Tracks(site, s) && site.lead.hasKey(site.follower.self) && reply.peer == site.follower.self
    requires TrackedAt(Record(site, s), Matched(site, s))
    requires Matched(site, s) <= reply.index && reply.index + 1 < U64_LIMIT
    ensures Closed(site, s, Settle(site, s, follower, Replied(reply)), follower, reply.index)
  {
  }

  lemma ReplyCloses(site: Site, s: Pair, follower: Replica, reply: AppendReply)
    requires Tracks(site, s) && site.lead.hasKey(site.follower.self) && reply.peer == site.follower.self
    requires AppendEntries(site.follower, s.follower, RoundRequest(site, s)) == (follower, Replied(reply))
    requires TrackedAt(Record(site, s), Matched(site, s))
    requires Matched(site, s) <= reply.index && reply.index + 1 < U64_LIMIT
    ensures Closed(site, s, Round(site, s), follower, reply.index)
  {
    SettleCloses(site, s, follower, reply);
  }

  lemma ReceiveWhole(env: Env, r: Replica, reply: AppendReply, req: AppendRequest, log: seq<LogEntry>)
    requires ChainValid(env.sha1, env.gid, log) && |log| + 1 < U64_LIMIT && |r.log| < |log|
    requires r.log == log[..|r.log|] && r.applied == r.log && ChainValid(env.sha1, env.gid, r.log)
    requires req.entries == log[|r.log|..] && req.prevLogIndex == |r.log| && req.prevLogTerm == TermAt(log, |r.log|)
    requires !reply.successed && reply.index == |r.log|
    ensures var (r', outcome) := ReceiveEntries(env, r, reply, req);
            && r' == r.(log := log, applied := log)
            && outcome.Replied? && outcome.reply.peer == reply.peer
            && |r.log| <= outcome.reply.index <= |log|
  {
    assert r.log + req.entries == log;
    forall i | 0 <= i < |req.entries|
      ensures req.entries[i].command.group == env.gid && req.entries[i].index == |r.log| + i + 1
    {
      assert Linked(env.sha1, env.gid, log, |r.log| + i);
    }
    ChainIsAscending(env.sha1, env.gid, r.log);
    BatchIsAllOrNothing(env, r, reply, req);
    ReportKeepsFlags(env, reply, req.entries);
  }

  /** A matched follower takes the whole rest; the reply may lag behind it when clients are unknown. */
  lemma MatchedRound(site: Site, s: Pair, h: Hasher) returns (index: nat)
    requires Connected(site, s, h) && Behind(site, s)
    requires Matched(site, s) == |s.follower.log| < |s.lead.log|
    ensures Matched(site, s) <= index <= |s.lead.log|
    ensures Closed(site, s, Round(site, s), s.follower.(log := s.lead.log, applied := s.lead.log), index)
  {
    var log, k := s.lead.log, Matched(site, s);
    SuffixAfterMatch(h, site.lead.gid, log, Record(site, s), k);
    NoTransfer(site, s);
    ChainPrefix(h, site.lead.gid, log, k);
    assert log[..k] == s.follower.log;
    ChainIsAscending(h, site.lead.gid, s.follower.log);
    ReceiveWhole(site.follower, s.follower, OpenReply(site, s), RoundRequest(site, s), log);
    var reply := ReceiveEntries(site.follower, s.follower, OpenReply(site, s), RoundRequest(site, s)).1.reply;
    ReplyCloses(site, s, s.follower.(log := log, applied := log), reply);
    index := reply.index;
  }

  /** A follower ahead of its record, or complete, takes nothing and reports where it is. */
  lemma ReportingRound(site: Site, s: Pair, h: Hasher)
    requires Connected(site, s, h) && Behind(site, s)
    requires Matched(site, s) < |s.follower.log| || |s.follower.log| == |s.lead.log|
    ensures Closed(site, s, Round(site, s), s.follower, |s.follower.log|)
  {
    var log, k := s.lead.log, Matched(site, s);
    SuffixAfterMatch(h, site.lead.gid, log, Record(site, s), k);
    NoTransfer(site, s);
    ChainPrefix(h, site.lead.gid, log, |s.follower.log|);
    assert log[..|s.follower.log|] == s.follower.log;
    ChainIsAscending(h, site.lead.gid, s.follower.log);
    if k < |log| {
      assert Linked(h, site.lead.gid, log, k);
      assert RoundRequest(site, s).entries[0] == log[k];
    }
    OtherBatchIsIgnored(site.follower, s.follower, OpenReply(site, s), RoundRequest(site, s));
    ReplyCloses(site, s, s.follower, OpenReply(site, s));
  }

  /** Each delivered round closes part of the gap until nothing is missing, and keeps the pair in order. */
  lemma RoundProgress(site: Site, s: Pair, h: Hasher)
    requires Connected(site, s, h) && Behind(site, s)
    ensures var s' := Round(site, s);
            && Behind(site, s') && s'.lead.log == s.lead.log
            && s'.lead.peers.Keys == s.lead.peers.Keys
            && s'.follower == s.follower.(log := s'.follower.log, applied := s'.follower.applied)
            && (Gap(site, s') < Gap(site, s) || Gap(site, s) == Gap(site, s') == 0)
            && (Matched(site, s) == |s.follower.log| ==> s'.follower.log == s.lead.log)
            && (Matched(site, s) < |s.follower.log| || |s.follower.log| == |s.lead.log| ==>
                  s'.follower.log == s.follower.log && Matched(site, s') == |s.follower.log|)
  {
    if Matched(site, s) == |s.follower.log| < |s.lead.log| {
      var index := MatchedRound(site, s, h);
    } else {
      ReportingRound(site, s, h);
    }
  }

  lemma StaysConnected(site: Site, next: Site, s: Pair, h: Hasher)
    requires Connected(site, s, h) && Behind(site, s)
    requires Connected(next, s, h) && next.lead.self == site.lead.self && next.follower.self == site.follower.self
    requires next.lead.gid == site.lead.gid
    ensures Connected(next, Round(site, s), h) && Behind(next, Round(site, s))
  {
    RoundProgress(site, s, h);
  }

  /**
   Catching up: against a fixed leader log, two delivered rounds make the follower's log equal to it, and three make
   the leader know it, even when replies lag because clients are unknown and whatever the directories do in between.
   */
  lemma ThreeRoundsSuffice(a: Site, b: Site, c: Site, s: Pair, h: Hasher)
    requires Connected(a, s, h) && Connected(b, s, h) && Connected(c, s, h) && Behind(a, s)
    requires a.lead.self == b.lead.self == c.lead.self && a.follower.self == b.follower.self == c.follower.self
    requires a.lead.gid == b.lead.gid == c.lead.gid
    ensures var s1 := Round(a, s);
            Tracks(b, s1) &&
            var s2 := Round(b, s1);
            && Tracks(c, s2)
            && s2.follower.log == s2.follower.applied == s.lead.log
            && var s3 := Round(c, s2);
               && Tracks(c, s3)
               && s3.follower.log == s.lead.log
               && Record(c, s3).matchIndex == |s.lead.log|
               && TrackedAt(Record(c, s3), |s.lead.log|)
  {
    RoundProgress(a, s, h);
    StaysConnected(a, b, s, h);
    var s1 := Round(a, s);
    RoundProgress(b, s1, h);
    StaysConnected(a, c, s, h);
    StaysConnected(b, c, s1, h);
    var s2 := Round(b, s1);
    RoundProgress(c, s2, h);
  }
}
