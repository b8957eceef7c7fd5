/** What one exchange of entries guarantees: the batch a leader cuts and the batch a follower takes. */
module Batches {
  import opened Words
  import opened Messages
  import opened SignText
  import opened LogChain
  import opened Quorum
  import opened Replica

  // ---------- taking a batch ----------

  predicate OwnGroup(gid: u64, entries: seq<LogEntry>) {
    forall i :: 0 <= i < |entries| ==> entries[i].command.group == gid
  }

  lemma HeadLink(h: Hasher, gid: u64, log: seq<LogEntry>, entries: seq<LogEntry>)
    requires entries != [] && entries[0].command.group == gid
    ensures var e := entries[0];
            Linked(h, gid, log + entries, |log|) <==>
            && e.index == |log| + 1
            && e.hash == LogHash(h, HeadHash(h, gid, log), |log| + 1, e.command.funcId, e.command.arg)
  {
    assert (log + entries)[..|log|] == log && (log + entries)[|log|] == entries[0];
  }

  /** On a valid chain, the verification loop asks exactly that the batch continue the chain. */
  lemma {:induction false} VerifiedMeansChained(env: Env, log: seq<LogEntry>, entries: seq<LogEntry>)
    requires ChainValid(env.sha1, env.gid, log) && OwnGroup(env.gid, entries)
    requires |log| + |entries| + 1 < U64_LIMIT
    ensures VerifyFrom(env.sha1, HeadHash(env.sha1, env.gid, log), |log| + 1, entries) <==>
            ChainValid(env.sha1, env.gid, log + entries)
    decreases |entries|
  {
    if entries == [] {
      assert log + entries == log;
    } else {
      var e := entries[0];
      HeadLink(env.sha1, env.gid, log, entries);
      if Linked(env.sha1, env.gid, log + entries, |log|) {
        ChainExtend(env.sha1, env.gid, log, e);
        assert OwnGroup(env.gid, entries[1..]);
        VerifiedMeansChained(env, log + [e], entries[1..]);
        assert log + [e] + entries[1..] == log + entries;
        assert HeadHash(env.sha1, env.gid, log + [e]) == e.hash;
        assert Inc64(|log| + 1) == |log| + 2;
      }
    }
  }

  /** A batch that continues the chain is stored and applied whole, in order, each entry once. */
  lemma {:induction false} ChainedBatchIsStored(env: Env, log: seq<LogEntry>, applied: seq<LogEntry>,
                                                entries: seq<LogEntry>)
    requires ChainValid(env.sha1, env.gid, log + entries)
    ensures AppendAll(env, log, applied, entries) == BatchResult(log + entries, applied + entries, false)
    decreases |entries|
  {
    if entries == [] {
      assert log + entries == log && applied + entries == applied;
    } else {
      var full := log + entries;
      ChainStep(env.sha1, env.gid, full, |log|);
      assert full[..|log|] == log && full[|log|] == entries[0] && full[..|log| + 1] == log + [entries[0]];
      assert log + [entries[0]] + entries[1..] == full;
      assert applied + [entries[0]] + entries[1..] == applied + entries;
      ChainedBatchIsStored(env, log + [entries[0]], applied + [entries[0]], entries[1..]);
    }
  }

  lemma {:induction false} ReportKeepsFlags(env: Env, reply: AppendReply, entries: seq<LogEntry>)
    ensures var out := ReportKnown(env, reply, entries);
            out.successed == reply.successed && out.convinced == reply.convinced && out.peer == reply.peer
    ensures ReportKnown(env, reply, entries).index == reply.index ||
            exists i :: 0 <= i < |entries| && entries[i].index == ReportKnown(env, reply, entries).index
    decreases |entries|
  {
    if entries != [] {
      var e := entries[0];
      var reply' := ReportOne(env, reply, e);
      ReportKeepsFlags(env, reply', entries[1..]);
      var index := ReportKnown(env, reply, entries).index;
      if index != reply.index && index != e.index {
        var i :| 0 <= i < |entries[1..]| && entries[1..][i].index == index;
        assert entries[i + 1].index == index;
      }
    }
  }

  lemma BatchVerifiedMeansChained(env: Env, log: seq<LogEntry>, entries: seq<LogEntry>)
    requires ChainValid(env.sha1, env.gid, log) && LastIndex(log) == |log|
    requires OwnGroup(env.gid, entries) && entries != []
    requires |log| + |entries| + 1 < U64_LIMIT
    ensures BatchVerified(env, log, entries) <==> ChainValid(env.sha1, env.gid, log + entries)
    ensures ChainValid(env.sha1, env.gid, log + entries) ==> entries[0].index == Inc64(LastIndex(log))
  {
    assert entries[..LoopCount(|log| + 1, |entries|)] == entries;
    VerifiedMeansChained(env, log, entries);
    if ChainValid(env.sha1, env.gid, log + entries) {
      assert Linked(env.sha1, env.gid, log + entries, |log|) && (log + entries)[|log|] == entries[0];
    }
  }

  /** The condition under which a follower takes a batch, said without the loops that test it. */
  predicate Continues(env: Env, log: seq<LogEntry>, req: AppendRequest) {
    && req.entries != []
    && req.prevLogIndex == LastIndex(log)
    && req.prevLogTerm == LastTerm(log)
    && ChainValid(env.sha1, env.gid, log + req.entries)
  }

  /**
   All or nothing: a batch of this group's commands is stored and applied whole exactly when it continues the
   follower's chain, and in every other case log and applied commands stay as they were.
   */
  lemma BatchIsAllOrNothing(env: Env, r: Replica, reply: AppendReply, req: AppendRequest)
    requires ChainValid(env.sha1, env.gid, r.log) && OwnGroup(env.gid, req.entries)
    requires |r.log| + |req.entries| + 1 < U64_LIMIT
    requires !reply.successed
    ensures var (r', outcome) := ReceiveEntries(env, r, reply, req);
            && (Continues(env, r.log, req) <==> outcome.Replied? && outcome.reply.successed)
            && (Continues(env, r.log, req) ==>
                  r' == r.(log := r.log + req.entries, applied := r.applied + req.entries))
            && (!Continues(env, r.log, req) ==> r' == r)
            && !outcome.GroupMismatchPanic?
  {
    ChainIsAscending(env.sha1, env.gid, r.log);
    if req.entries != [] {
      BatchVerifiedMeansChained(env, r.log, req.entries);
      if ChainValid(env.sha1, env.gid, r.log + req.entries) {
        ChainedBatchIsStored(env, r.log, r.applied, req.entries);
        ReportKeepsFlags(env, reply, req.entries);
      }
    }
  }

  /** Where a verified batch panics: at its first command of another group, everything before it being stored. */
  lemma {:induction false} ForeignCommandPanics(env: Env, log: seq<LogEntry>, applied: seq<LogEntry>,
                                                entries: seq<LogEntry>, k: nat)
    requires k < |entries| && entries[k].command.group != env.gid
    requires ChainValid(env.sha1, env.gid, log + entries[..k])
    ensures AppendAll(env, log, applied, entries) == BatchResult(log + entries[..k], applied + entries[..k], true)
    decreases |entries|
  {
    if k == 0 {
      assert log + entries[..k] == log && applied + entries[..k] == applied;
    } else {
      var full := log + entries[..k];
      ChainStep(env.sha1, env.gid, full, |log|);
      assert full[..|log|] == log && full[|log|] == entries[0] && full[..|log| + 1] == log + [entries[0]];
      assert entries[1..][..k - 1] == entries[1..k];
      assert log + [entries[0]] + entries[1..k] == full;
      assert applied + [entries[0]] + entries[1..k] == applied + entries[..k];
      ForeignCommandPanics(env, log + [entries[0]], applied + [entries[0]], entries[1..], k - 1);
    }
  }

  /**
   One accept proves everything: a follower that takes a batch cut from any sender's valid chain held the sender's
   prefix before the batch, and holds it through the end of the batch afterwards.
   */
  lemma OneAcceptProvesEverything(env: Env, r: Replica, reply: AppendReply, req: AppendRequest,
                                  sender: seq<LogEntry>, k: nat, m: nat)
    requires ChainValid(env.sha1, env.gid, r.log) && ChainValid(env.sha1, env.gid, sender)
    requires k < m <= |sender| && req.entries == sender[k..m]
    requires |r.log| + |req.entries| + 1 < U64_LIMIT && !reply.successed
    requires NoCollision(env.sha1, Preimages(env.sha1, env.gid, r.log + req.entries) +
                                   Preimages(env.sha1, env.gid, sender))
    requires ReceiveEntries(env, r, reply, req).1.Replied? && ReceiveEntries(env, r, reply, req).1.reply.successed
    ensures SameContents(r.log, sender[..k])
    ensures SameContents(ReceiveEntries(env, r, reply, req).0.log, sender[..m])
  {
    forall i | 0 <= i < |req.entries| ensures req.entries[i].command.group == env.gid {
      assert Linked(env.sha1, env.gid, sender, k + i);
    }
    BatchIsAllOrNothing(env, r, reply, req);
    var full := r.log + req.entries;
    var last := |full| - 1;
    assert full[last] == sender[m - 1];
    EqualHashesEqualPrefixes(env.sha1, env.gid, full, sender, last, m - 1);
    assert full[..last + 1] == full && sender[..m - 1 + 1] == sender[..m];
    forall i | 0 <= i < |r.log| ensures SameContent(r.log[i], sender[..k][i]) {
      assert SameContent(full[i], sender[..m][i]);
    }
  }

  // ---------- cutting a batch ----------

  /** The peer records the protocol keeps: untouched (0, 0), or matched through `k` with `k + 1` next. */
  predicate TrackedAt(peer: Peer, k: nat) {
    peer.matchIndex == k && peer.nextIndex == if k == 0 then 0 else k + 1
  }

  function TermAt(log: seq<LogEntry>, k: nat): u64
    requires k <= |log|
  {
    if k == 0 then 0 else log[k - 1].term
  }

  lemma CountBelowInChain(h: Hasher, gid: u64, log: seq<LogEntry>, k: nat)
    requires ChainValid(h, gid, log) && k <= |log| && k + 1 < U64_LIMIT
    ensures CountBelow(log, k + 1) == k && CountBelow(log, 0) == 0
  {
    ChainIsAscending(h, gid, log);
    forall i | 0 <= i < |log| ensures log[i].index == i + 1 {
      assert Linked(h, gid, log, i);
    }
    CountBelowSplits(log, k + 1);
    CountBelowSplits(log, 0);
    if log != [] {
      assert log[0].index == 1;
    }
    if k > 0 {
      assert log[k - 1].index == k;
    }
    if k < |log| {
      assert log[k].index == k + 1;
    }
  }

  /** From a tracked record the leader cuts exactly the entries after the match, with the matched entry before them. */
  lemma SuffixAfterMatch(h: Hasher, gid: u64, log: seq<LogEntry>, peer: Peer, k: nat)
    requires ChainValid(h, gid, log) && k <= |log| && TrackedAt(peer, k)
    ensures Uncommitted(log, peer) == Suffix(log[k..], k, TermAt(log, k))
  {
    if k == 0 {
      CountBelowInChain(h, gid, log, 0);
    } else {
      CountBelowInChain(h, gid, log, k);
      assert Linked(h, gid, log, k - 1);
    }
  }

  /**
   For a record (k, k + 1) the predecessor sent is the right one if and only if k is at least 1 or nothing is logged:
   (0, 1) sends the first entry both as predecessor and as content.
   */
  lemma PredecessorExact(h: Hasher, gid: u64, log: seq<LogEntry>, peer: Peer, k: nat)
    requires ChainValid(h, gid, log) && k <= |log|
    requires peer.matchIndex == k && peer.nextIndex == k + 1
    ensures Uncommitted(log, peer).entries == log[k..]
    ensures Uncommitted(log, peer).prevIndex == k && Uncommitted(log, peer).prevTerm == TermAt(log, k) <==>
            k >= 1 || log == []
  {
    CountBelowInChain(h, gid, log, k);
    if k > 0 {
      assert Linked(h, gid, log, k - 1);
    } else if log != [] {
      assert Linked(h, gid, log, 0);
    }
  }

  // ---------- being convinced ----------

  /** Two leaders that one membership can be convinced of share a voter. */
  lemma AcceptedLeadersShareAVoter(env1: Env, env2: Env, r1: Replica, r2: Replica,
                                   req1: AppendRequest, req2: AppendRequest)
      returns (voter: u64)
    requires r1.peers.Keys == r2.peers.Keys
    requires ConvincedBy(env1, r1, req1) && ConvincedBy(env2, r2, req2)
    ensures voter in r1.peers
    ensures exists v :: v in req1.quorumVotes && v.voter == voter && v.granted && v.group == env1.gid &&
                        v.candidateId == req1.leaderId && env1.verify(voter, v.signature, VoteText(v))
    ensures exists v :: v in req2.quorumVotes && v.voter == voter && v.granted && v.group == env2.gid &&
                        v.candidateId == req2.leaderId && env2.verify(voter, v.signature, VoteText(v))
  {
    var a := ValidVoters(env1, r1.peers.Keys, req1.quorumVotes, req1.leaderId);
    var b := ValidVoters(env2, r1.peers.Keys, req2.quorumVotes, req2.leaderId);
    assert |r1.peers| == |r1.peers.Keys| == |r2.peers.Keys| == |r2.peers|;
    voter := QuorumsIntersect(r1.peers.Keys, a, b);
    var i :| 0 <= i < |req1.quorumVotes| && req1.quorumVotes[i].voter == voter &&
             CountsFor(env1, req1.quorumVotes[i], req1.leaderId);
    var j :| 0 <= j < |req2.quorumVotes| && req2.quorumVotes[j].voter == voter &&
             CountsFor(env2, req2.quorumVotes[j], req2.leaderId);
    assert req1.quorumVotes[i] in req1.quorumVotes && req2.quorumVotes[j] in req2.quorumVotes;
  }
}
