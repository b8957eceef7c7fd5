/**
 The appending operations of one member, said of its state and the messages alone: whose requests are taken, what is
 answered, what a leader stores, sends and records.
 */
module AppendingRules {
  import opened Words
  import opened Encoding
  import opened Messages
  import opened LogChain
  import opened Replica
  import opened Batches
  import opened VotingRules

  // ---------- the leader check ----------

  /** The request comes from the member's leader, or from a peer that convinces it to lead a term not over. */
  ghost predicate Led(env: Env, r: Replica, req: AppendRequest) {
    && req.leaderId in r.peers
    && (req.leaderId == r.leader || (|req.quorumVotes| > 0 && req.term >= r.term && ConvincedBy(env, r, req)))
  }

  /**
   A request that does not come from the leader, and does not convince, changes nothing at all. It is answered with an
   error, or crashes for want of a voter's key, the latter only when votes of a peer were to be weighed.
   */
  lemma OthersAreTurnedAway(env: Env, r: Replica, req: AppendRequest)
    requires || req.leaderId !in r.peers
             || (req.leaderId != r.leader &&
                 !(|req.quorumVotes| > 0 && req.term >= r.term && ConvincedBy(env, r, req)))
    ensures AppendEntries(env, r, req).0 == r
    ensures AppendEntries(env, r, req).1 ==
            if && req.leaderId in r.peers && |req.quorumVotes| > 0 && req.leaderId != r.leader && req.term >= r.term
               && KeyMissing(env, r, req)
            then KeyPanic else NoReply
  {
  }

  /**
   Any other request is taken by a member that its sender leads, from now on if not already; the reply tells the term
   and the head of the log as they were. Without the leader's key nothing is stored and an error is answered.
   */
  lemma LeadersAreHeard(env: Env, r: Replica, req: AppendRequest)
    requires Led(env, r, req)
    ensures var led := if req.leaderId == r.leader then r
                       else r.(role := Follower, leader := req.leaderId, term := req.term, votes := [],
                               votedTerm := 0, votedTo := 0, sendVotes := Follow(r, req.leaderId, req.term).sendVotes);
            var reply := AppendReply(r.term, LastIndex(r.log), env.self, false, true,
                                     HeadHash(env.sha1, env.gid, r.log));
            AppendEntries(env, r, req) ==
            if env.hasKey(req.leaderId) then ReceiveEntries(env, led, reply, req) else (led, NoReply)
  {
    FollowMeans(r, req.leaderId, req.term);
  }

  // ---------- the entries and the reply ----------

  /** The last entry of a known client tells index, term and hash of the reply; nothing else of the reply changes. */
  lemma {:induction false} ReplyMeans(env: Env, reply: AppendReply, entries: seq<LogEntry>)
    ensures var out := ReportKnown(env, reply, entries);
            && out == reply.(term := out.term, index := out.index, hash := out.hash)
            && ((forall i :: 0 <= i < |entries| ==> !env.knows(entries[i].command.clientId)) ==> out == reply)
            && forall k :: 0 <= k < |entries| && env.knows(entries[k].command.clientId) &&
                           (forall i :: k < i < |entries| ==> !env.knows(entries[i].command.clientId)) ==>
                 out.term == entries[k].term && out.index == entries[k].index && out.hash == entries[k].hash
    decreases |entries|
  {
    if entries != [] {
      var rest, first := entries[1..], ReportOne(env, reply, entries[0]);
      ReplyMeans(env, first, rest);
      forall k | 0 <= k < |entries| && env.knows(entries[k].command.clientId) &&
                 (forall i :: k < i < |entries| ==> !env.knows(entries[i].command.clientId))
        ensures var out := ReportKnown(env, reply, entries);
                out.term == entries[k].term && out.index == entries[k].index && out.hash == entries[k].hash
      {
        if k > 0 {
          assert rest[k - 1] == entries[k];
        } else {
          assert forall i :: 0 <= i < |rest| ==> rest[i] == entries[i + 1];
        }
      }
    }
  }

  /**
   What a follower with a valid chain answers to a batch of this group: an error only when the predecessor has another
   term, a report only when it has taken the batch, and otherwise where it stands.
   */
  lemma AnswersExactly(env: Env, r: Replica, reply: AppendReply, req: AppendRequest)
    requires ChainValid(env.sha1, env.gid, r.log) && OwnGroup(env.gid, req.entries)
    requires |r.log| + |req.entries| + 1 < U64_LIMIT && !reply.successed
    ensures var (r', outcome) := ReceiveEntries(env, r, reply, req);
            var follows := req.entries != [] && req.prevLogIndex == |r.log| && req.entries[0].index == |r.log| + 1;
            && (outcome == NoReply <==> follows && req.prevLogTerm != LastTerm(r.log))
            && (Continues(env, r.log, req) ==>
                  outcome == Replied(ReportKnown(env, reply, req.entries).(successed := true)))
            && (!Continues(env, r.log, req) && outcome != NoReply ==> outcome == Replied(reply))
  {
    BatchIsAllOrNothing(env, r, reply, req);
    ChainIsAscending(env.sha1, env.gid, r.log);
    if Continues(env, r.log, req) {
      assert Linked(env.sha1, env.gid, r.log + req.entries, |r.log|);
    }
  }

  /** The verification loop runs over the whole batch, or not at all when the index after it does not fit 64 bits. */
  lemma LoopRunsExactly(next: u64, n: nat)
    requires n < 0x1_0000_0000_0000_0000
    ensures LoopCount(next, n) == if next + n < 0x1_0000_0000_0000_0000 then n else 0
  {
  }

  /** A batch panics exactly when it holds a command of another group. */
  lemma {:induction false} BatchPanicsExactly(env: Env, log: seq<LogEntry>, applied: seq<LogEntry>,
                                              entries: seq<LogEntry>)
    ensures AppendAll(env, log, applied, entries).panicked <==>
            exists i :: 0 <= i < |entries| && entries[i].command.group != env.gid
    decreases |entries|
  {
    if entries != [] {
      var e := entries[0];
      if e.command.group == env.gid {
        var stored := AppendLocal(env.sha1, env.gid, log, e) == Stored;
        BatchPanicsExactly(env, if stored then Insert(log, e) else log, applied + [e], entries[1..]);
        if i :| 0 <= i < |entries| && entries[i].command.group != env.gid {
          assert entries[1..][i - 1] == entries[i];
        }
      }
    }
  }

  /** Every entry of a batch that does not panic is applied once and in order, even one that cannot be stored. */
  lemma {:induction false} BatchIsApplied(env: Env, log: seq<LogEntry>, applied: seq<LogEntry>, entries: seq<LogEntry>)
    ensures !AppendAll(env, log, applied, entries).panicked ==>
              AppendAll(env, log, applied, entries).applied == applied + entries
    decreases |entries|
  {
    if entries == [] {
      assert applied + entries == applied;
    } else {
      var stored := AppendLocal(env.sha1, env.gid, log, entries[0]) == Stored;
      BatchIsApplied(env, if stored then Insert(log, entries[0]) else log, applied + [entries[0]], entries[1..]);
      assert applied + [entries[0]] + entries[1..] == applied + entries;
    }
  }

  // ---------- what a leader stores ----------

  /** Commands are let in on the leader field alone, whatever the role. */
  lemma LetInExactly(env: Env, r: Replica)
    ensures Admits(env, r) <==> r.leader == env.self
  {
  }

  /** An entry is taken at its index exactly when it is of the group, new, and hashed onto the head of the log. */
  lemma StoredExactly(h: Hasher, gid: u64, log: seq<LogEntry>, e: LogEntry)
    ensures AppendLocal(h, gid, log, e) ==
            if e.command.group != gid then GroupPanic
            else if exists i :: 0 <= i < |log| && log[i].index == e.index then Existed
            else if e.hash == h((if log == [] then h(GenesisText(gid)) else log[|log| - 1].hash)
                                + U64Bytes(e.index) + U64Bytes(e.command.funcId) + e.command.arg) then Stored
            else HashMismatch
  {
  }

  /**
   An executed command is stored as it came, in the member's term, at the next index, hashed onto the head of the log,
   and applied once.
   */
  lemma CommandIsStored(env: Env, r: Replica, cmd: Command)
    requires Ascending(r.log) && cmd.group == env.gid && LastIndex(r.log) + 1 < U64_LIMIT
    ensures var r' := ExecAdmitted(env, r, cmd);
            && |r'.log| == |r.log| + 1 && |r'.applied| == |r.applied| + 1
            && r'.log[..|r.log|] == r.log && r'.applied[..|r.applied|] == r.applied
            && r' == r.(log := r'.log, applied := r'.applied)
            && var e := r'.log[|r.log|];
               && e == r'.applied[|r.applied|]
               && e.command == cmd && e.term == r.term && e.index == LastIndex(r.log) + 1
               && e.hash == env.sha1((if r.log == [] then env.sha1(GenesisText(env.gid)) else r.log[|r.log| - 1].hash)
                                     + U64Bytes(e.index) + U64Bytes(cmd.funcId) + cmd.arg)
  {
    var e := NextEntry(env, r, cmd);
    assert !HasIndex(r.log, e.index);
    assert Insert(r.log, e) == r.log + [e];
  }

  // ---------- what a leader sends ----------

  /**
   The entries from NextIndex on, and the entry before them; a new peer gets everything and no predecessor, and where
   nothing is before the first entry, that entry stands in for it.
   */
  lemma CutMeans(log: seq<LogEntry>, peer: Peer)
    ensures Uncommitted(log, peer).entries == log[CountBelow(log, peer.nextIndex)..]
    ensures log == [] || (peer.nextIndex == 0 && peer.matchIndex == 0) ==>
              Uncommitted(log, peer).prevIndex == 0 && Uncommitted(log, peer).prevTerm == 0
    ensures log != [] && (peer.nextIndex != 0 || peer.matchIndex != 0) ==>
              var n := CountBelow(log, peer.nextIndex);
              var prev := if n == 0 then log[0] else log[n - 1];
              Uncommitted(log, peer).prevIndex == prev.index && Uncommitted(log, peer).prevTerm == prev.term
  {
  }

  /** A heartbeat speaks for its sender, in its group and term, with its votes while it is itself marked for them. */
  lemma HeartbeatMeans(env: Env, r: Replica, id: u64)
    requires id in r.peers
    ensures var (req, cut) := (HeartbeatRequest(env, r, id), Uncommitted(r.log, r.peers[id]));
            && req.group == env.gid && req.term == r.term && req.leaderId == env.self
            && req.entries == cut.entries && req.prevLogIndex == cut.prevIndex && req.prevLogTerm == cut.prevTerm
            && (env.self in r.sendVotes && r.sendVotes[env.self] ==> req.quorumVotes == r.votes)
            && (env.self !in r.sendVotes || !r.sendVotes[env.self] ==> req.quorumVotes == [])
  {
  }

  // ---------- what a leader records ----------

  /**
   A reply of a peer with a known key sets its match to what it reports, be it more or less than before, and its mark to
   whether it still has to be convinced. Any other reply changes nothing.
   */
  lemma RecordedExactly(env: Env, r: Replica, reply: AppendReply)
    ensures var r' := HandleReply(env, r, reply);
            if env.hasKey(reply.peer) && reply.peer in r.peers then
              && r' == r.(peers := r'.peers, sendVotes := r'.sendVotes)
              && r'.peers.Keys == r.peers.Keys
              && (forall id :: id in r.peers && id != reply.peer ==> r'.peers[id] == r.peers[id])
              && r'.peers[reply.peer].matchIndex == reply.index
              && r'.peers[reply.peer].id == r.peers[reply.peer].id
              && r'.peers[reply.peer].group == r.peers[reply.peer].group
              && (reply.index == r.peers[reply.peer].matchIndex ==>
                    r'.peers[reply.peer].nextIndex == r.peers[reply.peer].nextIndex)
              && (reply.index != r.peers[reply.peer].matchIndex ==>
                    r'.peers[reply.peer].nextIndex == (reply.index + 1) % 0x1_0000_0000_0000_0000)
              && r'.sendVotes.Keys == r.sendVotes.Keys + {reply.peer}
              && r'.sendVotes[reply.peer] == !reply.convinced
              && forall id :: id in r.sendVotes && id != reply.peer ==> r'.sendVotes[id] == r.sendVotes[id]
            else r' == r
  {
  }

  /** A round of replies crashes exactly at a verifiable reply in the name of an outsider. */
  lemma {:induction false} RoundCrashesExactly(env: Env, r: Replica, replies: seq<Option<AppendReply>>)
    ensures HandleReplies(env, r, replies).1 <==>
            exists i :: 0 <= i < |replies| && replies[i].Some? &&
                        env.hasKey(replies[i].value.peer) && replies[i].value.peer !in r.peers
    decreases |replies|
  {
    if replies != [] {
      var rest := replies[1..];
      if replies[0].None? {
        RoundCrashesExactly(env, r, rest);
      } else if !ReplyCrashes(env, r, replies[0].value) {
        var r' := HandleReply(env, r, replies[0].value);
        RecordedExactly(env, r, replies[0].value);
        RoundCrashesExactly(env, r', rest);
      }
      if i :| 0 <= i < |replies| && replies[i].Some? &&
              env.hasKey(replies[i].value.peer) && replies[i].value.peer !in r.peers && i > 0 {
        assert rest[i - 1] == replies[i];
      }
    }
  }

  // ---------- pulling ----------

  lemma {:induction false} InsertAdds(log: seq<LogEntry>, e: LogEntry)
    ensures e in Insert(log, e) && forall x :: x in log ==> x in Insert(log, e)
    decreases |log|
  {
    if log != [] && log[|log| - 1].index >= e.index {
      InsertAdds(log[..|log| - 1], e);
    }
  }

  /** A pull applies the entries up to the first that cannot be stored. */
  lemma {:induction false} PullMeans(env: Env, r: Replica, entries: seq<LogEntry>) returns (n: nat)
    ensures n <= |entries|
    ensures var r' := PullEntries(env, r, entries).0;
            && r' == r.(log := r'.log, applied := r.applied + entries[..n])
            && (n < |entries| ==> AppendLocal(env.sha1, env.gid, r'.log, entries[n]) != Stored)
    decreases |entries|
  {
    if entries == [] || AppendLocal(env.sha1, env.gid, r.log, entries[0]) != Stored {
      n := 0;
      assert r.applied + entries[..0] == r.applied;
    } else {
      var next := r.(log := Insert(r.log, entries[0]), applied := r.applied + [entries[0]]);
      var m := PullMeans(env, next, entries[1..]);
      n := m + 1;
      assert next.applied + entries[1..][..m] == r.applied + entries[..n];
      assert n < |entries| ==> entries[1..][m] == entries[n];
    }
  }

  /** It panics exactly when the entry it stops at is of another group. */
  lemma {:induction false} PullPanicsExactly(env: Env, r: Replica, entries: seq<LogEntry>)
    ensures var (r', panicked) := PullEntries(env, r, entries);
            var n := |r'.applied| - |r.applied|;
            0 <= n <= |entries| && (panicked <==> n < |entries| && entries[n].command.group != env.gid)
    decreases |entries|
  {
    if entries != [] && AppendLocal(env.sha1, env.gid, r.log, entries[0]) == Stored {
      var next := r.(log := Insert(r.log, entries[0]), applied := r.applied + [entries[0]]);
      PullPanicsExactly(env, next, entries[1..]);
    }
  }

  /** What a pull applies it stores, and what was stored stays. */
  lemma {:induction false} PullStores(env: Env, r: Replica, entries: seq<LogEntry>)
    ensures var r' := PullEntries(env, r, entries).0;
            && |r.applied| <= |r'.applied| <= |r.applied| + |entries|
            && (forall e :: e in r.log ==> e in r'.log)
            && forall i :: 0 <= i < |r'.applied| - |r.applied| ==> entries[i] in r'.log
    decreases |entries|
  {
    if entries != [] && AppendLocal(env.sha1, env.gid, r.log, entries[0]) == Stored {
      var e := entries[0];
      InsertAdds(r.log, e);
      var next := r.(log := Insert(r.log, e), applied := r.applied + [e]);
      PullStores(env, next, entries[1..]);
      var r' := PullEntries(env, r, entries).0;
      forall i | 0 <= i < |r'.applied| - |r.applied| ensures entries[i] in r'.log {
        if i > 0 {
          assert entries[1..][i - 1] == entries[i];
        }
      }
    }
  }
}
