/**
 The textual formats that are signed or hashed: decimal fields joined by dashes
 (server/vote.go, server/log_entries.go, server/membership.go).
 Text is kept as the ASCII bytes that reach the signer.
 */
module SignText {
  import opened Words
  import opened Messages

  const DASH: byte := 45
  const ZERO: byte := 48

  // "true", "false" and "GROUP:"
  const TRUE_TEXT: Bytes := [116, 114, 117, 101]
  const FALSE_TEXT: Bytes := [102, 97, 108, 115, 101]
  const GROUP_TEXT: Bytes := [71, 82, 79, 85, 80, 58]

  function Decimal(n: nat): (t: Bytes)
    ensures |t| >= 1
    ensures forall c :: c in t ==> ZERO <= c < ZERO + 10
  {
    if n < 10 then [ZERO + n] else Decimal(n / 10) + [ZERO + n % 10]
  }

  function DecimalValue(t: Bytes): int {
    if t == [] then 0 else DecimalValue(t[..|t| - 1]) * 10 + (t[|t| - 1] - ZERO)
  }

  lemma {:induction false} DecimalRoundTrip(n: nat)
    ensures DecimalValue(Decimal(n)) == n
  {
    var t := Decimal(n);
    if n < 10 {
      assert t[..|t| - 1] == [];
    } else {
      DecimalRoundTrip(n / 10);
      assert t[..|t| - 1] == Decimal(n / 10);
    }
  }

  lemma DecimalInjective(m: nat, n: nat)
    requires Decimal(m) == Decimal(n)
    ensures m == n
  {
    DecimalRoundTrip(m);
    DecimalRoundTrip(n);
  }

  function Pow10(w: nat): nat {
    if w == 0 then 1 else 10 * Pow10(w - 1)
  }

  lemma {:induction false} DecimalLength(n: nat, w: nat)
    requires w >= 1 && n < Pow10(w)
    ensures |Decimal(n)| <= w
  {
    if n >= 10 {
      assert w > 1;
      DecimalLength(n / 10, w - 1);
    }
  }

  /** A 64-bit number prints in at most twenty digits. */
  lemma U64DecimalLength(n: u64)
    ensures |Decimal(n)| <= 20
  {
    assert Pow10(4) == 10_000;
    assert Pow10(8) == 100_000_000;
    assert Pow10(12) == 1_000_000_000_000;
    assert Pow10(16) == 10_000_000_000_000_000;
    assert Pow10(20) == 100_000_000_000_000_000_000;
    DecimalLength(n, 20);
  }

  // ---------- dash-separated fields ----------

  predicate Dashless(t: Bytes) {
    DASH !in t
  }

  function Join(fields: seq<Bytes>): Bytes
    requires fields != []
  {
    if |fields| == 1 then fields[0] else fields[0] + [DASH] + Join(fields[1..])
  }

  function Split(t: Bytes): (fields: seq<Bytes>)
    ensures fields != []
  {
    if t == [] then [[]]
    else
      var rest := Split(t[1..]);
      if t[0] == DASH then [[]] + rest else [[t[0]] + rest[0]] + rest[1..]
  }

  lemma {:induction false} SplitField(field: Bytes, rest: Bytes)
    requires Dashless(field)
    ensures Split(field) == [field]
    ensures Split(field + [DASH] + rest) == [field] + Split(rest)
  {
    var t := field + [DASH] + rest;
    if field == [] {
      assert t[1..] == rest;
    } else {
      SplitField(field[1..], rest);
      assert t[1..] == field[1..] + [DASH] + rest;
      assert [field[0]] + field[1..] == field;
    }
  }

  lemma {:induction false} SplitUndoesJoin(fields: seq<Bytes>)
    requires fields != [] && forall f :: f in fields ==> Dashless(f)
    ensures Split(Join(fields)) == fields
  {
    if |fields| == 1 {
      SplitField(fields[0], []);
    } else {
      SplitUndoesJoin(fields[1..]);
      SplitField(fields[0], Join(fields[1..]));
      assert [fields[0]] + fields[1..] == fields;
    }
  }

  // ---------- the signed formats ----------

  function BoolText(b: bool): Bytes {
    if b then TRUE_TEXT else FALSE_TEXT
  }

  function VoteRequestText(req: VoteRequest): Bytes {
    Join([Decimal(req.group), Decimal(req.term), Decimal(req.logIndex), Decimal(req.term), Decimal(req.candidateId)])
  }

  function VoteText(v: Vote): Bytes {
    Join([Decimal(v.group), Decimal(v.term), Decimal(v.logIndex), Decimal(v.term), Decimal(v.candidateId),
          BoolText(v.granted)])
  }

  function AppendText(group: u64, term: u64, prevIndex: u64, prevTerm: u64): Bytes {
    Join([Decimal(group), Decimal(term), Decimal(prevIndex), Decimal(prevTerm)])
  }

  function InvitationText(inv: Invitation): Bytes {
    Join([Decimal(inv.group), Decimal(inv.node), Decimal(inv.leader)])
  }

  /** What a signed text says, recovered from the text alone. */
  datatype SignedFields =
    | InvitationFields(group: int, node: int, leader: int)
    | AppendFields(group: int, term: int, prevIndex: int, prevTerm: int)
    | RequestFields(group: int, term: int, logIndex: int, candidateId: int)
    | VoteFields(group: int, term: int, logIndex: int, candidateId: int, granted: bool)
    | Unreadable

  function Parse(t: Bytes): SignedFields {
    var f := Split(t);
    match |f|
    case 3 => InvitationFields(DecimalValue(f[0]), DecimalValue(f[1]), DecimalValue(f[2]))
    case 4 => AppendFields(DecimalValue(f[0]), DecimalValue(f[1]), DecimalValue(f[2]), DecimalValue(f[3]))
    case 5 => RequestFields(DecimalValue(f[0]), DecimalValue(f[1]), DecimalValue(f[2]), DecimalValue(f[4]))
    case 6 =>
      VoteFields(DecimalValue(f[0]), DecimalValue(f[1]), DecimalValue(f[2]), DecimalValue(f[4]), f[5] == TRUE_TEXT)
    case _ => Unreadable
  }

  lemma ParseVoteRequest(req: VoteRequest)
    ensures Parse(VoteRequestText(req)) == RequestFields(req.group, req.term, req.logIndex, req.candidateId)
  {
    var fields := [Decimal(req.group), Decimal(req.term), Decimal(req.logIndex), Decimal(req.term),
                   Decimal(req.candidateId)];
    SplitUndoesJoin(fields);
    DecimalRoundTrip(req.group);
    DecimalRoundTrip(req.term);
    DecimalRoundTrip(req.logIndex);
    DecimalRoundTrip(req.candidateId);
  }

  lemma ParseVote(v: Vote)
    ensures Parse(VoteText(v)) == VoteFields(v.group, v.term, v.logIndex, v.candidateId, v.granted)
  {
    var fields := [Decimal(v.group), Decimal(v.term), Decimal(v.logIndex), Decimal(v.term), Decimal(v.candidateId),
                   BoolText(v.granted)];
    SplitUndoesJoin(fields);
    DecimalRoundTrip(v.group);
    DecimalRoundTrip(v.term);
    DecimalRoundTrip(v.logIndex);
    DecimalRoundTrip(v.candidateId);
    assert TRUE_TEXT[0] != FALSE_TEXT[0];
  }

  lemma ParseAppend(group: u64, term: u64, prevIndex: u64, prevTerm: u64)
    ensures Parse(AppendText(group, term, prevIndex, prevTerm)) == AppendFields(group, term, prevIndex, prevTerm)
  {
    SplitUndoesJoin([Decimal(group), Decimal(term), Decimal(prevIndex), Decimal(prevTerm)]);
    DecimalRoundTrip(group);
    DecimalRoundTrip(term);
    DecimalRoundTrip(prevIndex);
    DecimalRoundTrip(prevTerm);
  }

  lemma ParseInvitation(inv: Invitation)
    ensures Parse(InvitationText(inv)) == InvitationFields(inv.group, inv.node, inv.leader)
  {
    SplitUndoesJoin([Decimal(inv.group), Decimal(inv.node), Decimal(inv.leader)]);
    DecimalRoundTrip(inv.group);
    DecimalRoundTrip(inv.node);
    DecimalRoundTrip(inv.leader);
  }

  /** Two votes are interchangeable for the signer exactly when they agree on every field but the voter. */
  lemma VoteTextInjective(v: Vote, w: Vote)
    ensures VoteText(v) == VoteText(w) <==>
            v.group == w.group && v.term == w.term && v.logIndex == w.logIndex &&
            v.candidateId == w.candidateId && v.granted == w.granted
  {
    ParseVote(v);
    ParseVote(w);
  }

  /** Two vote requests sign alike exactly when they agree on every field but the last log term. */
  lemma VoteRequestTextInjective(a: VoteRequest, b: VoteRequest)
    ensures VoteRequestText(a) == VoteRequestText(b) <==>
            a.group == b.group && a.term == b.term && a.logIndex == b.logIndex && a.candidateId == b.candidateId
  {
    ParseVoteRequest(a);
    ParseVoteRequest(b);
  }

  /** No signed text of one kind can be presented as a text of another kind. */
  lemma FormatsAreDisjoint(req: VoteRequest, v: Vote, g: u64, t: u64, i: u64, p: u64, inv: Invitation)
    ensures VoteRequestText(req) != VoteText(v)
    ensures VoteRequestText(req) != AppendText(g, t, i, p)
    ensures VoteRequestText(req) != InvitationText(inv)
    ensures VoteText(v) != AppendText(g, t, i, p)
    ensures VoteText(v) != InvitationText(inv)
    ensures AppendText(g, t, i, p) != InvitationText(inv)
  {
    ParseVoteRequest(req);
    ParseVote(v);
    ParseAppend(g, t, i, p);
    ParseInvitation(inv);
  }

  // ---------- the texts, byte by byte ----------

  lemma {:induction false} JoinMore(fields: seq<Bytes>, last: Bytes)
    requires fields != []
    ensures Join(fields + [last]) == Join(fields) + [45] + last
    decreases |fields|
  {
    assert (fields + [last])[1..] == fields[1..] + [last];
    if |fields| == 1 {
      assert fields[1..] + [last] == [last];
    } else {
      JoinMore(fields[1..], last);
    }
  }

  lemma JoinThree(a: Bytes, b: Bytes, c: Bytes)
    ensures Join([a, b, c]) == a + [45] + b + [45] + c
  {
    JoinMore([a], b);
    JoinMore([a, b], c);
    assert [a] + [b] == [a, b] && [a, b] + [c] == [a, b, c];
  }

  lemma JoinFour(a: Bytes, b: Bytes, c: Bytes, d: Bytes)
    ensures Join([a, b, c, d]) == a + [45] + b + [45] + c + [45] + d
  {
    JoinThree(a, b, c);
    JoinMore([a, b, c], d);
    assert [a, b, c] + [d] == [a, b, c, d];
  }

  lemma JoinFive(a: Bytes, b: Bytes, c: Bytes, d: Bytes, e: Bytes)
    ensures Join([a, b, c, d, e]) == a + [45] + b + [45] + c + [45] + d + [45] + e
  {
    JoinFour(a, b, c, d);
    JoinMore([a, b, c, d], e);
    assert [a, b, c, d] + [e] == [a, b, c, d, e];
  }

  lemma JoinSix(a: Bytes, b: Bytes, c: Bytes, d: Bytes, e: Bytes, f: Bytes)
    ensures Join([a, b, c, d, e, f]) == a + [45] + b + [45] + c + [45] + d + [45] + e + [45] + f
  {
    JoinFive(a, b, c, d, e);
    JoinMore([a, b, c, d, e], f);
    assert [a, b, c, d, e] + [f] == [a, b, c, d, e, f];
  }

  /** Numbers print in ASCII digits, most significant first, without leading zeros. */
  lemma DecimalSamples()
    ensures Decimal(0) == [48] && Decimal(7) == [55] && Decimal(10) == [49, 48] && Decimal(1024) == [49, 48, 50, 52]
  {
    assert Decimal(102) == [49, 48, 50];
  }

  /** Fields stand in this order between dashes; the term stands twice, and the last log term nowhere. */
  lemma VoteRequestLayout(req: VoteRequest)
    ensures VoteRequestText(req) ==
            Decimal(req.group) + [45] + Decimal(req.term) + [45] + Decimal(req.logIndex) + [45] + Decimal(req.term)
            + [45] + Decimal(req.candidateId)
  {
    JoinFive(Decimal(req.group), Decimal(req.term), Decimal(req.logIndex), Decimal(req.term), Decimal(req.candidateId));
  }

  /** A vote ends in "true" or "false". */
  lemma VoteLayout(v: Vote)
    ensures var verdict: Bytes := if v.granted then [116, 114, 117, 101] else [102, 97, 108, 115, 101];
            VoteText(v) ==
            Decimal(v.group) + [45] + Decimal(v.term) + [45] + Decimal(v.logIndex) + [45] + Decimal(v.term)
            + [45] + Decimal(v.candidateId) + [45] + verdict
  {
    JoinSix(Decimal(v.group), Decimal(v.term), Decimal(v.logIndex), Decimal(v.term), Decimal(v.candidateId),
            BoolText(v.granted));
  }

  lemma AppendLayout(group: u64, term: u64, prevIndex: u64, prevTerm: u64)
    ensures AppendText(group, term, prevIndex, prevTerm) ==
            Decimal(group) + [45] + Decimal(term) + [45] + Decimal(prevIndex) + [45] + Decimal(prevTerm)
  {
    JoinFour(Decimal(group), Decimal(term), Decimal(prevIndex), Decimal(prevTerm));
  }

  lemma InvitationLayout(inv: Invitation)
    ensures InvitationText(inv) == Decimal(inv.group) + [45] + Decimal(inv.node) + [45] + Decimal(inv.leader)
  {
    JoinThree(Decimal(inv.group), Decimal(inv.node), Decimal(inv.leader));
  }
}
