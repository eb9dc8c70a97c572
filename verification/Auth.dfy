// The mutual challenge two nodes run before one serves the other
// (internal/network/auth.go), for any number of sessions in any interleaving.
//
// Both ends of a stream between honest nodes see what the other end wrote, in
// order: the transport is authenticated. A stream whose other end is a dishonest
// peer delivers whatever the adversary can make: any nonce or noise, any proof an
// honest node has sent to anyone, and any proof under a brain some dishonest peer
// holds.
module Handshakes {
  import opened Common

  type Peer = nat
  type Brain = nat

  // 32-byte words. Proofs are HMACs: equal only if made from the same parts.
  datatype Word = Nonce(n: nat) | Proof(brain: Brain, sender: Peer, over: Word) | Noise(n: nat)

  // What travels: words, and the single ack byte.
  datatype Frame = Full(word: Word) | Ack

  datatype Phase = Opened | NonceSent | NonceRead | ProofSent | Stored | Done

  function Rank(p: Phase): nat {
    match p
    case Opened => 0
    case NonceSent => 1
    case NonceRead => 2
    case ProofSent => 3
    case Stored => 4
    case Done => 5
  }

  // One end of a stream. The mate is the other end, if that peer is honest.
  datatype End = End(node: Peer, remote: Peer, initiator: bool, mate: int, phase: Phase, failed: bool,
                     ours: nat, theirs: Word, inbox: seq<Frame>)

  const NO_MATE: int := -1

  // Who is honest, and which brain each peer holds.
  datatype World = World(honest: Peer -> bool, brain: Peer -> Brain)

  datatype State = State(ends: map<nat, End>, used: set<nat>, stored: set<(Peer, Peer)>)

  const INITIAL: State := State(map[], {}, {})

  datatype Step =
    | Open(a: Peer, b: Peer, i: nat, j: nat)
    | SendNonce(i: nat, n: nat)
    | ReadNonce(i: nat, word: Word)
    | SendProof(i: nat)
    | CheckProof(i: nat, word: Word)
    | ReadAck(i: nat)
    | SendAck(i: nat)
    | Fail(i: nat)

  // authProof as a node computes it, for a sender and a nonce.
  function AuthProof(w: World, node: Peer, sender: Peer, nonce: Word): (p: Word)
    ensures p.Proof?
  {
    Proof(w.brain(node), sender, nonce)
  }

  // A dishonest peer holds the brain.
  ghost predicate Leaked(w: World, brain: Brain) {
    exists p :: !w.honest(p) && w.brain(p) == brain
  }

  // Some end has sent this proof.
  ghost predicate Produced(w: World, s: State, proof: Word) {
    exists i :: i in s.ends && Sender(w, s.ends[i], proof)
  }

  ghost predicate Sender(w: World, e: End, proof: Word) {
    Rank(e.phase) >= 3 && proof == AuthProof(w, e.node, e.node, e.theirs)
  }

  // What the adversary can send.
  ghost predicate Makeable(w: World, s: State, word: Word) {
    word.Proof? ==> Leaked(w, word.brain) || Produced(w, s, word)
  }

  // The next frame an end reads: its mate's, or anything the adversary can make.
  ghost predicate Delivers(w: World, s: State, e: End, frame: Frame) {
    if e.mate == NO_MATE then frame.Full? ==> Makeable(w, s, frame.word)
    else e.inbox != [] && e.inbox[0] == frame
  }

  ghost predicate At(s: State, i: nat, phase: Phase) {
    i in s.ends && s.ends[i].phase == phase && !s.ends[i].failed
  }

  // A stream opened by a to b: both ends appear if both peers are honest.
  ghost predicate CanOpen(w: World, s: State, a: Peer, b: Peer, i: nat, j: nat) {
    i !in s.ends && j !in s.ends && i != j && a != b && (w.honest(a) || w.honest(b))
  }

  ghost predicate Enabled(w: World, s: State, t: Step) {
    match t
    case Open(a, b, i, j) => CanOpen(w, s, a, b, i, j)
    case SendNonce(i, n) => At(s, i, Opened) && n !in s.used
    case ReadNonce(i, word) => At(s, i, NonceSent) && Delivers(w, s, s.ends[i], Full(word))
    case SendProof(i) => At(s, i, NonceRead)
    case CheckProof(i, word) => At(s, i, ProofSent) && Delivers(w, s, s.ends[i], Full(word))
    case ReadAck(i) => At(s, i, Stored) && s.ends[i].initiator && Delivers(w, s, s.ends[i], Ack)
    case SendAck(i) => At(s, i, Stored) && !s.ends[i].initiator
    case Fail(i) => i in s.ends
  }

  function NewEnd(node: Peer, remote: Peer, initiator: bool, mate: int): End {
    End(node, remote, initiator, mate, Opened, false, 0, Noise(0), [])
  }

  function Opening(w: World, ends: map<nat, End>, a: Peer, b: Peer, i: nat, j: nat): map<nat, End> {
    if w.honest(a) && w.honest(b) then ends[i := NewEnd(a, b, true, j)][j := NewEnd(b, a, false, i)]
    else if w.honest(a) then ends[i := NewEnd(a, b, true, NO_MATE)]
    else ends[j := NewEnd(b, a, false, NO_MATE)]
  }

  // An end moves on; what it writes arrives at its mate.
  function Moved(ends: map<nat, End>, i: nat, e: End, sent: seq<Frame>): map<nat, End> {
    if e.mate >= 0 && e.mate in ends && e.mate != i then
      ends[i := e][e.mate := ends[e.mate].(inbox := ends[e.mate].inbox + sent)]
    else ends[i := e]
  }

  // The end without the frame it has just read.
  function Read(e: End): End {
    if e.mate == NO_MATE || e.inbox == [] then e else e.(inbox := e.inbox[1..])
  }

  function EndAt(s: State, i: nat): End {
    if i in s.ends then s.ends[i] else NewEnd(0, 0, false, NO_MATE)
  }

  function Accepts(w: World, e: End, word: Word): bool {
    word == AuthProof(w, e.node, e.remote, Nonce(e.ours))
  }

  function After(w: World, s: State, t: Step): State {
    match t
    case Open(a, b, i, j) => s.(ends := Opening(w, s.ends, a, b, i, j))
    case SendNonce(i, n) =>
      State(Moved(s.ends, i, EndAt(s, i).(phase := NonceSent, ours := n), [Full(Nonce(n))]), s.used + {n}, s.stored)
    case ReadNonce(i, word) =>
      s.(ends := Moved(s.ends, i, Read(EndAt(s, i)).(phase := NonceRead, theirs := word), []))
    case SendProof(i) =>
      var e := EndAt(s, i);
      s.(ends := Moved(s.ends, i, e.(phase := ProofSent), [Full(AuthProof(w, e.node, e.node, e.theirs))]))
    case CheckProof(i, word) =>
      var e := EndAt(s, i);
      if Accepts(w, e, word) then
        s.(ends := Moved(s.ends, i, Read(e).(phase := Stored), []), stored := s.stored + {(e.node, e.remote)})
      else s.(ends := Moved(s.ends, i, e.(failed := true), []))
    case ReadAck(i) => s.(ends := Moved(s.ends, i, Read(EndAt(s, i)).(phase := Done), []))
    case SendAck(i) => s.(ends := Moved(s.ends, i, EndAt(s, i).(phase := Done), [Ack]))
    case Fail(i) => s.(ends := Moved(s.ends, i, EndAt(s, i).(failed := true), []))
  }

  // A run, if every step of it can be taken.
  ghost function Run(w: World, steps: seq<Step>): Option<State> {
    if steps == [] then Some(INITIAL)
    else
      var before, last := Run(w, steps[..|steps| - 1]), steps[|steps| - 1];
      if before.Some? && Enabled(w, before.value, last) then Some(After(w, before.value, last)) else None
  }

  // ----- what every run keeps -----------------------------------------------------------

  // What an end has written so far, and how much it has read.
  function Sent(w: World, e: End): seq<Frame> {
    (if Rank(e.phase) >= 1 then [Full(Nonce(e.ours))] else [])
    + (if Rank(e.phase) >= 3 then [Full(AuthProof(w, e.node, e.node, e.theirs))] else [])
    + (if !e.initiator && e.phase == Done then [Ack] else [])
  }

  function ReadCount(e: End): nat {
    if Rank(e.phase) < 2 then 0 else if Rank(e.phase) < 4 then 1 else if e.initiator && e.phase == Done then 3 else 2
  }

  // Two ends of one stream: what one has still to read is what the other wrote
  // last, and the nonce read is the nonce sent.
  ghost predicate PairOk(w: World, e: End, m: End) {
    && e.node == m.remote && e.remote == m.node && e.initiator == !m.initiator
    && ReadCount(e) <= |Sent(w, m)| && e.inbox == Sent(w, m)[ReadCount(e)..]
    && (Rank(e.phase) >= 2 ==> e.theirs == Nonce(m.ours) && Rank(m.phase) >= 1)
  }

  ghost predicate MateOk(w: World, s: State, i: nat)
    requires i in s.ends
  {
    var e := s.ends[i];
    && w.honest(e.node)
    && if e.mate == NO_MATE then !w.honest(e.remote)
       else e.mate >= 0 && e.mate != i && e.mate in s.ends && s.ends[e.mate].mate == i && PairOk(w, e, s.ends[e.mate])
  }

  // An honest peer that an end has stored has proved it holds the same brain, over
  // this end's nonce; a dishonest one is stored only if some such peer holds it.
  ghost predicate Proved(w: World, s: State, e: End) {
    Rank(e.phase) >= 4 ==>
      && (e.node, e.remote) in s.stored
      && if w.honest(e.remote) then Produced(w, s, AuthProof(w, e.node, e.remote, Nonce(e.ours))) else Leaked(w, w.brain(e.node))
  }

  // Nonces are used once.
  ghost predicate NonceOk(s: State, i: nat)
    requires i in s.ends
  {
    Rank(s.ends[i].phase) >= 1 ==>
      && s.ends[i].ours in s.used
      && forall k :: k in s.ends && k != i && Rank(s.ends[k].phase) >= 1 ==> s.ends[k].ours != s.ends[i].ours
  }

  // Every entry of a node's list was stored by one of its sessions.
  ghost predicate StoredOk(s: State, pair: (Peer, Peer)) {
    exists i :: i in s.ends && Rank(s.ends[i].phase) >= 4 && (s.ends[i].node, s.ends[i].remote) == pair
  }

  ghost predicate Inv(w: World, s: State) {
    && (forall i :: i in s.ends ==> MateOk(w, s, i))
    && (forall i :: i in s.ends ==> Proved(w, s, s.ends[i]))
    && (forall i :: i in s.ends ==> NonceOk(s, i))
    && (forall pair :: pair in s.stored ==> StoredOk(s, pair))
  }

  // One end moving on from e to e', writing sent.
  ghost predicate Moves(w: World, e: End, e': End, sent: seq<Frame>) {
    && e'.node == e.node && e'.remote == e.remote && e'.initiator == e.initiator && e'.mate == e.mate
    && Rank(e.phase) <= Rank(e'.phase)
    && (Rank(e.phase) >= 1 ==> e'.ours == e.ours) && (Rank(e.phase) >= 3 ==> e'.theirs == e.theirs)
    && Sent(w, e') == Sent(w, e) + sent
  }

  // The state after such a move, which may store the remote peer.
  ghost predicate MovesTo(w: World, s: State, i: nat, e': End, sent: seq<Frame>, t: State) {
    && i in s.ends && Moves(w, s.ends[i], e', sent) && t.ends == Moved(s.ends, i, e', sent)
    && s.used <= t.used && s.stored <= t.stored
    && forall pair :: pair in t.stored && pair !in s.stored ==> pair == (e'.node, e'.remote) && Rank(e'.phase) >= 4
  }

  lemma ProducedStays(w: World, s: State, i: nat, e': End, sent: seq<Frame>, t: State, proof: Word)
    requires MovesTo(w, s, i, e', sent, t) && Produced(w, s, proof)
    ensures Produced(w, t, proof)
  {
    var k :| k in s.ends && Sender(w, s.ends[k], proof);
    hide Sent;
    assert k in t.ends && Sender(w, t.ends[k], proof);
  }

  lemma ProvedStays(w: World, s: State, i: nat, e': End, sent: seq<Frame>, t: State, e: End)
    requires MovesTo(w, s, i, e', sent, t) && Proved(w, s, e)
    ensures Proved(w, t, e)
  {
    hide Produced, Leaked, Sent;
    if Rank(e.phase) >= 4 {
      var proof := AuthProof(w, e.node, e.remote, Nonce(e.ours));
      if Produced(w, s, proof) { ProducedStays(w, s, i, e', sent, t, proof); }
    }
  }

  lemma MateStays(w: World, s: State, i: nat, e': End, sent: seq<Frame>, t: State, k: nat)
    requires MovesTo(w, s, i, e', sent, t) && k in s.ends && MateOk(w, s, i) && MateOk(w, s, k)
    requires e'.mate != NO_MATE ==> e'.mate in s.ends && PairOk(w, e', s.ends[e'.mate])
    ensures k in t.ends && MateOk(w, t, k)
  {
    var e := s.ends[i];
    assert Moves(w, e, e', sent);
    SameParties(w, e, e', sent);
    hide Moves, PairOk;
    if k == i {
      if e.mate != NO_MATE {
        var m := s.ends[e.mate];
        PairIgnoresInbox(w, e', m, m.inbox + sent);
      }
    } else if k == e.mate {
      PairMoves(w, s.ends[k], e, e', sent);
    }
  }

  lemma SameParties(w: World, e: End, e': End, sent: seq<Frame>)
    requires Moves(w, e, e', sent)
    ensures e'.node == e.node && e'.remote == e.remote && e'.mate == e.mate
  {
  }

  lemma PairIgnoresInbox(w: World, e: End, m: End, inbox: seq<Frame>)
    requires PairOk(w, e, m)
    ensures PairOk(w, e, m.(inbox := inbox))
  {
    SentIgnoresInbox(w, m, inbox);
    hide Sent, ReadCount;
  }

  lemma SentIgnoresInbox(w: World, e: End, inbox: seq<Frame>)
    ensures Sent(w, e.(inbox := inbox)) == Sent(w, e) && ReadCount(e.(inbox := inbox)) == ReadCount(e)
  {
  }

  // What the other end sees of the move.
  lemma PairMoves(w: World, m: End, e: End, e': End, sent: seq<Frame>)
    requires PairOk(w, m, e) && Moves(w, e, e', sent)
    ensures PairOk(w, m.(inbox := m.inbox + sent), e')
  {
    SentIgnoresInbox(w, m, m.inbox + sent);
    hide Sent, ReadCount;
    var n := ReadCount(m);
    assert (Sent(w, e) + sent)[n..] == Sent(w, e)[n..] + sent;
  }

  lemma NonceStays(w: World, s: State, i: nat, e': End, sent: seq<Frame>, t: State, k: nat)
    requires MovesTo(w, s, i, e', sent, t) && k in s.ends && forall j :: j in s.ends ==> NonceOk(s, j)
    requires Rank(e'.phase) >= 1 && Rank(s.ends[i].phase) == 0 ==> e'.ours in t.used && e'.ours !in s.used
    ensures k in t.ends && NonceOk(t, k)
  {
    hide Sent;
    var e := t.ends[k];
    assert Rank(e.phase) == if k == i then Rank(e'.phase) else Rank(s.ends[k].phase);
    if Rank(e.phase) >= 1 {
      forall j | j in t.ends && j != k && Rank(t.ends[j].phase) >= 1
        ensures t.ends[j].ours != e.ours
      {
        assert t.ends[j].ours == if j == i then e'.ours else s.ends[j].ours;
        assert NonceOk(s, k) && NonceOk(s, j) && NonceOk(s, i);
      }
    }
  }

  lemma StoredStays(w: World, s: State, i: nat, e': End, sent: seq<Frame>, t: State, pair: (Peer, Peer))
    requires MovesTo(w, s, i, e', sent, t) && pair in t.stored && (pair in s.stored ==> StoredOk(s, pair))
    ensures StoredOk(t, pair)
  {
    hide Sent;
    if pair in s.stored {
      var k :| k in s.ends && Rank(s.ends[k].phase) >= 4 && (s.ends[k].node, s.ends[k].remote) == pair;
      assert k in t.ends && Rank(t.ends[k].phase) >= 4;
    } else {
      assert i in t.ends && t.ends[i].phase == e'.phase;
    }
  }

  // A move that keeps its own end right keeps every end right.
  lemma MoveKeeps(w: World, s: State, i: nat, e': End, sent: seq<Frame>, t: State)
    requires Inv(w, s) && MovesTo(w, s, i, e', sent, t)
    requires e'.mate != NO_MATE ==> e'.mate in s.ends && PairOk(w, e', s.ends[e'.mate])
    requires Rank(e'.phase) >= 1 && Rank(s.ends[i].phase) == 0 ==> e'.ours in t.used && e'.ours !in s.used
    requires Proved(w, t, e')
    ensures Inv(w, t)
  {
    hide Sent, PairOk, Produced, Leaked;
    InvParts(w, s);
    forall k | k in t.ends
      ensures MateOk(w, t, k) && Proved(w, t, t.ends[k]) && NonceOk(t, k)
    {
      MateStays(w, s, i, e', sent, t, k);
      NonceStays(w, s, i, e', sent, t, k);
      ProvedStays(w, s, i, e', sent, t, s.ends[k]);
      if k != i { SameProved(w, t, s.ends[k], t.ends[k]); }
    }
    forall pair | pair in t.stored
      ensures StoredOk(t, pair)
    {
      StoredStays(w, s, i, e', sent, t, pair);
    }
  }

  lemma SameProved(w: World, s: State, e: End, f: End)
    requires Proved(w, s, e) && f == e.(inbox := f.inbox)
    ensures Proved(w, s, f)
  {
    hide Produced, Leaked;
  }

  lemma InvParts(w: World, s: State)
    requires Inv(w, s)
    ensures forall i :: i in s.ends ==> MateOk(w, s, i) && Proved(w, s, s.ends[i]) && NonceOk(s, i)
    ensures forall pair :: pair in s.stored ==> StoredOk(s, pair)
  {
    hide MateOk, Proved, NonceOk, StoredOk;
  }

  // ----- step by step -------------------------------------------------------------------------

  // Whatever a step does to one end alone: its moves, and its side of the pair.
  ghost predicate Steps(w: World, s: State, i: nat, e': End, sent: seq<Frame>) {
    && i in s.ends && Moves(w, s.ends[i], e', sent)
    && (e'.mate != NO_MATE ==> e'.mate in s.ends && PairOk(w, e', s.ends[e'.mate]))
  }

  // The end moves and nobody new is stored.
  lemma MoveOnly(w: World, s: State, i: nat, e': End, sent: seq<Frame>, t: State)
    requires Inv(w, s) && Steps(w, s, i, e', sent) && t.ends == Moved(s.ends, i, e', sent) && t.stored == s.stored && s.used <= t.used
    requires Rank(e'.phase) >= 1 && Rank(s.ends[i].phase) == 0 ==> e'.ours in t.used && e'.ours !in s.used
    requires Rank(e'.phase) >= 4 ==> Rank(s.ends[i].phase) >= 4
    ensures Inv(w, t)
  {
    hide Inv, Moves, PairOk, Moved;
    InvParts(w, s);
    hide MateOk, NonceOk, StoredOk;
    assert Moves(w, s.ends[i], e', sent);
    SameEnd(w, s, s.ends[i], e', sent);
    hide Proved;
    ProvedStays(w, s, i, e', sent, t, e');
    MoveKeeps(w, s, i, e', sent, t);
  }

  lemma SameEnd(w: World, s: State, e: End, e': End, sent: seq<Frame>)
    requires Proved(w, s, e) && Moves(w, e, e', sent) && (Rank(e'.phase) >= 4 ==> Rank(e.phase) >= 4)
    ensures Proved(w, s, e')
  {
    hide Produced, Leaked, Sent;
  }

  lemma SendNonceKeeps(w: World, s: State, i: nat, n: nat)
    requires Inv(w, s) && Enabled(w, s, SendNonce(i, n))
    ensures Inv(w, After(w, s, SendNonce(i, n)))
  {
    var e := s.ends[i];
    var e' := e.(phase := NonceSent, ours := n);
    InvParts(w, s);
    MateParts(w, s, i);
    hide Inv, MateOk, Proved, NonceOk, StoredOk;
    assert Steps(w, s, i, e', [Full(Nonce(n))]);
    hide Steps, Moved, PairOk, Moves;
    MoveOnly(w, s, i, e', [Full(Nonce(n))], After(w, s, SendNonce(i, n)));
  }

  lemma ProvedLater(w: World, s: State, e: End)
    requires Rank(e.phase) < 4
    ensures Proved(w, s, e)
  {
  }

  lemma MateParts(w: World, s: State, i: nat)
    requires i in s.ends && MateOk(w, s, i)
    ensures var e := s.ends[i];
            if e.mate == NO_MATE then !w.honest(e.remote)
            else e.mate >= 0 && e.mate != i && e.mate in s.ends && PairOk(w, e, s.ends[e.mate])
  {
    hide PairOk;
  }

  // What an end reads from an honest mate is the next frame the mate has written.
  lemma NextFrame(w: World, e: End, m: End, frame: Frame)
    requires PairOk(w, e, m) && e.inbox != [] && e.inbox[0] == frame
    ensures ReadCount(e) < |Sent(w, m)| && Sent(w, m)[ReadCount(e)] == frame
    ensures e.inbox[1..] == Sent(w, m)[ReadCount(e) + 1..]
    ensures ReadCount(e) == 0 ==> frame == Full(Nonce(m.ours)) && Rank(m.phase) >= 1
    ensures ReadCount(e) == 1 ==> frame == Full(AuthProof(w, m.node, m.node, m.theirs)) && Rank(m.phase) >= 3
    ensures ReadCount(e) == 2 ==> frame == Ack && m.phase == Done && !m.initiator
  {
  }

  lemma ReadNonceKeeps(w: World, s: State, i: nat, word: Word)
    requires Inv(w, s) && Enabled(w, s, ReadNonce(i, word))
    ensures Inv(w, After(w, s, ReadNonce(i, word)))
  {
    var e := s.ends[i];
    var e' := Read(e).(phase := NonceRead, theirs := word);
    InvParts(w, s);
    MateParts(w, s, i);
    if e.mate != NO_MATE { NextFrame(w, e, s.ends[e.mate], Full(word)); }
    hide Inv, MateOk, Proved, NonceOk, StoredOk, Makeable;
    assert Steps(w, s, i, e', []);
    hide Steps, Moved, PairOk, Moves;
    MoveOnly(w, s, i, e', [], After(w, s, ReadNonce(i, word)));
  }

  lemma SendProofKeeps(w: World, s: State, i: nat)
    requires Inv(w, s) && Enabled(w, s, SendProof(i))
    ensures Inv(w, After(w, s, SendProof(i)))
  {
    var e := s.ends[i];
    var e', sent := e.(phase := ProofSent), [Full(AuthProof(w, e.node, e.node, e.theirs))];
    InvParts(w, s);
    MateParts(w, s, i);
    hide Inv, MateOk, Proved, NonceOk, StoredOk;
    assert Steps(w, s, i, e', sent);
    hide Steps, Moved, PairOk, Moves;
    MoveOnly(w, s, i, e', sent, After(w, s, SendProof(i)));
  }

  // The proof checked was sent by the peer it names, if that peer is honest; the
  // proof of a dishonest one was made from a leaked brain.
  lemma ProofProduced(w: World, s: State, i: nat, word: Word)
    requires Inv(w, s) && Enabled(w, s, CheckProof(i, word)) && Accepts(w, s.ends[i], word)
    ensures if w.honest(s.ends[i].remote) then Produced(w, s, word) else Leaked(w, w.brain(s.ends[i].node))
  {
    var e := s.ends[i];
    InvParts(w, s);
    MateParts(w, s, i);
    hide Inv, Leaked;
    if e.mate != NO_MATE {
      NextFrame(w, e, s.ends[e.mate], Full(word));
      assert Sender(w, s.ends[e.mate], word);
      MateHonest(w, s, i);
    } else if Produced(w, s, word) {
      SenderHonest(w, s, word);
    }
  }

  lemma SenderHonest(w: World, s: State, proof: Word)
    requires Inv(w, s) && Produced(w, s, proof)
    ensures proof.Proof? && w.honest(proof.sender)
  {
    InvParts(w, s);
    hide Inv;
    var k :| k in s.ends && Sender(w, s.ends[k], proof);
    assert MateOk(w, s, k);
  }

  lemma MateHonest(w: World, s: State, i: nat)
    requires Inv(w, s) && i in s.ends
    ensures w.honest(s.ends[i].remote) <==> s.ends[i].mate != NO_MATE
  {
    InvParts(w, s);
    MateParts(w, s, i);
    hide Inv;
    var e := s.ends[i];
    if e.mate != NO_MATE { assert MateOk(w, s, e.mate); }
    hide Sent;
  }

  lemma CheckProofKeeps(w: World, s: State, i: nat, word: Word)
    requires Inv(w, s) && Enabled(w, s, CheckProof(i, word))
    ensures Inv(w, After(w, s, CheckProof(i, word)))
  {
    var e, t := s.ends[i], After(w, s, CheckProof(i, word));
    InvParts(w, s);
    MateParts(w, s, i);
    if Accepts(w, e, word) {
      var e' := Read(e).(phase := Stored);
      if e.mate != NO_MATE { NextFrame(w, e, s.ends[e.mate], Full(word)); }
      ProofProduced(w, s, i, word);
      hide Inv, MateOk, NonceOk, StoredOk, Produced, Leaked, Makeable;
      assert Steps(w, s, i, e', []);
      hide PairOk, Moved, Moves;
      if Produced(w, s, word) { ProducedStays(w, s, i, e', [], t, word); }
      MoveKeeps(w, s, i, e', [], t);
    } else {
      FailMoves(w, e);
      hide Inv, MateOk, Proved, NonceOk, StoredOk, Makeable, Moved, PairOk, Moves;
      assert Steps(w, s, i, e.(failed := true), []);
      hide Steps;
      MoveOnly(w, s, i, e.(failed := true), [], t);
    }
  }

  lemma ReadAckKeeps(w: World, s: State, i: nat)
    requires Inv(w, s) && Enabled(w, s, ReadAck(i))
    ensures Inv(w, After(w, s, ReadAck(i)))
  {
    var e := s.ends[i];
    var e' := Read(e).(phase := Done);
    InvParts(w, s);
    MateParts(w, s, i);
    AckMoves(w, e);
    if e.mate != NO_MATE { AckRead(w, e, s.ends[e.mate]); }
    hide Inv, MateOk, Proved, NonceOk, StoredOk, Makeable, Moved, PairOk, Moves;
    assert Steps(w, s, i, e', []);
    hide Steps;
    MoveOnly(w, s, i, e', [], After(w, s, ReadAck(i)));
  }

  lemma AckMoves(w: World, e: End)
    requires e.phase == Stored && e.initiator
    ensures Moves(w, e, Read(e).(phase := Done), [])
  {
  }

  lemma AckRead(w: World, e: End, m: End)
    requires PairOk(w, e, m) && e.phase == Stored && e.initiator && e.mate != NO_MATE && e.inbox != [] && e.inbox[0] == Ack
    ensures PairOk(w, Read(e).(phase := Done), m)
  {
    NextFrame(w, e, m, Ack);
    hide Sent;
  }

  lemma FailMoves(w: World, e: End)
    ensures Moves(w, e, e.(failed := true), [])
    ensures forall m :: PairOk(w, e, m) ==> PairOk(w, e.(failed := true), m)
  {
    hide Sent, ReadCount;
    assert Sent(w, e.(failed := true)) == Sent(w, e) && ReadCount(e.(failed := true)) == ReadCount(e) by { FailedSame(w, e); }
    assert Sent(w, e) + [] == Sent(w, e);
  }

  lemma FailedSame(w: World, e: End)
    ensures Sent(w, e.(failed := true)) == Sent(w, e) && ReadCount(e.(failed := true)) == ReadCount(e)
  {
  }

  lemma SendAckKeeps(w: World, s: State, i: nat)
    requires Inv(w, s) && Enabled(w, s, SendAck(i))
    ensures Inv(w, After(w, s, SendAck(i)))
  {
    var e := s.ends[i];
    var e' := e.(phase := Done);
    InvParts(w, s);
    MateParts(w, s, i);
    hide Inv, MateOk, Proved, NonceOk, StoredOk;
    assert Steps(w, s, i, e', [Ack]);
    hide Steps, Moved, PairOk, Moves;
    MoveOnly(w, s, i, e', [Ack], After(w, s, SendAck(i)));
  }

  lemma FailKeeps(w: World, s: State, i: nat)
    requires Inv(w, s) && Enabled(w, s, Fail(i))
    ensures Inv(w, After(w, s, Fail(i)))
  {
    var e := s.ends[i];
    var e' := e.(failed := true);
    InvParts(w, s);
    MateParts(w, s, i);
    FailMoves(w, e);
    hide Inv, MateOk, Proved, NonceOk, StoredOk, Moved, PairOk, Moves;
    assert Steps(w, s, i, e', []);
    hide Steps;
    MoveOnly(w, s, i, e', [], After(w, s, Fail(i)));
  }

  lemma OpenKeeps(w: World, s: State, a: Peer, b: Peer, i: nat, j: nat)
    requires Inv(w, s) && Enabled(w, s, Open(a, b, i, j))
    ensures Inv(w, After(w, s, Open(a, b, i, j)))
  {
    var t := After(w, s, Open(a, b, i, j));
    InvParts(w, s);
    OldEnds(w, s, a, b, i, j);
    hide Inv, Leaked, StoredOk, Produced, NonceOk, Proved, MateOk, Opening;
    forall k | k in t.ends
      ensures MateOk(w, t, k) && Proved(w, t, t.ends[k]) && NonceOk(t, k)
    {
      if k in s.ends {
        OldEnd(w, s, t, k);
      } else {
        NewEnds(w, s, a, b, i, j, k);
        NewNonce(t, k);
        ProvedLater(w, t, t.ends[k]);
      }
    }
    hide Inv, MateOk, Proved, NonceOk, Leaked, Produced;
    forall pair | pair in t.stored
      ensures StoredOk(t, pair)
    {
      var k :| k in s.ends && Rank(s.ends[k].phase) >= 4 && (s.ends[k].node, s.ends[k].remote) == pair;
      assert k in t.ends && t.ends[k] == s.ends[k];
    }
    InvIs(w, t);
  }

  lemma OldEnds(w: World, s: State, a: Peer, b: Peer, i: nat, j: nat)
    requires CanOpen(w, s, a, b, i, j)
    ensures forall l :: l in s.ends ==> l in Opening(w, s.ends, a, b, i, j) && Opening(w, s.ends, a, b, i, j)[l] == s.ends[l]
    ensures forall l :: l in Opening(w, s.ends, a, b, i, j) && l !in s.ends ==> Rank(Opening(w, s.ends, a, b, i, j)[l].phase) == 0
  {
  }

  lemma NewEnds(w: World, s: State, a: Peer, b: Peer, i: nat, j: nat, k: nat)
    requires CanOpen(w, s, a, b, i, j) && k in Opening(w, s.ends, a, b, i, j) && k !in s.ends
    ensures MateOk(w, s.(ends := Opening(w, s.ends, a, b, i, j)), k)
  {
  }

  lemma OldEnd(w: World, s: State, t: State, k: nat)
    requires k in s.ends && MateOk(w, s, k) && Proved(w, s, s.ends[k]) && NonceOk(s, k)
    requires t.stored == s.stored && t.used == s.used && forall l :: l in s.ends ==> l in t.ends && t.ends[l] == s.ends[l]
    requires forall l :: l in t.ends && l !in s.ends ==> Rank(t.ends[l].phase) == 0
    ensures k in t.ends && MateOk(w, t, k) && Proved(w, t, t.ends[k]) && NonceOk(t, k)
  {
    hide Proved, PairOk;
    ProvedOpen(w, s, t, t.ends[k]);
  }

  lemma NewNonce(s: State, k: nat)
    requires k in s.ends && Rank(s.ends[k].phase) == 0
    ensures NonceOk(s, k)
  {
  }

  lemma ProvedOpen(w: World, s: State, t: State, e: End)
    requires Proved(w, s, e) && t.stored == s.stored && forall k :: k in s.ends ==> k in t.ends && t.ends[k] == s.ends[k]
    ensures Proved(w, t, e)
  {
    hide Leaked;
    if Rank(e.phase) >= 4 {
      var proof := AuthProof(w, e.node, e.remote, Nonce(e.ours));
      if Produced(w, s, proof) {
        var k :| k in s.ends && Sender(w, s.ends[k], proof);
        assert Sender(w, t.ends[k], proof);
      }
    }
  }

  lemma InvIs(w: World, s: State)
    requires forall i :: i in s.ends ==> MateOk(w, s, i) && Proved(w, s, s.ends[i]) && NonceOk(s, i)
    requires forall pair :: pair in s.stored ==> StoredOk(s, pair)
    ensures Inv(w, s)
  {
    hide MateOk, Proved, NonceOk, StoredOk;
  }

  lemma StepKeeps(w: World, s: State, step: Step)
    requires Inv(w, s) && Enabled(w, s, step)
    ensures Inv(w, After(w, s, step))
  {
    hide *;
    match step
    case Open(a, b, i, j) => OpenKeeps(w, s, a, b, i, j);
    case SendNonce(i, n) => SendNonceKeeps(w, s, i, n);
    case ReadNonce(i, word) => ReadNonceKeeps(w, s, i, word);
    case SendProof(i) => SendProofKeeps(w, s, i);
    case CheckProof(i, word) => CheckProofKeeps(w, s, i, word);
    case ReadAck(i) => ReadAckKeeps(w, s, i);
    case SendAck(i) => SendAckKeeps(w, s, i);
    case Fail(i) => FailKeeps(w, s, i);
  }

  // The invariant holds in every state of every run.
  lemma {:induction false} EveryRun(w: World, steps: seq<Step>)
    ensures Run(w, steps).Some? ==> Inv(w, Run(w, steps).value)
  {
    hide Enabled, After, Inv;
    if steps == [] {
      Nothing(w);
    } else {
      var init := steps[..|steps| - 1];
      EveryRun(w, init);
      var before := Run(w, init);
      if before.Some? && Enabled(w, before.value, steps[|steps| - 1]) {
        StepKeeps(w, before.value, steps[|steps| - 1]);
      }
    }
  }

  lemma Nothing(w: World)
    ensures Inv(w, INITIAL)
  {
  }

  // ----- what the handshake is for -------------------------------------------------------------

  // When an initiator returns without error from a handshake with an honest peer,
  // both nodes have already stored each other.
  lemma BothStored(w: World, steps: seq<Step>, i: nat)
    requires Run(w, steps).Some? && i in Run(w, steps).value.ends
    requires var e := Run(w, steps).value.ends[i]; e.initiator && e.phase == Done && w.honest(e.remote)
    ensures var s := Run(w, steps).value;
            (s.ends[i].node, s.ends[i].remote) in s.stored && (s.ends[i].remote, s.ends[i].node) in s.stored
  {
    var s := Run(w, steps).value;
    EveryRun(w, steps);
    hide Run;
    InvParts(w, s);
    hide Inv;
    var e := s.ends[i];
    MateParts(w, s, i);
    var m := s.ends[e.mate];
    hide Produced, Leaked;
    assert Proved(w, s, e) && Proved(w, s, m) && MateOk(w, s, e.mate);
    assert |Sent(w, m)| == 3;
  }

  // The gate of the sync handler.
  predicate IsAuthenticated(s: State, node: Peer, remote: Peer) {
    (node, remote) in s.stored
  }

  // Nothing a later step does takes a peer off the list, so the sync streams the
  // initiator opens after the handshake pass the gate.
  lemma {:induction false} GateStaysOpen(w: World, steps: seq<Step>, more: seq<Step>, i: nat)
    requires Run(w, steps).Some? && i in Run(w, steps).value.ends
    requires var e := Run(w, steps).value.ends[i]; e.initiator && e.phase == Done && w.honest(e.remote)
    requires Run(w, steps + more).Some?
    ensures var e := Run(w, steps).value.ends[i];
            IsAuthenticated(Run(w, steps + more).value, e.remote, e.node) && IsAuthenticated(Run(w, steps + more).value, e.node, e.remote)
  {
    if more == [] {
      assert steps + more == steps;
      BothStored(w, steps, i);
    } else {
      var init := more[..|more| - 1];
      assert (steps + more)[..|steps + more| - 1] == steps + init;
      RunBefore(w, steps + more);
      GateStaysOpen(w, steps, init, i);
      StoredGrows(w, Run(w, steps + init).value, more[|more| - 1]);
      hide Enabled, After;
    }
  }

  lemma RunBefore(w: World, steps: seq<Step>)
    requires steps != [] && Run(w, steps).Some?
    ensures var before := Run(w, steps[..|steps| - 1]);
            before.Some? && Run(w, steps).value == After(w, before.value, steps[|steps| - 1])
  {
    hide Enabled, After;
  }

  lemma StoredGrows(w: World, s: State, step: Step)
    ensures s.stored <= After(w, s, step).stored
  {
    hide Moved, Opening, EndAt, Accepts;
  }

  // A node lists an honest peer only if that peer holds the same brain and has
  // answered the nonce of one of the node's own sessions with a proof in its own
  // name, whatever brains have leaked. It lists a dishonest one only if some
  // dishonest peer holds the brain.
  lemma StoredHasProved(w: World, steps: seq<Step>, node: Peer, remote: Peer) returns (i: nat, k: nat)
    requires Run(w, steps).Some? && IsAuthenticated(Run(w, steps).value, node, remote)
    ensures var ends := Run(w, steps).value.ends;
            && i in ends && ends[i].node == node && ends[i].remote == remote && Rank(ends[i].phase) >= 4
            && (w.honest(remote) ==>
                  && w.brain(remote) == w.brain(node)
                  && k in ends && ends[k].node == remote && Rank(ends[k].phase) >= 3 && ends[k].theirs == Nonce(ends[i].ours))
            && (!w.honest(remote) ==> Leaked(w, w.brain(node)))
  {
    var s := Run(w, steps).value;
    EveryRun(w, steps);
    hide Run;
    InvParts(w, s);
    hide Inv, Leaked;
    assert StoredOk(s, (node, remote));
    i :| i in s.ends && Rank(s.ends[i].phase) >= 4 && (s.ends[i].node, s.ends[i].remote) == (node, remote);
    assert Proved(w, s, s.ends[i]);
    k := i;
    if w.honest(remote) {
      k :| k in s.ends && Sender(w, s.ends[k], AuthProof(w, node, remote, Nonce(s.ends[i].ours)));
    }
  }

  // No proof serves two sessions: their nonces differ.
  lemma NoReplay(w: World, steps: seq<Step>, i: nat, k: nat)
    requires Run(w, steps).Some? && i != k && i in Run(w, steps).value.ends && k in Run(w, steps).value.ends
    requires Rank(Run(w, steps).value.ends[i].phase) >= 1 && Rank(Run(w, steps).value.ends[k].phase) >= 1
    ensures var e, f := Run(w, steps).value.ends[i], Run(w, steps).value.ends[k];
            AuthProof(w, e.node, e.remote, Nonce(e.ours)) != AuthProof(w, f.node, f.remote, Nonce(f.ours))
  {
    var s := Run(w, steps).value;
    EveryRun(w, steps);
    hide Run;
    InvParts(w, s);
    hide Inv, MateOk, Proved, StoredOk;
    assert NonceOk(s, i);
  }

  // Between honest nodes the check passes exactly when they hold the same brain.
  lemma SameBrainAccepted(w: World, steps: seq<Step>, i: nat, word: Word)
    requires Run(w, steps).Some? && Enabled(w, Run(w, steps).value, CheckProof(i, word))
    requires w.honest(Run(w, steps).value.ends[i].remote)
    ensures var e := Run(w, steps).value.ends[i]; Accepts(w, e, word) <==> w.brain(e.node) == w.brain(e.remote)
  {
    var s := Run(w, steps).value;
    EveryRun(w, steps);
    hide Run;
    InvParts(w, s);
    hide Inv, Makeable;
    var e := s.ends[i];
    MateParts(w, s, i);
    var m := s.ends[e.mate];
    NextFrame(w, e, m, Full(word));
    assert MateOk(w, s, e.mate);
    hide Sent;
  }

  // ----- a run that succeeds -----------------------------------------------------------------

  lemma Extend(w: World, steps: seq<Step>, s: State, t: Step)
    requires Run(w, steps) == Some(s) && Enabled(w, s, t)
    ensures Run(w, steps + [t]) == Some(After(w, s, t))
  {
    assert (steps + [t])[..|steps|] == steps;
    hide Enabled, After;
  }

  // The first session of a and b: both ends, what has been drawn and stored.
  function Session(e: End, f: End, used: set<nat>, stored: set<(Peer, Peer)>): State {
    State(map[0 := e, 1 := f], used, stored)
  }

  function EndOf(a: Peer, b: Peer, initiator: bool, phase: Phase, ours: nat, theirs: Word, inbox: seq<Frame>): End {
    End(a, b, initiator, if initiator then 1 else 0, phase, false, ours, theirs, inbox)
  }

  // One end moves on, and the other receives what it sent.
  lemma OneMoves(w: World, steps: seq<Step>, s: State, t: Step, e: End, f: End, e': End, sent: seq<Frame>, next: State) returns (steps': seq<Step>)
    requires Run(w, steps) == Some(s) && Enabled(w, s, t)
    requires e.initiator && s.ends == map[0 := e, 1 := f] && e'.mate == 1
    requires After(w, s, t) == State(Moved(s.ends, 0, e', sent), next.used, next.stored)
    requires next.ends == map[0 := e', 1 := f.(inbox := f.inbox + sent)]
    ensures Run(w, steps') == Some(next)
  {
    Extend(w, steps, s, t);
    steps' := steps + [t];
    hide Run, Enabled, After;
    assert Moved(s.ends, 0, e', sent) == next.ends;
  }

  lemma OtherMoves(w: World, steps: seq<Step>, s: State, t: Step, e: End, f: End, f': End, sent: seq<Frame>, next: State) returns (steps': seq<Step>)
    requires Run(w, steps) == Some(s) && Enabled(w, s, t)
    requires e.initiator && s.ends == map[0 := e, 1 := f] && f'.mate == 0
    requires After(w, s, t) == State(Moved(s.ends, 1, f', sent), next.used, next.stored)
    requires next.ends == map[0 := e.(inbox := e.inbox + sent), 1 := f']
    ensures Run(w, steps') == Some(next)
  {
    Extend(w, steps, s, t);
    steps' := steps + [t];
    hide Run, Enabled, After;
    assert Moved(s.ends, 1, f', sent) == next.ends;
  }

  // What a queue of at most one frame does.
  lemma Short()
    ensures forall x: Frame {:trigger [x]} :: [] + [x] == [x] && [x][1..] == []
    ensures forall q: seq<Frame> {:trigger q + []} :: q + [] == q
  {
  }

  // Nonces both ways.
  lemma NoncesExchanged(w: World, a: Peer, b: Peer) returns (steps: seq<Step>, s: State)
    requires w.honest(a) && w.honest(b) && a != b
    ensures Run(w, steps) == Some(s)
    ensures s == Session(EndOf(a, b, true, NonceRead, 0, Nonce(1), []), EndOf(b, a, false, NonceRead, 1, Nonce(0), []), {0, 1}, {})
  {
    var e, f := EndOf(a, b, true, Opened, 0, Noise(0), []), EndOf(b, a, false, Opened, 0, Noise(0), []);
    s := Session(e, f, {}, {});
    Extend(w, [], INITIAL, Open(a, b, 0, 1));
    steps := [] + [Open(a, b, 0, 1)];
    assert Opening(w, map[], a, b, 0, 1) == s.ends;
    hide Run;
    var e1 := e.(phase := NonceSent, ours := 0);
    var f1 := f.(inbox := f.inbox + [Full(Nonce(0))]);
    steps := OneMoves(w, steps, s, SendNonce(0, 0), e, f, e1, [Full(Nonce(0))], Session(e1, f1, {0}, {}));
    s := Session(e1, f1, {0}, {});
    var f2 := f1.(phase := NonceSent, ours := 1);
    var e2 := e1.(inbox := e1.inbox + [Full(Nonce(1))]);
    steps := OtherMoves(w, steps, s, SendNonce(1, 1), e1, f1, f2, [Full(Nonce(1))], Session(e2, f2, {0, 1}, {}));
    s := Session(e2, f2, {0, 1}, {});
    Short();
    var e3 := Read(e2).(phase := NonceRead, theirs := Nonce(1));
    steps := OneMoves(w, steps, s, ReadNonce(0, Nonce(1)), e2, f2, e3, [], Session(e3, f2, {0, 1}, {}));
    s := Session(e3, f2, {0, 1}, {});
    var f3 := Read(f2).(phase := NonceRead, theirs := Nonce(0));
    steps := OtherMoves(w, steps, s, ReadNonce(1, Nonce(0)), e3, f2, f3, [], Session(e3, f3, {0, 1}, {}));
    s := Session(e3, f3, {0, 1}, {});
  }

  // Proofs both ways.
  lemma ProofsExchanged(w: World, a: Peer, b: Peer) returns (steps: seq<Step>, s: State)
    requires w.honest(a) && w.honest(b) && a != b && w.brain(a) == w.brain(b)
    ensures Run(w, steps) == Some(s)
    ensures s == Session(EndOf(a, b, true, Stored, 0, Nonce(1), []), EndOf(b, a, false, Stored, 1, Nonce(0), []), {0, 1}, {(a, b), (b, a)})
  {
    steps, s := NoncesExchanged(w, a, b);
    hide Run;
    var p, q := AuthProof(w, a, a, Nonce(1)), AuthProof(w, b, b, Nonce(0));
    var e3, f3 := s.ends[0], s.ends[1];
    Short();
    var e4, f4 := e3.(phase := ProofSent), f3.(inbox := f3.inbox + [Full(p)]);
    steps := OneMoves(w, steps, s, SendProof(0), e3, f3, e4, [Full(p)], Session(e4, f4, {0, 1}, {}));
    s := Session(e4, f4, {0, 1}, {});
    var e5, f5 := e4.(inbox := e4.inbox + [Full(q)]), f4.(phase := ProofSent);
    steps := OtherMoves(w, steps, s, SendProof(1), e4, f4, f5, [Full(q)], Session(e5, f5, {0, 1}, {}));
    s := Session(e5, f5, {0, 1}, {});
    var e6 := Read(e5).(phase := Stored);
    steps := OneMoves(w, steps, s, CheckProof(0, q), e5, f5, e6, [], Session(e6, f5, {0, 1}, {(a, b)}));
    s := Session(e6, f5, {0, 1}, {(a, b)});
    var f6 := Read(f5).(phase := Stored);
    steps := OtherMoves(w, steps, s, CheckProof(1, p), e6, f5, f6, [], Session(e6, f6, {0, 1}, {(a, b), (b, a)}));
    s := Session(e6, f6, {0, 1}, {(a, b), (b, a)});
  }

  // Two honest nodes with the same brain can complete the handshake.
  lemma SameBrainCompletes(w: World, a: Peer, b: Peer) returns (steps: seq<Step>)
    requires w.honest(a) && w.honest(b) && a != b && w.brain(a) == w.brain(b)
    ensures Run(w, steps).Some?
    ensures var s := Run(w, steps).value; 0 in s.ends && s.ends[0].initiator && s.ends[0].phase == Done && s.stored == {(a, b), (b, a)}
  {
    var s;
    steps, s := ProofsExchanged(w, a, b);
    hide Run;
    var e6, f6 := s.ends[0], s.ends[1];
    Short();
    var e7, f7 := e6.(inbox := e6.inbox + [Ack]), f6.(phase := Done);
    steps := OtherMoves(w, steps, s, SendAck(1), e6, f6, f7, [Ack], Session(e7, f7, {0, 1}, {(a, b), (b, a)}));
    s := Session(e7, f7, {0, 1}, {(a, b), (b, a)});
    var e8 := Read(e7).(phase := Done);
    steps := OneMoves(w, steps, s, ReadAck(0), e7, f7, e8, [], Session(e8, f7, {0, 1}, {(a, b), (b, a)}));
  }
}
