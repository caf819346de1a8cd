/**
 * The pure side of the session protocol: what the coordinator sends to whom
 * (one PLAY per target, the host's relay to everyone but the sender, the
 * host's NEWGAME assignments), the player-number permutation the host deals
 * from, and how an inbound payload is classified.
 */
module Protocol {
  import opened Ints
  import opened Engine
  import opened Codec

  /** The opaque handle Nearby Connections gives a remote peer. */
  type EndpointId = string

  /** One `sendPayload(endpointId, payload)` call: the transport is an outbox of these. */
  datatype Send = Send(to: EndpointId, payload: string)

  /** A Nearby Connections payload; only BYTES payloads carry protocol messages. */
  datatype Payload = Bytes(content: string) | FileOrStream

  function Recipients(sends: seq<Send>): seq<EndpointId>
  {
    seq(|sends|, i requires 0 <= i < |sends| => sends[i].to)
  }

  // ---------------------------------------------------------------------------
  // Fan-out of one message

  /** `targets.forEach { sendPayload(it, payload) }`. */
  function Fanout(targets: seq<EndpointId>, payload: string): (r: seq<Send>)
    ensures Recipients(r) == targets
    ensures forall i | 0 <= i < |r| :: r[i].payload == payload
  {
    if targets == [] then []
    else
      var n := |targets| - 1;
      var prefix := Fanout(targets[..n], payload);
      var r := prefix + [Send(targets[n], payload)];
      assert Recipients(r) == Recipients(prefix) + [targets[n]];
      assert targets == targets[..n] + [targets[n]];
      r
  }

  /** `s.filter { it != e }`. */
  function Without(s: seq<EndpointId>, e: EndpointId): (r: seq<EndpointId>)
    ensures multiset(r) == multiset(s)[e := 0]
  {
    if s == [] then []
    else
      var last := s[|s| - 1];
      assert s == s[..|s| - 1] + [last];
      Without(s[..|s| - 1], e) + (if last == e then [] else [last])
  }

  /**
   * The host's relay of a move that arrived from `sender`: nothing goes back
   * to the sender, and every other opponent gets the message as many times as
   * it is listed (once, for a list without repeats).
   */
  lemma RelaySkipsSender(opponents: seq<EndpointId>, sender: EndpointId, payload: string)
    ensures sender !in Recipients(Fanout(Without(opponents, sender), payload))
    ensures forall x | x != sender :: multiset(Recipients(Fanout(Without(opponents, sender), payload)))[x] == multiset(opponents)[x]
    ensures forall m | m in Fanout(Without(opponents, sender), payload) :: m.payload == payload
  {
    var r := Without(opponents, sender);
    assert multiset(r)[sender] == 0;
  }

  // ---------------------------------------------------------------------------
  // Player numbers and the host's NEWGAME assignments

  /** `p` is an ordering of the player numbers 1..m, as `(1..m).shuffled()` yields. */
  predicate IsPlayerPermutation(p: seq<Int32>, m: int)
  {
    && |p| == m
    && (forall i | 0 <= i < |p| :: 1 <= p[i] <= m)
    && (forall i, j | 0 <= i < j < |p| :: p[i] != p[j])
  }

  function Values(p: seq<Int32>): set<int>
  {
    set i | 0 <= i < |p| :: p[i] as int
  }

  /** The set {1, ..., m}. */
  function NumbersUpTo(m: int): (r: set<int>)
    ensures forall k | k in r :: 1 <= k <= m
  {
    if m <= 0 then {} else NumbersUpTo(m - 1) + {m}
  }

  lemma {:induction false} ValuesOfDistinct(p: seq<Int32>)
    requires forall i, j | 0 <= i < j < |p| :: p[i] != p[j]
    ensures |Values(p)| == |p|
  {
    if p != [] {
      var q := p[..|p| - 1];
      ValuesOfDistinct(q);
      assert Values(p) == Values(q) + {p[|p| - 1] as int};
      assert p[|p| - 1] as int !in Values(q);
    }
  }

  lemma {:induction false} NumbersUpToSize(m: nat)
    ensures |NumbersUpTo(m)| == m
  {
    if m > 0 {
      NumbersUpToSize(m - 1);
      assert m !in NumbersUpTo(m - 1);
    }
  }

  lemma {:induction false} NumbersUpToHas(m: nat)
    ensures forall k | 1 <= k <= m :: k in NumbersUpTo(m)
  {
    if m > 0 {
      NumbersUpToHas(m - 1);
    }
  }

  /** Every number 1..m occurs in a permutation of 1..m: no player number is left unassigned. */
  lemma PermutationCoversAll(p: seq<Int32>, m: nat)
    requires IsPlayerPermutation(p, m)
    ensures forall k | 1 <= k <= m :: k in Values(p)
  {
    ValuesOfDistinct(p);
    NumbersUpToSize(m);
    NumbersUpToHas(m);
    assert Values(p) <= NumbersUpTo(m);
    assert |NumbersUpTo(m)| == |Values(p)| + |NumbersUpTo(m) - Values(p)|;
    assert Values(p) == NumbersUpTo(m);
  }

  /**
   * `opponents.forEachIndexed { i, o -> sendNewGame(o, boardSize, playerCount, numbers[i]) }`:
   * opponent `i` is sent the i-th number.
   */
  function Assignments(opponents: seq<EndpointId>, boardSize: Int32, playerCount: Int32, numbers: seq<Int32>): (r: seq<Send>)
    requires |opponents| <= |numbers|
    ensures Recipients(r) == opponents
    ensures forall i | 0 <= i < |r| :: r[i].payload == EncodeNewGame(NewGame(boardSize, playerCount, numbers[i]))
  {
    seq(|opponents|, i requires 0 <= i < |opponents| =>
      Send(opponents[i], EncodeNewGame(NewGame(boardSize, playerCount, numbers[i]))))
  }

  /** Dealing to one more opponent appends its NEWGAME at the end. */
  lemma AssignmentsExtend(opponents: seq<EndpointId>, i: nat, boardSize: Int32, playerCount: Int32, numbers: seq<Int32>)
    requires i < |opponents| <= |numbers|
    ensures Assignments(opponents[..i + 1], boardSize, playerCount, numbers)
         == Assignments(opponents[..i], boardSize, playerCount, numbers)
            + [Send(opponents[i], EncodeNewGame(NewGame(boardSize, playerCount, numbers[i])))]
  {
    var longer := Assignments(opponents[..i + 1], boardSize, playerCount, numbers);
    var shorter := Assignments(opponents[..i], boardSize, playerCount, numbers);
    assert |longer| == |shorter| + 1;
    forall k | 0 <= k < |longer|
      ensures longer[k] == (shorter + [Send(opponents[i], EncodeNewGame(NewGame(boardSize, playerCount, numbers[i])))])[k]
    {
    }
  }

  /** Opponent `i`, and only it, is sent a NEWGAME that decodes to its assigned number. */
  lemma AssignmentsDecode(opponents: seq<EndpointId>, boardSize: Int32, playerCount: Int32, numbers: seq<Int32>)
    requires |opponents| <= |numbers|
    ensures var r := Assignments(opponents, boardSize, playerCount, numbers);
      forall i | 0 <= i < |r| ::
        r[i].to == opponents[i] && DecodeNewGame(r[i].payload) == Ok(NewGame(boardSize, playerCount, numbers[i]))
  {
    var r := Assignments(opponents, boardSize, playerCount, numbers);
    forall i | 0 <= i < |r|
      ensures r[i].to == opponents[i] && DecodeNewGame(r[i].payload) == Ok(NewGame(boardSize, playerCount, numbers[i]))
    {
      assert Recipients(r)[i] == r[i].to;
      DecodeEncodeNewGame(NewGame(boardSize, playerCount, numbers[i]));
    }
  }

  /**
   * The numbers `hostNewGame` deals from a permutation `players` of 1..n+1:
   * the host keeps `players[0]` and the opponents get `players[1..]`; these
   * are distinct, in 1..n+1, differ from the host's, and together with the
   * host's cover every number 1..n+1.
   */
  lemma DealtNumbers(players: seq<Int32>, m: nat)
    requires IsPlayerPermutation(players, m) && m > 0
    ensures var dealt := players[1..];
      && (forall i | 0 <= i < |dealt| :: 1 <= dealt[i] <= m && dealt[i] != players[0])
      && (forall i, j | 0 <= i < j < |dealt| :: dealt[i] != dealt[j])
      && (forall k | 1 <= k <= m :: k == players[0] || k in dealt)
  {
    var dealt := players[1..];
    forall i | 0 <= i < |dealt|
      ensures 1 <= dealt[i] <= m && dealt[i] != players[0]
    {
      assert dealt[i] == players[i + 1];
    }
    forall i, j | 0 <= i < j < |dealt|
      ensures dealt[i] != dealt[j]
    {
      assert dealt[i] == players[i + 1] && dealt[j] == players[j + 1];
    }
    PermutationCoversAll(players, m);
    forall k | 1 <= k <= m && k != players[0]
      ensures k in dealt
    {
      assert k in Values(players);
      var j :| 0 <= j < |players| && players[j] as int == k;
      assert dealt[j - 1] == k;
    }
  }

  // ---------------------------------------------------------------------------
  // Inbound payloads

  datatype Inbound = InNewGame(newGame: NewGame) | InPlay(play: Play) | Ignored

  /**
   * The `when` of `onPayloadReceived`: only BYTES payloads, NEWGAME tested
   * before PLAY, anything else dropped. A payload that carries a tag but does
   * not decode (an exception in the Kotlin code) is dropped as well.
   */
  function Receive(payload: Payload): (r: Inbound)
    ensures r.InNewGame? <==> payload.Bytes? && IsNewGame(payload.content) && DecodeNewGame(payload.content).Ok?
    ensures r.InNewGame? ==> DecodeNewGame(payload.content) == Ok(r.newGame)
    ensures r.InPlay? <==> payload.Bytes? && IsPlay(payload.content) && DecodePlay(payload.content).Ok?
    ensures r.InPlay? ==> DecodePlay(payload.content) == Ok(r.play)
  {
    if !payload.Bytes? then Ignored
    else if IsNewGame(payload.content) then
      match DecodeNewGame(payload.content)
      case Ok(g) => InNewGame(g)
      case Err(_) => Ignored
    else if IsPlay(payload.content) then
      match DecodePlay(payload.content)
      case Ok(p) => InPlay(p)
      case Err(_) => Ignored
    else Ignored
  }

  /** A peer receiving the PLAY another peer encoded sees that very move. */
  lemma ReceiveEncodedPlay(p: Play)
    ensures Receive(Bytes(EncodePlay(p))) == InPlay(p)
  {
    DecodeEncodePlay(p);
  }

  /** A peer receiving the NEWGAME the host encoded sees that very assignment. */
  lemma ReceiveEncodedNewGame(g: NewGame)
    ensures Receive(Bytes(EncodeNewGame(g))) == InNewGame(g)
  {
    DecodeEncodeNewGame(g);
  }

  /** A payload with neither tag, or that is not BYTES, is ignored. */
  lemma ReceiveUntagged(payload: Payload)
    requires !payload.Bytes? || (!IsPlay(payload.content) && !IsNewGame(payload.content))
    ensures Receive(payload) == Ignored
  {
  }
}
