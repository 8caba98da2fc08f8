/**
 Checking a Bitcoin proof (aikiri_ledger/witness.py, `BitcoinWitness.verify`): the
 attestations a proof names are taken, lowest block first, to a node or to two
 public sources, within one budget of time for the whole run.

 What a source answers, how long it takes and whether it answers at all are
 arbitrary. The log is ghost: it says what was asked, when, and what came back.
 */
module BitcoinCheck {
  import opened Wrappers
  import opened Bytes
  import opened Crypto
  import opened CompactTarget
  import opened Blocks
  import opened Disks
  import opened VerifyChain
  import opened VerifyAll

  const LOOKUP_BUDGET := 60
  const BITCOIN_BLOCKS_MAX := 8
  const PUBLIC_SOURCES := 2

  datatype Attestation = Attestation(height: nat, msg: Bytes)

  datatype OtsFile =
    | Missing
    | Unusable  // a link, unreadable, not a regular file, far too large, or not a proof
    | Proof(digest: Bytes, attested: seq<Attestation>, calendar: bool)

  datatype Why = TimedOut | NotHad

  type Answer = Result<Header, Why>
  type Memo = map<nat, Answer>

  /** A request: to the node, or to a public source for a block's hash, and for the
      header of the block it named for that height. */
  datatype Ask =
    | AskNode(height: nat)
    | AskHash(source: nat, height: nat)
    | AskHeader(source: nat, height: nat, blockHash: Bytes)

  /** What came back: a public source's text, the node's header, an exception, or nothing
      in time. */
  datatype Reply = Text(text: string) | Block(header: Header) | Raised | OutOfTime

  datatype Event = Asked(ask: Ask, at: int, reply: Reply) | NodeMade(made: bool)

  datatype NodeState = Untried | Node | NodeFailed

  /******* What the answers decide *******/

  /** The attestation's digest is the header's Merkle root. */
  predicate Confirms(a: Attestation, h: Header) {
    |a.msg| == 32 && a.msg == h.merkleRoot
  }

  /** The attested block was had, and its Merkle root is what is attested. */
  ghost predicate Carried(x: Attestation, memo: Memo) {
    x.height in memo && memo[x.height].Ok? && |x.msg| == 32 && memo[x.height].value.merkleRoot == x.msg
  }

  /** Every attested block up to this one was had. */
  ghost predicate Decided(x: Attestation, atts: seq<Attestation>, memo: Memo) {
    forall y | y in atts && y.height <= x.height :: y.height in memo && memo[y.height].Ok?
  }

  ghost predicate Confirmed(x: Attestation, atts: seq<Attestation>, memo: Memo) {
    x in atts && Decided(x, atts, memo) && Carried(x, memo)
  }

  ghost predicate Contradicted(x: Attestation, atts: seq<Attestation>, memo: Memo) {
    x in atts && Decided(x, atts, memo) && !Carried(x, memo)
  }

  /** One confirmed attestation is enough; else one contradicted fails the proof; else
      it is unchecked. Only attestations below the first block not to be had count. */
  ghost function Decision(atts: seq<Attestation>, memo: Memo): (r: BitcoinResult) {
    if exists x :: Confirmed(x, atts, memo) then Complete
    else if exists x :: Contradicted(x, atts, memo) then FailedProof
    else Unchecked
  }

  /** Nothing that could still be looked up would change the decision. */
  ghost predicate Final(atts: seq<Attestation>, memo: Memo) {
    || Decision(atts, memo) == Complete
    || forall x | x in atts :: Decided(x, atts, memo) || Blocked(x, atts, memo)
  }

  ghost predicate Blocked(x: Attestation, atts: seq<Attestation>, memo: Memo) {
    exists y | y in atts :: y.height <= x.height && y.height in memo && memo[y.height].Err?
  }

  ghost predicate Extends(more: Memo, memo: Memo) {
    forall h | h in memo :: h in more && more[h] == memo[h]
  }

  lemma FinalStays(atts: seq<Attestation>, memo: Memo, more: Memo)
    requires Final(atts, memo) && Extends(more, memo)
    ensures Final(atts, more) && Decision(atts, more) == Decision(atts, memo)
  {
    forall x | Confirmed(x, atts, memo) ensures Confirmed(x, atts, more) {
    }
    if Decision(atts, memo) != Complete {
      forall x | x in atts
        ensures Decided(x, atts, more) <==> Decided(x, atts, memo)
        ensures Blocked(x, atts, memo) ==> Blocked(x, atts, more)
      {
        if Decided(x, atts, memo) {
          assert forall y | y in atts && y.height <= x.height :: memo[y.height] == more[y.height];
        } else {
          var y :| y in atts && y.height <= x.height && y.height in memo && memo[y.height].Err?;
          assert more[y.height] == memo[y.height];
        }
      }
      assert forall x :: Confirmed(x, atts, more) <==> Confirmed(x, atts, memo);
      assert forall x :: Contradicted(x, atts, more) <==> Contradicted(x, atts, memo);
    }
  }

  /** What one block's file is worth, given what its headers turned out to be, where the
      library that reads proofs is installed; without it nothing is checked. */
  ghost function Judged(library: bool, w: World, blockHash: string, f: OtsFile, memo: Memo): (r: BitcoinResult)
    requires IsHex64(blockHash)
  {
    if !library then Unchecked
    else match f
    case Missing => Pending
    case Unusable => FailedProof
    case Proof(digest, attested, calendar) =>
      if digest != w.sha(FromHex(blockHash)) then FailedProof
      else if |SortedByHeight(attested)| > BITCOIN_BLOCKS_MAX then FailedProof
      else if attested == [] then if calendar then Pending else FailedProof
      else Decision(attested, memo)
  }

  ghost predicate JudgedForGood(library: bool, w: World, blockHash: string, f: OtsFile, memo: Memo)
    requires IsHex64(blockHash)
  {
    library && f.Proof? && f.digest == w.sha(FromHex(blockHash)) && |SortedByHeight(f.attested)| <= BITCOIN_BLOCKS_MAX
    ==> Final(f.attested, memo)
  }

  /******* Sorting *******/

  predicate HeightsGoUp(a: seq<Attestation>) {
    forall i, j | 0 <= i < j < |a| :: a[i].height <= a[j].height && a[i] != a[j]
  }

  function Insert(a: seq<Attestation>, x: Attestation): (r: seq<Attestation>)
    ensures forall y :: y in r <==> y == x || y in a
  {
    if a == [] then [x]
    else if x == a[0] then a
    else if x.height < a[0].height then [x] + a
    else
      var rest := Insert(a[1..], x);
      assert a == [a[0]] + a[1..];
      [a[0]] + rest
  }

  lemma {:induction false} InsertKeepsOrder(a: seq<Attestation>, x: Attestation)
    requires HeightsGoUp(a)
    ensures HeightsGoUp(Insert(a, x))
  {
    if a != [] && x != a[0] && x.height >= a[0].height {
      InsertKeepsOrder(a[1..], x);
      var rest := Insert(a[1..], x);
      forall y | y in rest ensures a[0].height <= y.height && a[0] != y {
        if y != x {
          var k :| 0 <= k < |a[1..]| && a[1..][k] == y;
          assert y == a[k + 1];
        }
      }
    }
  }

  /** Each attestation once, lowest block first. Which of two for one block comes first
      does not matter to the decision. */
  function SortedByHeight(atts: seq<Attestation>): (r: seq<Attestation>)
    ensures forall x :: x in r <==> x in atts
  {
    if atts == [] then []
    else
      assert atts == atts[..|atts| - 1] + [atts[|atts| - 1]];
      Insert(SortedByHeight(atts[..|atts| - 1]), atts[|atts| - 1])
  }

  lemma {:induction false} SortedGoesUp(atts: seq<Attestation>)
    ensures HeightsGoUp(SortedByHeight(atts))
  {
    if atts != [] {
      SortedGoesUp(atts[..|atts| - 1]);
      InsertKeepsOrder(SortedByHeight(atts[..|atts| - 1]), atts[|atts| - 1]);
    }
  }

  /******* The run *******/

  ghost predicate AsksNode(e: Event) {
    e.Asked? && e.ask.AskNode?
  }

  /** There is no node, or it failed other than by running out of time. */
  ghost predicate NodeGaveUp(e: Event) {
    e == NodeMade(false) || (AsksNode(e) && !e.reply.Block? && !e.reply.OutOfTime?)
  }

  /** No request was started outside the budget. */
  ghost predicate InBudget(log: seq<Event>, deadline: Option<int>) {
    forall i | 0 <= i < |log| && log[i].Asked? ::
      deadline.Some? && deadline.value - LOOKUP_BUDGET <= log[i].at < deadline.value
  }

  /** A node is tried for once, and one that failed is not asked again. */
  ghost predicate Sticky(log: seq<Event>, state: NodeState) {
    && (state == NodeFailed <==> exists i :: 0 <= i < |log| && NodeGaveUp(log[i]))
    && (state == Untried <==> forall i | 0 <= i < |log| :: !log[i].NodeMade?)
    && forall i, j | 0 <= i < j < |log| && NodeGaveUp(log[i]) :: !AsksNode(log[j]) && !log[j].NodeMade?
  }

  /** Public sources are asked only where they are allowed. */
  ghost predicate OnlyAllowed(log: seq<Event>, public: bool) {
    public || forall i | 0 <= i < |log| && log[i].Asked? :: log[i].ask.AskNode?
  }

  /** The public sources are asked only once the node has given up. */
  ghost predicate NodeFirst(log: seq<Event>) {
    forall j | 0 <= j < |log| && log[j].Asked? && !log[j].ask.AskNode? :: exists i :: 0 <= i < j && NodeGaveUp(log[i])
  }

  /** No request between two logs. */
  ghost predicate NothingAsked(before: seq<Event>, after: seq<Event>) {
    before <= after && forall k | |before| <= k < |after| :: !after[k].Asked?
  }

  /** No request is made twice: the node is asked for a height once, and so is each
      public source, for its hash and for the header of that hash. */
  ghost predicate AskedOnce(log: seq<Event>) {
    forall i, j | 0 <= i < j < |log| && log[i].Asked? && log[j].Asked? :: log[i].ask != log[j].ask
  }

  ghost predicate Unasked(log: seq<Event>, ask: Ask) {
    forall k | 0 <= k < |log| && log[k].Asked? :: log[k].ask != ask
  }

  /** This source was asked nothing about this height. */
  ghost predicate Unheard(log: seq<Event>, source: nat, height: nat) {
    forall k | 0 <= k < |log| && log[k].Asked? :: !IsOf(log[k].ask, source, height)
  }

  predicate IsOf(ask: Ask, source: nat, height: nat) {
    !ask.AskNode? && ask.source == source && ask.height == height
  }

  /** Nothing was asked about this height. */
  ghost predicate Untouched(log: seq<Event>, height: nat) {
    forall k | 0 <= k < |log| && log[k].Asked? :: log[k].ask.height != height
  }

  /** Whatever was asked between two logs was about this height. */
  ghost predicate AsksAbout(before: seq<Event>, after: seq<Event>, height: nat) {
    before <= after && forall k | |before| <= k < |after| && after[k].Asked? :: after[k].ask.height == height
  }

  /** Only heights that were looked up were asked about. */
  ghost predicate AsksKept(log: seq<Event>, memo: Memo) {
    forall k | 0 <= k < |log| && log[k].Asked? :: log[k].ask.height in memo
  }

  /** This request was made, and this came back. */
  ghost predicate CameBack(log: seq<Event>, ask: Ask, reply: Reply) {
    exists k | 0 <= k < |log| :: log[k].Asked? && log[k].ask == ask && log[k].reply == reply
  }

  /** The text of so many bytes. */
  predicate HexOf(reply: Reply, size: nat) {
    reply.Text? && |reply.text| == 2 * size && AllHex(reply.text)
  }

  /** The node gave this header. */
  ghost predicate NodeGave(log: seq<Event>, height: nat, header: Header) {
    CameBack(log, AskNode(height), Block(header))
  }

  /** A public source named this block for the height, and gave this header of it. */
  ghost predicate Gave(log: seq<Event>, source: nat, height: nat, raw: Bytes, blockHash: Bytes) {
    && |blockHash| == 32 && CameBack(log, AskHash(source, height), Text(Hex(blockHash)))
    && |raw| == HEADER_SIZE && CameBack(log, AskHeader(source, height, blockHash), Text(Hex(raw)))
  }

  ghost predicate BothGave(log: seq<Event>, height: nat, raw: Bytes, blockHash: Bytes) {
    forall source: nat | source < PUBLIC_SOURCES :: Gave(log, source, height, raw, blockHash)
  }

  ghost predicate Worthy(w: World, raw: Bytes, blockHash: Bytes, header: Header) {
    |raw| == HEADER_SIZE && Worked(w, raw, blockHash) == Ok(header)
  }

  ghost predicate PublicGave(w: World, log: seq<Event>, height: nat, header: Header) {
    exists raw, blockHash :: BothGave(log, height, raw, blockHash) && Worthy(w, raw, blockHash, header)
  }

  /** Where a header came from: the node, or both public sources, giving one header that
      carries its work. */
  ghost predicate Vouched(w: World, log: seq<Event>, height: nat, header: Header) {
    NodeGave(log, height, header) || PublicGave(w, log, height, header)
  }

  /** This source gave something that is no hash, or no header. */
  ghost predicate GaveBadly(log: seq<Event>, source: nat, height: nat) {
    exists k | 0 <= k < |log| :: log[k].Asked? && IsOf(log[k].ask, source, height) &&
      !HexOf(log[k].reply, if log[k].ask.AskHash? then 32 else HEADER_SIZE)
  }

  /** Why no header came from the public sources although there was time: one of them
      gave badly, or they differ, or what they both gave does not carry its work. */
  ghost predicate TurnedDown(w: World, log: seq<Event>, height: nat) {
    || (exists source: nat :: source < PUBLIC_SOURCES && GaveBadly(log, source, height))
    || exists raw, blockHash, raw', blockHash' ::
         && Gave(log, 0, height, raw, blockHash) && Gave(log, 1, height, raw', blockHash')
         && ((raw, blockHash) != (raw', blockHash') || forall header :: !Worthy(w, raw, blockHash, header))
  }

  /** Each answer kept is what the run was told: a header exactly if it was vouched for. */
  ghost predicate AllVouched(w: World, log: seq<Event>, memo: Memo) {
    forall h, header | h in memo :: memo[h] == Ok(header) <==> Vouched(w, log, h, header)
  }

  lemma CameBackElsewhere(log: seq<Event>, more: seq<Event>, height: nat, ask: Ask, reply: Reply)
    requires AsksAbout(log, more, height) && ask.height != height
    ensures CameBack(more, ask, reply) <==> CameBack(log, ask, reply)
  {
    if CameBack(log, ask, reply) {
      var k :| 0 <= k < |log| && log[k].Asked? && log[k].ask == ask && log[k].reply == reply;
      assert more[k] == log[k];
    }
  }

  /** What was asked about one height does not bear on another. */
  lemma VouchedElsewhere(w: World, log: seq<Event>, more: seq<Event>, height: nat, h: nat, header: Header)
    requires AsksAbout(log, more, height) && h != height
    ensures Vouched(w, more, h, header) <==> Vouched(w, log, h, header)
  {
    hide CameBack, AsksAbout, Worthy;
    forall ask: Ask, reply | ask.height == h ensures CameBack(more, ask, reply) <==> CameBack(log, ask, reply) {
      CameBackElsewhere(log, more, height, ask, reply);
    }
    forall raw, blockHash ensures BothGave(more, h, raw, blockHash) <==> BothGave(log, h, raw, blockHash) {
      forall source: nat ensures Gave(more, source, h, raw, blockHash) <==> Gave(log, source, h, raw, blockHash) {
      }
    }
  }

  lemma VouchedStays(w: World, log: seq<Event>, more: seq<Event>, memo: Memo, height: nat)
    requires AllVouched(w, log, memo) && AsksAbout(log, more, height) && height !in memo
    ensures AllVouched(w, more, memo)
  {
    hide Vouched;
    forall h, header | h in memo ensures memo[h] == Ok(header) <==> Vouched(w, more, h, header) {
      VouchedElsewhere(w, log, more, height, h, header);
    }
  }

  lemma OneReply(log: seq<Event>, ask: Ask, a: Reply, b: Reply)
    requires AskedOnce(log) && CameBack(log, ask, a) && CameBack(log, ask, b)
    ensures a == b
  {
  }

  /** A source gives one header for a height at most. */
  lemma GaveOnce(log: seq<Event>, source: nat, height: nat, raw: Bytes, blockHash: Bytes, raw': Bytes, blockHash': Bytes)
    requires AskedOnce(log) && Gave(log, source, height, raw, blockHash) && Gave(log, source, height, raw', blockHash')
    ensures raw == raw' && blockHash == blockHash'
  {
    hide CameBack, AskedOnce;
    OneReply(log, AskHash(source, height), Text(Hex(blockHash)), Text(Hex(blockHash')));
    HexInjective(blockHash, blockHash');
    OneReply(log, AskHeader(source, height, blockHash), Text(Hex(raw)), Text(Hex(raw')));
    HexInjective(raw, raw');
  }

  lemma NodeFirstStays(log: seq<Event>, e: Event, state: NodeState)
    requires NodeFirst(log) && Sticky(log, state)
    requires e.Asked? && !e.ask.AskNode? ==> state == NodeFailed
    ensures NodeFirst(log + [e])
  {
    var more := log + [e];
    forall j | 0 <= j < |more| && more[j].Asked? && !more[j].ask.AskNode? ensures exists i :: 0 <= i < j && NodeGaveUp(more[i]) {
      if j < |log| {
        var i :| 0 <= i < j && NodeGaveUp(log[i]);
        assert NodeGaveUp(more[i]);
      } else {
        var i :| 0 <= i < |log| && NodeGaveUp(log[i]);
        assert NodeGaveUp(more[i]);
      }
    }
  }

  /** Exactly this request was made between two logs, and this came back. */
  ghost predicate Sent(before: seq<Event>, after: seq<Event>, ask: Ask, reply: Reply) {
    |after| == |before| + 1 && before <= after
    && after[|before|].Asked? && after[|before|].ask == ask && after[|before|].reply == reply
  }

  /** Whatever was asked between two logs, it was asked of this source about this height. */
  ghost predicate AsksOf(before: seq<Event>, after: seq<Event>, source: nat, height: nat) {
    before <= after && forall k | |before| <= k < |after| :: after[k].Asked? && IsOf(after[k].ask, source, height)
  }

  /** Or of any public source. */
  ghost predicate AsksPublic(before: seq<Event>, after: seq<Event>, height: nat) {
    before <= after && forall k | |before| <= k < |after| ::
      after[k].Asked? && !after[k].ask.AskNode? && after[k].ask.height == height
  }

  lemma StickyStays(log: seq<Event>, e: Event, state: NodeState)
    requires Sticky(log, state)
    requires AsksNode(e) ==> state == Node
    requires e.NodeMade? ==> state == Untried
    ensures Sticky(log + [e], if NodeGaveUp(e) then NodeFailed else if e.NodeMade? then Node else state)
  {
    var more := log + [e];
    assert forall i | 0 <= i < |log| :: more[i] == log[i];
    if i :| 0 <= i < |log| && NodeGaveUp(log[i]) {
      assert NodeGaveUp(more[i]);
    }
    assert more[|log|] == e;
  }

  /** What one more event keeps. */
  lemma OneMore(log: seq<Event>, e: Event, deadline: Option<int>, state: NodeState, public: bool)
    requires InBudget(log, deadline) && Sticky(log, state) && OnlyAllowed(log, public) && NodeFirst(log) && AskedOnce(log)
    requires match e
      case NodeMade(_) => state == Untried
      case Asked(ask, at, _) =>
        && deadline.Some? && deadline.value - LOOKUP_BUDGET <= at < deadline.value && Unasked(log, ask)
        && if ask.AskNode? then state == Node else state == NodeFailed && public
    ensures var more := log + [e];
      && InBudget(more, deadline) && OnlyAllowed(more, public) && NodeFirst(more) && AskedOnce(more)
      && Sticky(more, if NodeGaveUp(e) then NodeFailed else if e.NodeMade? then Node else state)
  {
    NodeFirstStays(log, e, state);
    StickyStays(log, e, state);
    OnceMore(log, e);
  }

  lemma OnceMore(log: seq<Event>, e: Event)
    requires AskedOnce(log) && (e.Asked? ==> Unasked(log, e.ask))
    ensures AskedOnce(log + [e])
  {
  }

  lemma UnheardIsUnasked(log: seq<Event>, source: nat, height: nat)
    requires Unheard(log, source, height)
    ensures Unasked(log, AskHash(source, height))
  {
  }

  lemma NoHashNoHeader(before: seq<Event>, log: seq<Event>, source: nat, height: nat, r: Result<Bytes, Why>)
    requires Unheard(before, source, height) && r.Err?
    requires log == before || exists reply :: Sent(before, log, AskHash(source, height), reply)
    requires r == Err(NotHad) ==> exists reply :: Sent(before, log, AskHash(source, height), reply) && !HexOf(reply, 32)
    requires r == Err(TimedOut) ==> log == before || Sent(before, log, AskHash(source, height), OutOfTime)
    ensures AsksOf(before, log, source, height)
    ensures forall raw, blockHash :: !Gave(log, source, height, raw, blockHash)
    ensures r == Err(NotHad) ==> GaveBadly(log, source, height)
  {
    forall k | 0 <= k < |before| ensures before[k] == log[k] {
    }
  }

  lemma HashSent(before: seq<Event>, log: seq<Event>, source: nat, height: nat, blockHash: Bytes)
    requires Unheard(before, source, height) && Sent(before, log, AskHash(source, height), Text(Hex(blockHash)))
    ensures Unasked(log, AskHeader(source, height, blockHash)) && AsksOf(before, log, source, height)
  {
    forall k | 0 <= k < |before| ensures before[k] == log[k] {
    }
  }

  lemma HeaderSent(before: seq<Event>, first: seq<Event>, log: seq<Event>, source: nat, height: nat, blockHash: Bytes,
                   raw: Result<Bytes, Why>)
    requires Unheard(before, source, height) && |blockHash| == 32
    requires Sent(before, first, AskHash(source, height), Text(Hex(blockHash)))
    requires log == first || exists reply :: Sent(first, log, AskHeader(source, height, blockHash), reply)
    requires raw.Ok? ==> |raw.value| == HEADER_SIZE && Sent(first, log, AskHeader(source, height, blockHash), Text(Hex(raw.value)))
    requires raw == Err(NotHad) ==>
               exists reply :: Sent(first, log, AskHeader(source, height, blockHash), reply) && !HexOf(reply, HEADER_SIZE)
    requires raw == Err(TimedOut) ==> log == first || Sent(first, log, AskHeader(source, height, blockHash), OutOfTime)
    ensures AsksOf(before, log, source, height)
    ensures raw.Ok? ==> Gave(log, source, height, raw.value, blockHash)
    ensures raw.Err? ==> forall r, h :: !Gave(log, source, height, r, h)
    ensures raw == Err(NotHad) ==> GaveBadly(log, source, height)
  {
    forall k | 0 <= k < |before| ensures before[k] == log[k] {
    }
    assert log[|before|] == first[|before|];
    if raw.Err? {
      if raw == Err(NotHad) {
        var reply :| Sent(first, log, AskHeader(source, height, blockHash), reply) && !HexOf(reply, HEADER_SIZE);
        assert log[|first|].reply == reply;
      } else {
        assert raw.error == TimedOut && raw == Err(TimedOut);
      }
      forall r, h ensures !Gave(log, source, height, r, h) {
        if Gave(log, source, height, r, h) {
          NoHeaderSent(before, first, log, source, height, r, h);
        }
      }
    } else {
      assert CameBack(log, AskHash(source, height), Text(Hex(blockHash)));
    }
  }

  lemma NoHeaderSent(before: seq<Event>, first: seq<Event>, log: seq<Event>, source: nat, height: nat, r: Bytes, h: Bytes)
    requires Unheard(before, source, height) && before <= first <= log && |first| == |before| + 1 && |log| <= |first| + 1
    requires first[|before|].Asked? && first[|before|].ask == AskHash(source, height)
    requires |log| > |first| ==> log[|first|].Asked? && !HexOf(log[|first|].reply, HEADER_SIZE)
    ensures !Gave(log, source, height, r, h)
  {
    assert forall k | 0 <= k < |before| :: log[k] == before[k];
    assert forall k | 0 <= k < |before| && log[k].Asked? :: !IsOf(log[k].ask, source, height);
    assert log[|before|] == first[|before|];
    assert |r| == HEADER_SIZE ==> HexOf(Text(Hex(r)), HEADER_SIZE);
  }

  lemma AsksNothing(log: seq<Event>, height: nat)
    ensures AsksPublic(log, log, height)
  {
  }

  lemma OthersStay(start: seq<Event>, before: seq<Event>, log: seq<Event>, source: nat, height: nat)
    requires AsksOf(before, log, source, height) && AsksPublic(start, before, height)
    ensures AsksPublic(start, log, height)
    ensures forall other: nat | other != source && Unheard(before, other, height) :: Unheard(log, other, height)
    ensures forall other: nat, raw, blockHash | Gave(before, other, height, raw, blockHash) :: Gave(log, other, height, raw, blockHash)
    ensures NothingAsked(start, before) && NothingAsked(before, log) ==> NothingAsked(start, log)
  {
    assert forall k | 0 <= k < |before| :: log[k] == before[k];
    forall ask, reply | CameBack(before, ask, reply) ensures CameBack(log, ask, reply) {
      var k :| 0 <= k < |before| && before[k].Asked? && before[k].ask == ask && before[k].reply == reply;
      assert log[k] == before[k];
    }
  }

  lemma NotBoth(w: World, log: seq<Event>, source: nat, height: nat)
    requires source < PUBLIC_SOURCES && forall raw, blockHash :: !Gave(log, source, height, raw, blockHash)
    ensures forall header :: !PublicGave(w, log, height, header)
    ensures GaveBadly(log, source, height) ==> TurnedDown(w, log, height)
  {
    hide Gave;
    assert forall raw, blockHash | BothGave(log, height, raw, blockHash) :: Gave(log, source, height, raw, blockHash);
  }

  lemma DifferNotBoth(w: World, log: seq<Event>, height: nat, a: (Bytes, Bytes), b: (Bytes, Bytes))
    requires AskedOnce(log) && Gave(log, 0, height, a.0, a.1) && Gave(log, 1, height, b.0, b.1) && a != b
    ensures forall header :: !PublicGave(w, log, height, header)
    ensures TurnedDown(w, log, height)
  {
    hide AskedOnce, Gave;
    forall raw, blockHash ensures !BothGave(log, height, raw, blockHash) {
      if BothGave(log, height, raw, blockHash) {
        assert Gave(log, 0, height, raw, blockHash) && Gave(log, 1, height, raw, blockHash);
        GaveOnce(log, 0, height, raw, blockHash, a.0, a.1);
        GaveOnce(log, 1, height, raw, blockHash, b.0, b.1);
      }
    }
  }

  lemma BothSame(w: World, log: seq<Event>, height: nat, raw: Bytes, blockHash: Bytes)
    requires AskedOnce(log) && Gave(log, 0, height, raw, blockHash) && Gave(log, 1, height, raw, blockHash)
    ensures |raw| == HEADER_SIZE
    ensures forall header :: PublicGave(w, log, height, header) <==> Worked(w, raw, blockHash) == Ok(header)
    ensures Worked(w, raw, blockHash).Err? ==> TurnedDown(w, log, height)
  {
    assert |raw| == HEADER_SIZE;
    hide AskedOnce, Gave, Worked;
    assert BothGave(log, height, raw, blockHash);
    forall r, h | BothGave(log, height, r, h) ensures r == raw && h == blockHash {
      assert Gave(log, 0, height, r, h);
      GaveOnce(log, 0, height, r, h, raw, blockHash);
    }
    forall header ensures PublicGave(w, log, height, header) <==> Worked(w, raw, blockHash) == Ok(header) {
      if Worked(w, raw, blockHash) == Ok(header) {
        assert Worthy(w, raw, blockHash, header);
      }
    }
  }

  lemma UntouchedIsUnheard(before: seq<Event>, log: seq<Event>, height: nat)
    requires Untouched(before, height) && NothingAsked(before, log)
    ensures Untouched(log, height) && Unasked(log, AskNode(height)) && forall source: nat :: Unheard(log, source, height)
  {
    assert forall k | 0 <= k < |before| :: log[k] == before[k];
  }

  lemma NodeAskIsAbout(start: seq<Event>, before: seq<Event>, log: seq<Event>, height: nat)
    requires NothingAsked(start, before) && Untouched(before, height)
    requires log == before || exists reply :: Sent(before, log, AskNode(height), reply)
    ensures AsksAbout(start, log, height) && forall source: nat :: Unheard(log, source, height)
  {
    assert forall k | 0 <= k < |before| :: log[k] == before[k];
  }

  lemma NodeNotAsked(log: seq<Event>, height: nat)
    requires Unasked(log, AskNode(height))
    ensures forall header :: !NodeGave(log, height, header)
  {
  }

  lemma NoPublicYet(w: World, log: seq<Event>, height: nat)
    requires forall source: nat :: Unheard(log, source, height)
    ensures forall header :: !PublicGave(w, log, height, header)
  {
    forall raw, blockHash ensures !BothGave(log, height, raw, blockHash) {
      assert Unheard(log, 0, height);
      assert !Gave(log, 0, height, raw, blockHash);
    }
  }

  lemma PublicIsAbout(start: seq<Event>, before: seq<Event>, log: seq<Event>, height: nat)
    requires AsksAbout(start, before, height) && AsksPublic(before, log, height)
    ensures AsksAbout(start, log, height)
    ensures forall header :: NodeGave(log, height, header) <==> NodeGave(before, height, header)
    ensures NothingAsked(start, before) && NothingAsked(before, log) ==> NothingAsked(start, log)
  {
    assert forall k | 0 <= k < |before| :: log[k] == before[k];
    forall header | NodeGave(before, height, header) ensures NodeGave(log, height, header) {
      var k :| 0 <= k < |before| && before[k].Asked? && before[k].ask == AskNode(height) && before[k].reply == Block(header);
      assert log[k] == before[k];
    }
  }

  class BitcoinWitness {
    const public: bool
    const library: bool  // python-opentimestamps is installed
    const w: World
    var headers: Memo
    var nodeState: NodeState
    var deadline: Option<int>
    var clock: int
    ghost var log: seq<Event>

    ghost predicate Valid()
      reads this
    {
      Asking() && AsksKept(log, headers) && AllVouched(w, log, headers)
    }

    ghost predicate Asking()
      reads this
    {
      AskingAt(nodeState)
    }

    /** What the run keeps, were the node in this state. */
    ghost predicate AskingAt(state: NodeState)
      reads this
    {
      && InBudget(log, deadline)
      && (deadline.Some? ==> deadline.value - LOOKUP_BUDGET <= clock)
      && Sticky(log, state)
      && OnlyAllowed(log, public)
      && NodeFirst(log)
      && AskedOnce(log)
    }

    /** The run's budget is gone. */
    ghost predicate Spent()
      reads this
    {
      deadline.Some? && clock >= deadline.value
    }

    constructor (w: World, public: bool, library: bool)
      ensures Valid() && headers == map[] && this.public == public && this.library == library && this.w == w
    {
      this.w, this.public, this.library := w, public, library;
      headers, nodeState, deadline, log := map[], Untried, None, [];
    }

    /** `time.monotonic()`. */
    method Now() returns (t: int)
      modifies this`clock
      ensures old(clock) <= t == clock
    {
      var reading: int := *;
      if reading > clock {
        clock := reading;
      }
      t := clock;
    }

    /** The request itself: what comes back is up to the other side, and is waited for
        until the deadline. */
    method Send(ask: Ask, now: int) returns (r: Reply)
      requires deadline.Some?
      modifies this`clock, this`log
      ensures log == old(log) + [Asked(ask, now, r)] && old(clock) <= clock
      ensures r.OutOfTime? ==> Spent()
    {
      r := *;
      var _ := Now();
      if r.OutOfTime? && clock < deadline.value {
        clock := deadline.value;
      }
      log := log + [Asked(ask, now, r)];
    }

    /** `_within`: the request is started only while budget is left; the budget is counted
        from the first request of the run. */
    method Within(ask: Ask) returns (r: Reply)
      requires Asking()
      requires if ask.AskNode? then nodeState == Node else nodeState == NodeFailed && public
      requires Unasked(log, ask)
      modifies this`clock, this`deadline, this`log
      ensures if old(deadline).Some? then deadline == old(deadline)
              else deadline.Some? && old(clock) <= deadline.value - LOOKUP_BUDGET <= clock
      ensures old(Spent()) ==> log == old(log)
      ensures log == old(log) ==> r.OutOfTime? && Spent() && Asking()
      ensures log != old(log) ==> Sent(old(log), log, ask, r)
      ensures log != old(log) ==> AskingAt(if ask.AskNode? && !r.Block? && !r.OutOfTime? then NodeFailed else nodeState)
      ensures r.OutOfTime? ==> Spent()
      ensures old(clock) <= clock
    {
      if deadline.None? {
        var start := Now();
        deadline := Some(start + LOOKUP_BUDGET);
        assert InBudget(log, deadline);
      }
      hide InBudget, Sticky, OnlyAllowed, NodeFirst, AskedOnce;
      var now := Now();
      if now >= deadline.value {
        return OutOfTime;
      }
      r := Send(ask, now);
      OneMore(old(log), Asked(ask, now, r), deadline, nodeState, public);
    }

    /** `_hex`. */
    method HexReply(reply: Reply, size: nat) returns (r: Result<Bytes, Why>)
      ensures r.Ok? <==> HexOf(reply, size)
      ensures r.Ok? ==> |r.value| == size && reply == Text(Hex(r.value))
      ensures r == Err(TimedOut) <==> reply.OutOfTime?
    {
      match reply
      case Text(text) =>
        if |text| == 2 * size && AllHex(text) {
          FromHexRoundTrip(text);
          return Ok(FromHex(text));
        }
        return Err(NotHad);
      case OutOfTime => return Err(TimedOut);
      case _ => return Err(NotHad);
    }

    /** One request to a public source, and the bytes it must answer with. */
    method BytesFrom(ask: Ask, size: nat) returns (r: Result<Bytes, Why>)
      requires Asking() && public && nodeState == NodeFailed && !ask.AskNode? && Unasked(log, ask)
      modifies this`clock, this`deadline, this`log
      ensures Asking()
      ensures old(Spent()) ==> Spent() && NothingAsked(old(log), log)
      ensures log == old(log) || exists reply :: Sent(old(log), log, ask, reply)
      ensures r.Ok? ==> |r.value| == size && Sent(old(log), log, ask, Text(Hex(r.value)))
      ensures r == Err(NotHad) ==> exists reply :: Sent(old(log), log, ask, reply) && !HexOf(reply, size)
      ensures r == Err(TimedOut) ==> Spent() && (log == old(log) || Sent(old(log), log, ask, OutOfTime))
    {
      hide InBudget, Sticky, OnlyAllowed, NodeFirst, AskedOnce;
      var reply := Within(ask);
      r := HexReply(reply, size);
    }

    /** One source's block hash and header, as it gives them. */
    method FromSource(source: nat, height: nat) returns (r: Result<(Bytes, Bytes), Why>)
      requires Asking() && public && nodeState == NodeFailed && Unheard(log, source, height)
      modifies this`clock, this`deadline, this`log
      ensures Asking() && AsksOf(old(log), log, source, height)
      ensures old(Spent()) ==> Spent() && NothingAsked(old(log), log)
      ensures r.Ok? ==> Gave(log, source, height, r.value.0, r.value.1)
      ensures r.Err? ==> forall raw, blockHash :: !Gave(log, source, height, raw, blockHash)
      ensures r == Err(NotHad) ==> GaveBadly(log, source, height)
      ensures r == Err(TimedOut) ==> Spent()
    {
      hide InBudget, Sticky, OnlyAllowed, NodeFirst, AskedOnce, Gave, GaveBadly, CameBack, Unheard, AsksOf, HexOf;
      var hashAsk := AskHash(source, height);
      UnheardIsUnasked(log, source, height);
      var blockHash := BytesFrom(hashAsk, 32);
      ghost var first := log;
      if blockHash.Err? {
        NoHashNoHeader(old(log), log, source, height, blockHash);
        return Err(blockHash.error);
      }
      HashSent(old(log), log, source, height, blockHash.value);
      var raw := BytesFrom(AskHeader(source, height, blockHash.value), HEADER_SIZE);
      HeaderSent(old(log), first, log, source, height, blockHash.value, raw);
      if raw.Err? {
        return Err(raw.error);
      }
      return Ok((raw.value, blockHash.value));
    }

    /** `_from_public`: a header is taken exactly if both sources give it for the same
        block, it hashes to that block, and it carries the work. */
    method FromPublic(height: nat) returns (r: Answer)
      requires Asking() && public && nodeState == NodeFailed
      requires forall source: nat :: Unheard(log, source, height)
      modifies this`clock, this`deadline, this`log
      ensures Asking() && AsksPublic(old(log), log, height)
      ensures old(Spent()) ==> Spent() && NothingAsked(old(log), log)
      ensures forall header :: r == Ok(header) <==> PublicGave(w, log, height, header)
      ensures r == Err(NotHad) ==> TurnedDown(w, log, height)
      ensures r == Err(TimedOut) ==> Spent()
    {
      hide InBudget, Sticky, OnlyAllowed, NodeFirst, AskedOnce, Unheard, Gave, GaveBadly, AsksOf, AsksPublic;
      AsksNothing(log, height);
      var got: seq<(Bytes, Bytes)> := [];
      for source := 0 to PUBLIC_SOURCES
        invariant Asking() && AsksPublic(old(log), log, height) && |got| == source
        invariant forall other: nat | other >= source :: Unheard(log, other, height)
        invariant old(Spent()) ==> Spent() && NothingAsked(old(log), log)
        invariant forall k | 0 <= k < source :: Gave(log, k, height, got[k].0, got[k].1)
      {
        ghost var before := log;
        var given := FromSource(source, height);
        OthersStay(old(log), before, log, source, height);
        if given.Err? {
          NotBoth(w, log, source, height);
          return Err(given.error);
        }
        got := got + [given.value];
      }
      assert AskedOnce(log);
      if got[1] != got[0] {
        DifferNotBoth(w, log, height, got[0], got[1]);
        return Err(NotHad);
      }
      BothSame(w, log, height, got[0].0, got[0].1);
      var worked := Worked(w, got[0].0, got[0].1);
      return if worked.Ok? then Ok(worked.value) else Err(NotHad);
    }

    /** `_node`: there is one to be tried, or there is not. */
    method MakeNode() returns (made: bool)
      requires Asking() && nodeState == Untried
      modifies this`log
      ensures log == old(log) + [NodeMade(made)] && AskingAt(if made then Node else NodeFailed)
    {
      made := *;
      OneMore(log, NodeMade(made), deadline, nodeState, public);
      log := log + [NodeMade(made)];
    }

    /** The node is tried for at the first lookup. */
    method FindNode()
      requires Asking()
      modifies this`log, this`nodeState
      ensures Asking() && NothingAsked(old(log), log) && nodeState != Untried
      ensures old(nodeState) != Untried ==> nodeState == old(nodeState) && log == old(log)
    {
      if nodeState == Untried {
        var made := MakeNode();
        nodeState := if made then Node else NodeFailed;
      }
    }

    /** What the node answers; None when it just failed, other than by running out of time. */
    method TryNode(height: nat) returns (r: Option<Answer>)
      requires Asking() && nodeState == Node && Unasked(log, AskNode(height))
      modifies this`clock, this`deadline, this`log, this`nodeState
      ensures Asking() && (r.None? <==> nodeState == NodeFailed)
      ensures log == old(log) || exists reply :: Sent(old(log), log, AskNode(height), reply)
      ensures old(Spent()) ==> Spent() && NothingAsked(old(log), log)
      ensures forall header :: r == Some(Ok(header)) <==> NodeGave(log, height, header)
      ensures r.Some? && r.value.Err? ==> r.value == Err(TimedOut) && Spent()
    {
      hide InBudget, Sticky, OnlyAllowed, NodeFirst, AskedOnce;
      var reply := Within(AskNode(height));
      match reply {
        case Block(header) => return Some(Ok(header));
        case OutOfTime => return Some(Err(TimedOut));
        case _ =>
          nodeState := NodeFailed;
          return None;
      }
    }

    /** `_look_up`: the node while it answers, else both public sources if they are on. A
        header comes back exactly if it was vouched for; none comes back only out of time,
        or with the node failed and the public sources off or turning it down. */
    method LookUp(height: nat) returns (r: Answer)
      requires Asking() && Untouched(log, height)
      modifies this`clock, this`deadline, this`log, this`nodeState
      ensures Asking() && AsksAbout(old(log), log, height)
      ensures old(Spent()) ==> Spent() && NothingAsked(old(log), log)
      ensures forall header :: r == Ok(header) <==> Vouched(w, log, height, header)
      ensures r == Err(NotHad) ==> nodeState == NodeFailed && (public ==> TurnedDown(w, log, height))
      ensures r == Err(TimedOut) ==> Spent()
    {
      hide InBudget, Sticky, OnlyAllowed, NodeFirst, AskedOnce, NodeGave, PublicGave, TurnedDown, CameBack, Gave;
      FindNode();
      UntouchedIsUnheard(old(log), log, height);
      ghost var tried := log;
      if nodeState == Node {
        var answer := TryNode(height);
        NodeAskIsAbout(old(log), tried, log, height);
        NoPublicYet(w, log, height);
        if answer.Some? {
          return answer.value;
        }
      } else {
        NodeNotAsked(tried, height);
      }
      if !public {
        NoPublicYet(w, log, height);
        return Err(NotHad);
      }
      ghost var before := log;
      r := FromPublic(height);
      PublicIsAbout(old(log), before, log, height);
    }

    /** `_header`: looked up once per run, whatever came of it. */
    method HeaderAt(height: nat) returns (r: Answer)
      requires Valid()
      modifies this
      ensures Valid() && old(log) <= log
      ensures old(Spent()) ==> Spent() && NothingAsked(old(log), log)
      ensures height in headers && headers[height] == r
      ensures headers == old(headers)[height := r]
      ensures height in old(headers) ==> r == old(headers)[height] && log == old(log)
    {
      if height !in headers {
        var answer := LookUp(height);
        VouchedStays(w, old(log), log, headers, height);
        headers := headers[height := answer];
      }
      r := headers[height];
    }

    /** The loop of `_check` over the attestations, lowest block first. */
    method Decide(atts: seq<Attestation>) returns (r: BitcoinResult)
      requires Valid() && atts != []
      modifies this
      ensures Valid() && old(log) <= log && Extends(headers, old(headers))
      ensures old(Spent()) ==> Spent() && NothingAsked(old(log), log)
      ensures Final(atts, headers) && r == Decision(atts, headers)
    {
      hide InBudget, Sticky, OnlyAllowed, NodeFirst, AskedOnce, AsksKept, AllVouched, Decision, Final,
           SortedByHeight, HeightsGoUp, Confirms;
      var attested := SortedByHeight(atts);
      SortedGoesUp(atts);
      var contradicted := false;
      var k := 0;
      while k < |attested|
        invariant 0 <= k <= |attested|
        invariant Valid() && old(log) <= log && Extends(headers, old(headers))
        invariant old(Spent()) ==> Spent() && NothingAsked(old(log), log)
        invariant forall j | 0 <= j < k :: Refuses(attested[j], headers)
        invariant contradicted <==> k > 0
      {
        var a := attested[k];
        var answer := HeaderAt(a.height);
        if answer.Err? {
          StoppedDecides(atts, attested, k, headers);
          return if contradicted then FailedProof else Unchecked;
        }
        if Confirms(a, answer.value) {
          ConfirmedDecides(atts, attested, k, headers);
          return Complete;
        }
        contradicted := true;
        k := k + 1;
      }
      ThroughDecides(atts, attested, headers);
      return FailedProof;
    }

    /** `_check`. */
    method Check(blockHash: string, f: OtsFile) returns (r: BitcoinResult)
      requires Valid() && IsHex64(blockHash)
      modifies this
      ensures Valid() && old(log) <= log && Extends(headers, old(headers))
      ensures old(Spent()) ==> Spent() && NothingAsked(old(log), log)
      ensures r == Judged(library, w, blockHash, f, headers) && JudgedForGood(library, w, blockHash, f, headers)
    {
      if !library {
        return Unchecked;
      }
      match f
      case Missing => return Pending;
      case Unusable => return FailedProof;
      case Proof(digest, attested, calendar) =>
        if digest != w.sha(FromHex(blockHash)) {
          return FailedProof;
        }
        if |SortedByHeight(attested)| > BITCOIN_BLOCKS_MAX {
          return FailedProof;
        }
        if attested == [] {
          return if calendar then Pending else FailedProof;
        }
        r := Decide(attested);
    }

    /** The Bitcoin loop of `verify_all`, which stops at a failed proof. What it reports
        is what the run's one set of answers makes of every block's file, in whatever
        order the blocks came. */
    method CheckAll(hashes: seq<string>, files: seq<OtsFile>) returns (pending: nat, failed: bool)
      requires Valid() && |hashes| == |files| && forall i | 0 <= i < |hashes| :: IsHex64(hashes[i])
      modifies this
      ensures Valid() && old(log) <= log && Extends(headers, old(headers))
      ensures old(Spent()) ==> Spent() && NothingAsked(old(log), log)
      ensures failed <==> Refuted(Results(library, w, hashes, files, headers), |files|)
      ensures !failed ==> (pending == 0 <==> Settled(Results(library, w, hashes, files, headers), |files|))
      ensures !failed && pending == 0 ==> forall i | 0 <= i < |files| :: InBitcoin(w, log, hashes[i], files[i])
    {
      hide InBudget, Sticky, OnlyAllowed, NodeFirst, AskedOnce, AsksKept, AllVouched, Judged, JudgedForGood, InBitcoin;
      pending, failed := 0, false;
      for i := 0 to |files|
        invariant Valid() && old(log) <= log && Extends(headers, old(headers))
        invariant old(Spent()) ==> Spent() && NothingAsked(old(log), log)
        invariant forall k | 0 <= k < i :: JudgedForGood(library, w, hashes[k], files[k], headers)
        invariant forall k | 0 <= k < i :: Judged(library, w, hashes[k], files[k], headers) != FailedProof
        invariant pending == 0 <==> forall k | 0 <= k < i :: Judged(library, w, hashes[k], files[k], headers) == Complete
      {
        ghost var before := headers;
        var r := Check(hashes[i], files[i]);
        forall k | 0 <= k < i
          ensures JudgedForGood(library, w, hashes[k], files[k], headers)
          ensures Judged(library, w, hashes[k], files[k], headers) == Judged(library, w, hashes[k], files[k], before)
        {
          JudgementStays(library, w, hashes[k], files[k], before, headers);
        }
        match r
        case Complete =>
        case Unchecked => pending := pending + 1;
        case Pending => pending := pending + 1;
        case FailedProof =>
          assert Results(library, w, hashes, files, headers)(i) == FailedProof;
          return pending, true;
      }
      ghost var results := Results(library, w, hashes, files, headers);
      assert forall k | 0 <= k < |files| :: results(k) == Judged(library, w, hashes[k], files[k], headers);
      if pending == 0 {
        forall k | 0 <= k < |files| ensures InBitcoin(w, log, hashes[k], files[k]) {
          CompleteIsInBitcoin(library, w, log, hashes[k], files[k], headers);
        }
      }
    }
  }

  /** Every block's result under one set of answers, as the verdict takes them. */
  ghost function Results(library: bool, w: World, hashes: seq<string>, files: seq<OtsFile>, memo: Memo): (bitcoin: Bitcoin)
    requires |hashes| == |files| && forall i | 0 <= i < |hashes| :: IsHex64(hashes[i])
  {
    (i: nat) => if i < |files| then Judged(library, w, hashes[i], files[i], memo) else Pending
  }

  /** The proof is of this block, and one of its attestations is the Merkle root of a
      Bitcoin header that the node gave, or that both public sources gave with its work. */
  ghost predicate InBitcoin(w: World, log: seq<Event>, blockHash: string, f: OtsFile)
    requires IsHex64(blockHash)
  {
    && f.Proof? && f.digest == w.sha(FromHex(blockHash))
    && exists x, h: Header :: x in f.attested && x.msg == h.merkleRoot && Vouched(w, log, x.height, h)
  }

  lemma CompleteIsInBitcoin(library: bool, w: World, log: seq<Event>, blockHash: string, f: OtsFile, memo: Memo)
    requires IsHex64(blockHash) && AllVouched(w, log, memo)
    requires Judged(library, w, blockHash, f, memo) == Complete
    ensures InBitcoin(w, log, blockHash, f)
  {
    hide Vouched;
    var x :| Confirmed(x, f.attested, memo);
    assert Vouched(w, log, x.height, memo[x.height].value);
  }

  /** The attestation is the Merkle root of a header vouched for, and a header was vouched
      for at every lower height. */
  ghost predicate BorneOut(w: World, log: seq<Event>, atts: seq<Attestation>, x: Attestation, h: Header) {
    && x in atts && |x.msg| == 32 && x.msg == h.merkleRoot && Vouched(w, log, x.height, h)
    && forall y | y in atts && y.height <= x.height :: exists g :: Vouched(w, log, y.height, g)
  }

  /** A file is complete exactly when it is a proof of the block that names few enough
      Bitcoin blocks, one of its attestations is the Merkle root of a header vouched for,
      and a header was vouched for at every lower height it names. */
  lemma CompleteIffVouched(library: bool, w: World, log: seq<Event>, blockHash: string, f: OtsFile, memo: Memo)
    requires IsHex64(blockHash) && AllVouched(w, log, memo) && AsksKept(log, memo)
    ensures Judged(library, w, blockHash, f, memo) == Complete <==>
      && library && f.Proof? && f.digest == w.sha(FromHex(blockHash))
      && |SortedByHeight(f.attested)| <= BITCOIN_BLOCKS_MAX
      && exists x, h :: BorneOut(w, log, f.attested, x, h)
  {
    hide Vouched, AsksKept, SortedByHeight;
    forall h, header | Vouched(w, log, h, header) ensures h in memo && memo[h] == Ok(header) {
      VouchedIsKept(w, log, memo, h, header);
    }
    if f.Proof? {
      forall x, h | BorneOut(w, log, f.attested, x, h) ensures Confirmed(x, f.attested, memo)
      {
      }
      if x :| Confirmed(x, f.attested, memo) {
        assert Vouched(w, log, x.height, memo[x.height].value);
        forall y | y in f.attested && y.height <= x.height ensures Vouched(w, log, y.height, memo[y.height].value) {
        }
        assert BorneOut(w, log, f.attested, x, memo[x.height].value);
      }
    }
  }

  lemma VouchedIsKept(w: World, log: seq<Event>, memo: Memo, h: nat, header: Header)
    requires Vouched(w, log, h, header) && AsksKept(log, memo)
    ensures h in memo
  {
    if PublicGave(w, log, h, header) {
      var raw, blockHash :| BothGave(log, h, raw, blockHash);
      assert Gave(log, 0, h, raw, blockHash);
    }
  }

  /** The hashes a ledger's blocks state. */
  function HashesOf(bs: seq<Block>): (hashes: seq<string>)
    ensures |hashes| == |bs| && forall i | 0 <= i < |bs| :: hashes[i] == bs[i].hash
  {
    seq(|bs|, i requires 0 <= i < |bs| => bs[i].hash)
  }

  lemma ValidIsNotEmpty(w: World, trust: Trust, disk: Disk)
    requires LocallyValid(w, trust, disk)
    ensures BlocksOf(w, disk) != []
  {
    hide ChainSound;
    IndicesCount(w, trust, disk);
  }

  /** What FULLY VERIFIED means, with the Bitcoin results of a run over the proof files:
      every block is on Base, in time and by the owner, and in Bitcoin, under a header
      that was vouched for. */
  lemma FullyVerifiedMeans(library: bool, w: World, trust: Trust, disk: Disk, base: Option<BaseView>,
                           files: seq<OtsFile>, memo: Memo, log: seq<Event>)
    requires |files| == |BlocksOf(w, disk)| && AllVouched(w, log, memo)
    requires forall i | 0 <= i < |files| :: IsHex64(BlocksOf(w, disk)[i].hash)
    requires Verdict(w, trust, LocallyValid(w, trust, disk), BlocksOf(w, disk), base,
                     Some(Results(library, w, HashesOf(BlocksOf(w, disk)), files, memo))) == Some(FullyVerified)
    ensures LocallyValid(w, trust, disk) && IsExternal(trust) && base.Some? && PinsHold(trust, base.value)
    ensures var bs := BlocksOf(w, disk);
      && base.value.latestIndex == Answered(|bs| - 1)
      && forall i | 0 <= i < |bs| ::
           AnchorHolds(w, trust, base.value, bs[i], i) && InBitcoin(w, log, bs[i].hash, files[i])
  {
    hide LocallyValid, AnchorHolds, PinsHold, InBitcoin, Judged, AllVouched, Verdict;
    var bs := BlocksOf(w, disk);
    var bitcoin := Results(library, w, HashesOf(bs), files, memo);
    if LocallyValid(w, trust, disk) {
      ValidIsNotEmpty(w, trust, disk);
    }
    FullyVerifiedIff(w, trust, LocallyValid(w, trust, disk), bs, base, Some(bitcoin));
    forall i | 0 <= i < |bs| ensures InBitcoin(w, log, bs[i].hash, files[i]) {
      assert bitcoin(i) == Complete;
      CompleteIsInBitcoin(library, w, log, bs[i].hash, files[i], memo);
    }
  }

  lemma JudgementStays(library: bool, w: World, blockHash: string, f: OtsFile, memo: Memo, more: Memo)
    requires IsHex64(blockHash) && JudgedForGood(library, w, blockHash, f, memo) && Extends(more, memo)
    ensures JudgedForGood(library, w, blockHash, f, more)
    ensures Judged(library, w, blockHash, f, more) == Judged(library, w, blockHash, f, memo)
  {
    hide Decision, Final;
    if library && f.Proof? && f.digest == w.sha(FromHex(blockHash)) && |SortedByHeight(f.attested)| <= BITCOIN_BLOCKS_MAX {
      FinalStays(f.attested, memo, more);
    }
  }

  /******* Why the loop decides *******/

  ghost predicate Refuses(a: Attestation, memo: Memo) {
    a.height in memo && memo[a.height].Ok? && !Confirms(a, memo[a.height].value)
  }

  ghost predicate SortOf(attested: seq<Attestation>, atts: seq<Attestation>) {
    HeightsGoUp(attested) && forall x :: x in attested <==> x in atts
  }

  lemma ConfirmedDecides(atts: seq<Attestation>, attested: seq<Attestation>, k: nat, memo: Memo)
    requires SortOf(attested, atts) && k < |attested|
    requires forall j | 0 <= j < k :: Refuses(attested[j], memo)
    requires attested[k].height in memo && memo[attested[k].height].Ok?
    requires Confirms(attested[k], memo[attested[k].height].value)
    ensures Final(atts, memo) && Decision(atts, memo) == Complete
  {
    var x := attested[k];
    forall y | y in atts && y.height <= x.height ensures y.height in memo && memo[y.height].Ok? {
      var j :| 0 <= j < |attested| && attested[j] == y;
      if j < k {
        assert Refuses(attested[j], memo);
      }
    }
    assert Confirmed(x, atts, memo);
  }

  lemma StoppedSplits(atts: seq<Attestation>, attested: seq<Attestation>, k: nat, i: nat, memo: Memo)
    requires SortOf(attested, atts) && k < |attested| && i < |attested|
    requires forall j | 0 <= j < k :: Refuses(attested[j], memo)
    requires attested[k].height in memo && memo[attested[k].height].Err?
    ensures if i < k then Refuses(attested[i], memo) && Decided(attested[i], atts, memo)
            else Blocked(attested[i], atts, memo) && !Decided(attested[i], atts, memo)
  {
  }

  lemma StoppedDecides(atts: seq<Attestation>, attested: seq<Attestation>, k: nat, memo: Memo)
    requires SortOf(attested, atts) && k < |attested|
    requires forall j | 0 <= j < k :: Refuses(attested[j], memo)
    requires attested[k].height in memo && memo[attested[k].height].Err?
    ensures Final(atts, memo)
    ensures Decision(atts, memo) == if k > 0 then FailedProof else Unchecked
  {
    hide Blocked, HeightsGoUp;
    forall x | x in atts
      ensures if Decided(x, atts, memo) then k > 0 && Refuses(x, memo) else Blocked(x, atts, memo)
    {
      var i :| 0 <= i < |attested| && attested[i] == x;
      StoppedSplits(atts, attested, k, i, memo);
    }
    if k > 0 {
      StoppedSplits(atts, attested, k, 0, memo);
      assert Contradicted(attested[0], atts, memo);
    }
  }

  lemma EarlierDecided(atts: seq<Attestation>, attested: seq<Attestation>, k: nat, x: Attestation, memo: Memo)
    requires SortOf(attested, atts) && k <= |attested|
    requires forall j | 0 <= j < k :: Refuses(attested[j], memo)
    requires forall j | k <= j < |attested| :: x.height < attested[j].height
    ensures Decided(x, atts, memo)
  {
  }

  lemma ThroughDecides(atts: seq<Attestation>, attested: seq<Attestation>, memo: Memo)
    requires SortOf(attested, atts) && atts != []
    requires forall j | 0 <= j < |attested| :: Refuses(attested[j], memo)
    ensures Final(atts, memo) && Decision(atts, memo) == FailedProof
  {
    forall x | x in atts ensures Decided(x, atts, memo) && Refuses(x, memo) {
      EarlierDecided(atts, attested, |attested|, x, memo);
      var j :| 0 <= j < |attested| && attested[j] == x;
    }
    assert atts[0] in atts;
    assert Refuses(atts[0], memo);
    assert Contradicted(atts[0], atts, memo);
  }
}
