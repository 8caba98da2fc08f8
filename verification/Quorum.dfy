/**
 Several readers of one contract (aikiri_ledger/witness.py, `QuorumBase`): what their
 majority says, and why few liars cannot bend it.
 */
module Quorum {
  import opened Wrappers
  import opened VerifyChain
  import opened VerifyAll
  import opened Crypto
  import opened Disks
  import opened Blocks
  import opened BasePrefix
  import Contract

  datatype QuorumError = TooFew | Disagree

  /** `quorum or (len(readers) // 2 + 1)`. */
  function QuorumOf(readers: nat, given: Option<nat>): (quorum: nat)
    ensures quorum > 0
    ensures given.None? || given == Some(0) ==> 2 * (quorum - 1) <= readers < 2 * quorum
    ensures given.Some? && given.value > 0 ==> quorum == given.value
  {
    if given.Some? && given.value != 0 then given.value else readers / 2 + 1
  }

  /** The readers that answered. */
  function Voters<T>(said: seq<Answer<T>>): (voters: set<nat>)
    ensures forall i :: i in voters <==> 0 <= i < |said| && said[i].Answered?
  {
    set i: nat | i < |said| && said[i].Answered?
  }

  ghost predicate Unanimous<T>(said: seq<Answer<T>>) {
    forall i, j | i in Voters(said) && j in Voters(said) :: said[i].v == said[j].v
  }

  /** What a read of the quorum comes to. */
  ghost function Tally<T>(quorum: nat, said: seq<Answer<T>>): (r: Result<T, QuorumError>)
    requires quorum > 0
    ensures r.Ok? <==> |Voters(said)| >= quorum && Unanimous(said)
    ensures r.Ok? ==> forall i | i in Voters(said) :: said[i].v == r.value
  {
    if |Voters(said)| < quorum then Err(TooFew)
    else if !Unanimous(said) then Err(Disagree)
    else
      var i :| i in Voters(said);
      Ok(said[i].v)
  }

  /** Exactly what the voters said. */
  ghost predicate Collects<T>(answers: seq<T>, said: seq<Answer<T>>) {
    && |answers| == |Voters(said)|
    && (forall i | i in Voters(said) :: said[i].v in answers)
    && (forall v | v in answers :: exists i :: i in Voters(said) && said[i].v == v)
  }

  lemma CollectsMore<T>(answers: seq<T>, said: seq<Answer<T>>, next: Answer<T>)
    requires Collects(answers, said)
    ensures Collects(if next.Answered? then answers + [next.v] else answers, said + [next])
  {
    var k := |said|;
    var more := said + [next];
    assert Voters(more) == Voters(said) + if next.Answered? then {k} else {};
    forall v | v in answers ensures exists i :: i in Voters(more) && more[i].v == v {
      var i :| i in Voters(said) && said[i].v == v;
      assert i in Voters(more) && more[i].v == v;
    }
    if next.Answered? {
      assert more[k] == next;
      assert (answers + [next.v])[|answers|] == next.v;
    }
  }

  /** The loop both reads share: whoever cannot answer does not vote. */
  method Collect<T>(said: seq<Answer<T>>) returns (answers: seq<T>)
    ensures Collects(answers, said)
  {
    answers := [];
    for k := 0 to |said|
      invariant Collects(answers, said[..k])
    {
      CollectsMore(answers, said[..k], said[k]);
      assert said[..k + 1] == said[..k] + [said[k]];
      if said[k].Answered? {
        answers := answers + [said[k].v];
      }
    }
    assert said[..|said|] == said;
  }

  lemma UnanimousIffOne<T>(answers: seq<T>, said: seq<Answer<T>>)
    requires Collects(answers, said) && answers != []
    ensures Unanimous(said) <==> forall v | v in answers :: v == answers[0]
    ensures Unanimous(said) ==> forall i | i in Voters(said) :: said[i].v == answers[0]
  {
    assert answers[0] in answers;
    var k :| k in Voters(said) && said[k].v == answers[0];
    if Unanimous(said) {
      forall v | v in answers ensures v == answers[0] {
        var i :| i in Voters(said) && said[i].v == v;
      }
    }
  }

  /** `_gather`. */
  method Gather<T(==)>(quorum: nat, said: seq<Answer<T>>) returns (r: Result<T, QuorumError>)
    requires quorum > 0
    ensures r == Tally(quorum, said)
  {
    var answers := Collect(said);
    if |answers| < quorum {
      return Err(TooFew);
    }
    UnanimousIffOne(answers, said);
    var distinct := set v | v in answers;
    OneDistinct(answers);
    if |distinct| > 1 {
      return Err(Disagree);
    }
    return Ok(answers[0]);
  }

  lemma OneDistinct<T>(answers: seq<T>)
    requires answers != []
    ensures |set v | v in answers| > 1 <==> exists v :: v in answers && v != answers[0]
  {
    var distinct := set v | v in answers;
    var rest := distinct - {answers[0]};
    assert answers[0] in distinct;
    assert |rest| == |distinct| - 1;
    if |rest| > 0 {
      var v :| v in rest;
      assert v in answers && v != answers[0];
    }
    if v :| v in answers && v != answers[0] {
      assert v in rest;
    }
  }

  /** A voter outside a smaller set of readers. */
  lemma {:induction false} SomeOutside(voters: set<nat>, others: set<nat>)
    requires |voters| > |others|
    ensures exists i :: i in voters && i !in others
  {
    if voters <= others {
      NotMore(voters, others);
    }
  }

  lemma {:induction false} NotMore(part: set<nat>, whole: set<nat>)
    requires part <= whole
    ensures |part| <= |whole|
  {
    if part != {} {
      var i :| i in part;
      NotMore(part - {i}, whole - {i});
    }
  }

  lemma {:induction false} Numbered(s: set<nat>, n: nat)
    requires forall i | i in s :: i < n
    ensures |s| <= n
  {
    if n > 0 {
      Numbered(s - {n - 1}, n - 1);
    } else {
      assert s == {};
    }
  }

  /** With fewer liars than the quorum, whatever it returns is the truth. */
  lemma LiarsCannotCarry<T>(quorum: nat, said: seq<Answer<T>>, liars: set<nat>, truth: T)
    requires quorum > 0 && |liars| < quorum
    requires forall i: nat | i < |said| && i !in liars && said[i].Answered? :: said[i].v == truth
    ensures Tally(quorum, said).Ok? ==> Tally(quorum, said).value == truth
  {
    if Tally(quorum, said).Ok? {
      SomeOutside(Voters(said), liars);
    }
  }

  /** Two reads that each reach a majority share a reader; so if every reader that
      answers both gives one answer, the two reads agree, whoever is lying. */
  lemma MajoritiesAgree<T>(quorum: nat, first: seq<Answer<T>>, second: seq<Answer<T>>)
    requires |first| == |second| < 2 * quorum
    requires forall i | 0 <= i < |first| && first[i].Answered? && second[i].Answered? :: first[i] == second[i]
    ensures Tally(quorum, first).Ok? && Tally(quorum, second).Ok? ==> Tally(quorum, first) == Tally(quorum, second)
  {
    if Tally(quorum, first).Ok? && Tally(quorum, second).Ok? {
      var a, b := Voters(first), Voters(second);
      if a * b == {} {
        assert |a + b| == |a| + |b|;
        Numbered(a + b, |first|);
      } else {
        var i :| i in a * b;
        assert first[i].v == second[i].v;
      }
    }
  }

  /******* The height they share *******/

  ghost predicate IsLowest(h: nat, heights: seq<Answer<nat>>) {
    && (forall i | i in Voters(heights) :: h <= heights[i].v)
    && exists i :: i in Voters(heights) && heights[i].v == h
  }

  /** `min(heights)`. */
  function MinOf(xs: seq<nat>): (m: nat)
    requires xs != []
    ensures m in xs && forall x | x in xs :: m <= x
  {
    if |xs| == 1 then xs[0]
    else
      var m := MinOf(xs[1..]);
      assert xs == [xs[0]] + xs[1..];
      if xs[0] < m then xs[0] else m
  }

  /** `common_block`: the lowest finalized height reported, if a quorum reported one. */
  method CommonBlock(quorum: nat, heights: seq<Answer<nat>>) returns (r: Result<nat, QuorumError>)
    requires quorum > 0
    ensures r == Common(quorum, heights)
  {
    var reported := Collect(heights);
    if |reported| < quorum {
      return Err(TooFew);
    }
    return Ok(MinOf(reported));
  }

  lemma {:induction false} SomeLowest(heights: seq<Answer<nat>>)
    requires Voters(heights) != {}
    ensures exists h :: IsLowest(h, heights)
  {
    var k := |heights| - 1;
    var before := heights[..k];
    assert heights == before + [heights[k]];
    assert Voters(heights) == Voters(before) + if heights[k].Answered? then {k} else {};
    if Voters(before) == {} {
      assert IsLowest(heights[k].v, heights);
    } else {
      SomeLowest(before);
      var h :| IsLowest(h, before);
      var i :| i in Voters(before) && before[i].v == h;
      assert heights[i].v == h;
      if heights[k].Answered? && heights[k].v < h {
        assert IsLowest(heights[k].v, heights);
      } else {
        assert IsLowest(h, heights);
      }
    }
  }

  ghost function Common(quorum: nat, heights: seq<Answer<nat>>): (r: Result<nat, QuorumError>)
    requires quorum > 0
    ensures r.Ok? <==> |Voters(heights)| >= quorum
    ensures r.Ok? ==> IsLowest(r.value, heights)
  {
    if |Voters(heights)| < quorum then Err(TooFew)
    else
      SomeLowest(heights);
      var h :| IsLowest(h, heights);
      Ok(h)
  }

  /******* The quorum as a witness *******/

  datatype Reader = Reader(
    finalized: Answer<nat>,
    latestIndex: nat -> Answer<nat>,                 // at a height
    matches: (nat, string, nat) -> Answer<bool>,     // at a height
    codeHash: nat -> Answer<string>,                 // at a height
    genesisHash: Answer<Option<string>>,
    owner: Answer<Option<string>>,
    record: nat -> Answer<Option<Record>>)

  ghost function Asked<T>(readers: seq<Reader>, ask: Reader -> Answer<T>): (said: seq<Answer<T>>)
    ensures |said| == |readers|
    ensures forall i | 0 <= i < |readers| :: said[i] == ask(readers[i])
  {
    seq(|readers|, i requires 0 <= i < |readers| => ask(readers[i]))
  }

  ghost function Read<T>(quorum: nat, readers: seq<Reader>, ask: Reader -> Answer<T>): (a: Answer<T>)
    requires quorum > 0
  {
    var r := Tally(quorum, Asked(readers, ask));
    if r.Ok? then Answered(r.value) else Failed
  }

  ghost function At(quorum: nat, readers: seq<Reader>): (r: Result<nat, QuorumError>)
    requires quorum > 0
  {
    Common(quorum, Asked(readers, (r: Reader) => r.finalized))
  }

  ghost function ReadAt<T>(quorum: nat, readers: seq<Reader>, ask: (Reader, nat) -> Answer<T>): (a: Answer<T>)
    requires quorum > 0
  {
    var at := At(quorum, readers);
    if at.Err? then Failed else Read(quorum, readers, r => ask(r, at.value))
  }

  /** One read the verifier makes through the quorum. */
  datatype Call =
    | CallGenesis | CallOwner | CallCode | CallLatest
    | CallMatches(index: nat, hash: string)
    | CallRecord(index: nat)

  /** The readers as they are while a call is made: between calls heights move, and
      readers come and go. */
  type Readers = Call -> seq<Reader>

  /** What the verifier reads through the quorum; each call finds its own common height. */
  ghost function View(quorum: nat, address: Option<string>, readers: Readers): (view: BaseView)
    requires quorum > 0
  {
    BaseView(
      address,
      Read(quorum, readers(CallGenesis), (r: Reader) => r.genesisHash),
      Read(quorum, readers(CallOwner), (r: Reader) => r.owner),
      Some(ReadAt(quorum, readers(CallCode), (r: Reader, at) => r.codeHash(at))),
      ReadAt(quorum, readers(CallLatest), (r: Reader, at) => r.latestIndex(at)),
      (i: nat, h) => ReadAt(quorum, readers(CallMatches(i, h)), (r: Reader, at) => r.matches(i, h, at)),
      (i: nat) => Read(quorum, readers(CallRecord(i)), (r: Reader) => r.record(i)))
  }

  /** The common height of each call. */
  ghost function HeightsOf(quorum: nat, readers: Readers): (at: Heights)
    requires quorum > 0
  {
    Heights(HeightOf(quorum, readers(CallLatest)), (i: nat, h) => HeightOf(quorum, readers(CallMatches(i, h))))
  }

  ghost function HeightOf(quorum: nat, readers: seq<Reader>): (h: nat)
    requires quorum > 0
  {
    var at := At(quorum, readers);
    if at.Ok? then at.value else 0
  }

  /** A reader that, up to the height it calls final, answers with the truth or not at all. */
  ghost predicate Truthful(r: Reader, history: History) {
    forall at: nat | r.finalized.Answered? ==> at <= r.finalized.v ::
      && (r.latestIndex(at).Answered? ==> r.latestIndex(at).v == history(at).latestIndex)
      && (forall i, h :: r.matches(i, h, at).Answered? ==> r.matches(i, h, at).v == Contract.Matches(history(at), i, h))
  }

  ghost function Liars(readers: seq<Reader>, history: History): (liars: set<nat>) {
    set i: nat | i < |readers| && !Truthful(readers[i], history)
  }

  /** During no call do liars make a quorum. */
  ghost predicate FewLiars(quorum: nat, readers: Readers, history: History) {
    forall call :: |Liars(readers(call), history)| < quorum
  }

  lemma ReadAtIsTrue<T>(quorum: nat, readers: seq<Reader>, ask: (Reader, nat) -> Answer<T>, history: History, truth: T)
    requires quorum > 0 && |Liars(readers, history)| < quorum
    requires At(quorum, readers).Ok? ==>
      forall r: Reader | Truthful(r, history) && (r.finalized.Answered? ==> At(quorum, readers).value <= r.finalized.v) ::
        ask(r, At(quorum, readers).value).Answered? ==> ask(r, At(quorum, readers).value).v == truth
    ensures ReadAt(quorum, readers, ask).Answered? ==> ReadAt(quorum, readers, ask).v == truth
  {
    if At(quorum, readers).Ok? {
      var at := At(quorum, readers).value;
      var heights := Asked(readers, (r: Reader) => r.finalized);
      var said := Asked(readers, r => ask(r, at));
      forall i: nat | i < |said| && i !in Liars(readers, history) && said[i].Answered?
        ensures said[i].v == truth
      {
        assert Truthful(readers[i], history);
        assert heights[i].Answered? ==> i in Voters(heights);
      }
      LiarsCannotCarry(quorum, said, Liars(readers, history), truth);
    }
  }

  lemma LatestIsTrue(quorum: nat, readers: seq<Reader>, history: History)
    requires quorum > 0 && |Liars(readers, history)| < quorum
    ensures var a := ReadAt(quorum, readers, (r: Reader, at) => r.latestIndex(at));
      a.Answered? ==> a.v == history(HeightOf(quorum, readers)).latestIndex
  {
    hide Common, Tally, Liars;
    var truth := history(HeightOf(quorum, readers)).latestIndex;
    ReadAtIsTrue(quorum, readers, (r: Reader, at) => r.latestIndex(at), history, truth);
  }

  lemma MatchIsTrue(quorum: nat, readers: seq<Reader>, history: History, i: nat, h: string)
    requires quorum > 0 && |Liars(readers, history)| < quorum
    ensures var a := ReadAt(quorum, readers, (r: Reader, at) => r.matches(i, h, at));
      a.Answered? ==> a.v == Contract.Matches(history(HeightOf(quorum, readers)), i, h)
  {
    hide Common, Tally, Liars, Contract.Matches;
    var truth := Contract.Matches(history(HeightOf(quorum, readers)), i, h);
    ReadAtIsTrue(quorum, readers, (r: Reader, at) => r.matches(i, h, at), history, truth);
  }

  /** With fewer liars than the quorum during each call, the quorum is an honest witness:
      each answer is true of the contract at the height that call found in common. */
  lemma QuorumIsHonest(quorum: nat, address: Option<string>, readers: Readers, history: History)
    requires quorum > 0 && FewLiars(quorum, readers, history)
    ensures Honest(View(quorum, address, readers), history, HeightsOf(quorum, readers))
  {
    hide ReadAt, Read, HeightOf, Liars, Contract.Matches;
    LatestIsTrue(quorum, readers(CallLatest), history);
    var view := View(quorum, address, readers);
    forall i: nat, h ensures view.matches(i, h).Answered? ==>
      view.matches(i, h).v == Contract.Matches(history(HeightsOf(quorum, readers).matches(i, h)), i, h)
    {
      MatchIsTrue(quorum, readers(CallMatches(i, h)), history, i, h);
    }
  }

  /** The readers that answer something else. */
  ghost function Dissenters<T>(readers: seq<Reader>, ask: Reader -> Answer<T>, truth: T): (others: set<nat>) {
    set i: nat | i < |readers| && ask(readers[i]).Answered? && ask(readers[i]).v != truth
  }

  lemma ReadIsTold<T>(quorum: nat, readers: seq<Reader>, ask: Reader -> Answer<T>, truth: T)
    requires quorum > 0 && |Dissenters(readers, ask, truth)| < quorum
    ensures Read(quorum, readers, ask).Answered? ==> Read(quorum, readers, ask).v == truth
  {
    var said := Asked(readers, ask);
    LiarsCannotCarry(quorum, said, Dissenters(readers, ask, truth), truth);
  }

  ghost function DissentersAt<T>(readers: seq<Reader>, ask: (Reader, nat) -> Answer<T>, at: nat, truth: T): (others: set<nat>) {
    set i: nat | i < |readers| && ask(readers[i], at).Answered? && ask(readers[i], at).v != truth
  }

  lemma ReadAtIsTold<T>(quorum: nat, readers: seq<Reader>, ask: (Reader, nat) -> Answer<T>, truth: T)
    requires quorum > 0 && |DissentersAt(readers, ask, HeightOf(quorum, readers), truth)| < quorum
    ensures ReadAt(quorum, readers, ask).Answered? ==> ReadAt(quorum, readers, ask).v == truth
  {
    if At(quorum, readers).Ok? {
      var at := At(quorum, readers).value;
      assert Dissenters(readers, r => ask(r, at), truth) == DissentersAt(readers, ask, at, truth);
      ReadIsTold(quorum, readers, r => ask(r, at), truth);
    }
  }

  /** The pins and records too: each is what the readers tell, unless a quorum of them
      tell otherwise; the address is the first reader's. */
  lemma QuorumTellsPins(quorum: nat, address: Option<string>, readers: Readers, genesis: Option<string>, owner: Option<string>,
                        code: string, i: nat, rec: Option<Record>)
    requires quorum > 0
    requires |Dissenters(readers(CallGenesis), (r: Reader) => r.genesisHash, genesis)| < quorum
    requires |Dissenters(readers(CallOwner), (r: Reader) => r.owner, owner)| < quorum
    requires |Dissenters(readers(CallRecord(i)), (r: Reader) => r.record(i), rec)| < quorum
    requires |DissentersAt(readers(CallCode), (r: Reader, at) => r.codeHash(at), HeightOf(quorum, readers(CallCode)), code)| < quorum
    ensures var view := View(quorum, address, readers);
      && view.address == address
      && (view.genesisHash.Answered? ==> view.genesisHash.v == genesis)
      && (view.owner.Answered? ==> view.owner.v == owner)
      && (view.record(i).Answered? ==> view.record(i).v == rec)
      && (view.codeHash.Some? && (view.codeHash.value.Answered? ==> view.codeHash.value.v == code))
  {
    hide Read, ReadAt, HeightOf, Dissenters, DissentersAt;
    ReadIsTold(quorum, readers(CallGenesis), (r: Reader) => r.genesisHash, genesis);
    ReadIsTold(quorum, readers(CallOwner), (r: Reader) => r.owner, owner);
    ReadIsTold(quorum, readers(CallRecord(i)), (r: Reader) => r.record(i), rec);
    ReadAtIsTold(quorum, readers(CallCode), (r: Reader, at) => r.codeHash(at), code);
  }

  /** Ledgers that two quorums call BASE VERIFIED, at whatever heights of one contract's
      history, are one the beginning of the other, or two of their blocks collide. */
  lemma QuorumLedgersExtend(w: World, t1: Trust, t2: Trust, d1: Disk, d2: Disk, q1: nat, q2: nat,
                            a1: Option<string>, a2: Option<string>, readers1: Readers, readers2: Readers,
                            b1: Option<Bitcoin>, b2: Option<Bitcoin>, history: History)
    requires Grows(history)
    requires q1 > 0 && FewLiars(q1, readers1, history) && q2 > 0 && FewLiars(q2, readers2, history)
    requires HeightsOf(q1, readers1).latest <= HeightsOf(q2, readers2).latest
    requires Witnessed(w, t1, d1, View(q1, a1, readers1), b1) && Witnessed(w, t2, d2, View(q2, a2, readers2), b2)
    ensures var early, late := BlocksOf(w, d1), BlocksOf(w, d2);
      && |early| <= |late|
      && forall i | 0 <= i < |early| ::
           Body(early[i]) == Body(late[i]) || Clash(w, early[i], late[i])
  {
    hide Witnessed, Honest, View, HeightsOf, FewLiars, Body, Clash, Grows;
    QuorumIsHonest(q1, a1, readers1, history);
    QuorumIsHonest(q2, a2, readers2, history);
    LaterLedgersExtend(w, t1, t2, d1, d2, View(q1, a1, readers1), View(q2, a2, readers2), b1, b2, history,
                       HeightsOf(q1, readers1), HeightsOf(q2, readers2));
  }
}
