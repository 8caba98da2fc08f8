/**
 The byte strings that are hashed and signed (aikiri_ledger/canonical.py,
 aikiri_ledger/approval.py): canonical JSON behind a domain prefix.
 */
module Messages {
  import opened Bytes
  import opened Canonical

  const BLOCK_DOMAIN_V2 := "aikiri-ledger/block/v2\n"
  const APPROVAL_DOMAIN_V1 := "aikiri-ledger/approval/v1\n"
  const REQUEST_DOMAIN_V1 := "aikiri-ledger/request/v1\n"
  const TRUST_DOMAIN_V1 := "aikiri-ledger/trust/v1\n"

  datatype Domain = BlockDomain | ApprovalDomain | RequestDomain | TrustDomain
  {
    function Prefix(): (s: string)
      ensures |s| > 14 && s[0] == 'a'
    {
      match this
      case BlockDomain => BLOCK_DOMAIN_V2
      case ApprovalDomain => APPROVAL_DOMAIN_V1
      case RequestDomain => REQUEST_DOMAIN_V1
      case TrustDomain => TRUST_DOMAIN_V1
    }
  }

  /** What `domain_hash` hashes and a device signs: a prefix, then canonical JSON. */
  function Tagged(d: Domain, j: Json): (b: Bytes) {
    Utf8(d.Prefix() + Print(j, true))
  }

  lemma PrefixesPart(c: Domain, d: Domain)
    requires c.Prefix()[14] == d.Prefix()[14]
    ensures c == d
  {
  }

  lemma AfterPrefix(p: string, s: string, t: string)
    requires p + s == p + t
    ensures s == t
  {
    assert (p + s)[|p|..] == s && (p + t)[|p|..] == t;
  }

  /** The prefixes part at one character, so bytes made for one purpose are never
      bytes for another, and within a purpose they name one value. */
  lemma TaggedInjective(c: Domain, d: Domain, j: Json, k: Json)
    requires Tagged(c, j) == Tagged(d, k)
    ensures c == d && j == k
  {
    var s, t := c.Prefix() + Print(j, true), d.Prefix() + Print(k, true);
    Utf8Injective(s, t);
    assert s[14] == c.Prefix()[14] && t[14] == d.Prefix()[14];
    PrefixesPart(c, d);
    AfterPrefix(c.Prefix(), Print(j, true), Print(k, true));
    PrintInjective(j, k, true);
  }

  /** A v1 block is hashed bare, from its opening brace; no prefix starts like that. */
  lemma BareIsNotTagged(members: seq<Member>, d: Domain, k: Json)
    requires members != []
    ensures Utf8(Print(Obj(members), false)) != Tagged(d, k)
  {
    var s, t := Print(Obj(members), false), d.Prefix() + Print(k, true);
    assert s[0] == '{' && t[0] == 'a';
    if Utf8(s) == Utf8(t) {
      Utf8Injective(s, t);
    }
  }

  /******* Approval *******/

  datatype Root = Root(kind: string, sha256: string)

  function RootJson(r: Root): (j: Json) {
    Obj([Member("kind", Str(r.kind)), Member("sha256", Str(r.sha256))])
  }

  function RootsJson(roots: seq<Root>): (j: Json)
    ensures j.Arr? && |j.items| == |roots|
    ensures forall i | 0 <= i < |roots| :: j.items[i] == RootJson(roots[i])
  {
    Arr(seq(|roots|, i requires 0 <= i < |roots| => RootJson(roots[i])))
  }

  lemma RootsJsonInjective(a: seq<Root>, b: seq<Root>)
    requires RootsJson(a) == RootsJson(b)
    ensures a == b
  {
  }

  /** What an approval is for. */
  datatype Statement = Statement(index: int, prevHash: string, roots: seq<Root>, nonce: string, validator: string)

  function StatementJson(s: Statement): (j: Json) {
    Obj([Member("index", Int(s.index)),
         Member("nonce", Str(s.nonce)),
         Member("prev_hash", Str(s.prevHash)),
         Member("roots", RootsJson(s.roots)),
         Member("validator", Str(s.validator))])
  }

  lemma StatementKeysSorted(s: Statement)
    ensures InKeyOrder(Keys(StatementJson(s).members))
  {
  }

  /** The exact bytes a device signs. */
  function ApprovalMessage(s: Statement): (b: Bytes) {
    Tagged(ApprovalDomain, StatementJson(s))
  }

  /** One message, one statement: changing any field changes the bytes. */
  lemma ApprovalMessageInjective(a: Statement, b: Statement)
    requires ApprovalMessage(a) == ApprovalMessage(b)
    ensures a == b
  {
    var ja, jb := StatementJson(a), StatementJson(b);
    TaggedInjective(ApprovalDomain, ApprovalDomain, ja, jb);
    assert ja.members[0].value == jb.members[0].value;
    assert ja.members[1].value == jb.members[1].value;
    assert ja.members[2].value == jb.members[2].value;
    assert ja.members[3].value == jb.members[3].value;
    assert ja.members[4].value == jb.members[4].value;
    RootsJsonInjective(a.roots, b.roots);
  }
}
