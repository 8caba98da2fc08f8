/**
 Base receipts: what anchoring writes beside a block (`write_base_receipt` in
 aikiri_ledger/witness.py) and what sealing reads there (`_base_tx` in
 aikiri_ledger/seal.py).
 */
module Receipts {
  import opened Wrappers
  import opened Bytes
  import opened Canonical
  import opened Blocks

  /** A regular file where the receipt would be. */
  datatype ReceiptFile = NotJson | Receipt(json: Json)

  /** An integer as Python compares it: `True` is 1 and `False` is 0. */
  predicate EqualsInt(j: Option<Json>, n: int) {
    j == Some(Int(n)) || (j == Some(Bool(true)) && n == 1) || (j == Some(Bool(false)) && n == 0)
  }

  /** `str(tx or "")`, where that can be a hash: of a string or an integer. */
  function TxText(j: Option<Json>): (s: string) {
    match j
    case Some(Str(s)) => s
    case Some(Int(n)) => if n == 0 then "" else PrintInt(n)
    case _ => ""
  }

  function Bare(tx: string): (s: string) {
    if |tx| >= 2 && tx[0] == '0' && tx[1] == 'x' then tx[2..] else tx
  }

  /** `_base_tx`: no transaction where there is no receipt, and none at all, which is a
      refusal, where there is one that is not this block's or names no transaction. */
  function BaseTx(receipts: map<int, ReceiptFile>, b: Block): (r: Option<Option<string>>)
  {
    if b.index !in receipts then Some(None)
    else
      match receipts[b.index]
      case Receipt(Obj(ms)) =>
        if EqualsInt(Get(ms, "index"), b.index) && Get(ms, "hash") == Some(Str(b.hash)) && IsHex64(Bare(TxText(Get(ms, "tx"))))
        then Some(Some("0x" + Bare(TxText(Get(ms, "tx")))))
        else None
      case _ => None
  }

  /** `write_base_receipt`. */
  function BaseReceipt(b: Block, tx: string, contract: string, chainId: int, costs: seq<Member>): (j: Json)
    ensures j.Obj?
  {
    Obj([Member("index", Int(b.index)), Member("hash", Str(b.hash)), Member("tx", Str(tx)),
         Member("contract", Str(contract)), Member("chainId", Int(chainId))] + costs)
  }

  lemma ReceiptHolds(b: Block, tx: string, contract: string, chainId: int, costs: seq<Member>)
    ensures var ms := BaseReceipt(b, tx, contract, chainId, costs).members;
      && Get(ms, "index") == Some(Int(b.index)) && Get(ms, "hash") == Some(Str(b.hash))
      && Get(ms, "tx") == Some(Str(tx))
  {
    var ms := BaseReceipt(b, tx, contract, chainId, costs).members;
    assert ms[0].key == "index" && ms[1].key == "hash" && ms[2].key == "tx";
    assert ms[1..][0] == ms[1] && ms[1..][1..][0] == ms[2];
    assert Get(ms[1..][1..], "tx") == Some(ms[2].value);
    assert Get(ms[1..], "tx") == Get(ms[1..][1..], "tx");
  }

  lemma BareIff(tx: string, sha: string)
    requires IsHex64(sha)
    ensures Bare(tx) == sha <==> tx == sha || tx == "0x" + sha
  {
    assert IsHexDigit(sha[1]);
    if |tx| >= 2 && tx[0] == '0' && tx[1] == 'x' {
      assert tx == "0x" + tx[2..];
    }
    assert ("0x" + sha)[2..] == sha;
  }

  /** The receipt anchoring writes for a block reads back as its transaction exactly
      when that transaction is a hash, with or without 0x. */
  lemma ReceiptReadsBackIff(receipts: map<int, ReceiptFile>, b: Block, tx: string, contract: string, chainId: int,
                            costs: seq<Member>, sha: string)
    requires b.index in receipts && receipts[b.index] == Receipt(BaseReceipt(b, tx, contract, chainId, costs))
    ensures BaseTx(receipts, b) == Some(Some("0x" + sha)) <==> IsHex64(sha) && (tx == sha || tx == "0x" + sha)
    ensures BaseTx(receipts, b) != Some(None)
  {
    hide IsHex64, Bare, Get, BaseReceipt;
    ReceiptHolds(b, tx, contract, chainId, costs);
    assert ("0x" + Bare(tx))[2..] == Bare(tx) && ("0x" + sha)[2..] == sha;
    if IsHex64(sha) {
      BareIff(tx, sha);
    }
  }

  /** A receipt's `tx` is this hash: as text, with 0x or without, or as a number that is
      written with just these digits. */
  ghost predicate NamesTx(j: Option<Json>, sha: string) {
    j == Some(Str(sha)) || j == Some(Str("0x" + sha)) || exists n :: j == Some(Int(n)) && PrintInt(n) == sha
  }

  lemma TxIff(j: Option<Json>, sha: string)
    requires IsHex64(sha)
    ensures Bare(TxText(j)) == sha <==> NamesTx(j, sha)
  {
    match j
    case Some(Str(s)) => BareIff(s, sha);
    case Some(Int(n)) =>
      if n != 0 {
        BareIff(PrintInt(n), sha);
        DecimalValue(if n < 0 then -n else n);
        assert PrintInt(n) != "0x" + sha by {
          assert ("0x" + sha)[1] == 'x' && ("0x" + sha)[0] == '0';
        }
      } else {
        assert PrintInt(0) == "0";
      }
    case _ =>
  }

  /** No transaction yet exactly where there is no receipt; and this one exactly where the
      receipt is an object with this block's index and hash that names it. */
  lemma BaseTxIff(receipts: map<int, ReceiptFile>, b: Block, sha: string)
    ensures BaseTx(receipts, b) == Some(None) <==> b.index !in receipts
    ensures BaseTx(receipts, b) == Some(Some("0x" + sha)) <==>
      && IsHex64(sha)
      && b.index in receipts && receipts[b.index].Receipt? && receipts[b.index].json.Obj?
      && var ms := receipts[b.index].json.members;
         && (Get(ms, "index") == Some(Int(b.index)) || (b.index == 1 && Get(ms, "index") == Some(Bool(true)))
             || (b.index == 0 && Get(ms, "index") == Some(Bool(false))))
         && Get(ms, "hash") == Some(Str(b.hash)) && NamesTx(Get(ms, "tx"), sha)
  {
    hide IsHex64, Bare, Get, TxText, NamesTx;
    if b.index in receipts && receipts[b.index].Receipt? && receipts[b.index].json.Obj? {
      var tx := Bare(TxText(Get(receipts[b.index].json.members, "tx")));
      assert ("0x" + tx)[2..] == tx && ("0x" + sha)[2..] == sha;
      if IsHex64(sha) {
        TxIff(Get(receipts[b.index].json.members, "tx"), sha);
      }
    }
  }

  /** Another block's receipt is never taken for this one's. */
  lemma OthersReceiptIsRefused(receipts: map<int, ReceiptFile>, b: Block, other: Block, tx: string, contract: string,
                               chainId: int, costs: seq<Member>)
    requires b.index in receipts && receipts[b.index] == Receipt(BaseReceipt(other, tx, contract, chainId, costs))
    requires b.index != other.index || b.hash != other.hash
    ensures BaseTx(receipts, b) == None
  {
    ReceiptHolds(other, tx, contract, chainId, costs);
  }

  /** `reconcile` writes a receipt with no transaction for a marker that names none; no
      document of that block can be reported sealed from it. */
  lemma ReceiptWithoutTxIsRefused(receipts: map<int, ReceiptFile>, b: Block, contract: string, chainId: int, costs: seq<Member>)
    requires b.index in receipts && receipts[b.index] == Receipt(BaseReceipt(b, "", contract, chainId, costs))
    ensures BaseTx(receipts, b) == None
  {
    ReceiptHolds(b, "", contract, chainId, costs);
  }
}
