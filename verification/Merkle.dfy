/**
 The v1 Merkle root (aikiri_ledger/chain.py, `merkle_root`): levels are hashed in
 pairs, and a level of odd length repeats its last node.
 */
module Merkle {
  import opened Wrappers
  import opened Bytes
  import opened Crypto

  function Joined(left: Bytes, right: Bytes): (b: Bytes) {
    left + right
  }

  /** What is hashed for pair `i` of a level. */
  function Pair(level: seq<Digest>, i: nat): (b: Bytes)
    requires 2 * i < |level|
    ensures |b| == 64
  {
    Joined(level[2 * i], if 2 * i + 1 < |level| then level[2 * i + 1] else level[2 * i])
  }

  function NodeAbove(w: World, level: seq<Digest>, i: nat): (node: Digest)
    requires 2 * i < |level|
  {
    w.sha(Pair(level, i))
  }

  function Up(w: World, level: seq<Digest>): (up: seq<Digest>)
    ensures |up| == (|level| + 1) / 2
    ensures forall i | 0 <= i < |up| :: up[i] == w.sha(Pair(level, i))
  {
    seq((|level| + 1) / 2, i requires 0 <= i < (|level| + 1) / 2 => NodeAbove(w, level, i))
  }

  /** The top of the levels. */
  function Top(w: World, level: seq<Digest>): (root: Digest)
    requires level != []
    decreases |level|
  {
    if |level| == 1 then level[0] else Top(w, Up(w, level))
  }

  /******* The tree *******/

  function Pow2(h: nat): (n: nat)
    ensures n >= 1
  {
    if h == 0 then 1 else 2 * Pow2(h - 1)
  }

  function Height(n: nat): (h: nat)
    requires n > 0
    ensures n <= Pow2(h)
    ensures h > 0 ==> n > Pow2(h - 1)
  {
    if n == 1 then 0 else 1 + Height((n + 1) / 2)
  }

  /** A perfect tree of height `h` over the leaves, from the root down: a missing
      right subtree is a copy of the left one. */
  function Tree(w: World, leaves: seq<Digest>, h: nat): (root: Digest)
    requires 0 < |leaves| <= Pow2(h)
    decreases h
  {
    if h == 0 then leaves[0]
    else
      var half := Pow2(h - 1);
      var left := Tree(w, if |leaves| <= half then leaves else leaves[..half], h - 1);
      var right := if |leaves| <= half then left else Tree(w, leaves[half..], h - 1);
      w.sha(left + right)
  }

  lemma {:induction false} UpOfTree(w: World, leaves: seq<Digest>, h: nat)
    requires 0 < |leaves| <= Pow2(h + 1)
    ensures Tree(w, leaves, h + 1) == Tree(w, Up(w, leaves), h)
  {
    var half := Pow2(h);
    if h > 0 {
      if |leaves| <= half {
        UpOfTree(w, leaves, h - 1);
      } else {
        var a, b := leaves[..half], leaves[half..];
        UpOfTree(w, a, h - 1);
        UpOfTree(w, b, h - 1);
        UpSplits(w, leaves, Pow2(h - 1));
        assert Up(w, leaves)[..Pow2(h - 1)] == Up(w, a);
        assert Up(w, leaves)[Pow2(h - 1)..] == Up(w, b);
      }
    } else {
      assert Up(w, leaves)[0] == w.sha(Pair(leaves, 0));
      assert |leaves| == 2 ==> leaves[..1] == [leaves[0]] && leaves[1..] == [leaves[1]];
    }
  }

  lemma UpSplits(w: World, level: seq<Digest>, k: nat)
    requires 2 * k <= |level|
    ensures Up(w, level) == Up(w, level[..2 * k]) + Up(w, level[2 * k..])
  {
    var a, b := level[..2 * k], level[2 * k..];
    forall i | 0 <= i < |Up(w, level)|
      ensures Up(w, level)[i] == (Up(w, a) + Up(w, b))[i]
    {
      if i < k {
        assert Pair(level, i) == Pair(a, i);
      } else {
        assert Pair(level, i) == Pair(b, i - k);
      }
    }
  }

  /** Climbing the levels and descending the tree meet in one root. */
  lemma {:induction false} TopIsTree(w: World, level: seq<Digest>)
    requires level != []
    ensures Top(w, level) == Tree(w, level, Height(|level|))
    decreases |level|
  {
    if |level| > 1 {
      TopIsTree(w, Up(w, level));
      UpOfTree(w, level, Height(|Up(w, level)|));
    }
  }

  /******* The loop *******/

  function DigestOf(leaf: string): (d: Digest)
    requires IsHex64(leaf)
    ensures d == FromHex(leaf)
  {
    FromHex(leaf)
  }

  function Digests(leaves: seq<string>): (ds: seq<Digest>)
    requires forall i | 0 <= i < |leaves| :: IsHex64(leaves[i])
    ensures |ds| == |leaves|
    ensures forall i | 0 <= i < |leaves| :: ds[i] == DigestOf(leaves[i])
  {
    seq(|leaves|, i requires 0 <= i < |leaves| => DigestOf(leaves[i]))
  }

  /** The root of a v1 block's leaves, as 64 hex characters. */
  function RootHex(w: World, leaves: seq<string>): (root: string)
    requires forall i | 0 <= i < |leaves| :: IsHex64(leaves[i])
    ensures IsHex64(root)
  {
    if leaves == [] then Sha256Hex(w, []) else Hex(Tree(w, Digests(leaves), Height(|leaves|)))
  }

  lemma RootHexIsTop(w: World, leaves: seq<string>)
    requires leaves != [] && forall i | 0 <= i < |leaves| :: IsHex64(leaves[i])
    ensures RootHex(w, leaves) == Hex(Top(w, Digests(leaves)))
  {
    TopIsTree(w, Digests(leaves));
  }

  /** One level up from a level padded to an even length. */
  method HashPairs(w: World, ghost was: seq<Digest>, level: seq<Digest>) returns (next: seq<Digest>)
    requires level == if |was| % 2 == 1 then was + [was[|was| - 1]] else was
    ensures next == Up(w, was)
  {
    next := [];
    for i := 0 to |level| / 2
      invariant |next| == i
      invariant forall k | 0 <= k < i :: next[k] == NodeAbove(w, was, k)
    {
      assert Pair(was, i) == Joined(level[2 * i], level[2 * i + 1]);
      next := next + [w.sha(Joined(level[2 * i], level[2 * i + 1]))];
    }
  }

  /** `merkle_root`. */
  method MerkleRoot(w: World, leaves: seq<string>) returns (root: string)
    requires forall i | 0 <= i < |leaves| :: IsHex64(leaves[i])
    ensures root == RootHex(w, leaves)
  {
    if leaves == [] {
      return Sha256Hex(w, []);
    }
    var level := Digests(leaves);
    ghost var top := Top(w, level);
    RootHexIsTop(w, leaves);
    while |level| > 1
      invariant level != []
      invariant Top(w, level) == top
      decreases |level|
    {
      ghost var was := level;
      if |level| % 2 == 1 {
        level := level + [level[|level| - 1]];
      }
      level := HashPairs(w, was, level);
      assert Top(w, was) == Top(w, Up(w, was));
    }
    return Hex(level[0]);
  }

  /******* What one root says about its leaves *******/

  /** The left and right halves of a tree's leaves: a missing right half is the left one. */
  function Left(leaves: seq<Digest>, half: nat): (l: seq<Digest>)
    requires leaves != [] && half > 0
    ensures 0 < |l| <= half
  {
    if |leaves| <= half then leaves else leaves[..half]
  }

  function Right(leaves: seq<Digest>, half: nat): (r: seq<Digest>)
    requires leaves != [] && half > 0
    ensures 0 < |r| && (|leaves| <= 2 * half ==> |r| <= half)
  {
    if |leaves| <= half then leaves else leaves[half..]
  }

  /** All the leaves of the perfect tree, the copies written out. */
  function Padded(leaves: seq<Digest>, h: nat): (p: seq<Digest>)
    requires 0 < |leaves| <= Pow2(h)
    ensures |p| == Pow2(h)
    decreases h
  {
    if h == 0 then leaves
    else
      var half := Pow2(h - 1);
      Padded(Left(leaves, half), h - 1) + Padded(Right(leaves, half), h - 1)
  }

  /** Two halves that each keep their part keep the whole. */
  lemma HalvesKeep<T>(p: seq<T>, q: seq<T>, all: seq<T>, half: nat)
    requires |p| == half
    requires if |all| <= half then p[..|all|] == all
             else p == all[..half] && |all| - half <= |q| && q[..|all| - half] == all[half..]
    ensures |all| <= |p + q| && (p + q)[..|all|] == all
  {
    if |all| <= half {
      assert (p + q)[..|all|] == p[..|all|];
    } else {
      assert (p + q)[..|all|] == p + q[..|all| - half];
      assert all == all[..half] + all[half..];
    }
  }

  lemma Parts<T>(p: seq<T>, q: seq<T>, r: seq<T>, s: seq<T>)
    requires |p| == |r| && p + q == r + s
    ensures p == r && q == s
  {
    assert (p + q)[..|p|] == p && (r + s)[..|p|] == r;
    assert (p + q)[|p|..] == q && (r + s)[|p|..] == s;
  }

  lemma {:induction false} PaddedKeeps(leaves: seq<Digest>, h: nat)
    requires 0 < |leaves| <= Pow2(h)
    ensures Padded(leaves, h)[..|leaves|] == leaves
    decreases h
  {
    if h > 0 {
      var half := Pow2(h - 1);
      var l, r := Left(leaves, half), Right(leaves, half);
      PaddedKeeps(l, h - 1);
      PaddedKeeps(r, h - 1);
      hide Pow2;
      var p := Padded(l, h - 1);
      if |leaves| > half {
        assert p[..half] == p;
      }
      HalvesKeep(p, Padded(r, h - 1), leaves, half);
    }
  }

  /** The two children that are hashed for a tree's root. */
  function Children(w: World, leaves: seq<Digest>, h: nat): (b: Bytes)
    requires 0 < |leaves| <= Pow2(h) && h > 0
    ensures |b| == 64 && Tree(w, leaves, h) == w.sha(b)
  {
    var half := Pow2(h - 1);
    Joined(Tree(w, Left(leaves, half), h - 1), Tree(w, Right(leaves, half), h - 1))
  }

  /** Two different pairs of nodes at one place of two trees, looked for from the top. */
  function TreeClash(w: World, a: seq<Digest>, b: seq<Digest>, h: nat): (r: Option<(Bytes, Bytes)>)
    requires 0 < |a| <= Pow2(h) && 0 < |b| <= Pow2(h)
    decreases h
  {
    if h == 0 then None
    else if Children(w, a, h) != Children(w, b, h) then Some((Children(w, a, h), Children(w, b, h)))
    else
      var half := Pow2(h - 1);
      var left := TreeClash(w, Left(a, half), Left(b, half), h - 1);
      if left.Some? then left else TreeClash(w, Right(a, half), Right(b, half), h - 1)
  }

  lemma SplitHalves(a: Digest, b: Digest, c: Digest, d: Digest)
    requires Joined(a, b) == Joined(c, d)
    ensures a == c && b == d
  {
    assert Joined(a, b)[..32] == a && Joined(c, d)[..32] == c;
    assert Joined(a, b)[32..] == b && Joined(c, d)[32..] == d;
  }

  lemma {:induction false} PaddedDecides(w: World, a: seq<Digest>, b: seq<Digest>, h: nat)
    requires 0 < |a| <= Pow2(h) && 0 < |b| <= Pow2(h)
    requires Padded(a, h) == Padded(b, h)
    ensures Tree(w, a, h) == Tree(w, b, h)
    decreases h
  {
    if h > 0 {
      var half := Pow2(h - 1);
      var al, ar, bl, br := Left(a, half), Right(a, half), Left(b, half), Right(b, half);
      Parts(Padded(al, h - 1), Padded(ar, h - 1), Padded(bl, h - 1), Padded(br, h - 1));
      PaddedDecides(w, al, bl, h - 1);
      PaddedDecides(w, ar, br, h - 1);
      assert Children(w, a, h) == Children(w, b, h) by { hide Left, Right; }
    }
  }

  lemma {:induction false} RootDecides(w: World, a: seq<Digest>, b: seq<Digest>, h: nat)
    requires 0 < |a| <= Pow2(h) && 0 < |b| <= Pow2(h)
    requires Tree(w, a, h) == Tree(w, b, h)
    ensures var r := TreeClash(w, a, b, h);
      if r.Some? then Collide(w, r.value.0, r.value.1) else Padded(a, h) == Padded(b, h)
    decreases h
  {
    if h > 0 && Children(w, a, h) == Children(w, b, h) {
      var half := Pow2(h - 1);
      var al, ar, bl, br := Left(a, half), Right(a, half), Left(b, half), Right(b, half);
      SplitHalves(Tree(w, al, h - 1), Tree(w, ar, h - 1), Tree(w, bl, h - 1), Tree(w, br, h - 1));
      RootDecides(w, al, bl, h - 1);
      RootDecides(w, ar, br, h - 1);
      hide Left, Right;
    }
  }

  /** Two trees of one height have one root exactly when they have the same leaves once
      the copies are written out, or two of their nodes collide. */
  lemma TreeKernel(w: World, a: seq<Digest>, b: seq<Digest>, h: nat)
    requires 0 < |a| <= Pow2(h) && 0 < |b| <= Pow2(h)
    ensures Padded(a, h) == Padded(b, h) ==> Tree(w, a, h) == Tree(w, b, h)
    ensures Tree(w, a, h) == Tree(w, b, h) ==>
              var r := TreeClash(w, a, b, h);
              if r.Some? then Collide(w, r.value.0, r.value.1) else Padded(a, h) == Padded(b, h)
  {
    hide Padded, Tree, TreeClash;
    if Padded(a, h) == Padded(b, h) {
      PaddedDecides(w, a, b, h);
    }
    if Tree(w, a, h) == Tree(w, b, h) {
      RootDecides(w, a, b, h);
    }
  }

  /** The kernel of the v1 root: lists that fill trees of one height have one root exactly
      when they pad to the same leaves, or two nodes of their trees collide. */
  lemma RootKernel(w: World, a: seq<string>, b: seq<string>)
    requires forall i | 0 <= i < |a| :: IsHex64(a[i])
    requires forall i | 0 <= i < |b| :: IsHex64(b[i])
    requires a != [] && b != [] && Height(|a|) == Height(|b|)
    ensures var h, da, db := Height(|a|), Digests(a), Digests(b);
      && (Padded(da, h) == Padded(db, h) ==> RootHex(w, a) == RootHex(w, b))
      && (RootHex(w, a) == RootHex(w, b) ==>
            var r := TreeClash(w, da, db, h);
            if r.Some? then Collide(w, r.value.0, r.value.1) else Padded(da, h) == Padded(db, h))
  {
    hide Padded, Tree, TreeClash;
    var h, da, db := Height(|a|), Digests(a), Digests(b);
    TreeKernel(w, da, db, h);
    if RootHex(w, a) == RootHex(w, b) {
      HexInjective(Tree(w, da, h), Tree(w, db, h));
    }
  }

  /** So lists of one length with one root are one list, or two nodes collide. */
  lemma OneRootOneList(w: World, a: seq<string>, b: seq<string>)
    requires forall i | 0 <= i < |a| :: IsHex64(a[i])
    requires forall i | 0 <= i < |b| :: IsHex64(b[i])
    requires |a| == |b| > 0 && RootHex(w, a) == RootHex(w, b)
    ensures var r := TreeClash(w, Digests(a), Digests(b), Height(|a|));
      if r.Some? then Collide(w, r.value.0, r.value.1) else a == b
  {
    hide Padded, Tree, TreeClash, RootHex;
    var da, db := Digests(a), Digests(b);
    RootKernel(w, a, b);
    if TreeClash(w, da, db, Height(|a|)).None? {
      PaddedKeeps(da, Height(|a|));
      PaddedKeeps(db, Height(|b|));
      forall i | 0 <= i < |a| ensures a[i] == b[i] {
        FromHexRoundTrip(a[i]);
        FromHexRoundTrip(b[i]);
        assert da[i] == db[i];
      }
    }
  }

  lemma RightOfMore(leaves: seq<Digest>, last: Digest, half: nat)
    requires half < |leaves|
    ensures (leaves + [last])[..half] == leaves[..half] && (leaves + [last])[half..] == leaves[half..] + [last]
  {
  }

  lemma {:induction false} RepeatPads(leaves: seq<Digest>, last: Digest, h: nat)
    requires |leaves| % 2 == 1 && |leaves| < Pow2(h) && last == leaves[|leaves| - 1]
    ensures Padded(leaves + [last], h) == Padded(leaves, h)
    decreases h
  {
    var n, half := |leaves|, Pow2(h - 1);
    if n < half {
      RepeatPads(leaves, last, h - 1);
    } else if h == 1 {
      assert leaves == [last] && (leaves + [last])[..1] == leaves && (leaves + [last])[1..] == leaves;
    } else {
      assert half == 2 * Pow2(h - 2);
      assert n > half;
      RightOfMore(leaves, last, half);
      RepeatPads(leaves[half..], last, h - 1);
    }
  }

  /** And why v2 dropped it: a list of odd length and the same list with its last leaf
      repeated pad to the same leaves, so they have one root. */
  lemma RepeatedLeafKeepsRoot(w: World, a: seq<string>)
    requires forall i | 0 <= i < |a| :: IsHex64(a[i])
    requires |a| > 1 && |a| % 2 == 1
    ensures RootHex(w, a + [a[|a| - 1]]) == RootHex(w, a)
  {
    hide Padded, Tree, TreeClash, RootHex;
    var last := a[|a| - 1];
    var b := a + [last];
    EvenAbove(|a|);
    assert Digests(b) == Digests(a) + [DigestOf(last)];
    RepeatPads(Digests(a), DigestOf(last), Height(|a|));
    RootKernel(w, b, a);
  }

  lemma EvenAbove(n: nat)
    requires n > 1 && n % 2 == 1
    ensures Height(n + 1) == Height(n) && n < Pow2(Height(n))
  {
    assert (n + 1) / 2 == (n + 2) / 2;
    assert Pow2(Height(n)) == 2 * Pow2(Height(n) - 1);
  }
}
