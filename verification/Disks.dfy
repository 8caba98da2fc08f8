/**
 The ledger directory (aikiri_ledger/chain.py, `Ledger`): one file per block, and HEAD.
 */
module Disks {
  import opened Wrappers
  import opened Crypto
  import opened Blocks

  /** A block file's JSON either has the fields of a block, as `Blocks.ToJson` lays
      them out, or it is nothing a reader accepts. Which of the first kind are read
      is `Blocks.ParseIffWritten`: exactly the well-formed ones. Bytes that are not
      UTF-8 are no text at all, and reading them raises where nothing catches it. */
  datatype BlockFile = Shaped(b: Block) | Garbage | NotText

  /** HEAD as its whitespace-separated words. */
  datatype HeadFile = NoHead | Head(words: seq<string>)

  datatype Disk = Disk(files: map<nat, BlockFile>, head: HeadFile)

  /******* Words of a text *******/

  /** What Python's `str` calls whitespace. */
  predicate IsSpace(c: char) {
    var n := c as int;
    || 0x09 <= n <= 0x0D || 0x1C <= n <= 0x20 || n == 0x85 || n == 0xA0 || n == 0x1680
    || 0x2000 <= n <= 0x200A || n == 0x2028 || n == 0x2029 || n == 0x202F || n == 0x205F || n == 0x3000
  }

  function WordLength(text: string): (k: nat)
    ensures k <= |text|
    ensures forall i | 0 <= i < k :: !IsSpace(text[i])
    ensures k < |text| ==> IsSpace(text[k])
  {
    if text == "" || IsSpace(text[0]) then 0 else 1 + WordLength(text[1..])
  }

  /** `str.split()`. */
  function Words(text: string): (words: seq<string>) {
    if text == "" then []
    else if IsSpace(text[0]) then Words(text[1..])
    else
      var k := WordLength(text);
      [text[..k]] + Words(text[k..])
  }

  predicate IsWord(s: string) {
    s != "" && forall i | 0 <= i < |s| :: !IsSpace(s[i])
  }

  lemma WordThen(word: string, rest: string)
    requires IsWord(word) && (rest == "" || IsSpace(rest[0]))
    ensures Words(word + rest) == [word] + Words(rest)
  {
    var text := word + rest;
    assert forall i | 0 <= i < |word| :: text[i] == word[i];
    assert rest != "" ==> text[|word|] == rest[0];
    assert WordLength(text) == |word|;
    assert text[..|word|] == word && text[|word|..] == rest;
  }

  lemma SpaceThen(space: char, rest: string)
    requires IsSpace(space)
    ensures Words([space] + rest) == Words(rest)
  {
    assert ([space] + rest)[1..] == rest;
  }

  /** The words of any beginning of "first second\n". */
  function CutWords(first: string, second: string, k: nat): (words: seq<string>) {
    if k == 0 then []
    else if k <= |first| then [first[..k]]
    else if k == |first| + 1 then [first]
    else if k <= |first| + 1 + |second| then [first, second[..k - |first| - 1]]
    else [first, second]
  }

  lemma WordsOfCut(first: string, second: string, k: nat)
    requires IsWord(first) && IsWord(second) && k <= |first| + |second| + 2
    ensures Words((first + " " + second + "\n")[..k]) == CutWords(first, second, k)
  {
    var text := (first + " " + second + "\n")[..k];
    var m := |first| + 1;
    if k == 0 {
    } else if k <= |first| {
      assert text == first[..k] + "";
      WordThen(first[..k], "");
    } else if k == m {
      assert text == first + " ";
      WordThen(first, " ");
      assert " " == [' '] + "";
      SpaceThen(' ', "");
    } else if k <= m + |second| {
      var part := second[..k - m];
      assert text == first + ([' '] + (part + ""));
      WordThen(first, [' '] + (part + ""));
      SpaceThen(' ', part + "");
      WordThen(part, "");
    } else {
      assert text == first + ([' '] + (second + "\n"));
      WordThen(first, [' '] + (second + "\n"));
      SpaceThen(' ', second + "\n");
      WordThen(second, "\n");
      assert "\n" == ['\n'] + "";
      SpaceThen('\n', "");
    }
  }

  /******* Reading *******/

  function ReadFile(w: World, f: BlockFile): (r: Option<Block>)
    ensures r.Some? ==> WellFormed(w, r.value)
  {
    if f.Shaped? && WellFormed(w, f.b) then Some(f.b) else None
  }

  /** Block files 0 to n - 1 are there, and file n is not. */
  predicate IsCount(files: map<nat, BlockFile>, n: nat) {
    n !in files && forall i: nat | i < n :: i in files
  }

  lemma {:induction false} InitialKeys(files: map<nat, BlockFile>, i: nat)
    requires forall k: nat | k < i :: k in files
    ensures i <= |files|
  {
    if i > 0 {
      var less := files - {i - 1};
      assert files.Keys == less.Keys + {i - 1};
      InitialKeys(less, i - 1);
    }
  }

  /** How far an unbroken run of files from `i` goes. */
  function CountFrom(files: map<nat, BlockFile>, i: nat): (n: nat)
    requires forall k: nat | k < i :: k in files
    ensures IsCount(files, n)
    decreases |files| - i
  {
    if i in files then
      InitialKeys(files, i + 1);
      CountFrom(files, i + 1)
    else i
  }

  function Count(files: map<nat, BlockFile>): (n: nat)
    ensures IsCount(files, n)
  {
    CountFrom(files, 0)
  }

  lemma CountUnique(files: map<nat, BlockFile>, m: nat, n: nat)
    requires IsCount(files, m) && IsCount(files, n)
    ensures m == n
  {
  }

  /** `list(ledger.blocks())`: none of them, if one cannot be read. */
  function ReadBlocks(w: World, files: map<nat, BlockFile>): (r: Option<seq<Block>>)
    ensures r.Some? ==> |r.value| == Count(files) && AllWellFormed(w, r.value)
    ensures r.Some? ==> forall i | 0 <= i < |r.value| :: ReadFile(w, files[i]) == Some(r.value[i])
    ensures r.None? ==> exists i: nat | i < Count(files) :: ReadFile(w, files[i]).None?
  {
    var n := Count(files);
    if forall i: nat | i < n :: ReadFile(w, files[i]).Some? then
      Some(seq(n, i requires 0 <= i < n && i in files && ReadFile(w, files[i]).Some? => ReadFile(w, files[i]).value))
    else None
  }

  /** The first file that cannot be read is not even text. */
  ghost predicate RaisesOnRead(w: World, files: map<nat, BlockFile>) {
    exists i: nat :: i in files && files[i].NotText? && AllRead(w, files, i)
  }

  /** Files 0 to n - 1 are there and are read. */
  ghost predicate AllRead(w: World, files: map<nat, BlockFile>, n: nat) {
    forall k: nat | k < n :: k in files && ReadFile(w, files[k]).Some?
  }

  predicate AllWellFormed(w: World, bs: seq<Block>) {
    forall i | 0 <= i < |bs| :: WellFormed(w, bs[i])
  }

  /** `height`: the index of the last block file, counted up from 0. */
  method Height(files: map<nat, BlockFile>) returns (h: int)
    ensures h == Count(files) - 1
  {
    var i: nat := 0;
    while i in files
      invariant i <= Count(files)
      invariant forall k: nat | k < i :: k in files
      decreases Count(files) - i
    {
      i := i + 1;
    }
    CountUnique(files, i, Count(files));
    return i - 1;
  }

  lemma OneStop(w: World, files: map<nat, BlockFile>, i: nat)
    requires AllRead(w, files, i) && i in files && ReadFile(w, files[i]).None?
    ensures RaisesOnRead(w, files) <==> files[i].NotText?
    ensures ReadBlocks(w, files).None?
  {
    if RaisesOnRead(w, files) {
      var j: nat :| j in files && files[j].NotText? && AllRead(w, files, j);
      assert ReadFile(w, files[j]).None?;
      assert !(i < j) && !(j < i);
    }
    assert i < Count(files);
  }

  lemma NeverStops(w: World, files: map<nat, BlockFile>)
    requires AllRead(w, files, Count(files))
    ensures !RaisesOnRead(w, files)
  {
    if RaisesOnRead(w, files) {
      var j: nat :| j in files && files[j].NotText? && AllRead(w, files, j);
      assert false;
    }
  }

  /** The reading loop: it stops at the first missing file, or at one it cannot read. */
  method LoadBlocks(w: World, files: map<nat, BlockFile>) returns (r: Option<seq<Block>>, raised: bool)
    ensures r == ReadBlocks(w, files)
    ensures raised <==> RaisesOnRead(w, files)
    ensures raised ==> r.None?
  {
    var bs: seq<Block> := [];
    while |bs| in files
      invariant |bs| <= Count(files)
      invariant forall k: nat | k < |bs| :: k in files && ReadFile(w, files[k]) == Some(bs[k])
      decreases Count(files) - |bs|
    {
      var b := ReadFile(w, files[|bs|]);
      if b.None? {
        OneStop(w, files, |bs|);
        return None, files[|bs|].NotText?;
      }
      bs := bs + [b.value];
    }
    CountUnique(files, |bs|, Count(files));
    NeverStops(w, files);
    assert bs == ReadBlocks(w, files).value;
    return Some(bs), false;
  }
}
