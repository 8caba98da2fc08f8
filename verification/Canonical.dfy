/**
 Canonical JSON (aikiri_ledger/canonical.py): the compact printer behind every
 hash and every signature, and a parser that inverts it.

 A Python dict is its members listed in key order: that is the order the printer
 writes them in (`sort_keys`), and it makes equal dicts equal values. Numbers are
 integers; strings are sequences of Unicode scalar values.
 */
module Canonical {
  import opened Wrappers
  import opened Bytes

  datatype Json =
    | Null
    | Bool(b: bool)
    | Int(n: int)
    | Str(s: string)
    | Arr(items: seq<Json>)
    | Obj(members: seq<Member>)

  datatype Member = Member(key: string, value: Json)

  /******* The printer *******/

  /** A `\u` escape of one UTF-16 unit, lowercase. */
  function Unit(n: nat): (s: string)
    requires n < 0x10000
    ensures |s| == 6
  {
    ['\\', 'u', HexDigit(n / 0x1000), HexDigit(n / 0x100 % 16), HexDigit(n / 16 % 16), HexDigit(n % 16)]
  }

  /** The surrogate pair of a code point past 0xFFFF. */
  function High(n: nat): (u: nat)
    requires 0x10000 <= n < 0x110000
    ensures 0xD800 <= u < 0xDC00
  {
    0xD800 + (n - 0x10000) / 0x400
  }

  function Low(n: nat): (u: nat)
    requires 0x10000 <= n < 0x110000
    ensures 0xDC00 <= u < 0xE000
    ensures 0x10000 + (High(n) - 0xD800) * 0x400 + (u - 0xDC00) == n
  {
    0xDC00 + (n - 0x10000) % 0x400
  }

  /** One character inside quotes. `ascii` is `ensure_ascii`: v2 escapes whatever is
      not printable ASCII, the frozen v1 form escapes only what JSON forbids. */
  function EscapeChar(c: char, ascii: bool): (s: string)
  {
    var n := c as int;
    if c == '"' then "\\\""
    else if c == '\\' then "\\\\"
    else if n == 8 then "\\b"
    else if n == 9 then "\\t"
    else if n == 10 then "\\n"
    else if n == 12 then "\\f"
    else if n == 13 then "\\r"
    else if n < 0x20 || (ascii && 0x7E < n < 0x10000) then Unit(n)
    else if ascii && 0x10000 <= n then
      Unit(High(n)) + Unit(Low(n))
    else [c]
  }

  function Escape(s: string, ascii: bool): (t: string)
  {
    if s == "" then "" else EscapeChar(s[0], ascii) + Escape(s[1..], ascii)
  }

  function PrintStr(s: string, ascii: bool): (t: string)
  {
    "\"" + Escape(s, ascii) + "\""
  }

  function Decimal(n: nat): (s: string)
  {
    if n < 10 then [HexDigit(n)] else Decimal(n / 10) + [HexDigit(n % 10)]
  }

  function PrintInt(n: int): (s: string) {
    if n < 0 then "-" + Decimal(-n) else Decimal(n)
  }

  function Print(j: Json, ascii: bool): (t: string)
    decreases j
  {
    match j
    case Null => "null"
    case Bool(b) => if b then "true" else "false"
    case Int(n) => PrintInt(n)
    case Str(s) => PrintStr(s, ascii)
    case Arr(items) => if items == [] then "[]" else "[" + PrintItems(items, ascii)
    case Obj(members) => if members == [] then "{}" else "{" + PrintMembers(members, ascii)
  }

  /** The items of an array, through its closing bracket. */
  function PrintItems(items: seq<Json>, ascii: bool): (t: string)
    requires items != []
    decreases items
  {
    Print(items[0], ascii) + if |items| == 1 then "]" else "," + PrintItems(items[1..], ascii)
  }

  function PrintMember(m: Member, ascii: bool): (t: string)
    decreases m
  {
    PrintStr(m.key, ascii) + ":" + Print(m.value, ascii)
  }

  /** The members of an object, through its closing brace. */
  function PrintMembers(members: seq<Member>, ascii: bool): (t: string)
    requires members != []
    decreases members
  {
    PrintMember(members[0], ascii) + if |members| == 1 then "}" else "," + PrintMembers(members[1..], ascii)
  }

  /** The one way each character is written: as two characters if it has a short escape,
      as one if it needs none, else as one or two `\\u` units; hex digits are lowercase. */
  lemma EscapeIsShortest(c: char, ascii: bool)
    ensures var n, s := c as int, EscapeChar(c, ascii);
      && |s| == (if c == '"' || c == '\\' || n == 8 || n == 9 || n == 10 || n == 12 || n == 13 then 2
                 else if 0x20 <= n < (if ascii then 0x7F else 0x110000) then 1
                 else if n < 0x10000 then 6
                 else 12)
      && (|s| > 1 ==> s[0] == '\\' && forall i | 0 <= i < |s| :: !('A' <= s[i] <= 'Z'))
      && (|s| == 1 ==> s == [c])
  {
  }

  /******* The parser: JSON text (RFC 8259, sections 4 to 7) without whitespace *******/

  predicate IsDigit(c: char) {
    '0' <= c <= '9'
  }

  /** Either case is read; the printer writes only lowercase. */
  predicate IsAnyHexDigit(c: char) {
    IsHexDigit(c) || 'A' <= c <= 'F'
  }

  function AnyHexValue(c: char): (n: nat)
    requires IsAnyHexDigit(c)
    ensures n < 16
  {
    if IsHexDigit(c) then HexValue(c) else c as int - 'A' as int + 10
  }

  /** Four hex digits after `\u`. */
  function ParseUnit(s: string): (r: Option<nat>)
    ensures r.Some? ==> |s| >= 6 && r.value < 0x10000
  {
    if |s| < 6 || s[0] != '\\' || s[1] != 'u' then None
    else if !IsAnyHexDigit(s[2]) || !IsAnyHexDigit(s[3]) || !IsAnyHexDigit(s[4]) || !IsAnyHexDigit(s[5]) then None
    else Some(AnyHexValue(s[2]) * 0x1000 + AnyHexValue(s[3]) * 0x100 + AnyHexValue(s[4]) * 16 + AnyHexValue(s[5]))
  }

  function ParseEscape(s: string): (r: Option<(char, string)>)
    requires |s| >= 1 && s[0] == '\\'
    ensures r.Some? ==> |r.value.1| < |s|
  {
    if |s| < 2 then None
    else if s[1] in {'"', '\\', '/'} then Some((s[1], s[2..]))
    else if s[1] == 'b' then Some((8 as char, s[2..]))
    else if s[1] == 't' then Some((9 as char, s[2..]))
    else if s[1] == 'n' then Some((10 as char, s[2..]))
    else if s[1] == 'f' then Some((12 as char, s[2..]))
    else if s[1] == 'r' then Some((13 as char, s[2..]))
    else
      match ParseUnit(s)
      case None => None
      case Some(n) =>
        if n < 0xD800 || 0xE000 <= n then Some((n as char, s[6..]))
        else if 0xDC00 <= n then None
        else
          match ParseUnit(s[6..])
          case None => None
          case Some(low) =>
            if 0xDC00 <= low < 0xE000 then
              Some(((0x10000 + (n - 0xD800) * 0x400 + (low - 0xDC00)) as char, s[12..]))
            else None
  }

  /** One character of a string, and what follows it. */
  function ParseChar(s: string): (r: Option<(char, string)>)
    requires s != ""
    ensures r.Some? ==> |r.value.1| < |s|
  {
    if s[0] == '\\' then ParseEscape(s)
    else if s[0] as int < 0x20 then None
    else Some((s[0], s[1..]))
  }

  /** The rest of a string, up to and over its closing quote. */
  function ParseChars(s: string): (r: Option<(string, string)>)
    ensures r.Some? ==> |r.value.1| < |s|
    decreases |s|
  {
    if s == "" then None
    else if s[0] == '"' then Some(("", s[1..]))
    else
      match ParseChar(s)
      case None => None
      case Some((c, rest)) =>
        match ParseChars(rest)
        case None => None
        case Some((t, end)) => Some(([c] + t, end))
  }

  /** How many digits `s` starts with. */
  function Digits(s: string): (k: nat)
    ensures k <= |s|
    ensures forall i | 0 <= i < k :: IsDigit(s[i])
    ensures k < |s| ==> !IsDigit(s[k])
  {
    if s == "" || !IsDigit(s[0]) then 0 else 1 + Digits(s[1..])
  }

  predicate AllDigits(s: string) {
    forall i | 0 <= i < |s| :: IsDigit(s[i])
  }

  function Value(s: string): (n: nat)
    requires AllDigits(s)
  {
    if s == "" then 0 else Value(s[..|s| - 1]) * 10 + (s[|s| - 1] as int - '0' as int)
  }

  /** No leading zero, as JSON has it. */
  function ParseNat(s: string): (r: Option<(nat, string)>)
    ensures r.Some? ==> |r.value.1| < |s|
  {
    var k := Digits(s);
    if k == 0 || (k > 1 && s[0] == '0') then None else Some((Value(s[..k]), s[k..]))
  }

  function After(s: string, word: string): (r: Option<string>)
    ensures r.Some? ==> |r.value| + |word| == |s|
  {
    if word <= s then Some(s[|word|..]) else None
  }

  function ParseValue(s: string): (r: Option<(Json, string)>)
    ensures r.Some? ==> |r.value.1| < |s|
    decreases |s|, 0
  {
    if s == "" then None
    else if s[0] == 'n' then
      match After(s, "null") case None => None case Some(rest) => Some((Null, rest))
    else if s[0] == 't' then
      match After(s, "true") case None => None case Some(rest) => Some((Bool(true), rest))
    else if s[0] == 'f' then
      match After(s, "false") case None => None case Some(rest) => Some((Bool(false), rest))
    else if s[0] == '"' then
      match ParseChars(s[1..]) case None => None case Some((t, rest)) => Some((Str(t), rest))
    else if s[0] == '-' then
      match ParseNat(s[1..]) case None => None case Some((n, rest)) => Some((Int(0 - n), rest))
    else if s[0] == '[' then
      if |s| > 1 && s[1] == ']' then Some((Arr([]), s[2..]))
      else match ParseItems(s[1..]) case None => None case Some((items, rest)) => Some((Arr(items), rest))
    else if s[0] == '{' then
      if |s| > 1 && s[1] == '}' then Some((Obj([]), s[2..]))
      else match ParseMembers(s[1..]) case None => None case Some((members, rest)) => Some((Obj(members), rest))
    else
      match ParseNat(s) case None => None case Some((n, rest)) => Some((Int(n), rest))
  }

  function ParseItems(s: string): (r: Option<(seq<Json>, string)>)
    ensures r.Some? ==> |r.value.1| < |s|
    decreases |s|, 1
  {
    match ParseValue(s)
    case None => None
    case Some((j, rest)) =>
      if rest == "" then None
      else if rest[0] == ']' then Some(([j], rest[1..]))
      else if rest[0] == ',' then
        match ParseItems(rest[1..])
        case None => None
        case Some((items, end)) => Some(([j] + items, end))
      else None
  }

  function ParseMembers(s: string): (r: Option<(seq<Member>, string)>)
    ensures r.Some? ==> |r.value.1| < |s|
    decreases |s|, 1
  {
    if s == "" || s[0] != '"' then None
    else
      match ParseChars(s[1..])
      case None => None
      case Some((key, colon)) =>
        if colon == "" || colon[0] != ':' then None
        else
          match ParseValue(colon[1..])
          case None => None
          case Some((j, rest)) =>
            if rest == "" then None
            else if rest[0] == '}' then Some(([Member(key, j)], rest[1..]))
            else if rest[0] == ',' then
              match ParseMembers(rest[1..])
              case None => None
              case Some((members, end)) => Some(([Member(key, j)] + members, end))
            else None
  }

  /******* The parser inverts the printer *******/

  lemma HexDigitValue(n: nat)
    requires n < 16
    ensures IsAnyHexDigit(HexDigit(n)) && AnyHexValue(HexDigit(n)) == n
  {
    HexDigitInjective(n, HexValue(HexDigit(n)));
  }

  lemma HexExpansion(n: nat)
    ensures n == n / 0x1000 * 0x1000 + n / 0x100 % 16 * 0x100 + n / 16 % 16 * 16 + n % 16
  {
    assert n / 0x100 / 16 == n / 0x1000;
    assert n / 16 / 16 == n / 0x100;
  }

  lemma UnitRoundTrip(n: nat, rest: string)
    requires n < 0x10000
    ensures ParseUnit(Unit(n) + rest) == Some(n)
  {
    var a, b, c, d := n / 0x1000, n / 0x100 % 16, n / 16 % 16, n % 16;
    HexExpansion(n);
    HexDigitValue(a);
    HexDigitValue(b);
    HexDigitValue(c);
    HexDigitValue(d);
    var s := Unit(n) + rest;
    assert s[0] == '\\' && s[1] == 'u';
    assert s[2] == HexDigit(a) && s[3] == HexDigit(b) && s[4] == HexDigit(c) && s[5] == HexDigit(d);
  }

  lemma TwoUnits(high: nat, low: nat, rest: string)
    requires 0xD800 <= high < 0xDC00 <= low < 0xE000
    ensures ParseChar(Unit(high) + Unit(low) + rest)
         == Some(((0x10000 + (high - 0xD800) * 0x400 + (low - 0xDC00)) as char, rest))
  {
    var text, after := Unit(high) + Unit(low) + rest, Unit(low) + rest;
    Assoc(Unit(high), Unit(low), rest);
    UnitRoundTrip(high, after);
    UnitRoundTrip(low, rest);
    assert text[6..] == after;
    assert text[12..] == after[6..] == rest;
    assert text[1] == 'u';
  }

  lemma PairRoundTrip(n: nat, rest: string)
    requires 0x10000 <= n < 0x110000
    ensures ParseChar(EscapeChar(n as char, true) + rest) == Some((n as char, rest))
  {
    TwoUnits(High(n), Low(n), rest);
  }

  lemma ShortRoundTrip(c: char, ascii: bool, rest: string)
    requires |EscapeChar(c, ascii)| <= 2
    ensures ParseChar(EscapeChar(c, ascii) + rest) == Some((c, rest))
  {
    var e := EscapeChar(c, ascii);
    assert (e + rest)[|e|..] == rest;
    assert |e| == 1 ==> e == [c];
  }

  lemma CharRoundTrip(c: char, ascii: bool, rest: string)
    ensures EscapeChar(c, ascii) != "" && EscapeChar(c, ascii)[0] != '"'
    ensures ParseChar(EscapeChar(c, ascii) + rest) == Some((c, rest))
  {
    var e := EscapeChar(c, ascii);
    if |e| <= 2 {
      ShortRoundTrip(c, ascii, rest);
    } else if |e| == 6 {
      UnitRoundTrip(c as int, rest);
      assert (e + rest)[6..] == rest;
    } else {
      PairRoundTrip(c as int, rest);
    }
  }

  lemma {:induction false} CharsRoundTrip(s: string, ascii: bool, rest: string)
    ensures ParseChars(Escape(s, ascii) + "\"" + rest) == Some((s, rest))
  {
    var text := Escape(s, ascii) + "\"" + rest;
    if s == "" {
      assert text[1..] == rest;
    } else {
      var tail := Escape(s[1..], ascii) + "\"" + rest;
      assert text == EscapeChar(s[0], ascii) + tail;
      CharRoundTrip(s[0], ascii, tail);
      CharsRoundTrip(s[1..], ascii, rest);
      assert [s[0]] + s[1..] == s;
    }
  }

  lemma {:induction false} DecimalValue(n: nat)
    ensures Decimal(n) != "" && AllDigits(Decimal(n)) && Value(Decimal(n)) == n
    ensures Decimal(n)[0] == '0' ==> n == 0
  {
    if n >= 10 {
      DecimalValue(n / 10);
      assert Decimal(n)[..|Decimal(n)| - 1] == Decimal(n / 10);
    } else {
      assert Decimal(n)[..0] == "";
    }
  }

  /** Text that cannot continue a number. */
  predicate EndsNumber(s: string) {
    s == "" || !IsDigit(s[0])
  }

  lemma NatRoundTrip(n: nat, rest: string)
    requires EndsNumber(rest)
    ensures ParseNat(Decimal(n) + rest) == Some((n, rest))
  {
    var d := Decimal(n);
    var text := d + rest;
    DecimalValue(n);
    var k := Digits(text);
    assert forall i | 0 <= i < |d| :: text[i] == d[i];
    assert rest != "" ==> text[|d|] == rest[0];
    assert k == |d|;
    assert text[..k] == d && text[k..] == rest;
  }

  lemma WordRoundTrip(word: string, rest: string)
    ensures After(word + rest, word) == Some(rest)
  {
    assert (word + rest)[|word|..] == rest;
  }

  lemma {:induction false} PrintNotEmpty(j: Json, ascii: bool)
    ensures Print(j, ascii) != ""
    ensures Print(j, ascii)[0] != ']' && Print(j, ascii)[0] != '}'
  {
    if j.Int? {
      DecimalValue(if j.n < 0 then -j.n else j.n);
    }
  }

  lemma IntRoundTrip(n: int, ascii: bool, rest: string)
    requires EndsNumber(rest)
    ensures ParseValue(Print(Int(n), ascii) + rest) == Some((Int(n), rest))
  {
    hide Decimal, Value, ParseNat, ParseItems, ParseMembers, ParseChars, EndsNumber;
    var m: nat := if n < 0 then -n else n;
    var text := Print(Int(n), ascii) + rest;
    NatRoundTrip(m, rest);
    if n < 0 {
      assert text[1..] == Decimal(m) + rest;
    } else {
      DecimalValue(m);
      assert IsDigit(text[0]);
    }
  }

  lemma StrRoundTrip(s: string, ascii: bool, rest: string)
    ensures ParseValue(Print(Str(s), ascii) + rest) == Some((Str(s), rest))
  {
    var text := Print(Str(s), ascii) + rest;
    assert text[1..] == Escape(s, ascii) + "\"" + rest;
    CharsRoundTrip(s, ascii, rest);
  }

  lemma ArrShape(items: seq<Json>, ascii: bool, rest: string)
    requires items != [] ==> ParseItems(PrintItems(items, ascii) + rest) == Some((items, rest))
    requires items != [] ==> Print(items[0], ascii) != "" && Print(items[0], ascii)[0] != ']'
    ensures ParseValue(Print(Arr(items), ascii) + rest) == Some((Arr(items), rest))
  {
    var text := Print(Arr(items), ascii) + rest;
    if items == [] {
      assert text[2..] == rest;
    } else {
      assert text[1..] == PrintItems(items, ascii) + rest;
      assert text[1] == Print(items[0], ascii)[0];
    }
  }

  lemma ObjShape(members: seq<Member>, ascii: bool, rest: string)
    requires members != [] ==> ParseMembers(PrintMembers(members, ascii) + rest) == Some((members, rest))
    ensures ParseValue(Print(Obj(members), ascii) + rest) == Some((Obj(members), rest))
  {
    var text := Print(Obj(members), ascii) + rest;
    if members == [] {
      assert text[2..] == rest;
    } else {
      var inside := PrintMembers(members, ascii);
      assert inside[0] == PrintMember(members[0], ascii)[0] == '"';
      Assoc("{", inside, rest);
      assert text[1..] == inside + rest;
    }
  }

  /** Parsing what was printed gives back the value and leaves the text after it. */
  lemma {:induction false} ValueRoundTrip(j: Json, ascii: bool, rest: string)
    requires EndsNumber(rest)
    ensures ParseValue(Print(j, ascii) + rest) == Some((j, rest))
    decreases j
  {
    match j
    case Null => WordRoundTrip("null", rest);
    case Bool(b) => WordRoundTrip(if b then "true" else "false", rest);
    case Int(n) => IntRoundTrip(n, ascii, rest);
    case Str(s) => StrRoundTrip(s, ascii, rest);
    case Arr(items) =>
      if items != [] {
        ItemsRoundTrip(items, ascii, rest);
        PrintNotEmpty(items[0], ascii);
      }
      ArrShape(items, ascii, rest);
    case Obj(members) =>
      if members != [] {
        MembersRoundTrip(members, ascii, rest);
      }
      ObjShape(members, ascii, rest);
  }

  lemma {:induction false} ItemsRoundTrip(items: seq<Json>, ascii: bool, rest: string)
    requires items != []
    ensures ParseItems(PrintItems(items, ascii) + rest) == Some((items, rest))
    decreases items
  {
    var j := items[0];
    if |items| == 1 {
      ValueRoundTrip(j, ascii, "]" + rest);
      LastItem(j, Print(j, ascii), rest);
      Assoc(Print(j, ascii), "]", rest);
      assert [j] == items;
    } else {
      var more := PrintItems(items[1..], ascii);
      ItemsRoundTrip(items[1..], ascii, rest);
      ValueRoundTrip(j, ascii, "," + (more + rest));
      NextItem(j, Print(j, ascii), more + rest, items[1..], rest);
      Assoc(",", more, rest);
      Assoc(Print(j, ascii), "," + more, rest);
      assert [j] + items[1..] == items;
    }
  }

  lemma Assoc(a: string, b: string, c: string)
    ensures a + b + c == a + (b + c)
  {
  }

  lemma LastItem(j: Json, text: string, rest: string)
    requires ParseValue(text + ("]" + rest)) == Some((j, "]" + rest))
    ensures ParseItems(text + ("]" + rest)) == Some(([j], rest))
  {
    assert ("]" + rest)[1..] == rest;
  }

  lemma NextItem(j: Json, text: string, more: string, items: seq<Json>, rest: string)
    requires ParseValue(text + ("," + more)) == Some((j, "," + more))
    requires ParseItems(more) == Some((items, rest))
    ensures ParseItems(text + ("," + more)) == Some(([j] + items, rest))
  {
    assert ("," + more)[1..] == more;
  }

  lemma KeyRoundTrip(m: Member, ascii: bool, end: string)
    ensures var s, colon := PrintMember(m, ascii) + end, ":" + (Print(m.value, ascii) + end);
            s != "" && s[0] == '"' && ParseChars(s[1..]) == Some((m.key, colon))
            && colon[1..] == Print(m.value, ascii) + end
  {
    hide Print, Escape, ParseChars, ParseValue;
    var s, colon := PrintMember(m, ascii) + end, ":" + (Print(m.value, ascii) + end);
    assert s == PrintStr(m.key, ascii) + colon;
    assert s[1..] == Escape(m.key, ascii) + "\"" + colon;
    CharsRoundTrip(m.key, ascii, colon);
  }

  lemma LastMember(m: Member, ascii: bool, rest: string)
    requires ParseValue(Print(m.value, ascii) + ("}" + rest)) == Some((m.value, "}" + rest))
    ensures ParseMembers(PrintMember(m, ascii) + ("}" + rest)) == Some(([m], rest))
  {
    KeyRoundTrip(m, ascii, "}" + rest);
    assert ("}" + rest)[1..] == rest;
  }

  lemma NextMember(m: Member, ascii: bool, more: string, members: seq<Member>, rest: string)
    requires ParseValue(Print(m.value, ascii) + ("," + more)) == Some((m.value, "," + more))
    requires ParseMembers(more) == Some((members, rest))
    ensures ParseMembers(PrintMember(m, ascii) + ("," + more)) == Some(([m] + members, rest))
  {
    KeyRoundTrip(m, ascii, "," + more);
    assert ("," + more)[1..] == more;
  }

  lemma {:induction false} MembersRoundTrip(members: seq<Member>, ascii: bool, rest: string)
    requires members != []
    ensures ParseMembers(PrintMembers(members, ascii) + rest) == Some((members, rest))
    decreases members
  {
    var m := members[0];
    if |members| == 1 {
      ValueRoundTrip(m.value, ascii, "}" + rest);
      LastMember(m, ascii, rest);
      Assoc(PrintMember(m, ascii), "}", rest);
      assert [m] == members;
    } else {
      var more := PrintMembers(members[1..], ascii);
      MembersRoundTrip(members[1..], ascii, rest);
      ValueRoundTrip(m.value, ascii, "," + (more + rest));
      NextMember(m, ascii, more + rest, members[1..], rest);
      Assoc(",", more, rest);
      Assoc(PrintMember(m, ascii), "," + more, rest);
      assert [m] + members[1..] == members;
    }
  }

  /** Reading canonical text: all of it, or nothing. */
  function Read(text: string): (r: Option<Json>) {
    match ParseValue(text)
    case None => None
    case Some((j, rest)) => if rest == "" then Some(j) else None
  }

  /** The printed form is uniquely decodable, escaped or not: reading inverts printing. */
  lemma ReadInvertsPrint(j: Json, ascii: bool)
    ensures Read(Print(j, ascii)) == Some(j)
  {
    ValueRoundTrip(j, ascii, "");
    assert Print(j, ascii) + "" == Print(j, ascii);
  }

  lemma PrintInjective(a: Json, b: Json, ascii: bool)
    requires Print(a, ascii) == Print(b, ascii)
    ensures a == b
  {
    ReadInvertsPrint(a, ascii);
    ReadInvertsPrint(b, ascii);
  }

  /******* ASCII only *******/

  /** Printable ASCII: the bytes are the characters. */
  predicate Printable(s: string) {
    forall i | 0 <= i < |s| :: 0x20 <= s[i] as int <= 0x7E
  }

  lemma {:induction false} EscapePrintable(s: string)
    ensures Printable(Escape(s, true))
  {
    if s != "" {
      EscapePrintable(s[1..]);
      assert Printable(EscapeChar(s[0], true));
    }
  }

  /** `ensure_ascii` text never holds a byte outside printable ASCII, so encoding
      it as ASCII cannot fail. */
  lemma {:induction false} PrintPrintable(j: Json)
    ensures Printable(Print(j, true))
    decreases j
  {
    match j
    case Null => assert Printable("null");
    case Bool(b) => assert Printable(if b then "true" else "false");
    case Int(n) =>
      DecimalPrintable(if n < 0 then -n else n);
      Enclosed("-", Decimal(if n < 0 then -n else n), "");
    case Str(s) =>
      EscapePrintable(s);
      Enclosed("\"", Escape(s, true), "\"");
    case Arr(items) =>
      if items != [] {
        ItemsPrintable(items);
        Enclosed("[", PrintItems(items, true), "");
      }
    case Obj(members) =>
      if members != [] {
        MembersPrintable(members);
        Enclosed("{", PrintMembers(members, true), "");
      }
  }

  lemma Enclosed(open: string, s: string, close: string)
    requires Printable(open) && Printable(s) && Printable(close)
    ensures Printable(open + s + close) && Printable(open + s)
  {
  }

  lemma {:induction false} DecimalPrintable(n: nat)
    ensures Printable(Decimal(n))
  {
    if n >= 10 {
      DecimalPrintable(n / 10);
    }
  }

  lemma {:induction false} ItemsPrintable(items: seq<Json>)
    requires items != []
    ensures Printable(PrintItems(items, true))
    decreases items
  {
    PrintPrintable(items[0]);
    if |items| > 1 {
      ItemsPrintable(items[1..]);
    }
  }

  lemma {:induction false} MembersPrintable(members: seq<Member>)
    requires members != []
    ensures Printable(PrintMembers(members, true))
    decreases members
  {
    var m := members[0];
    EscapePrintable(m.key);
    PrintPrintable(m.value);
    Enclosed("\"", Escape(m.key, true), "\"");
    Enclosed(PrintStr(m.key, true), ":", Print(m.value, true));
    if |members| > 1 {
      MembersPrintable(members[1..]);
    }
  }

  /******* Closed schemas *******/

  function Keys(members: seq<Member>): (ks: seq<string>)
    ensures |ks| == |members|
    ensures forall i | 0 <= i < |ks| :: ks[i] == members[i].key
  {
    seq(|members|, i requires 0 <= i < |members| => members[i].key)
  }

  /** `strict`: an object with exactly these keys (listed in key order). */
  predicate Strict(j: Json, required: seq<string>) {
    j.Obj? && Keys(j.members) == required
  }

  /** `get`: the value a dict has under a key. */
  function Get(ms: seq<Member>, key: string): (r: Option<Json>)
    ensures r.Some? ==> exists i :: 0 <= i < |ms| && ms[i] == Member(key, r.value)
    ensures r.None? <==> forall i | 0 <= i < |ms| :: ms[i].key != key
  {
    if ms == [] then None else if ms[0].key == key then Some(ms[0].value) else Get(ms[1..], key)
  }

  /** Where the keys differ, each key has its own value. */
  lemma {:induction false} GetAt(ms: seq<Member>, i: nat)
    requires i < |ms| && forall j | 0 <= j < i :: ms[j].key != ms[i].key
    ensures Get(ms, ms[i].key) == Some(ms[i].value)
  {
    if i > 0 {
      GetAt(ms[1..], i - 1);
    }
  }

  lemma GetEach(ms: seq<Member>, keys: seq<string>)
    requires Keys(ms) == keys && forall i, j | 0 <= j < i < |keys| :: keys[j] != keys[i]
    ensures |ms| == |keys| && forall i | 0 <= i < |ms| :: Get(ms, keys[i]) == Some(ms[i].value)
  {
    forall i | 0 <= i < |ms| ensures Get(ms, keys[i]) == Some(ms[i].value) {
      GetAt(ms, i);
    }
  }

  /** Code-point order, the order of `sort_keys`. */
  predicate Before(a: string, b: string) {
    if b == "" then false
    else if a == "" then true
    else a[0] < b[0] || (a[0] == b[0] && Before(a[1..], b[1..]))
  }

  predicate InKeyOrder(keys: seq<string>) {
    forall i | 0 <= i < |keys| - 1 :: Before(keys[i], keys[i + 1])
  }

  lemma {:induction false} BeforeTransitive(a: string, b: string, c: string)
    requires Before(a, b) && Before(b, c)
    ensures Before(a, c)
  {
    if a != "" && a[0] == b[0] == c[0] {
      BeforeTransitive(a[1..], b[1..], c[1..]);
    }
  }

  lemma {:induction false} NotBeforeItself(a: string)
    ensures !Before(a, a)
  {
    if a != "" {
      NotBeforeItself(a[1..]);
    }
  }

  lemma {:induction false} BeforeIsTotal(a: string, b: string)
    requires a != b
    ensures Before(a, b) || Before(b, a)
  {
    if a != "" && b != "" && a[0] == b[0] {
      assert a == [a[0]] + a[1..] && b == [b[0]] + b[1..];
      BeforeIsTotal(a[1..], b[1..]);
    }
  }

  lemma {:induction false} EarlierKey(keys: seq<string>, i: nat, j: nat)
    requires InKeyOrder(keys) && i < j < |keys|
    ensures Before(keys[i], keys[j])
  {
    if i + 1 < j {
      EarlierKey(keys, i, j - 1);
      BeforeTransitive(keys[i], keys[j - 1], keys[j]);
    }
  }

  /** No key twice. */
  predicate AllDiffer(keys: seq<string>) {
    forall i, j | 0 <= j < i < |keys| :: keys[j] != keys[i]
  }

  lemma OrderedDiffer(keys: seq<string>)
    requires InKeyOrder(keys)
    ensures AllDiffer(keys)
  {
    forall i, j | 0 <= j < i < |keys| ensures keys[j] != keys[i] {
      EarlierKey(keys, j, i);
      NotBeforeItself(keys[i]);
    }
  }

  lemma RestInOrder(ms: seq<Member>)
    requires ms != [] && InKeyOrder(Keys(ms))
    ensures InKeyOrder(Keys(ms[1..])) && ms[0] !in ms[1..]
  {
    var keys := Keys(ms);
    assert forall i | 0 <= i < |ms| - 1 :: Keys(ms[1..])[i] == keys[i + 1];
    if ms[0] in ms[1..] {
      var j :| 0 <= j < |ms| - 1 && ms[1..][j] == ms[0];
      EarlierKey(keys, 0, j + 1);
      NotBeforeItself(keys[0]);
      assert false;
    }
  }

  lemma FirstInOrder(a: seq<Member>, b: seq<Member>)
    requires InKeyOrder(Keys(a)) && InKeyOrder(Keys(b))
    requires a != [] && b != [] && a[0] in b && b[0] in a
    ensures a[0] == b[0]
  {
    var j :| 0 <= j < |b| && b[j] == a[0];
    var i :| 0 <= i < |a| && a[i] == b[0];
    if i > 0 && j > 0 {
      EarlierKey(Keys(b), 0, j);
      EarlierKey(Keys(a), 0, i);
      BeforeTransitive(a[0].key, b[0].key, a[0].key);
      NotBeforeItself(a[0].key);
      assert false;
    }
  }

  lemma HasMember(ms: seq<Member>)
    requires ms != []
    ensures exists m :: m in ms
  {
    assert ms[0] in ms;
  }

  /** A dict has one listing in key order: two that hold the same members are one. So
      printing a dict's members in key order depends on the dict alone. */
  lemma {:induction false} OneListing(a: seq<Member>, b: seq<Member>)
    requires InKeyOrder(Keys(a)) && InKeyOrder(Keys(b))
    requires forall m :: m in a <==> m in b
    ensures a == b
  {
    if a == [] {
      if b != [] {
        HasMember(b);
      }
    } else {
      assert a[0] in a;
      assert b != [] by { assert a[0] in b; }
      assert b[0] in b;
      FirstInOrder(a, b);
      RestInOrder(a);
      RestInOrder(b);
      assert a == [a[0]] + a[1..] && b == [b[0]] + b[1..];
      assert forall m :: m in a[1..] <==> m in a && m != a[0];
      assert forall m :: m in b[1..] <==> m in b && m != b[0];
      OneListing(a[1..], b[1..]);
    }
  }

  /** `sort_keys`: a member goes before the first whose key is not before its own. */
  function Place(ms: seq<Member>, m: Member): (r: seq<Member>)
    ensures forall x :: x in r <==> x == m || x in ms
    ensures |r| == |ms| + 1
  {
    if ms == [] || Before(m.key, ms[0].key) then [m] + ms
    else
      assert ms == [ms[0]] + ms[1..];
      [ms[0]] + Place(ms[1..], m)
  }

  function SortKeys(ms: seq<Member>): (r: seq<Member>)
    ensures forall x :: x in r <==> x in ms
    ensures |r| == |ms|
  {
    if ms == [] then []
    else
      assert ms == [ms[0]] + ms[1..];
      Place(SortKeys(ms[1..]), ms[0])
  }

  lemma {:induction false} PlaceInOrder(ms: seq<Member>, m: Member)
    requires InKeyOrder(Keys(ms)) && forall i | 0 <= i < |ms| :: ms[i].key != m.key
    ensures InKeyOrder(Keys(Place(ms, m)))
  {
    if ms != [] && !Before(m.key, ms[0].key) {
      RestInOrder(ms);
      PlaceInOrder(ms[1..], m);
      BeforeIsTotal(m.key, ms[0].key);
      var rest := Place(ms[1..], m);
      assert rest[0] == m || rest[0] == ms[1];
      if rest[0] != m {
        EarlierKey(Keys(ms), 0, 1);
      }
      assert Keys(Place(ms, m)) == [ms[0].key] + Keys(rest);
    } else {
      assert Keys([m] + ms) == [m.key] + Keys(ms);
    }
  }

  /** Sorting a dict's members gives that listing, whatever order they came in. */
  lemma {:induction false} SortKeysInOrder(ms: seq<Member>)
    requires forall i, j | 0 <= i < j < |ms| :: ms[i].key != ms[j].key
    ensures InKeyOrder(Keys(SortKeys(ms)))
  {
    if ms != [] {
      SortKeysInOrder(ms[1..]);
      forall x | x in SortKeys(ms[1..]) ensures x.key != ms[0].key {
        var j :| 0 <= j < |ms| - 1 && ms[1..][j] == x;
        assert ms[j + 1] == x;
      }
      PlaceInOrder(SortKeys(ms[1..]), ms[0]);
    }
  }

  /******* Text files *******/

  predicate IsJsonSpace(c: char) {
    c == ' ' || c == '\t' || c == '\n' || c == '\r'
  }

  /** Whitespace around a value is passed over. */
  function Trim(text: string): (t: string)
  {
    if text != "" && IsJsonSpace(text[0]) then Trim(text[1..])
    else if text != "" && IsJsonSpace(text[|text| - 1]) then Trim(text[..|text| - 1])
    else text
  }

  /** `json.loads`, on text with no whitespace between tokens. */
  function Load(text: string): (r: Option<Json>) {
    Read(Trim(text))
  }

  lemma {:induction false} MembersClose(members: seq<Member>, ascii: bool)
    requires members != []
    ensures var t := PrintMembers(members, ascii); t != "" && t[|t| - 1] == '}'
  {
    if |members| > 1 {
      MembersClose(members[1..], ascii);
    }
  }

  /** An object's text, and the newline a file ends with. */
  lemma LoadInvertsPrint(members: seq<Member>, ascii: bool)
    requires members != []
    ensures Load(Print(Obj(members), ascii) + "\n") == Some(Obj(members))
  {
    var t := Print(Obj(members), ascii);
    MembersClose(members, ascii);
    assert t[0] == '{' && t[|t| - 1] == '}';
    ReadInvertsPrint(Obj(members), ascii);
    assert (t + "\n")[0] == '{' && (t + "\n")[..|t|] == t;
    assert Trim(t + "\n") == Trim(t) == t;
  }
}
