/** The canonical JSON text behind every task digest, and a parser that inverts it.

    A stored jsonb value is a finite tree whose objects are unordered maps; its
    canonical text prints members in byte order of their keys.  The parser below accepts
    the JSON of RFC 8259 sections 4 to 7 without insignificant whitespace, numbers without
    exponent as the database prints them, and members in any order. */
module CanonicalJson {

  /** Byte order of UTF-8 text, which is code point order (`collate "C"`). */
  predicate Less(a: string, b: string) {
    b != "" && (a == "" || a[0] < b[0] || (a[0] == b[0] && Less(a[1..], b[1..])))
  }

  lemma LessIsStrictOrder(a: string, b: string, c: string)
    ensures !Less(a, a)
    ensures Less(a, b) && Less(b, c) ==> Less(a, c)
    ensures Less(a, b) || a == b || Less(b, a)
  {
    if a != "" && b != "" && c != "" { LessIsStrictOrder(a[1..], b[1..], c[1..]); }
    if a != "" && b != "" {
      LessIsStrictOrder(a[1..], b[1..], "");
      assert a[0] == b[0] && a[1..] == b[1..] ==> a == [a[0]] + a[1..] == b;
    }
    if a != "" { LessIsStrictOrder(a[1..], a[1..], ""); }
  }

  /** The first difference of two texts is at k, and there a is smaller or ends. */
  predicate FirstSmallerAt(a: string, b: string, k: nat) {
    && k <= |a| && k < |b| && a[..k] == b[..k]
    && (k == |a| || a[k] < b[k])
  }

  /** What byte order means, character by character: a ends where b goes on, or has the smaller
      code point at the first difference. */
  predicate Precedes(a: string, b: string) { exists k: nat :: k <= |a| && FirstSmallerAt(a, b, k) }

  lemma {:induction false} LessMeans(a: string, b: string)
    ensures Less(a, b) <==> Precedes(a, b)
  {
    if a != "" && b != "" {
      LessMeans(a[1..], b[1..]);
      if a[0] == b[0] {
        forall k: nat | k < |a| ensures FirstSmallerAt(a, b, k + 1) <==> FirstSmallerAt(a[1..], b[1..], k) {
          if k < |b| { HeadTail(a, b, k); }
        }
      }
    }
    assert FirstSmallerAt(a, b, 0) <==> b != "" && (a == "" || a[0] < b[0]);
    forall k: nat | k <= |a| && FirstSmallerAt(a, b, k) ensures Less(a, b) {
      if k > 0 { assert a[..k][0] == b[..k][0] && FirstSmallerAt(a[1..], b[1..], k - 1); }
    }
  }

  lemma HeadTail(a: string, b: string, k: nat)
    requires k < |a| && k < |b| && a[0] == b[0]
    ensures a[..k + 1] == b[..k + 1] <==> a[1..][..k] == b[1..][..k]
  {
    assert a[..k + 1] == [a[0]] + a[1..][..k] && b[..k + 1] == [b[0]] + b[1..][..k];
    assert a[1..][..k] == a[..k + 1][1..] && b[1..][..k] == b[..k + 1][1..];
  }

  // ------------------------------------------------------------------ values

  predicate IsDigit(c: char) { '0' <= c <= '9' }

  function DigitRun(s: string): (n: nat)
    ensures n <= |s|
  {
    if s != "" && IsDigit(s[0]) then 1 + DigitRun(s[1..]) else 0
  }

  /** The plain decimal form in which a stored number prints: no exponent. */
  predicate IsNumber(s: string) {
    var u := if s != "" && s[0] == '-' then s[1..] else s;
    var i := DigitRun(u);
    i > 0 && (u[0] == '0' ==> i == 1)
    && (i == |u| || (u[i] == '.' && i + 1 < |u| && DigitRun(u[i + 1..]) == |u| - i - 1))
  }

  predicate AllDigits(s: string) { forall i :: 0 <= i < |s| ==> '0' <= s[i] <= '9' }

  function NumberText(minus: bool, whole: string, fraction: string): string {
    (if minus then "-" else "") + whole + (if fraction == "" then "" else "." + fraction)
  }

  /** RFC 8259 section 6 without the exponent: sign, digits without leading zero, fraction. */
  predicate IsNumberOf(s: string, minus: bool, whole: string, fraction: string) {
    && s == NumberText(minus, whole, fraction)
    && whole != "" && AllDigits(whole) && (whole[0] == '0' ==> |whole| == 1) && AllDigits(fraction)
  }

  lemma DigitsStep(c: char, t: string)
    ensures AllDigits([c] + t) <==> IsDigit(c) && AllDigits(t)
  {
    var s := [c] + t;
    assert s[0] == c && forall i :: 0 <= i < |t| ==> s[i + 1] == t[i];
    assert forall i :: 0 < i < |s| ==> s[i] == t[i - 1];
  }

  lemma {:induction false} DigitRunMeans(s: string, n: nat)
    requires n <= |s|
    ensures DigitRun(s) == n <==> AllDigits(s[..n]) && (n < |s| ==> !IsDigit(s[n]))
  {
    if s != "" && n > 0 {
      DigitRunMeans(s[1..], n - 1);
      assert s[..n] == [s[0]] + s[1..][..n - 1];
      DigitsStep(s[0], s[1..][..n - 1]);
    }
  }

  lemma NumberMeans(s: string)
    ensures IsNumber(s) <==> exists minus, whole, fraction :: IsNumberOf(s, minus, whole, fraction)
  {
    if IsNumber(s) {
      var minus, whole, fraction := NumberParts(s);
    }
    forall minus, whole, fraction | IsNumberOf(s, minus, whole, fraction) ensures IsNumber(s) {
      PartsMakeNumber(s, minus, whole, fraction);
    }
  }

  lemma NumberParts(s: string) returns (minus: bool, whole: string, fraction: string)
    requires IsNumber(s)
    ensures IsNumberOf(s, minus, whole, fraction)
  {
    minus := s[0] == '-';
    var u := if minus then s[1..] else s;
    whole, fraction := UnsignedParts(u);
    assert s == if minus then "-" + u else u;
    assert NumberText(false, whole, fraction) == u;
  }

  lemma UnsignedParts(u: string) returns (whole: string, fraction: string)
    requires u != "" && u[0] != '-' && IsNumber(u)
    ensures IsNumberOf(u, false, whole, fraction)
  {
    var i := DigitRun(u);
    DigitRunMeans(u, i);
    if i == |u| {
      whole, fraction := u, "";
      assert u[..i] == u;
    } else {
      whole, fraction := u[..i], u[i + 1..];
      DigitRunMeans(fraction, |fraction|);
      assert fraction[..|fraction|] == fraction;
      assert u == whole + ("." + fraction);
    }
  }

  lemma PartsMakeNumber(s: string, minus: bool, whole: string, fraction: string)
    requires IsNumberOf(s, minus, whole, fraction)
    ensures IsNumber(s)
  {
    var u := NumberText(false, whole, fraction);
    assert (if s[0] == '-' then s[1..] else s) == u by {
      assert s == if minus then "-" + u else u;
      assert u[0] == whole[0];
    }
    UnsignedIsNumber(u, whole, fraction);
  }

  lemma UnsignedIsNumber(u: string, whole: string, fraction: string)
    requires IsNumberOf(u, false, whole, fraction)
    ensures u[0] != '-' && IsNumber(u)
  {
    assert u[..|whole|] == whole && u[0] == whole[0];
    DigitRunMeans(u, |whole|);
    if fraction != "" {
      assert u[|whole| + 1..] == fraction;
      assert fraction[..|fraction|] == fraction;
      DigitRunMeans(fraction, |fraction|);
    }
  }

  type Number = s: string | IsNumber(s) witness "0"

  datatype Json =
    | Null
    | Bool(truth: bool)
    | Num(text: Number)
    | Str(chars: string)
    | Arr(items: seq<Json>)
    | Obj(members: map<string, Json>)

  // ----------------------------------------------------------------- printing

  function HexDigit(n: nat): char
    requires n < 16
  {
    "0123456789abcdef"[n]
  }

  function EscapedChar(c: char): string {
    if c == '\"' then "\\\""
    else if c == '\\' then "\\\\"
    else if c == '\U{8}' then "\\b"
    else if c == '\U{c}' then "\\f"
    else if c == '\n' then "\\n"
    else if c == '\r' then "\\r"
    else if c == '\t' then "\\t"
    else if c < ' ' then ['\\', 'u', '0', '0', HexDigit(c as int / 16), HexDigit(c as int % 16)]
    else [c]
  }

  function Escaped(s: string): string {
    if s == "" then "" else EscapedChar(s[0]) + Escaped(s[1..])
  }

  function Quoted(s: string): string { "\"" + Escaped(s) + "\"" }

  function Insert(k: string, sorted: seq<string>): seq<string> {
    if sorted == [] || Less(k, sorted[0]) then [k] + sorted
    else [sorted[0]] + Insert(k, sorted[1..])
  }

  /** `order by key collate "C"` over rows delivered in any order. */
  function InsertionSort(rows: seq<string>): (r: seq<string>)
    ensures multiset(r) == multiset(rows)
  {
    if rows == [] then [] else
      InsertMultiset(rows[0], InsertionSort(rows[1..]));
      assert rows == [rows[0]] + rows[1..];
      Insert(rows[0], InsertionSort(rows[1..]))
  }

  lemma InsertMultiset(k: string, s: seq<string>)
    ensures multiset(Insert(k, s)) == multiset(s) + multiset{k}
  {
    if s != [] {
      InsertMultiset(k, s[1..]);
      assert s == [s[0]] + s[1..];
    }
  }

  /** Some order in which the rows of an object are delivered. */
  ghost function Rows(keys: set<string>): (r: seq<string>)
    ensures IsEnumeration(r, keys)
  {
    if keys == {} then [] else
      var k :| k in keys;
      var r := Rows(keys - {k});
      assert forall x :: x in [k] + r <==> x == k || x in r;
      [k] + r
  }

  ghost predicate IsEnumeration(r: seq<string>, keys: set<string>) {
    (forall k :: k in r <==> k in keys) && (forall i, j :: 0 <= i < j < |r| ==> r[i] != r[j])
  }

  lemma SortEnumerates(rows: seq<string>)
    ensures forall k :: k in InsertionSort(rows) <==> k in rows
  {
    forall k ensures k in InsertionSort(rows) <==> k in rows {
      assert k in multiset(InsertionSort(rows)) <==> k in multiset(rows);
    }
  }

  /** The canonical text of a value. */
  ghost function Text(v: Json): string
    decreases v, 1
  {
    match v
    case Null => "null"
    case Bool(b) => if b then "true" else "false"
    case Num(t) => t
    case Str(s) => Quoted(s)
    case Arr(items) => "[" + ItemsText(items, v) + "]"
    case Obj(members) =>
      var rows := Rows(members.Keys);
      SortEnumerates(rows);
      "{" + MembersText(members, InsertionSort(rows), v) + "}"
  }

  ghost function ItemsText(items: seq<Json>, owner: Json): string
    requires forall i :: 0 <= i < |items| ==> items[i] < owner
    decreases owner, 0, |items|
  {
    if items == [] then ""
    else if |items| == 1 then Text(items[0])
    else Text(items[0]) + "," + ItemsText(items[1..], owner)
  }

  ghost function MembersText(members: map<string, Json>, keys: seq<string>, owner: Json): string
    requires owner == Obj(members)
    requires forall k :: k in keys ==> k in members
    decreases owner, 0, |keys|
  {
    if keys == [] then ""
    else
      var one := Quoted(keys[0]) + ":" + Text(members[keys[0]]);
      if |keys| == 1 then one else one + "," + MembersText(members, keys[1..], owner)
  }

  ghost function Restrict(members: map<string, Json>, keys: seq<string>): map<string, Json>
    requires forall k :: k in keys ==> k in members
  {
    map k | k in keys :: members[k]
  }

  // ------------------------------------------------- row order never matters

  predicate Ascending(s: seq<string>) {
    forall i, j :: 0 <= i < j < |s| ==> Less(s[i], s[j])
  }

  lemma AscendingMeans(s: seq<string>)
    ensures Ascending(s) <==> forall i, j :: 0 <= i < j < |s| ==> Precedes(s[i], s[j])
  {
    forall i, j | 0 <= i < j < |s| ensures Less(s[i], s[j]) <==> Precedes(s[i], s[j]) { LessMeans(s[i], s[j]); }
  }

  lemma InsertAscending(k: string, s: seq<string>)
    requires Ascending(s) && k !in s
    ensures Ascending(Insert(k, s))
  {
    InsertMultiset(k, s);
    if s == [] {
    } else if Less(k, s[0]) {
      forall j | 0 <= j < |s| ensures Less(k, s[j]) { LessIsStrictOrder(k, s[0], s[j]); }
    } else {
      LessIsStrictOrder(k, s[0], "");
      InsertAscending(k, s[1..]);
      var r := Insert(k, s[1..]);
      InsertMultiset(k, s[1..]);
      forall j | 0 <= j < |r| ensures Less(s[0], r[j]) {
        assert r[j] in multiset(r);
        assert r[j] == k || r[j] in s[1..];
      }
    }
  }

  lemma SortAscending(rows: seq<string>)
    requires forall i, j :: 0 <= i < j < |rows| ==> rows[i] != rows[j]
    ensures Ascending(InsertionSort(rows))
    ensures var r := InsertionSort(rows); forall i, j :: 0 <= i < j < |r| ==> Precedes(r[i], r[j])
  {
    if rows != [] {
      SortAscending(rows[1..]);
      SortEnumerates(rows[1..]);
      InsertAscending(rows[0], InsertionSort(rows[1..]));
    }
    AscendingMeans(InsertionSort(rows));
  }

  lemma AscendingIsUnique(a: seq<string>, b: seq<string>)
    requires Ascending(a) && Ascending(b)
    requires forall k :: k in a <==> k in b
    ensures a == b
  {
    assert b != [] ==> b[0] in a;
    if a != [] {
      assert a[0] in b;
      var i :| 0 <= i < |b| && b[i] == a[0];
      assert b[0] in a;
      var j :| 0 <= j < |a| && a[j] == b[0];
      LessIsStrictOrder(a[0], b[0], a[0]);
      assert a[0] == b[0];
      forall k ensures k in a[1..] <==> k in b[1..] {
        LessIsStrictOrder(a[0], k, k);
        assert k in a <==> k == a[0] || k in a[1..];
        assert k in b <==> k == b[0] || k in b[1..];
      }
      AscendingIsUnique(a[1..], b[1..]);
    }
  }

  /** However the object's rows are delivered, the text is the same. */
  lemma RowOrderIrrelevant(members: map<string, Json>, rows: seq<string>)
    requires IsEnumeration(rows, members.Keys)
    ensures forall k :: k in InsertionSort(rows) ==> k in members
    ensures Text(Obj(members)) == "{" + MembersText(members, InsertionSort(rows), Obj(members)) + "}"
  {
    var chosen := Rows(members.Keys);
    SortEnumerates(rows);
    SortEnumerates(chosen);
    SortAscending(rows);
    SortAscending(chosen);
    AscendingIsUnique(InsertionSort(rows), InsertionSort(chosen));
  }

  /** An object prints its members in code point order of their keys, whatever the rows. */
  lemma MembersPrintInOrder(members: map<string, Json>, keys: seq<string>)
    requires forall k :: k in keys <==> k in members
    requires forall i, j :: 0 <= i < j < |keys| ==> Precedes(keys[i], keys[j])
    ensures Text(Obj(members)) == "{" + MembersText(members, keys, Obj(members)) + "}"
  {
    var rows := Rows(members.Keys);
    SortEnumerates(rows);
    SortAscending(rows);
    AscendingMeans(keys);
    AscendingIsUnique(InsertionSort(rows), keys);
  }

  // ------------------------------------------------------------------ parsing

  datatype Parse<T> = Failed | Parsed(value: T, rest: string)

  /** Characters that may continue a number (RFC 8259 section 6). */
  predicate NumberChar(c: char) { IsDigit(c) || c in "+-.eE" }

  function NumberRun(s: string): (n: nat)
    ensures n <= |s|
  {
    if s != "" && NumberChar(s[0]) then 1 + NumberRun(s[1..]) else 0
  }

  function HexValue(c: char): (n: int)
    ensures n < 16
  {
    if IsDigit(c) then c as int - '0' as int
    else if 'a' <= c <= 'f' then c as int - 'a' as int + 10
    else if 'A' <= c <= 'F' then c as int - 'A' as int + 10
    else -1
  }

  /** The four digits of a \uXXXX escape of a character outside the surrogate range. */
  function ParseHex(s: string): (r: Parse<char>)
    ensures r.Parsed? ==> |r.rest| < |s|
  {
    if |s| < 4 || HexValue(s[0]) < 0 || HexValue(s[1]) < 0 || HexValue(s[2]) < 0 || HexValue(s[3]) < 0 then Failed
    else
      var n := HexValue(s[0]) * 4096 + HexValue(s[1]) * 256 + HexValue(s[2]) * 16 + HexValue(s[3]);
      if 0xD800 <= n < 0xE000 then Failed else Parsed(n as char, s[4..])
  }

  /** One character of a string body: raw, a two-character escape, or \uXXXX. */
  function ParseChar(s: string): (r: Parse<char>)
    ensures r.Parsed? ==> |r.rest| < |s|
  {
    if s == "" || s[0] == '\"' || s[0] < ' ' then Failed
    else if s[0] != '\\' then Parsed(s[0], s[1..])
    else if |s| < 2 then Failed
    else match s[1] {
      case '\"' => Parsed('\"', s[2..])
      case '\\' => Parsed('\\', s[2..])
      case '/' => Parsed('/', s[2..])
      case 'b' => Parsed('\U{8}', s[2..])
      case 'f' => Parsed('\U{c}', s[2..])
      case 'n' => Parsed('\n', s[2..])
      case 'r' => Parsed('\r', s[2..])
      case 't' => Parsed('\t', s[2..])
      case 'u' => ParseHex(s[2..])
      case _ => Failed
    }
  }

  /** The rest of a string after its opening quote. */
  function ParseChars(s: string, acc: string): (r: Parse<string>)
    ensures r.Parsed? ==> |r.rest| < |s|
    decreases |s|
  {
    if s != "" && s[0] == '\"' then Parsed(acc, s[1..])
    else match ParseChar(s)
      case Failed => Failed
      case Parsed(c, rest) => ParseChars(rest, acc + [c])
  }

  function ParseValue(s: string): (r: Parse<Json>)
    ensures r.Parsed? ==> |r.rest| < |s|
    decreases |s|, 0
  {
    if s == "" then Failed
    else if s[0] == '\"' then
      match ParseChars(s[1..], "") {
        case Failed => Failed
        case Parsed(t, rest) => Parsed(Str(t), rest)
      }
    else if s[0] == '[' then
      if |s| > 1 && s[1] == ']' then Parsed(Arr([]), s[2..]) else ParseItems(s[1..], [])
    else if s[0] == '{' then
      if |s| > 1 && s[1] == '}' then Parsed(Obj(map[]), s[2..]) else ParseMembers(s[1..], map[])
    else if "null" <= s then Parsed(Null, s[4..])
    else if "true" <= s then Parsed(Bool(true), s[4..])
    else if "false" <= s then Parsed(Bool(false), s[5..])
    else
      var n := NumberRun(s);
      if IsNumber(s[..n]) then Parsed(Num(s[..n]), s[n..]) else Failed
  }

  function ParseItems(s: string, acc: seq<Json>): (r: Parse<Json>)
    ensures r.Parsed? ==> |r.rest| < |s|
    decreases |s|, 1
  {
    match ParseValue(s)
    case Failed => Failed
    case Parsed(v, rest) =>
      if rest != "" && rest[0] == ',' then ParseItems(rest[1..], acc + [v])
      else if rest != "" && rest[0] == ']' then Parsed(Arr(acc + [v]), rest[1..])
      else Failed
  }

  function ParseMembers(s: string, acc: map<string, Json>): (r: Parse<Json>)
    ensures r.Parsed? ==> |r.rest| < |s|
    decreases |s|, 1
  {
    if s == "" || s[0] != '\"' then Failed
    else match ParseChars(s[1..], "") {
      case Failed => Failed
      case Parsed(k, afterKey) =>
        if afterKey == "" || afterKey[0] != ':' then Failed
        else match ParseValue(afterKey[1..]) {
          case Failed => Failed
          case Parsed(v, rest) =>
            if rest != "" && rest[0] == ',' then ParseMembers(rest[1..], acc[k := v])
            else if rest != "" && rest[0] == '}' then Parsed(Obj(acc[k := v]), rest[1..])
            else Failed
        }
    }
  }

  // --------------------------------------------------------------- round trip

  lemma HexRoundTrip(c: char, rest: string)
    requires c < ' '
    ensures ParseHex(['0', '0', HexDigit(c as int / 16), HexDigit(c as int % 16)] + rest) == Parsed(c, rest)
  {
    var s := ['0', '0', HexDigit(c as int / 16), HexDigit(c as int % 16)] + rest;
    assert s[4..] == rest;
    assert HexValue(s[2]) == c as int / 16 && HexValue(s[3]) == c as int % 16;
  }

  lemma CharRoundTrip(c: char, rest: string)
    ensures EscapedChar(c)[0] != '\"'
    ensures ParseChar(EscapedChar(c) + rest) == Parsed(c, rest)
  {
    var e := EscapedChar(c);
    var s := e + rest;
    if |e| == 6 {
      HexRoundTrip(c, rest);
      assert s[2..] == ['0', '0', HexDigit(c as int / 16), HexDigit(c as int % 16)] + rest;
    } else {
      assert s[|e|..] == rest;
    }
  }

  /** The escape printed for a character is the shortest text that reads as it, and among
      those the only one with lower-case hexadecimal digits. */
  lemma EscapeIsShortest(c: char, t: string)
    requires ParseChar(t) == Parsed(c, "")
    ensures |EscapedChar(c)| <= |t|
    ensures |EscapedChar(c)| == |t| && (|t| == 6 ==> forall i :: 2 <= i < 6 ==> !('A' <= t[i] <= 'F'))
      ==> t == EscapedChar(c)
  {
    if t[0] == '\\' && t[1] == 'u' {
      HexIsLongest(c, t);
      if |EscapedChar(c)| == 6 && forall i :: 2 <= i < 6 ==> !('A' <= t[i] <= 'F') { HexIsUnique(c, t[2..]); }
    } else {
      ShortEscapes(c, t);
    }
  }

  lemma HexIsLongest(c: char, t: string)
    requires |t| > 1 && t[0] == '\\' && t[1] == 'u' && ParseChar(t) == Parsed(c, "")
    ensures |t| == 6 && ParseHex(t[2..]) == Parsed(c, "") && |EscapedChar(c)| <= 6
    ensures |EscapedChar(c)| == 6 ==> c < ' '
  {
  }

  lemma ShortEscapes(c: char, t: string)
    requires ParseChar(t) == Parsed(c, "") && !(t[0] == '\\' && t[1] == 'u')
    ensures |EscapedChar(c)| <= |t| <= 2
    ensures |EscapedChar(c)| == |t| ==> t == EscapedChar(c)
  {
    assert |t| == if t[0] == '\\' then 2 else 1;
  }

  lemma HexIsUnique(c: char, h: string)
    requires c < ' ' && ParseHex(h) == Parsed(c, "") && forall i :: 0 <= i < |h| ==> !('A' <= h[i] <= 'F')
    ensures h == ['0', '0', HexDigit(c as int / 16), HexDigit(c as int % 16)]
  {
    assert HexValue(h[0]) == HexValue(h[1]) == 0;
    assert HexValue(h[2]) == c as int / 16 && HexValue(h[3]) == c as int % 16;
  }

  lemma CharStep(e: string, c: char, tail: string, acc: string)
    requires e != "" && e[0] != '\"' && ParseChar(e + tail) == Parsed(c, tail)
    ensures ParseChars(e + tail, acc) == ParseChars(tail, acc + [c])
  {
  }

  lemma EscapedStep(s: string, end: string)
    requires s != ""
    ensures Escaped(s) + end == EscapedChar(s[0]) + (Escaped(s[1..]) + end)
  {
  }

  lemma AppendHead<T>(acc: seq<T>, s: seq<T>)
    requires s != []
    ensures acc + [s[0]] + s[1..] == acc + s
  {
  }

  lemma CharsEnd(acc: string, rest: string)
    ensures ParseChars(Escaped("") + ("\"" + rest), acc) == Parsed(acc + "", rest)
  {
    assert Escaped("") + ("\"" + rest) == "\"" + rest;
    assert ("\"" + rest)[1..] == rest;
    assert acc + "" == acc;
  }

  lemma {:induction false} CharsRoundTrip(s: string, acc: string, rest: string)
    ensures ParseChars(Escaped(s) + ("\"" + rest), acc) == Parsed(acc + s, rest)
  {
    if s == "" {
      CharsEnd(acc, rest);
    } else {
      CharsRoundTrip(s[1..], acc + [s[0]], rest);
      CharsStep(s, acc, "\"" + rest);
      AppendHead(acc, s);
    }
  }

  lemma CharsStep(s: string, acc: string, end: string)
    requires s != ""
    ensures ParseChars(Escaped(s) + end, acc) == ParseChars(Escaped(s[1..]) + end, acc + [s[0]])
  {
    var tail := Escaped(s[1..]) + end;
    CharRoundTrip(s[0], tail);
    EscapedStep(s, end);
    CharStep(EscapedChar(s[0]), s[0], tail, acc);
  }

  lemma QuotedRoundTrip(s: string, rest: string)
    ensures (Quoted(s) + rest)[0] == '\"'
    ensures ParseChars((Quoted(s) + rest)[1..], "") == Parsed(s, rest)
  {
    assert (Quoted(s) + rest)[1..] == Escaped(s) + ("\"" + rest);
    CharsRoundTrip(s, "", rest);
    assert "" + s == s;
  }

  /** Text that could be read as more of a number. */
  predicate ExtendsNumber(rest: string) { rest != "" && NumberChar(rest[0]) }

  lemma {:induction false} DigitsAreNumberChars(s: string, rest: string)
    requires forall i :: 0 <= i < |s| ==> NumberChar(s[i])
    requires !ExtendsNumber(rest)
    ensures NumberRun(s + rest) == |s|
  {
    if s == "" {
      assert s + rest == rest;
    } else {
      assert (s + rest)[1..] == s[1..] + rest;
      assert forall i :: 0 <= i < |s[1..]| ==> s[1..][i] == s[i + 1];
      DigitsAreNumberChars(s[1..], rest);
    }
  }

  lemma DigitRunDigits(s: string)
    ensures forall i :: 0 <= i < DigitRun(s) ==> IsDigit(s[i])
  {
  }

  lemma NumberShape(t: Number)
    ensures t != "" && (t[0] == '-' || IsDigit(t[0]))
    ensures forall i :: 0 <= i < |t| ==> NumberChar(t[i])
  {
    var u: string := if t[0] == '-' then t[1..] else t;
    var i := DigitRun(u);
    DigitRunDigits(u);
    if i < |u| { DigitRunDigits(u[i + 1..]); }
    forall j | 0 <= j < |u| ensures NumberChar(u[j]) {
      if j > i { assert u[j] == u[i + 1..][j - i - 1]; }
    }
  }

  lemma NumberRoundTrip(t: Number, rest: string)
    requires !ExtendsNumber(rest)
    ensures ParseValue(t + rest) == Parsed(Num(t), rest)
  {
    NumberShape(t);
    DigitsAreNumberChars(t, rest);
    assert (t + rest)[..|t|] == t && (t + rest)[|t|..] == rest;
    assert (t + rest)[0] == t[0];
  }

  lemma LiteralRoundTrip(v: Json, rest: string)
    requires v.Null? || v.Bool?
    ensures ParseValue(Text(v) + rest) == Parsed(v, rest)
  {
    var t, s := Text(v), Text(v) + rest;
    assert s[..|t|] == t && s[|t|..] == rest;
    assert s[0] == t[0];
  }

  /** Parsing the canonical text followed by anything gives the value back and leaves
      the remainder untouched; only a number can run into what follows it. */
  lemma {:induction false} RoundTrip(v: Json, rest: string)
    requires v.Num? ==> !ExtendsNumber(rest)
    ensures ParseValue(Text(v) + rest) == Parsed(v, rest)
    decreases v, 2
  {
    match v
    case Null => LiteralRoundTrip(v, rest);
    case Bool(_) => LiteralRoundTrip(v, rest);
    case Num(t) => NumberRoundTrip(t, rest);
    case Str(t) => QuotedRoundTrip(t, rest);
    case Arr(items) => ArrayRoundTrip(items, v, rest);
    case Obj(members) => ObjectRoundTrip(members, v, rest);
  }

  lemma {:induction false} ArrayRoundTrip(items: seq<Json>, v: Json, rest: string)
    requires v == Arr(items)
    ensures ParseValue(Text(v) + rest) == Parsed(v, rest)
    decreases v, 1, 0
  {
    var s := Text(v) + rest;
    if items == [] {
      assert s[2..] == rest;
    } else {
      assert s[1..] == ItemsText(items, v) + "]" + rest;
      ItemsRoundTrip(items, v, [], rest);
      ItemsStart(items, v);
      assert [] + items == items;
    }
  }

  /** What an object's text is made of: a sorted enumeration of its keys. */
  lemma ObjectText(members: map<string, Json>, rest: string) returns (keys: seq<string>, body: string)
    ensures forall k :: k in keys <==> k in members
    ensures Restrict(members, keys) == members && map[] + Restrict(members, keys) == members
    ensures body == MembersText(members, keys, Obj(members)) + "}" + rest
    ensures Text(Obj(members)) + rest == "{" + body
    ensures keys != [] ==> body[0] == '\"'
    ensures keys == [] ==> members == map[] && body == "}" + rest
  {
    keys := InsertionSort(Rows(members.Keys));
    SortEnumerates(Rows(members.Keys));
    RestrictAll(members, keys);
    var inner := MembersText(members, keys, Obj(members));
    body := inner + "}" + rest;
    assert Text(Obj(members)) == "{" + inner + "}";
    if keys == [] {
      assert inner == "";
    } else {
      MembersStart(members, keys, Obj(members));
    }
  }

  lemma RestrictAll(members: map<string, Json>, keys: seq<string>)
    requires forall k :: k in keys <==> k in members
    ensures Restrict(members, keys) == members && map[] + Restrict(members, keys) == members
    ensures keys == [] ==> members == map[]
  {
    if keys == [] { assert members.Keys == {}; }
  }

  lemma MembersStart(members: map<string, Json>, keys: seq<string>, owner: Json)
    requires owner == Obj(members) && keys != []
    requires forall k :: k in keys ==> k in members
    ensures MembersText(members, keys, owner) != "" && MembersText(members, keys, owner)[0] == '\"'
  {
  }

  lemma {:induction false} ObjectRoundTrip(members: map<string, Json>, v: Json, rest: string)
    requires v == Obj(members)
    ensures ParseValue(Text(v) + rest) == Parsed(v, rest)
    decreases v, 1, 0
  {
    var keys, body := ObjectText(members, rest);
    if keys == [] {
      EmptyObject(body, rest);
    } else {
      MembersRoundTrip(members, keys, v, map[], rest);
      ObjectStep(body, v, rest);
    }
  }

  lemma EmptyObject(body: string, rest: string)
    requires body == "}" + rest
    ensures ParseValue("{" + body) == Parsed(Obj(map[]), rest)
  {
    assert ("{" + body)[2..] == rest;
  }

  lemma ObjectStep(body: string, v: Json, rest: string)
    requires body != "" && body[0] == '\"' && ParseMembers(body, map[]) == Parsed(v, rest)
    ensures ParseValue("{" + body) == Parsed(v, rest)
  {
    assert ("{" + body)[1..] == body;
  }

  /** No value's text starts with a closing bracket. */
  lemma TextStart(v: Json)
    ensures Text(v) != "" && Text(v)[0] != ']'
  {
    if v.Num? { NumberShape(v.text); }
  }

  lemma ItemsStart(items: seq<Json>, owner: Json)
    requires items != [] && forall i :: 0 <= i < |items| ==> items[i] < owner
    ensures ItemsText(items, owner) != "" && ItemsText(items, owner)[0] != ']'
  {
    TextStart(items[0]);
  }

  /** Reading one item with text t off the front of an array body. */
  lemma ItemStep(t: string, v: Json, tail: string, more: string, acc: seq<Json>)
    requires ParseValue(t + tail) == Parsed(v, tail)
    requires tail == "," + more || tail == "]" + more
    ensures ParseItems(t + tail, acc) ==
      if tail[0] == ',' then ParseItems(more, acc + [v]) else Parsed(Arr(acc + [v]), more)
  {
    assert tail[1..] == more;
  }

  lemma ItemsTextStep(items: seq<Json>, owner: Json, rest: string)
    requires items != [] && forall i :: 0 <= i < |items| ==> items[i] < owner
    ensures ItemsText(items, owner) + "]" + rest ==
      var tail := if |items| == 1 then "]" + rest else "," + (ItemsText(items[1..], owner) + "]" + rest);
      Text(items[0]) + tail
  {
  }

  lemma {:induction false} ItemsRoundTrip(items: seq<Json>, owner: Json, acc: seq<Json>, rest: string)
    requires items != [] && forall i :: 0 <= i < |items| ==> items[i] < owner
    ensures ParseItems(ItemsText(items, owner) + "]" + rest, acc) == Parsed(Arr(acc + items), rest)
    decreases owner, 0, |items|
  {
    var more := if |items| == 1 then rest else ItemsText(items[1..], owner) + "]" + rest;
    var tail := if |items| == 1 then "]" + more else "," + more;
    ItemsTextStep(items, owner, rest);
    RoundTrip(items[0], tail);
    ItemStep(Text(items[0]), items[0], tail, more, acc);
    if |items| == 1 {
      assert items == [items[0]];
    } else {
      ItemsRoundTrip(items[1..], owner, acc + [items[0]], rest);
      AppendHead(acc, items);
    }
  }

  lemma RestrictStep(members: map<string, Json>, keys: seq<string>, acc: map<string, Json>)
    requires keys != [] && forall k :: k in keys ==> k in members
    ensures acc[keys[0] := members[keys[0]]] + Restrict(members, keys[1..]) == acc + Restrict(members, keys)
    ensures |keys| == 1 ==> acc[keys[0] := members[keys[0]]] == acc + Restrict(members, keys)
  {
    assert keys == [keys[0]] + keys[1..];
  }

  /** Reading one member, key text q and value text t, off the front of an object body. */
  lemma MemberStep(q: string, k: string, t: string, v: Json, tail: string, acc: map<string, Json>)
    requires q != "" && q[0] == '\"'
    requires ParseChars((q + (":" + (t + tail)))[1..], "") == Parsed(k, ":" + (t + tail))
    requires ParseValue(t + tail) == Parsed(v, tail)
    ensures ParseMembers(q + (":" + (t + tail)), acc) ==
      if tail != "" && tail[0] == ',' then ParseMembers(tail[1..], acc[k := v])
      else if tail != "" && tail[0] == '}' then Parsed(Obj(acc[k := v]), tail[1..])
      else Failed
  {
    var afterKey := ":" + (t + tail);
    assert afterKey[1..] == t + tail;
  }

  lemma {:induction false} MembersRoundTrip(
      members: map<string, Json>, keys: seq<string>, owner: Json, acc: map<string, Json>, rest: string)
    requires owner == Obj(members) && keys != []
    requires forall k :: k in keys ==> k in members
    ensures ParseMembers(MembersText(members, keys, owner) + "}" + rest, acc)
         == Parsed(Obj(acc + Restrict(members, keys)), rest)
    decreases owner, 0, |keys|
  {
    var k, v := keys[0], members[keys[0]];
    var q, t := Quoted(k), Text(v);
    var more := if |keys| == 1 then "}" + rest else MembersText(members, keys[1..], owner) + "}" + rest;
    var tail := if |keys| == 1 then more else "," + more;
    RoundTrip(v, tail);
    QuotedRoundTrip(k, ":" + (t + tail));
    MemberStep(q, k, t, v, tail, acc);
    MembersTextStep(members, keys, owner, rest);
    RestrictStep(members, keys, acc);
    if |keys| == 1 {
      assert tail[1..] == rest;
    } else {
      assert tail[1..] == more;
      MembersRoundTrip(members, keys[1..], owner, acc[k := v], rest);
    }
  }

  lemma MembersTextStep(members: map<string, Json>, keys: seq<string>, owner: Json, rest: string)
    requires owner == Obj(members) && keys != []
    requires forall k :: k in keys ==> k in members
    ensures MembersText(members, keys, owner) + "}" + rest ==
      var tail := if |keys| == 1 then "}" + rest else "," + (MembersText(members, keys[1..], owner) + "}" + rest);
      Quoted(keys[0]) + (":" + (Text(members[keys[0]]) + tail))
  {
  }

  /** Equal canonical texts mean equal values: the text is unambiguous. */
  lemma TextIsInjective(v: Json, w: Json)
    ensures Text(v) == Text(w) <==> v == w
  {
    assert Text(v) + "" == Text(v) && Text(w) + "" == Text(w);
    RoundTrip(v, "");
    RoundTrip(w, "");
  }

  /** No canonical text is a proper prefix of another, unless a number is cut short. */
  lemma TextIsPrefixFree(v: Json, w: Json)
    requires Text(v) <= Text(w) && !v.Num?
    ensures v == w
  {
    var rest := Text(w)[|Text(v)|..];
    assert Text(v) + rest == Text(w) == Text(w) + "";
    RoundTrip(v, rest);
    RoundTrip(w, "");
  }

  /** With a collision-free hash of text, a task digest identifies its value. */
  lemma DigestIdentifiesValue(sha256: string -> string, v: Json, w: Json)
    requires forall a, b :: sha256(a) == sha256(b) ==> a == b
    ensures sha256(Text(v)) == sha256(Text(w)) <==> v == w
  {
    TextIsInjective(v, w);
  }
}
