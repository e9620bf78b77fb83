/**
 * src/controllers/tableController.js: the two handlers behind /api/tables.
 * The public/tables directory is an input: a map from each file name to its
 * size in bytes for `existsSync`/`statSync`, and the listing for
 * `readdirSync` (`None` when it throws). Whether `sharp` manages to shrink an
 * image is the argument `optimizeSucceeds`.
 */
module TableController {
  import opened Wrappers
  import opened JsString

  const MinTable: int := 1
  const MaxTable: int := 23
  /** LINE's 1 MB image limit: `bytes / (1024 * 1024) > 1` holds exactly when `bytes > 1048576`. */
  const MaxImageBytes: nat := 1024 * 1024

  const InvalidNumberMessage: string := "無效的桌次號碼，必須是1-23之間的數字"
  const ServerErrorMessage: string := "服務器錯誤"

  /** The value of an ASCII letter or digit as a digit of radix up to 36; -1 for any other character. */
  function DigitValue(c: char): (v: int)
    ensures -1 <= v < 36
    ensures IsDigit(c) ==> v == c as int - '0' as int
  {
    if '0' <= c <= '9' then c as int - '0' as int
    else if 'a' <= c <= 'z' then c as int - 'a' as int + 10
    else if 'A' <= c <= 'Z' then c as int - 'A' as int + 10
    else -1
  }

  predicate IsRadixDigit(c: char, radix: nat) {
    0 <= DigitValue(c) < radix
  }

  /** The longest prefix of `s` made of digits of `radix`. */
  function DigitPrefix(s: string, radix: nat): (p: string)
    ensures |p| <= |s| && p == s[..|p|]
    ensures forall i :: 0 <= i < |p| ==> IsRadixDigit(p[i], radix)
    ensures |p| < |s| ==> !IsRadixDigit(s[|p|], radix)
  {
    if s != [] && IsRadixDigit(s[0], radix) then
      var rest := DigitPrefix(s[1..], radix);
      assert [s[0]] + rest == s[..|rest| + 1];
      [s[0]] + rest
    else []
  }

  /** The value of a string of radix digits, most significant first. */
  function RadixValue(s: string, radix: nat): int
    requires forall i :: 0 <= i < |s| ==> IsRadixDigit(s[i], radix)
  {
    if s == [] then 0
    else
      var init, last := s[..|s| - 1], s[|s| - 1];
      assert forall i :: 0 <= i < |init| ==> init[i] == s[i];
      assert IsRadixDigit(s[|s| - 1], radix);
      var high := RadixValue(init, radix);
      radix * high + DigitValue(last)
  }

  lemma {:induction false} RadixValueDecimal(s: string)
    requires AllDigits(s)
    ensures forall i :: 0 <= i < |s| ==> IsRadixDigit(s[i], 10)
    ensures RadixValue(s, 10) == DecimalValue(s)
  {
    if s != [] {
      RadixValueDecimal(s[..|s| - 1]);
    }
  }

  /**
   * `parseInt(s)` with no radix (`None` is NaN): leading whitespace is skipped,
   * one sign is read, a '0x'/'0X' prefix switches to hexadecimal, and the
   * longest run of digits that follows is the value; anything after it is
   * ignored.
   */
  function ParseInt(s: string): (r: Option<int>)
    ensures r.Some? ==> var t := TrimStart(s); t != [] && (IsDigit(t[0]) || t[0] == '-' || t[0] == '+')
    ensures var t := TrimStart(s);
            t != [] && IsDigit(t[0]) && !(|t| >= 2 && t[0] == '0' && (t[1] == 'x' || t[1] == 'X')) ==> r.Some?
  {
    ParseSigned(TrimStart(s))
  }

  /** One optional sign, then the magnitude, negated after '-'. */
  function ParseSigned(t: string): Option<int> {
    if t != [] && (t[0] == '-' || t[0] == '+') then
      match ParseMagnitude(t[1..])
      case None => None
      case Some(m) => Some(if t[0] == '-' then -m else m)
    else
      ParseMagnitude(t)
  }

  /** An unsigned numeral: hexadecimal after '0x' or '0X', decimal otherwise; None when no digit follows. */
  function ParseMagnitude(u: string): Option<int> {
    var hex := |u| >= 2 && u[0] == '0' && (u[1] == 'x' || u[1] == 'X');
    var radix := if hex then 16 else 10;
    var digits := DigitPrefix(if hex then u[2..] else u, radix);
    if digits == [] then None else Some(RadixValue(digits, radix))
  }

  /** `parseInt` reads back how a positive integer prints, whatever non-digit text follows (`"7x"` is 7). */
  lemma ParseIntDecimalPrefix(n: nat, rest: string)
    requires n >= 1
    requires rest == [] || !IsDigit(rest[0])
    ensures ParseInt(Decimal(n) + rest) == Some(n)
  {
    var s := Decimal(n) + rest;
    var d := Decimal(n);
    assert s[0] == d[0] && IsDigit(d[0]) && !IsWhitespace(s[0]);
    assert TrimStart(s) == s;
    ParseMagnitudeDecimal(d, rest);
  }

  /** A digit string not starting with '0', followed by a non-digit, is read in decimal up to that non-digit. */
  lemma ParseMagnitudeDecimal(d: string, rest: string)
    requires d != [] && AllDigits(d) && d[0] != '0'
    requires rest == [] || !IsDigit(rest[0])
    ensures ParseMagnitude(d + rest) == Some(DecimalValue(d))
  {
    var s := d + rest;
    assert s[0] == d[0];
    RadixValueDecimal(d);
    assert rest != [] ==> !IsRadixDigit(rest[0], 10);
    DigitPrefixOf(d, rest, 10);
  }

  /** The longest radix-digit prefix of `d + rest` is `d` when `rest` does not go on with a digit. */
  lemma {:induction false} DigitPrefixOf(d: string, rest: string, radix: nat)
    requires forall i :: 0 <= i < |d| ==> IsRadixDigit(d[i], radix)
    requires rest == [] || !IsRadixDigit(rest[0], radix)
    ensures DigitPrefix(d + rest, radix) == d
  {
    if d == [] {
      assert d + rest == rest;
    } else {
      assert (d + rest)[0] == d[0] && (d + rest)[1..] == d[1..] + rest;
      DigitPrefixOf(d[1..], rest, radix);
      assert [d[0]] + d[1..] == d;
    }
  }

  /** The sign `parseInt` read, applied to the magnitude it read. */
  function Signed(sign: string, m: Option<int>): Option<int> {
    match m
    case None => None
    case Some(v) => Some(if sign == "-" then -v else v)
  }

  /**
   * Without a radix, an optional sign and a '0x' or '0X' prefix switch `parseInt` to
   * hexadecimal: the run of hex digits after the prefix is the value, negated after '-',
   * and whatever follows the run is ignored.
   */
  lemma ParseIntHex(sign: string, x: char, h: string, rest: string)
    requires sign == "" || sign == "+" || sign == "-"
    requires x == 'x' || x == 'X'
    requires h != [] && forall i :: 0 <= i < |h| ==> IsRadixDigit(h[i], 16)
    requires rest == [] || !IsRadixDigit(rest[0], 16)
    ensures ParseInt(sign + ['0', x] + h + rest) == Signed(sign, Some(RadixValue(h, 16)))
  {
    ConcatFour(sign, ['0', x], h, rest);
    ParseIntSignedHex(sign, x, h + rest);
    DigitPrefixOf(h, rest, 16);
  }

  /** A '0x' prefix with no hex digit after it is NaN: `parseInt("0x")` and `parseInt("-0xg")` are NaN. */
  lemma ParseIntHexNoDigits(sign: string, x: char, rest: string)
    requires sign == "" || sign == "+" || sign == "-"
    requires x == 'x' || x == 'X'
    requires rest == [] || !IsRadixDigit(rest[0], 16)
    ensures ParseInt(sign + ['0', x] + rest) == None
  {
    assert sign + ['0', x] + rest == sign + (['0', x] + rest);
    ParseIntSignedHex(sign, x, rest);
    DigitPrefixOf([], rest, 16);
    assert [] + rest == rest;
  }

  lemma ParseIntSignedHex(sign: string, x: char, tail: string)
    requires sign == "" || sign == "+" || sign == "-"
    requires x == 'x' || x == 'X'
    ensures ParseInt(sign + (['0', x] + tail)) == Signed(sign, HexMagnitude(tail))
  {
    var u := ['0', x] + tail;
    var s := sign + u;
    assert s[0] == (if sign == [] then '0' else sign[0]);
    TrimStartNoLead(s);
    SignedParse(sign, u);
    ParseMagnitudeHex(x, tail);
  }

  /** The value of the hex digit run at the start of `tail`, or None when there is none. */
  function HexMagnitude(tail: string): Option<int> {
    var digits := DigitPrefix(tail, 16);
    if digits == [] then None else Some(RadixValue(digits, 16))
  }

  lemma ConcatFour(a: string, b: string, c: string, d: string)
    ensures a + b + c + d == a + (b + (c + d))
  {
  }

  lemma TrimStartNoLead(s: string)
    requires s != [] && !IsWhitespace(s[0])
    ensures TrimStart(s) == s
  {
  }

  lemma SignedParse(sign: string, u: string)
    requires sign == "" || sign == "+" || sign == "-"
    requires u != [] && u[0] != '-' && u[0] != '+'
    ensures ParseSigned(sign + u) == Signed(sign, ParseMagnitude(u))
  {
    if sign == [] {
      assert sign + u == u;
    } else {
      assert (sign + u)[0] == sign[0] && (sign + u)[1..] == u;
    }
  }

  lemma ParseMagnitudeHex(x: char, tail: string)
    requires x == 'x' || x == 'X'
    ensures ParseMagnitude(['0', x] + tail) == HexMagnitude(tail)
  {
    assert (['0', x] + tail)[2..] == tail;
  }

  /** `table_${n}.png`. */
  function TableFileName(n: nat): string {
    "table_" + Decimal(n) + ".png"
  }

  /** What `getTableImage` sends: a 400 or 404 JSON error, or the image (shrunk, or the original file). */
  datatype TableImageResponse =
    | BadRequest(message: string)
    | NotFound(message: string)
    | OptimizedImage(fileName: string)
    | OriginalImage(fileName: string)
  {
    function Status(): int {
      match this
      case BadRequest(_) => 400
      case NotFound(_) => 404
      case _ => 200
    }
  }

  /** The number `getTableImage` accepts: `parseInt` of the parameter, when it is a number in 1..23. */
  predicate ValidTableNumber(p: Option<int>) {
    p.Some? && MinTable <= p.value <= MaxTable
  }

  /**
   * `getTableImage`: 400 unless the parameter parses to a number in 1..23;
   * 404 when table_<n>.png is missing; otherwise the file, shrunk when it is
   * larger than 1 MiB and the shrinking succeeds, as is in every other case.
   */
  function TableImage(param: string, files: map<string, nat>, optimizeSucceeds: bool): (r: TableImageResponse)
    ensures r.Status() == 400 <==> !ValidTableNumber(ParseInt(param))
    ensures r.BadRequest? ==> r.message == InvalidNumberMessage
    ensures ValidTableNumber(ParseInt(param)) ==>
              var name := TableFileName(ParseInt(param).value);
              && (r.NotFound? <==> name !in files)
              && (r.NotFound? ==> r.message == "桌次 " + Decimal(ParseInt(param).value) + " 的圖片不存在")
              && (r.OptimizedImage? <==> name in files && files[name] > MaxImageBytes && optimizeSucceeds)
              && (r.OriginalImage? <==> name in files && (files[name] <= MaxImageBytes || !optimizeSucceeds))
              && (r.OptimizedImage? || r.OriginalImage? ==> r.fileName == name)
  {
    var parsed := ParseInt(param);
    if !ValidTableNumber(parsed) then BadRequest(InvalidNumberMessage)
    else
      var n := parsed.value;
      var name := TableFileName(n);
      if name !in files then NotFound("桌次 " + Decimal(n) + " 的圖片不存在")
      else if files[name] > MaxImageBytes && optimizeSucceeds then OptimizedImage(name)
      else OriginalImage(name)
  }

  /** Length of the run of ASCII digits that starts at `s[i]`. */
  function DigitRun(s: string, i: nat): (k: nat)
    requires i <= |s|
    ensures i + k <= |s| && AllDigits(s[i..i + k])
    ensures i + k < |s| ==> !IsDigit(s[i + k])
    decreases |s| - i
  {
    if i < |s| && IsDigit(s[i]) then
      var k := 1 + DigitRun(s, i + 1);
      assert s[i..i + k] == [s[i]] + s[i + 1..i + k];
      k
    else 0
  }

  /**
   * `/table_(\d+)\.png/` matches at position `p`. Since '.' is not a digit,
   * the greedy `\d+` can only succeed with the whole digit run.
   */
  predicate MatchesAt(s: string, p: nat)
    ensures MatchesAt(s, p) ==> p + 11 <= |s| && IsDigit(s[p + 6])
  {
    p + 6 <= |s| && s[p..p + 6] == "table_"
    && var k := DigitRun(s, p + 6);
       k >= 1 && p + 10 + k <= |s| && s[p + 6 + k..p + 10 + k] == ".png"
  }

  /** The leftmost match at or after `from`, as `String.prototype.match` finds it. */
  function FirstMatch(s: string, from: nat): (p: Option<nat>)
    requires from <= |s|
    ensures p.Some? ==> from <= p.value <= |s| && MatchesAt(s, p.value)
    ensures p.Some? ==> forall q :: from <= q < p.value ==> !MatchesAt(s, q)
    ensures p.None? ==> forall q :: from <= q <= |s| ==> !MatchesAt(s, q)
    decreases |s| - from
  {
    if MatchesAt(s, from) then Some(from)
    else if from == |s| then None
    else FirstMatch(s, from + 1)
  }

  /** `match ? parseInt(match[1]) : null` for one file name. */
  function TableNumberOf(file: string): (n: Option<nat>)
    ensures n.Some? <==> exists p :: 0 <= p <= |file| && MatchesAt(file, p)
  {
    match FirstMatch(file, 0)
    case None => None
    case Some(p) => Some(DecimalValue(file[p + 6..p + 6 + DigitRun(file, p + 6)]))
  }

  /** A name `table_<digits>.png` carries the number its digits spell, leading zeros and all. */
  lemma TableNumberOfCanonical(d: string)
    requires d != [] && AllDigits(d)
    ensures TableNumberOf("table_" + d + ".png") == Some(DecimalValue(d))
  {
    var s := "table_" + d + ".png";
    assert |s| == 10 + |d|;
    assert s[..6] == "table_" && s[6..6 + |d|] == d && s[6 + |d|..10 + |d|] == ".png";
    DigitRunOf(s, 6, |d|);
    assert MatchesAt(s, 0);
    NumberAtStart(s, |d|);
  }

  /** A match at the very start is the first one, and its digit run is the number. */
  lemma NumberAtStart(s: string, k: nat)
    requires MatchesAt(s, 0) && DigitRun(s, 6) == k
    ensures TableNumberOf(s) == Some(DecimalValue(s[6..6 + k]))
  {
    assert FirstMatch(s, 0) == Some(0);
  }

  /** The file `getTableImage` serves for table `n` is listed under the number `n`. */
  lemma TableFileNameRoundTrip(n: nat)
    ensures TableNumberOf(TableFileName(n)) == Some(n)
  {
    TableNumberOfCanonical(Decimal(n));
  }

  lemma {:induction false} DigitRunOf(s: string, i: nat, k: nat)
    requires i + k <= |s| && AllDigits(s[i..i + k])
    requires i + k < |s| ==> !IsDigit(s[i + k])
    ensures DigitRun(s, i) == k
    decreases k
  {
    if k > 0 {
      assert s[i] == s[i..i + k][0];
      assert s[i + 1..i + k] == s[i..i + k][1..];
      DigitRunOf(s, i + 1, k - 1);
    }
  }

  /** `file.startsWith('table_') && file.endsWith('.png')`. */
  predicate IsTableFile(file: string)
    ensures IsTableFile(file) ==> |file| >= 10
  {
    var named := StartsWith(file, "table_") && EndsWith(file, ".png");
    assert named ==> file[|file| - 4] == '.' && forall i :: 0 <= i < 6 ==> file[i] != '.';
    named
  }

  /** The map and the null filter of `getAvailableTables`: the numbers of the file names that match, in order. */
  function MatchedNumbers(files: seq<string>): (numbers: seq<nat>)
    ensures |numbers| <= |files|
  {
    if files == [] then []
    else
      var rest := MatchedNumbers(files[1..]);
      match TableNumberOf(files[0])
      case None => rest
      case Some(n) => [n] + rest
  }

  /** One file contributes its number when its name carries one, and nothing otherwise. */
  lemma MatchedNumbersSingle(f: string)
    ensures MatchedNumbers([f]) == if TableNumberOf(f).Some? then [TableNumberOf(f).value] else []
  {
    assert [f][1..] == [];
  }

  /** Each file is read on its own: the numbers of a concatenation are the numbers of its parts, in order. */
  lemma {:induction false} MatchedNumbersAppend(a: seq<string>, b: seq<string>)
    ensures MatchedNumbers(a + b) == MatchedNumbers(a) + MatchedNumbers(b)
  {
    if a != [] {
      var f, tail := a[0], a[1..];
      assert a == [f] + tail;
      assert a + b == [f] + (tail + b);
      MatchedNumbersCons(f, tail);
      MatchedNumbersCons(f, tail + b);
      MatchedNumbersAppend(tail, b);
      calc {
        MatchedNumbers(a + b);
        MatchedNumbers([f]) + MatchedNumbers(tail + b);
        MatchedNumbers([f]) + (MatchedNumbers(tail) + MatchedNumbers(b));
        (MatchedNumbers([f]) + MatchedNumbers(tail)) + MatchedNumbers(b);
      }
    } else {
      assert a + b == b;
    }
  }

  lemma MatchedNumbersCons(f: string, rest: seq<string>)
    ensures MatchedNumbers([f] + rest) == MatchedNumbers([f]) + MatchedNumbers(rest)
  {
    assert ([f] + rest)[1..] == rest;
    MatchedNumbersSingle(f);
  }

  /** A number is listed for each candidate file whose name carries it. */
  lemma {:induction false} MatchedNumbersExact(files: seq<string>, n: nat)
    ensures n in MatchedNumbers(files) <==> exists f :: f in files && TableNumberOf(f) == Some(n)
  {
    if files != [] {
      MatchedNumbersExact(files[1..], n);
      assert forall f :: f in files <==> f == files[0] || f in files[1..];
    }
  }

  ghost predicate Sorted(s: seq<nat>) {
    forall i, j :: 0 <= i < j < |s| ==> s[i] <= s[j]
  }

  ghost predicate AtLeast(lo: nat, s: seq<nat>) {
    forall k :: 0 <= k < |s| ==> lo <= s[k]
  }

  lemma AtLeastPermutation(lo: nat, a: seq<nat>, b: seq<nat>)
    requires AtLeast(lo, a) && multiset(a) == multiset(b)
    ensures AtLeast(lo, b)
  {
    forall k | 0 <= k < |b| ensures lo <= b[k] {
      assert b[k] in multiset(a);
      var i :| 0 <= i < |a| && a[i] == b[k];
    }
  }

  function Insert(x: nat, s: seq<nat>): (r: seq<nat>)
    requires Sorted(s)
    ensures Sorted(r) && multiset(r) == multiset(s) + multiset{x}
  {
    if s == [] || x <= s[0] then
      SortedAtLeastHead(s, x);
      SortedCons(x, s);
      [x] + s
    else
      var rest := Insert(x, s[1..]);
      assert s == [s[0]] + s[1..];
      SortedAtLeastHead(s[1..], s[0]);
      assert AtLeast(s[0], s[1..] + [x]);
      AtLeastPermutation(s[0], s[1..] + [x], rest);
      SortedCons(s[0], rest);
      [s[0]] + rest
  }

  /** A lower bound of the head of a sorted list bounds all of it. */
  lemma SortedAtLeastHead(s: seq<nat>, lo: nat)
    requires Sorted(s) && (s == [] || lo <= s[0])
    ensures AtLeast(lo, s)
  {
    forall k | 0 <= k < |s| ensures lo <= s[k] {
      if k > 0 {
        assert s[0] <= s[k];
      }
    }
  }

  lemma SortedCons(h: nat, t: seq<nat>)
    requires Sorted(t) && AtLeast(h, t)
    ensures Sorted([h] + t)
  {
    var s := [h] + t;
    forall i, j | 0 <= i < j < |s| ensures s[i] <= s[j] {
      assert s[j] == t[j - 1];
      if i > 0 {
        assert s[i] == t[i - 1];
      }
    }
  }

  /** `.sort((a, b) => a - b)`: ascending numeric order, duplicates kept. */
  function SortAscending(s: seq<nat>): (r: seq<nat>)
    ensures Sorted(r) && multiset(r) == multiset(s)
  {
    if s == [] then []
    else
      assert s == [s[0]] + s[1..];
      Insert(s[0], SortAscending(s[1..]))
  }

  /** Two sorted arrangements of the same numbers are the same sequence, so any correct sort agrees with this one. */
  lemma {:induction false} SortedUnique(a: seq<nat>, b: seq<nat>)
    requires Sorted(a) && Sorted(b) && multiset(a) == multiset(b)
    ensures a == b
  {
    if a != [] {
      SameHeads(a, b);
      SameTails(a, b);
      SortedTail(a);
      SortedTail(b);
      SortedUnique(a[1..], b[1..]);
    }
  }

  lemma SameHeads(a: seq<nat>, b: seq<nat>)
    requires Sorted(a) && Sorted(b) && multiset(a) == multiset(b) && a != []
    ensures b != [] && a[0] == b[0]
  {
    assert a[0] in multiset(a);
    assert b != [];
    assert b[0] in multiset(b);
    SortedHeadIsLeast(a, b[0]);
    SortedHeadIsLeast(b, a[0]);
  }

  lemma SameTails(a: seq<nat>, b: seq<nat>)
    requires a != [] && b != [] && a[0] == b[0] && multiset(a) == multiset(b)
    ensures multiset(a[1..]) == multiset(b[1..])
  {
    assert a == [a[0]] + a[1..];
    assert b == [b[0]] + b[1..];
    assert multiset(a[1..]) == multiset(a) - multiset{a[0]};
    assert multiset(b[1..]) == multiset(b) - multiset{b[0]};
  }

  lemma SortedTail(a: seq<nat>)
    requires Sorted(a) && a != []
    ensures Sorted(a[1..])
  {
  }

  lemma SortedHeadIsLeast(a: seq<nat>, x: nat)
    requires Sorted(a) && x in multiset(a)
    ensures a[0] <= x
  {
    var i :| 0 <= i < |a| && a[i] == x;
  }

  /** The JSON `getAvailableTables` sends. */
  datatype TablesResponse =
    | TablesOk(tables: seq<nat>, count: nat)
    | TablesError(message: string)

  /**
   * `getAvailableTables`: 500 when the directory cannot be read; otherwise
   * every table number carried by a `table_<digits>.png` file, in ascending
   * order with duplicates kept, and their count.
   */
  function AvailableTables(listing: Option<seq<string>>): (r: TablesResponse)
    ensures r.TablesError? <==> listing.None?
    ensures r.TablesError? ==> r.message == ServerErrorMessage
    ensures r.TablesOk? ==>
              && Sorted(r.tables)
              && multiset(r.tables) == multiset(MatchedNumbers(Filter(IsTableFile, listing.value)))
              && r.count == |r.tables|
  {
    if listing.None? then TablesError(ServerErrorMessage)
    else
      var tables := SortAscending(MatchedNumbers(Filter(IsTableFile, listing.value)));
      TablesOk(tables, |tables|)
  }

  /** A number is listed exactly when some `table_…png` file of the directory carries it. */
  lemma AvailableTablesExact(listing: seq<string>, n: nat)
    ensures n in AvailableTables(Some(listing)).tables <==>
            exists f :: f in listing && IsTableFile(f) && TableNumberOf(f) == Some(n)
  {
    var candidates := Filter(IsTableFile, listing);
    var numbers := MatchedNumbers(candidates);
    var tables := AvailableTables(Some(listing)).tables;
    assert n in tables <==> n in multiset(numbers);
    MatchedNumbersExact(candidates, n);
    forall f | f in listing && IsTableFile(f)
      ensures f in candidates
    {
      FilterKeeps(IsTableFile, listing, f);
    }
  }

  /**
   * Two names whose digits spell the same number (table_01.png and table_1.png) are both
   * listed, so the number appears twice.
   */
  lemma DuplicatesKept(files: seq<string>, d1: string, d2: string)
    requires d1 != [] && AllDigits(d1) && d2 != [] && AllDigits(d2)
    requires DecimalValue(d1) == DecimalValue(d2)
    requires files == ["table_" + d1 + ".png", "table_" + d2 + ".png"]
    ensures AvailableTables(Some(files)).tables == [DecimalValue(d1), DecimalValue(d1)]
  {
    var v := DecimalValue(d1);
    TableNamed(files[0], d1);
    TableNamed(files[1], d2);
    TwoListed(files[0], files[1], v);
    SortTwoEqual(v);
  }

  lemma TwoListed(f1: string, f2: string, v: nat)
    requires IsTableFile(f1) && TableNumberOf(f1) == Some(v)
    requires IsTableFile(f2) && TableNumberOf(f2) == Some(v)
    ensures MatchedNumbers(Filter(IsTableFile, [f1, f2])) == [v, v]
  {
    assert [f1, f2][1..] == [f2] && [f2][1..] == [];
    assert Filter(IsTableFile, [f1, f2]) == [f1, f2];
  }

  lemma SortTwoEqual(v: nat)
    ensures SortAscending([v, v]) == [v, v]
  {
    assert [v, v][1..] == [v] && [v][1..] == [];
  }

  /** A leading zero does not change the value: table_01.png reads as table 1. */
  lemma {:induction false} LeadingZeroIgnored(d: string)
    requires AllDigits(d)
    ensures AllDigits("0" + d) && DecimalValue("0" + d) == DecimalValue(d)
  {
    var z := "0" + d;
    if d != [] {
      assert z[..|z| - 1] == "0" + d[..|d| - 1];
      assert z[|z| - 1] == d[|d| - 1];
      LeadingZeroIgnored(d[..|d| - 1]);
    }
  }

  lemma TableNamed(file: string, d: string)
    requires d != [] && AllDigits(d) && file == "table_" + d + ".png"
    ensures IsTableFile(file) && TableNumberOf(file) == Some(DecimalValue(d))
  {
    TableNumberOfCanonical(d);
    assert file[..6] == "table_" && file[|file| - 4..] == ".png";
  }
}
