/**
 * src/services/guestService.js: seat lookup over a local CSV file.
 * File access becomes input: the text of data/guests.csv (`None` when
 * `readFileSync` throws), the set of file names present in public/tables,
 * and the `HOST_URL` variable.
 */
module GuestService {
  import opened Wrappers
  import opened JsString
  import opened GuestRows

  /** `tableNames`: the display name of each of the tables 1..23. */
  const TableNames: map<string, string> := map[
      "1" := "主桌",
      "2" := "爸爸同學",
      "3" := "泡茶好朋友",
      "4" := "後備軍人",
      "5" := "建功親友",
      "6" := "女方親友",
      "7" := "男方親友",
      "8" := "黃氏家族",
      "9" := "爸爸朋友",
      "10" := "女方親戚",
      "11" := "咚咚大姿\n心動系!",
      "12" := "陽光兒女\n永遠18歲!",
      "13" := "永峻麻吉&\n魚親愛的家人",
      "14" := "沐Gym微晨\n榮譽校友桌",
      "15" := "誠樸勇仁!\n94姿優班",
      "16" := "Volando",
      "17" := "小腳丫親子\n俱樂部",
      "18" := "黃氏家族",
      "19" := "黃氏家族",
      "20" := "媽媽親友",
      "21" := "打鐵夥伴",
      "22" := "打鐵夥伴",
      "23" := "打鐵親戚"
    ]

  /** The base of `getTableImageUrl` when `HOST_URL` is unset or empty. */
  const DefaultHostUrl: string := "http://localhost:3000"

  const SeatMessagePrefix: string := "您的桌號是:第"
  const NotFoundMessage: string := "哎呀是不是打錯名字了呢，請重新輸入。\nNot found, please try again."

  /** `data.trim().split('\n')`. */
  function CsvLines(file: string): (lines: seq<string>)
    ensures |lines| >= 1
    ensures forall k, j :: 0 <= k < |lines| && 0 <= j < |lines[k]| ==> lines[k][j] != '\n'
    ensures Join(lines, '\n') == Trim(file)
  {
    JoinSplit(Trim(file), '\n');
    Split(Trim(file), '\n')
  }

  /** `const [name, table] = line.split(',')`: the first two comma-separated fields; later fields are ignored. */
  function CsvRecord(line: string): (r: Record)
    ensures ',' !in r.name && ',' !in r.table
    ensures ',' !in line ==> r == Record(line, [])
  {
    var fields := Split(line, ',');
    assert ',' !in line ==> fields == [line] by {
      if ',' !in line {
        SplitSeparatorFree(line, ',');
      }
    }
    Record(Field(fields, 0), Field(fields, 1))
  }

  function CsvRecords(lines: seq<string>): (records: seq<Record>)
    ensures |records| == |lines|
    ensures forall i :: 0 <= i < |lines| ==> records[i] == CsvRecord(lines[i])
  {
    seq(|lines|, i requires 0 <= i < |lines| => CsvRecord(lines[i]))
  }

  /** What `loadGuests` returns for the file content `file` (`None`: the read failed). */
  function CsvGuests(file: Option<string>): (guests: map<string, string>)
    ensures file.None? ==> guests == map[]
    ensures forall name :: name in guests ==> name != [] && ',' !in name
  {
    if file.None? then map[]
    else
      var records := CsvRecords(CsvLines(file.value));
      KeysAreNames(records);
      Guests(records)
  }

  /** Every key is the non-empty name field of some record. */
  lemma KeysAreNames(records: seq<Record>)
    requires forall i :: 0 <= i < |records| ==> ',' !in records[i].name
    ensures forall name :: name in Guests(records) ==> name != [] && ',' !in name
  {
    forall name | name in Guests(records)
      ensures name != [] && ',' !in name
    {
      GuestsValues(records, |records|, name);
    }
  }

  /** `loadGuests`: an unreadable file gives an empty map, a readable one the map of its lines. */
  method LoadGuests(file: Option<string>) returns (guests: map<string, string>)
    ensures guests == CsvGuests(file)
  {
    if file.None? {
      return map[];
    }
    guests := CollectGuests(CsvLines(file.value));
  }

  /** The loop of `loadGuests` (lines 48-53) over the lines after the header. */
  method CollectGuests(lines: seq<string>) returns (guests: map<string, string>)
    ensures guests == Guests(CsvRecords(lines))
  {
    guests := map[];
    ghost var records := CsvRecords(lines);
    var i := 1;
    while i < |lines|
      invariant 1 <= i
      invariant guests == GuestsUpTo(records, if i <= |lines| then i else |lines|)
    {
      var row := CsvRecord(lines[i]);
      assert records[i] == row;
      if row.name != [] && row.table != [] {
        guests := guests[row.name := Trim(row.table)];
      }
      i := i + 1;
    }
  }

  /** A file that is blank after trimming, or holds only a header line, gives no guests. */
  lemma HeaderOnlyFileIsEmpty(file: string)
    requires '\n' !in Trim(file)
    ensures CsvGuests(Some(file)) == map[]
  {
    SplitSeparatorFree(Trim(file), '\n');
  }

  /**
   * A name is found exactly when some line after the header has it as its first
   * field and a non-empty second field; the value comes from the last such line,
   * with its table field trimmed (a trailing carriage return included).
   */
  lemma CsvLookup(file: string, name: string)
    ensures var lines := CsvLines(file);
            name in CsvGuests(Some(file)) <==>
            exists i :: 1 <= i < |lines| && Kept(CsvRecord(lines[i])) && CsvRecord(lines[i]).name == name
  {
    var lines := CsvLines(file);
    var records := CsvRecords(lines);
    GuestsKeys(records, |records|, name);
    if exists i :: 1 <= i < |lines| && Kept(CsvRecord(lines[i])) && CsvRecord(lines[i]).name == name {
      var i :| 1 <= i < |lines| && Kept(CsvRecord(lines[i])) && CsvRecord(lines[i]).name == name;
      assert records[i] == CsvRecord(lines[i]);
    }
  }

  /** The table stored for a name is the trimmed second field of the last line that carries the name. */
  lemma CsvLastLineWins(file: string, i: nat)
    requires var lines := CsvLines(file); 1 <= i < |lines| && Kept(CsvRecord(lines[i]))
    requires var lines := CsvLines(file);
             forall j :: i < j < |lines| && Kept(CsvRecord(lines[j])) ==> CsvRecord(lines[j]).name != CsvRecord(lines[i]).name
    ensures var r := CsvRecord(CsvLines(file)[i]);
            r.name in CsvGuests(Some(file)) && CsvGuests(Some(file))[r.name] == Trim(r.table)
  {
    var records := CsvRecords(CsvLines(file));
    GuestsLastWins(records, |records|, i);
  }

  /** A line `name,table` with a CRLF ending keeps the raw name as key and drops the carriage return from the table only. */
  lemma CrlfLine(name: string, table: string)
    requires name != [] && ',' !in name
    requires table != [] && ',' !in table && Trimmed(table)
    ensures CsvRecord(name + [','] + table + ['\r']) == Record(name, table + ['\r'])
    ensures Trim(table + ['\r']) == table
  {
    var t := table + ['\r'];
    assert name + [','] + table + ['\r'] == name + [','] + t;
    CsvPair(name, t);
    TrimPadded([], table, ['\r']);
    assert [] + table + ['\r'] == t;
  }

  /** A line with exactly one comma splits into the text before it and the text after it. */
  lemma CsvPair(name: string, table: string)
    requires ',' !in name && ',' !in table
    ensures CsvRecord(name + [','] + table) == Record(name, table)
  {
    SplitPrefix(name, table, ',');
    SplitSeparatorFree(table, ',');
  }

  /** `tableNames[table] || ''`. */
  function TableName(table: string): (name: string)
    ensures table in TableNames ==> name == TableNames[table]
    ensures table !in TableNames ==> name == []
  {
    if table in TableNames then TableNames[table] else []
  }

  /** The named tables include every number 1..23, written as JavaScript prints them. */
  lemma TableNamesCoverOneToTwentyThree(n: nat)
    requires 1 <= n <= 23
    ensures Decimal(n) in TableNames && TableName(Decimal(n)) != []
  {
    if n < 10 {
      assert Decimal(n) == [('0' as int + n) as char];
    } else {
      var tens, units := ('0' as int + n / 10) as char, ('0' as int + n % 10) as char;
      assert Decimal(n / 10) == [tens];
      assert Decimal(n) == [tens, units];
      if n < 20 {
        assert tens == '1';
      } else {
        assert tens == '2' && units <= '3';
      }
    }
  }

  /** `getTableImageUrl`. */
  function TableImageUrl(hostUrl: Option<string>, tableNumber: string): (url: string)
    ensures hostUrl.None? || hostUrl.value == [] ==> url == DefaultHostUrl + "/api/tables/" + tableNumber
    ensures hostUrl.Some? && hostUrl.value != [] ==> url == hostUrl.value + "/api/tables/" + tableNumber
  {
    EnvOr(hostUrl, DefaultHostUrl) + "/api/tables/" + tableNumber
  }

  /** `table_${table}.png`. */
  function TableFileName(table: string): (f: string)
    ensures |f| == |table| + 10 && StartsWith(f, "table_") && EndsWith(f, ".png") && f[6..|f| - 4] == table
  {
    "table_" + table + ".png"
  }

  /** The object `querySeat` returns. */
  datatype SeatResult =
    | SeatFound(message: string, tableNumber: string, tableName: string,
                imageExists: bool, imageUrl: string, imageFileName: string)
    | SeatNotFound(message: string)

  /**
   * `querySeat(name)`: reads the file afresh (no cache), succeeds exactly when
   * `name` is a key as stored, and then reports the table, its display name, the
   * image file and whether it exists; otherwise the fixed retry message.
   */
  function QuerySeat(file: Option<string>, tableImages: set<string>, hostUrl: Option<string>, name: string): (r: SeatResult)
    ensures r.SeatFound? <==> name in CsvGuests(file)
    ensures r.SeatFound? ==>
              var table := CsvGuests(file)[name];
              && r.tableNumber == table
              && r.tableName == TableName(table)
              && r.message == SeatMessagePrefix + table + "桌(" + r.tableName + ")"
              && r.imageFileName == TableFileName(table)
              && r.imageExists == (TableFileName(table) in tableImages)
              && r.imageUrl == TableImageUrl(hostUrl, table)
    ensures r.SeatNotFound? ==> r.message == NotFoundMessage
  {
    var guests := CsvGuests(file);
    if name in guests then
      var table := guests[name];
      var tableName := TableName(table);
      SeatFound(SeatMessagePrefix + table + "桌(" + tableName + ")", table, tableName,
                TableFileName(table) in tableImages, TableImageUrl(hostUrl, table), TableFileName(table))
    else
      SeatNotFound(NotFoundMessage)
  }

  /** A found table number never carries surrounding whitespace, since it was trimmed on load. */
  lemma FoundTableIsTrimmed(file: Option<string>, tableImages: set<string>, hostUrl: Option<string>, name: string)
    requires QuerySeat(file, tableImages, hostUrl, name).SeatFound?
    ensures Trimmed(QuerySeat(file, tableImages, hostUrl, name).tableNumber)
  {
    var records := CsvRecords(CsvLines(file.value));
    GuestsValues(records, |records|, name);
  }
}
