/**
 * config/index.js: the exported configuration object, computed from the
 * process environment.
 */
module Config {
  import opened Wrappers
  import opened JsString

  /** The environment variables the configuration reads; `None` is an unset variable. */
  datatype Environment = Environment(
    port: Option<string>,                // PORT
    host: Option<string>,                // HOST
    channelAccessToken: Option<string>,  // CHANNEL_ACCESS_TOKEN
    channelSecret: Option<string>,       // CHANNEL_SECRET
    staffIds: Option<string>)            // STAFF_IDS

  /** `process.env.PORT || 3000` is the variable's string when it is set and non-empty, else the number 3000. */
  datatype Port = EnvPort(raw: string) | DefaultPort(number: nat)

  datatype ServerConfig = ServerConfig(port: Port, host: string)
  datatype LineBotConfig = LineBotConfig(channelAccessToken: Option<string>, channelSecret: Option<string>, staffIds: seq<string>)
  datatype StorageConfig = StorageConfig(enabled: bool, bucketName: string, projectId: string)
  /** The section the spreadsheet loader reads (`keyFilePath`, `spreadsheetId`, `range`). */
  datatype SheetsConfig = SheetsConfig(keyFilePath: string, spreadsheetId: string, range: string)

  datatype AppConfig = AppConfig(
    server: ServerConfig,
    lineBot: LineBotConfig,
    googleCloudStorage: StorageConfig,
    imgurEnabled: bool,
    googleSheets: Option<SheetsConfig>)  // the exported object has no such key

  const DefaultPortNumber: nat := 3000
  const DefaultHost: string := "localhost"
  const StorageBucket: string := "kgerickg-wedding-bot"
  const StorageProject: string := "neon-metric-459818-v5"

  predicate NonBlank(id: string) {
    Trim(id) != []
  }

  /** `lineBot.staffIds`: `STAFF_IDS` split on commas, keeping (untrimmed) only the pieces that are not blank. */
  function StaffIds(v: Option<string>): (ids: seq<string>)
    ensures forall k :: 0 <= k < |ids| ==> NonBlank(ids[k])
    ensures forall k, j :: 0 <= k < |ids| && 0 <= j < |ids[k]| ==> ids[k][j] != ','
    ensures v.None? ==> ids == []
  {
    var parts := Split(EnvOr(v, ""), ',');
    assert v.None? ==> parts == [[]];
    var ids := Filter(NonBlank, parts);
    assert forall k :: 0 <= k < |ids| ==> ids[k] in parts;
    ids
  }

  /** A kept id is a piece of the variable between commas, and every such piece that is not blank is kept. */
  lemma StaffIdsExact(raw: string, id: string)
    ensures id in StaffIds(Some(raw)) <==> id in Split(raw, ',') && NonBlank(id)
  {
    if id in Split(raw, ',') && NonBlank(id) {
      FilterKeeps(NonBlank, Split(EnvOr(Some(raw), ""), ','), id);
    }
  }

  /** Order is preserved: the ids of `a,b` are the ids of `a` followed by the ids of `b`. */
  lemma StaffIdsConcat(a: string, b: string)
    ensures StaffIds(Some(a + [','] + b)) == StaffIds(Some(a)) + StaffIds(Some(b))
  {
    SplitAppend(a, b, ',');
    FilterAppend(NonBlank, Split(a, ','), Split(b, ','));
    StaffIdsOfSet(a + [','] + b);
    StaffIdsOfSet(a);
    StaffIdsOfSet(b);
  }

  lemma StaffIdsOfSet(raw: string)
    ensures StaffIds(Some(raw)) == Filter(NonBlank, Split(raw, ','))
  {
    assert EnvOr(Some(raw), "") == raw;
  }

  /** A single comma-free, non-blank value is one id, kept with its surrounding spaces. */
  lemma StaffIdsSingle(id: string)
    requires ',' !in id && NonBlank(id)
    ensures StaffIds(Some(id)) == [id]
  {
    SplitSeparatorFree(id, ',');
    assert id != [];
  }

  /** Splitting around one separator splits each side independently. */
  lemma {:induction false} SplitAppend(a: string, b: string, sep: char)
    ensures Split(a + [sep] + b, sep) == Split(a, sep) + Split(b, sep)
  {
    var s := a + [sep] + b;
    if a == [] {
      assert s[0] == sep && s[1..] == b;
    } else if a[0] == sep {
      assert s[0] == sep && s[1..] == a[1..] + [sep] + b;
      SplitAppend(a[1..], b, sep);
    } else {
      assert s[0] == a[0] && s[1..] == a[1..] + [sep] + b;
      SplitAppend(a[1..], b, sep);
    }
  }

  /** `server.port`. */
  function ServerPort(v: Option<string>): (p: Port)
    ensures p.DefaultPort? <==> v.None? || v.value == []
    ensures p.DefaultPort? ==> p.number == DefaultPortNumber
    ensures p.EnvPort? ==> p.raw == v.value
  {
    if v.Some? && v.value != [] then EnvPort(v.value) else DefaultPort(DefaultPortNumber)
  }

  /** The exported configuration object. */
  function Load(env: Environment): (c: AppConfig)
    ensures c.server.port == ServerPort(env.port)
    ensures c.server.host == EnvOr(env.host, DefaultHost)
    ensures c.lineBot.staffIds == StaffIds(env.staffIds)
    ensures c.lineBot.channelAccessToken == env.channelAccessToken && c.lineBot.channelSecret == env.channelSecret
    ensures c.googleCloudStorage == StorageConfig(true, StorageBucket, StorageProject)
    ensures c.googleSheets.None? && !c.imgurEnabled
  {
    AppConfig(
      ServerConfig(ServerPort(env.port), EnvOr(env.host, DefaultHost)),
      LineBotConfig(env.channelAccessToken, env.channelSecret, StaffIds(env.staffIds)),
      StorageConfig(true, StorageBucket, StorageProject),
      false,
      None)
  }
}
