/** The application configuration (project/config.js): the settings tree built from the
    environment, the dotted-path lookup `getConfig` and the sanity check `validateConfig`.
    `process.env` is an input map; `console.error` is not modelled. */
module Config {
  import opened Common
  import opened JsValue
  import Files
  import Channel
  import Crypto

  /** `process.env`: variable name to value. A missing variable reads as `undefined`. */
  type Env = map<string, string>

  const DefaultPort: real := 3000.0
  const PortError: string := "Port serveur invalide"
  const FileSizeError: string := "Taille de fichier maximale invalide"
  const MessageLengthError: string := "Longueur maximale de message invalide"

  /** `process.env[name] || fallback`: the variable when it is set to a non-empty string. */
  function EnvOr(env: Env, name: string, fallback: Value): Value
  {
    if name in env && env[name] != "" then Str(env[name]) else fallback
  }

  /** `config.server.port`: the PORT variable as a string, or the number 3000. */
  function PortOf(env: Env): Value
  {
    EnvOr(env, "PORT", Num(DefaultPort))
  }

  /** `config.server`. */
  function ServerSection(env: Env): Value
  {
    Obj(map["port" := PortOf(env), "host" := EnvOr(env, "HOST", Str("localhost"))])
  }

  /** `config.websocket`. */
  function WebSocketSection(): Value
  {
    Obj(map["maxReconnectAttempts" := Num(5.0), "reconnectDelay" := Num(2000.0), "messageQueueSize" := Num(50.0)])
  }

  /** `config.files`, without its `allowedTypes` and `dangerousExtensions` lists. */
  function FilesSection(): Value
  {
    Obj(map[
      "maxFileSize" := Num((10 * 1024 * 1024) as real),
      "maxFilesPerUpload" := Num(10.0)])
  }

  /** `config.audio`. */
  function AudioSection(): Value
  {
    Obj(map[
      "maxDuration" := Num(300.0),
      "sampleRate" := Num(44100.0),
      "channelCount" := Num(1.0),
      "audioBitsPerSecond" := Num(128000.0)])
  }

  /** `config.messages`. */
  function MessagesSection(): Value
  {
    Obj(map["maxLength" := Num(1000.0), "maxDisplayed" := Num(100.0), "autoScroll" := Bool(true)])
  }

  /** `config.security`. */
  function SecuritySection(): Value
  {
    Obj(map["encryptionAlgorithm" := Str("AES-GCM"), "keyLength" := Num(256.0), "ivLength" := Num(12.0)])
  }

  /** `config.ui`. */
  function UiSection(): Value
  {
    Obj(map[
      "notificationTimeout" := Num(5000.0),
      "maxNotifications" := Num(5.0),
      "animationDuration" := Num(300.0),
      "responsiveBreakpoints" := Obj(map["mobile" := Num(768.0), "tablet" := Num(1024.0)])])
  }

  /** `config.development`: debugging is on unless NODE_ENV is `production`. */
  function DevelopmentSection(env: Env): Value
  {
    Obj(map[
      "debug" := Bool(!("NODE_ENV" in env && env["NODE_ENV"] == "production")),
      "logLevel" := EnvOr(env, "LOG_LEVEL", Str("info"))])
  }

  /** The `config` object as the module builds it from the environment. */
  function AppConfig(env: Env): Value
  {
    Obj(map[
      "server" := ServerSection(env),
      "websocket" := WebSocketSection(),
      "files" := FilesSection(),
      "audio" := AudioSection(),
      "messages" := MessagesSection(),
      "security" := SecuritySection(),
      "ui" := UiSection(),
      "development" := DevelopmentSection(env)])
  }

  // ---------------------------------------------------------------------------------------
  // getConfig

  /** None of the pieces holds the separator. */
  predicate Pieces(parts: seq<string>, sep: char)
  {
    forall i :: 0 <= i < |parts| ==> sep !in parts[i]
  }

  /** The pieces after one more character: a separator opens a new empty piece, any other
      character extends the last piece. */
  function AddChar(parts: seq<string>, c: char, sep: char): (r: seq<string>)
    requires |parts| >= 1
    ensures |r| >= 1
  {
    if c == sep then parts + [""]
    else parts[..|parts| - 1] + [parts[|parts| - 1] + [c]]
  }

  /** `s.split(sep)` for a one-character separator: every piece between separators, empty
      pieces included, and `[""]` for the empty string. */
  function Split(s: string, sep: char): (r: seq<string>)
    ensures |r| >= 1
    decreases |s|
  {
    if s == [] then [""] else AddChar(Split(s[..|s| - 1], sep), s[|s| - 1], sep)
  }

  /** No piece of a split holds the separator. */
  lemma {:induction false} SplitPieces(s: string, sep: char)
    ensures Pieces(Split(s, sep), sep)
    decreases |s|
  {
    if s != [] {
      var parts := Split(s[..|s| - 1], sep);
      SplitPieces(s[..|s| - 1], sep);
      var r := AddChar(parts, s[|s| - 1], sep);
      if s[|s| - 1] != sep {
        var n := |parts|;
        forall i | 0 <= i < |r| ensures sep !in r[i] {
          if i < n - 1 {
            assert r[i] == parts[i];
          } else {
            assert r[i] == parts[n - 1] + [s[|s| - 1]];
          }
        }
      }
    }
  }

  /** Adding a character to the pieces adds it to their join. */
  lemma JoinAddChar(parts: seq<string>, c: char, sep: char)
    requires |parts| >= 1
    ensures Join(AddChar(parts, c, sep), [sep]) == Join(parts, [sep]) + [c]
  {
    if c == sep {
      JoinNewPiece(parts, sep);
    } else if |parts| > 1 {
      JoinExtendLast(parts, c, sep);
    }
  }

  lemma JoinNewPiece(parts: seq<string>, sep: char)
    requires |parts| >= 1
    ensures Join(parts + [""], [sep]) == Join(parts, [sep]) + [sep]
  {
    var r := parts + [""];
    assert r[..|parts|] == parts;
  }

  lemma JoinExtendLast(parts: seq<string>, c: char, sep: char)
    requires |parts| > 1
    ensures Join(parts[..|parts| - 1] + [parts[|parts| - 1] + [c]], [sep]) == Join(parts, [sep]) + [c]
  {
    var n := |parts|;
    var init, last := parts[..n - 1], parts[n - 1];
    var r := init + [last + [c]];
    var a := Join(init, [sep]);
    assert r[..n - 1] == init;
    assert Join(r, [sep]) == a + [sep] + (last + [c]);
  }

  /** Joining the pieces with the separator gives back the string. */
  lemma {:induction false} JoinSplit(s: string, sep: char)
    ensures Join(Split(s, sep), [sep]) == s
    decreases |s|
  {
    if s != [] {
      var t := s[..|s| - 1];
      JoinSplit(t, sep);
      JoinAddChar(Split(t, sep), s[|s| - 1], sep);
      assert t + [s[|s| - 1]] == s;
    }
  }

  /** Appending a separator and a separator-free word adds that word as a new last piece. */
  lemma {:induction false} SplitAfter(x: string, w: string, sep: char)
    requires sep !in w
    ensures Split(x + [sep] + w, sep) == Split(x, sep) + [w]
    decreases |w|
  {
    if w == [] {
      assert x + [sep] + w == x + [sep];
      assert (x + [sep])[..|x|] == x;
    } else {
      var v := w[..|w| - 1];
      var c := w[|w| - 1];
      assert sep !in v by {
        forall i | 0 <= i < |v| ensures v[i] != sep { assert v[i] == w[i]; }
      }
      SplitAfter(x, v, sep);
      var s := x + [sep] + w;
      assert s[..|s| - 1] == x + [sep] + v;
      assert s[|s| - 1] == c;
      assert v + [c] == w;
    }
  }

  /** A separator-free word is one piece. */
  lemma {:induction false} SplitWord(w: string, sep: char)
    requires sep !in w
    ensures Split(w, sep) == [w]
    decreases |w|
  {
    if w != [] {
      var v := w[..|w| - 1];
      assert sep !in v by {
        forall i | 0 <= i < |v| ensures v[i] != sep { assert v[i] == w[i]; }
      }
      SplitWord(v, sep);
      assert v + [w[|w| - 1]] == w;
    }
  }

  /** Splitting a join of separator-free pieces gives back the pieces. */
  lemma {:induction false} SplitJoin(parts: seq<string>, sep: char)
    requires |parts| >= 1 && Pieces(parts, sep)
    ensures Split(Join(parts, [sep]), sep) == parts
    decreases |parts|
  {
    if |parts| == 1 {
      SplitWord(parts[0], sep);
    } else {
      var init := parts[..|parts| - 1];
      SplitJoin(init, sep);
      SplitAfter(Join(init, [sep]), parts[|parts| - 1], sep);
      assert Join(parts, [sep]) == Join(init, [sep]) + [sep] + parts[|parts| - 1];
      assert init + [parts[|parts| - 1]] == parts;
    }
  }

  /** One step of the `reduce`: `obj && obj[key]`. A falsy value is kept as it is. */
  function Step(obj: Value, key: string): Value
  {
    if Truthy(obj) then Get(obj, key) else obj
  }

  /** `keys.reduce((obj, key) => obj && obj[key], root)`. */
  function Walk(root: Value, keys: seq<string>): Value
    decreases |keys|
  {
    if keys == [] then root else Walk(Step(root, keys[0]), keys[1..])
  }

  /** The dotted-path lookup of `getConfig`, from any root object. */
  function Lookup(root: Value, path: string): Value
  {
    Walk(root, Split(path, '.'))
  }

  /** `getConfig(path)`. */
  function GetConfig(env: Env, path: string): Value
  {
    Lookup(AppConfig(env), path)
  }

  /** Once the walk reaches a falsy value (a missing key gives `undefined`), that value is
      the result whatever keys remain. */
  lemma {:induction false} WalkFalsy(v: Value, keys: seq<string>)
    requires !Truthy(v)
    ensures Walk(v, keys) == v
    decreases |keys|
  {
    if keys != [] {
      WalkFalsy(v, keys[1..]);
    }
  }

  /** Walking a concatenated path walks the first part, then the second. */
  lemma {:induction false} WalkAppend(v: Value, a: seq<string>, b: seq<string>)
    ensures Walk(v, a + b) == Walk(Walk(v, a), b)
    decreases |a|
  {
    if a != [] {
      assert (a + b)[0] == a[0];
      assert (a + b)[1..] == a[1..] + b;
      WalkAppend(Step(v, a[0]), a[1..], b);
    } else {
      assert a + b == b;
    }
  }

  /** A dotted path `section.key` takes two steps from the root. */
  lemma TwoLevelPath(root: Value, section: string, key: string)
    requires '.' !in section && '.' !in key
    ensures Lookup(root, section + "." + key) == Step(Step(root, section), key)
  {
    SplitJoin([section, key], '.');
    assert [section, key][..1] == [section];
    assert Join([section, key], ['.']) == section + "." + key;
    assert [section, key][1..] == [key];
    assert [key][1..] == [];
    assert Walk(root, [section, key]) == Walk(Step(root, section), [key]);
    assert Walk(Step(root, section), [key]) == Walk(Step(Step(root, section), key), []);
  }

  /** The sections of the configuration, by name (one lemma per section keeps each proof small). */
  lemma ServerAt(env: Env)
    ensures Step(AppConfig(env), "server") == ServerSection(env)
  {
  }

  lemma WebSocketAt(env: Env)
    ensures Step(AppConfig(env), "websocket") == WebSocketSection()
  {
  }

  lemma FilesAt(env: Env)
    ensures Step(AppConfig(env), "files") == FilesSection()
  {
  }

  lemma MessagesAt(env: Env)
    ensures Step(AppConfig(env), "messages") == MessagesSection()
  {
  }

  lemma SecurityAt(env: Env)
    ensures Step(AppConfig(env), "security") == SecuritySection()
  {
  }

  lemma DevelopmentAt(env: Env)
    ensures Step(AppConfig(env), "development") == DevelopmentSection(env)
  {
  }

  /** The fields of the sections that other modules hard-code or that the environment sets. */
  lemma FilesFields()
    ensures Step(FilesSection(), "maxFileSize") == Num((10 * 1024 * 1024) as real)
    ensures Step(FilesSection(), "maxFilesPerUpload") == Num(10.0)
  {
  }

  lemma WebSocketFields()
    ensures Step(WebSocketSection(), "maxReconnectAttempts") == Num(5.0)
    ensures Step(WebSocketSection(), "reconnectDelay") == Num(2000.0)
  {
  }

  lemma MessagesFields()
    ensures Step(MessagesSection(), "maxLength") == Num(1000.0)
  {
  }

  lemma SecurityFields()
    ensures Step(SecuritySection(), "ivLength") == Num(12.0)
  {
  }

  lemma ServerFields(env: Env)
    ensures Step(ServerSection(env), "port") == PortOf(env)
    ensures Step(ServerSection(env), "host") == EnvOr(env, "HOST", Str("localhost"))
  {
  }

  lemma DevelopmentFields(env: Env)
    ensures Step(DevelopmentSection(env), "debug") == Bool(!("NODE_ENV" in env && env["NODE_ENV"] == "production"))
    ensures Step(DevelopmentSection(env), "logLevel") == EnvOr(env, "LOG_LEVEL", Str("info"))
  {
  }

  /** A path whose first segment names no section, and no property inherited from
      `Object.prototype`, yields `undefined`, however long it is. */
  lemma UnknownSection(env: Env, path: string)
    requires Split(path, '.')[0] !in AppConfig(env).fields
    requires Split(path, '.')[0] !in ObjectPrototypeNames
    ensures GetConfig(env, path) == Undefined
  {
    var keys := Split(path, '.');
    WalkFalsy(Undefined, keys[1..]);
  }

  /** The setting at `section.key`, given what the section holds. */
  lemma SettingAt(env: Env, path: string, section: string, key: string, sectionValue: Value, value: Value)
    requires path == section + "." + key && '.' !in section && '.' !in key
    requires Step(AppConfig(env), section) == sectionValue && Step(sectionValue, key) == value
    ensures GetConfig(env, path) == value
  {
    TwoLevelPath(AppConfig(env), section, key);
  }

  /** Individual settings, one lemma each. */
  lemma FileSizeSetting(env: Env)
    ensures GetConfig(env, "files.maxFileSize") == Num(Files.MaxFileSize as real)
  {
    assert "files.maxFileSize" == "files" + "." + "maxFileSize";
    FilesAt(env);
    FilesFields();
    SettingAt(env, "files.maxFileSize", "files", "maxFileSize", FilesSection(), Num(Files.MaxFileSize as real));
  }

  lemma UploadLimitSetting(env: Env)
    ensures GetConfig(env, "files.maxFilesPerUpload") == Num(Files.DefaultMaxFiles as real)
  {
    assert "files.maxFilesPerUpload" == "files" + "." + "maxFilesPerUpload";
    FilesAt(env);
    FilesFields();
    SettingAt(env, "files.maxFilesPerUpload", "files", "maxFilesPerUpload", FilesSection(), Num(Files.DefaultMaxFiles as real));
  }

  lemma ReconnectAttemptsSetting(env: Env)
    ensures GetConfig(env, "websocket.maxReconnectAttempts") == Num(Channel.MaxReconnectAttempts as real)
  {
    assert "websocket.maxReconnectAttempts" == "websocket" + "." + "maxReconnectAttempts";
    WebSocketAt(env);
    WebSocketFields();
    SettingAt(env, "websocket.maxReconnectAttempts", "websocket", "maxReconnectAttempts", WebSocketSection(), Num(Channel.MaxReconnectAttempts as real));
  }

  lemma ReconnectDelaySetting(env: Env)
    ensures GetConfig(env, "websocket.reconnectDelay") == Num(Channel.ReconnectDelay as real)
  {
    assert "websocket.reconnectDelay" == "websocket" + "." + "reconnectDelay";
    WebSocketAt(env);
    WebSocketFields();
    SettingAt(env, "websocket.reconnectDelay", "websocket", "reconnectDelay", WebSocketSection(), Num(Channel.ReconnectDelay as real));
  }

  lemma IvLengthSetting(env: Env)
    ensures GetConfig(env, "security.ivLength") == Num(Crypto.IvLength as real)
  {
    assert "security.ivLength" == "security" + "." + "ivLength";
    SecurityAt(env);
    SecurityFields();
    SettingAt(env, "security.ivLength", "security", "ivLength", SecuritySection(), Num(Crypto.IvLength as real));
  }

  lemma PortSetting(env: Env)
    ensures GetConfig(env, "server.port") == if "PORT" in env && env["PORT"] != "" then Str(env["PORT"]) else Num(DefaultPort)
  {
    assert "server.port" == "server" + "." + "port";
    ServerAt(env);
    ServerFields(env);
    SettingAt(env, "server.port", "server", "port", ServerSection(env), if "PORT" in env && env["PORT"] != "" then Str(env["PORT"]) else Num(DefaultPort));
  }

  lemma HostSetting(env: Env)
    ensures GetConfig(env, "server.host") == if "HOST" in env && env["HOST"] != "" then Str(env["HOST"]) else Str("localhost")
  {
    assert "server.host" == "server" + "." + "host";
    ServerAt(env);
    ServerFields(env);
    SettingAt(env, "server.host", "server", "host", ServerSection(env), if "HOST" in env && env["HOST"] != "" then Str(env["HOST"]) else Str("localhost"));
  }

  lemma DebugSetting(env: Env)
    ensures GetConfig(env, "development.debug") == Bool(!("NODE_ENV" in env && env["NODE_ENV"] == "production"))
  {
    assert "development.debug" == "development" + "." + "debug";
    DevelopmentAt(env);
    DevelopmentFields(env);
    SettingAt(env, "development.debug", "development", "debug", DevelopmentSection(env), Bool(!("NODE_ENV" in env && env["NODE_ENV"] == "production")));
  }

  lemma LogLevelSetting(env: Env)
    ensures GetConfig(env, "development.logLevel") == if "LOG_LEVEL" in env && env["LOG_LEVEL"] != "" then Str(env["LOG_LEVEL"]) else Str("info")
  {
    assert "development.logLevel" == "development" + "." + "logLevel";
    DevelopmentAt(env);
    DevelopmentFields(env);
    SettingAt(env, "development.logLevel", "development", "logLevel", DevelopmentSection(env), if "LOG_LEVEL" in env && env["LOG_LEVEL"] != "" then Str(env["LOG_LEVEL"]) else Str("info"));
  }

  /** The settings the client modules hard-code agree with the configuration tree: the file
      ceiling, the upload limit, the reconnection policy and the IV length. */
  lemma ConfigMatchesModules(env: Env)
    ensures GetConfig(env, "files.maxFileSize") == Num(Files.MaxFileSize as real) == Num(Channel.MaxFileSize as real)
    ensures GetConfig(env, "files.maxFilesPerUpload") == Num(Files.DefaultMaxFiles as real)
    ensures GetConfig(env, "websocket.maxReconnectAttempts") == Num(Channel.MaxReconnectAttempts as real)
    ensures GetConfig(env, "websocket.reconnectDelay") == Num(Channel.ReconnectDelay as real)
    ensures GetConfig(env, "security.ivLength") == Num(Crypto.IvLength as real)
  {
    FileSizeSetting(env);
    UploadLimitSetting(env);
    ReconnectAttemptsSetting(env);
    ReconnectDelaySetting(env);
    IvLengthSetting(env);
  }

  /** `server.port`, `server.host`, `development.debug` and `development.logLevel` come from
      the environment when it sets them, and fall back to their defaults otherwise. */
  lemma EnvironmentSettings(env: Env)
    ensures GetConfig(env, "server.port") ==
      if "PORT" in env && env["PORT"] != "" then Str(env["PORT"]) else Num(DefaultPort)
    ensures GetConfig(env, "server.host") ==
      if "HOST" in env && env["HOST"] != "" then Str(env["HOST"]) else Str("localhost")
    ensures GetConfig(env, "development.debug") == Bool(!("NODE_ENV" in env && env["NODE_ENV"] == "production"))
    ensures GetConfig(env, "development.logLevel") ==
      if "LOG_LEVEL" in env && env["LOG_LEVEL"] != "" then Str(env["LOG_LEVEL"]) else Str("info")
  {
    PortSetting(env);
    HostSetting(env);
    DebugSetting(env);
    LogLevelSetting(env);
  }


  // ---------------------------------------------------------------------------------------
  // validateConfig

  /** A JavaScript number: a finite value or NaN (the infinities do not arise here). */
  datatype Number = Finite(r: real) | NaN

  /** The value of a string of decimal digits. */
  function DecimalValue(s: string): nat
    requires forall i :: 0 <= i < |s| ==> '0' <= s[i] <= '9'
  {
    if s == [] then 0 else DecimalValue(s[..|s| - 1]) * 10 + (s[|s| - 1] as int - '0' as int)
  }

  /** Reading back the decimal form of `n` gives `n`. */
  lemma {:induction false} DecimalValueOfNatToString(n: nat)
    ensures DecimalValue(NatToString(n)) == n
    decreases n
  {
    var s := NatToString(n);
    if n >= 10 {
      DecimalValueOfNatToString(n / 10);
      assert s[..|s| - 1] == NatToString(n / 10);
    }
  }

  /** An ASCII letter that no numeric string literal contains: not a hexadecimal digit, not a
      radix or exponent letter, not a letter of `Infinity`. */
  predicate NonNumericLetter(c: char)
  {
    (('a' <= c <= 'z') || ('A' <= c <= 'Z')) && c !in "abcdefinotxyABCDEFIOX"
  }

  /** The string-to-number coercion a relational operator applies to a string (section 7.1.4.1.1
      of ECMAScript, StringToNumber), on the strings it covers: the empty string is 0, a string
      of decimal digits is its value, and a string with a letter no numeric literal contains is
      NaN. None for the remaining strings (white space, signs, fractions, exponents, radix
      prefixes, `Infinity`). */
  function StringToNumber(s: string): (r: Option<Number>)
    ensures (s != [] && forall i :: 0 <= i < |s| ==> '0' <= s[i] <= '9') ==> r.Some? && r.value.Finite?
    ensures (exists i :: 0 <= i < |s| && NonNumericLetter(s[i])) ==> r == Some(NaN)
  {
    if s == [] then Some(Finite(0.0))
    else if forall i :: 0 <= i < |s| ==> '0' <= s[i] <= '9' then Some(Finite(DecimalValue(s) as real))
    else if exists i :: 0 <= i < |s| && NonNumericLetter(s[i]) then Some(NaN)
    else None
  }

  /** ToNumber of a configuration value, as `<`, `>` and `<=` apply it. */
  function ToNumber(v: Value): Option<Number>
  {
    match v
    case Undefined => Some(NaN)
    case Null => Some(Finite(0.0))
    case Bool(b) => Some(Finite(if b then 1.0 else 0.0))
    case Num(n) => Some(Finite(n))
    case Str(s) => StringToNumber(s)
    case _ => None
  }

  /** `x < bound` and its companions: every comparison with NaN is false. */
  predicate Below(x: Number, bound: real) { x.Finite? && x.r < bound }
  predicate Above(x: Number, bound: real) { x.Finite? && x.r > bound }
  predicate AtMost(x: Number, bound: real) { x.Finite? && x.r <= bound }

  /** The errors `validateConfig` collects, in order, as the comparisons are written. */
  function ConfigErrorsAsWritten(port: Number, maxFileSize: Number, maxLength: Number): seq<string>
  {
    (if Below(port, 1.0) || Above(port, 65535.0) then [PortError] else [])
    + (if AtMost(maxFileSize, 0.0) then [FileSizeError] else [])
    + (if AtMost(maxLength, 0.0) then [MessageLengthError] else [])
  }

  /** The errors with every check stated positively: a port is a number from 1 to 65535, and
      the two limits are positive numbers. NaN fails each check. */
  function ConfigErrors(port: Number, maxFileSize: Number, maxLength: Number): (errors: seq<string>)
    ensures |errors| <= 3
    ensures PortError in errors <==> !(port.Finite? && 1.0 <= port.r <= 65535.0)
    ensures FileSizeError in errors <==> !(maxFileSize.Finite? && maxFileSize.r > 0.0)
    ensures MessageLengthError in errors <==> !(maxLength.Finite? && maxLength.r > 0.0)
  {
    (if !(port.Finite? && 1.0 <= port.r <= 65535.0) then [PortError] else [])
    + (if !(maxFileSize.Finite? && maxFileSize.r > 0.0) then [FileSizeError] else [])
    + (if !(maxLength.Finite? && maxLength.r > 0.0) then [MessageLengthError] else [])
  }

  /** The three checked settings of a configuration, coerced to numbers; None when a coercion
      falls outside the strings `StringToNumber` covers. */
  function CheckedSettings(config: Value): Option<(Number, Number, Number)>
  {
    var port := ToNumber(Get(Get(config, "server"), "port"));
    var size := ToNumber(Get(Get(config, "files"), "maxFileSize"));
    var length := ToNumber(Get(Get(config, "messages"), "maxLength"));
    if port.Some? && size.Some? && length.Some? then Some((port.value, size.value, length.value)) else None
  }

  /** The settings `validateConfig` reads: the port, and the two limits as configured. */
  lemma CheckedSettingsOfEnv(env: Env)
    ensures CheckedSettings(AppConfig(env)) ==
      if ToNumber(PortOf(env)).Some? then Some((ToNumber(PortOf(env)).value, Finite(10485760.0), Finite(1000.0)))
      else None
  {
    ServerAt(env);
    ServerFields(env);
    FilesAt(env);
    FilesFields();
    MessagesAt(env);
    MessagesFields();
  }

  /** `validateConfig()` as written: true when no error was collected. */
  function ValidateConfigAsWritten(env: Env): Option<bool>
  {
    match CheckedSettings(AppConfig(env))
    case None => None
    case Some((port, size, length)) => Some(ConfigErrorsAsWritten(port, size, length) == [])
  }

  /** `validateConfig()` with the port check made to reject NaN. */
  function ValidateConfig(env: Env): Option<bool>
  {
    match CheckedSettings(AppConfig(env))
    case None => None
    case Some((port, size, length)) => Some(ConfigErrors(port, size, length) == [])
  }

  /** The written comparisons agree with the corrected checks on every finite input; they
      differ exactly where a value is NaN. */
  lemma AsWrittenAgreesOnFiniteValues(port: Number, maxFileSize: Number, maxLength: Number)
    requires port.Finite? && maxFileSize.Finite? && maxLength.Finite?
    ensures ConfigErrorsAsWritten(port, maxFileSize, maxLength) == ConfigErrors(port, maxFileSize, maxLength)
  {
  }

  /** Whatever the other settings, a NaN port raises no error as written. */
  lemma NaNPortPassesAsWritten(maxFileSize: Number, maxLength: Number)
    ensures PortError !in ConfigErrorsAsWritten(NaN, maxFileSize, maxLength)
    ensures PortError in ConfigErrors(NaN, maxFileSize, maxLength)
  {
  }

  /** With `PORT=http` the configured port coerces to NaN, and `validateConfig` as written
      reports the configuration valid; the corrected check rejects it. */
  lemma NonNumericPortAccepted(env: Env)
    requires "PORT" in env && env["PORT"] == "http"
    ensures ToNumber(PortOf(env)) == Some(NaN)
    ensures ValidateConfigAsWritten(env) == Some(true)
    ensures ValidateConfig(env) == Some(false)
  {
    HttpIsNaN();
    assert PortOf(env) == Str("http");
    ValidationOfPort(env, NaN);
  }

  /** `"http"` holds letters no numeric literal has, so it coerces to NaN. */
  lemma HttpIsNaN()
    ensures StringToNumber("http") == Some(NaN)
  {
    assert NonNumericLetter("http"[0]);
  }

  /** With the limits as configured, the outcome turns on the port alone: the corrected check
      accepts exactly a number from 1 to 65535, the written one anything not below 1 and not
      above 65535. */
  lemma ValidationOfPort(env: Env, p: Number)
    requires ToNumber(PortOf(env)) == Some(p)
    ensures ValidateConfig(env) == Some(p.Finite? && 1.0 <= p.r <= 65535.0)
    ensures ValidateConfigAsWritten(env) == Some(!(Below(p, 1.0) || Above(p, 65535.0)))
  {
    CheckedSettingsOfEnv(env);
  }

  /** The decimal form of a port number coerces back to that number. */
  lemma DecimalPortCoercion(port: nat)
    ensures StringToNumber(NatToString(port)) == Some(Finite(port as real))
  {
    DecimalValueOfNatToString(port);
  }

  /** The corrected check accepts the configuration exactly when the port is unset or is the
      decimal form of a number from 1 to 65535 (among the ports whose coercion is modelled). */
  lemma ValidateConfigAcceptsPorts(env: Env, port: nat)
    requires "PORT" in env ==> env["PORT"] == NatToString(port)
    ensures ValidateConfig(env) == Some("PORT" !in env || 1 <= port <= 65535)
  {
    if "PORT" in env {
      DecimalPortCoercion(port);
      assert PortOf(env) == Str(NatToString(port));
      ValidationOfPort(env, Finite(port as real));
    } else {
      assert PortOf(env) == Num(DefaultPort);
      ValidationOfPort(env, Finite(DefaultPort));
    }
  }
}
