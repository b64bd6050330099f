/** The server's command-line front end (server_cli.py): the default configuration, the port the
    server starts on, and the dotted-key `config set` / `config get` commands over the nested
    configuration. Reading and writing the file is outside this model. */
module ServerCli {
  import opened Wrappers
  import opened JsonValues
  import opened PyStrings

  const DEFAULT_PORT: int := 8888

  /** The configuration used when there is no file. */
  const DEFAULT_CONFIG: Json := JObj(map["server_port" := JInt(DEFAULT_PORT), "ai_config" := JObj(map[])])

  /** `load_config`: the file's contents when the file exists, the default otherwise. */
  function LoadConfig(file: Option<Json>): (c: Json)
    ensures file.None? ==> c == DEFAULT_CONFIG
    ensures file.Some? ==> c == file.value
  {
    if file.Some? then file.value else DEFAULT_CONFIG
  }

  /** `args.port or config.get("server_port", 8888)`: a given, non-zero `--port` wins, then the
      file's setting, then 8888. */
  function StartPort(argPort: Option<int>, config: Object): (p: Json)
    ensures argPort.Some? && argPort.value != 0 ==> p == JInt(argPort.value)
    ensures (argPort.None? || argPort.value == 0) && "server_port" !in config ==> p == JInt(DEFAULT_PORT)
    ensures (argPort.None? || argPort.value == 0) && "server_port" in config ==> p == config["server_port"]
  {
    if argPort.Some? && argPort.value != 0 then JInt(argPort.value) else GetOr(config, "server_port", JInt(DEFAULT_PORT))
  }

  /** With no file and no `--port` the server starts on 8888. */
  lemma DefaultStartPort()
    ensures StartPort(None, DEFAULT_CONFIG.fields) == JInt(8888)
  {
  }

  /** The loop of `config set`: every key but the last goes through `setdefault(k, {})`, and the
      last is assigned. None when a value on the way is not a dict (the AttributeError or TypeError
      that ends the command). */
  function SetPath(o: Object, keys: seq<string>, v: Json): (r: Option<Object>)
    requires |keys| >= 1
    ensures r.Some? ==> keys[0] in r.value
    ensures r.Some? ==> forall k :: k != keys[0] ==> (k in r.value <==> k in o) && (k in o ==> r.value[k] == o[k])
    decreases |keys|
  {
    if |keys| == 1 then Some(o[keys[0] := v])
    else
      var child := GetOr(o, keys[0], JObj(map[]));
      if !child.JObj? then None
      else
        match SetPath(child.fields, keys[1..], v)
        case Some(c) => Some(o[keys[0] := JObj(c)])
        case None => None
  }

  /** The loop of `config get`: None when a key is missing or a value on the way is not a dict
      (the exception the bare `except` turns into "not found"). */
  function GetPath(j: Json, keys: seq<string>): (r: Option<Json>)
    ensures keys == [] ==> r == Some(j)
    decreases |keys|
  {
    if keys == [] then Some(j)
    else if j.JObj? && keys[0] in j.fields then GetPath(j.fields[keys[0]], keys[1..])
    else None
  }

  /** Every value on the path is a dict or missing, so `config set` goes through. */
  ghost predicate Settable(o: Object, keys: seq<string>)
    requires |keys| >= 1
    decreases |keys|
  {
    |keys| == 1 ||
    (var child := GetOr(o, keys[0], JObj(map[])); child.JObj? && Settable(child.fields, keys[1..]))
  }

  /** `config set` goes through exactly when nothing on the path is a non-dict value. */
  lemma {:induction false} SetPathSucceedsIff(o: Object, keys: seq<string>, v: Json)
    requires |keys| >= 1
    ensures SetPath(o, keys, v).Some? <==> Settable(o, keys)
    decreases |keys|
  {
    if |keys| > 1 {
      var child := GetOr(o, keys[0], JObj(map[]));
      if child.JObj? {
        SetPathSucceedsIff(child.fields, keys[1..], v);
      }
    }
  }

  /** What `config set` wrote, `config get` reads back on the same path. */
  lemma {:induction false} GetAfterSet(o: Object, keys: seq<string>, v: Json)
    requires |keys| >= 1 && SetPath(o, keys, v).Some?
    ensures GetPath(JObj(SetPath(o, keys, v).value), keys) == Some(v)
    decreases |keys|
  {
    if |keys| > 1 {
      var child := GetOr(o, keys[0], JObj(map[]));
      GetAfterSet(child.fields, keys[1..], v);
    }
  }

  /** A path that leaves the written path somewhere reads the same before and after the write. */
  lemma {:induction false} DivergentPathUnchanged(o: Object, keys: seq<string>, v: Json, other: seq<string>, i: nat)
    requires |keys| >= 1 && SetPath(o, keys, v).Some?
    requires i < |keys| && i < |other| && other[..i] == keys[..i] && other[i] != keys[i]
    ensures GetPath(JObj(SetPath(o, keys, v).value), other) == GetPath(JObj(o), other)
    decreases i
  {
    var r := SetPath(o, keys, v).value;
    if i > 0 {
      assert other[0] == keys[0] by { assert other[..i][0] == keys[..i][0]; }
      assert |keys| > 1;
      var child := GetOr(o, keys[0], JObj(map[]));
      var c := SetPath(child.fields, keys[1..], v).value;
      assert r[keys[0]] == JObj(c);
      assert other[1..][..i - 1] == keys[1..][..i - 1] by {
        assert other[1..][..i - 1] == other[..i][1..];
        assert keys[1..][..i - 1] == keys[..i][1..];
      }
      DivergentPathUnchanged(child.fields, keys[1..], v, other[1..], i - 1);
      if keys[0] !in o {
        assert GetPath(JObj(c), other[1..]) == GetPath(JObj(map[]), other[1..]);
      }
    }
  }

  /** A first key that is not there reads as not found, whatever follows. */
  lemma MissingKeyNotFound(o: Object, key: string, rest: seq<string>)
    requires key !in o
    ensures GetPath(JObj(o), [key] + rest) == None
  {
  }

  /** How `config set` ends: refused for a missing key or value, saved, or stopped by an exception. */
  datatype SetOutcome = Refused | Saved(config: Json) | Crashed

  /** `config set`: a key and a value are both required (an empty one counts as missing); the key is
      split on dots and the value stored as a string at that path. */
  function CmdSet(config: Json, key: Option<string>, value: Option<string>): (r: SetOutcome)
    ensures key.None? || key.value == "" || value.None? || value.value == "" <==> r == Refused
  {
    if key.None? || key.value == "" || value.None? || value.value == "" then Refused
    else if !config.JObj? then Crashed
    else
      match SetPath(config.fields, Split(key.value, '.'), JStr(value.value))
      case Some(c) => Saved(JObj(c))
      case None => Crashed
  }

  /** How `config get` ends: refused without a key, the value found, or "not found". */
  datatype GetOutcome = NoKey | Found(value: Json) | NotFound

  /** `config get`: the value at the dotted path, or "not found" rather than an error. */
  function CmdGet(config: Json, key: Option<string>): (r: GetOutcome)
    ensures key.None? || key.value == "" <==> r == NoKey
  {
    if key.None? || key.value == "" then NoKey
    else
      match GetPath(config, Split(key.value, '.'))
      case Some(v) => Found(v)
      case None => NotFound
  }

  /** `config get` on the key just set prints the value just set. */
  lemma SetThenGet(config: Json, key: string, value: string)
    requires CmdSet(config, Some(key), Some(value)).Saved?
    ensures CmdGet(CmdSet(config, Some(key), Some(value)).config, Some(key)) == Found(JStr(value))
  {
    GetAfterSet(config.fields, Split(key, '.'), JStr(value));
  }

  /** Setting a top-level key in the default configuration always goes through. */
  lemma DefaultConfigSettable(key: string, value: string)
    requires key != "" && value != "" && '.' !in key
    ensures CmdSet(DEFAULT_CONFIG, Some(key), Some(value)).Saved?
  {
  }
}
