/** The stack identity kept in a .env file: load_config of tools/dev.py. */
module StackEnv {
  import opened Basics
  import opened Text
  import opened Numerals
  import opened Dotenv

  datatype StackConfig = StackConfig(
    root: string,
    project: string,
    appPort: int,
    postgresPort: int,
    nginxPort: int,
    grafanaPort: int,
    otlpGrpcPort: int,
    otlpHttpPort: int)

  datatype ToolError = Malformed | BelongsTo(root: string) | NoFreePorts

  const KEYS := [
    "LSSTACK_ROOT", "COMPOSE_PROJECT_NAME",
    "APP_PORT", "POSTGRES_PORT", "NGINX_PORT", "GRAFANA_PORT", "OTLP_GRPC_PORT", "OTLP_HTTP_PORT"
  ]

  /** The worktree a call runs in: str(ROOT.resolve()), the project name derived from it, and Path.resolve. */
  datatype Place = Place(here: string, project: string, resolve: string -> string)

  predicate GoodKeys(keys: seq<string>) {
    && |keys| == 8
    && (forall i :: 0 <= i < 8 ==> GoodKey(keys[i]))
    && (forall i, j :: 0 <= i < j < 8 ==> keys[i] != keys[j])
  }

  function Ports(config: StackConfig): (ports: seq<int>)
    ensures |ports| == 6
  {
    [config.appPort, config.postgresPort, config.nginxPort, config.grafanaPort, config.otlpGrpcPort, config.otlpHttpPort]
  }

  function Numbers(ports: seq<int>): (texts: seq<string>)
    ensures |texts| == |ports| && forall i :: 0 <= i < |ports| ==> texts[i] == IntText(ports[i])
  {
    if ports == [] then [] else [IntText(ports[0])] + Numbers(ports[1..])
  }

  /** The values that load_config writes, in the order of the keys. */
  function Texts(config: StackConfig): (texts: seq<string>)
    ensures |texts| == 8
  {
    [config.root, config.project] + Numbers(Ports(config))
  }

  function Zip(keys: seq<string>, texts: seq<string>): (entries: seq<Entry>)
    requires |keys| == |texts|
    ensures |entries| == |keys|
    ensures forall i :: 0 <= i < |keys| ==> entries[i] == Entry(keys[i], texts[i])
  {
    if keys == [] then [] else [Entry(keys[0], texts[0])] + Zip(keys[1..], texts[1..])
  }

  /** The text of the file for a configuration. */
  function Written(keys: seq<string>, config: StackConfig): string
    requires |keys| == 8
  {
    Print(Zip(keys, Texts(config)))
  }

  /** int(values[key]), None where it raises. */
  function PortAt(values: map<string, string>, key: string): Option<int> {
    if key in values then ParseInt(values[key]) else None
  }

  /** _config_from_values. */
  function ConfigFromValues(keys: seq<string>, values: map<string, string>, place: Place): Result<StackConfig, ToolError>
    requires |keys| == 8
  {
    if keys[0] !in values || keys[1] !in values
       || PortAt(values, keys[2]).None? || PortAt(values, keys[3]).None? || PortAt(values, keys[4]).None?
       || PortAt(values, keys[5]).None? || PortAt(values, keys[6]).None? || PortAt(values, keys[7]).None?
    then Err(Malformed)
    else if place.resolve(values[keys[0]]) != place.here then Err(BelongsTo(values[keys[0]]))
    else
      Ok(StackConfig(
           values[keys[0]], values[keys[1]],
           PortAt(values, keys[2]).value, PortAt(values, keys[3]).value, PortAt(values, keys[4]).value,
           PortAt(values, keys[5]).value, PortAt(values, keys[6]).value, PortAt(values, keys[7]).value))
  }

  function ConfigIn(text: string, place: Place): Result<StackConfig, ToolError> {
    ConfigFromValues(KEYS, Parse(text), place)
  }

  /** The number under a key: none if the key is missing or its value is no number. */
  lemma PortAtIs(values: map<string, string>, key: string)
    ensures PortAt(values, key) == if key in values then ParseInt(values[key]) else None
  {
  }

  /** The names of the keys, in the order of the fields. */
  lemma KeysAre()
    ensures |KEYS| == 8 && KEYS[0] == "LSSTACK_ROOT" && KEYS[1] == "COMPOSE_PROJECT_NAME"
    ensures KEYS[2] == "APP_PORT" && KEYS[3] == "POSTGRES_PORT" && KEYS[4] == "NGINX_PORT"
    ensures KEYS[5] == "GRAFANA_PORT" && KEYS[6] == "OTLP_GRPC_PORT" && KEYS[7] == "OTLP_HTTP_PORT"
  {
  }

  /** The reading by the names of the keys: a missing key or a port that is no number is malformed, a root that resolves to
      another worktree is refused, and otherwise every field comes from its own key. */
  lemma ReadingIs(values: map<string, string>, place: Place)
    ensures var r := ConfigFromValues(KEYS, values, place);
      var complete :=
        && "LSSTACK_ROOT" in values && "COMPOSE_PROJECT_NAME" in values
        && PortAt(values, "APP_PORT").Some? && PortAt(values, "POSTGRES_PORT").Some?
        && PortAt(values, "NGINX_PORT").Some? && PortAt(values, "GRAFANA_PORT").Some?
        && PortAt(values, "OTLP_GRPC_PORT").Some? && PortAt(values, "OTLP_HTTP_PORT").Some?;
      && (!complete ==> r == Err(Malformed))
      && (complete && place.resolve(values["LSSTACK_ROOT"]) != place.here ==> r == Err(BelongsTo(values["LSSTACK_ROOT"])))
      && (complete && place.resolve(values["LSSTACK_ROOT"]) == place.here ==>
            r == Ok(StackConfig(
                      values["LSSTACK_ROOT"], values["COMPOSE_PROJECT_NAME"],
                      PortAt(values, "APP_PORT").value, PortAt(values, "POSTGRES_PORT").value,
                      PortAt(values, "NGINX_PORT").value, PortAt(values, "GRAFANA_PORT").value,
                      PortAt(values, "OTLP_GRPC_PORT").value, PortAt(values, "OTLP_HTTP_PORT").value)))
  {
    KeysAre();
  }

  // ---- the round trip --------------------------------------------------------------------------------

  predicate IsName(s: string) {
    s != "" && forall i :: 0 <= i < |s| ==> 'A' <= s[i] <= 'Z' || s[i] == '_'
  }

  lemma NameIsGood(key: string)
    requires IsName(key)
    ensures GoodKey(key)
  {
    assert forall c :: c in key ==> 'A' <= c <= 'Z' || c == '_';
  }

  lemma KeysAreNames()
    ensures forall i :: 0 <= i < 8 ==> IsName(KEYS[i])
  {
    assert IsName(KEYS[0]);
    assert IsName(KEYS[1]);
    assert IsName(KEYS[2]);
    assert IsName(KEYS[3]);
    assert IsName(KEYS[4]);
    assert IsName(KEYS[5]);
    assert IsName(KEYS[6]);
    assert IsName(KEYS[7]);
  }

  lemma KeysDiffer()
    ensures forall i, j :: 0 <= i < j < 8 ==> KEYS[i] != KEYS[j]
  {
    assert KEYS[0][0] == 'L' && KEYS[1][0] == 'C' && KEYS[2][0] == 'A' && KEYS[3][0] == 'P';
    assert KEYS[4][0] == 'N' && KEYS[5][0] == 'G' && KEYS[6][0] == 'O' && KEYS[7][0] == 'O';
    assert KEYS[6][5] == 'G' && KEYS[7][5] == 'H';
  }

  lemma KeysAreGood()
    ensures GoodKeys(KEYS)
  {
    KeysAreNames();
    KeysDiffer();
    forall i | 0 <= i < 8
      ensures GoodKey(KEYS[i])
    {
      NameIsGood(KEYS[i]);
    }
  }

  lemma {:induction false} ReturnedAt(keys: seq<string>, texts: seq<string>, values: map<string, string>, k: string)
    requires |keys| == |texts|
    requires forall i, j :: 0 <= i < j < |keys| ==> keys[i] != keys[j]
    ensures var r := Returned(Zip(keys, texts), values);
      && (k !in keys ==> (k in r <==> k in values) && (k in r ==> r[k] == values[k]))
      && (forall i :: 0 <= i < |keys| && keys[i] == k ==> k in r && r[k] == Unquote(Strip(texts[i])))
    decreases |keys|
  {
    if keys != [] {
      var entries := Zip(keys, texts);
      assert entries[1..] == Zip(keys[1..], texts[1..]);
      ReturnedAt(keys[1..], texts[1..], values[keys[0] := Unquote(Strip(texts[0]))], k);
      assert forall i :: 0 < i < |keys| ==> keys[i] == keys[1..][i - 1] && texts[i] == texts[1..][i - 1];
      assert keys[0] !in keys[1..];
    }
  }

  lemma DigitsArePlain(s: string)
    requires s != "" && forall c :: c in s ==> IsDigit(c)
    ensures Plain(s) && Plain("-" + s)
  {
    assert s[0] in s && s[|s| - 1] in s;
    var t := "-" + s;
    assert forall c :: c in t ==> IsDigit(c) || c == '-';
    assert t[|t| - 1] == s[|s| - 1];
  }

  lemma NumberIsPlain(n: int)
    ensures Plain(IntText(n))
  {
    var m := if n < 0 then -n else n;
    NatTextIs(m);
    DigitsArePlain(NatText(m));
  }

  lemma NumberIsOneLine(n: int)
    ensures OneLine(IntText(n))
  {
    NumberIsPlain(n);
  }

  lemma NumberIsKept(n: int)
    ensures Unquote(Strip(IntText(n))) == IntText(n) && ParseInt(IntText(n)) == Some(n)
  {
    NumberIsPlain(n);
    PlainIsKept(IntText(n));
    IntRoundTrip(n);
  }

  /** Every text that is printed on one line comes back stripped and unquoted. */
  lemma TextsComeBack(keys: seq<string>, texts: seq<string>)
    requires GoodKeys(keys) && |texts| == 8 && forall i :: 0 <= i < 8 ==> OneLine(texts[i])
    ensures var values := Parse(Print(Zip(keys, texts)));
      forall i :: 0 <= i < 8 ==> keys[i] in values && values[keys[i]] == Unquote(Strip(texts[i]))
  {
    var entries := Zip(keys, texts);
    assert Printable(entries);
    FoldPrinted(entries, map[]);
    forall i | 0 <= i < 8
      ensures keys[i] in Parse(Print(entries)) && Parse(Print(entries))[keys[i]] == Unquote(Strip(texts[i]))
    {
      ReturnedAt(keys, texts, map[], keys[i]);
    }
  }

  lemma PortComesBack(values: map<string, string>, key: string, n: int)
    requires key in values && values[key] == Unquote(Strip(IntText(n)))
    ensures PortAt(values, key) == Some(n)
  {
    NumberIsKept(n);
  }

  lemma FromPorts(keys: seq<string>, values: map<string, string>, back: StackConfig, place: Place)
    requires |keys| == 8 && keys[0] in values && keys[1] in values
    requires values[keys[0]] == back.root && values[keys[1]] == back.project
    requires var ports := Ports(back); forall i :: 0 <= i < 6 ==> PortAt(values, keys[i + 2]) == Some(ports[i])
    ensures ConfigFromValues(keys, values, place)
         == if place.resolve(back.root) == place.here then Ok(back) else Err(BelongsTo(back.root))
  {
    var ports := Ports(back);
    assert ports[0] == back.appPort && ports[1] == back.postgresPort && ports[2] == back.nginxPort;
    assert ports[3] == back.grafanaPort && ports[4] == back.otlpGrpcPort && ports[5] == back.otlpHttpPort;
  }

  /** What comes back for a configuration whose two texts have no line break. */
  lemma ComesBack(keys: seq<string>, config: StackConfig, place: Place)
    requires GoodKeys(keys) && OneLine(config.root) && OneLine(config.project)
    ensures var back := config.(root := Unquote(Strip(config.root)), project := Unquote(Strip(config.project)));
      ConfigFromValues(keys, Parse(Written(keys, config)), place)
      == if place.resolve(back.root) == place.here then Ok(back) else Err(BelongsTo(back.root))
  {
    var values := Parse(Written(keys, config));
    TextsAreOneLine(config);
    TextsComeBack(keys, Texts(config));
    var ports := Ports(config);
    assert forall i :: 0 <= i < 6 ==> Texts(config)[i + 2] == IntText(ports[i]);
    PortsComeBack(keys, ports, values);
    FromPorts(keys, values, config.(root := Unquote(Strip(config.root)), project := Unquote(Strip(config.project))), place);
  }

  lemma TextsAreOneLine(config: StackConfig)
    requires OneLine(config.root) && OneLine(config.project)
    ensures forall i :: 0 <= i < 8 ==> OneLine(Texts(config)[i])
  {
    var ports := Ports(config);
    forall i | 0 <= i < 8
      ensures OneLine(Texts(config)[i])
    {
      if i >= 2 {
        assert Texts(config)[i] == IntText(ports[i - 2]);
        NumberIsOneLine(ports[i - 2]);
      }
    }
  }

  lemma PortsComeBack(keys: seq<string>, ports: seq<int>, values: map<string, string>)
    requires |keys| == 8 && |ports| == 6
    requires forall i :: 0 <= i < 6 ==> keys[i + 2] in values && values[keys[i + 2]] == Unquote(Strip(IntText(ports[i])))
    ensures forall i :: 0 <= i < 6 ==> PortAt(values, keys[i + 2]) == Some(ports[i])
  {
    forall i | 0 <= i < 6
      ensures PortAt(values, keys[i + 2]) == Some(ports[i])
    {
      PortComesBack(values, keys[i + 2], ports[i]);
    }
  }

  /** A configuration of this worktree survives being written and read if and only if its root and its project
      name are plain. */
  lemma ConfigRoundTrip(config: StackConfig, place: Place)
    requires place.resolve(config.root) == place.here
    ensures ConfigIn(Written(KEYS, config), place) == Ok(config) <==> Plain(config.root) && Plain(config.project)
  {
    KeysAreGood();
    AnyKeysRoundTrip(KEYS, config, place);
  }

  lemma AnyKeysRoundTrip(keys: seq<string>, config: StackConfig, place: Place)
    requires GoodKeys(keys) && place.resolve(config.root) == place.here
    ensures ConfigFromValues(keys, Parse(Written(keys, config)), place) == Ok(config)
       <==> Plain(config.root) && Plain(config.project)
  {
    if OneLine(config.root) && OneLine(config.project) {
      ComesBack(keys, config, place);
      PlainIsKept(config.root);
      PlainIsKept(config.project);
    } else {
      ParsedIsOneLine(Written(keys, config));
    }
  }

  /** An absolute path without line breaks or trailing blanks is plain, whatever '=' or '#' it contains. */
  lemma AbsolutePathIsPlain(path: string)
    requires path != "" && path[0] == '/' && OneLine(path) && !IsSpace(path[|path| - 1])
    ensures Plain(path)
  {
  }

  // ---- load_config -----------------------------------------------------------------------------------

  /** One call: whether it may create the file, and what _allocate_ports finds (None where it raises). */
  datatype Call = Call(create: bool, ports: Option<(int, int, int, int, int, int)>)

  function NewConfig(place: Place, ports: (int, int, int, int, int, int)): StackConfig {
    StackConfig(place.here, place.project, ports.0, ports.1, ports.2, ports.3, ports.4, ports.5)
  }

  type Loaded = Result<Option<StackConfig>, ToolError>

  function Load(file: Option<string>, call: Call, place: Place): (Option<string>, Loaded) {
    match file
    case Some(text) =>
      (file, match ConfigIn(text, place) case Ok(config) => Ok(Some(config)) case Err(e) => Err(e))
    case None =>
      if !call.create then (None, Ok(None))
      else if call.ports.None? then (None, Err(NoFreePorts))
      else
        var config := NewConfig(place, call.ports.value);
        (Some(Written(KEYS, config)), Ok(Some(config)))
  }

  /** A first call that may create the file and finds ports answers the worktree's own identity with these ports, each for
      its service, and stores them line by line under the names of the keys. */
  lemma CreatedIs(place: Place, ports: (int, int, int, int, int, int))
    ensures var (file, r) := Load(None, Call(true, Some(ports)), place);
      && r.Ok? && r.value.Some? && file.Some?
      && r.value.value.root == place.here && r.value.value.project == place.project
      && r.value.value.appPort == ports.0 && r.value.value.postgresPort == ports.1
      && r.value.value.nginxPort == ports.2 && r.value.value.grafanaPort == ports.3
      && r.value.value.otlpGrpcPort == ports.4 && r.value.value.otlpHttpPort == ports.5
      && file.value
         == ("LSSTACK_ROOT" + "=" + place.here + "\n") + (("COMPOSE_PROJECT_NAME" + "=" + place.project + "\n") +
            (("APP_PORT" + "=" + IntText(ports.0) + "\n") + (("POSTGRES_PORT" + "=" + IntText(ports.1) + "\n") +
            (("NGINX_PORT" + "=" + IntText(ports.2) + "\n") + (("GRAFANA_PORT" + "=" + IntText(ports.3) + "\n") +
            (("OTLP_GRPC_PORT" + "=" + IntText(ports.4) + "\n") + ("OTLP_HTTP_PORT" + "=" + IntText(ports.5) + "\n")))))))
    ensures Load(None, Call(false, Some(ports)), place) == (None, Ok(None))
    ensures Load(None, Call(true, None), place) == (None, Err(NoFreePorts))
  {
    var config := NewConfig(place, ports);
    KeysAre();
    FileIs(KEYS, config);
  }

  /** Read back as a dictionary, the stored file has each port under the name of its service, and the root and the project
      as they were if they are plain. */
  lemma CreatedParses(place: Place, ports: (int, int, int, int, int, int))
    requires OneLine(place.here) && OneLine(place.project)
    ensures var file := Load(None, Call(true, Some(ports)), place).0;
      && file.Some?
      && var values := Parse(file.value);
      && StoredText(values, "LSSTACK_ROOT", place.here) && StoredText(values, "COMPOSE_PROJECT_NAME", place.project)
      && StoredPort(values, "APP_PORT", ports.0) && StoredPort(values, "POSTGRES_PORT", ports.1)
      && StoredPort(values, "NGINX_PORT", ports.2) && StoredPort(values, "GRAFANA_PORT", ports.3)
      && StoredPort(values, "OTLP_GRPC_PORT", ports.4) && StoredPort(values, "OTLP_HTTP_PORT", ports.5)
  {
    var config := NewConfig(place, ports);
    KeysAre();
    KeysAreGood();
    TextsStored(KEYS, config);
    PortStored(KEYS, config, 0, ports.0);
    PortStored(KEYS, config, 1, ports.1);
    PortStored(KEYS, config, 2, ports.2);
    PortStored(KEYS, config, 3, ports.3);
    PortStored(KEYS, config, 4, ports.4);
    PortStored(KEYS, config, 5, ports.5);
  }

  /** The key has the decimal text of the number. */
  predicate StoredPort(values: map<string, string>, key: string, port: int) {
    key in values && values[key] == IntText(port)
  }

  predicate StoredText(values: map<string, string>, key: string, text: string) {
    key in values && (Plain(text) ==> values[key] == text)
  }

  lemma PortStored(keys: seq<string>, config: StackConfig, i: nat, port: int)
    requires GoodKeys(keys) && OneLine(config.root) && OneLine(config.project) && i < 6 && Ports(config)[i] == port
    ensures StoredPort(Parse(Written(keys, config)), keys[i + 2], port)
  {
    TextsAreOneLine(config);
    TextsComeBack(keys, Texts(config));
    PortText(config, i, port);
    NumberIsKept(port);
  }

  lemma TextsStored(keys: seq<string>, config: StackConfig)
    requires GoodKeys(keys) && OneLine(config.root) && OneLine(config.project)
    ensures var values := Parse(Written(keys, config));
      StoredText(values, keys[0], config.root) && StoredText(values, keys[1], config.project)
  {
    TextsAreOneLine(config);
    TextsComeBack(keys, Texts(config));
    PlainIsKept(config.root);
    PlainIsKept(config.project);
  }

  lemma PortText(config: StackConfig, i: nat, port: int)
    requires i < 6 && Ports(config)[i] == port
    ensures Texts(config)[i + 2] == IntText(port)
  {
  }

  lemma FileIs(keys: seq<string>, config: StackConfig)
    requires |keys| == 8
    ensures Written(keys, config)
         == (keys[0] + "=" + config.root + "\n") + ((keys[1] + "=" + config.project + "\n") +
            ((keys[2] + "=" + IntText(config.appPort) + "\n") + ((keys[3] + "=" + IntText(config.postgresPort) + "\n") +
            ((keys[4] + "=" + IntText(config.nginxPort) + "\n") + ((keys[5] + "=" + IntText(config.grafanaPort) + "\n") +
            ((keys[6] + "=" + IntText(config.otlpGrpcPort) + "\n") +
             (keys[7] + "=" + IntText(config.otlpHttpPort) + "\n")))))))
  {
    PortText(config, 0, config.appPort);
    PortText(config, 1, config.postgresPort);
    PortText(config, 2, config.nginxPort);
    PortText(config, 3, config.grafanaPort);
    PortText(config, 4, config.otlpGrpcPort);
    PortText(config, 5, config.otlpHttpPort);
    PrintEight(Zip(keys, Texts(config)));
  }

  function Line(e: Entry): string {
    e.key + "=" + e.value + "\n"
  }

  lemma {:induction false} PrintFrom(entries: seq<Entry>, i: nat)
    requires i < |entries|
    ensures Print(entries[i..]) == Line(entries[i]) + Print(entries[i + 1..])
  {
    assert entries[i..][1..] == entries[i + 1..];
  }

  lemma PrintEight(entries: seq<Entry>)
    requires |entries| == 8
    ensures Print(entries)
         == Line(entries[0]) + (Line(entries[1]) + (Line(entries[2]) + (Line(entries[3]) +
            (Line(entries[4]) + (Line(entries[5]) + (Line(entries[6]) + Line(entries[7])))))))
  {
    assert entries == entries[0..];
    PrintFrom(entries, 0);
    PrintFrom(entries, 1);
    PrintFrom(entries, 2);
    PrintFrom(entries, 3);
    PrintFrom(entries, 4);
    PrintFrom(entries, 5);
    PrintFrom(entries, 6);
    PrintFrom(entries, 7);
    assert Line(entries[7]) + Print(entries[8..]) == Line(entries[7]);
  }

  class EnvFile {
    var content: Option<string>

    constructor ()
      ensures content.None?
    {
      content := None;
    }

    /** load_config. */
    method LoadConfig(call: Call, place: Place) returns (r: Loaded)
      modifies this
      ensures (content, r) == Load(old(content), call, place)
      ensures old(content).Some? ==> content == old(content)
      ensures old(content).None? && !call.create ==> content.None? && r == Ok(None)
      ensures old(content).None? && call.create && call.ports.None? ==> content.None? && r == Err(NoFreePorts)
      ensures old(content).None? && call.create && call.ports.Some? ==>
        var ports := call.ports.value;
        && content.Some?
        && r == Ok(Some(StackConfig(place.here, place.project, ports.0, ports.1, ports.2, ports.3, ports.4, ports.5)))
    {
      if content.Some? {
        var values := ReadDotenv(content);
        var config := ConfigFromValues(KEYS, values, place);
        return match config case Ok(c) => Ok(Some(c)) case Err(e) => Err(e);
      }
      if !call.create {
        return Ok(None);
      }
      if call.ports.None? {
        return Err(NoFreePorts);
      }
      var config := NewConfig(place, call.ports.value);
      content := Some(Print(Zip(KEYS, Texts(config))));
      return Ok(Some(config));
    }
  }

  /** The answers of a sequence of calls. */
  function Answers(file: Option<string>, calls: seq<Call>, place: Place): (answers: seq<Loaded>)
    ensures |answers| == |calls|
    decreases |calls|
  {
    if calls == [] then []
    else
      var (file', r) := Load(file, calls[0], place);
      [r] + Answers(file', calls[1..], place)
  }

  lemma {:induction false} FileIsKept(text: string, calls: seq<Call>, place: Place)
    ensures forall i :: 0 <= i < |calls| ==> Answers(Some(text), calls, place)[i] == Load(Some(text), calls[i], place).1
    decreases |calls|
  {
    if calls != [] {
      FileIsKept(text, calls[1..], place);
    }
  }

  /** What the call that creates the file answers is what every later call answers, if and only if the path and
      the project name are plain. */
  lemma CreatedReadsBack(call: Call, place: Place, later: Call)
    requires place.resolve(place.here) == place.here
    ensures var (file, r) := Load(None, call, place);
      && (file.Some? ==> Load(file, later, place).0 == file
                         && (Load(file, later, place).1 == r <==> Plain(place.here) && Plain(place.project)))
      && (file.None? ==> r.Err? || r.value.None?)
  {
    if call.ports.Some? {
      ConfigRoundTrip(NewConfig(place, call.ports.value), place);
    }
  }

  lemma CallsReadAlike(text: string, a: Call, b: Call, place: Place)
    ensures Load(Some(text), a, place) == Load(Some(text), b, place)
  {
  }

  /** Whatever ports later calls find free, the identity is that of the call that created the file. */
  lemma {:induction false} OneIdentity(calls: seq<Call>, place: Place, i: nat, j: nat)
    requires Plain(place.here) && Plain(place.project) && place.resolve(place.here) == place.here
    requires i <= j < |calls|
    requires Answers(None, calls, place)[i].Ok? && Answers(None, calls, place)[i].value.Some?
    ensures Answers(None, calls, place)[j] == Answers(None, calls, place)[i]
    decreases i
  {
    var first := Load(None, calls[0], place);
    CreatedReadsBack(calls[0], place, calls[0]);
    if first.0.Some? {
      FileIsKept(first.0.value, calls[1..], place);
      forall k | 0 <= k < |calls|
        ensures Answers(None, calls, place)[k] == first.1
      {
        CallsReadAlike(first.0.value, calls[0], calls[k], place);
      }
    } else {
      OneIdentity(calls[1..], place, i - 1, j - 1);
    }
  }
}
