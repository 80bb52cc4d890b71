/** The `main` of contents/salt_node_executor.py: the Rundeck node executor
    that runs a command on one minion through `cmd.run` and hands the minion's
    output and return code back to Rundeck. */
module NodeExecutor {
  import opened Results
  import opened PyValue
  import opened Common
  import opened SaltApi

  /** The variables the executor reads, in the order `parse_data` reads them. */
  const NodeItems: seq<DataItem> := [
    DataItem("cmd", "RD_EXEC_COMMAND", "str"),
    DataItem("host", "RD_NODE_HOSTNAME", "str"),
    DataItem("runas", "RD_CONFIG_RUNAS", "str"),
    DataItem("args", "RD_CONFIG_CMD_RUN_ARGS", "shstr"),
    DataItem("node-args", "RD_NODE_SALT_CMD_RUN_ARGS", "shstr"),
    DataItem("url", "RD_CONFIG_URL", "str"),
    DataItem("eauth", "RD_CONFIG_EAUTH", "str"),
    DataItem("user", "RD_CONFIG_USER", "str"),
    DataItem("password", "RD_CONFIG_PASSWORD", "str"),
    DataItem("verify_ssl", "RD_CONFIG_VERIFYSSL", "bool"),
    DataItem("log-level", "RD_JOB_LOGLEVEL", "str")
  ]

  /** The settings that must be truthy before the command is sent. */
  const NodeRequired: seq<string> := ["cmd", "host", "url", "eauth", "user", "password"]

  const NoResponse := "No response received"

  /** The settings `main` works on, as `parse_data` leaves them. */
  predicate NodeData(data: map<string, Setting>) {
    "cmd" in data && "host" in data && "runas" in data && "args" in data && "node-args" in data &&
    "url" in data && "eauth" in data && "user" in data && "password" in data &&
    "verify_ssl" in data && "log-level" in data &&
    (data["cmd"].Unset? || data["cmd"].Text?) &&
    (data["host"].Unset? || data["host"].Text?) &&
    (data["runas"].Unset? || data["runas"].Text?) &&
    (data["args"].Unset? || data["args"].Words?) &&
    (data["node-args"].Unset? || data["node-args"].Words?)
  }

  /** The keys of `NodeItems` and the types of the first five. */
  predicate NodeLayout(items: seq<DataItem>) {
    |items| == 11 &&
    items[0].key == "cmd" && items[1].key == "host" && items[2].key == "runas" && items[3].key == "args" &&
    items[4].key == "node-args" && items[5].key == "url" && items[6].key == "eauth" && items[7].key == "user" &&
    items[8].key == "password" && items[9].key == "verify_ssl" && items[10].key == "log-level" &&
    items[0].dataType == "str" && items[1].dataType == "str" && items[2].dataType == "str" &&
    items[3].dataType == "shstr" && items[4].dataType == "shstr"
  }

  /** `NodeItems` is laid out as `NodeLayout` says. */
  lemma NodeItemsLayout()
    ensures NodeLayout(NodeItems)
  {
  }

  /** No later item has the key of one of the first five, whose first letters
      no other key shares. */
  lemma NodeKeysLast(items: seq<DataItem>)
    requires NodeLayout(items)
    ensures LastWith(items, 0) && LastWith(items, 1) && LastWith(items, 2)
    ensures LastWith(items, 3) && LastWith(items, 4)
  {
    var initials := [items[0].key[0], items[1].key[0], items[2].key[0], items[3].key[0], items[4].key[0],
      items[5].key[0], items[6].key[0], items[7].key[0], items[8].key[0], items[9].key[0], items[10].key[0]];
    assert initials == "chranueupvl";
    forall i, j | 0 <= i < 5 && i < j < |items| ensures items[j].key != items[i].key {
      assert items[j].key[0] == initials[j] && items[i].key[0] == initials[i];
    }
  }

  /** A successful parse of items laid out as `NodeItems` gives settings of
      the shape `main` works on. */
  lemma ParsedLayout(items: seq<DataItem>, env: map<string, string>, lexer: Lexer)
    requires NodeLayout(items) && Parsed(items, env, lexer).Ok?
    ensures NodeData(Parsed(items, env, lexer).value)
  {
    ParsedHasKeys(items, env, lexer);
    var d := Parsed(items, env, lexer).value;
    assert items[0].key in d && items[1].key in d && items[2].key in d && items[3].key in d && items[4].key in d;
    assert items[5].key in d && items[6].key in d && items[7].key in d && items[8].key in d && items[9].key in d;
    assert items[10].key in d;
    NodeKeysLast(items);
    ParsedShapedAt(items, env, lexer, 0);
    ParsedShapedAt(items, env, lexer, 1);
    ParsedShapedAt(items, env, lexer, 2);
    ParsedShapedAt(items, env, lexer, 3);
    ParsedShapedAt(items, env, lexer, 4);
  }

  /** Whatever the environment holds, a successful `parse_data` gives
      settings of that shape. */
  lemma ParsedNodeData(env: map<string, string>, lexer: Lexer)
    requires Parsed(NodeItems, env, lexer).Ok?
    ensures NodeData(Parsed(NodeItems, env, lexer).value)
  {
    NodeItemsLayout();
    ParsedLayout(NodeItems, env, lexer);
  }

  /** The arguments a list setting contributes: its tokens, none when unset. */
  function Tokens(v: Setting): seq<string> {
    if v.Words? then v.items else []
  }

  /** Whether `runas=` is added: the setting is neither `None` nor empty. */
  predicate HasRunas(data: map<string, Setting>)
    requires NodeData(data)
  {
    data["runas"].Text? && data["runas"].s != ""
  }

  /** The `cmd.run` arguments lines 52-61 build: the command, then
      `runas=<user>` when a user is set, then the plugin's configured
      arguments, then the node's, and nothing else. */
  predicate ArgsFor(data: map<string, Setting>, args: seq<string>)
    requires NodeData(data) && data["cmd"].Text?
  {
    var r := if HasRunas(data) then 1 else 0;
    var conf, node := Tokens(data["args"]), Tokens(data["node-args"]);
    |args| == 1 + r + |conf| + |node| &&
    args[0] == data["cmd"].s &&
    (HasRunas(data) ==> args[1] == "runas=" + data["runas"].s) &&
    args[1 + r..1 + r + |conf|] == conf &&
    args[1 + r + |conf|..] == node
  }

  /** The settings fix the argument list: `ArgsFor` leaves no freedom. */
  lemma ArgsForUnique(data: map<string, Setting>, a: seq<string>, b: seq<string>)
    requires NodeData(data) && data["cmd"].Text?
    requires ArgsFor(data, a) && ArgsFor(data, b)
    ensures a == b
  {
    var r := if HasRunas(data) then 1 else 0;
    var k := 1 + r + |Tokens(data["args"])|;
    assert a[..1 + r] == b[..1 + r];
    assert a[1 + r..k] == b[1 + r..k];
    assert a == a[..1 + r] + a[1 + r..k] + a[k..];
    assert b == b[..1 + r] + b[1 + r..k] + b[k..];
  }

  /** Lines 52-61: the list starts as the command and is appended to and
      extended in place. */
  method BuildArgs(data: map<string, Setting>) returns (args: seq<string>)
    requires NodeData(data) && data["cmd"].Text?
    ensures ArgsFor(data, args)
  {
    args := [data["cmd"].s];
    if data["runas"].Text? && data["runas"].s != "" {
      args := args + ["runas=" + data["runas"].s];
    }
    ghost var head := args;
    if data["args"].Words? {
      args := args + data["args"].items;
    }
    if data["node-args"].Words? {
      args := args + data["node-args"].items;
    }
    assert args == head + Tokens(data["args"]) + Tokens(data["node-args"]);
  }

  /** The `cmd.run` request for the command's arguments. */
  function CommandRequest(host: string, args: seq<string>): LowState {
    LowState("local", Str(host), "cmd.run",
      seq(|args|, i requires 0 <= i < |args| => Plain(Str(args[i]))), None, true)
  }

  /** What one run of `main` leaves behind: the values printed, the errors
      logged, the exit status, the login made and the requests sent. */
  datatype NodeRun = NodeRun(
    printed: seq<Value>,
    logged: seq<string>,
    status: int,
    login: Option<Credentials>,
    sent: seq<LowState>)

  /** `main` from line 44 on. The API answers the login with `loginError` and
      the `low` call with `answer`. */
  method ExecuteCommand(data: map<string, Setting>, loginError: Option<string>, answer: seq<LowState> -> Response)
    returns (run: NodeRun)
    requires NodeData(data)
    ensures FirstFalsy(data, NodeRequired).Some? ==>
      run.status == 1 && run.login.None? && run.sent == [] && run.printed == [] &&
      run.logged == [NotSentMessage(FirstFalsy(data, NodeRequired).value)]
    ensures FirstFalsy(data, NodeRequired).None? ==> run.logged == []
    ensures FirstFalsy(data, NodeRequired).None? ==>
      run.login == Some(Credentials(SettingValue(data["user"]), SettingValue(data["password"]), SettingValue(data["eauth"])))
    ensures loginError.Some? && run.login.Some? ==>
      run.status == 1 && run.sent == [] && run.printed == [Str(loginError.value)]
    ensures |run.sent| <= 1
    ensures FirstFalsy(data, NodeRequired).None? && loginError.None? ==> |run.sent| == 1
    ensures run.sent != [] ==>
      data["cmd"].Text? && data["host"].Text? && loginError.None? &&
      exists args :: ArgsFor(data, args) && run.sent == [CommandRequest(data["host"].s, args)]
    ensures run.sent != [] && answer(run.sent).Raised? ==>
      run.status == 1 && run.printed == [Str(answer(run.sent).message)]
    ensures run.sent != [] && answer(run.sent).Answered? ==>
      var body, host := answer(run.sent).body, data["host"].s;
      match (MinionField(body, host, "ret", Str(NoResponse)), MinionField(body, host, "retcode", Int(1)))
      case (Some(ret), Some(code)) => run.printed == [ret] && run.status == ExitStatus(code)
      case _ => run.printed == [] && run.status == 1
  {
    var missing := FirstMissing(data, NodeRequired);
    if missing.Some? {
      return NodeRun([], [NotSentMessage(missing.value)], 1, None, []);
    }
    assert NodeRequired[0] == "cmd" && NodeRequired[1] == "host";
    var args := BuildArgs(data);
    var host := data["host"].s;
    var request := CommandRequest(host, args);
    var client := new Client(SettingValue(data["url"]), !Common.Truthy(data["verify_ssl"]), loginError, answer);
    var error := client.Login(Credentials(SettingValue(data["user"]), SettingValue(data["password"]), SettingValue(data["eauth"])));
    if error.Some? {
      return NodeRun([Str(error.value)], [], 1, client.login, client.sent);
    }
    var response := client.Low(request);
    if response.Raised? {
      return NodeRun([Str(response.message)], [], 1, client.login, client.sent);
    }
    var ret := MinionField(response.body, host, "ret", Str(NoResponse));
    var code := MinionField(response.body, host, "retcode", Int(1));
    if ret.None? || code.None? {
      return NodeRun([], [], 1, client.login, client.sent);
    }
    run := NodeRun([ret.value], [], ExitStatus(code.value), client.login, client.sent);
  }

  /** A minion missing from the response leaves `ret` at "No response
      received" and the exit status at 1. */
  lemma MissingHostReply(body: Value, host: string)
    requires MinionsOf(body).Some? && MinionsOf(body).value.Dict? && host !in MinionsOf(body).value.entries
    ensures MinionField(body, host, "ret", Str(NoResponse)) == Some(Str(NoResponse))
    ensures MinionField(body, host, "retcode", Int(1)) == Some(Int(1)) && ExitStatus(Int(1)) == 1
  {
    MissingHostDefaults(body, host, "ret", Str(NoResponse));
    MissingHostDefaults(body, host, "retcode", Int(1));
  }
}
