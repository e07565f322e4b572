/** How the OpenStack and Heat command lines are assembled before they are
    run: `executeTask` and the per-command task maps of tasks/clouddity.js,
    and `executeTask` and the exported task map of index.js. */
module Commands {
  import opened Wrappers
  import opened Seqs
  import opened Options
  import opened JsObjects
  import Naming

  /** What the caller passed as `callback`: a function value (identified by
      an opaque number) or anything else. */
  datatype CallbackArg = FunctionArg(id: nat) | NonFunctionArg

  /** The callback a task hands to grunt-exec. */
  datatype Handler = CallerCallback(id: nat) | DefaultLogger

  /** `_.isFunction(callback) ? callback : <log error or stdout>`. */
  function HandlerFor(callback: CallbackArg): (h: Handler)
    ensures h.DefaultLogger? <==> callback.NonFunctionArg?
    ensures callback.FunctionArg? ==> h == CallerCallback(callback.id)
  {
    match callback
    case FunctionArg(id) => CallerCallback(id)
    case NonFunctionArg => DefaultLogger
  }

  /** The last element joined into every command line. */
  function DebugSwitch(verbose: OptValue): (r: string)
    ensures r == "--debug" <==> verbose.Truthy()
    ensures !verbose.Truthy() ==> r == ""
  {
    if verbose.Truthy() then "--debug" else ""
  }

  /** `Array.prototype.join` renders `undefined` elements as "". */
  function JoinElement(v: Option<string>): string {
    v.GetOr("")
  }

  // ---------------------------------------------------------------------
  // tasks/clouddity.js

  /** `cmd.split(" ")[0]`. */
  function FirstWord(cmd: string): string {
    Split(cmd, ' ')[0]
  }

  /** The first word is the text before the first space. */
  lemma FirstWordIsPrefix(cmd: string)
    ensures FirstWord(cmd) == cmd[..FirstSep(cmd, ' ')]
    ensures ' ' !in FirstWord(cmd)
  {
    SplitHead(cmd, ' ');
  }

  /** `output && commandsOutput.includes(cmd.split(" ")[0])`. */
  predicate OutputWanted(output: Option<string>, cmd: string, commandsOutput: seq<string>) {
    Naming.Truthy(output) && FirstWord(cmd) in commandsOutput
  }

  /** The option switches AS WRITTEN: `[options, wanted ? {f: output} :
      undefined]`. */
  function OptionSwitchesAsWritten(
    options: Props, output: Option<string>, cmd: string, commandsOutput: seq<string>, singleDash: seq<string>): seq<string>
  {
    var entry := if OutputWanted(output, cmd, commandsOutput) then Some([("f", output.value)]) else None;
    OptionsToCLISwitches([Some(options), entry], singleDash)
  }

  /** When no output switch is wanted, the `undefined` second element makes
      the fold `undefined`, and every option switch is lost. */
  lemma AsWrittenDropsOptions(
    options: Props, output: Option<string>, cmd: string, commandsOutput: seq<string>, singleDash: seq<string>)
    requires !OutputWanted(output, cmd, commandsOutput)
    ensures OptionSwitchesAsWritten(options, output, cmd, commandsOutput, singleDash) == []
  {
  }

  /** A concrete case: `server create --name web` without an output format
      loses `--name web`. */
  lemma AsWrittenCounterexample()
    ensures OptionSwitchesAsWritten([("name", "web")], None, "create", ["list"], []) == []
    ensures OptionSwitches([("name", "web")], None, "create", ["list"], []) == ["--name web"]
  {
    var sd: seq<string> := [];
    assert Merge([Some([("name", "web")]), Some([])]) == Some([("name", "web")]) by {
      var m := [("name", "web")];
      assert Extend([], m) == Set(Extend([], m[..0]), "name", "web");
      assert m[..0] == [];
    }
    assert Switch(("name", "web"), sd) == "--name web";
  }

  /** The option switches as evidently intended: an empty object in place
      of `undefined` when no output switch is wanted. */
  function OptionSwitches(
    options: Props, output: Option<string>, cmd: string, commandsOutput: seq<string>, singleDash: seq<string>): seq<string>
  {
    OptionsToCLISwitches([Some(options), Some(OutputEntry(output, cmd, commandsOutput))], singleDash)
  }

  function OutputEntry(output: Option<string>, cmd: string, commandsOutput: seq<string>): (r: Props)
    ensures Keys(r) == if OutputWanted(output, cmd, commandsOutput) then ["f"] else []
    ensures DistinctKeys(r)
  {
    if OutputWanted(output, cmd, commandsOutput) then [("f", output.value)] else []
  }

  /** Every option keeps its switch, and the switch carrying `f` exists
      exactly when an output is wanted or `f` is itself an option; an `f`
      option wins over the output. */
  lemma OptionSwitchesKeepOptions(
    options: Props, output: Option<string>, cmd: string, commandsOutput: seq<string>, singleDash: seq<string>,
    k: string)
    requires DistinctKeys(options)
    requires k in Keys(options) || (k == "f" && OutputWanted(output, cmd, commandsOutput))
    ensures var v := if k in Keys(options) then Lookup(options, k).value else output.value;
      exists i :: 0 <= i < |OptionSwitches(options, output, cmd, commandsOutput, singleDash)|
        && OptionSwitches(options, output, cmd, commandsOutput, singleDash)[i] == Switch((k, v), singleDash)
  {
    var entry := OutputEntry(output, cmd, commandsOutput);
    var arr := [Some(options), Some(entry)];
    var v := if k in Keys(options) then Lookup(options, k).value else output.value;
    FirstLookupOfTwo(options, entry, k);
    if k !in Keys(options) {
      assert entry == [("f", output.value)];
      assert Lookup(entry, k) == Some(v);
    }
    assert FirstLookup(arr, k) == Some(v);
    assert AllPresent(arr) && AllDistinct(arr);
    OptionsToCLISwitchesSpec(arr, singleDash, k, v);
    assert OptionSwitches(options, output, cmd, commandsOutput, singleDash) == OptionsToCLISwitches(arr, singleDash);
  }

  /** No key other than the options' own and the output's `f` gets a
      switch. */
  lemma OptionSwitchKeys(
    options: Props, output: Option<string>, cmd: string, commandsOutput: seq<string>, singleDash: seq<string>,
    k: string)
    requires DistinctKeys(options)
    ensures var arr := [Some(options), Some(OutputEntry(output, cmd, commandsOutput))];
      k in Keys(Merge(arr).value) <==> k in Keys(options) || (k == "f" && OutputWanted(output, cmd, commandsOutput))
  {
    ExtendKeys(OutputEntry(output, cmd, commandsOutput), options);
  }

  /** The elements joined into the command line: the client, the global
      switches, `obj` and `cmd`, the option switches, and the debug switch. */
  function CommandParts(
    client: string, obj: Option<string>, cmd: string, globalOptions: Option<Props>, options: Props,
    output: Option<string>, commandsOutput: seq<string>, verbose: OptValue, singleDash: seq<string>): (r: seq<string>)
    ensures var g := |globalOptions.GetOr([])|;
      && |r| == g + 4 + |OptionSwitches(options, output, cmd, commandsOutput, singleDash)|
      && r[0] == client
      && (forall i :: 0 <= i < g ==> r[1 + i] == Switch(globalOptions.value[i], singleDash))
      && r[1 + g] == JoinElement(obj) && r[2 + g] == cmd
      && r[3 + g..|r| - 1] == OptionSwitches(options, output, cmd, commandsOutput, singleDash)
      && r[|r| - 1] == DebugSwitch(verbose)
  {
    [client] + OptionsToCLISwitches([globalOptions], singleDash) + [JoinElement(obj), cmd]
    + OptionSwitches(options, output, cmd, commandsOutput, singleDash) + [DebugSwitch(verbose)]
  }

  /** What `executeTask` returns before the template render. */
  datatype ExecSpec = ExecSpec(command: string, stdout: OptValue, callback: Handler)

  /** `executeTask` of tasks/clouddity.js, with the option switches fixed:
      `stdout` is `false` for an absent verbose option and the option
      itself otherwise. */
  function ExecuteTask(
    client: string, obj: Option<string>, cmd: string, globalOptions: Option<Props>, options: Props,
    output: Option<string>, commandsOutput: seq<string>, verbose: OptValue, callback: CallbackArg,
    singleDash: seq<string>): (r: ExecSpec)
    ensures r.command == Join(CommandParts(client, obj, cmd, globalOptions, options, output, commandsOutput, verbose, singleDash), ' ')
    ensures client + " " <= r.command
    ensures verbose.Unset? ==> r.stdout == Flag(false)
    ensures !verbose.Unset? ==> r.stdout == verbose
    ensures r.stdout.Truthy() <==> verbose.Truthy()
    ensures r.callback.DefaultLogger? <==> callback.NonFunctionArg?
    ensures callback.FunctionArg? ==> r.callback == CallerCallback(callback.id)
  {
    var parts := CommandParts(client, obj, cmd, globalOptions, options, output, commandsOutput, verbose, singleDash);
    JoinAppend([client], parts[1..], ' ');
    assert [client] + parts[1..] == parts;
    ExecSpec(Join(parts, ' '), if verbose.Unset? then Flag(false) else verbose, HandlerFor(callback))
  }

  /** A task of the `openstack` or `heat` map: the client and what it acts
      upon. */
  datatype ClientTask = ClientTask(client: string, obj: Option<string>, cmd: string)

  /** `{obj: val[0], cmd: val[1] ? val[1] : ""}`. */
  function ClientTaskFor(client: string, val: seq<string>): (t: ClientTask)
    ensures t.client == client
    ensures t.obj.Some? <==> |val| > 0
    ensures t.obj.Some? ==> t.obj.value == val[0]
    ensures |val| > 1 ==> t.cmd == val[1]
    ensures |val| < 2 ==> t.cmd == ""
  {
    ClientTask(client, if |val| > 0 then Some(val[0]) else None, if |val| > 1 then val[1] else "")
  }

  /** `_.mapObject(commands, ...)` for one client; ClientTaskCommand shows
      that running the task of a key puts that key's words on the command
      line. */
  function ClientTasks(client: string, commands: map<string, seq<string>>): (r: map<string, ClientTask>)
    ensures r.Keys == commands.Keys
    ensures forall k :: k in r ==> r[k] == ClientTaskFor(client, commands[k])
  {
    map k | k in commands :: ClientTaskFor(client, commands[k])
  }

  /** Running a task of the map: the command line names the client, then
      the command's object and action. */
  lemma ClientTaskCommand(
    client: string, commands: map<string, seq<string>>, name: string,
    globalOptions: Option<Props>, options: Props, output: Option<string>, commandsOutput: seq<string>,
    verbose: OptValue, singleDash: seq<string>)
    requires name in commands && |commands[name]| >= 2
    ensures var t := ClientTasks(client, commands)[name];
      var parts := CommandParts(t.client, t.obj, t.cmd, globalOptions, options, output, commandsOutput, verbose, singleDash);
      var g := |globalOptions.GetOr([])|;
      parts[0] == client && parts[1 + g] == commands[name][0] && parts[2 + g] == commands[name][1]
  {
  }

  // ---------------------------------------------------------------------
  // index.js

  /** `{f: _.isFunction(callback) ? 'json' : output}`, `output` defaulting
      to `'table'`. */
  function IndexFormat(output: Option<string>, callback: CallbackArg): (f: string)
    ensures callback.FunctionArg? ==> f == "json"
    ensures callback.NonFunctionArg? && output.None? ==> f == "table"
    ensures callback.NonFunctionArg? && output.Some? ==> f == output.value
  {
    if callback.FunctionArg? then "json" else output.GetOr("table")
  }

  /** The switches of `[auth, options, {f: format}]`. */
  function IndexSwitches(auth: Option<Props>, options: Option<Props>, format: string, singleDash: seq<string>): seq<string> {
    OptionsToCLISwitches([auth, options, Some([("f", format)])], singleDash)
  }

  /** The elements joined by the `cmd` closure: the configured words, the
      switches, and the debug switch. */
  function IndexCommandParts(
    cmd: seq<string>, auth: Option<Props>, options: Option<Props>, format: string, verbose: OptValue,
    singleDash: seq<string>): (r: seq<string>)
    ensures |r| == |cmd| + |IndexSwitches(auth, options, format, singleDash)| + 1
    ensures forall i :: 0 <= i < |cmd| ==> r[i] == cmd[i]
    ensures forall i :: 0 <= i < |IndexSwitches(auth, options, format, singleDash)| ==>
      r[|cmd| + i] == IndexSwitches(auth, options, format, singleDash)[i]
    ensures r[|r| - 1] == DebugSwitch(verbose)
  {
    cmd + IndexSwitches(auth, options, format, singleDash) + [DebugSwitch(verbose)]
  }

  /** The joined command line starts with the configured words. */
  lemma IndexCommandLinePrefix(
    cmd: seq<string>, auth: Option<Props>, options: Option<Props>, format: string, verbose: OptValue,
    singleDash: seq<string>)
    requires |cmd| > 0
    ensures Join(cmd, ' ') + " " <= Join(IndexCommandParts(cmd, auth, options, format, verbose, singleDash), ' ')
  {
    var parts := IndexCommandParts(cmd, auth, options, format, verbose, singleDash);
    var rest := IndexSwitches(auth, options, format, singleDash) + [DebugSwitch(verbose)];
    assert parts == cmd + rest;
    JoinPrefix(cmd, rest, ' ');
  }

  /** Exactly one switch has the key `f`, and it carries the `f` of `auth`
      if it has one, else that of `options`, else the computed format. */
  lemma IndexFormatSwitch(
    cmd: seq<string>, auth: Props, options: Props, format: string, verbose: OptValue, singleDash: seq<string>)
    requires DistinctKeys(auth) && DistinctKeys(options)
    ensures var f := if "f" in Keys(auth) then Lookup(auth, "f").value
                     else if "f" in Keys(options) then Lookup(options, "f").value
                     else format;
      var parts := IndexCommandParts(cmd, Some(auth), Some(options), format, verbose, singleDash);
      var keys := Keys(Merge([Some(auth), Some(options), Some([("f", format)])]).value);
      && |keys| == |parts| - |cmd| - 1
      && exists i ::
           && 0 <= i < |keys| && keys[i] == "f" && parts[|cmd| + i] == Switch(("f", f), singleDash)
           && forall j :: 0 <= j < |keys| && keys[j] == "f" ==> j == i
  {
    var arr := [Some(auth), Some(options), Some([("f", format)])];
    var f := if "f" in Keys(auth) then Lookup(auth, "f").value
             else if "f" in Keys(options) then Lookup(options, "f").value
             else format;
    FirstLookupOfThree(auth, options, [("f", format)], "f");
    assert Lookup([("f", format)], "f") == Some(format);
    assert FirstLookup(arr, "f") == Some(f);
    assert DistinctKeys([("f", format)]);
    assert AllPresent(arr) && AllDistinct(arr);
    OptionsToCLISwitchesSpec(arr, singleDash, "f", f);
    var switches := IndexSwitches(Some(auth), Some(options), format, singleDash);
    var keys := Keys(Merge(arr).value);
    var i :| 0 <= i < |switches| && keys[i] == "f" && switches[i] == Switch(("f", f), singleDash);
    var parts := IndexCommandParts(cmd, Some(auth), Some(options), format, verbose, singleDash);
    assert parts[|cmd| + i] == switches[i];
    forall j | 0 <= j < |keys| && keys[j] == "f" ensures j == i {
    }
  }

  /** The properties of a JavaScript object, `None` for `null`. */
  function ValueOf(o: JsObject?): Option<Props>
    reads o
  {
    if o == null then None else Some(o.props)
  }

  /** The in-place fold over `[auth, options, f]` with a fresh `f`, on a
      store: the result is the value-level fold, and `options` receives the
      properties of `auth`. */
  lemma SimulateIndexFold(auth: JsObject?, options: JsObject?, f: JsObject, h: map<JsObject, Props>)
    requires Objects([auth, options, f]) <= h.Keys
    requires (auth != null ==> auth in h) && (options != null ==> options in h) && f in h
    requires f != auth && f != options
    ensures var s := Simulate([auth, options, f], h);
      var a := if auth == null then None else Some(h[auth]);
      var o := if options == null then None else Some(h[options]);
      && Merge([a, o, Some(h[f])]) == Some(s[f])
      && (options != null ==> s[options] == if auth == null then h[options] else Extend(h[options], h[auth]))
  {
    var arr := [auth, options, f];
    var pair := [auth, options];
    assert arr[..2] == pair && pair[..1] == [auth];
    assert Objects(pair) <= Objects(arr);
    assert Objects([auth]) <= Objects(arr);
    assert Simulate(pair[..1], h) == h;
    assert pair[|pair| - 1] == options && pair[|pair| - 2] == auth;
    var h1 := Simulate(pair, h);
    assert h1 == if auth == null || options == null then h else h[options := Extend(h[options], h[auth])];
    assert h1[f] == h[f];
    assert arr[|arr| - 1] == f && arr[|arr| - 2] == options && arr[..|arr| - 1] == pair;
    var s := Simulate(arr, h);
    assert s == if options == null then h1 else h1[f := Extend(h1[f], h1[options])];
    var a := if auth == null then None else Some(h[auth]);
    var o := if options == null then None else Some(h[options]);
    var snap := [a, o, Some(h[f])];
    assert snap[..2] == [a, o] && [a, o][..1] == [a];
    assert Merge([a, o]) == ExtendStep(o, a);
    assert Merge(snap) == ExtendStep(Some(h[f]), ExtendStep(o, a));
  }

  /** The `cmd` closure of index.js: folds `[auth, options, {f: format}]`
      in place, which writes the properties of `auth` into the caller's
      `options`, and joins the configured words, the switches and the debug
      switch. */
  method IndexCommand(
    cmd: seq<string>, auth: JsObject?, options: JsObject?, format: string, verbose: OptValue,
    singleDash: seq<string>) returns (line: string)
    modifies options
    ensures line == Join(IndexCommandParts(cmd, old(ValueOf(auth)), old(ValueOf(options)), format, verbose, singleDash), ' ')
    ensures options != null && auth != null ==> options.props == Extend(old(options.props), old(auth.props))
    ensures options != null && auth == null ==> options.props == old(options.props)
  {
    var f := new JsObject([("f", format)]);
    var arr := [auth, options, f];
    ghost var h := Store(Objects(arr));
    assert arr[0] == auth && arr[1] == options && arr[2] == f;
    assert f in Objects(arr);
    assert auth != null ==> auth in Objects(arr);
    assert options != null ==> options in Objects(arr);
    assert Targets(arr) <= {options, f};
    SimulateIndexFold(auth, options, f, h);
    var r := ReduceExtend(arr);
    assert r == f;
    line := Join(cmd + Map(r.props, SwitchWith(singleDash)) + [DebugSwitch(verbose)], ' ');
  }

  /** What index.js `executeTask` returns besides the closure: the format
      switch value, `stdout` (always false) and the callback. */
  datatype IndexSpec = IndexSpec(cmd: seq<string>, format: string, stdout: bool, callback: Handler)

  function IndexExecuteTask(cmd: seq<string>, output: Option<string>, callback: CallbackArg): (r: IndexSpec)
    ensures !r.stdout && r.cmd == cmd
    ensures r.format == IndexFormat(output, callback)
    ensures r.format == "json" <==> callback.FunctionArg? || output == Some("json")
    ensures r.callback.DefaultLogger? <==> callback.NonFunctionArg?
    ensures callback.FunctionArg? ==> r.callback == CallerCallback(callback.id)
  {
    IndexSpec(cmd, IndexFormat(output, callback), false, HandlerFor(callback))
  }

  /** An object argument of an exported task: left out (`undefined`, so
      the `options = {}` default applies), `null`, or an object. */
  datatype ObjectArg = Omitted | NullObject | Given(props: Props)

  /** The value an object argument takes inside the task. */
  function WithDefault(a: ObjectArg): Option<Props> {
    match a
    case Omitted => Some([])
    case NullObject => None
    case Given(p) => Some(p)
  }

  /** What a caller passes to an exported task besides `grunt`. */
  datatype IndexCall = IndexCall(auth: Option<Props>, options: ObjectArg, output: Option<string>, callback: CallbackArg)

  /** The result of calling an exported task: the `executeTask` result, and
      the line its `cmd` closure returns for the argument values at call
      time. */
  datatype IndexInvocation = IndexInvocation(spec: IndexSpec, line: string)

  /** The exported task of `key` (`_.mapObject(openstack_commands, ...)`),
      called with `call`: forwards `cmd: val` and the call's arguments to
      `executeTask`, with `options` defaulting to `{}`. */
  function IndexTask(
    commands: map<string, seq<string>>, key: string, call: IndexCall, verbose: OptValue, singleDash: seq<string>)
    : (r: IndexInvocation)
    requires key in commands
    ensures r.spec == IndexExecuteTask(commands[key], call.output, call.callback)
    ensures r.line == Join(IndexCommandParts(commands[key], call.auth, WithDefault(call.options),
                                             IndexFormat(call.output, call.callback), verbose, singleDash), ' ')
    ensures |commands[key]| > 0 ==> Join(commands[key], ' ') + " " <= r.line
  {
    var cmd := commands[key];
    var options := WithDefault(call.options);
    var format := IndexFormat(call.output, call.callback);
    var line := Join(IndexCommandParts(cmd, call.auth, options, format, verbose, singleDash), ' ');
    assert |cmd| > 0 ==> Join(cmd, ' ') + " " <= line by {
      if |cmd| > 0 {
        IndexCommandLinePrefix(cmd, call.auth, options, format, verbose, singleDash);
      }
    }
    IndexInvocation(IndexExecuteTask(cmd, call.output, call.callback), line)
  }

  /** Leaving `options` out is the same as passing `{}`. */
  lemma IndexTaskOmittedOptions(
    commands: map<string, seq<string>>, key: string, auth: Option<Props>, output: Option<string>,
    callback: CallbackArg, verbose: OptValue, singleDash: seq<string>)
    requires key in commands
    ensures IndexTask(commands, key, IndexCall(auth, Omitted, output, callback), verbose, singleDash)
      == IndexTask(commands, key, IndexCall(auth, Given([]), output, callback), verbose, singleDash)
  {
  }

  /** The default covers only a missing `options`: an explicit `null` makes
      the fold restart at the format object, so the auth switches are lost
      and only the format switch remains. */
  lemma IndexTaskNullOptionsDropsAuth(
    commands: map<string, seq<string>>, key: string, auth: Option<Props>, output: Option<string>,
    callback: CallbackArg, verbose: OptValue, singleDash: seq<string>)
    requires key in commands
    ensures IndexTask(commands, key, IndexCall(auth, NullObject, output, callback), verbose, singleDash).line
      == Join(commands[key] + [Switch(("f", IndexFormat(output, callback)), singleDash), DebugSwitch(verbose)], ' ')
  {
    var format := IndexFormat(output, callback);
    var fobj := [("f", format)];
    MergeRestart([auth], [Some(fobj)]);
    assert [auth, None, Some(fobj)] == [auth] + [None] + [Some(fobj)];
    assert Merge([Some(fobj)]) == Some(fobj);
    assert IndexSwitches(auth, None, format, singleDash) == [Switch(("f", format), singleDash)];
    assert commands[key] + [Switch(("f", format), singleDash)] + [DebugSwitch(verbose)]
      == commands[key] + [Switch(("f", format), singleDash), DebugSwitch(verbose)];
  }
}
