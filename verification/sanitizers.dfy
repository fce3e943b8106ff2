/** The per-command schema table and `sanitize_msg`. */
module Sanitizers {
  import opened Results
  import opened Json
  import opened Exceptions
  import opened Validator

  /** What `populate_sanitizers` stores per command: the required and the
      optional spec lists handed to `check_content`. */
  datatype Schema = Schema(required: seq<FieldSpec>, optional: seq<FieldSpec>)

  /** A module-level global as `populate_sanitizers` sees it: a list of one or
      two spec lists (either of which may be `None`), or anything else. */
  datatype Global = SpecLists(lists: seq<Option<seq<FieldSpec>>>) | Other

  const PREFIX := "sanitize_"

  /** `k.startswith("sanitize_")`. */
  predicate IsSanitizerName(name: string) {
    |name| >= |PREFIX| && name[..|PREFIX|] == PREFIX
  }

  /** `k[9:]`: the command a `sanitize_*` global is registered under. */
  function CommandOf(name: string): string
    requires IsSanitizerName(name)
  {
    name[|PREFIX|..]
  }

  /** A `sanitize_*` name is the prefix followed by its command, so distinct
      names register distinct commands. */
  lemma CommandOfSpec(name: string)
    requires IsSanitizerName(name)
    ensures name == PREFIX + CommandOf(name)
  {
    assert name == name[..|PREFIX|] + name[|PREFIX|..];
  }

  /** The name of a `sanitize_*` global and the command it registers. */
  lemma SanitizerNameOf(cmd: string)
    ensures IsSanitizerName(PREFIX + cmd) && CommandOf(PREFIX + cmd) == cmd
  {
    assert (PREFIX + cmd)[..|PREFIX|] == PREFIX;
  }

  /** A name shorter than the prefix, or whose first or second letter
      differs from the prefix's (`s`, `a`), is skipped. */
  lemma NotSanitizerName(name: string)
    requires |name| < |PREFIX| || name[0] != PREFIX[0] || name[1] != PREFIX[1]
    ensures !IsSanitizerName(name)
  {
    if |name| >= |PREFIX| {
      assert name[..|PREFIX|][0] == name[0] && name[..|PREFIX|][1] == name[1];
    }
  }

  /** `req = v[0] or []`, `opt = v[1] or []` when `len(v) == 2`, else `[]`. */
  function SchemaOf(lists: seq<Option<seq<FieldSpec>>>): (s: Schema)
    requires |lists| >= 1
    ensures lists[0].Some? ==> s.required == lists[0].value
    ensures lists[0].None? ==> s.required == []
    ensures |lists| != 2 ==> s.optional == []
    ensures |lists| == 2 && lists[1].Some? ==> s.optional == lists[1].value
    ensures |lists| == 2 && lists[1].None? ==> s.optional == []
  {
    var req := if lists[0].Some? then lists[0].value else [];
    var opt := if |lists| == 2 && lists[1].Some? then lists[1].value else [];
    Schema(req, opt)
  }

  /** What the loop over `globals()` needs of each `sanitize_*` global: a
      non-empty list of spec lists. */
  predicate Registrable(globals: seq<(string, Global)>) {
    forall i :: 0 <= i < |globals| && IsSanitizerName(globals[i].0) ==>
      globals[i].1.SpecLists? && |globals[i].1.lists| >= 1
  }

  /** Global names are keys of a dict, hence distinct; only the `sanitize_*`
      ones matter here. */
  ghost predicate DistinctNames(globals: seq<(string, Global)>) {
    forall i, j :: 0 <= i < j < |globals| && IsSanitizerName(globals[i].0) && IsSanitizerName(globals[j].0) ==>
      globals[i].0 != globals[j].0
  }

  /** The table after the loop has visited the first `n` globals: each
      `sanitize_*` global stores its entry in turn, so a later global
      overrides an earlier one registering the same command. */
  function PopulateUpTo(globals: seq<(string, Global)>, n: nat): (table: map<string, Schema>)
    requires Registrable(globals) && n <= |globals|
  {
    if n == 0 then map[]
    else
      var table := PopulateUpTo(globals, n - 1);
      var name := globals[n - 1].0;
      if IsSanitizerName(name) then table[CommandOf(name) := SchemaOf(globals[n - 1].1.lists)]
      else table
  }

  /** Some `sanitize_*` global registers `cmd`. */
  ghost predicate Registered(globals: seq<(string, Global)>, cmd: string) {
    exists i :: 0 <= i < |globals| && IsSanitizerName(globals[i].0) && CommandOf(globals[i].0) == cmd
  }

  /** `populate_sanitizers`: one entry per `sanitize_*` global, keyed by the
      name without its prefix; every other global is skipped. */
  function Populate(globals: seq<(string, Global)>): (table: map<string, Schema>)
    requires Registrable(globals)
    // the commands are exactly those of the `sanitize_*` globals
    ensures forall cmd :: cmd in table <==> Registered(globals, cmd)
    // each holds the schema of the last global registering it
    ensures forall i :: LastFor(globals, |globals|, i) ==>
              CommandOf(globals[i].0) in table && table[CommandOf(globals[i].0)] == SchemaOf(globals[i].1.lists)
  {
    PopulateKeys(globals, |globals|);
    PopulateLast(globals, |globals|);
    PopulateUpTo(globals, |globals|)
  }

  /** `globals[i]` is the last of the first `n` globals to register its
      command. */
  ghost predicate LastFor(globals: seq<(string, Global)>, n: nat, i: int) {
    && 0 <= i < n <= |globals|
    && IsSanitizerName(globals[i].0)
    && forall j :: i < j < n && IsSanitizerName(globals[j].0) ==> CommandOf(globals[j].0) != CommandOf(globals[i].0)
  }

  /** After `n` globals the table holds exactly the commands registered so
      far. */
  lemma {:induction false} PopulateKeys(globals: seq<(string, Global)>, n: nat)
    requires Registrable(globals) && n <= |globals|
    ensures forall cmd :: cmd in PopulateUpTo(globals, n) <==>
              exists i :: 0 <= i < n && IsSanitizerName(globals[i].0) && CommandOf(globals[i].0) == cmd
  {
    if n > 0 {
      PopulateKeys(globals, n - 1);
      var table := PopulateUpTo(globals, n);
      forall cmd | cmd in table
        ensures exists i :: 0 <= i < n && IsSanitizerName(globals[i].0) && CommandOf(globals[i].0) == cmd
      {
        if !(IsSanitizerName(globals[n - 1].0) && CommandOf(globals[n - 1].0) == cmd) {
          assert cmd in PopulateUpTo(globals, n - 1);
        }
      }
    }
  }

  /** The global that registered a command last supplies its schema. */
  lemma {:induction false} PopulateLast(globals: seq<(string, Global)>, n: nat)
    requires Registrable(globals) && n <= |globals|
    ensures forall i :: LastFor(globals, n, i) ==>
              CommandOf(globals[i].0) in PopulateUpTo(globals, n) &&
              PopulateUpTo(globals, n)[CommandOf(globals[i].0)] == SchemaOf(globals[i].1.lists)
  {
    if n > 0 {
      PopulateLast(globals, n - 1);
      forall i | LastFor(globals, n, i) && i < n - 1
        ensures LastFor(globals, n - 1, i)
      {
      }
    }
  }

  /** Every entry of the table comes from the last global registering its
      command. */
  lemma {:induction false} PopulateFromLast(globals: seq<(string, Global)>, n: nat)
    requires Registrable(globals) && n <= |globals|
    ensures forall cmd :: cmd in PopulateUpTo(globals, n) ==>
              exists i :: LastFor(globals, n, i) && CommandOf(globals[i].0) == cmd &&
                          PopulateUpTo(globals, n)[cmd] == SchemaOf(globals[i].1.lists)
  {
    if n > 0 {
      PopulateFromLast(globals, n - 1);
      var table := PopulateUpTo(globals, n);
      var prev := PopulateUpTo(globals, n - 1);
      var name := globals[n - 1].0;
      forall cmd | cmd in table
        ensures exists i :: LastFor(globals, n, i) && CommandOf(globals[i].0) == cmd && table[cmd] == SchemaOf(globals[i].1.lists)
      {
        if IsSanitizerName(name) && cmd == CommandOf(name) {
          assert LastFor(globals, n, n - 1);
        } else {
          assert cmd in prev && table[cmd] == prev[cmd];
          var i :| LastFor(globals, n - 1, i) && CommandOf(globals[i].0) == cmd && prev[cmd] == SchemaOf(globals[i].1.lists);
          assert LastFor(globals, n, i);
        }
      }
    }
  }

  /** With distinct names every `sanitize_*` global is the last to register
      its command. */
  lemma DistinctNamesLast(globals: seq<(string, Global)>, i: int)
    requires DistinctNames(globals) && 0 <= i < |globals| && IsSanitizerName(globals[i].0)
    ensures LastFor(globals, |globals|, i)
  {
    forall j | i < j < |globals| && IsSanitizerName(globals[j].0)
      ensures CommandOf(globals[j].0) != CommandOf(globals[i].0)
    {
      CommandOfSpec(globals[i].0);
      CommandOfSpec(globals[j].0);
    }
  }

  /** `populate_sanitizers` registers exactly the commands of the
      `sanitize_*` globals, each with the schema of its own definition. */
  lemma PopulateSpec(globals: seq<(string, Global)>)
    requires Registrable(globals) && DistinctNames(globals)
    ensures forall cmd :: cmd in Populate(globals) <==>
              exists i :: 0 <= i < |globals| && IsSanitizerName(globals[i].0) && CommandOf(globals[i].0) == cmd
    ensures forall i :: 0 <= i < |globals| && IsSanitizerName(globals[i].0) ==>
              CommandOf(globals[i].0) in Populate(globals) &&
              Populate(globals)[CommandOf(globals[i].0)] == SchemaOf(globals[i].1.lists)
  {
    PopulateKeys(globals, |globals|);
    PopulateLast(globals, |globals|);
    forall i | 0 <= i < |globals| && IsSanitizerName(globals[i].0)
      ensures LastFor(globals, |globals|, i)
    {
      DistinctNamesLast(globals, i);
    }
  }

  function ModifySubscription(): Global {
    SpecLists([
      Some([]),
      Some([
        FieldSpec("ticker_id", Str, None),
        FieldSpec("order_book_speed", Int, Some(Bounds(Some(0), Some(10)))),
        FieldSpec("trades_speed", Int, Some(Bounds(Some(0), Some(10)))),
        FieldSpec("order_book_levels", Int, Some(Bounds(Some(0), None))),
        FieldSpec("emit_quotes", Bool, None)])])
  }

  function Unsubscribe(): Global {
    SpecLists([Some([FieldSpec("ticker_id", Str, None)])])
  }

  function GetSnapshot(): Global {
    SpecLists([
      Some([FieldSpec("ticker_id", Str, None)]),
      Some([FieldSpec("daily_data", Bool, None), FieldSpec("order_book_levels", Int, Some(Bounds(Some(0), None)))])])
  }

  function ListDirectory(): Global {
    SpecLists([Some([FieldSpec("directory", Str, None)])])
  }

  /** The four `sanitize_*` definitions of the module, by name. */
  function Definitions(): seq<(string, Global)> {
    [ (PREFIX + "modify_subscription", ModifySubscription()),
      (PREFIX + "unsubscribe", Unsubscribe()),
      (PREFIX + "get_snapshot", GetSnapshot()),
      (PREFIX + "list_directory", ListDirectory()) ]
  }

  /** `SANITIZERS` as written out in full. */
  function Table(): map<string, Schema> {
    map[
      "modify_subscription" := SchemaOf(ModifySubscription().lists),
      "unsubscribe" := SchemaOf(Unsubscribe().lists),
      "get_snapshot" := SchemaOf(GetSnapshot().lists),
      "list_directory" := SchemaOf(ListDirectory().lists)]
  }

  lemma SameEntries(a: map<string, Schema>, b: map<string, Schema>)
    requires forall k :: k in a ==> k in b
    requires forall k :: k in b ==> k in a && a[k] == b[k]
    ensures a == b
  {
  }

  /** A namespace of any size and order whose `sanitize_*` globals are the
      four definitions and nothing else. */
  predicate HoldsDefinitions(gs: seq<(string, Global)>) {
    && (forall i :: 0 <= i < |gs| && IsSanitizerName(gs[i].0) ==> gs[i] in Definitions())
    && (forall d :: d in Definitions() ==> d in gs)
  }

  /** The command each definition registers. */
  lemma DefinitionCommands()
    ensures forall d :: d in Definitions() ==> IsSanitizerName(d.0)
    ensures CommandOf(Definitions()[0].0) == "modify_subscription"
    ensures CommandOf(Definitions()[1].0) == "unsubscribe"
    ensures CommandOf(Definitions()[2].0) == "get_snapshot"
    ensures CommandOf(Definitions()[3].0) == "list_directory"
  {
    SanitizerNameOf("modify_subscription");
    SanitizerNameOf("unsubscribe");
    SanitizerNameOf("get_snapshot");
    SanitizerNameOf("list_directory");
  }

  /** Each entry of `Table()` is the schema of the definition registering
      it. */
  lemma DefinitionEntries(d: (string, Global))
    requires d in Definitions()
    ensures IsSanitizerName(d.0) && d.1.SpecLists? && |d.1.lists| >= 1
    ensures CommandOf(d.0) in Table() && Table()[CommandOf(d.0)] == SchemaOf(d.1.lists)
  {
    DefinitionCommands();
  }

  lemma HoldsDefinitionsRegistrable(gs: seq<(string, Global)>)
    requires HoldsDefinitions(gs)
    ensures Registrable(gs)
  {
    forall i | 0 <= i < |gs| && IsSanitizerName(gs[i].0)
      ensures gs[i].1.SpecLists? && |gs[i].1.lists| >= 1
    {
      DefinitionEntries(gs[i]);
    }
  }

  /** Such a namespace registers nothing beyond `Table()`, and what it
      registers agrees with it. */
  lemma PopulateWithinTable(gs: seq<(string, Global)>)
    requires HoldsDefinitions(gs)
    ensures Registrable(gs)
    ensures forall cmd :: cmd in Populate(gs) ==> cmd in Table() && Populate(gs)[cmd] == Table()[cmd]
  {
    HoldsDefinitionsRegistrable(gs);
    var t := Populate(gs);
    PopulateFromLast(gs, |gs|);
    forall cmd | cmd in t
      ensures cmd in Table() && t[cmd] == Table()[cmd]
    {
      var i :| LastFor(gs, |gs|, i) && CommandOf(gs[i].0) == cmd && t[cmd] == SchemaOf(gs[i].1.lists);
      DefinitionEntries(gs[i]);
    }
  }

  /** A definition held by the namespace registers its command there. */
  lemma DefinitionRegistered(gs: seq<(string, Global)>, d: (string, Global))
    requires d in gs && d in Definitions()
    ensures IsSanitizerName(d.0) && Registered(gs, CommandOf(d.0))
  {
    DefinitionEntries(d);
    var i :| 0 <= i < |gs| && gs[i] == d;
  }

  /** Such a namespace registers every command of `Table()`. */
  lemma PopulateCoversTable(gs: seq<(string, Global)>)
    requires HoldsDefinitions(gs)
    ensures Registrable(gs)
    ensures forall cmd :: cmd in Table() ==> cmd in Populate(gs)
  {
    HoldsDefinitionsRegistrable(gs);
    DefinitionCommands();
    forall cmd | cmd in Table()
      ensures cmd in Populate(gs)
    {
      var k :| 0 <= k < 4 && CommandOf(Definitions()[k].0) == cmd;
      DefinitionRegistered(gs, Definitions()[k]);
    }
  }

  /** Any such namespace, whatever else it holds, populates to `Table()`. */
  lemma TableFromGlobals(gs: seq<(string, Global)>)
    requires HoldsDefinitions(gs)
    ensures Registrable(gs) && Populate(gs) == Table()
  {
    PopulateWithinTable(gs);
    PopulateCoversTable(gs);
    SameEntries(Populate(gs), Table());
  }

  /** Globals none of which is named `sanitize_*`. */
  predicate NoSanitizers(gs: seq<(string, Global)>) {
    forall i :: 0 <= i < |gs| ==> !IsSanitizerName(gs[i].0)
  }

  /** The names Python binds in a module run as a script before its first
      statement. */
  function Dunders(): seq<(string, Global)> {
    [ ("__name__", Other), ("__doc__", Other), ("__package__", Other), ("__loader__", Other),
      ("__spec__", Other), ("__annotations__", Other), ("__builtins__", Other), ("__file__", Other),
      ("__cached__", Other) ]
  }

  /** The names the imports at the head of the module bind, in order. Of
      `from zmapi.exceptions import *` only the three exceptions the module
      uses are listed. */
  function Imports(): seq<(string, Global)> {
    [ ("zmq", Other), ("asyncio", Other), ("create_task", Other), ("sys", Other), ("logging", Other),
      ("json", Other), ("argparse", Other), ("error", Other), ("SockRecvPublisher", Other),
      ("ident_to_str", Other), ("split_message", Other), ("setup_root_logger", Other),
      ("DecodingException", Other), ("CodecException", Other), ("InvalidArgumentsException", Other),
      ("uuid", Other), ("time", Other), ("gmtime", Other), ("datetime", Other), ("pprint", Other),
      ("pformat", Other) ]
  }

  /** The module's own definitions before the `sanitize_*` tables. */
  function EarlyDefinitions(): seq<(string, Global)> {
    [ ("MODULE_NAME", Other), ("EXCEPTION_TO_ECODE", Other), ("L", Other), ("GlobalState", Other),
      ("g", Other), ("PYTHON_TYPE_TO_ZMAPI_TYPE", Other), ("check_spec", Other), ("check_content", Other) ]
  }

  /** The module's globals, in definition order, at the moment
      `populate_sanitizers()` runs. `sanitize_msg` is defined further down the
      file, so it is not among them. */
  function ModuleGlobals(): seq<(string, Global)> {
    Dunders() + Imports() + EarlyDefinitions() + Definitions() + [("SANITIZERS", Other), ("populate_sanitizers", Other)]
  }

  lemma NoSanitizersAmongOthers()
    ensures NoSanitizers(Dunders()) && NoSanitizers(Imports()) && NoSanitizers(EarlyDefinitions())
    ensures NoSanitizers([("SANITIZERS", Other), ("populate_sanitizers", Other)])
  {
    forall i | 0 <= i < |Dunders()| ensures !IsSanitizerName(Dunders()[i].0) {
      NotSanitizerName(Dunders()[i].0);
    }
    forall i | 0 <= i < |Imports()| ensures !IsSanitizerName(Imports()[i].0) {
      NotSanitizerName(Imports()[i].0);
    }
    forall i | 0 <= i < |EarlyDefinitions()| ensures !IsSanitizerName(EarlyDefinitions()[i].0) {
      NotSanitizerName(EarlyDefinitions()[i].0);
    }
    NotSanitizerName("SANITIZERS");
    NotSanitizerName("populate_sanitizers");
  }

  lemma NoSanitizersAppend(a: seq<(string, Global)>, b: seq<(string, Global)>)
    requires NoSanitizers(a) && NoSanitizers(b)
    ensures NoSanitizers(a + b)
  {
    forall i | 0 <= i < |a + b| ensures !IsSanitizerName((a + b)[i].0) {
      if i >= |a| {
        assert (a + b)[i] == b[i - |a|];
      }
    }
  }

  /** The four definitions between globals of other names. */
  lemma DefinitionsAmongOthers(others: seq<(string, Global)>, tail: seq<(string, Global)>)
    requires NoSanitizers(others) && NoSanitizers(tail)
    ensures HoldsDefinitions(others + Definitions() + tail)
  {
    var gs := others + Definitions() + tail;
    DefinitionCommands();
    forall i | 0 <= i < |gs|
      ensures IsSanitizerName(gs[i].0) ==> gs[i] in Definitions()
    {
      if i < |others| {
        assert gs[i] == others[i];
      } else if i < |others| + 4 {
        assert gs[i] == Definitions()[i - |others|];
      } else {
        assert gs[i] == tail[i - |others| - 4];
      }
    }
    forall d | d in Definitions()
      ensures d in gs
    {
      var k :| 0 <= k < 4 && Definitions()[k] == d;
      assert gs[|others| + k] == d;
    }
  }

  /** Populating from the module's globals registers exactly the four
      commands, with the schemas their definitions spell out. */
  lemma SanitizersTable()
    ensures Registrable(ModuleGlobals()) && Populate(ModuleGlobals()) == Table()
  {
    var others := Dunders() + Imports() + EarlyDefinitions();
    var tail: seq<(string, Global)> := [("SANITIZERS", Other), ("populate_sanitizers", Other)];
    assert ModuleGlobals() == others + Definitions() + tail;
    NoSanitizersAmongOthers();
    NoSanitizersAppend(Dunders(), Imports());
    NoSanitizersAppend(Dunders() + Imports(), EarlyDefinitions());
    DefinitionsAmongOthers(others, tail);
    TableFromGlobals(ModuleGlobals());
  }

  /** `SANITIZERS` after `populate_sanitizers()`. */
  function Sanitizers(): (table: map<string, Schema>)
    ensures table == Table()
  {
    SanitizersTable();
    Populate(ModuleGlobals())
  }

  /** Every spec of the table is well formed: bounds appear only on `int`
      fields. */
  lemma TableWellFormed()
    ensures forall cmd, i :: cmd in Table() && 0 <= i < |Table()[cmd].required| ==> WellFormed(Table()[cmd].required[i])
    ensures forall cmd, i :: cmd in Table() && 0 <= i < |Table()[cmd].optional| ==> WellFormed(Table()[cmd].optional[i])
    ensures forall cmd, i :: cmd in Table() && 0 <= i < |Table()[cmd].required| && Table()[cmd].required[i].bounds.Some? ==>
              Table()[cmd].required[i].ty == Int
    ensures forall cmd, i :: cmd in Table() && 0 <= i < |Table()[cmd].optional| && Table()[cmd].optional[i].bounds.Some? ==>
              Table()[cmd].optional[i].ty == Int
  {
  }

  /** `sanitize_msg(msg)`: only a command with a sanitizer is checked. */
  function SanitizeMsg(msg: map<string, Json>): (r: Outcome<Exception>)
    ensures "command" !in msg ==> r == Fail(Unexpected("KeyError"))
    // a list or dict is unhashable as a dict key
    ensures "command" in msg && (msg["command"].JList? || msg["command"].JObject?) ==> r == Fail(Unexpected("TypeError"))
    // a command without a sanitizer passes whatever its content
    ensures ("command" in msg && !msg["command"].JList? && !msg["command"].JObject? &&
             !(msg["command"].JStr? && msg["command"].s in Table())) ==> r == Pass
    // a known command needs a content field, and that content must conform
    ensures "command" in msg && msg["command"].JStr? && msg["command"].s in Table() ==>
              r == (if "content" !in msg then Fail(InvalidArguments("content missing"))
                    else CheckContent(msg["content"], Table()[msg["command"].s].required, Table()[msg["command"].s].optional))
    // a dict content of a known command can only fail with InvalidArguments
    ensures ("command" in msg && msg["command"].JStr? && msg["command"].s in Table() &&
             "content" in msg && msg["content"].JObject? && r.Fail?) ==> r.error.InvalidArguments?
    ensures r.Fail? ==> r.error.InvalidArguments? || r.error.Unexpected?
  {
    SanitizersTable();
    TableWellFormed();
    if "command" !in msg then Fail(Unexpected("KeyError"))
    else match msg["command"]
      case JList(_) => Fail(Unexpected("TypeError"))
      case JObject(_) => Fail(Unexpected("TypeError"))
      case JStr(cmd) =>
        if cmd in Sanitizers() then
          if "content" !in msg then Fail(InvalidArguments("content missing"))
          else
            var schema := Sanitizers()[cmd];
            var r := CheckContent(msg["content"], schema.required, schema.optional);
            if msg["content"].JObject? then
              CheckAllArgsOnly(msg["content"], schema.required, false);
              CheckAllArgsOnly(msg["content"], schema.optional, true);
              r
            else r
        else Pass
      case _ => Pass
  }

  /** `sanitize_msg` reads only `command` and `content`: tagging a request
      with its `msg_id` does not change the verdict. */
  lemma SanitizeMsgIgnoresOtherFields(msg: map<string, Json>, k: string, v: Json)
    requires k != "command" && k != "content"
    ensures SanitizeMsg(msg[k := v]) == SanitizeMsg(msg)
  {
  }

  /** `modify_subscription` with `order_book_speed` 15 is rejected against the
      maximum of 10. */
  lemma SpeedAboveMaximumRejected()
    ensures SanitizeMsg(map["command" := JStr("modify_subscription"),
                            "content" := JObject(map["order_book_speed" := JInt(15)])])
            == Fail(InvalidArguments(TooLarge("order_book_speed", 10)))
  {
    OverSpeedFails(JObject(map["order_book_speed" := JInt(15)]));
  }

  /** The content check behind the lemma above. */
  lemma OverSpeedFails(content: Json)
    requires content == JObject(map["order_book_speed" := JInt(15)])
    ensures CheckContent(content, Table()["modify_subscription"].required, Table()["modify_subscription"].optional)
            == Fail(InvalidArguments(TooLarge("order_book_speed", 10)))
  {
    var opt := Table()["modify_subscription"].optional;
    assert CheckSpec(content, opt[0], true) == Pass;
    assert CheckSpec(content, opt[1], true) == Fail(InvalidArguments(TooLarge("order_book_speed", 10)));
    assert forall i :: 2 <= i < |opt| ==> CheckSpec(content, opt[i], true).Pass?;
  }

  /** The bound is rendered as Python's `str(10)`. */
  lemma SpeedMessage()
    ensures TooLarge("order_book_speed", 10) == "field '" + "order_book_speed" + "' must have a value less than " + "10"
  {
    assert Digits(10) == Digits(1) + [DigitChar(0)];
  }

  /** `modify_subscription` has no required fields, so an empty record
      passes. */
  lemma EmptySubscriptionAccepted()
    ensures SanitizeMsg(map["command" := JStr("modify_subscription"), "content" := JObject(map[])]) == Pass
  {
  }

  /** A subscription naming a ticker at a speed within range passes. */
  lemma SubscriptionInRangeAccepted()
    ensures SanitizeMsg(map["command" := JStr("modify_subscription"),
                            "content" := JObject(map["ticker_id" := JStr("AAPL"), "order_book_speed" := JInt(5)])]) == Pass
  {
    InRangeSubscriptionPasses(JObject(map["ticker_id" := JStr("AAPL"), "order_book_speed" := JInt(5)]));
  }

  /** The content check behind the lemma above. */
  lemma InRangeSubscriptionPasses(content: Json)
    requires content == JObject(map["ticker_id" := JStr("AAPL"), "order_book_speed" := JInt(5)])
    ensures CheckContent(content, Table()["modify_subscription"].required, Table()["modify_subscription"].optional) == Pass
  {
    var opt := Table()["modify_subscription"].optional;
    assert CheckSpec(content, opt[1], true) == Pass;
    assert forall i :: 0 <= i < |opt| ==> CheckSpec(content, opt[i], true).Pass?;
  }

  /** The speed bounds are inclusive: 0 and 10 both pass. */
  lemma SpeedBoundsInclusive()
    ensures SanitizeMsg(map["command" := JStr("modify_subscription"),
                            "content" := JObject(map["order_book_speed" := JInt(10), "trades_speed" := JInt(0)])]) == Pass
  {
    var content := JObject(map["order_book_speed" := JInt(10), "trades_speed" := JInt(0)]);
    BoundarySpeedsPass(content);
  }

  /** The content check behind the lemma above. */
  lemma BoundarySpeedsPass(content: Json)
    requires content == JObject(map["order_book_speed" := JInt(10), "trades_speed" := JInt(0)])
    ensures CheckContent(content, Table()["modify_subscription"].required, Table()["modify_subscription"].optional) == Pass
  {
    var opt := Table()["modify_subscription"].optional;
    assert CheckSpec(content, opt[1], true) == Pass;
    assert CheckSpec(content, opt[2], true) == Pass;
    assert forall i :: 0 <= i < |opt| ==> CheckSpec(content, opt[i], true).Pass?;
  }

  /** A boolean passes an `int` spec and is compared as 1. */
  lemma BoolCountsAsInt()
    ensures SanitizeMsg(map["command" := JStr("modify_subscription"),
                            "content" := JObject(map["order_book_levels" := JBool(true)])]) == Pass
  {
    BoolLevelsPass(JObject(map["order_book_levels" := JBool(true)]));
  }

  /** The content check behind the lemma above. */
  lemma BoolLevelsPass(content: Json)
    requires content == JObject(map["order_book_levels" := JBool(true)])
    ensures CheckContent(content, Table()["modify_subscription"].required, Table()["modify_subscription"].optional) == Pass
  {
    var opt := Table()["modify_subscription"].optional;
    assert CheckSpec(content, opt[3], true) == Pass;
    assert forall i :: 0 <= i < |opt| ==> CheckSpec(content, opt[i], true).Pass?;
  }

  /** A known command without `content` is rejected. */
  lemma ContentMissingRejected()
    ensures SanitizeMsg(map["command" := JStr("unsubscribe")]) == Fail(InvalidArguments("content missing"))
  {
  }

  /** `unsubscribe` requires `ticker_id`; a null one counts as missing. */
  lemma NullTickerRejected()
    ensures SanitizeMsg(map["command" := JStr("unsubscribe"), "content" := JObject(map["ticker_id" := JNull])])
            == Fail(InvalidArguments("missing field: ticker_id"))
  {
    var content := JObject(map["ticker_id" := JNull]);
    assert CheckSpec(content, Table()["unsubscribe"].required[0], false) == Fail(InvalidArguments(MissingField("ticker_id")));
    assert MissingField("ticker_id") == "missing field: ticker_id";
  }

  /** `get_status` has no sanitizer: any content passes, or none. */
  lemma UnknownCommandAccepted(content: Json)
    ensures SanitizeMsg(map["command" := JStr("get_status"), "content" := content]) == Pass
    ensures SanitizeMsg(map["command" := JStr("get_status")]) == Pass
  {
    assert "get_status" !in Table();
  }
}
