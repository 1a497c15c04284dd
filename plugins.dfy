/**
 * The script bridge of the juggler sender, current revision
 * (senders/juggler/plugins.go): Go values are marshalled into Lua tables for
 * the plugin, and the table the plugin returns is decoded into juggler events.
 * The Lua interpreter itself is not part of the model; tables are data.
 */
module Plugins {
  import opened Wrappers
  import opened GoValues
  import opened LuaValues

  /** The two scalar converters toLuaValue is parameterised by. */
  datatype Dumper = NumberDumper | ValueDumper

  /** Why a conversion failed; the wording of Go's messages is not modelled. */
  datatype ConvError =
    | NotANumber(v: Value)   // dumperToLuaNumber on a non-numeric kind
    | BadNumber(s: string)   // a string strconv.ParseFloat rejects
    | Unexpected(v: Value)   // dumperToLuaValue on an unsupported kind

  /** The scalars a dumper accepts, stated independently of its code. */
  predicate Dumpable(d: Dumper, v: Value)
  {
    match d
    case NumberDumper => v.Num? || (v.Str? && ParseFloat(v.s).Some?)
    case ValueDumper => v.Num? || v.Str? || v.Bool?
  }

  /** dumperToLuaNumber and dumperToLuaValue. */
  function Dump(d: Dumper, v: Value): (r: Result<LValue, ConvError>)
    ensures r.Success? <==> Dumpable(d, v)
    ensures r.Success? && v.Num? ==> r.value == LNumber(v.n)
    ensures r.Success? && v.Str? ==> r.value == (if d.NumberDumper? then LNumber(ParseFloat(v.s).value) else LString(v.s))
    ensures r.Success? && v.Bool? ==> r.value == LBool(v.b)
  {
    match d
    case NumberDumper =>
      (match v
       case Num(n) => Success(LNumber(n))
       case Str(s) => if ParseFloat(s).Some? then Success(LNumber(ParseFloat(s).value)) else Failure(BadNumber(s))
       case _ => Failure(NotANumber(v)))
    case ValueDumper =>
      (match v
       case Num(n) => Success(LNumber(n))
       case Str(s) => Success(LString(s))
       case Bool(b) => Success(LBool(b))
       case _ => Failure(Unexpected(v)))
  }

  /**
   * toLuaValue: sequences become array tables in order, maps and structs become
   * string-keyed tables with the same keys, []byte is dumped as the string it
   * holds, and every other value goes to the dumper.
   */
  function ToLua(v: Value, d: Dumper): (r: Result<LValue, ConvError>)
    ensures r.Success? ==> r.value != LNil
    ensures v.Bytes? ==> r == Dump(d, Str(ByteString(v.data)))
    ensures v.Seq? && r.Success? ==>
              && r.value.LTable? && r.value.t.hash == [] && |r.value.t.arr| == |v.items|
              && forall i :: 0 <= i < |v.items| ==> ToLua(v.items[i], d) == Success(r.value.t.arr[i])
    ensures (v.Map? || v.Struct?) && r.Success? ==>
              var es := if v.Map? then v.entries else v.fields;
              && r.value.LTable? && r.value.t.arr == [] && |r.value.t.hash| == |es|
              && forall i :: 0 <= i < |es| ==>
                   r.value.t.hash[i].key == es[i].key && ToLua(es[i].val, d) == Success(r.value.t.hash[i].val)
    decreases v, 1
  {
    match v
    case Bytes(data) => Dump(d, Str(ByteString(data)))
    case Seq(items) =>
      (match ToLuaItems(items, d)
       case Success(vs) => Success(LTable(Table(vs, [])))
       case Failure(e) => Failure(e))
    case Map(entries) =>
      (match ToLuaFields(entries, d)
       case Success(fs) => Success(LTable(Table([], fs)))
       case Failure(e) => Failure(e))
    case Struct(fields) =>
      (match ToLuaFields(fields, d)
       case Success(fs) => Success(LTable(Table([], fs)))
       case Failure(e) => Failure(e))
    case _ => Dump(d, v)
  }

  /** The elements of a sequence, in order; the first failure aborts. */
  function ToLuaItems(items: seq<Value>, d: Dumper): (r: Result<seq<LValue>, ConvError>)
    ensures r.Success? ==>
              && |r.value| == |items|
              && forall i :: 0 <= i < |items| ==> ToLua(items[i], d) == Success(r.value[i])
    decreases items, 0
  {
    if items == [] then Success([])
    else
      match ToLua(items[0], d)
      case Failure(e) => Failure(e)
      case Success(x) =>
        match ToLuaItems(items[1..], d)
        case Failure(e) => Failure(e)
        case Success(xs) => Success([x] + xs)
  }

  /** The entries of a map (in iteration order) or the fields of a struct; the first failure aborts. */
  function ToLuaFields(entries: seq<Entry>, d: Dumper): (r: Result<seq<Field>, ConvError>)
    ensures r.Success? ==>
              && |r.value| == |entries|
              && forall i :: 0 <= i < |entries| ==>
                   r.value[i].key == entries[i].key && ToLua(entries[i].val, d) == Success(r.value[i].val)
    decreases entries, 0
  {
    if entries == [] then Success([])
    else
      match ToLua(entries[0].val, d)
      case Failure(e) => Failure(e)
      case Success(x) =>
        match ToLuaFields(entries[1..], d)
        case Failure(e) => Failure(e)
        case Success(xs) => Success([Field(entries[0].key, x)] + xs)
  }

  /** A failed conversion of a sequence reports the first element that does not convert. */
  lemma {:induction false} ToLuaItemsFirstFailure(items: seq<Value>, d: Dumper)
    requires ToLuaItems(items, d).Failure?
    ensures exists i :: (&& 0 <= i < |items| && ToLua(items[i], d) == Failure(ToLuaItems(items, d).error)
                         && forall j :: 0 <= j < i ==> ToLua(items[j], d).Success?)
    decreases |items|
  {
    if ToLua(items[0], d).Success? {
      var rest := items[1..];
      ToLuaItemsFirstFailure(rest, d);
      var i :| (&& 0 <= i < |rest| && ToLua(rest[i], d) == Failure(ToLuaItems(rest, d).error)
                && forall j :: 0 <= j < i ==> ToLua(rest[j], d).Success?);
      assert forall j :: 0 < j < i + 1 ==> items[j] == rest[j - 1];
      assert ToLua(items[i + 1], d) == Failure(ToLuaItems(items, d).error);
    } else {
      assert ToLua(items[0], d) == Failure(ToLuaItems(items, d).error);
    }
  }

  /** A failed conversion of entries or fields reports the first value that does not convert. */
  lemma {:induction false} ToLuaFieldsFirstFailure(entries: seq<Entry>, d: Dumper)
    requires ToLuaFields(entries, d).Failure?
    ensures exists i :: (&& 0 <= i < |entries| && ToLua(entries[i].val, d) == Failure(ToLuaFields(entries, d).error)
                         && forall j :: 0 <= j < i ==> ToLua(entries[j].val, d).Success?)
    decreases |entries|
  {
    if ToLua(entries[0].val, d).Success? {
      var rest := entries[1..];
      ToLuaFieldsFirstFailure(rest, d);
      var i :| (&& 0 <= i < |rest| && ToLua(rest[i].val, d) == Failure(ToLuaFields(rest, d).error)
                && forall j :: 0 <= j < i ==> ToLua(rest[j].val, d).Success?);
      assert forall j :: 0 < j < i + 1 ==> entries[j] == rest[j - 1];
      assert ToLua(entries[i + 1].val, d) == Failure(ToLuaFields(entries, d).error);
    } else {
      assert ToLua(entries[0].val, d) == Failure(ToLuaFields(entries, d).error);
    }
  }

  /** Every scalar inside `v` is one the dumper accepts (a []byte counts as its string). */
  predicate LeavesDumpable(v: Value, d: Dumper)
  {
    match v
    case Seq(items) => forall i :: 0 <= i < |items| ==> LeavesDumpable(items[i], d)
    case Map(entries) => forall i :: 0 <= i < |entries| ==> LeavesDumpable(entries[i].val, d)
    case Struct(fields) => forall i :: 0 <= i < |fields| ==> LeavesDumpable(fields[i].val, d)
    case Bytes(data) => Dumpable(d, Str(ByteString(data)))
    case _ => Dumpable(d, v)
  }

  /** Conversion succeeds exactly when every scalar inside the value can be dumped. */
  lemma {:induction false} ToLuaSucceedsIff(v: Value, d: Dumper)
    ensures ToLua(v, d).Success? <==> LeavesDumpable(v, d)
    decreases v
  {
    match v
    case Seq(items) =>
      forall i | 0 <= i < |items| ensures ToLua(items[i], d).Success? <==> LeavesDumpable(items[i], d) {
        ToLuaSucceedsIff(items[i], d);
      }
      if ToLuaItems(items, d).Failure? {
        ToLuaItemsFirstFailure(items, d);
      }
    case Map(entries) =>
      forall i | 0 <= i < |entries| ensures ToLua(entries[i].val, d).Success? <==> LeavesDumpable(entries[i].val, d) {
        ToLuaSucceedsIff(entries[i].val, d);
      }
      if ToLuaFields(entries, d).Failure? {
        ToLuaFieldsFirstFailure(entries, d);
      }
    case Struct(fields) =>
      forall i | 0 <= i < |fields| ensures ToLua(fields[i].val, d).Success? <==> LeavesDumpable(fields[i].val, d) {
        ToLuaSucceedsIff(fields[i].val, d);
      }
      if ToLuaFields(fields, d).Failure? {
        ToLuaFieldsFirstFailure(fields, d);
      }
    case _ =>
  }

  // ---------------------------------------------------------------------------
  // jPluginConfigToLuaTable and dataToLuaTable
  // ---------------------------------------------------------------------------

  /**
   * The plugin configuration as a table: each entry converted with the value
   * dumper under its name, the first failure aborting; this is the same table
   * as converting the configuration as a map.
   */
  method ConfigToTable(config: seq<Entry>) returns (r: Result<Table, ConvError>)
    ensures r.Success? <==> ToLua(Map(config), ValueDumper).Success?
    ensures r.Success? ==> ToLua(Map(config), ValueDumper) == Success(LTable(r.value))
    ensures r.Failure? ==> ToLua(Map(config), ValueDumper) == Failure(r.error)
  {
    var fields: seq<Field> := [];
    for i := 0 to |config|
      invariant |fields| == i
      invariant forall j :: 0 <= j < i ==>
                  fields[j].key == config[j].key && ToLua(config[j].val, ValueDumper) == Success(fields[j].val)
    {
      var v := ToLua(config[i].val, ValueDumper);
      if v.Failure? {
        var whole := ToLuaFields(config, ValueDumper);
        assert whole.Failure?;
        ToLuaFieldsFirstFailure(config, ValueDumper);
        var k :| 0 <= k < |config| && ToLua(config[k].val, ValueDumper) == Failure(whole.error) &&
                 forall j :: 0 <= j < k ==> ToLua(config[j].val, ValueDumper).Success?;
        assert k == i;
        return Failure(v.error);
      }
      fields := fields + [Field(config[i].key, v.value)];
    }
    var whole := ToLuaFields(config, ValueDumper);
    if whole.Failure? {
      ToLuaFieldsFirstFailure(config, ValueDumper);
    }
    assert whole.Success?;
    assert whole.value == fields;
    r := Success(Table([], fields));
  }

  /** The tags table: every tag value as a Lua string under its name. */
  function TagsTable(tags: seq<Tag>): (t: Table)
    ensures t.arr == [] && |t.hash| == |tags|
    ensures forall i :: 0 <= i < |tags| ==> t.hash[i] == Field(tags[i].name, LString(tags[i].value))
  {
    Table([], seq(|tags|, i requires 0 <= i < |tags| => Field(tags[i].name, LString(tags[i].value))))
  }

  /**
   * The table handed to the plugin for one aggregation result. Its two fields
   * are set one after the other in its string-keyed part, whose traversal
   * order Lua leaves unspecified; the model takes one order, "Tags" before
   * "Result", the order in which they are set.
   */
  function ResultTable(tags: seq<Tag>, result: LValue): Table
  {
    Table([], [Field("Tags", LTable(TagsTable(tags))), Field("Result", result)])
  }

  /**
   * dataToLuaTable: one table per aggregation result, in input order, holding
   * its tags as strings and its result converted with the number dumper; the
   * first result that does not convert aborts.
   */
  method DataToTable(items: seq<AggregationResult>) returns (r: Result<Table, ConvError>)
    ensures r.Success? <==> forall i :: 0 <= i < |items| ==> ToLua(items[i].result, NumberDumper).Success?
    ensures r.Success? ==>
              && r.value.hash == [] && |r.value.arr| == |items|
              && forall i :: 0 <= i < |items| ==>
                   r.value.arr[i] == LTable(ResultTable(items[i].tags, ToLua(items[i].result, NumberDumper).value))
    ensures r.Failure? ==>
              exists i :: (&& 0 <= i < |items| && ToLua(items[i].result, NumberDumper) == Failure(r.error)
                          && forall j :: 0 <= j < i ==> ToLua(items[j].result, NumberDumper).Success?)
  {
    var out: seq<LValue> := [];
    for i := 0 to |items|
      invariant |out| == i
      invariant forall j :: 0 <= j < i ==> ToLua(items[j].result, NumberDumper).Success?
      invariant forall j :: 0 <= j < i ==>
                  out[j] == LTable(ResultTable(items[j].tags, ToLua(items[j].result, NumberDumper).value))
    {
      var tags: seq<Field> := [];
      for k := 0 to |items[i].tags|
        invariant |tags| == k
        invariant forall m :: 0 <= m < k ==> tags[m] == Field(items[i].tags[m].name, LString(items[i].tags[m].value))
      {
        tags := tags + [Field(items[i].tags[k].name, LString(items[i].tags[k].value))];
      }
      assert Table([], tags) == TagsTable(items[i].tags);
      var val := ToLua(items[i].result, NumberDumper);
      if val.Failure? {
        return Failure(val.error);
      }
      out := out + [LTable(Table([], [Field("Tags", LTable(Table([], tags))), Field("Result", val.value)]))];
    }
    r := Success(Table(out, []));
  }

  // ---------------------------------------------------------------------------
  // luaResultToJugglerEvents
  // ---------------------------------------------------------------------------

  /** The event record this revision decodes into; no host is set. */
  datatype Event = Event(service: string, description: string, level: string, tags: map<string, string>)

  datatype DecodeError = NilResult | Messages(msgs: set<string>)

  /** The tags table flattened to strings, a later pair overwriting an earlier one with the same key text. */
  function TagMap(ps: seq<Pair>): (m: map<string, string>)
    ensures forall i :: 0 <= i < |ps| ==> AsString(ps[i].key) in m
    ensures forall k :: k in m ==> exists i :: 0 <= i < |ps| && AsString(ps[i].key) == k
    ensures ps != [] ==> m[AsString(ps[|ps| - 1].key)] == AsString(ps[|ps| - 1].val)
    decreases |ps|
  {
    if ps == [] then map[]
    else
      var last := ps[|ps| - 1];
      TagMap(ps[..|ps| - 1])[AsString(last.key) := AsString(last.val)]
  }

  /** One item of the result table decoded, or the message it fails with. */
  function DecodeItem(p: Pair): Result<Event, string>
  {
    match p.val
    case LTable(t) =>
      (match RawGetString(t, "tags")
       case LTable(tagTable) =>
         var tags := TagMap(Pairs(tagTable));
         if "type" !in tags then
           Failure("Missing tag type for " + (if "name" in tags then tags["name"] else "UnknownEntity"))
         else
           var description := AsString(RawGetString(t, "description"));
           var description := if description == "" then "no trigger description" else description;
           var service := AsString(RawGetString(t, "service"));
           var service := if service == "" then "UnknownServce" else service;
           var level := RawGetString(t, "level");
           if level != LNil then Success(Event(service, description, AsString(level), tags))
           else Success(Event(service, description + " (force OK)", "OK", tags))
       case _ => Failure("Failed to get tags from lua result[" + AsString(p.key) + "]"))
    case _ =>
      Failure("Failed to convert: result[" + AsString(p.key) + "]=" + AsString(p.val) + " is not lua table")
  }

  /**
   * What decoding one item checks and defaults: a non-table item, a missing
   * tags table and a missing `type` tag are errors (the last naming the item's
   * `name` tag or UnknownEntity); otherwise the event carries every tag as a
   * string, the service and description default when empty, and a missing level
   * becomes OK with " (force OK)" appended to the description.
   */
  lemma DecodeItemChecks(p: Pair)
    ensures !p.val.LTable? ==>
              DecodeItem(p) == Failure("Failed to convert: result[" + AsString(p.key) + "]=" + AsString(p.val) + " is not lua table")
    ensures p.val.LTable? && !RawGetString(p.val.t, "tags").LTable? ==>
              DecodeItem(p) == Failure("Failed to get tags from lua result[" + AsString(p.key) + "]")
    ensures p.val.LTable? && RawGetString(p.val.t, "tags").LTable? ==>
              var r := DecodeItem(p);
              var tags := TagMap(Pairs(RawGetString(p.val.t, "tags").t));
              && ("type" !in tags <==> r.Failure?)
              && ("type" !in tags ==>
                    r.error == "Missing tag type for " + (if "name" in tags then tags["name"] else "UnknownEntity"))
              && (r.Success? ==> r.value.tags == tags && r.value.service != "" && r.value.description != "")
    ensures DecodeItem(p).Success? ==>
              var e := DecodeItem(p).value;
              var level := RawGetString(p.val.t, "level");
              var description := AsString(RawGetString(p.val.t, "description"));
              var service := AsString(RawGetString(p.val.t, "service"));
              && (level != LNil ==> e.description == (if description == "" then "no trigger description" else description))
              && (service != "" ==> e.service == service)
              && (service == "" ==> e.service == "UnknownServce")
              && (level != LNil ==> e.level == AsString(level))
              && (level == LNil ==>
                    && e.level == "OK"
                    && e.description == (if description == "" then "no trigger description" else description) + " (force OK)")
  {
  }

  /** The distinct messages of the failures among `rs`. */
  function Errors<T>(rs: seq<Result<T, string>>): (errs: set<string>)
    ensures forall i :: 0 <= i < |rs| && rs[i].Failure? ==> rs[i].error in errs
    ensures forall e :: e in errs ==> exists i :: 0 <= i < |rs| && rs[i] == Failure(e)
    decreases |rs|
  {
    if rs == [] then {}
    else
      var last := rs[|rs| - 1];
      var before := Errors(rs[..|rs| - 1]);
      if last.Failure? then before + {last.error} else before
  }

  /** Errors of a longer list: the new failure's message, if any, joins the set. */
  lemma ErrorsSnoc<T>(rs: seq<Result<T, string>>, e: Result<T, string>)
    ensures Errors(rs + [e]) == Errors(rs) + (if e.Failure? then {e.error} else {})
  {
    assert (rs + [e])[..|rs|] == rs;
  }

  /** Every pair of the result table decoded on its own, in order. */
  function Decoded(ps: seq<Pair>): (rs: seq<Result<Event, string>>)
    ensures |rs| == |ps|
    decreases |ps|
  {
    if ps == [] then [] else Decoded(ps[..|ps| - 1]) + [DecodeItem(ps[|ps| - 1])]
  }

  /** Decoding one more pair of a prefix appends that pair's result. */
  lemma DecodedSnoc(ps: seq<Pair>, i: nat)
    requires i < |ps|
    ensures Decoded(ps[..i + 1]) == Decoded(ps[..i]) + [DecodeItem(ps[i])]
  {
    assert ps[..i + 1][..i] == ps[..i];
  }

  /** The i-th decoded item is the i-th pair decoded. */
  lemma {:induction false} DecodedAt(ps: seq<Pair>, i: nat)
    requires i < |ps|
    ensures Decoded(ps)[i] == DecodeItem(ps[i])
    decreases |ps|
  {
    if i < |ps| - 1 {
      assert ps[..|ps| - 1][i] == ps[i];
      DecodedAt(ps[..|ps| - 1], i);
    }
  }

  /** Copy the tags table into a map of strings. */
  method CopyTags(ps: seq<Pair>) returns (tags: map<string, string>)
    ensures tags == TagMap(ps)
  {
    tags := map[];
    for i := 0 to |ps|
      invariant tags == TagMap(ps[..i])
    {
      assert ps[..i + 1][..i] == ps[..i];
      tags := tags[AsString(ps[i].key) := AsString(ps[i].val)];
    }
    assert ps[..|ps|] == ps;
  }

  /** The ForEach callback for one pair of the result table. */
  method DecodeOne(p: Pair) returns (r: Result<Event, string>)
    ensures r == DecodeItem(p)
  {
    var k, v := p.key, p.val;
    if !v.LTable? {
      return Failure("Failed to convert: result[" + AsString(k) + "]=" + AsString(v) + " is not lua table");
    }
    var lt := v.t;
    var tagsValue := RawGetString(lt, "tags");
    if !tagsValue.LTable? {
      return Failure("Failed to get tags from lua result[" + AsString(k) + "]");
    }
    var tags := CopyTags(Pairs(tagsValue.t));
    if "type" !in tags {
      var name := "UnknownEntity";
      if "name" in tags {
        name := tags["name"];
      }
      return Failure("Missing tag type for " + name);
    }
    var description := AsString(RawGetString(lt, "description"));
    if description == "" {
      description := "no trigger description";
    }
    var service := AsString(RawGetString(lt, "service"));
    if service == "" {
      service := "UnknownServce";
    }
    var level;
    var lvl := RawGetString(lt, "level");
    if lvl != LNil {
      level := AsString(lvl);
    } else {
      level := "OK";
      description := description + " (force OK)";
    }
    return Success(Event(service, description, level, tags));
  }

  /** What the ForEach loop has gathered from the items `outs`: their messages, and while none failed, their events. */
  ghost predicate Gathered(outs: seq<Result<Event, string>>, errs: set<string>, events: seq<Event>)
  {
    && errs == Errors(outs)
    && (errs == {} ==> |events| == |outs| && forall j :: 0 <= j < |outs| ==> events[j] == outs[j].value)
  }

  /** One more item: a failure adds its message, a success its event. */
  lemma GatheredStep(outs: seq<Result<Event, string>>, errs: set<string>, events: seq<Event>, e: Result<Event, string>)
    requires Gathered(outs, errs, events)
    ensures e.Failure? ==> Gathered(outs + [e], errs + {e.error}, events)
    ensures e.Success? ==> Gathered(outs + [e], errs, events + [e.value])
  {
    ErrorsSnoc(outs, e);
  }

  /** The ForEach loop over the pairs: every failure's message, and the events in order. */
  method DecodeAll(ps: seq<Pair>) returns (errs: set<string>, events: seq<Event>)
    ensures var rs := Decoded(ps);
            && errs == Errors(rs)
            && (errs == {} <==> forall i :: 0 <= i < |rs| ==> rs[i].Success?)
            && (errs == {} ==> |events| == |rs| && forall i :: 0 <= i < |rs| ==> events[i] == rs[i].value)
  {
    ghost var outs: seq<Result<Event, string>> := [];
    errs := {};
    events := [];
    for i := 0 to |ps|
      invariant outs == Decoded(ps[..i])
      invariant Gathered(outs, errs, events)
    {
      var e := DecodeOne(ps[i]);
      DecodedSnoc(ps, i);
      GatheredStep(outs, errs, events, e);
      outs := outs + [e];
      if e.Failure? {
        errs := errs + {e.error};
      } else {
        events := events + [e.value];
      }
    }
    assert ps[..|ps|] == ps;
  }

  /**
   * luaResultToJugglerEvents: decode every pair of the result table, in ForEach
   * order. Any failing item makes the whole call fail with the distinct
   * messages of all failing items; otherwise there is one event per item.
   */
  method DecodeEvents(result: Option<Table>) returns (r: Result<seq<Event>, DecodeError>)
    ensures result.None? ==> r == Failure(NilResult)
    ensures result.Some? ==>
              var rs := Decoded(Pairs(result.value));
              && (r.Success? <==> forall i :: 0 <= i < |rs| ==> rs[i].Success?)
              && (r.Success? ==> |r.value| == |rs| && forall i :: 0 <= i < |rs| ==> r.value[i] == rs[i].value)
              && (r.Failure? ==> r.error == Messages(Errors(rs)))
  {
    if result.None? {
      return Failure(NilResult);
    }
    var errs, events := DecodeAll(Pairs(result.value));
    if errs != {} {
      return Failure(Messages(errs));
    }
    return Success(events);
  }
}
