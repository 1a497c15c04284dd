/**
 * The older revision of the juggler script bridge (senders/juggler/go2lua.go).
 * It differs from the current one in its value dumper (no booleans), in having
 * no special case for []byte, in the shape of the data handed to the plugin
 * (host -> metric -> number) and in its event decoder: a host is required,
 * levels are numeric and a configurable default level fills in unknown ones.
 */
module Go2Lua {
  import opened Wrappers
  import opened GoValues
  import opened LuaValues

  /** jLevels: the juggler status names and their numeric codes. */
  const Levels: map<string, int> := map["OK" := 0, "WARN" := 1, "CRIT" := 2, "INFO" := 3]

  /** DEFAULT_CHECK_LEVEL, declared outside this file; its value is not part of the model. */
  const DefaultCheckLevel: string

  datatype Dumper = NumberDumper | ValueDumper

  datatype ConvError =
    | NotANumber(v: Value)       // dumperToLuaNumber on a non-numeric kind
    | BadNumber(s: string)       // a string strconv.ParseFloat rejects
    | NotNumberOrString(v: Value) // dumperToLuaValue on anything else, booleans included

  /** The scalars a dumper of this revision accepts. */
  predicate Dumpable(d: Dumper, v: Value)
  {
    match d
    case NumberDumper => v.Num? || (v.Str? && ParseFloat(v.s).Some?)
    case ValueDumper => v.Num? || v.Str?
  }

  /** dumperToLuaNumber and dumperToLuaValue of this revision. */
  function Dump(d: Dumper, v: Value): (r: Result<LValue, ConvError>)
    ensures r.Success? <==> Dumpable(d, v)
    ensures r.Success? && v.Num? ==> r.value == LNumber(v.n)
    ensures r.Success? && v.Str? ==> r.value == (if d.NumberDumper? then LNumber(ParseFloat(v.s).value) else LString(v.s))
    ensures v.Bool? ==> r.Failure?
  {
    match d
    case NumberDumper =>
      (match v
       case Num(n) => Success(LNumber(n))
       case Str(s) => if ParseFloat(s).Some? then Success(LNumber(ParseFloat(s).value)) else Failure(BadNumber(s))
       case _ => Failure(NotANumber(v)))
    case ValueDumper =>
      (match v
       case Num(n) => Success(LNumber(n))
       case Str(s) => Success(LString(s))
       case _ => Failure(NotNumberOrString(v)))
  }

  /** A []byte is a slice of uint8: a table with one number per byte. */
  function ByteTable(data: seq<bv8>): (t: Table)
    ensures t.hash == [] && |t.arr| == |data|
    ensures forall i :: 0 <= i < |data| ==> t.arr[i] == LNumber(data[i] as int as real)
  {
    Table(seq(|data|, i requires 0 <= i < |data| => LNumber(data[i] as int as real)), [])
  }

  /**
   * ToLuaValue: sequences (a []byte among them) become array tables in order,
   * maps and structs become string-keyed tables with the same keys, and every
   * other value goes to the dumper.
   */
  function ToLua(v: Value, d: Dumper): (r: Result<LValue, ConvError>)
    ensures r.Success? ==> r.value != LNil
    ensures v.Bytes? ==> r == Success(LTable(ByteTable(v.data)))
    ensures v.Seq? && r.Success? ==>
              && r.value.LTable? && r.value.t.hash == [] && |r.value.t.arr| == |v.items|
              && forall i :: 0 <= i < |v.items| ==> ToLua(v.items[i], d) == Success(r.value.t.arr[i])
    ensures (v.Map? || v.Struct?) && r.Success? ==>
              var es := if v.Map? then v.entries else v.fields;
              && r.value.LTable? && r.value.t.arr == [] && |r.value.t.hash| == |es|
              && forall i :: 0 <= i < |es| ==>
                   r.value.t.hash[i].key == es[i].key && ToLua(es[i].val, d) == Success(r.value.t.hash[i].val)
    decreases v, 1
  {
    match v
    case Bytes(data) => Success(LTable(ByteTable(data)))
    case Seq(items) =>
      (match ToLuaItems(items, d)
       case Success(vs) => Success(LTable(Table(vs, [])))
       case Failure(e) => Failure(e))
    case Map(entries) =>
      (match ToLuaFields(entries, d)
       case Success(fs) => Success(LTable(Table([], fs)))
       case Failure(e) => Failure(e))
    case Struct(fields) =>
      (match ToLuaFields(fields, d)
       case Success(fs) => Success(LTable(Table([], fs)))
       case Failure(e) => Failure(e))
    case _ => Dump(d, v)
  }

  /** The elements of a sequence, in order; the first failure aborts. */
  function ToLuaItems(items: seq<Value>, d: Dumper): (r: Result<seq<LValue>, ConvError>)
    ensures r.Success? ==>
              && |r.value| == |items|
              && forall i :: 0 <= i < |items| ==> ToLua(items[i], d) == Success(r.value[i])
    decreases items, 0
  {
    if items == [] then Success([])
    else
      match ToLua(items[0], d)
      case Failure(e) => Failure(e)
      case Success(x) =>
        match ToLuaItems(items[1..], d)
        case Failure(e) => Failure(e)
        case Success(xs) => Success([x] + xs)
  }

  /** Map entries under key.String(), or struct fields under their names; the first failure aborts. */
  function ToLuaFields(entries: seq<Entry>, d: Dumper): (r: Result<seq<Field>, ConvError>)
    ensures r.Success? ==>
              && |r.value| == |entries|
              && forall i :: 0 <= i < |entries| ==>
                   r.value[i].key == entries[i].key && ToLua(entries[i].val, d) == Success(r.value[i].val)
    decreases entries, 0
  {
    if entries == [] then Success([])
    else
      match ToLua(entries[0].val, d)
      case Failure(e) => Failure(e)
      case Success(x) =>
        match ToLuaFields(entries[1..], d)
        case Failure(e) => Failure(e)
        case Success(xs) => Success([Field(entries[0].key, x)] + xs)
  }

  /** A failed conversion of a sequence reports the first element that does not convert. */
  lemma {:induction false} ToLuaItemsFirstFailure(items: seq<Value>, d: Dumper)
    requires ToLuaItems(items, d).Failure?
    ensures exists i :: (&& 0 <= i < |items| && ToLua(items[i], d) == Failure(ToLuaItems(items, d).error)
                         && forall j :: 0 <= j < i ==> ToLua(items[j], d).Success?)
    decreases |items|
  {
    if ToLua(items[0], d).Success? {
      var rest := items[1..];
      ToLuaItemsFirstFailure(rest, d);
      var i :| (&& 0 <= i < |rest| && ToLua(rest[i], d) == Failure(ToLuaItems(rest, d).error)
                && forall j :: 0 <= j < i ==> ToLua(rest[j], d).Success?);
      assert forall j :: 0 < j < i + 1 ==> items[j] == rest[j - 1];
      assert ToLua(items[i + 1], d) == Failure(ToLuaItems(items, d).error);
    } else {
      assert ToLua(items[0], d) == Failure(ToLuaItems(items, d).error);
    }
  }

  /** A failed conversion of entries or fields reports the first value that does not convert. */
  lemma {:induction false} ToLuaFieldsFirstFailure(entries: seq<Entry>, d: Dumper)
    requires ToLuaFields(entries, d).Failure?
    ensures exists i :: (&& 0 <= i < |entries| && ToLua(entries[i].val, d) == Failure(ToLuaFields(entries, d).error)
                         && forall j :: 0 <= j < i ==> ToLua(entries[j].val, d).Success?)
    decreases |entries|
  {
    if ToLua(entries[0].val, d).Success? {
      var rest := entries[1..];
      ToLuaFieldsFirstFailure(rest, d);
      var i :| (&& 0 <= i < |rest| && ToLua(rest[i].val, d) == Failure(ToLuaFields(rest, d).error)
                && forall j :: 0 <= j < i ==> ToLua(rest[j].val, d).Success?);
      assert forall j :: 0 < j < i + 1 ==> entries[j] == rest[j - 1];
      assert ToLua(entries[i + 1].val, d) == Failure(ToLuaFields(entries, d).error);
    } else {
      assert ToLua(entries[0].val, d) == Failure(ToLuaFields(entries, d).error);
    }
  }

  /** Every scalar inside `v` is one the dumper accepts; bytes are numbers and always are. */
  predicate LeavesDumpable(v: Value, d: Dumper)
  {
    match v
    case Seq(items) => forall i :: 0 <= i < |items| ==> LeavesDumpable(items[i], d)
    case Map(entries) => forall i :: 0 <= i < |entries| ==> LeavesDumpable(entries[i].val, d)
    case Struct(fields) => forall i :: 0 <= i < |fields| ==> LeavesDumpable(fields[i].val, d)
    case Bytes(_) => true
    case _ => Dumpable(d, v)
  }

  /** Conversion succeeds exactly when every scalar inside the value can be dumped. */
  lemma {:induction false} ToLuaSucceedsIff(v: Value, d: Dumper)
    ensures ToLua(v, d).Success? <==> LeavesDumpable(v, d)
    decreases v
  {
    match v
    case Seq(items) =>
      forall i | 0 <= i < |items| ensures ToLua(items[i], d).Success? <==> LeavesDumpable(items[i], d) {
        ToLuaSucceedsIff(items[i], d);
      }
      if ToLuaItems(items, d).Failure? {
        ToLuaItemsFirstFailure(items, d);
      }
    case Map(entries) =>
      forall i | 0 <= i < |entries| ensures ToLua(entries[i].val, d).Success? <==> LeavesDumpable(entries[i].val, d) {
        ToLuaSucceedsIff(entries[i].val, d);
      }
      if ToLuaFields(entries, d).Failure? {
        ToLuaFieldsFirstFailure(entries, d);
      }
    case Struct(fields) =>
      forall i | 0 <= i < |fields| ensures ToLua(fields[i].val, d).Success? <==> LeavesDumpable(fields[i].val, d) {
        ToLuaSucceedsIff(fields[i].val, d);
      }
      if ToLuaFields(fields, d).Failure? {
        ToLuaFieldsFirstFailure(fields, d);
      }
    case _ =>
  }

  /** A boolean anywhere in the plugin configuration makes its conversion fail in this revision. */
  lemma {:induction false} BoolConfigRejected(config: seq<Entry>, i: nat)
    requires i < |config| && config[i].val.Bool?
    ensures ToLua(Map(config), ValueDumper).Failure?
  {
    ToLuaSucceedsIff(Map(config), ValueDumper);
  }

  // ---------------------------------------------------------------------------
  // jPluginConfigToLuaTable and dataToLuaTable
  // ---------------------------------------------------------------------------

  /**
   * jPluginConfigToLuaTable: each entry converted with the value dumper under
   * its name, the first failure aborting; the same table as converting the
   * configuration as a map.
   */
  method ConfigToTable(config: seq<Entry>) returns (r: Result<Table, ConvError>)
    ensures r.Success? <==> ToLua(Map(config), ValueDumper).Success?
    ensures r.Success? ==> ToLua(Map(config), ValueDumper) == Success(LTable(r.value))
    ensures r.Failure? ==> ToLua(Map(config), ValueDumper) == Failure(r.error)
  {
    var fields: seq<Field> := [];
    for i := 0 to |config|
      invariant |fields| == i
      invariant forall j :: 0 <= j < i ==>
                  fields[j].key == config[j].key && ToLua(config[j].val, ValueDumper) == Success(fields[j].val)
    {
      var v := ToLua(config[i].val, ValueDumper);
      if v.Failure? {
        var whole := ToLuaFields(config, ValueDumper);
        assert whole.Failure?;
        ToLuaFieldsFirstFailure(config, ValueDumper);
        var k :| (&& 0 <= k < |config| && ToLua(config[k].val, ValueDumper) == Failure(whole.error)
                  && forall j :: 0 <= j < k ==> ToLua(config[j].val, ValueDumper).Success?);
        assert k == i;
        return Failure(v.error);
      }
      fields := fields + [Field(config[i].key, v.value)];
    }
    var whole := ToLuaFields(config, ValueDumper);
    if whole.Failure? {
      ToLuaFieldsFirstFailure(config, ValueDumper);
    }
    assert whole.Success?;
    assert whole.value == fields;
    r := Success(Table([], fields));
  }

  /** tasks.DataType for one host: the host name and its metrics, in map iteration order. */
  datatype HostData = HostData(host: string, metrics: seq<Entry>)

  /** The data as one Go value: a map from host to a map from metric to value. */
  function Nested(data: seq<HostData>): (v: Value)
    ensures v.Map? && |v.entries| == |data|
    ensures forall i :: 0 <= i < |data| ==> v.entries[i] == Entry(data[i].host, Map(data[i].metrics))
  {
    Map(seq(|data|, i requires 0 <= i < |data| => Entry(data[i].host, Map(data[i].metrics))))
  }

  /** The metrics of one host converted with the number dumper, the first failure aborting. */
  method MetricsTable(metrics: seq<Entry>) returns (r: Result<seq<Field>, ConvError>)
    ensures r == ToLuaFields(metrics, NumberDumper)
  {
    var fields: seq<Field> := [];
    for j := 0 to |metrics|
      invariant |fields| == j
      invariant forall m :: 0 <= m < j ==>
                  fields[m].key == metrics[m].key && ToLua(metrics[m].val, NumberDumper) == Success(fields[m].val)
    {
      var v := ToLua(metrics[j].val, NumberDumper);
      if v.Failure? {
        var whole := ToLuaFields(metrics, NumberDumper);
        assert whole.Failure?;
        ToLuaFieldsFirstFailure(metrics, NumberDumper);
        var k :| (&& 0 <= k < |metrics| && ToLua(metrics[k].val, NumberDumper) == Failure(whole.error)
                  && forall m :: 0 <= m < k ==> ToLua(metrics[m].val, NumberDumper).Success?);
        assert k == j;
        return Failure(v.error);
      }
      fields := fields + [Field(metrics[j].key, v.value)];
    }
    var whole := ToLuaFields(metrics, NumberDumper);
    if whole.Failure? {
      ToLuaFieldsFirstFailure(metrics, NumberDumper);
    }
    assert whole.Success?;
    assert whole.value == fields;
    r := Success(fields);
  }

  /**
   * dataToLuaTable: a table with one sub-table per host, holding every metric
   * of that host number-dumped under its name; the first metric that does not
   * convert aborts. This is the generic conversion of the data as a map of maps.
   */
  method DataToTable(data: seq<HostData>) returns (r: Result<Table, ConvError>)
    ensures r.Success? <==> ToLua(Nested(data), NumberDumper).Success?
    ensures r.Success? ==> ToLua(Nested(data), NumberDumper) == Success(LTable(r.value))
    ensures r.Failure? ==> ToLua(Nested(data), NumberDumper) == Failure(r.error)
    ensures r.Success? ==>
              && r.value.arr == [] && |r.value.hash| == |data|
              && forall i :: 0 <= i < |data| ==>
                   && r.value.hash[i].key == data[i].host
                   && r.value.hash[i].val.LTable?
                   && |r.value.hash[i].val.t.hash| == |data[i].metrics|
  {
    var whole := Nested(data);
    var hosts: seq<Field> := [];
    for i := 0 to |data|
      invariant |hosts| == i
      invariant forall j :: 0 <= j < i ==>
                  hosts[j].key == whole.entries[j].key && ToLua(whole.entries[j].val, NumberDumper) == Success(hosts[j].val)
    {
      var metrics := MetricsTable(data[i].metrics);
      if metrics.Failure? {
        var all := ToLuaFields(whole.entries, NumberDumper);
        assert ToLua(whole.entries[i].val, NumberDumper).Failure?;
        assert all.Failure?;
        ToLuaFieldsFirstFailure(whole.entries, NumberDumper);
        var k :| (&& 0 <= k < |whole.entries| && ToLua(whole.entries[k].val, NumberDumper) == Failure(all.error)
                  && forall j :: 0 <= j < k ==> ToLua(whole.entries[j].val, NumberDumper).Success?);
        assert k == i;
        return Failure(metrics.error);
      }
      hosts := hosts + [Field(data[i].host, LTable(Table([], metrics.value)))];
    }
    var all := ToLuaFields(whole.entries, NumberDumper);
    if all.Failure? {
      ToLuaFieldsFirstFailure(whole.entries, NumberDumper);
    }
    assert all.Success?;
    assert all.value == hosts;
    r := Success(Table([], hosts));
  }

  // ---------------------------------------------------------------------------
  // luaResultToJugglerEvents
  // ---------------------------------------------------------------------------

  /** The event record this revision decodes into: a host and a numeric level, no tags. */
  datatype Event = Event(host: string, service: string, description: string, level: int)

  datatype DecodeError = NilResult | Messages(msgs: seq<string>)

  /** The default level in force: DEFAULT_CHECK_LEVEL when none is given. */
  function EffectiveDefault(defaultLevel: string): (l: string)
    ensures defaultLevel != "" ==> l == defaultLevel
    ensures defaultLevel == "" ==> l == DefaultCheckLevel
  {
    if defaultLevel == "" then DefaultCheckLevel else defaultLevel
  }

  /** The numeric code of a level name; a name jLevels lacks reads as 0, the zero value. */
  function LevelCode(name: string): (c: int)
    ensures name in Levels ==> c == Levels[name]
    ensures name !in Levels ==> c == 0
    ensures 0 <= c <= 3
  {
    if name in Levels then Levels[name] else 0
  }

  /**
   * One item of the result table decoded against the default level in force
   * `level`: the message it records, or its event. A non-table item records
   * its message and is skipped, the behaviour the code evidently intends (see
   * AsWrittenItem for what it does instead).
   */
  function DecodeItem(p: Pair, level: string): Result<Event, string>
  {
    match p.val
    case LTable(t) =>
      var host := AsString(RawGetString(t, "host"));
      if host == "" then Failure("UnknownHost in event")
      else
        var description := AsString(RawGetString(t, "description"));
        var description := if description == "" then "no trigger description" else description;
        var service := AsString(RawGetString(t, "service"));
        var service := if service == "" then "UnknownServce" else service;
        var name := AsString(RawGetString(t, "level"));
        if name in Levels then Success(Event(host, service, description, Levels[name]))
        else Success(Event(host, service, description + " (Forse status " + level + ")", LevelCode(level)))
    case _ =>
      Failure("Failed to convert: result[" + AsString(p.key) + "]=" + AsString(p.val) + " is not lua table")
  }

  /**
   * What decoding one item checks and defaults: an item without a host is
   * rejected with "UnknownHost in event"; otherwise the event carries the host,
   * the service and description default when empty, a known level maps to its
   * code, and any other level takes the default level's code and annotates the
   * description with it.
   */
  lemma DecodeItemChecks(p: Pair, level: string)
    ensures p.val.LTable? ==>
              var t := p.val.t;
              var r := DecodeItem(p, level);
              var host := AsString(RawGetString(t, "host"));
              var name := AsString(RawGetString(t, "level"));
              var description := AsString(RawGetString(t, "description"));
              var service := AsString(RawGetString(t, "service"));
              var shown := if description == "" then "no trigger description" else description;
              && (r.Failure? <==> host == "")
              && (r.Failure? ==> r.error == "UnknownHost in event")
              && (r.Success? ==>
                    && r.value.host == host
                    && r.value.service == (if service == "" then "UnknownServce" else service)
                    && 0 <= r.value.level <= 3
                    && (name in Levels ==> r.value.level == Levels[name] && r.value.description == shown)
                    && (name !in Levels ==>
                          && r.value.level == LevelCode(level)
                          && r.value.description == shown + " (Forse status " + level + ")"))
  {
  }

  /** The messages of the failures among `rs`, in order, repeats kept. */
  function Recorded(rs: seq<Result<Event, string>>): (msgs: seq<string>)
    ensures |msgs| <= |rs|
    ensures msgs == [] <==> forall i :: 0 <= i < |rs| ==> rs[i].Success?
    ensures forall m :: m in msgs ==> exists i :: 0 <= i < |rs| && rs[i] == Failure(m)
    decreases |rs|
  {
    if rs == [] then []
    else
      var last := rs[|rs| - 1];
      Recorded(rs[..|rs| - 1]) + (if last.Failure? then [last.error] else [])
  }

  /** The events among `rs`, in order. */
  function Emitted(rs: seq<Result<Event, string>>): (es: seq<Event>)
    ensures |es| <= |rs|
    ensures (forall i :: 0 <= i < |rs| ==> rs[i].Success?) ==>
              |es| == |rs| && forall i :: 0 <= i < |rs| ==> es[i] == rs[i].value
    decreases |rs|
  {
    if rs == [] then []
    else
      var last := rs[|rs| - 1];
      Emitted(rs[..|rs| - 1]) + (if last.Success? then [last.value] else [])
  }

  /** Recorded and Emitted of a longer list: the new item goes to one side or the other. */
  lemma RecordedEmittedSnoc(rs: seq<Result<Event, string>>, e: Result<Event, string>)
    ensures Recorded(rs + [e]) == Recorded(rs) + (if e.Failure? then [e.error] else [])
    ensures Emitted(rs + [e]) == Emitted(rs) + (if e.Success? then [e.value] else [])
  {
    assert (rs + [e])[..|rs|] == rs;
  }

  /** Every pair of the result table decoded on its own, in order. */
  function Decoded(ps: seq<Pair>, level: string): (rs: seq<Result<Event, string>>)
    ensures |rs| == |ps|
    decreases |ps|
  {
    if ps == [] then [] else Decoded(ps[..|ps| - 1], level) + [DecodeItem(ps[|ps| - 1], level)]
  }

  /** The i-th decoded item is the i-th pair decoded. */
  lemma {:induction false} DecodedAt(ps: seq<Pair>, level: string, i: nat)
    requires i < |ps|
    ensures Decoded(ps, level)[i] == DecodeItem(ps[i], level)
    decreases |ps|
  {
    if i < |ps| - 1 {
      assert ps[..|ps| - 1][i] == ps[i];
      DecodedAt(ps[..|ps| - 1], level, i);
    }
  }

  /** The ForEach callback for one pair, with the missing return after a non-table item supplied. */
  method DecodeOne(p: Pair, level: string) returns (r: Result<Event, string>)
    ensures r == DecodeItem(p, level)
  {
    var k, v := p.key, p.val;
    if !v.LTable? {
      return Failure("Failed to convert: result[" + AsString(k) + "]=" + AsString(v) + " is not lua table");
    }
    var lt := v.t;
    var host := AsString(RawGetString(lt, "host"));
    if host == "" {
      return Failure("UnknownHost in event");
    }
    var description := AsString(RawGetString(lt, "description"));
    if description == "" {
      description := "no trigger description";
    }
    var service := AsString(RawGetString(lt, "service"));
    if service == "" {
      service := "UnknownServce";
    }
    var name := AsString(RawGetString(lt, "level"));
    var code;
    if name in Levels {
      code := Levels[name];
    } else {
      code := LevelCode(level);
      description := description + " (Forse status " + level + ")";
    }
    return Success(Event(host, service, description, code));
  }

  /** The ForEach loop over the pairs: the recorded messages in order, and the events in order. */
  method DecodeAll(ps: seq<Pair>, level: string) returns (errs: seq<string>, events: seq<Event>)
    ensures errs == Recorded(Decoded(ps, level)) && events == Emitted(Decoded(ps, level))
  {
    ghost var outs: seq<Result<Event, string>> := [];
    errs := [];
    events := [];
    for i := 0 to |ps|
      invariant outs == Decoded(ps[..i], level)
      invariant errs == Recorded(outs) && events == Emitted(outs)
    {
      var e := DecodeOne(ps[i], level);
      assert ps[..i + 1][..i] == ps[..i];
      RecordedEmittedSnoc(outs, e);
      outs := outs + [e];
      if e.Failure? {
        errs := errs + [e.error];
      } else {
        events := events + [e.value];
      }
    }
    assert ps[..|ps|] == ps;
  }

  /**
   * luaResultToJugglerEvents(defaultLevel, result), corrected: every pair is
   * decoded in ForEach order; any recorded message makes the call fail with
   * all messages in order, otherwise there is one event per pair.
   */
  method DecodeEvents(defaultLevel: string, result: Option<Table>) returns (r: Result<seq<Event>, DecodeError>)
    ensures result.None? ==> r == Failure(NilResult)
    ensures result.Some? ==>
              var rs := Decoded(Pairs(result.value), EffectiveDefault(defaultLevel));
              && (r.Success? <==> forall i :: 0 <= i < |rs| ==> rs[i].Success?)
              && (r.Success? ==> |r.value| == |rs| && forall i :: 0 <= i < |rs| ==> r.value[i] == rs[i].value)
              && (r.Failure? ==> r.error == Messages(Recorded(rs)))
  {
    var level := defaultLevel;
    if level == "" {
      level := DefaultCheckLevel;
    }
    if result.None? {
      return Failure(NilResult);
    }
    var errs, events := DecodeAll(Pairs(result.value), level);
    if errs != [] {
      return Failure(Messages(errs));
    }
    return Success(events);
  }

  // ---------------------------------------------------------------------------
  // The decoder as written: a non-table item records its message and then reads
  // fields of the nil table it failed to obtain, which panics.
  // ---------------------------------------------------------------------------

  /** What the callback does with one pair as written. */
  datatype Step = Emit(e: Event) | Record(msg: string) | Panic

  function AsWrittenItem(p: Pair, level: string): (s: Step)
    ensures s.Panic? <==> !p.val.LTable?
    ensures p.val.LTable? ==>
              (s.Record? <==> DecodeItem(p, level).Failure?)
              && (s.Record? ==> s.msg == DecodeItem(p, level).error)
              && (s.Emit? ==> s.e == DecodeItem(p, level).value)
  {
    if !p.val.LTable? then Panic
    else
      match DecodeItem(p, level)
      case Success(e) => Emit(e)
      case Failure(m) => Record(m)
  }

  /** The outcome of the whole call as written: a panic escapes ForEach and the call. */
  datatype Outcome = Panicked | Returned(r: Result<seq<Event>, DecodeError>)

  /** The ForEach loop as written, over the pairs in order. */
  function AsWrittenLoop(ps: seq<Pair>, level: string): Option<(seq<string>, seq<Event>)>
    decreases |ps|
  {
    if ps == [] then Some(([], []))
    else
      var last := ps[|ps| - 1];
      var init := ps[..|ps| - 1];
      match AsWrittenLoop(init, level)
      case None => None
      case Some((errs, events)) =>
        match AsWrittenItem(last, level)
        case Panic => None
        case Record(m) => Some((errs + [m], events))
        case Emit(e) => Some((errs, events + [e]))
  }

  /** The loop as written stops for good at the first item that panics. */
  lemma AsWrittenLoopStops(ps: seq<Pair>, level: string)
    requires ps != []
    ensures AsWrittenLoop(ps, level).None? <==>
              AsWrittenLoop(ps[..|ps| - 1], level).None? || AsWrittenItem(ps[|ps| - 1], level).Panic?
  {
  }

  /** The loop as written panics exactly when some item is not a table. */
  lemma {:induction false} AsWrittenLoopPanics(ps: seq<Pair>, level: string)
    ensures AsWrittenLoop(ps, level).None? <==> exists i :: 0 <= i < |ps| && !ps[i].val.LTable?
    decreases |ps|
  {
    if ps != [] {
      var init := ps[..|ps| - 1];
      AsWrittenLoopPanics(init, level);
      AsWrittenLoopStops(ps, level);
      if AsWrittenLoop(ps, level).None? {
        if AsWrittenLoop(init, level).None? {
          var i :| 0 <= i < |init| && !init[i].val.LTable?;
          assert ps[i] == init[i];
        } else {
          assert !ps[|ps| - 1].val.LTable?;
        }
      } else {
        forall i | 0 <= i < |ps|
          ensures ps[i].val.LTable?
        {
          if i < |init| {
            assert ps[i] == init[i];
          }
        }
      }
    }
  }

  /** Where the loop as written finishes, it has recorded and emitted what the corrected loop does. */
  lemma {:induction false} AsWrittenLoopFinishes(ps: seq<Pair>, level: string)
    requires AsWrittenLoop(ps, level).Some?
    ensures AsWrittenLoop(ps, level).value == (Recorded(Decoded(ps, level)), Emitted(Decoded(ps, level)))
    decreases |ps|
  {
    if ps != [] {
      var last := ps[|ps| - 1];
      var init := ps[..|ps| - 1];
      assert forall i :: 0 <= i < |init| ==> init[i] == ps[i];
      AsWrittenLoopFinishes(init, level);
      var e := DecodeItem(last, level);
      var rs := Decoded(init, level);
      assert Decoded(ps, level) == rs + [e];
      RecordedEmittedSnoc(rs, e);
      var errs, events := Recorded(rs + [e]), Emitted(rs + [e]);
      if e.Failure? {
        assert errs == Recorded(rs) + [e.error] && events == Emitted(rs);
        assert AsWrittenItem(last, level) == Record(e.error);
      } else {
        assert errs == Recorded(rs) && events == Emitted(rs) + [e.value];
        assert AsWrittenItem(last, level) == Emit(e.value);
      }
      assert AsWrittenLoop(ps, level) == Some((errs, events));
    }
  }

  /** luaResultToJugglerEvents as written. */
  function AsWrittenDecode(defaultLevel: string, result: Option<Table>): (o: Outcome)
    ensures result.None? ==> o == Returned(Failure(NilResult))
    ensures result.Some? ==>
              (o.Panicked? <==> exists i :: 0 <= i < |Pairs(result.value)| && !Pairs(result.value)[i].val.LTable?)
  {
    if result.None? then Returned(Failure(NilResult))
    else
      AsWrittenLoopPanics(Pairs(result.value), EffectiveDefault(defaultLevel));
      match AsWrittenLoop(Pairs(result.value), EffectiveDefault(defaultLevel))
      case None => Panicked
      case Some((errs, events)) => if errs != [] then Returned(Failure(Messages(errs))) else Returned(Success(events))
  }

  /**
   * A result table whose only item is the number 7 makes the decoder as written
   * panic, where the intended behaviour is to report the item as not a table.
   */
  lemma NonTableItemPanics()
    ensures var result := Some(Table([LNumber(7.0)], []));
            && AsWrittenDecode("", result) == Panicked
            && Pairs(result.value) == [Pair(LNumber(1.0), LNumber(7.0))]
            && DecodeItem(Pairs(result.value)[0], DefaultCheckLevel).Failure?
  {
    var t := Table([LNumber(7.0)], []);
    assert ArrayPairs(t.arr, 1) == [Pair(LNumber(1.0), LNumber(7.0))];
    assert Pairs(t) == [Pair(LNumber(1.0), LNumber(7.0))];
  }
}
