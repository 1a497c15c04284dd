/**
 * The agave sender (senders/agave/agave.go): `send` repacks aggregation
 * results into one list of "name:value" strings per subgroup, and `Send`
 * pushes each subgroup to the configured hosts and decides, from the errors
 * that came back, whether the whole call failed. The HTTP exchange with one
 * host is abstracted to the Reply it produced; the goroutines that run the
 * subgroups concurrently are replaced by one pass over the subgroups.
 */
module Agave {
  import opened Wrappers
  import opened GoValues
  import opened GoStrings
  import opened HostFanout

  /** common.GetSubgroupName: the subgroup named by a result's tags, or why there is none. Not modelled. */
  const GetSubgroupName: map<string, string> -> Result<string, string>

  /** common.InterfaceToString: how a value is printed into a point. Not modelled. */
  const InterfaceToString: Value -> string

  // ---------------------------------------------------------------------------
  // The configured items: root -> metric names
  // ---------------------------------------------------------------------------

  /** The aggregate an item names: the text before its first dot. */
  function Root(name: string): string
  {
    SplitTwo(name, '.').0
  }

  /** The metric an item names: the text after its first dot, when there is one. */
  function Suffix(name: string): Option<string>
  {
    SplitTwo(name, '.').1
  }

  /** The metric names configured under `root`, in configuration order. */
  function MetricsOf(items: seq<string>, root: string): (ms: seq<string>)
    ensures |ms| <= |items|
    decreases |items|
  {
    if items == [] then []
    else
      var last := items[|items| - 1];
      MetricsOf(items[..|items| - 1], root) + (if Root(last) == root && Suffix(last).Some? then [Suffix(last).value] else [])
  }

  /** The roots the configured items name. */
  function Roots(items: seq<string>): (rs: set<string>)
    ensures forall r :: r in rs <==> exists i :: 0 <= i < |items| && Root(items[i]) == r
  {
    set i | 0 <= i < |items| :: Root(items[i])
  }

  /** Every root some item names, mapped to the metric names configured under it. */
  function QueryItems(items: seq<string>): (q: map<string, seq<string>>)
    ensures q.Keys == Roots(items)
    ensures forall r :: r in q ==> q[r] == MetricsOf(items, r)
  {
    map r | r in Roots(items) :: MetricsOf(items, r)
  }

  /** One more item adds its root, and its metric (if any) at the end of that root's list. */
  lemma RootsMetricsSnoc(items: seq<string>, x: string)
    ensures Roots(items + [x]) == Roots(items) + {Root(x)}
    ensures forall r :: MetricsOf(items + [x], r) ==
              MetricsOf(items, r) + (if Root(x) == r && Suffix(x).Some? then [Suffix(x).value] else [])
  {
    var longer := items + [x];
    assert longer[..|items|] == items;
    assert forall i :: 0 <= i < |items| ==> longer[i] == items[i];
    assert longer[|items|] == x;
  }

  /**
   * One configured item added to queryItems: "a.b" appends "b" to root "a"'s
   * list, creating it; a dotless "a" registers root "a" with an empty list but
   * leaves a list that already exists as it is.
   */
  function AddItem(q: map<string, seq<string>>, x: string): (q': map<string, seq<string>>)
    ensures q'.Keys == q.Keys + {Root(x)}
    ensures forall r :: r in q && r != Root(x) ==> q'[r] == q[r]
    ensures Suffix(x).None? && Root(x) in q ==> q' == q
    ensures Suffix(x).None? && Root(x) !in q ==> q'[Root(x)] == []
    ensures Suffix(x).Some? ==> q'[Root(x)] == (if Root(x) in q then q[Root(x)] else []) + [Suffix(x).value]
  {
    if Suffix(x).Some? then q[Root(x) := (if Root(x) in q then q[Root(x)] else []) + [Suffix(x).value]]
    else if Root(x) !in q then q[Root(x) := []]
    else q
  }

  /** The per-root characterisation agrees with adding the items one at a time. */
  lemma QueryItemsSnoc(items: seq<string>, x: string)
    ensures QueryItems(items + [x]) == AddItem(QueryItems(items), x)
  {
    RootsMetricsSnoc(items, x);
    var q, q' := QueryItems(items), QueryItems(items + [x]);
    var expected := AddItem(q, x);
    calc {
      q'.Keys;
      Roots(items + [x]);
      Roots(items) + {Root(x)};
      q.Keys + {Root(x)};
      expected.Keys;
    }
    forall r | r in q' ensures q'[r] == expected[r] {
      QueryItemsSnocAt(items, x, r);
    }
    assert q' == expected;
  }

  /** The same, for the list of one root. */
  lemma QueryItemsSnocAt(items: seq<string>, x: string, r: string)
    requires r in QueryItems(items + [x])
    ensures r in AddItem(QueryItems(items), x)
    ensures QueryItems(items + [x])[r] == AddItem(QueryItems(items), x)[r]
  {
    RootsMetricsSnoc(items, x);
    var q := QueryItems(items);
    if r == Root(x) && Root(x) !in q {
      forall i | 0 <= i < |items| ensures Root(items[i]) != Root(x) {
        assert Root(items[i]) in Roots(items);
      }
      MetricsOfAbsent(items, Root(x));
    }
  }

  /** A root no item names has no metrics. */
  lemma {:induction false} MetricsOfAbsent(items: seq<string>, root: string)
    requires forall i :: 0 <= i < |items| ==> Root(items[i]) != root
    ensures MetricsOf(items, root) == []
    decreases |items|
  {
    if items != [] {
      MetricsOfAbsent(items[..|items| - 1], root);
    }
  }

  /** The loop over the configured items that builds queryItems. */
  method BuildQueryItems(items: seq<string>) returns (q: map<string, seq<string>>)
    ensures q == QueryItems(items)
  {
    q := map[];
    assert items[..0] == [];
    for i := 0 to |items|
      invariant q == QueryItems(items[..i])
    {
      var parts := SplitTwo(items[i], '.');
      QueryItemsSnoc(items[..i], items[i]);
      assert AddItem(q, items[i]) == QueryItems(items[..i] + [items[i]]);
      assert items[..i + 1] == items[..i] + [items[i]];
      if parts.1.Some? {
        var known := if parts.0 in q then q[parts.0] else [];
        q := q[parts.0 := known + [parts.1.value]];
      } else if parts.0 !in q {
        q := q[parts.0 := []];
      }
    }
    assert items[..|items|] == items;
  }

  // ---------------------------------------------------------------------------
  // One aggregation result repacked
  // ---------------------------------------------------------------------------

  /** Results reflect reports as a slice or an array; a []byte is one. */
  predicate IsSlice(v: Value)
  {
    v.Seq? || v.Bytes?
  }

  /** The elements of a slice, a byte being a number. */
  function Elements(v: Value): (es: seq<Value>)
    requires IsSlice(v)
    ensures v.Seq? ==> es == v.items
    ensures v.Bytes? ==> |es| == |v.data|
  {
    if v.Seq? then v.items else seq(|v.data|, i requires 0 <= i < |v.data| => Num(v.data[i] as int as real))
  }

  /** "field:value" for one configured field and its element. */
  function FieldPart(field: string, elem: Value): string
  {
    field + ":" + InterfaceToString(elem)
  }

  /** The configured fields paired with the slice's elements, joined with '+'. */
  function FieldsLine(fields: seq<string>, elems: seq<Value>): string
    requires |fields| == |elems|
  {
    Join(seq(|fields|, i requires 0 <= i < |fields| => FieldPart(fields[i], elems[i])), '+')
  }

  /**
   * Where neither the field names nor the printed values contain '+', the
   * line splits back into one "field:value" part per field, in field order.
   */
  lemma FieldsLineSplits(fields: seq<string>, elems: seq<Value>)
    requires |fields| == |elems| > 0
    requires forall i :: 0 <= i < |fields| ==> '+' !in FieldPart(fields[i], elems[i])
    ensures var parts := Split(FieldsLine(fields, elems), '+');
            && |parts| == |fields|
            && forall i :: 0 <= i < |fields| ==> parts[i] == FieldPart(fields[i], elems[i])
  {
    var parts := seq(|fields|, i requires 0 <= i < |fields| => FieldPart(fields[i], elems[i]));
    SplitJoin(parts, '+');
  }

  /** A slice yields its line only when the fields count matches its length, and there are fields. */
  function SliceLines(v: Value, fields: seq<string>): (ls: seq<string>)
    requires IsSlice(v)
    ensures ls != [] <==> 0 < |fields| == |Elements(v)|
    ensures ls != [] ==> ls == [FieldsLine(fields, Elements(v))]
  {
    if |fields| == 0 || |fields| != |Elements(v)| then [] else [FieldsLine(fields, Elements(v))]
  }

  /** The first entry of a map with the given key (a Go map has at most one). */
  function Lookup(entries: seq<Entry>, key: string): (r: Option<Value>)
    ensures r.None? <==> forall i :: 0 <= i < |entries| ==> entries[i].key != key
    ensures r.Some? ==> exists i :: 0 <= i < |entries| && entries[i] == Entry(key, r.value)
    decreases |entries|
  {
    if entries == [] then None
    else if entries[0].key == key then Some(entries[0].val)
    else Lookup(entries[1..], key)
  }

  /**
   * What one configured metric of a map result contributes. A nil value makes
   * send panic before anything is appended (see Crashes), so it contributes
   * nothing here.
   */
  function MetricLine(entries: seq<Entry>, mname: string, fields: seq<string>): (ls: seq<string>)
    ensures |ls| <= 1
    ensures Lookup(entries, mname).None? ==> ls == []
    ensures Lookup(entries, mname).Some? && (Lookup(entries, mname).value.Map? || Lookup(entries, mname).value.Nil?) ==> ls == []
    ensures Lookup(entries, mname).Some? && !IsSlice(Lookup(entries, mname).value) &&
            !Lookup(entries, mname).value.Map? && !Lookup(entries, mname).value.Nil? ==>
              ls == [mname + ":" + InterfaceToString(Lookup(entries, mname).value)]
  {
    match Lookup(entries, mname)
    case None => []
    case Some(val) =>
      if IsSlice(val) then SliceLines(val, fields)
      else if val.Map? || val.Nil? then []
      else [mname + ":" + InterfaceToString(val)]
  }

  /** What the configured metrics of a map result contribute, in the order they are configured. */
  function MetricLines(entries: seq<Entry>, metrics: seq<string>, fields: seq<string>): (ls: seq<string>)
    ensures |ls| <= |metrics|
    ensures (forall j :: 0 <= j < |metrics| ==> Lookup(entries, metrics[j]).None?) ==> ls == []
    decreases |metrics|
  {
    if metrics == [] then []
    else
      var init := metrics[..|metrics| - 1];
      assert forall j :: 0 <= j < |init| ==> init[j] == metrics[j];
      MetricLines(entries, init, fields) + MetricLine(entries, metrics[|metrics| - 1], fields)
  }

  /**
   * Some configured metric of a map result holds nil. reflect.ValueOf of that
   * nil is the zero Value, whose kind falls to the default case, where calling
   * Interface on it panics.
   */
  predicate NilMetric(entries: seq<Entry>, metrics: seq<string>)
    decreases |metrics|
  {
    && metrics != []
    && (NilMetric(entries, metrics[..|metrics| - 1]) || Lookup(entries, metrics[|metrics| - 1]) == Some(Nil))
  }

  /** NilMetric holds exactly when some configured metric's value is nil. */
  lemma {:induction false} NilMetricSome(entries: seq<Entry>, metrics: seq<string>)
    ensures NilMetric(entries, metrics) <==> exists j :: 0 <= j < |metrics| && Lookup(entries, metrics[j]) == Some(Nil)
    decreases |metrics|
  {
    if metrics != [] {
      var init := metrics[..|metrics| - 1];
      NilMetricSome(entries, init);
      assert forall j :: 0 <= j < |init| ==> init[j] == metrics[j];
    }
  }

  /** A nil metric among the first n is a nil metric among all of them. */
  lemma {:induction false} NilMetricPrefix(entries: seq<Entry>, metrics: seq<string>, n: nat)
    requires n <= |metrics| && NilMetric(entries, metrics[..n])
    ensures NilMetric(entries, metrics)
    decreases |metrics| - n
  {
    if n < |metrics| {
      var longer := metrics[..n + 1];
      assert longer[..n] == metrics[..n];
      assert NilMetric(entries, longer);
      NilMetricPrefix(entries, metrics, n + 1);
    } else {
      assert metrics[..n] == metrics;
    }
  }

  /** send panics on this result: it reaches the map case and one of its configured metrics holds nil. */
  predicate Crashes(item: AggregationResult, q: map<string, seq<string>>)
  {
    var tags := TagsByName(item.tags);
    && "aggregate" in tags && tags["aggregate"] in q
    && GetSubgroupName(tags).Success?
    && item.result.Map?
    && NilMetric(item.result.entries, q[tags["aggregate"]])
  }

  /** send panics on some result of the data. */
  predicate AnyCrash(data: seq<AggregationResult>, q: map<string, seq<string>>)
    decreases |data|
  {
    && data != []
    && (AnyCrash(data[..|data| - 1], q) || Crashes(data[|data| - 1], q))
  }

  /** AnyCrash holds exactly when send panics on one of the results. */
  lemma {:induction false} AnyCrashSome(data: seq<AggregationResult>, q: map<string, seq<string>>)
    ensures AnyCrash(data, q) <==> exists i :: 0 <= i < |data| && Crashes(data[i], q)
    decreases |data|
  {
    if data != [] {
      var init := data[..|data| - 1];
      AnyCrashSome(init, q);
      assert forall i :: 0 <= i < |init| ==> init[i] == data[i];
    }
  }

  /** A panic on one of the first n results is a panic on the data. */
  lemma {:induction false} AnyCrashPrefix(data: seq<AggregationResult>, q: map<string, seq<string>>, n: nat)
    requires n <= |data| && AnyCrash(data[..n], q)
    ensures AnyCrash(data, q)
    decreases |data| - n
  {
    if n < |data| {
      var longer := data[..n + 1];
      assert longer[..n] == data[..n];
      assert AnyCrash(longer, q);
      AnyCrashPrefix(data, q, n + 1);
    } else {
      assert data[..n] == data;
    }
  }

  /**
   * What one result under `root` contributes to its subgroup: a slice only
   * when the root has no metrics and the field count matches; a map only the
   * configured metrics it holds; anything else one "root:value" line.
   */
  function ResultLines(v: Value, root: string, metrics: seq<string>, fields: seq<string>): (ls: seq<string>)
    ensures |ls| <= (if v.Map? then |metrics| else 1)
    ensures IsSlice(v) ==> (ls != [] <==> metrics == [] && 0 < |fields| == |Elements(v)|)
    ensures IsSlice(v) && ls != [] ==> ls == [FieldsLine(fields, Elements(v))]
    ensures v.Map? && metrics == [] ==> ls == []
    ensures !IsSlice(v) && !v.Map? ==> ls == [root + ":" + InterfaceToString(v)]
  {
    if IsSlice(v) then (if metrics != [] then [] else SliceLines(v, fields))
    else if v.Map? then (if metrics == [] then [] else MetricLines(v.entries, metrics, fields))
    else [root + ":" + InterfaceToString(v)]
  }

  /**
   * One result: skipped (None) when it has no "aggregate" tag, when that
   * aggregate is not a configured root or when its subgroup cannot be named;
   * otherwise its subgroup and the lines it contributes.
   */
  function Contribution(item: AggregationResult, q: map<string, seq<string>>, fields: seq<string>): (c: Option<(string, seq<string>)>)
    ensures var tags := TagsByName(item.tags);
            c.None? <==> ("aggregate" !in tags || tags["aggregate"] !in q || GetSubgroupName(tags).Failure?)
    ensures c.Some? ==>
              var tags := TagsByName(item.tags);
              && GetSubgroupName(tags) == Success(c.value.0)
              && c.value.1 == ResultLines(item.result, tags["aggregate"], q[tags["aggregate"]], fields)
  {
    var tags := TagsByName(item.tags);
    if "aggregate" !in tags then None
    else
      var root := tags["aggregate"];
      if root !in q then None
      else
        match GetSubgroupName(tags)
        case Failure(_) => None
        case Success(subgroup) => Some((subgroup, ResultLines(item.result, root, q[root], fields)))
  }

  /** The lines a contribution adds to subgroup `g`. */
  function Extra(c: Option<(string, seq<string>)>, g: string): seq<string>
  {
    if c.Some? && c.value.0 == g then c.value.1 else []
  }

  /** Everything the results contribute to subgroup `g`, in data order. */
  function LinesFor(data: seq<AggregationResult>, q: map<string, seq<string>>, fields: seq<string>, g: string): seq<string>
    decreases |data|
  {
    if data == [] then []
    else LinesFor(data[..|data| - 1], q, fields, g) + Extra(Contribution(data[|data| - 1], q, fields), g)
  }

  /** The subgroup lists hold, for every subgroup, exactly what the results contribute to it. */
  ghost predicate RepackedFrom(repacked: map<string, seq<string>>, data: seq<AggregationResult>,
                               q: map<string, seq<string>>, fields: seq<string>)
  {
    && (forall g :: g in repacked <==> LinesFor(data, q, fields, g) != [])
    && (forall g :: g in repacked ==> repacked[g] == LinesFor(data, q, fields, g))
  }

  /** One more result adds its lines at the end of its subgroup's list. */
  lemma LinesForSnoc(data: seq<AggregationResult>, q: map<string, seq<string>>, fields: seq<string>, n: nat, g: string)
    requires n < |data|
    ensures LinesFor(data[..n + 1], q, fields, g) == LinesFor(data[..n], q, fields, g) + Extra(Contribution(data[n], q, fields), g)
  {
    assert data[..n + 1][..n] == data[..n];
  }

  /** The subgroup lists after one contribution: its lines appended to its subgroup, if it has any. */
  function Appended(repacked: map<string, seq<string>>, c: Option<(string, seq<string>)>): (next: map<string, seq<string>>)
    ensures forall g :: g in next <==> g in repacked || Extra(c, g) != []
    ensures forall g :: g in next ==> next[g] == (if g in repacked then repacked[g] else []) + Extra(c, g)
  {
    if c.Some? && c.value.1 != [] then
      repacked[c.value.0 := (if c.value.0 in repacked then repacked[c.value.0] else []) + c.value.1]
    else repacked
  }

  /** The configured fields joined with the slice's elements, as the forJoin loop builds them. */
  method JoinFields(fields: seq<string>, elems: seq<Value>) returns (line: string)
    requires |fields| == |elems|
    ensures line == FieldsLine(fields, elems)
  {
    var forJoin: seq<string> := [];
    for i := 0 to |fields|
      invariant forJoin == seq(i, k requires 0 <= k < i => FieldPart(fields[k], elems[k]))
    {
      forJoin := forJoin + [fields[i] + ":" + InterfaceToString(elems[i])];
    }
    line := Join(forJoin, '+');
  }

  /** One more configured metric adds its line at the end. */
  lemma MetricLinesSnoc(entries: seq<Entry>, metrics: seq<string>, j: nat, fields: seq<string>)
    requires j < |metrics|
    ensures MetricLines(entries, metrics[..j + 1], fields) == MetricLines(entries, metrics[..j], fields) + MetricLine(entries, metrics[j], fields)
  {
    assert metrics[..j + 1][..j] == metrics[..j];
  }

  /**
   * The loop over the configured metrics of a map result: the lines they
   * contribute, or a panic at the first metric that holds nil.
   */
  method MapLines(entries: seq<Entry>, metrics: seq<string>, fields: seq<string>)
    returns (lines: seq<string>, panicked: bool)
    ensures panicked <==> NilMetric(entries, metrics)
    ensures !panicked ==> lines == MetricLines(entries, metrics, fields)
  {
    lines := [];
    for j := 0 to |metrics|
      invariant lines == MetricLines(entries, metrics[..j], fields)
      invariant !NilMetric(entries, metrics[..j])
    {
      MetricLinesSnoc(entries, metrics, j, fields);
      var mapVal := Lookup(entries, metrics[j]);
      assert metrics[..j + 1][..j] == metrics[..j];
      if mapVal == Some(Nil) {
        assert NilMetric(entries, metrics[..j + 1]);
        NilMetricPrefix(entries, metrics, j + 1);
        return lines, true;
      }
      if mapVal.Some? {
        var value := mapVal.value;
        if IsSlice(value) {
          var elems := Elements(value);
          if |fields| != 0 && |fields| == |elems| {
            var line := JoinFields(fields, elems);
            lines := lines + [line];
          }
        } else if !value.Map? {
          lines := lines + [metrics[j] + ":" + InterfaceToString(value)];
        }
      }
    }
    assert metrics[..|metrics|] == metrics;
    return lines, false;
  }

  /** The body of the loop over the data for one result: its contribution, or a panic. */
  method RepackOne(item: AggregationResult, q: map<string, seq<string>>, fields: seq<string>)
    returns (c: Option<(string, seq<string>)>, panicked: bool)
    ensures panicked <==> Crashes(item, q)
    ensures !panicked ==> c == Contribution(item, q, fields)
  {
    var tags := TagsByName(item.tags);
    if "aggregate" !in tags {
      return None, false;
    }
    var root := tags["aggregate"];
    if root !in q {
      return None, false;
    }
    var metricsName := q[root];
    var subgroup := GetSubgroupName(tags);
    if subgroup.Failure? {
      return None, false;
    }
    var rv := item.result;
    var lines: seq<string> := [];
    if IsSlice(rv) {
      var elems := Elements(rv);
      if |metricsName| == 0 && |fields| != 0 && |fields| == |elems| {
        var line := JoinFields(fields, elems);
        lines := [line];
      }
    } else if rv.Map? {
      if |metricsName| != 0 {
        lines, panicked := MapLines(rv.entries, metricsName, fields);
        if panicked {
          return None, true;
        }
      }
    } else {
      lines := [root + ":" + InterfaceToString(rv)];
    }
    return Some((subgroup.value, lines)), false;
  }

  /**
   * send: every result's lines appended to its subgroup's list, in data order;
   * a subgroup is present only once some result has contributed a line to it.
   * send panics, returning nothing, exactly when some result has a configured
   * metric holding nil.
   */
  method Repack(items: seq<string>, fields: seq<string>, data: seq<AggregationResult>)
    returns (repacked: map<string, seq<string>>, panicked: bool)
    ensures panicked <==> AnyCrash(data, QueryItems(items))
    ensures !panicked ==>
              var q := QueryItems(items);
              && (forall g :: g in repacked <==> LinesFor(data, q, fields, g) != [])
              && (forall g :: g in repacked ==> repacked[g] == LinesFor(data, q, fields, g))
  {
    var q := BuildQueryItems(items);
    repacked := map[];
    assert data[..0] == [];
    for i := 0 to |data|
      invariant RepackedFrom(repacked, data[..i], q, fields)
      invariant !AnyCrash(data[..i], q)
    {
      var c, p := RepackOne(data[i], q, fields);
      assert data[..i + 1][..i] == data[..i];
      if p {
        assert AnyCrash(data[..i + 1], q);
        AnyCrashPrefix(data, q, i + 1);
        return repacked, true;
      }
      ghost var next := Appended(repacked, c);
      forall g
        ensures g in next <==> LinesFor(data[..i + 1], q, fields, g) != []
        ensures g in next ==> next[g] == LinesFor(data[..i + 1], q, fields, g)
      {
        LinesForSnoc(data, q, fields, i, g);
      }
      if c.Some? && c.value.1 != [] {
        var known := if c.value.0 in repacked then repacked[c.value.0] else [];
        repacked := repacked[c.value.0 := known + c.value.1];
      }
      assert repacked == next;
    }
    assert data[..|data|] == data;
    assert RepackedFrom(repacked, data, q, fields);
    return repacked, false;
  }

  // ---------------------------------------------------------------------------
  // Send: pushing the subgroups and deciding the outcome
  // ---------------------------------------------------------------------------

  /** What the hosts, in order, answer for one subgroup. */
  function Replies(subgroup: string, hosts: seq<string>, answer: (string, string) -> Reply): (rs: seq<Reply>)
    ensures |rs| == |hosts|
  {
    seq(|hosts|, i requires 0 <= i < |hosts| => answer(subgroup, hosts[i]))
  }

  /**
   * The errors sendPoint reports for one subgroup: a host that accepts ends
   * the loop, a cancelled context reports and ends it, any other failure
   * reports and moves on to the next host.
   */
  function SendErrors(replies: seq<Reply>): (errs: seq<string>)
    ensures |errs| <= |replies|
    decreases |replies|
  {
    if replies == [] then []
    else match replies[0]
      case Ok(_) => []
      case Cancelled(reason) => [reason]
      case Failed(reason) => [reason] + SendErrors(replies[1..])
  }

  /** No host accepted the subgroup, and every host was tried. */
  predicate Undelivered(replies: seq<Reply>)
  {
    forall i :: 0 <= i < |replies| ==> replies[i].Failed? || (replies[i].Cancelled? && i == |replies| - 1)
  }

  /** One error per host exactly when the subgroup was undelivered. */
  lemma {:induction false} SendErrorsFull(replies: seq<Reply>)
    ensures |SendErrors(replies)| == |replies| <==> Undelivered(replies)
    decreases |replies|
  {
    if replies != [] {
      SendErrorsFull(replies[1..]);
      if replies[0].Failed? {
        assert Undelivered(replies) <==> Undelivered(replies[1..]) by {
          if Undelivered(replies[1..]) {
            forall i | 0 < i < |replies|
              ensures replies[i].Failed? || (replies[i].Cancelled? && i == |replies| - 1)
            {
              assert replies[i] == replies[1..][i - 1];
            }
          }
        }
      }
    }
  }

  /** sendPoint: the hosts tried in order for one subgroup. */
  method SendPoint(subgroup: string, hosts: seq<string>, answer: (string, string) -> Reply) returns (errs: seq<string>)
    ensures errs == SendErrors(Replies(subgroup, hosts, answer))
  {
    ghost var replies := Replies(subgroup, hosts, answer);
    errs := [];
    for i := 0 to |hosts|
      invariant SendErrors(replies) == errs + SendErrors(replies[i..])
    {
      assert replies[i..] == [replies[i]] + replies[i + 1..];
      match answer(subgroup, hosts[i])
      case Ok(_) =>
        return;
      case Cancelled(reason) =>
        errs := errs + [reason];
        return;
      case Failed(reason) =>
        errs := errs + [reason];
    }
  }

  /** Every distinct error message the subgroups in `subgroups` report. */
  function Messages(subgroups: set<string>, hosts: seq<string>, answer: (string, string) -> Reply): set<string>
  {
    set g, m | g in subgroups && m in SendErrors(Replies(g, hosts, answer)) :: m
  }

  /**
   * Send's verdict as written: an error only when the number of DISTINCT
   * messages equals subgroups times hosts.
   */
  function AsWrittenVerdict(errs: set<string>, subgroups: nat, hosts: nat): (r: Option<set<string>>)
    ensures r.Some? <==> errs != {} && |errs| == subgroups * hosts
  {
    if |errs| > 0 && |errs| == subgroups * hosts then Some(errs) else None
  }

  /** A host that answers every request with the same failure. */
  function Answer500(subgroup: string, host: string): Reply
  {
    Failed("Bad response from agave: 500 Internal Server Error")
  }

  /**
   * One subgroup, two hosts that both answer with the same failure: every
   * send failed, yet the distinct-message count is 1, not 2, so Send as
   * written reports success.
   */
  lemma RepeatedFailureReportedAsSuccess()
    ensures Undelivered(Replies("g", ["h1", "h2"], Answer500))
    ensures AsWrittenVerdict(Messages({"g"}, ["h1", "h2"], Answer500), 1, 2).None?
  {
    var hosts := ["h1", "h2"];
    var msg := "Bad response from agave: 500 Internal Server Error";
    var rs := Replies("g", hosts, Answer500);
    assert rs[0] == Answer500("g", hosts[0]) == Failed(msg);
    assert rs[1] == Answer500("g", hosts[1]) == Failed(msg);
    assert rs[1..] == [Failed(msg)];
    assert SendErrors(rs[1..][1..]) == [];
    assert SendErrors(rs[1..]) == [msg];
    assert SendErrors(rs) == [msg, msg];
    var all := Messages({"g"}, hosts, Answer500);
    assert msg in all by {
      assert "g" in {"g"} && msg in SendErrors(Replies("g", hosts, Answer500));
    }
    forall m | m in all ensures m == msg {
      var g :| g in {"g"} && m in SendErrors(Replies(g, hosts, Answer500));
      assert g == "g";
    }
    assert all == {msg};
  }

  /** Adding a subgroup adds the messages it reported. */
  lemma MessagesAdd(visited: set<string>, g: string, hosts: seq<string>, answer: (string, string) -> Reply)
    ensures Messages(visited + {g}, hosts, answer) ==
              Messages(visited, hosts, answer) + set m | m in SendErrors(Replies(g, hosts, answer))
  {
  }

  /**
   * The running count: at most one error per host per subgroup so far, and
   * one per host exactly when every subgroup so far was undelivered.
   */
  lemma CountStep(count: nat, n: nat, hosts: nat, p: nat, before: bool, now: bool)
    requires count <= n * hosts && p <= hosts
    requires count == n * hosts <==> before
    requires p == hosts <==> now
    ensures count + p <= (n + 1) * hosts
    ensures count + p == (n + 1) * hosts <==> before && now
  {
    assert (n + 1) * hosts == n * hosts + hosts;
  }

  lemma ProductPositive(a: nat, b: nat)
    ensures a * b > 0 <==> a > 0 && b > 0
  {
    if a > 0 && b > 0 {
      assert a * b >= b;
    }
  }

  /** Every subgroup in the set went undelivered. */
  ghost predicate AllUndelivered(subgroups: set<string>, hosts: seq<string>, answer: (string, string) -> Reply)
  {
    forall g :: g in subgroups ==> Undelivered(Replies(g, hosts, answer))
  }

  /** A list has no more distinct elements than entries. */
  lemma {:induction false} DistinctAtMost(xs: seq<string>)
    ensures |set m | m in xs| <= |xs|
    decreases |xs|
  {
    if xs != [] {
      DistinctAtMost(xs[1..]);
      assert (set m | m in xs) == {xs[0]} + (set m | m in xs[1..]);
    }
  }

  /**
   * The distinct messages never outnumber subgroups × hosts, and reach that
   * number only when every subgroup was tried on every host and none accepted it.
   */
  lemma {:induction false} DistinctBound(subgroups: set<string>, hosts: seq<string>, answer: (string, string) -> Reply)
    ensures |Messages(subgroups, hosts, answer)| <= |subgroups| * |hosts|
    ensures |Messages(subgroups, hosts, answer)| == |subgroups| * |hosts| ==> AllUndelivered(subgroups, hosts, answer)
    decreases |subgroups|
  {
    if subgroups == {} {
      assert Messages(subgroups, hosts, answer) == {};
    } else {
      var g :| g in subgroups;
      var rest := subgroups - {g};
      assert rest + {g} == subgroups;
      DistinctBound(rest, hosts, answer);
      MessagesAdd(rest, g, hosts, answer);
      var pe := SendErrors(Replies(g, hosts, answer));
      DistinctAtMost(pe);
      SendErrorsFull(Replies(g, hosts, answer));
      var before := Messages(rest, hosts, answer);
      var added := set m | m in pe;
      assert Messages(subgroups, hosts, answer) == before + added;
      assert |before + added| <= |before| + |added|;
      assert |subgroups| == |rest| + 1;
      BoundStep(|Messages(subgroups, hosts, answer)|, |before|, |added|, |rest|, |hosts|);
      if |Messages(subgroups, hosts, answer)| == |subgroups| * |hosts| {
        assert AllUndelivered(rest, hosts, answer) && Undelivered(Replies(g, hosts, answer));
        forall g' | g' in subgroups ensures Undelivered(Replies(g', hosts, answer)) {
          if g' != g { assert g' in rest; }
        }
      }
    }
  }

  /** The counting step of DistinctBound: one more subgroup adds at most one message per host. */
  lemma BoundStep(total: nat, a: nat, b: nat, n: nat, h: nat)
    requires total <= a + b && a <= n * h && b <= h
    ensures total <= (n + 1) * h
    ensures total == (n + 1) * h ==> a == n * h && b == h
  {
    assert (n + 1) * h == n * h + h;
  }

  /**
   * Send as written reports an error only when every subgroup was tried on
   * every host and none accepted it, so its error is never a false alarm; it
   * only misses failures (see RepeatedFailureReportedAsSuccess).
   */
  lemma AsWrittenErrorOnlyWhenUndelivered(repacked: map<string, seq<string>>, hosts: seq<string>, answer: (string, string) -> Reply)
    ensures AsWrittenVerdict(Messages(repacked.Keys, hosts, answer), |repacked|, |hosts|).Some? ==>
              && |repacked| > 0 && |hosts| > 0
              && forall g :: g in repacked ==> Undelivered(Replies(g, hosts, answer))
  {
    DistinctBound(repacked.Keys, hosts, answer);
    ProductPositive(|repacked|, |hosts|);
    assert |repacked.Keys| == |repacked|;
  }

  /** What the error loop has gathered after the subgroups in `visited`. */
  ghost predicate Tally(count: nat, errs: set<string>, visited: set<string>, hosts: seq<string>, answer: (string, string) -> Reply)
  {
    && count <= |visited| * |hosts|
    && (count == |visited| * |hosts| <==> AllUndelivered(visited, hosts, answer))
    && errs == Messages(visited, hosts, answer)
  }

  /** Gathering one more subgroup's errors keeps the tally. */
  lemma TallyStep(count: nat, errs: set<string>, visited: set<string>, g: string,
                  hosts: seq<string>, answer: (string, string) -> Reply)
    requires Tally(count, errs, visited, hosts, answer) && g !in visited
    ensures var pe := SendErrors(Replies(g, hosts, answer));
            Tally(count + |pe|, errs + (set m | m in pe), visited + {g}, hosts, answer)
  {
    var pe := SendErrors(Replies(g, hosts, answer));
    SendErrorsFull(Replies(g, hosts, answer));
    assert |visited + {g}| == |visited| + 1;
    CountStep(count, |visited|, |hosts|, |pe|,
              AllUndelivered(visited, hosts, answer), Undelivered(Replies(g, hosts, answer)));
    assert AllUndelivered(visited + {g}, hosts, answer) <==>
             AllUndelivered(visited, hosts, answer) && Undelivered(Replies(g, hosts, answer));
    MessagesAdd(visited, g, hosts, answer);
  }

  /**
   * Send, with the verdict the count evidently intends: an error exactly when
   * there were subgroups and hosts and every subgroup was tried on every host
   * and none accepted it, carrying every distinct message reported. A
   * cancellation before the last host stops the subgroup early, so it
   * reports fewer errors than hosts and does not count as undelivered.
   */
  method Send(repacked: map<string, seq<string>>, hosts: seq<string>, answer: (string, string) -> Reply)
    returns (r: Option<set<string>>)
    ensures r.Some? <==>
              && |repacked| > 0 && |hosts| > 0
              && forall g :: g in repacked ==> Undelivered(Replies(g, hosts, answer))
    ensures r.Some? ==> r.value == Messages(repacked.Keys, hosts, answer)
  {
    var errs: set<string> := {};
    var count: nat := 0;
    var unvisited := repacked.Keys;
    ghost var visited: set<string> := {};
    while unvisited != {}
      invariant unvisited !! visited && unvisited + visited == repacked.Keys
      invariant Tally(count, errs, visited, hosts, answer)
      decreases unvisited
    {
      var g :| g in unvisited;
      var pe := SendPoint(g, hosts, answer);
      TallyStep(count, errs, visited, g, hosts, answer);
      count := count + |pe|;
      errs := errs + (set m | m in pe);
      visited := visited + {g};
      unvisited := unvisited - {g};
    }
    assert visited == repacked.Keys && |visited| == |repacked|;
    ProductPositive(|repacked|, |hosts|);
    if count > 0 && count == |repacked| * |hosts| {
      return Some(errs);
    }
    return None;
  }
}
