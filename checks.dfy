/**
 * The remote check definition of the juggler sender and the seven attribute
 * reconcilers of senders/juggler/api.go, as functions on values. Each `Sync*`
 * function is what one `ensure*` method does to the check once the sender's
 * own default has been written; the methods themselves live in JugglerSender
 * and are proved equal to these functions.
 */
module Checks {
  import opened Wrappers
  import opened GoValues
  import opened GoStrings

  const DefaultTag := "combaine"
  const DefaultTTL := 900
  const DefaultMethod := "GOLEM"
  const DefaultNamespace := "combaine"
  const ChildType := "HOST"

  /** fmt.Sprintf("%v", v): how ensureAggregator compares limit values. Not modelled. */
  const Stringify: Value -> string

  /** jugglerFlapConfig. `enable` is not part of the JSON form. */
  datatype Flap = Flap(enable: int, boostTime: int, stableTime: int, criticalTime: int)

  const ZeroFlap := Flap(0, 0, 0, 0)

  /** aggKWArgs: the ignore-nodata flag and the ordered limit rules. */
  datatype AggKWArgs = AggKWArgs(ignoreNoData: int, limits: seq<map<string, Value>>)

  /** jugglerChildrenCheck. */
  datatype Child = Child(instance: string, host: string, kind: string, service: string)

  /** jugglerCheck; `update` is the dirty flag, never sent to the backend. */
  datatype Check = Check(
    update: bool,
    host: string,
    service: string,
    description: string,
    aggregator: string,
    kwargs: AggKWArgs,
    ttl: int,
    tags: seq<string>,
    methods: seq<string>,
    children: seq<Child>,
    flap: Option<Flap>,
    namespace: string)

  /** Go's zero jugglerCheck. */
  const EmptyCheck := Check(false, "", "", "", "", AggKWArgs(0, []), 0, [], [], [], None, "")

  /** The fields of the sender's configuration that reconciliation reads or defaults. */
  datatype Config = Config(
    host: string,
    checkName: string,
    description: string,
    ttl: int,
    aggregator: string,
    kwargs: AggKWArgs,
    checkMethod: string,
    methods: seq<string>,
    flap: Option<Flap>,
    checksOptions: map<string, Flap>,
    tags: seq<string>,
    namespace: string,
    token: string,
    jHosts: seq<string>)

  // ---------------------------------------------------------------------------
  // The sender's defaults (written back into the sender by the ensure* methods)
  // ---------------------------------------------------------------------------

  function TTLOrDefault(ttl: int): int { if ttl == 0 then DefaultTTL else ttl }

  function DescriptionOrDefault(description: string, checkName: string): string
  {
    if description == "" then checkName else description
  }

  function MethodsOrDefault(methods: seq<string>, checkMethod: string): (r: seq<string>)
    ensures |r| > 0
  {
    if |methods| != 0 then methods
    else if checkMethod != "" then Split(checkMethod, ',')
    else [DefaultMethod]
  }

  function TagsOrDefault(tags: seq<string>): seq<string>
  {
    if |tags| == 0 then [DefaultTag] else tags
  }

  function NamespaceOrDefault(namespace: string): string
  {
    if namespace == "" then DefaultNamespace else namespace
  }

  /** The configuration after every ensure* method has written its default. */
  function Normalize(cfg: Config): (d: Config)
    ensures Normalized(d)
    ensures d.host == cfg.host && d.checkName == cfg.checkName && d.token == cfg.token
    ensures d.flap == cfg.flap && d.checksOptions == cfg.checksOptions && d.kwargs == cfg.kwargs
  {
    cfg.(ttl := TTLOrDefault(cfg.ttl),
         description := DescriptionOrDefault(cfg.description, cfg.checkName),
         methods := MethodsOrDefault(cfg.methods, cfg.checkMethod),
         tags := TagsOrDefault(cfg.tags),
         namespace := NamespaceOrDefault(cfg.namespace))
  }

  predicate Normalized(d: Config)
  {
    && d.ttl != 0
    && (d.description == "" ==> d.checkName == "")
    && |d.methods| > 0
    && |d.tags| > 0
    && d.namespace != ""
  }

  /** Writing the defaults a second time changes nothing. */
  lemma NormalizeIdempotent(cfg: Config)
    ensures Normalize(Normalize(cfg)) == Normalize(cfg)
  {
  }

  // ---------------------------------------------------------------------------
  // ensureTTL, ensureDescription, ensureNamespace
  // ---------------------------------------------------------------------------

  function SyncTTL(c: Check, ttl: int): (r: Check)
    ensures r.ttl == ttl
    ensures r.update == (c.update || c.ttl != ttl)
    ensures r == c.(ttl := ttl, update := r.update)
  {
    if c.ttl != ttl then c.(update := true, ttl := ttl) else c
  }

  function SyncDescription(c: Check, description: string): (r: Check)
    ensures description != "" ==> r.description == description
    ensures description == "" ==> r == c
    ensures r.update == (c.update || (description != "" && c.description != description))
    ensures r == c.(description := r.description, update := r.update)
  {
    if c.description != description && description != "" then
      c.(update := true, description := description)
    else c
  }

  /** The namespace is enforced only when an OAuth token is configured. */
  function SyncNamespace(c: Check, namespace: string, token: string): (r: Check)
    ensures token != "" ==> r.namespace == namespace
    ensures token == "" ==> r == c
    ensures r.update == (c.update || (token != "" && c.namespace != namespace))
    ensures r == c.(namespace := r.namespace, update := r.update)
  {
    if token != "" && c.namespace != namespace then c.(update := true, namespace := namespace)
    else c
  }

  // ---------------------------------------------------------------------------
  // ensureAggregator
  // ---------------------------------------------------------------------------

  /** The check's limit rule lacks the desired key or shows its value differently. */
  predicate LimitDiffers(have: map<string, Value>, want: map<string, Value>, k: string)
    requires k in want
  {
    k !in have || Stringify(have[k]) != Stringify(want[k])
  }

  /** The aggregator arguments of the check are out of date. */
  predicate AggregatorOutdated(have: AggKWArgs, want: AggKWArgs)
  {
    || have.ignoreNoData != want.ignoreNoData
    || |have.limits| != |want.limits|
    || exists i, k :: 0 <= i < |want.limits| && k in want.limits[i] && LimitDiffers(have.limits[i], want.limits[i], k)
  }

  function SyncAggregator(c: Check, aggregator: string, want: AggKWArgs): (r: Check)
    ensures AggregatorOutdated(c.kwargs, want) ==> r == c.(update := true, aggregator := aggregator, kwargs := want)
    ensures !AggregatorOutdated(c.kwargs, want) ==> r == c
  {
    if AggregatorOutdated(c.kwargs, want) then c.(update := true, aggregator := aggregator, kwargs := want)
    else c
  }

  /** The check's limit rules cut down to the keys the desired rules name. */
  function RestrictLimits(have: seq<map<string, Value>>, want: seq<map<string, Value>>): (r: seq<map<string, Value>>)
    requires |have| == |want|
    ensures |r| == |have|
    ensures forall i :: 0 <= i < |r| ==> r[i].Keys <= want[i].Keys
  {
    seq(|have|, i requires 0 <= i < |have| => map k | k in have[i] && k in want[i] :: have[i][k])
  }

  /** Keys present only in the check's limit rules never make it outdated. */
  lemma CheckOnlyKeysIgnored(have: AggKWArgs, want: AggKWArgs)
    requires |have.limits| == |want.limits|
    ensures AggregatorOutdated(have, want) ==
            AggregatorOutdated(have.(limits := RestrictLimits(have.limits, want.limits)), want)
  {
    var cut := have.(limits := RestrictLimits(have.limits, want.limits));
    forall i, k | 0 <= i < |want.limits| && k in want.limits[i]
      ensures LimitDiffers(have.limits[i], want.limits[i], k) == LimitDiffers(cut.limits[i], want.limits[i], k)
    {
    }
  }

  // ---------------------------------------------------------------------------
  // ensureMethods
  // ---------------------------------------------------------------------------

  /** Methods are compared as sets of equal size. */
  predicate MethodsOutdated(have: seq<string>, want: seq<string>)
  {
    |have| != |want| || exists m :: m in want && m !in have
  }

  function SyncMethods(c: Check, want: seq<string>): (r: Check)
    ensures MethodsOutdated(c.methods, want) ==> r == c.(update := true, methods := want)
    ensures !MethodsOutdated(c.methods, want) ==> r == c
  {
    if MethodsOutdated(c.methods, want) then c.(update := true, methods := want) else c
  }

  /** The same methods in another order are left alone. */
  lemma ReorderedMethodsKept(c: Check, want: seq<string>)
    requires |c.methods| == |want| && multiset(c.methods) == multiset(want)
    ensures SyncMethods(c, want) == c
  {
    forall m | m in want ensures m in c.methods {
      assert m in multiset(want);
    }
  }

  // ---------------------------------------------------------------------------
  // ensureFlap
  // ---------------------------------------------------------------------------

  /** The check's flap settings as compared: a missing one is zero, `enable` forced to 1. */
  function CurrentFlap(c: Check): Flap
  {
    (if c.flap.Some? then c.flap.value else ZeroFlap).(enable := 1)
  }

  /**
   * The per-service option is looked up by the check's own `service` field. An
   * enabled option wins, a disabled one keeps the check's settings; without an
   * option an enabled global setting applies; otherwise flap detection is off.
   */
  function SyncFlap(c: Check, options: map<string, Flap>, global: Option<Flap>): (r: Check)
    ensures c.service in options && options[c.service].enable == 1 ==>
              r.flap == Some(options[c.service]) && r.update == (c.update || CurrentFlap(c) != options[c.service])
    ensures c.service in options && options[c.service].enable != 1 ==>
              r.flap == Some(CurrentFlap(c)) && r.update == c.update
    ensures c.service !in options && global.Some? && global.value.enable == 1 ==>
              r.flap == global && r.update == (c.update || CurrentFlap(c) != global.value)
    ensures c.service !in options && !(global.Some? && global.value.enable == 1) ==>
              r.flap == None && r.update == c.update
    ensures r == c.(flap := r.flap, update := r.update)
  {
    var cur := CurrentFlap(c);
    if c.service in options then
      var f := options[c.service];
      if f.enable == 1 && cur != f then c.(update := true, flap := Some(f))
      else c.(flap := Some(cur))
    else if global.Some? && global.value.enable == 1 then
      if cur != global.value then c.(update := true, flap := global)
      else c.(flap := Some(cur))
    else c.(flap := None)
  }

  // ---------------------------------------------------------------------------
  // ensureTags
  // ---------------------------------------------------------------------------

  /** Desired tags the check lacks, in desired order (a repeated desired tag repeats). */
  function Missing(want: seq<string>, have: seq<string>): (r: seq<string>)
    ensures forall t :: t in r <==> t in want && t !in have
    ensures |r| <= |want|
    decreases |want|
  {
    if want == [] then []
    else
      var last := want[|want| - 1];
      Missing(want[..|want| - 1], have) + (if last in have then [] else [last])
  }

  function SyncTags(c: Check, want: seq<string>): Check
  {
    if |c.tags| == 0 then c.(update := true, tags := want)
    else
      var add := Missing(want, c.tags);
      if add == [] then c else c.(update := true, tags := c.tags + add)
  }

  /**
   * Tags only grow: the check's tags stay a prefix of the result, every desired
   * tag ends up present, only desired tags are added, and the flag is raised
   * exactly when the check had no tags or lacked a desired one.
   */
  lemma TagsMerged(c: Check, want: seq<string>)
    ensures var r := SyncTags(c, want);
            && r == c.(tags := r.tags, update := r.update)
            && (|c.tags| > 0 ==> c.tags <= r.tags)
            && (|c.tags| == 0 ==> r.tags == want)
            && (forall t :: t in want ==> t in r.tags)
            && (forall t :: t in r.tags ==> t in c.tags || t in want)
            && r.update == (c.update || |c.tags| == 0 || exists t :: t in want && t !in c.tags)
  {
    var r := SyncTags(c, want);
    if |c.tags| > 0 {
      var add := Missing(want, c.tags);
      forall t | t in want ensures t in r.tags {
        if t !in c.tags { assert t in add; }
      }
      if add != [] {
        assert add[0] in want && add[0] !in c.tags;
      }
    }
  }

  // ---------------------------------------------------------------------------
  // The seven reconcilers in the order ensureCheck runs them (api.go:190-203)
  // ---------------------------------------------------------------------------

  function Reconcile(d: Config, c: Check): Check
  {
    var c1 := SyncTTL(c, d.ttl);
    var c2 := SyncAggregator(c1, d.aggregator, d.kwargs);
    var c3 := SyncMethods(c2, d.methods);
    var c4 := SyncFlap(c3, d.checksOptions, d.flap);
    var c5 := SyncTags(c4, d.tags);
    var c6 := SyncDescription(c5, d.description);
    SyncNamespace(c6, d.namespace, d.token)
  }

  /** Some attribute of the check differs from the (normalized) desired state. */
  predicate Differs(d: Config, c: Check)
  {
    || c.ttl != d.ttl
    || AggregatorOutdated(c.kwargs, d.kwargs)
    || MethodsOutdated(c.methods, d.methods)
    || (c.service in d.checksOptions && d.checksOptions[c.service].enable == 1
          && CurrentFlap(c) != d.checksOptions[c.service])
    || (c.service !in d.checksOptions && d.flap.Some? && d.flap.value.enable == 1
          && CurrentFlap(c) != d.flap.value)
    || |c.tags| == 0
    || (exists t :: t in d.tags && t !in c.tags)
    || (d.description != "" && c.description != d.description)
    || (d.token != "" && c.namespace != d.namespace)
  }

  /**
   * Reconciliation raises the dirty flag exactly when some attribute differed,
   * and never touches the identity, the children or the flag's other sources.
   */
  lemma ReconcileDirtyIff(d: Config, c: Check)
    ensures var r := Reconcile(d, c);
            && r.update == (c.update || Differs(d, c))
            && r.host == c.host && r.service == c.service && r.children == c.children
  {
    var c1 := SyncTTL(c, d.ttl);
    var c2 := SyncAggregator(c1, d.aggregator, d.kwargs);
    var c3 := SyncMethods(c2, d.methods);
    var c4 := SyncFlap(c3, d.checksOptions, d.flap);
    TagsMerged(c4, d.tags);
    assert CurrentFlap(c3) == CurrentFlap(c);
  }

  /**
   * Reconciling an already reconciled check again, under the same service
   * name, changes nothing and does not raise the flag. A whole second run of
   * ensureCheck needs more than this (the sender's SecondRunIssuesNoUpdate).
   */
  lemma ReconcileIdempotent(d: Config, c: Check)
    requires Normalized(d)
    ensures var r := Reconcile(d, c).(update := false);
            Reconcile(d, r) == r
  {
    var c1 := SyncTTL(c, d.ttl);
    var c2 := SyncAggregator(c1, d.aggregator, d.kwargs);
    var c3 := SyncMethods(c2, d.methods);
    var c4 := SyncFlap(c3, d.checksOptions, d.flap);
    var c5 := SyncTags(c4, d.tags);
    TagsMerged(c4, d.tags);
    var r := Reconcile(d, c).(update := false);
    ReconcileDirtyIff(d, r);
    assert !AggregatorOutdated(r.kwargs, d.kwargs) by {
      if AggregatorOutdated(c1.kwargs, d.kwargs) {
        assert r.kwargs == d.kwargs;
      } else {
        assert r.kwargs == c1.kwargs;
      }
    }
    assert !MethodsOutdated(r.methods, d.methods);
    assert r.flap == c4.flap && r.service == c.service;
    assert forall t :: t in d.tags ==> t in r.tags;
    assert !Differs(d, r);
    TagsMerged(r, d.tags);
    assert SyncFlap(r, d.checksOptions, d.flap) == r;
  }
}
