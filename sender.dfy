/**
 * The juggler sender's check reconciliation (senders/juggler/api.go): the
 * seven ensure* methods, which write the sender's defaults into its own
 * configuration and bring one check up to date; ensureCheck, which walks the
 * events of one run, reconciles each service once, links new children and
 * posts every dirty check; and the flap merge at the end of getCheck.
 *
 * The trigger loop of ensureCheck is specified by `Triggers`, a fold of `Step`
 * over the events; the lemmas below are about that fold.
 */
module JugglerSender {
  import opened Wrappers
  import opened Checks
  import opened GoStrings
  import opened HostFanout
  import TtlCache

  /** The two fields of a juggler event that ensureCheck reads. */
  datatype Trigger = Trigger(host: string, service: string)

  /** The childSet key of a child host under a service. */
  function ChildKey(host: string, service: string): string
  {
    host + ":" + service
  }

  /** The keys of the children the checks have before the trigger loop starts. */
  function ChildSet(services: map<string, Check>): set<string>
  {
    set s, c | s in services && c in services[s].children :: ChildKey(c.host, s)
  }

  function TriggerServices(ts: seq<Trigger>): set<string>
  {
    set t | t in ts :: t.service
  }

  /** The child linked for an event whose host:service pair is new. */
  function NewChild(t: Trigger): Child
  {
    Child("", t.host, ChildType, t.service)
  }

  /** The check a trigger starts from: the stored one, or a fresh dirty check. */
  function Current(services: map<string, Check>, service: string): Check
  {
    if service in services then services[service] else EmptyCheck.(update := true)
  }

  /**
   * State of the trigger loop: the service map, the `updated` set of services
   * already reconciled, and how many times the reconcilers have run.
   */
  datatype Pass = Pass(services: map<string, Check>, updated: set<string>, runs: nat)

  /** One iteration of the trigger loop; `d` is the sender's configuration with its defaults written. */
  function Step(d: Config, children: set<string>, p: Pass, t: Trigger): Pass
  {
    var check := Current(p.services, t.service);
    var reconciled := if t.service in p.updated then check else Reconcile(d, check);
    var linked := if ChildKey(t.host, t.service) in children then reconciled
                  else reconciled.(update := true, children := reconciled.children + [NewChild(t)]);
    Pass(if linked.update then p.services[t.service := linked.(host := d.host, service := t.service)] else p.services,
         p.updated + {t.service},
         if t.service in p.updated then p.runs else p.runs + 1)
  }

  /** The trigger loop from state `p` over the events `ts`. */
  function Triggers(d: Config, children: set<string>, p: Pass, ts: seq<Trigger>): Pass
    decreases |ts|
  {
    if ts == [] then p else Triggers(d, children, Step(d, children, p, ts[0]), ts[1..])
  }

  /**
   * The reconcilers run once per distinct service: afterwards `updated` holds
   * exactly the services of the events, and the number of runs grew by the
   * number of those services not reconciled before.
   */
  /** One step records its service and counts a run only for a service not reconciled before. */
  lemma StepBookkeeping(d: Config, children: set<string>, p: Pass, t: Trigger)
    ensures Step(d, children, p, t).updated == p.updated + {t.service}
    ensures Step(d, children, p, t).runs == if t.service in p.updated then p.runs else p.runs + 1
  {
  }

  lemma TriggerServicesCons(ts: seq<Trigger>)
    requires ts != []
    ensures TriggerServices(ts) == {ts[0].service} + TriggerServices(ts[1..])
  {
    assert forall t :: t in ts <==> t == ts[0] || t in ts[1..];
  }

  lemma NewServiceCounted(s: string, rest: set<string>, before: set<string>)
    requires s !in before
    ensures |({s} + rest) - before| == 1 + |rest - (before + {s})|
  {
    assert ({s} + rest) - before == {s} + (rest - (before + {s}));
  }

  /**
   * The reconcilers run once per distinct service: afterwards `updated` holds
   * exactly the services of the events, and the number of runs grew by the
   * number of those services not reconciled before.
   */
  lemma {:induction false} ReconciledOncePerService(d: Config, children: set<string>, p: Pass, ts: seq<Trigger>)
    ensures var q := Triggers(d, children, p, ts);
            && q.updated == p.updated + TriggerServices(ts)
            && q.runs == p.runs + |TriggerServices(ts) - p.updated|
    decreases |ts|
  {
    if ts != [] {
      var s := ts[0].service;
      var p' := Step(d, children, p, ts[0]);
      StepBookkeeping(d, children, p, ts[0]);
      ReconciledOncePerService(d, children, p', ts[1..]);
      TriggerServicesCons(ts);
      if s !in p.updated {
        NewServiceCounted(s, TriggerServices(ts[1..]), p.updated);
      } else {
        assert TriggerServices(ts) - p.updated == TriggerServices(ts[1..]) - p'.updated;
      }
    }
  }

  /** A fresh run reconciles each service of the events exactly once. */
  lemma RunsEqualServices(d: Config, children: set<string>, services: map<string, Check>, ts: seq<Trigger>)
    ensures Triggers(d, children, Pass(services, {}, 0), ts).runs == |TriggerServices(ts)|
  {
    ReconciledOncePerService(d, children, Pass(services, {}, 0), ts);
  }

  /** The children a service had when the loop reached state `p`. */
  function Prior(services: map<string, Check>, s: string): seq<Child>
  {
    if s in services then services[s].children else []
  }

  /** `c` is the child linked for an event on `s` whose pair was not among the prior children. */
  predicate Linked(children: set<string>, ts: seq<Trigger>, s: string, c: Child)
  {
    c == NewChild(Trigger(c.host, s)) && Trigger(c.host, s) in ts && ChildKey(c.host, s) !in children
  }

  /** What one step does to the children: the shape ChildrenLinked states for the whole loop. */
  lemma StepChildren(d: Config, children: set<string>, p: Pass, t: Trigger)
    ensures var q := Step(d, children, p, t).services;
            && (forall s :: s in p.services ==> s in q)
            && (forall s :: s in q ==> Prior(p.services, s) <= q[s].children)
            && (forall s, j :: s in q && |Prior(p.services, s)| <= j < |q[s].children| ==>
                  Linked(children, [t], s, q[s].children[j]))
            && (ChildKey(t.host, t.service) !in children ==>
                  t.service in q && NewChild(t) in q[t.service].children)
  {
    ReconcileDirtyIff(d, Current(p.services, t.service));
  }

  /**
   * Children are only appended: every service keeps its children as a prefix,
   * everything after that prefix was linked for an event whose host:service
   * pair was new, and every such event's child is there at the end.
   */
  lemma {:induction false} ChildrenLinked(d: Config, children: set<string>, p: Pass, ts: seq<Trigger>)
    ensures var q := Triggers(d, children, p, ts).services;
            && (forall s :: s in p.services ==> s in q)
            && (forall s :: s in q ==> Prior(p.services, s) <= q[s].children)
            && (forall s, j :: s in q && |Prior(p.services, s)| <= j < |q[s].children| ==>
                  Linked(children, ts, s, q[s].children[j]))
            && (forall t :: t in ts && ChildKey(t.host, t.service) !in children ==>
                  t.service in q && NewChild(t) in q[t.service].children)
    decreases |ts|
  {
    if ts != [] {
      var t0 := ts[0];
      var p' := Step(d, children, p, t0);
      StepChildren(d, children, p, t0);
      ChildrenLinked(d, children, p', ts[1..]);
      var q := Triggers(d, children, p, ts).services;
      assert q == Triggers(d, children, p', ts[1..]).services;
      forall s | s in q
        ensures Prior(p.services, s) <= q[s].children
      {
        assert Prior(p.services, s) <= Prior(p'.services, s);
      }
      forall s, j | s in q && |Prior(p.services, s)| <= j < |q[s].children|
        ensures Linked(children, ts, s, q[s].children[j])
      {
        var c := q[s].children[j];
        if j >= |Prior(p'.services, s)| {
          assert Linked(children, ts[1..], s, c);
          assert Trigger(c.host, s) in ts[1..];
        } else {
          assert s in p'.services;
          assert c == p'.services[s].children[j];
          assert Linked(children, [t0], s, c);
        }
      }
      forall t | t in ts && ChildKey(t.host, t.service) !in children
        ensures t.service in q && NewChild(t) in q[t.service].children
      {
        if t == t0 {
          assert NewChild(t0) in Prior(p'.services, t0.service);
        } else {
          assert t in ts[1..];
        }
      }
    }
  }

  /**
   * Only the services of the events are touched, and a check that changed is
   * dirty and carries the sender's host and its own service name.
   */
  lemma {:induction false} ChangedChecksStamped(d: Config, children: set<string>, p: Pass, ts: seq<Trigger>)
    ensures var q := Triggers(d, children, p, ts).services;
            && (forall s :: s in p.services ==> s in q)
            && (forall s :: s in q && (s !in p.services || q[s] != p.services[s]) ==>
                  s in TriggerServices(ts) && q[s].update && q[s].host == d.host && q[s].service == s)
    decreases |ts|
  {
    if ts != [] {
      var p' := Step(d, children, p, ts[0]);
      ChangedChecksStamped(d, children, p', ts[1..]);
      TriggerServicesCons(ts);
    }
  }

  /**
   * The child set is not extended inside the loop, so two events for the same
   * new host:service pair link the same child twice.
   */
  lemma DuplicateEventsLinkTwice(d: Config)
    ensures var t := Trigger("host", "svc");
            var q := Triggers(d, {}, Pass(map[], {}, 0), [t, t]).services;
            "svc" in q && q["svc"].children == [NewChild(t), NewChild(t)]
  {
    var t := Trigger("host", "svc");
    ReconcileDirtyIff(d, EmptyCheck.(update := true));
    var p1 := Step(d, {}, Pass(map[], {}, 0), t);
    assert p1.services["svc"].children == [NewChild(t)];
    assert [t, t][1..] == [t] && [t][1..] == [];
    assert Triggers(d, {}, Pass(map[], {}, 0), [t, t]) == Triggers(d, {}, p1, [t]);
    assert Triggers(d, {}, p1, [t]) == Triggers(d, {}, Step(d, {}, p1, t), []);
  }

  /**
   * A check created during the loop is reconciled before its service name is
   * set, so the per-service flap option is looked up under "" and the new
   * check gets the global setting instead.
   */
  lemma NewCheckMissesServiceFlap(d: Config, f: Flap)
    requires d.checksOptions == map["svc" := f] && f.enable == 1
    requires d.flap.None?
    ensures var q := Triggers(d, {}, Pass(map[], {}, 0), [Trigger("host", "svc")]).services;
            "svc" in q && q["svc"].flap.None?
  {
    var c := EmptyCheck.(update := true);
    var c1 := SyncTTL(c, d.ttl);
    var c2 := SyncAggregator(c1, d.aggregator, d.kwargs);
    var c3 := SyncMethods(c2, d.methods);
    assert c3.service == "";
    ReconcileDirtyIff(d, c);
  }

  // ---------------------------------------------------------------------------
  // A second run over what the first run stored
  // ---------------------------------------------------------------------------

  /** The stored checks as the backend hands them back: the dirty flag is never sent. */
  function Cleared(services: map<string, Check>): (r: map<string, Check>)
    ensures r.Keys == services.Keys
    ensures forall s :: s in r ==> r[s] == services[s].(update := false)
  {
    map s | s in services :: services[s].(update := false)
  }

  /** Every stored check carries the service it is stored under. */
  predicate KeyedByService(services: map<string, Check>)
  {
    forall s :: s in services ==> services[s].service == s
  }

  /**
   * The flap options cannot tell a new check's empty service name from its
   * real one: there is no option under "", and no service the events create
   * has an enabled option.
   */
  predicate NoNewServiceFlap(d: Config, services: map<string, Check>, ts: seq<Trigger>)
  {
    && "" !in d.checksOptions
    && forall t :: t in ts && t.service !in services && t.service in d.checksOptions ==>
         d.checksOptions[t.service].enable != 1
  }

  /** Differs reads neither the dirty flag, the host nor the children. */
  lemma DiffersIgnoresBookkeeping(d: Config, c: Check, c': Check)
    requires c'.ttl == c.ttl && c'.kwargs == c.kwargs && c'.methods == c.methods && c'.service == c.service
    requires c'.flap == c.flap && c'.tags == c.tags && c'.description == c.description && c'.namespace == c.namespace
    ensures Differs(d, c') == Differs(d, c)
  {
  }

  /** A reconciled check differs from nothing. */
  lemma ReconciledSettled(d: Config, c: Check)
    requires Normalized(d)
    ensures !Differs(d, Reconcile(d, c))
  {
    var r := Reconcile(d, c).(update := false);
    ReconcileIdempotent(d, c);
    ReconcileDirtyIff(d, r);
    DiffersIgnoresBookkeeping(d, r, Reconcile(d, c));
  }

  /** A settled check reconciled under "" is still settled under a service the options treat alike. */
  lemma RenamedSettled(d: Config, c: Check, s: string)
    requires !Differs(d, c) && c.service == ""
    requires "" !in d.checksOptions
    requires s in d.checksOptions ==> d.checksOptions[s].enable != 1
    ensures !Differs(d, c.(service := s))
  {
  }

  /**
   * The state of a first run: every service reconciled so far is stored under
   * its own name and settled, and every other one is as it was.
   */
  ghost predicate FirstRun(d: Config, services: map<string, Check>, p: Pass)
  {
    && (forall s :: s in p.updated ==> s in p.services && p.services[s].service == s && !Differs(d, p.services[s]))
    && (forall s :: s !in p.updated ==> (s in p.services <==> s in services))
    && (forall s :: s !in p.updated && s in services ==> p.services[s] == services[s])
  }

  /** The stored check of the event's service after a step, for a service not yet reconciled. */
  lemma FirstRunStepFresh(d: Config, services: map<string, Check>, children: set<string>, p: Pass, t: Trigger)
    requires Normalized(d) && KeyedByService(services) && FirstRun(d, services, p)
    requires "" !in d.checksOptions
    requires t.service !in services && t.service in d.checksOptions ==> d.checksOptions[t.service].enable != 1
    requires t.service !in p.updated
    ensures var q := Step(d, children, p, t);
            t.service in q.services && q.services[t.service].service == t.service && !Differs(d, q.services[t.service])
  {
    var s := t.service;
    var check := Current(p.services, s);
    var r := Reconcile(d, check);
    var q := Step(d, children, p, t);
    ReconcileDirtyIff(d, check);
    ReconciledSettled(d, check);
    if q.services != p.services {
      var stored := q.services[s];
      if s in services {
        DiffersIgnoresBookkeeping(d, r, stored);
      } else {
        RenamedSettled(d, r, s);
        DiffersIgnoresBookkeeping(d, r.(service := s), stored);
      }
    }
  }

  /** A step touches only the event's service. */
  lemma StepFrame(d: Config, children: set<string>, p: Pass, t: Trigger)
    ensures var q := Step(d, children, p, t);
            && q.updated == p.updated + {t.service}
            && (forall s :: s != t.service ==> (s in q.services <==> s in p.services))
            && (forall s :: s != t.service && s in q.services ==> q.services[s] == p.services[s])
  {
  }

  /** A service already reconciled stays settled: the step can only link a child to it. */
  lemma FirstRunStepAgain(d: Config, children: set<string>, p: Pass, t: Trigger)
    requires t.service in p.updated && t.service in p.services
    requires p.services[t.service].service == t.service && !Differs(d, p.services[t.service])
    ensures var q := Step(d, children, p, t);
            t.service in q.services && q.services[t.service].service == t.service && !Differs(d, q.services[t.service])
  {
    var q := Step(d, children, p, t);
    DiffersIgnoresBookkeeping(d, p.services[t.service], q.services[t.service]);
  }

  lemma FirstRunStep(d: Config, services: map<string, Check>, children: set<string>, p: Pass, t: Trigger)
    requires Normalized(d) && KeyedByService(services) && FirstRun(d, services, p)
    requires "" !in d.checksOptions
    requires t.service !in services && t.service in d.checksOptions ==> d.checksOptions[t.service].enable != 1
    ensures FirstRun(d, services, Step(d, children, p, t))
  {
    StepFrame(d, children, p, t);
    if t.service in p.updated {
      FirstRunStepAgain(d, children, p, t);
    } else {
      FirstRunStepFresh(d, services, children, p, t);
    }
  }

  lemma {:induction false} FirstRunSettles(d: Config, services: map<string, Check>, children: set<string>, p: Pass, ts: seq<Trigger>)
    requires Normalized(d) && KeyedByService(services) && FirstRun(d, services, p)
    requires NoNewServiceFlap(d, services, ts)
    ensures FirstRun(d, services, Triggers(d, children, p, ts))
    decreases |ts|
  {
    if ts != [] {
      FirstRunStep(d, services, children, p, ts[0]);
      assert forall t :: t in ts[1..] ==> t in ts;
      FirstRunSettles(d, services, children, Step(d, children, p, ts[0]), ts[1..]);
    }
  }

  /** A run whose every event finds its child linked and its check clean and settled changes nothing. */
  lemma {:induction false} SettledRunUnchanged(d: Config, children: set<string>, p: Pass, ts: seq<Trigger>)
    requires forall t :: t in ts ==>
               && ChildKey(t.host, t.service) in children && t.service in p.services
               && !p.services[t.service].update && !Differs(d, p.services[t.service])
    ensures Triggers(d, children, p, ts).services == p.services
    decreases |ts|
  {
    if ts != [] {
      var t := ts[0];
      ReconcileDirtyIff(d, p.services[t.service]);
      var p' := Step(d, children, p, t);
      assert p'.services == p.services;
      assert forall t' :: t' in ts[1..] ==> t' in ts;
      SettledRunUnchanged(d, children, p', ts[1..]);
    }
  }

  /**
   * Running the same events again over what the first run stored, with the
   * dirty flags cleared as the backend hands the checks back, changes nothing
   * and leaves no check dirty, so nothing is posted. This needs every stored
   * check to carry its own service name, and the flap options to treat a new
   * check's empty service name like its real one; NewCheckFlapDirtyOnSecondRun
   * shows a second run that is not quiet without the latter.
   */
  lemma SecondRunIssuesNoUpdate(cfg: Config, services: map<string, Check>, ts: seq<Trigger>)
    requires KeyedByService(services)
    requires NoNewServiceFlap(Normalize(cfg), services, ts)
    ensures var d := Normalize(cfg);
            var first := Cleared(Triggers(d, ChildSet(services), Pass(services, {}, 0), ts).services);
            var second := Triggers(d, ChildSet(first), Pass(first, {}, 0), ts).services;
            second == first && forall s :: !Dirty(second, s)
  {
    var d := Normalize(cfg);
    var start := Pass(services, {}, 0);
    var q1 := Triggers(d, ChildSet(services), start, ts);
    var first := Cleared(q1.services);
    FirstRunSettles(d, services, ChildSet(services), start, ts);
    ReconciledOncePerService(d, ChildSet(services), start, ts);
    ChildrenLinked(d, ChildSet(services), start, ts);
    forall t | t in ts
      ensures && ChildKey(t.host, t.service) in ChildSet(first) && t.service in first
              && !first[t.service].update && !Differs(d, first[t.service])
    {
      assert t.service in TriggerServices(ts);
      DiffersIgnoresBookkeeping(d, q1.services[t.service], first[t.service]);
      var key := ChildKey(t.host, t.service);
      if key in ChildSet(services) {
        var s, c :| s in services && c in services[s].children && key == ChildKey(c.host, s);
        assert Prior(services, s) <= q1.services[s].children;
        assert c in first[s].children;
      } else {
        assert NewChild(t) in first[t.service].children;
        assert ChildKey(NewChild(t).host, t.service) == key;
      }
    }
    SettledRunUnchanged(d, ChildSet(first), Pass(first, {}, 0), ts);
  }

  /**
   * Without the flap premise a second run is not quiet: a check created while
   * an enabled option exists for its service was stored without it (see
   * NewCheckMissesServiceFlap); stored under its service, it picks the option
   * up and is dirty again.
   */
  lemma NewCheckFlapDirtyOnSecondRun(d: Config, f: Flap)
    requires d.checksOptions == map["svc" := f] && f.enable == 1 && f != ZeroFlap.(enable := 1)
    requires d.flap.None?
    ensures var q := Triggers(d, {}, Pass(map[], {}, 0), [Trigger("host", "svc")]).services;
            "svc" in q && Reconcile(d, q["svc"].(update := false)).update
  {
    var ts := [Trigger("host", "svc")];
    var q := Triggers(d, {}, Pass(map[], {}, 0), ts).services;
    NewCheckMissesServiceFlap(d, f);
    ChangedChecksStamped(d, {}, Pass(map[], {}, 0), ts);
    ReconcileDirtyIff(d, q["svc"].(update := false));
  }

  // ---------------------------------------------------------------------------
  // The update loop (api.go:224-241)
  // ---------------------------------------------------------------------------

  predicate Dirty(services: map<string, Check>, s: string)
  {
    s in services && services[s].update
  }

  /**
   * What the update loop may have done, in whatever order the map was visited:
   * `posted` lists the dirty checks sent, each once; every post but possibly the
   * last succeeded; with no error every dirty check was posted, and an error is
   * the outcome of the last post.
   */
  ghost predicate UpdatesIssued(services: map<string, Check>, post: Check -> seq<Reply>,
                          posted: seq<string>, err: Option<UpdateError>)
  {
    && (forall i :: 0 <= i < |posted| ==> Dirty(services, posted[i]))
    && (forall i, j :: 0 <= i < j < |posted| ==> posted[i] != posted[j])
    && (forall i :: 0 <= i < |posted| && (i < |posted| - 1 || err.None?) ==>
          posted[i] in services && PostFrom(post(services[posted[i]]), {}) == None)
    && (err.None? ==> forall s :: Dirty(services, s) ==> s in posted)
    && (err.Some? ==> |posted| > 0 && posted[|posted| - 1] in services &&
                      err == PostFrom(post(services[posted[|posted| - 1]]), {}))
  }

  /** Something was posted exactly when some check was dirty: this decides the cache drop. */
  lemma PostedIffDirty(services: map<string, Check>, post: Check -> seq<Reply>,
                       posted: seq<string>, err: Option<UpdateError>)
    requires UpdatesIssued(services, post, posted, err)
    ensures |posted| > 0 <==> exists s :: Dirty(services, s)
  {
    if |posted| > 0 {
      assert Dirty(services, posted[0]);
    }
  }

  /**
   * The update loop: visit the services in some order and post each dirty check,
   * stopping at the first failure. `post(c)` stands for updateCheck's host loop
   * on `c`: the replies of the configured juggler hosts (`config.jHosts`), in
   * that order, to the request that posts `c`.
   */
  method PostDirty(services: map<string, Check>, post: Check -> seq<Reply>)
    returns (err: Option<UpdateError>, posted: seq<string>)
    ensures UpdatesIssued(services, post, posted, err)
  {
    posted := [];
    var unvisited := services.Keys;
    while unvisited != {}
      invariant unvisited <= services.Keys
      invariant forall i :: 0 <= i < |posted| ==> Dirty(services, posted[i]) && posted[i] !in unvisited
      invariant forall i, j :: 0 <= i < j < |posted| ==> posted[i] != posted[j]
      invariant forall i :: 0 <= i < |posted| ==> PostFrom(post(services[posted[i]]), {}) == None
      invariant forall s :: Dirty(services, s) && s !in unvisited ==> s in posted
      decreases unvisited
    {
      var s :| s in unvisited;
      unvisited := unvisited - {s};
      if services[s].update {
        posted := posted + [s];
        var e := PostUpdate(post(services[s]));
        if e.Some? {
          return e, posted;
        }
      }
    }
    return None, posted;
  }

  /** A service map from getCheck: a missing service reads as Go's zero check. */
  function Stored(services: map<string, Check>, s: string): Check
  {
    if s in services then services[s] else EmptyCheck
  }

  /** A flap setting the merge attaches: at least one of its timings is set. */
  predicate HasTimings(f: Flap)
  {
    f.boostTime != 0 || f.stableTime != 0 || f.criticalTime != 0
  }

  /**
   * The flap merge of getCheck (api.go:149-155) for the sender's host: a flap
   * setting is attached to its service only when some timing is non-zero;
   * every other check is left as decoded.
   */
  method AttachFlaps(services: map<string, Check>, flaps: map<string, Flap>) returns (r: map<string, Check>)
    ensures forall s :: s in r <==> s in services || (s in flaps && HasTimings(flaps[s]))
    ensures forall s :: s in flaps && HasTimings(flaps[s]) ==> r[s] == Stored(services, s).(flap := Some(flaps[s]))
    ensures forall s :: s in services && !(s in flaps && HasTimings(flaps[s])) ==> r[s] == services[s]
  {
    r := services;
    var unvisited := flaps.Keys;
    while unvisited != {}
      invariant unvisited <= flaps.Keys
      invariant forall s :: s in r <==> s in services || (s in flaps && s !in unvisited && HasTimings(flaps[s]))
      invariant forall s :: s in flaps && s !in unvisited && HasTimings(flaps[s]) ==>
                  r[s] == Stored(services, s).(flap := Some(flaps[s]))
      invariant forall s :: s in services && !(s in flaps && s !in unvisited && HasTimings(flaps[s])) ==>
                  r[s] == services[s]
      decreases unvisited
    {
      var s :| s in unvisited;
      var f := flaps[s];
      if f.stableTime != 0 || f.criticalTime != 0 || f.boostTime != 0 {
        var check := Stored(r, s);
        r := r[s := check.(flap := Some(f))];
      }
      unvisited := unvisited - {s};
    }
  }

  /** The map[string]struct{} the ensure* methods fill from a list before comparing. */
  method SetOf(xs: seq<string>) returns (have: set<string>)
    ensures forall x :: x in have <==> x in xs
  {
    have := {};
    for i := 0 to |xs|
      invariant forall x :: x in have <==> x in xs[..i]
    {
      have := have + {xs[i]};
    }
    assert xs[..|xs|] == xs;
  }

  /** The sender: its configuration, whose defaults the ensure* methods fill in. */
  class Sender {
    var config: Config

    constructor (cfg: Config)
      ensures config == cfg
    {
      config := cfg;
    }

    method EnsureTTL(c: Check) returns (r: Check)
      modifies this
      ensures config == old(config).(ttl := TTLOrDefault(old(config).ttl))
      ensures r == SyncTTL(c, config.ttl)
    {
      if config.ttl == 0 {
        config := config.(ttl := DefaultTTL);
      }
      r := c;
      if r.ttl != config.ttl {
        r := r.(update := true, ttl := config.ttl);
      }
    }

    method EnsureDescription(c: Check) returns (r: Check)
      modifies this
      ensures config == old(config).(description := DescriptionOrDefault(old(config).description, old(config).checkName))
      ensures r == SyncDescription(c, config.description)
    {
      if config.description == "" {
        config := config.(description := config.checkName);
      }
      r := c;
      if r.description != config.description && config.description != "" {
        r := r.(update := true, description := config.description);
      }
    }

    /** Compare the aggregator arguments limit by limit, stopping at the first difference. */
    method EnsureAggregator(c: Check) returns (r: Check)
      ensures r == SyncAggregator(c, config.aggregator, config.kwargs)
    {
      var want := config.kwargs;
      var outdated := false;
      if c.kwargs.ignoreNoData != want.ignoreNoData {
        outdated := true;
      }
      if |c.kwargs.limits| != |want.limits| {
        outdated := true;
      }
      if !outdated {
        label Scan:
        for i := 0 to |want.limits|
          invariant !outdated
          invariant forall i', k :: 0 <= i' < i && k in want.limits[i'] ==>
                      !LimitDiffers(c.kwargs.limits[i'], want.limits[i'], k)
        {
          var unvisited := want.limits[i].Keys;
          while unvisited != {}
            invariant unvisited <= want.limits[i].Keys
            invariant !outdated
            invariant forall k :: k in want.limits[i] && k !in unvisited ==>
                        !LimitDiffers(c.kwargs.limits[i], want.limits[i], k)
            decreases unvisited
          {
            var k :| k in unvisited;
            if k in c.kwargs.limits[i] {
              if Stringify(c.kwargs.limits[i][k]) != Stringify(want.limits[i][k]) {
                assert LimitDiffers(c.kwargs.limits[i], want.limits[i], k);
                outdated := true;
                break Scan;
              }
            } else {
              assert LimitDiffers(c.kwargs.limits[i], want.limits[i], k);
              outdated := true;
              break Scan;
            }
            unvisited := unvisited - {k};
          }
        }
      }
      r := c;
      if outdated {
        r := r.(update := true, aggregator := config.aggregator, kwargs := want);
      }
    }

    /** Compare methods as sets after checking the lengths. */
    method EnsureMethods(c: Check) returns (r: Check)
      modifies this
      ensures config == old(config).(methods := MethodsOrDefault(old(config).methods, old(config).checkMethod))
      ensures r == SyncMethods(c, config.methods)
    {
      if |config.methods| == 0 {
        if config.checkMethod != "" {
          config := config.(methods := Split(config.checkMethod, ','));
        } else {
          config := config.(methods := [DefaultMethod]);
        }
      }
      var want := config.methods;
      var outdated := false;
      if |c.methods| != |want| {
        outdated := true;
      } else {
        var have := SetOf(c.methods);
        for i := 0 to |want|
          invariant forall j :: 0 <= j < i ==> want[j] in c.methods
        {
          if want[i] !in have {
            outdated := true;
            break;
          }
        }
      }
      r := c;
      if outdated {
        r := r.(update := true, methods := want);
      }
    }

    method EnsureFlap(c: Check) returns (r: Check)
      ensures r == SyncFlap(c, config.checksOptions, config.flap)
    {
      var cur := (if c.flap.Some? then c.flap.value else ZeroFlap).(enable := 1);
      r := c.(flap := Some(cur));
      if c.service in config.checksOptions {
        var f := config.checksOptions[c.service];
        if f.enable == 1 && cur != f {
          r := r.(update := true, flap := Some(f));
        }
      } else if config.flap.Some? && config.flap.value.enable == 1 {
        if cur != config.flap.value {
          r := r.(update := true, flap := config.flap);
        }
      } else {
        r := r.(flap := None);
      }
    }

    /** Append, in order, every desired tag the check lacks; an empty list is replaced. */
    method EnsureTags(c: Check) returns (r: Check)
      modifies this
      ensures config == old(config).(tags := TagsOrDefault(old(config).tags))
      ensures r == SyncTags(c, config.tags)
    {
      if |config.tags| == 0 {
        config := config.(tags := [DefaultTag]);
      }
      r := AddMissingTags(c, config.tags);
    }

    /** The tag comparison of ensureTags: a set of the check's tags, then the desired tags it lacks appended. */
    static method AddMissingTags(c: Check, want: seq<string>) returns (r: Check)
      ensures r == SyncTags(c, want)
    {
      r := c;
      if |c.tags| == 0 {
        r := r.(update := true, tags := want);
        return;
      }
      var have := SetOf(c.tags);
      var tags := c.tags;
      var outdated := false;
      for i := 0 to |want|
        invariant tags == c.tags + Missing(want[..i], c.tags)
        invariant outdated <==> Missing(want[..i], c.tags) != []
      {
        assert want[..i + 1][..i] == want[..i] && want[..i + 1][i] == want[i];
        if want[i] !in have {
          outdated := true;
          tags := tags + [want[i]];
        }
      }
      assert want[..|want|] == want;
      if outdated {
        r := r.(update := true, tags := tags);
      }
    }

    method EnsureNamespace(c: Check) returns (r: Check)
      modifies this
      ensures config == old(config).(namespace := NamespaceOrDefault(old(config).namespace))
      ensures r == SyncNamespace(c, config.namespace, config.token)
    {
      if config.namespace == "" {
        config := config.(namespace := DefaultNamespace);
      }
      r := c;
      if config.token != "" && r.namespace != config.namespace {
        r := r.(update := true, namespace := config.namespace);
      }
    }

    /** The seven reconcilers in the order ensureCheck calls them. */
    method EnsureAll(c: Check) returns (r: Check)
      modifies this
      ensures config == Normalize(old(config))
      ensures r == Reconcile(Normalize(old(config)), c)
    {
      r := EnsureTTL(c);
      r := EnsureAggregator(r);
      r := EnsureMethods(r);
      r := EnsureFlap(r);
      r := EnsureTags(r);
      r := EnsureDescription(r);
      r := EnsureNamespace(r);
    }

    /** The childSet: the keys of the children the host's checks already have. */
    static method CollectChildren(services: map<string, Check>) returns (keys: set<string>)
      ensures keys == ChildSet(services)
    {
      keys := {};
      var unvisited := services.Keys;
      while unvisited != {}
        invariant unvisited <= services.Keys
        invariant keys == set s, c | s in services && s !in unvisited && c in services[s].children :: ChildKey(c.host, s)
        decreases unvisited
      {
        var s :| s in unvisited;
        ghost var before := keys;
        var children := services[s].children;
        for i := 0 to |children|
          invariant keys == before + set c | c in children[..i] :: ChildKey(c.host, s)
        {
          assert children[..i + 1] == children[..i] + [children[i]];
          keys := keys + {ChildKey(children[i].host, s)};
        }
        assert children[..|children|] == children;
        unvisited := unvisited - {s};
      }
    }

    /**
     * One iteration of the trigger loop of ensureCheck: reconcile the event's
     * check unless its service was reconciled already, link the event's host if
     * its key is not in `children`, and store the check if it is dirty.
     */
    method LinkTrigger(linked: map<string, Check>, updated: set<string>, ghost runs: nat, children: set<string>, t: Trigger)
      returns (next: map<string, Check>)
      modifies this
      requires t.service in updated ==> config == Normalize(config)
      ensures config == Normalize(old(config))
      ensures next == Step(config, children, Pass(linked, updated, runs), t).services
    {
      ghost var d := Normalize(config);
      var check := Current(linked, t.service);
      if t.service !in updated {
        check := EnsureAll(check);
      }
      assert check == if t.service in updated then Current(linked, t.service) else Reconcile(d, Current(linked, t.service));
      if ChildKey(t.host, t.service) !in children {
        check := check.(update := true, children := check.children + [NewChild(t)]);
      }
      next := linked;
      if check.update {
        check := check.(host := config.host, service := t.service);
        next := linked[t.service := check];
      }
    }

    /**
     * The trigger loop of ensureCheck over the host's service map: reconcile each
     * service once, link children whose host:service key is not in `children`,
     * and store every dirty check under its service.
     */
    method LinkTriggers(services: map<string, Check>, children: set<string>, triggers: seq<Trigger>)
      returns (linked: map<string, Check>)
      modifies this
      ensures config == if triggers == [] then old(config) else Normalize(old(config))
      ensures linked == Triggers(Normalize(old(config)), children, Pass(services, {}, 0), triggers).services
    {
      ghost var d := Normalize(config);
      ghost var whole := Triggers(d, children, Pass(services, {}, 0), triggers);
      NormalizeIdempotent(config);
      linked := services;
      var updated: set<string> := {};
      ghost var runs := 0;
      for i := 0 to |triggers|
        invariant config == if i == 0 then old(config) else d
        invariant updated == {} <==> i == 0
        invariant whole == Triggers(d, children, Pass(linked, updated, runs), triggers[i..])
      {
        assert triggers[i..][1..] == triggers[i + 1..];
        var t := triggers[i];
        ghost var next := Step(d, children, Pass(linked, updated, runs), t);
        StepBookkeeping(d, children, Pass(linked, updated, runs), t);
        linked := LinkTrigger(linked, updated, runs, children, t);
        if t.service !in updated {
          runs := runs + 1;
        }
        updated := updated + {t.service};
        assert Pass(linked, updated, runs) == next;
      }
      assert triggers[|triggers|..] == [];
    }

    /**
     * ensureCheck: reconcile and link the checks of the sender's host for the
     * events `triggers`, post every dirty check and drop the host's cached state if any check was
     * dirty, whether or not its update failed. `post(c)` gives the replies of
     * the hosts of `config.jHosts`, in that order, to the request posting `c`.
     */
    method EnsureCheck(hostChecks: map<string, map<string, Check>>, triggers: seq<Trigger>,
                       cache: TtlCache.Cache, post: Check -> seq<Reply>)
      returns (result: map<string, map<string, Check>>, err: Option<UpdateError>, posted: seq<string>)
      modifies this, cache
      ensures config == if triggers == [] then old(config) else Normalize(old(config))
      ensures var host := old(config).host;
              var services := if host in hostChecks then hostChecks[host] else map[];
              var q := Triggers(Normalize(old(config)), ChildSet(services), Pass(services, {}, 0), triggers);
              && result == hostChecks[host := q.services]
              && UpdatesIssued(q.services, post, posted, err)
              && cache.store == if exists s :: Dirty(q.services, s) then old(cache.store) - {host} else old(cache.store)
      ensures cache.ttl == old(cache.ttl) && cache.interval == old(cache.interval)
    {
      var host := config.host;
      var services: map<string, Check> := if host in hostChecks then hostChecks[host] else map[];
      var children := CollectChildren(services);
      services := LinkTriggers(services, children, triggers);
      result := hostChecks[host := services];
      err, posted := PostDirty(services, post);
      PostedIffDirty(services, post, posted, err);
      if |posted| > 0 {
        cache.Delete(host);
      }
    }
  }
}
