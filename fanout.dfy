/**
 * The two host fan-out loops of the juggler sender: the check fetcher inside
 * getCheck and the host loop of updateCheck. Each tries the configured backend
 * hosts in order; the HTTP exchange with one host is abstracted to the Reply it
 * produced, so `replies[i]` is what the i-th host answered.
 */
module HostFanout {
  import opened Wrappers

  /** What one backend host answered to one request. */
  datatype Reply =
    | Ok(body: seq<bv8>)          // status 200 and a readable body
    | Failed(reason: string)      // transport error, unreadable body or non-200 status
    | Cancelled(reason: string)   // context.Canceled or context.DeadlineExceeded

  /** Outcome of the check fetcher: the body, or every error collected on the way. */
  datatype FetchResult = Fetched(body: seq<bv8>) | FetchFailed(errors: seq<string>)

  /** Outcome of updateCheck when no host accepted the update. */
  datatype UpdateError =
    | UpdateCancelled(reason: string)   // the context ended: returned at once
    | Rejected(reasons: set<string>)    // every host failed; the distinct messages
    | NoHosts                           // the "Upexpected error" branch: no host was tried

  /** Index of the first reply that ends the loop (success or cancellation), |replies| if none does. */
  function FirstStop(replies: seq<Reply>): (k: nat)
    ensures k <= |replies|
    ensures forall j :: 0 <= j < k ==> replies[j].Failed?
    ensures k < |replies| ==> !replies[k].Failed?
  {
    if replies == [] then 0
    else if !replies[0].Failed? then 0
    else 1 + FirstStop(replies[1..])
  }

  /** The messages the fetcher records for the first n hosts, all of which failed. */
  function HostErrors(hosts: seq<string>, replies: seq<Reply>, n: nat): (errs: seq<string>)
    requires n <= |hosts| == |replies|
    requires forall j :: 0 <= j < n ==> replies[j].Failed?
    ensures |errs| == n
  {
    seq(n, j requires 0 <= j < n => hosts[j] + ": " + replies[j].reason)
  }

  // ---------------------------------------------------------------------------
  // checkFetcher (api.go:105-136)
  // ---------------------------------------------------------------------------

  /** Reference definition of the fetch loop, one host at a time. */
  function FetchSpec(hosts: seq<string>, replies: seq<Reply>): FetchResult
    requires |replies| == |hosts|
    decreases |hosts|
  {
    if hosts == [] then FetchFailed([])
    else match replies[0]
      case Ok(body) => Fetched(body)
      case Cancelled(reason) => FetchFailed([reason])
      case Failed(reason) =>
        match FetchSpec(hosts[1..], replies[1..])
        case Fetched(body) => Fetched(body)
        case FetchFailed(errs) => FetchFailed([hosts[0] + ": " + reason] + errs)
  }

  /** Errors already collected, put in front of what the remaining hosts produce. */
  function Prefixed(errs: seq<string>, r: FetchResult): FetchResult
  {
    match r
    case Fetched(body) => Fetched(body)
    case FetchFailed(more) => FetchFailed(errs + more)
  }

  /**
   * The fetch loop: the first host that answers wins, a cancelled context stops
   * the loop, and otherwise every host's error is accumulated.
   */
  method CheckFetcher(hosts: seq<string>, replies: seq<Reply>) returns (r: FetchResult)
    requires |replies| == |hosts|
    ensures r == FetchSpec(hosts, replies)
  {
    var errs: seq<string> := [];
    var i := 0;
    while i < |hosts|
      invariant 0 <= i <= |hosts|
      invariant FetchSpec(hosts, replies) == Prefixed(errs, FetchSpec(hosts[i..], replies[i..]))
    {
      assert hosts[i..][1..] == hosts[i + 1..] && replies[i..][1..] == replies[i + 1..];
      match replies[i]
      case Ok(body) =>
        return Fetched(body);
      case Cancelled(reason) =>
        return FetchFailed(errs + [reason]);
      case Failed(reason) =>
        var e := hosts[i] + ": " + reason;
        var rest := FetchSpec(hosts[i + 1..], replies[i + 1..]);
        if rest.FetchFailed? {
          assert errs + ([e] + rest.errors) == (errs + [e]) + rest.errors;
        }
        errs := errs + [e];
        i := i + 1;
    }
    assert hosts[i..] == [];
    return FetchFailed(errs);
  }

  /**
   * Complete characterisation of the fetch loop by its stopping point: a success
   * returns that host's body, a cancellation returns the errors so far plus its
   * own, and if no host stops the loop every host's error is returned in order.
   */
  lemma {:induction false} FetchCharacterised(hosts: seq<string>, replies: seq<Reply>)
    requires |replies| == |hosts|
    ensures var k := FirstStop(replies);
            FetchSpec(hosts, replies) ==
              if k == |replies| then FetchFailed(HostErrors(hosts, replies, k))
              else if replies[k].Ok? then Fetched(replies[k].body)
              else FetchFailed(HostErrors(hosts, replies, k) + [replies[k].reason])
  {
    if hosts != [] && replies[0].Failed? {
      FetchCharacterised(hosts[1..], replies[1..]);
      var k := FirstStop(replies);
      assert HostErrors(hosts, replies, k) ==
             [hosts[0] + ": " + replies[0].reason] + HostErrors(hosts[1..], replies[1..], k - 1);
    }
  }

  /** Replies after the first success or cancellation are never looked at. */
  lemma {:induction false} FetchIgnoresLaterHosts(hosts: seq<string>, replies: seq<Reply>, others: seq<Reply>, k: nat)
    requires |replies| == |hosts| == |others|
    requires k < |replies| && !replies[k].Failed?
    requires forall j :: 0 <= j <= k ==> others[j] == replies[j]
    ensures FetchSpec(hosts, replies) == FetchSpec(hosts, others)
  {
    if replies[0].Failed? {
      FetchIgnoresLaterHosts(hosts[1..], replies[1..], others[1..], k - 1);
    }
  }

  // ---------------------------------------------------------------------------
  // updateCheck host loop (api.go:402-444)
  // ---------------------------------------------------------------------------

  /** Reference definition of the update loop, with the error set collected so far. */
  function PostFrom(replies: seq<Reply>, errs: set<string>): Option<UpdateError>
    decreases |replies|
  {
    if replies == [] then (if errs == {} then Some(NoHosts) else Some(Rejected(errs)))
    else match replies[0]
      case Ok(_) => None
      case Cancelled(reason) => Some(UpdateCancelled(reason))
      case Failed(reason) => PostFrom(replies[1..], errs + {reason})
  }

  /** The update loop: None when some host accepted the update. */
  method PostUpdate(replies: seq<Reply>) returns (err: Option<UpdateError>)
    ensures err == PostFrom(replies, {})
  {
    var errs: set<string> := {};
    var i := 0;
    while i < |replies|
      invariant 0 <= i <= |replies|
      invariant PostFrom(replies, {}) == PostFrom(replies[i..], errs)
    {
      assert replies[i..][1..] == replies[i + 1..];
      match replies[i]
      case Ok(_) =>
        return None;
      case Cancelled(reason) =>
        return Some(UpdateCancelled(reason));
      case Failed(reason) =>
        errs := errs + {reason};
        i := i + 1;
    }
    assert replies[i..] == [];
    if errs != {} {
      return Some(Rejected(errs));
    }
    return Some(NoHosts);
  }

  /** The distinct messages of the first k replies, all of which failed. */
  function FailedReasons(replies: seq<Reply>, k: nat): set<string>
    requires k <= |replies|
    requires forall j :: 0 <= j < k ==> replies[j].Failed?
  {
    if k == 0 then {} else {replies[0].reason} + FailedReasons(replies[1..], k - 1)
  }

  /**
   * The update loop succeeds exactly when a host accepts before any cancellation;
   * a cancellation is returned as it is; when every host fails the error holds the
   * distinct messages of all of them; only an empty host list gives NoHosts.
   */
  lemma {:induction false} PostCharacterised(replies: seq<Reply>, errs: set<string>)
    ensures var k := FirstStop(replies);
            var all := errs + FailedReasons(replies, k);
            PostFrom(replies, errs) ==
              if k == |replies| then (if all == {} then Some(NoHosts) else Some(Rejected(all)))
              else if replies[k].Ok? then None
              else Some(UpdateCancelled(replies[k].reason))
  {
    if replies != [] && replies[0].Failed? {
      var errs' := errs + {replies[0].reason};
      PostCharacterised(replies[1..], errs');
      var k := FirstStop(replies);
      assert errs + FailedReasons(replies, k) == errs' + FailedReasons(replies[1..], k - 1);
      assert PostFrom(replies, errs) == PostFrom(replies[1..], errs');
    } else {
      assert errs + FailedReasons(replies, 0) == errs;
    }
  }
}
