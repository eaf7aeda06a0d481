/** The Kubernetes session protocol: reset, then benchmark, against a server
    whose requests and replies may be lost. */
module Session {
  import opened Wrappers
  import opened Schemas

  // ---- the server

  datatype JobState = Running | JobSucceeded | JobFailed

  /** What can happen to one request: it is answered, lost on the way, processed
      with its reply lost, or refused with a status that is neither 404 nor 409
      (those two the server gives only when they are true). */
  datatype Transport = Delivered | RequestLost(message: string) | ReplyLost(message: string) | Refused(message: string)

  /** The server's side of one request: its transport, the jobs that finish
      before it is processed, the frontend's state, pods and logs at that
      moment, and the time the request takes. */
  datatype Exchange = Exchange(
    transport: Transport,
    finished: map<string, JobState>,
    frontend: Option<bool>,
    pods: seq<Option<string>>,
    log: string,
    elapsed: nat)

  datatype Reply<+T> = Replied(value: T) | ApiError(message: string) | NoAnswer(message: string)

  /** Created: the server created the Job, whether or not its reply arrived.
      Seen...: the client observed it. */
  datatype Event = Created(name: string) | SeenSucceeded(name: string) | SeenReady

  class Cluster {
    /** The whole future of the server and the network: any pattern at all. */
    const world: nat -> Exchange
    var jobs: map<string, JobState>
    var tick: nat
    var now: int
    ghost var events: seq<Event>
    /** How many requests had been made at the client's latest observation. */
    ghost var seenAt: nat
    /** The Jobs that have shown a failure at some request. */
    ghost var failed: set<string>

    /** Every Job the log says was created exists, and was created once. */
    ghost predicate Valid()
      reads this
    {
      && (forall n :: n in jobs && jobs[n].JobFailed? ==> n in failed)
      && (forall i :: 0 <= i < |events| && events[i].Created? ==> events[i].name in jobs)
      && (forall i, j :: 0 <= i < j < |events| && events[i].Created? ==> events[i] != events[j])
    }

    constructor (world: nat -> Exchange, jobs: map<string, JobState>, now: int)
      ensures Valid() && this.world == world && this.jobs == jobs && this.now == now && tick == 0 && events == []
    {
      this.world, this.jobs, this.now, tick, events, seenAt := world, jobs, now, 0, [], 0;
      failed := set n | n in jobs && jobs[n].JobFailed?;
    }

    /** Jobs only finish; none disappears and none is added. One that has shown a
        failure may still succeed, one that has succeeded stays so. */
    static function Progress(jobs: map<string, JobState>, finished: map<string, JobState>): map<string, JobState> {
      map n | n in jobs ::
        if n in finished && !finished[n].Running? && !jobs[n].JobSucceeded? then finished[n] else jobs[n]
    }

    twostate predicate OnlyProgressed()
      reads this
    {
      && events == old(events)
      && jobs.Keys == old(jobs.Keys)
      && failed >= old(failed)
      && tick == old(tick) + 1
      && now >= old(now)
    }

    method Serve() returns (x: Exchange, reached: bool)
      requires Valid()
      modifies this`jobs, this`tick, this`now, this`failed
      ensures Valid() && OnlyProgressed()
      ensures x == world(old(tick))
      ensures jobs == Progress(old(jobs), x.finished)
      ensures reached <==> x.transport.Delivered? || x.transport.ReplyLost?
    {
      x := world(tick);
      tick := tick + 1;
      now := now + x.elapsed;
      jobs := Progress(jobs, x.finished);
      failed := failed + set n | n in jobs && jobs[n].JobFailed?;
      reached := x.transport.Delivered? || x.transport.ReplyLost?;
    }

    static function Respond<T>(transport: Transport, value: T): Reply<T> {
      match transport
      case Delivered => Replied(value)
      case Refused(message) => ApiError(message)
      case RequestLost(message) => NoAnswer(message)
      case ReplyLost(message) => NoAnswer(message)
    }

    /** Read a Job; an answered None is a 404. */
    method ReadJob(name: string) returns (reply: Reply<Option<JobState>>)
      requires Valid()
      modifies this`jobs, this`tick, this`now, this`failed
      ensures Valid() && OnlyProgressed()
      ensures jobs == Progress(old(jobs), world(old(tick)).finished)
      ensures reply == Respond(world(old(tick)).transport, if name in jobs then Some(jobs[name]) else None)
    {
      var x, reached := Serve();
      reply := Respond(x.transport, if name in jobs then Some(jobs[name]) else None);
    }

    /** Create a Job; an answered false is a 409. The Job appears whenever the
        request reached the server, even if no reply does. */
    method CreateJob(name: string) returns (reply: Reply<bool>)
      requires Valid()
      modifies this
      ensures Valid()
      ensures tick == old(tick) + 1 && now >= old(now)
      ensures old(jobs.Keys) <= jobs.Keys <= old(jobs.Keys) + {name}
      ensures failed >= old(failed)
      ensures name in jobs && name !in old(jobs) ==> jobs[name].Running?
      ensures events == old(events) + if name in jobs && name !in old(jobs) then [Created(name)] else []
      ensures reply == Respond(world(old(tick)).transport, name !in old(jobs))
      ensures reply.Replied? ==> name in jobs
    {
      var x, reached := Serve();
      var absent := name !in jobs;
      if reached && absent {
        jobs := jobs[name := Running];
        events := events + [Created(name)];
      }
      reply := Respond(x.transport, absent);
    }

    /** Read the frontend's endpoints: absent is a 404, otherwise whether any address is ready. */
    method ReadEndpoints() returns (reply: Reply<Option<bool>>)
      requires Valid()
      modifies this`jobs, this`tick, this`now, this`failed
      ensures Valid() && OnlyProgressed()
      ensures reply == Respond(world(old(tick)).transport, world(old(tick)).frontend)
    {
      var x, reached := Serve();
      reply := Respond(x.transport, x.frontend);
    }

    method ListPods() returns (reply: Reply<seq<Option<string>>>)
      requires Valid()
      modifies this`jobs, this`tick, this`now, this`failed
      ensures Valid() && OnlyProgressed()
      ensures reply == Respond(world(old(tick)).transport, world(old(tick)).pods)
    {
      var x, reached := Serve();
      reply := Respond(x.transport, x.pods);
    }

    method ReadPodLog() returns (reply: Reply<string>)
      requires Valid()
      modifies this`jobs, this`tick, this`now, this`failed
      ensures Valid() && OnlyProgressed()
      ensures reply == Respond(world(old(tick)).transport, world(old(tick)).log)
    {
      var x, reached := Serve();
      reply := Respond(x.transport, x.log);
    }

    /** Some request of a range got no proper answer. */
    static ghost predicate Disturbed(world: nat -> Exchange, from: nat, upTo: nat) {
      exists t :: from <= t < upTo && !world(t).transport.Delivered?
    }

    /** The latest request. */
    function Latest(): Exchange
      requires tick > 0
      reads this
    {
      world(tick - 1)
    }

    /** The Job has shown a failure. */
    ghost predicate HasFailed(name: string)
      reads this
    {
      name in failed
    }

    /** Three requests in a row, all that are tried, are lost with the same error text. */
    static predicate ThreeLost(world: nat -> Exchange, first: nat) {
      && world(first).transport.RequestLost?
      && world(first).transport == world(first + 1).transport == world(first + 2).transport
    }

    /** The client notes what it saw. */
    ghost method Observe(seen: Event)
      requires Valid() && !seen.Created?
      modifies this`events, this`seenAt
      ensures Valid() && events == old(events) + [seen] && seenAt == tick
    {
      events, seenAt := events + [seen], tick;
    }

    /** A sleep advances the clock by the requested time. */
    method Sleep(duration: nat)
      modifies this`now
      ensures now == old(now) + duration
    {
      now := now + duration;
    }
  }

  // ---- the executor

  /** Attempts for one-shot calls that hit a transport error. */
  const API_ATTEMPTS := 3

  const NAP: int := 30 * SECOND

  /** The receipt of a session; `failureReason` is the message of the exception
      that ended it, absent when none did. */
  datatype SessionReceipt = SessionReceipt(
    failureReason: Option<string>,
    jobName: Option<string>,
    artifactPaths: seq<string>,
    p95LatencyMs: Option<real>,
    errorRate: Option<real>)

  /** What running one Job leaves behind: the frontend seen ready, the Job
      created if it was not there, the Job seen succeeded. */
  function JobEvents(name: string, created: bool): seq<Event> {
    [SeenReady] + (if created then [Created(name)] else []) + [SeenSucceeded(name)]
  }

  /** What was added to `before` is an initial part of `full`. */
  predicate Within(before: seq<Event>, after: seq<Event>, full: seq<Event>) {
    before <= after && after[|before|..] <= full
  }

  /** The initial parts of a Job's events, put after what was there. */
  lemma JobEventParts(start: seq<Event>, name: string, created: bool)
    ensures var made := if created then [Created(name)] else [];
            && Within(start, start, JobEvents(name, created))
            && Within(start, start + [SeenReady], JobEvents(name, created))
            && Within(start, start + [SeenReady] + made, JobEvents(name, created))
            && start + [SeenReady] + made + [SeenSucceeded(name)] == start + JobEvents(name, created)
            && Within(start, start + JobEvents(name, created), JobEvents(name, created))
  {
    var made := if created then [Created(name)] else [];
    assert start[|start|..] == [] && (start + [SeenReady])[|start|..] == [SeenReady];
    assert (start + [SeenReady] + made)[|start|..] == [SeenReady] + made;
    assert (start + JobEvents(name, created))[|start|..] == JobEvents(name, created);
  }

  /** The complete event sequence of a session; the flags say which Jobs it created. */
  function FullSession(reset: string, benchmark: string, createdReset: bool, createdBenchmark: bool): seq<Event> {
    JobEvents(reset, createdReset) + JobEvents(benchmark, createdBenchmark)
  }

  /** The benchmark Job is created only after the reset Job was seen succeeded
      and then the frontend was seen ready again: in every initial part of a session. */
  lemma BenchmarkOnlyAfterReset(events: seq<Event>, reset: string, benchmark: string,
                                createdReset: bool, createdBenchmark: bool, i: nat)
    requires reset != benchmark
    requires events <= FullSession(reset, benchmark, createdReset, createdBenchmark)
    requires i < |events| && events[i] == Created(benchmark)
    ensures exists j, k :: 0 <= j < k < i && events[j] == SeenSucceeded(reset) && events[k] == SeenReady
  {
    var full := FullSession(reset, benchmark, createdReset, createdBenchmark);
    var j := if createdReset then 2 else 1;
    assert full[j] == SeenSucceeded(reset) && full[j + 1] == SeenReady;
    assert events[i] == full[i];
    assert events[j] == full[j] && events[j + 1] == full[j + 1];
  }

  /** How one attempt to ensure a Job ends: it is there, the server refused, or a
      request got no answer. */
  datatype Tried = Done | Denied(message: string) | Unheard(message: string)

  /** What ended a session: nothing, an exception the executor words itself, the
      exception of a request passed on with its own text, an exception of the
      client or of a template, or one that reading the figures of a log raised. */
  datatype Cause = Completed | Told | PassedOn(request: nat) | Foreign(text: string) | Malformed(logs: string)

  function Texts(error: Option<string>): set<string> {
    if error.Some? then {error.value} else {}
  }

  /** `error` is the text of what ended it, `PassedOn` one of the requests of a
      range; the executor's own words are never empty. */
  predicate Ended(world: nat -> Exchange, from: nat, upTo: nat, foreign: set<string>, cause: Cause,
                  error: Option<string>)
  {
    match cause
    case Completed => error.None?
    case Told => error.Some? && error.value != ""
    case PassedOn(t) => from <= t < upTo && !world(t).transport.Delivered? && error == Some(world(t).transport.message)
    case Foreign(text) => text in foreign && error == Some(text)
    case Malformed(_) => false
  }

  lemma EndedWiden(world: nat -> Exchange, from: nat, upTo: nat, foreign: set<string>, from': nat, upTo': nat,
                   foreign': set<string>, cause: Cause, error: Option<string>)
    requires Ended(world, from, upTo, foreign, cause, error)
    requires from' <= from && upTo <= upTo' && foreign <= foreign'
    ensures Ended(world, from', upTo', foreign', cause, error)
  {
  }

  class KubernetesBenchmarkExecutor {
    const jobTimeout: int
    const pollInterval: int
    const savesArtifacts: bool
    /** Identity components the code derives from a cycle identifier. */
    const slug: (string, string) -> string
    const stem: string -> string
    /** The wrk2 log readers: a script error, and the p95 latency and error rate,
        or the message of the exception a malformed figure raises. */
    const scriptError: string -> Option<string>
    const figuresOf: string -> Result<(Option<real>, Option<real>), string>
    /** The artifact directory. */
    var files: map<string, string>

    constructor (jobTimeout: int, pollInterval: int, savesArtifacts: bool, slug: (string, string) -> string,
                 stem: string -> string,
                 scriptError: string -> Option<string>,
                 figuresOf: string -> Result<(Option<real>, Option<real>), string>, files: map<string, string>)
      requires jobTimeout > 0 && pollInterval > 0
      ensures Configured() && this.files == files
    {
      this.jobTimeout, this.pollInterval, this.savesArtifacts := jobTimeout, pollInterval, savesArtifacts;
      this.slug, this.stem, this.scriptError := slug, stem, scriptError;
      this.figuresOf, this.files := figuresOf, files;
    }

    predicate Configured() {
      jobTimeout > 0 && pollInterval > 0
    }

    function JobName(prefix: string, cycleId: string): string {
      prefix + "-" + slug(prefix, cycleId)
    }

    /** Jobs of one kind share a name only if the identity components of their cycles agree. */
    lemma JobNameIdentifies(prefix: string, cycleId: string, other: string)
      ensures JobName(prefix, cycleId) == JobName(prefix, other) <==> slug(prefix, cycleId) == slug(prefix, other)
    {
      var start := prefix + "-";
      assert JobName(prefix, cycleId)[|start|..] == slug(prefix, cycleId);
      assert JobName(prefix, other)[|start|..] == slug(prefix, other);
    }

    lemma JobNamesDiffer(cycleId: string)
      ensures JobName("reset", cycleId) != JobName("benchmark", cycleId)
    {
      assert JobName("reset", cycleId)[0] == 'r';
      assert JobName("benchmark", cycleId)[0] == 'b';
    }

    // ---- waiting

    /** When a session is due: at once, or at the scheduled instant if later. */
    function Due(now: int, scheduled: Option<int>): int {
      if scheduled.Some? && scheduled.value > now then scheduled.value else now
    }

    /** Sleeps in naps of at most thirty seconds; ends exactly at the scheduled
        instant, or at once when it is past. */
    method WaitUntilScheduled(cluster: Cluster, scheduled: Option<int>) returns (ghost naps: nat)
      modifies cluster`now
      ensures cluster.now == Due(old(cluster.now), scheduled)
      ensures cluster.now >= old(cluster.now) && (scheduled.Some? ==> cluster.now >= scheduled.value)
      ensures cluster.now == old(cluster.now) || scheduled == Some(cluster.now)
      ensures naps >= 1 ==> scheduled.Some? && (naps - 1) * 30_000_000 < scheduled.value - old(cluster.now)
      ensures cluster.now - old(cluster.now) <= naps * 30_000_000
    {
      naps := 0;
      if scheduled.None? {
        return;
      }
      while cluster.now < scheduled.value
        invariant cluster.now == old(cluster.now) || old(cluster.now) < cluster.now <= scheduled.value
        invariant cluster.now < scheduled.value ==> naps * NAP == cluster.now - old(cluster.now)
        invariant naps >= 1 ==> (naps - 1) * NAP < scheduled.value - old(cluster.now)
        invariant cluster.now - old(cluster.now) <= naps * NAP
        decreases scheduled.value - cluster.now
      {
        var remaining := scheduled.value - cluster.now;
        cluster.Sleep(if remaining < NAP then remaining else NAP);
        naps := naps + 1;
      }
    }

    /** Every poll but the last two fits in the timeout, whatever the transport does. */
    predicate PollsBounded(polls: nat) {
      (polls - 2) * pollInterval < jobTimeout
    }

    /** The time `n` poll intervals take. */
    function Intervals(n: nat): int {
      if n == 0 then 0 else Intervals(n - 1) + pollInterval
    }

    lemma {:induction false} IntervalsIsProduct(n: nat)
      ensures Intervals(n) == n * pollInterval
    {
      if n > 0 {
        IntervalsIsProduct(n - 1);
      }
    }

    lemma IntervalsBoundPolls(polls: nat)
      requires Configured()
      requires polls >= 2 ==> Intervals(polls - 2) < jobTimeout
      ensures PollsBounded(polls)
    {
      if polls >= 2 {
        IntervalsIsProduct(polls - 2);
      } else {
        assert (2 - polls) * pollInterval >= 0;
      }
    }

    /** The request showed a ready frontend. */
    predicate Ready(x: Exchange) {
      x.transport.Delivered? && x.frontend == Some(true)
    }

    /** The request is answered after the Job has succeeded. */
    predicate Succeeds(x: Exchange, name: string) {
      x.transport.Delivered? && name in x.finished && x.finished[name].JobSucceeded?
    }

    method WaitForFrontend(cluster: Cluster) returns (error: Option<string>, ghost polls: nat)
      requires cluster.Valid() && Configured()
      modifies cluster
      ensures cluster.Valid()
      ensures cluster.jobs.Keys == old(cluster.jobs.Keys)
      ensures cluster.events == old(cluster.events) + if error.None? then [SeenReady] else []
      ensures cluster.tick > old(cluster.tick) && cluster.now >= old(cluster.now)
      ensures error.None? <==> cluster.Latest().transport.Delivered? && cluster.Latest().frontend == Some(true)
      ensures cluster.failed >= old(cluster.failed)
      ensures Ready(cluster.world(old(cluster.tick))) ==> error.None? && cluster.tick == old(cluster.tick) + 1
      ensures error.Some? ==> cluster.Latest().transport.Refused? || cluster.now >= old(cluster.now) + jobTimeout
      ensures error.Some? ==> error.value != ""
      ensures PollsBounded(polls)
    {
      var deadline := cluster.now + jobTimeout;
      polls := 0;
      while true
        invariant cluster.Valid() && cluster.events == old(cluster.events)
        invariant cluster.jobs.Keys == old(cluster.jobs.Keys)
        invariant cluster.tick >= old(cluster.tick) && cluster.now >= old(cluster.now)
        invariant cluster.failed >= old(cluster.failed)
        invariant Ready(cluster.world(old(cluster.tick))) ==> polls == 0 && cluster.tick == old(cluster.tick)
        invariant Intervals(polls) <= cluster.now + jobTimeout - deadline
        invariant polls >= 1 ==> Intervals(polls - 1) < jobTimeout
        decreases if cluster.now < deadline then deadline - cluster.now else 0
      {
        var reply := cluster.ReadEndpoints();
        polls := polls + 1;
        IntervalsBoundPolls(polls);
        if reply.Replied? && reply.value == Some(true) {
          cluster.Observe(SeenReady);
          return None, polls;
        }
        if reply.ApiError? {
          return Some("unable to inspect frontend service: " + reply.message), polls;
        }
        if cluster.now >= deadline {
          return Some("frontend service has no ready endpoints before timeout"), polls;
        }
        cluster.Sleep(pollInterval);
      }
    }

    method WaitForJob(cluster: Cluster, name: string) returns (error: Option<string>, ghost polls: nat)
      requires cluster.Valid() && Configured()
      modifies cluster
      ensures cluster.Valid()
      ensures cluster.jobs.Keys == old(cluster.jobs.Keys)
      ensures cluster.events == old(cluster.events) + if error.None? then [SeenSucceeded(name)] else []
      ensures cluster.tick > old(cluster.tick) && cluster.now >= old(cluster.now)
      ensures error.None?
              <==> cluster.Latest().transport.Delivered? && name in cluster.jobs && cluster.jobs[name].JobSucceeded?
      ensures error.None? ==> cluster.seenAt == cluster.tick
      ensures cluster.failed >= old(cluster.failed)
      ensures name in old(cluster.jobs) && Succeeds(cluster.world(old(cluster.tick)), name) ==>
                error.None? && cluster.tick == old(cluster.tick) + 1
      ensures error.Some? ==>
                || cluster.Latest().transport.Refused?
                || (cluster.Latest().transport.Delivered? && (name !in cluster.jobs || cluster.HasFailed(name)))
                || cluster.now >= old(cluster.now) + jobTimeout
      ensures error.Some? ==>
                if cluster.Latest().transport.Refused? then error.value == cluster.Latest().transport.message
                else error.value != ""
      ensures PollsBounded(polls)
    {
      var deadline := cluster.now + jobTimeout;
      polls := 0;
      while true
        invariant cluster.Valid() && cluster.events == old(cluster.events)
        invariant cluster.jobs.Keys == old(cluster.jobs.Keys)
        invariant cluster.tick >= old(cluster.tick) && cluster.now >= old(cluster.now)
        invariant cluster.failed >= old(cluster.failed)
        invariant polls == 0 ==> cluster.tick == old(cluster.tick) && cluster.jobs == old(cluster.jobs)
        invariant name in old(cluster.jobs) && Succeeds(cluster.world(old(cluster.tick)), name) ==> polls == 0
        invariant Intervals(polls) <= cluster.now + jobTimeout - deadline
        invariant polls >= 1 ==> Intervals(polls - 1) < jobTimeout
        decreases if cluster.now < deadline then deadline - cluster.now else 0
      {
        var reply := cluster.ReadJob(name);
        polls := polls + 1;
        IntervalsBoundPolls(polls);
        if reply.ApiError? {
          return Some(reply.message), polls;
        }
        if reply.Replied? && reply.value.None? {
          return Some("(404) Not Found"), polls;
        }
        if reply.Replied? && reply.value.value.JobSucceeded? {
          cluster.Observe(SeenSucceeded(name));
          return None, polls;
        }
        if reply.Replied? && reply.value.value.JobFailed? {
          return Some("Job failed: " + name), polls;
        }
        if cluster.now >= deadline {
          return Some("Job did not finish before timeout: " + name), polls;
        }
        cluster.Sleep(pollInterval);
      }
    }

    // ---- creating

    /** The next two requests are answered. */
    predicate BothDelivered(world: nat -> Exchange, first: nat) {
      world(first).transport.Delivered? && world(first + 1).transport.Delivered?
    }

    /** How many of the requests in a range got no answer. */
    static function Unanswered(world: nat -> Exchange, from: nat, upTo: nat): nat
      requires from <= upTo
    {
      if from == upTo then 0
      else
        var lost := world(upTo - 1).transport.RequestLost? || world(upTo - 1).transport.ReplyLost?;
        Unanswered(world, from, upTo - 1) + if lost then 1 else 0
    }

    static lemma UnansweredAdds(world: nat -> Exchange, from: nat, middle: nat, upTo: nat)
      requires from <= middle <= upTo
      ensures Unanswered(world, from, upTo) == Unanswered(world, from, middle) + Unanswered(world, middle, upTo)
      decreases upTo
    {
      if middle < upTo {
        UnansweredAdds(world, from, middle, upTo - 1);
      }
    }

    /** One attempt: read the Job, create it if it is not there. */
    method TryOnce(cluster: Cluster, name: string) returns (tried: Tried)
      requires cluster.Valid() && Configured()
      modifies cluster
      ensures cluster.Valid()
      ensures cluster.tick > old(cluster.tick) && cluster.now >= old(cluster.now)
      ensures cluster.failed >= old(cluster.failed)
      ensures old(cluster.jobs.Keys) <= cluster.jobs.Keys <= old(cluster.jobs.Keys) + {name}
      ensures cluster.events == old(cluster.events) + CreatedNow(name, old(cluster.jobs.Keys), cluster.jobs.Keys)
      ensures tried.Done? ==> name in cluster.jobs
      ensures tried.Denied? ==> cluster.Latest().transport.Refused? && tried.message != ""
      ensures !tried.Done? ==> !cluster.Latest().transport.Delivered?
      ensures Unanswered(cluster.world, old(cluster.tick), cluster.tick) == if tried.Unheard? then 1 else 0
      ensures name !in old(cluster.jobs) && BothDelivered(cluster.world, old(cluster.tick)) ==>
                tried.Done? && cluster.tick == old(cluster.tick) + 2
    {
      ghost var first := cluster.tick;
      var read := cluster.ReadJob(name);
      assert Unanswered(cluster.world, first, first) == 0;
      if read.Replied? && read.value.Some? {
        return Done;
      }
      if read.ApiError? {
        return Denied("unable to inspect Job " + name + ": " + read.message);
      }
      if read.NoAnswer? {
        return Unheard(read.message);
      }
      assert Unanswered(cluster.world, first, first + 1) == 0;
      var created := cluster.CreateJob(name);
      if created.Replied? {
        return Done;
      }
      if created.ApiError? {
        return Denied("unable to create Job " + name + ": " + created.message);
      }
      return Unheard(created.message);
    }

    /** A normal return means the Job exists, whatever was lost on the way; the
        Job is created at most once, and not at all if it existed. It gives up
        only on a refusal or after three requests without an answer. */
    method EnsureJob(cluster: Cluster, name: string) returns (error: Option<string>)
      requires cluster.Valid() && Configured()
      modifies cluster
      ensures cluster.Valid()
      ensures error.None? ==> name in cluster.jobs
      ensures cluster.tick >= old(cluster.tick) && cluster.now >= old(cluster.now)
      ensures cluster.failed >= old(cluster.failed)
      ensures error.Some? ==>
                || (cluster.tick > old(cluster.tick) && cluster.Latest().transport.Refused?)
                || Unanswered(cluster.world, old(cluster.tick), cluster.tick) == 3
      ensures error.None? ==> Unanswered(cluster.world, old(cluster.tick), cluster.tick) < 3
      ensures error.Some? ==>
                cluster.tick > old(cluster.tick) && !cluster.Latest().transport.Delivered? && error.value != ""
      ensures name !in old(cluster.jobs) && BothDelivered(cluster.world, old(cluster.tick)) ==>
                error.None? && cluster.tick == old(cluster.tick) + 2
      ensures old(cluster.jobs.Keys) <= cluster.jobs.Keys <= old(cluster.jobs.Keys) + {name}
      ensures cluster.events == old(cluster.events) + CreatedNow(name, old(cluster.jobs.Keys), cluster.jobs.Keys)
    {
      ghost var start := cluster.tick;
      var lastError := "None";
      for attempt := 0 to API_ATTEMPTS
        invariant cluster.Valid()
        invariant cluster.tick >= start && cluster.now >= old(cluster.now) && cluster.failed >= old(cluster.failed)
        invariant attempt == 0 ==> cluster.tick == start && cluster.jobs.Keys == old(cluster.jobs.Keys)
        invariant attempt > 0 ==> cluster.tick > start && !cluster.Latest().transport.Delivered?
        invariant name !in old(cluster.jobs) && BothDelivered(cluster.world, start) ==> attempt == 0
        invariant Unanswered(cluster.world, start, cluster.tick) == attempt
        invariant old(cluster.jobs.Keys) <= cluster.jobs.Keys <= old(cluster.jobs.Keys) + {name}
        invariant cluster.events == old(cluster.events) + CreatedNow(name, old(cluster.jobs.Keys), cluster.jobs.Keys)
      {
        if attempt > 0 {
          cluster.Sleep(pollInterval);
        }
        ghost var before, known := cluster.tick, cluster.jobs.Keys;
        var tried := TryOnce(cluster, name);
        UnansweredAdds(cluster.world, start, before, cluster.tick);
        CreatedOnce(name, old(cluster.jobs.Keys), known, cluster.jobs.Keys);
        if tried.Done? {
          return None;
        }
        if tried.Denied? {
          return Some(tried.message);
        }
        lastError := tried.message;
      }
      return Some("unable to create Job " + name + ": " + lastError);
    }

    /** The event of a Job that was not there before and is now. */
    static function CreatedNow(name: string, before: set<string>, after: set<string>): seq<Event> {
      if name in after && name !in before then [Created(name)] else []
    }

    static lemma CreatedOnce(name: string, first: set<string>, second: set<string>, third: set<string>)
      requires first <= second <= third
      ensures CreatedNow(name, first, second) + CreatedNow(name, second, third) == CreatedNow(name, first, third)
    {
    }

    /** What the server side can do to a Job's run that began at `tick` and `now`:
        leave a request without a proper answer, fail the Job, or time it out. */
    ghost predicate Thwarted(cluster: Cluster, name: string, tick: nat, now: int)
      reads cluster
    {
      cluster.Disturbed(cluster.world, tick, cluster.tick) || cluster.HasFailed(name) || cluster.now >= now + jobTimeout
    }

    /** A new Job's run that succeeds on the first try of everything. */
    predicate FirstTry(world: nat -> Exchange, first: nat, name: string) {
      Ready(world(first)) && BothDelivered(world, first + 1) && Succeeds(world(first + 3), name)
    }

    /** Time has passed. */
    twostate predicate Later(cluster: Cluster)
      reads cluster
    {
      cluster.tick >= old(cluster.tick) && cluster.now >= old(cluster.now) && cluster.failed >= old(cluster.failed)
    }

    /** A Job's run: it may have added the Job, its events are an initial part of
        those of a complete run, and all of them if it is `done`. */
    static predicate Ran(name: string, known: set<string>, names: set<string>, before: seq<Event>, after: seq<Event>,
                         done: bool)
    {
      && known <= names <= known + {name}
      && Within(before, after, JobEvents(name, name !in known))
      && (done ==> after == before + JobEvents(name, name !in known))
    }

    /** The same for two Jobs, one after the other. */
    static predicate RanBoth(name: string, next: string, known: set<string>, names: set<string>, before: seq<Event>,
                             after: seq<Event>, done: bool)
    {
      var full := FullSession(name, next, name !in known, next !in known);
      known <= names && Within(before, after, full) && (done ==> after == before + full)
    }

    static lemma RanFirst(name: string, next: string, known: set<string>, names: set<string>, before: seq<Event>,
                          after: seq<Event>)
      requires Ran(name, known, names, before, after, false)
      ensures RanBoth(name, next, known, names, before, after, false)
    {
      TwoJobsCut(before, after, name, next, name !in known, next !in known);
    }

    static lemma RanSecond(name: string, next: string, known: set<string>, middleNames: set<string>, names: set<string>,
                           before: seq<Event>, middle: seq<Event>, after: seq<Event>, done: bool)
      requires name != next
      requires Ran(name, known, middleNames, before, middle, true)
      requires Ran(next, middleNames, names, middle, after, done)
      ensures RanBoth(name, next, known, names, before, after, done)
    {
      assert next in middleNames <==> next in known;
      TwoJobs(before, middle, after, name, next, name !in known, next !in known);
    }

    /** Ensure the Job, then see it succeed. `inJob` says the failure came from
        waiting for the Job. */
    method EnsureAndWait(cluster: Cluster, name: string)
      returns (error: Option<string>, inJob: bool, ghost cause: Cause)
      requires cluster.Valid() && Configured()
      modifies cluster
      ensures cluster.Valid()
      ensures old(cluster.jobs.Keys) <= cluster.jobs.Keys <= old(cluster.jobs.Keys) + {name}
      ensures cluster.events == old(cluster.events) + CreatedNow(name, old(cluster.jobs.Keys), cluster.jobs.Keys)
                              + if error.None? then [SeenSucceeded(name)] else []
      ensures error.None? || inJob ==> name in cluster.jobs
      ensures cluster.tick >= old(cluster.tick) && cluster.now >= old(cluster.now)
      ensures cluster.failed >= old(cluster.failed)
      ensures error.None? ==> cluster.seenAt == cluster.tick
      ensures error.Some? ==> Thwarted(cluster, name, old(cluster.tick), old(cluster.now))
      ensures Ended(cluster.world, old(cluster.tick), cluster.tick, {}, cause, error)
      ensures name !in old(cluster.jobs) && BothDelivered(cluster.world, old(cluster.tick))
              && Succeeds(cluster.world(old(cluster.tick) + 2), name) ==>
                error.None? && cluster.tick == old(cluster.tick) + 3
    {
      inJob, cause := false, Told;
      ghost var polls;
      error := EnsureJob(cluster, name);
      if error.Some? {
        return;
      }
      error, polls := WaitForJob(cluster, name);
      inJob := error.Some?;
      cause := if error.None? then Completed
               else if cluster.Latest().transport.Refused? then PassedOn(cluster.tick - 1) else Told;
    }

    /** Frontend ready, Job ensured, Job seen succeeded, in that order. */
    method RunJob(cluster: Cluster, name: string, renderError: Option<string>)
      returns (error: Option<string>, inJob: bool, ghost cause: Cause)
      requires cluster.Valid() && Configured()
      modifies cluster
      ensures cluster.Valid()
      ensures Ran(name, old(cluster.jobs.Keys), cluster.jobs.Keys, old(cluster.events), cluster.events, error.None?)
      ensures Later(cluster)
      ensures error.None? ==> cluster.seenAt == cluster.tick
      ensures error.Some? ==> renderError.Some? || Thwarted(cluster, name, old(cluster.tick), old(cluster.now))
      ensures Ended(cluster.world, old(cluster.tick), cluster.tick, Texts(renderError), cause, error)
      ensures renderError.None? && name !in old(cluster.jobs) && FirstTry(cluster.world, old(cluster.tick), name) ==>
                error.None? && cluster.tick == old(cluster.tick) + 4
    {
      inJob, cause := false, Told;
      ghost var polls, start, known := 0, cluster.events, cluster.jobs.Keys;
      JobEventParts(start, name, name !in known);
      error, polls := WaitForFrontend(cluster);
      if error.Some? {
        return;
      }
      if renderError.Some? {
        return renderError, false, Foreign(renderError.value);
      }
      ghost var from := cluster.tick;
      error, inJob, cause := EnsureAndWait(cluster, name);
      EndedWiden(cluster.world, from, cluster.tick, {}, old(cluster.tick), cluster.tick, Texts(renderError), cause,
                 error);
      assert CreatedNow(name, known, cluster.jobs.Keys)
          == if name in cluster.jobs && name !in known then [Created(name)] else [];
    }

    /** The Job succeeds on the first try, and then the listing of its pods is lost. */
    predicate ListingLost(world: nat -> Exchange, first: nat, name: string) {
      FirstTry(world, first, name) && Cluster.ThreeLost(world, first + 4)
    }

    // ---- logs

    /** Nothing about the Jobs themselves changes while reading. */
    twostate predicate OnlyRead(cluster: Cluster)
      reads cluster
    {
      && cluster.jobs.Keys == old(cluster.jobs.Keys)
      && cluster.events == old(cluster.events)
      && cluster.seenAt == old(cluster.seenAt)
      && cluster.failed >= old(cluster.failed)
      && cluster.tick >= old(cluster.tick)
      && cluster.now >= old(cluster.now)
    }

    /** The requests of a range are one read with its retries: all but the last got no
        answer, and the last got one, or was the third. */
    static predicate IsRead(world: nat -> Exchange, first: nat, next: nat) {
      && first < next <= first + 3
      && (next > first + 1 ==> GotNoAnswer(world(first)))
      && (next > first + 2 ==> GotNoAnswer(world(first + 1)))
      && (next < first + 3 ==> !GotNoAnswer(world(next - 1)))
    }

    static predicate GotNoAnswer(x: Exchange) {
      x.transport.RequestLost? || x.transport.ReplyLost?
    }

    /** One-shot read, retried when it gets no answer; it succeeds exactly when its
        last request is delivered, and otherwise raises that one's own message. */
    method ListPodsWithRetries(cluster: Cluster) returns (r: Result<seq<Option<string>>, string>)
      requires cluster.Valid() && Configured()
      modifies cluster
      ensures cluster.Valid() && OnlyRead(cluster)
      ensures IsRead(cluster.world, old(cluster.tick), cluster.tick)
      ensures r == if cluster.Latest().transport.Delivered? then Success(cluster.Latest().pods)
                   else Result.Failure(cluster.Latest().transport.message)
      ensures cluster.ThreeLost(cluster.world, old(cluster.tick)) ==>
                r == Result.Failure(cluster.world(old(cluster.tick)).transport.message)
    {
      var last := "";
      for attempt := 0 to API_ATTEMPTS
        invariant cluster.Valid() && OnlyRead(cluster) && cluster.tick == old(cluster.tick) + attempt
        invariant attempt > 0 ==> GotNoAnswer(cluster.Latest()) && last == cluster.Latest().transport.message
        invariant attempt > 1 ==> GotNoAnswer(cluster.world(old(cluster.tick)))
        invariant attempt > 2 ==> GotNoAnswer(cluster.world(old(cluster.tick) + 1))
      {
        var reply := cluster.ListPods();
        if reply.Replied? {
          return Success(reply.value);
        }
        if reply.ApiError? {
          return Result.Failure(reply.message);
        }
        last := reply.message;
        if attempt + 1 < API_ATTEMPTS {
          cluster.Sleep(pollInterval);
        }
      }
      return Result.Failure(last);
    }

    /** The same for one pod's log. */
    method ReadPodLogWithRetries(cluster: Cluster) returns (r: Result<string, string>)
      requires cluster.Valid() && Configured()
      modifies cluster
      ensures cluster.Valid() && OnlyRead(cluster)
      ensures IsRead(cluster.world, old(cluster.tick), cluster.tick)
      ensures r == if cluster.Latest().transport.Delivered? then Success(cluster.Latest().log)
                   else Result.Failure(cluster.Latest().transport.message)
    {
      var last := "";
      for attempt := 0 to API_ATTEMPTS
        invariant cluster.Valid() && OnlyRead(cluster) && cluster.tick == old(cluster.tick) + attempt
        invariant attempt > 0 ==> GotNoAnswer(cluster.Latest()) && last == cluster.Latest().transport.message
        invariant attempt > 1 ==> GotNoAnswer(cluster.world(old(cluster.tick)))
        invariant attempt > 2 ==> GotNoAnswer(cluster.world(old(cluster.tick) + 1))
      {
        var reply := cluster.ReadPodLog();
        if reply.Replied? {
          return Success(reply.value);
        }
        if reply.ApiError? {
          return Result.Failure(reply.message);
        }
        last := reply.message;
        if attempt + 1 < API_ATTEMPTS {
          cluster.Sleep(pollInterval);
        }
      }
      return Result.Failure(last);
    }

    /** The pods that have a name. */
    function Named(pods: seq<Option<string>>): seq<string> {
      if pods == [] then []
      else
        var front, last := Named(pods[..|pods| - 1]), pods[|pods| - 1];
        if Truthy(last) then front + [last.value] else front
    }

    function Join(fragments: seq<string>): string {
      if fragments == [] then ""
      else if |fragments| == 1 then fragments[0]
      else Join(fragments[..|fragments| - 1]) + "\n" + fragments[|fragments| - 1]
    }

    /** Joining puts one line break between what two runs of fragments give. */
    lemma {:induction false} JoinAppends(a: seq<string>, b: seq<string>)
      requires a != [] && b != []
      ensures Join(a + b) == Join(a) + "\n" + Join(b)
    {
      var front, last := b[..|b| - 1], b[|b| - 1];
      assert (a + b)[..|a + b| - 1] == a + front;
      if front == [] {
        assert a + front == a;
      } else {
        JoinAppends(a, front);
        assert Join(a) + "\n" + Join(front) + "\n" + last == Join(a) + "\n" + (Join(front) + "\n" + last);
      }
    }

    /** The names are those of the pods that have one, each in its place. */
    lemma {:induction false} NamedAppends(a: seq<Option<string>>, pod: Option<string>, b: seq<Option<string>>)
      ensures Named(a + [pod] + b)
              == Named(a) + (if pod.Some? && pod.value != "" then [pod.value] else []) + Named(b)
    {
      if b == [] {
        assert a + [pod] + b == a + [pod] && (a + [pod])[..|a|] == a;
      } else {
        NamedAppends(a, pod, b[..|b| - 1]);
        assert (a + [pod] + b)[..|a + [pod] + b| - 1] == a + [pod] + b[..|b| - 1];
      }
    }

    /** What the logs hold for a pod, read by the requests of a range: the log its last
        request delivered, or, if that was refused or was the third without an answer,
        a note with the pod's name and that request's message. */
    static predicate FragmentAt(world: nat -> Exchange, first: nat, next: nat, pod: string, fragment: string) {
      && IsRead(world, first, next)
      && var last := world(next - 1);
      && (last.transport.Delivered? ==> fragment == last.log)
      && (!last.transport.Delivered? ==>
            fragment == "[unable to read logs for " + pod + ": " + last.transport.message + "]")
    }

    /** One fragment per pod, in order, each from that pod's own read: the reads follow
        one another through the range. */
    static ghost predicate Gathered(world: nat -> Exchange, first: nat, next: nat, pods: seq<string>,
                                    fragments: seq<string>)
      decreases |pods|
    {
      && |fragments| == |pods|
      && if pods == [] then next == first
         else
           var n := |pods| - 1;
           exists middle :: Gathered(world, first, middle, pods[..n], fragments[..n])
                            && FragmentAt(world, middle, next, pods[n], fragments[n])
    }

    static lemma GatheredNext(world: nat -> Exchange, first: nat, middle: nat, next: nat, pods: seq<string>,
                              fragments: seq<string>, pod: string, fragment: string)
      requires Gathered(world, first, middle, pods, fragments) && FragmentAt(world, middle, next, pod, fragment)
      ensures Gathered(world, first, next, pods + [pod], fragments + [fragment])
    {
      assert (pods + [pod])[..|pods|] == pods && (fragments + [fragment])[..|fragments|] == fragments;
    }

    /** `text` joins the logs of the pods of a listing: the requests of the range are the
        listing, delivered, and then the pods' reads. */
    ghost predicate LogsRead(world: nat -> Exchange, first: nat, next: nat, text: string) {
      exists listed: nat, fragments ::
        && IsRead(world, first, listed) && world(listed - 1).transport.Delivered?
        && Gathered(world, listed, next, Named(world(listed - 1).pods), fragments)
        && text == Join(fragments)
    }

    /** That, for the requests from some one of the range to its end. */
    ghost predicate LogsOf(world: nat -> Exchange, from: nat, upTo: nat, text: string) {
      exists first :: from <= first && LogsRead(world, first, upTo, text)
    }

    /** `text` is the logs read by all the requests since the client's latest observation,
        which is one of those counted from `tick`. */
    ghost predicate Collected(world: nat -> Exchange, tick: nat, seenAt: nat, upTo: nat, text: string) {
      tick <= seenAt && LogsRead(world, seenAt, upTo, text)
    }

    /** A pod's log, or a note that it cannot be read. */
    method ReadFragment(cluster: Cluster, pod: string) returns (fragment: string)
      requires cluster.Valid() && Configured()
      modifies cluster
      ensures cluster.Valid() && OnlyRead(cluster)
      ensures FragmentAt(cluster.world, old(cluster.tick), cluster.tick, pod, fragment)
    {
      var log := ReadPodLogWithRetries(cluster);
      fragment := if log.Success? then log.value else "[unable to read logs for " + pod + ": " + log.error + "]";
    }

    /** The logs of a Job's pods; an unreadable pod leaves a note instead. */
    method JobLogs(cluster: Cluster) returns (r: Result<string, string>)
      requires cluster.Valid() && Configured()
      modifies cluster
      ensures cluster.Valid() && OnlyRead(cluster)
      ensures r.Failure? || LogsRead(cluster.world, old(cluster.tick), cluster.tick, r.value)
      ensures r.Failure? ==>
                && IsRead(cluster.world, old(cluster.tick), cluster.tick) && !cluster.Latest().transport.Delivered?
                && r.error == cluster.Latest().transport.message
      ensures cluster.ThreeLost(cluster.world, old(cluster.tick)) ==>
                r == Result.Failure(cluster.world(old(cluster.tick)).transport.message)
    {
      var listed := ListPodsWithRetries(cluster);
      if listed.Failure? {
        return Result.Failure(listed.error);
      }
      ghost var start := cluster.tick;
      var pods := listed.value;
      var fragments: seq<string> := [];
      for i := 0 to |pods|
        invariant cluster.Valid() && OnlyRead(cluster) && cluster.tick >= start
        invariant Gathered(cluster.world, start, cluster.tick, Named(pods[..i]), fragments)
      {
        ghost var before := cluster.tick;
        assert pods[..i + 1][..i] == pods[..i];
        if !Truthy(pods[i]) {
          continue;
        }
        var fragment := ReadFragment(cluster, pods[i].value);
        GatheredNext(cluster.world, start, before, cluster.tick, Named(pods[..i]), fragments, pods[i].value, fragment);
        fragments := fragments + [fragment];
      }
      assert pods[..|pods|] == pods;
      return Success(Join(fragments));
    }

    function ArtifactName(cycleId: string, kind: string): string {
      stem(cycleId) + "-" + kind + ".log"
    }

    /** The artifact of one Job, when artifacts are saved. */
    function Paths(cycleId: string, kind: string): seq<string> {
      if savesArtifacts then [ArtifactName(cycleId, kind)] else []
    }

    /** The artifacts of a complete session. */
    function Artifacts(cycleId: string): seq<string> {
      Paths(cycleId, "reset") + Paths(cycleId, "benchmark")
    }

    /** The events of a complete session that found the `known` Jobs. */
    function SessionEvents(cycleId: string, known: set<string>): seq<Event> {
      var reset, benchmark := JobName("reset", cycleId), JobName("benchmark", cycleId);
      FullSession(reset, benchmark, reset !in known, benchmark !in known)
    }

    /** Existing artifacts keep their content. */
    twostate predicate ArtifactsKept()
      reads this
    {
      Preserves(old(files), files)
    }

    static predicate Preserves(before: map<string, string>, after: map<string, string>) {
      forall f :: f in before ==> f in after && after[f] == before[f]
    }

    static lemma PreservesTwice(before: map<string, string>, between: map<string, string>, after: map<string, string>)
      requires Preserves(before, between) && Preserves(between, after)
      ensures Preserves(before, after)
    {
    }

    /** The artifacts with one more, unless it is there. */
    static function Saved(files: map<string, string>, name: string, content: string): map<string, string> {
      if name in files then files else files[name := content]
    }

    /** Persist a Job's raw output unless an artifact of that name exists. */
    method SaveLog(cycleId: string, kind: string, content: string) returns (paths: seq<string>)
      modifies this`files
      ensures ArtifactsKept()
      ensures paths == Paths(cycleId, kind)
      ensures files == if savesArtifacts then Saved(old(files), ArtifactName(cycleId, kind), content) else old(files)
    {
      if !savesArtifacts {
        return [];
      }
      var name := ArtifactName(cycleId, kind);
      if name !in files {
        files := files[name := content];
      }
      return [name];
    }

    /** Best-effort log capture for a failed Job. */
    method CaptureJobLogs(cluster: Cluster, cycleId: string, kind: string, name: string) returns (paths: seq<string>)
      requires cluster.Valid() && Configured()
      modifies cluster, this`files
      ensures cluster.Valid() && OnlyRead(cluster)
      ensures ArtifactsKept()
      ensures paths == Paths(cycleId, kind)
      ensures exists text ::
                && Captured(cluster.world, old(cluster.tick), cluster.tick, kind, name, text)
                && files == if savesArtifacts then Saved(old(files), ArtifactName(cycleId, kind), text) else old(files)
    {
      var logs := JobLogs(cluster);
      var text := if logs.Success? then logs.value
                  else "[unable to read logs for failed " + kind + " Job " + name + ": " + logs.error + "]";
      assert Captured(cluster.world, old(cluster.tick), cluster.tick, kind, name, text);
      paths := SaveLog(cycleId, kind, text);
    }

    /** The logs read, or a note with the message of the listing's last request. */
    ghost predicate Captured(world: nat -> Exchange, first: nat, next: nat, kind: string, name: string, text: string) {
      || LogsRead(world, first, next, text)
      || (&& IsRead(world, first, next) && !world(next - 1).transport.Delivered?
          && text == "[unable to read logs for failed " + kind + " Job " + name + ": "
                     + world(next - 1).transport.message + "]")
    }

    // ---- a session

    /** The logs of a finished Job, kept as an artifact. What ended it is counted among
        the requests from `from` on. */
    method CollectLogs(cluster: Cluster, cycleId: string, kind: string, ghost from: nat, ghost foreign: set<string>)
      returns (error: Option<string>, paths: seq<string>, logs: string, ghost cause: Cause)
      requires cluster.Valid() && Configured() && from <= cluster.tick
      modifies cluster, this`files
      ensures cluster.Valid() && ArtifactsKept() && OnlyRead(cluster)
      ensures Ended(cluster.world, from, cluster.tick, foreign, cause, error)
      ensures error.None? ==> paths == Paths(cycleId, kind)
      ensures error.None? && savesArtifacts ==> files == Saved(old(files), ArtifactName(cycleId, kind), logs)
      ensures error.Some? || LogsRead(cluster.world, old(cluster.tick), cluster.tick, logs)
      ensures error.Some? ==> cluster.Disturbed(cluster.world, from, cluster.tick)
      ensures cluster.ThreeLost(cluster.world, old(cluster.tick)) ==>
                error == Some(cluster.world(old(cluster.tick)).transport.message)
    {
      var read := JobLogs(cluster);
      if read.Failure? {
        return Some(read.error), [], "", PassedOn(cluster.tick - 1);
      }
      paths := SaveLog(cycleId, kind, read.value);
      return None, paths, read.value, Completed;
    }

    /** Run a Job; when waiting for it fails, keep its logs as an artifact. */
    method RunJobCaptured(cluster: Cluster, cycleId: string, kind: string, name: string, renderError: Option<string>)
      returns (error: Option<string>, paths: seq<string>, ghost cause: Cause)
      requires cluster.Valid() && Configured()
      modifies cluster, this`files
      ensures cluster.Valid() && ArtifactsKept()
      ensures error.None? ==> files == old(files) && paths == []
      ensures Ran(name, old(cluster.jobs.Keys), cluster.jobs.Keys, old(cluster.events), cluster.events, error.None?)
      ensures Later(cluster)
      ensures error.None? ==> cluster.seenAt == cluster.tick
      ensures error.Some? ==> renderError.Some? || Thwarted(cluster, name, old(cluster.tick), old(cluster.now))
      ensures Ended(cluster.world, old(cluster.tick), cluster.tick, Texts(renderError), cause, error)
      ensures renderError.None? && name !in old(cluster.jobs) && FirstTry(cluster.world, old(cluster.tick), name) ==>
                error.None? && cluster.tick == old(cluster.tick) + 4
    {
      paths := [];
      var inJob;
      error, inJob, cause := RunJob(cluster, name, renderError);
      ghost var reached := cluster.tick;
      if error.Some? && inJob {
        paths := CaptureJobLogs(cluster, cycleId, kind, name);
        ThwartedStays(cluster.world, old(cluster.tick), reached, cluster.tick);
        EndedWiden(cluster.world, old(cluster.tick), reached, Texts(renderError), old(cluster.tick), cluster.tick,
                   Texts(renderError), cause, error);
      }
    }

    lemma ThwartedStays(world: nat -> Exchange, from: nat, upTo: nat, upTo': nat)
      requires upTo <= upTo'
      ensures Cluster.Disturbed(world, from, upTo) ==> Cluster.Disturbed(world, from, upTo')
    {
    }

    /** One Job of a session with its logs: the artifacts, and the logs when
        nothing failed. */
    method RunJobWithLogs(cluster: Cluster, cycleId: string, kind: string, name: string, renderError: Option<string>)
      returns (error: Option<string>, paths: seq<string>, logs: string, ghost cause: Cause)
      requires cluster.Valid() && Configured()
      modifies cluster, this`files
      ensures cluster.Valid() && ArtifactsKept()
      ensures Ran(name, old(cluster.jobs.Keys), cluster.jobs.Keys, old(cluster.events), cluster.events, error.None?)
      ensures Later(cluster)
      ensures error.None? ==> paths == Paths(cycleId, kind)
      ensures error.None? && savesArtifacts ==> files == Saved(old(files), ArtifactName(cycleId, kind), logs)
      ensures error.Some? || Collected(cluster.world, old(cluster.tick), cluster.seenAt, cluster.tick, logs)
      ensures error.Some? ==> renderError.Some? || Thwarted(cluster, name, old(cluster.tick), old(cluster.now))
      ensures Ended(cluster.world, old(cluster.tick), cluster.tick, Texts(renderError), cause, error)
      ensures renderError.None? && name !in old(cluster.jobs) && ListingLost(cluster.world, old(cluster.tick), name) ==>
                && error == Some(cluster.world(old(cluster.tick) + 4).transport.message)
                && Ran(name, old(cluster.jobs.Keys), cluster.jobs.Keys, old(cluster.events), cluster.events, true)
    {
      logs := "";
      ghost var lost := renderError.None? && name !in cluster.jobs && ListingLost(cluster.world, cluster.tick, name);
      error, paths, cause := RunJobCaptured(cluster, cycleId, kind, name, renderError);
      assert lost ==> error.None? && cluster.tick == old(cluster.tick) + 4;
      if error.Some? {
        return;
      }
      ghost var before := cluster.tick;
      error, paths, logs, cause := CollectLogs(cluster, cycleId, kind, old(cluster.tick), Texts(renderError));
      assert lost ==> error == Some(cluster.world(before).transport.message);
    }

    /** One of the session's Jobs was thwarted. */
    ghost predicate SessionThwarted(cluster: Cluster, cycleId: string, tick: nat, due: int)
      reads cluster
    {
      || Thwarted(cluster, JobName("reset", cycleId), tick, due)
      || Thwarted(cluster, JobName("benchmark", cycleId), tick, due)
    }

    /** The benchmark log of the session is the recorded one, unless an artifact
        of its name was there before. */
    twostate predicate LogKept(cycleId: string, logs: string)
      reads this
    {
      savesArtifacts ==> Keeps(old(files), files, ArtifactName(cycleId, "benchmark"), logs)
    }

    static predicate Keeps(before: map<string, string>, after: map<string, string>, name: string, logs: string) {
      name !in before ==> name in after && after[name] == logs
    }

    static lemma KeptAfterTwo(files: map<string, string>, reset: string, resetLogs: string, benchmark: string,
                              logs: string)
      requires reset != benchmark
      ensures Keeps(files, Saved(Saved(files, reset, resetLogs), benchmark, logs), benchmark, logs)
    {
    }

    /** So do the artifacts of one kind. */
    lemma ArtifactNameIdentifies(kind: string, cycleId: string, other: string)
      ensures ArtifactName(cycleId, kind) == ArtifactName(other, kind) <==> stem(cycleId) == stem(other)
    {
      var end := "-" + kind + ".log";
      assert ArtifactName(cycleId, kind) == stem(cycleId) + end && ArtifactName(other, kind) == stem(other) + end;
      var both := |ArtifactName(cycleId, kind)| == |ArtifactName(other, kind)|;
      assert both ==> ArtifactName(cycleId, kind)[..|stem(cycleId)|] == stem(cycleId);
      assert both ==> ArtifactName(other, kind)[..|stem(cycleId)|] == stem(other);
    }

    lemma ArtifactNamesDiffer(cycleId: string)
      ensures ArtifactName(cycleId, "reset") != ArtifactName(cycleId, "benchmark")
    {
      assert |ArtifactName(cycleId, "reset")| < |ArtifactName(cycleId, "benchmark")|;
    }

    /** When the reset Job succeeds on the first try and the listing of its pods is
        then lost, the session ends there, with the transport error's own message. */
    ghost predicate ResetUnread(cluster: Cluster, cycleId: string, before: seq<Event>, first: nat,
                                error: Option<string>)
      reads cluster
    {
      var reset := JobName("reset", cycleId);
      ListingLost(cluster.world, first, reset) ==>
        && error == Some(cluster.world(first + 4).transport.message)
        && cluster.events == before + JobEvents(reset, true)
    }

    /** One Job and then another, each with its logs. */
    method RunTwoJobs(cluster: Cluster, cycleId: string, kind: string, name: string, renderError: Option<string>,
                      nextKind: string, next: string, nextRenderError: Option<string>)
      returns (error: Option<string>, artifacts: seq<string>, logs: string, ghost cause: Cause)
      requires cluster.Valid() && Configured()
      requires name != next && ArtifactName(cycleId, kind) != ArtifactName(cycleId, nextKind)
      modifies cluster, this`files
      ensures cluster.Valid() && ArtifactsKept()
      ensures Later(cluster)
      ensures RanBoth(name, next, old(cluster.jobs.Keys), cluster.jobs.Keys, old(cluster.events), cluster.events,
                      error.None?)
      ensures error.None? ==> artifacts == Paths(cycleId, kind) + Paths(cycleId, nextKind)
      ensures error.None? && savesArtifacts ==> Keeps(old(files), files, ArtifactName(cycleId, nextKind), logs)
      ensures error.Some? || Collected(cluster.world, old(cluster.tick), cluster.seenAt, cluster.tick, logs)
      ensures error.Some? ==>
                || renderError.Some? || nextRenderError.Some?
                || Thwarted(cluster, name, old(cluster.tick), old(cluster.now))
                || Thwarted(cluster, next, old(cluster.tick), old(cluster.now))
      ensures Ended(cluster.world, old(cluster.tick), cluster.tick, Texts(renderError) + Texts(nextRenderError), cause,
                    error)
      ensures renderError.None? && name !in old(cluster.jobs) && ListingLost(cluster.world, old(cluster.tick), name) ==>
                && error == Some(cluster.world(old(cluster.tick) + 4).transport.message)
                && Ran(name, old(cluster.jobs.Keys), cluster.jobs.Keys, old(cluster.events), cluster.events, true)
    {
      ghost var start, from, known, before := cluster.events, cluster.tick, cluster.jobs.Keys, files;
      ghost var foreign := Texts(renderError) + Texts(nextRenderError);
      error, artifacts, logs, cause := RunJobWithLogs(cluster, cycleId, kind, name, renderError);
      ghost var middle, second, names, kept := cluster.events, cluster.tick, cluster.jobs.Keys, files;
      if error.Some? {
        EndedWiden(cluster.world, from, second, Texts(renderError), from, second, foreign, cause, error);
        RanFirst(name, next, known, names, start, middle);
        return;
      }
      ghost var firstLogs := logs;
      var paths;
      error, paths, logs, cause := RunJobWithLogs(cluster, cycleId, nextKind, next, nextRenderError);
      artifacts := artifacts + paths;
      PreservesTwice(before, kept, files);
      RanSecond(name, next, known, names, cluster.jobs.Keys, start, middle, cluster.events, error.None?);
      KeptAfterTwo(before, ArtifactName(cycleId, kind), firstLogs, ArtifactName(cycleId, nextKind), logs);
      EndedWiden(cluster.world, second, cluster.tick, Texts(nextRenderError), from, cluster.tick, foreign, cause,
                 error);
      ThwartedEarlier(cluster.world, second, from, cluster.tick);
    }

    lemma ThwartedEarlier(world: nat -> Exchange, from: nat, from': nat, upTo: nat)
      requires from' <= from
      ensures Cluster.Disturbed(world, from, upTo) ==> Cluster.Disturbed(world, from', upTo)
    {
    }

    /** The reset Job and then the benchmark Job. */
    method RunBothJobs(cluster: Cluster, cycleId: string, resetRenderError: Option<string>,
                       benchmarkRenderError: Option<string>)
      returns (error: Option<string>, artifacts: seq<string>, logs: string, ghost cause: Cause)
      requires cluster.Valid() && Configured()
      modifies cluster, this`files
      ensures cluster.Valid() && ArtifactsKept()
      ensures cluster.tick >= old(cluster.tick) && cluster.now >= old(cluster.now)
      ensures SessionSafe(cluster, cycleId)
      ensures error.None? ==> SessionComplete(cluster, cycleId)
      ensures error.None? ==> artifacts == Artifacts(cycleId)
      ensures error.None? ==> LogKept(cycleId, logs)
      ensures error.Some? || Collected(cluster.world, old(cluster.tick), cluster.seenAt, cluster.tick, logs)
      ensures error.Some? ==>
                || resetRenderError.Some? || benchmarkRenderError.Some?
                || SessionThwarted(cluster, cycleId, old(cluster.tick), old(cluster.now))
      ensures Ended(cluster.world, old(cluster.tick), cluster.tick,
                    Texts(resetRenderError) + Texts(benchmarkRenderError), cause, error)
      ensures resetRenderError.None? && JobName("reset", cycleId) !in old(cluster.jobs) ==>
                ResetUnread(cluster, cycleId, old(cluster.events), old(cluster.tick), error)
    {
      ArtifactNamesDiffer(cycleId);
      JobNamesDiffer(cycleId);
      error, artifacts, logs, cause := RunTwoJobs(
        cluster, cycleId, "reset", JobName("reset", cycleId), resetRenderError,
        "benchmark", JobName("benchmark", cycleId), benchmarkRenderError);
    }

    /** The texts of the exceptions that come from outside the protocol. */
    static function ForeignTexts(clientsError: Option<string>, resetRenderError: Option<string>,
                                 benchmarkRenderError: Option<string>): set<string>
    {
      Texts(clientsError) + (Texts(resetRenderError) + Texts(benchmarkRenderError))
    }

    method RunSession(cluster: Cluster, cycleId: string, scheduled: Option<int>, clientsError: Option<string>,
                      resetRenderError: Option<string>, benchmarkRenderError: Option<string>)
      returns (error: Option<string>, artifacts: seq<string>, logs: string, ghost cause: Cause)
      requires cluster.Valid() && Configured()
      modifies cluster, this`files
      ensures cluster.Valid() && ArtifactsKept()
      ensures SessionSafe(cluster, cycleId)
      ensures error.None? ==> SessionComplete(cluster, cycleId)
      ensures error.None? ==> artifacts == Artifacts(cycleId)
      ensures error.None? ==>
                && !Truthy(scriptError(logs)) && LogKept(cycleId, logs)
                && Collected(cluster.world, old(cluster.tick), cluster.seenAt, cluster.tick, logs)
      ensures clientsError.Some? ==> error == clientsError
      ensures clientsError.None? ==> cluster.now >= Due(old(cluster.now), scheduled)
      ensures error.Some? ==>
                || clientsError.Some? || resetRenderError.Some? || benchmarkRenderError.Some?
                || (SessionComplete(cluster, cycleId) && Truthy(scriptError(logs))
                    && Collected(cluster.world, old(cluster.tick), cluster.seenAt, cluster.tick, logs))
                || SessionThwarted(cluster, cycleId, old(cluster.tick), Due(old(cluster.now), scheduled))
      ensures Ended(cluster.world, old(cluster.tick), cluster.tick,
                    ForeignTexts(clientsError, resetRenderError, benchmarkRenderError), cause, error)
      ensures clientsError.None? && resetRenderError.None? && JobName("reset", cycleId) !in old(cluster.jobs) ==>
                ResetUnread(cluster, cycleId, old(cluster.events), old(cluster.tick), error)
    {
      if clientsError.Some? {
        return clientsError, [], "", Foreign(clientsError.value);
      }
      ghost var naps := WaitUntilScheduled(cluster, scheduled);
      ghost var from := cluster.tick;
      error, artifacts, logs, cause := RunBothJobs(cluster, cycleId, resetRenderError, benchmarkRenderError);
      EndedWiden(cluster.world, from, cluster.tick, Texts(resetRenderError) + Texts(benchmarkRenderError), from,
                 cluster.tick, ForeignTexts(clientsError, resetRenderError, benchmarkRenderError), cause, error);
      if error.None? && Truthy(scriptError(logs)) {
        cause := Told;
        error := Some("benchmark script failed to load: " + scriptError(logs).value);
      }
    }

    /** The events of the session since the old state are an initial part of a
        complete session that creates exactly the Jobs that did not exist. */
    twostate predicate SessionSafe(cluster: Cluster, cycleId: string)
      reads cluster
    {
      && old(cluster.jobs.Keys) <= cluster.jobs.Keys
      && Within(old(cluster.events), cluster.events, SessionEvents(cycleId, old(cluster.jobs.Keys)))
    }

    twostate predicate SessionComplete(cluster: Cluster, cycleId: string)
      reads cluster
    {
      cluster.events == old(cluster.events)
        + SessionEvents(cycleId, old(cluster.jobs.Keys))
    }

    /** The receipt's validators: a positive latency and an error rate in [0, 1]. */
    predicate InRange(figures: (Option<real>, Option<real>)) {
      && (figures.0.Some? ==> figures.0.value > 0.0)
      && (figures.1.Some? ==> 0.0 <= figures.1.value <= 1.0)
    }

    /** A log of a finished session that gives no receipt: the script did not
        load, a figure is malformed, or the validators refuse the figures. */
    predicate Unusable(logs: string) {
      || Truthy(scriptError(logs)) || figuresOf(logs).Failure?
      || var (latency, rate) := figuresOf(logs).value;
         || (latency.Some? && latency.value <= 0.0)
         || (rate.Some? && (rate.value < 0.0 || rate.value > 1.0))
    }

    /** The receipt's figures are read from a usable log. */
    predicate MeasuredFrom(receipt: SessionReceipt, logs: string) {
      !Unusable(logs) && (receipt.p95LatencyMs, receipt.errorRate) == figuresOf(logs).value
    }

    /** `reason` is the text of what ended the session; a log that cannot be parsed
        is one of this session's. */
    ghost predicate SessionEnded(world: nat -> Exchange, from: nat, upTo: nat, foreign: set<string>, cause: Cause,
                                 reason: Option<string>)
    {
      if cause.Malformed? then
        && LogsOf(world, from, upTo, cause.logs) && figuresOf(cause.logs).Failure?
        && reason == Some(figuresOf(cause.logs).error)
      else
        Ended(world, from, upTo, foreign, cause, reason)
    }

    /** The text of the exception that ended a session; the executor's own words
        count as none, being never empty. */
    function EndingText(world: nat -> Exchange, cause: Cause): Option<string> {
      match cause
      case Completed => None
      case Told => None
      case PassedOn(t) => if world(t).transport.Delivered? then None else Some(world(t).transport.message)
      case Foreign(text) => Some(text)
      case Malformed(logs) => if figuresOf(logs).Failure? then Some(figuresOf(logs).error) else None
    }

    /** No exception that can end a session has an empty text: none of a request in
        the range, of the client or a template, or of reading a figure. */
    ghost predicate Outspoken(world: nat -> Exchange, from: nat, upTo: nat, foreign: set<string>) {
      && (forall t :: from <= t < upTo && !world(t).transport.Delivered? ==> world(t).transport.message != "")
      && "" !in foreign
      && (forall logs :: LogsOf(world, from, upTo, logs) && figuresOf(logs).Failure? ==> figuresOf(logs).error != "")
    }

    /** The failure reason is the empty text exactly when the exception that ended the
        session has an empty text, which takes one that is not outspoken. */
    lemma ReasonIsEmptyIff(world: nat -> Exchange, from: nat, upTo: nat, foreign: set<string>, cause: Cause,
                           reason: Option<string>)
      requires SessionEnded(world, from, upTo, foreign, cause, reason)
      ensures reason == Some("") <==> EndingText(world, cause) == Some("")
      ensures Outspoken(world, from, upTo, foreign) ==> reason != Some("")
      ensures reason == None <==> cause.Completed?
    {
    }

    /** Execute a session. Whatever the transport does, its events follow the
        protocol, no Job that existed is created again, no artifact is replaced,
        and a receipt without a failure reason means the complete session, ending
        with the benchmark Job seen succeeded and measured from its logs. A
        failure reason always has a cause: no client or template, a complete session
        whose delivered logs give no receipt, a request without a proper answer,
        a failed Job, or time. */
    method Execute(cluster: Cluster, hasTarget: bool, cycleId: string, scheduled: Option<int>,
                   clientsError: Option<string>,
                   resetRenderError: Option<string>, benchmarkRenderError: Option<string>)
      returns (r: Result<SessionReceipt, string>, ghost cause: Cause)
      requires cluster.Valid() && Configured()
      modifies cluster, this`files
      ensures cluster.Valid() && ArtifactsKept()
      ensures r.Failure? <==> !hasTarget
      ensures r.Failure? ==> cluster.events == old(cluster.events)
      ensures SessionSafe(cluster, cycleId)
      ensures r.Success? && r.value.failureReason.None? ==>
                && SessionComplete(cluster, cycleId)
                && r.value.jobName == Some(JobName("benchmark", cycleId))
                && r.value.artifactPaths == Artifacts(cycleId)
                && cluster.now >= Due(old(cluster.now), scheduled)
                && (scheduled.Some? ==> cluster.now >= scheduled.value)
                && exists logs ::
                     && MeasuredFrom(r.value, logs) && LogKept(cycleId, logs)
                     && Collected(cluster.world, old(cluster.tick), cluster.seenAt, cluster.tick, logs)
      ensures r.Success? && r.value.failureReason.Some? ==>
                || clientsError.Some? || resetRenderError.Some? || benchmarkRenderError.Some?
                || (SessionComplete(cluster, cycleId)
                    && exists logs ::
                         && Collected(cluster.world, old(cluster.tick), cluster.seenAt, cluster.tick, logs)
                         && Unusable(logs))
                || SessionThwarted(cluster, cycleId, old(cluster.tick), Due(old(cluster.now), scheduled))
      ensures r.Success? ==>
                SessionEnded(cluster.world, old(cluster.tick), cluster.tick,
                             ForeignTexts(clientsError, resetRenderError, benchmarkRenderError), cause,
                             r.value.failureReason)
      ensures hasTarget && clientsError.None? && resetRenderError.None?
              && JobName("reset", cycleId) !in old(cluster.jobs) ==>
                r.Success? && ResetUnread(cluster, cycleId, old(cluster.events), old(cluster.tick),
                                          r.value.failureReason)
    {
      if !hasTarget {
        return Result.Failure("no Kubernetes target configured"), Told;
      }
      var error, artifacts, logs;
      error, artifacts, logs, cause := RunSession(cluster, cycleId, scheduled, clientsError, resetRenderError,
                                                  benchmarkRenderError);
      if error.Some? {
        return Success(SessionReceipt(error, None, artifacts, None, None)), cause;
      }
      var figures := figuresOf(logs);
      if figures.Failure? {
        return Success(SessionReceipt(Some(figures.error), None, artifacts, None, None)), Malformed(logs);
      }
      if !InRange(figures.value) {
        return Success(SessionReceipt(Some("figures out of range"), None, artifacts, None, None)), Told;
      }
      var receipt := SessionReceipt(None, Some(JobName("benchmark", cycleId)), artifacts, figures.value.0,
                                    figures.value.1);
      assert MeasuredFrom(receipt, logs);
      return Success(receipt), Completed;
    }
  }

  lemma TwoJobsCut(start: seq<Event>, middle: seq<Event>, reset: string, benchmark: string,
                   createdReset: bool, createdBenchmark: bool)
    requires Within(start, middle, JobEvents(reset, createdReset))
    ensures Within(start, middle, FullSession(reset, benchmark, createdReset, createdBenchmark))
  {
  }

  lemma TwoJobs(start: seq<Event>, middle: seq<Event>, end: seq<Event>, reset: string, benchmark: string,
                createdReset: bool, createdBenchmark: bool)
    requires middle == start + JobEvents(reset, createdReset)
    requires Within(middle, end, JobEvents(benchmark, createdBenchmark))
    ensures Within(start, end, FullSession(reset, benchmark, createdReset, createdBenchmark))
    ensures end == middle + JobEvents(benchmark, createdBenchmark) ==>
              end == start + FullSession(reset, benchmark, createdReset, createdBenchmark)
  {
    assert end == middle + end[|middle|..];
    assert end[|start|..] == JobEvents(reset, createdReset) + end[|middle|..];
  }
}
