/**
 * `Verifier.keyFor` (internal/configd/oidc.go) under any interleaving: the lock is released between lookup and store.
 */
module KeyCache {
  import opened Text

  type Keys = map<string, nat>

  /** The documents the realms serve: what an issuer's JWKS endpoint answers at each moment. */
  type Served = (string, nat) -> Keys

  /** time.Hour, in the machine's clock ticks (nanoseconds). */
  const HOUR: nat := 3_600_000_000_000

  /** `fetched` is the source's stamp; `started`, when that fetch was sent, is kept for the statements only. */
  datatype Entry = Entry(keys: Keys, fetched: nat, started: nat)

  /** Where one call stands. `called` is when it began. */
  datatype Call =
    | Looking(issuer: string, kid: string, called: nat)
    | Checking(issuer: string, kid: string, called: nat, entry: Option<Entry>)
    | Fetching(issuer: string, kid: string, called: nat, started: nat)
    | Storing(issuer: string, kid: string, called: nat, started: nat, keys: Keys)
    | Returned(issuer: string, kid: string, called: nat, key: nat, at: nat, entry: Option<Entry>)
    | NotFound(issuer: string, kid: string, called: nat, started: nat, at: nat)
    | Failed(issuer: string, kid: string, called: nat)

  datatype State = State(now: nat, cache: map<string, Entry>, calls: map<nat, Call>)

  datatype Step =
    | Tick(ticks: nat)
    | Begin(call: nat, issuer: string, kid: string)
    | Lookup(call: nat)
    | Check(call: nat)
    | Respond(call: nat)
    | Fail(call: nat)
    | Store(call: nat)

  /** `ok && time.Since(entry.fetched) < time.Hour` and the kid is there. */
  predicate Hit(entry: Option<Entry>, kid: string, now: nat) {
    entry.Some? && now - entry.value.fetched < HOUR && kid in entry.value.keys
  }

  function Get(s: State, call: nat): Option<Call> {
    if call in s.calls then Some(s.calls[call]) else None
  }

  function Put(s: State, call: nat, to: Call): State {
    s.(calls := s.calls[call := to])
  }

  /** The machine: None when the step is not possible. */
  function Next(served: Served, s: State, step: Step): Option<State> {
    match step
    case Tick(ticks) => Some(s.(now := s.now + ticks))
    case Begin(id, issuer, kid) =>
      if id in s.calls then None else Some(Put(s, id, Looking(issuer, kid, s.now)))
    case Lookup(id) =>
      (match Get(s, id)
       case Some(Looking(issuer, kid, called)) =>
         var entry := if issuer in s.cache then Some(s.cache[issuer]) else None;
         Some(Put(s, id, Checking(issuer, kid, called, entry)))
       case _ => None)
    case Check(id) =>
      (match Get(s, id)
       case Some(Checking(issuer, kid, called, entry)) =>
         Some(Put(s, id, if Hit(entry, kid, s.now)
                         then Returned(issuer, kid, called, entry.value.keys[kid], s.now, entry)
                         else Fetching(issuer, kid, called, s.now)))
       case _ => None)
    case Respond(id) =>
      (match Get(s, id)
       case Some(Fetching(issuer, kid, called, started)) =>
         Some(Put(s, id, Storing(issuer, kid, called, started, served(issuer, s.now))))
       case _ => None)
    case Fail(id) =>
      (match Get(s, id)
       case Some(Fetching(issuer, kid, called, _)) => Some(Put(s, id, Failed(issuer, kid, called)))
       case _ => None)
    case Store(id) =>
      (match Get(s, id)
       case Some(Storing(issuer, kid, called, started, keys)) =>
         var entry := Entry(keys, s.now, started);
         var stored := s.(cache := s.cache[issuer := entry]);
         Some(Put(stored, id, if kid in keys then Returned(issuer, kid, called, keys[kid], s.now, Some(entry))
                              else NotFound(issuer, kid, called, started, s.now)))
       case _ => None)
  }

  function Run(served: Served, s: State, steps: seq<Step>): Option<State>
    decreases |steps|
  {
    if steps == [] then Some(s)
    else
      var next := Next(served, s, steps[0]);
      if next.None? then None else Run(served, next.value, steps[1..])
  }

  const INITIAL := State(0, map[], map[])

  /** The keys are a document this issuer served between the two moments. */
  ghost predicate ServedBetween(served: Served, issuer: string, keys: Keys, from: nat, to: nat) {
    exists moment: nat :: from <= moment <= to && served(issuer, moment) == keys
  }

  ghost predicate Sourced(served: Served, issuer: string, entry: Entry, now: nat) {
    entry.fetched <= now && ServedBetween(served, issuer, entry.keys, entry.started, entry.fetched)
  }

  /** What is known about one call. */
  ghost predicate CallOk(served: Served, call: Call, now: nat) {
    match call
    case Looking(_, _, called) => called <= now
    case Checking(issuer, _, called, entry) =>
      called <= now && (entry.Some? ==> Sourced(served, issuer, entry.value, now))
    case Fetching(_, _, called, started) => called <= started <= now
    case Storing(issuer, _, called, started, keys) =>
      called <= started <= now && ServedBetween(served, issuer, keys, started, now)
    case Returned(issuer, kid, called, key, at, entry) =>
      && called <= at <= now && entry.Some? && Sourced(served, issuer, entry.value, at)
      && at - entry.value.fetched < HOUR && kid in entry.value.keys && entry.value.keys[kid] == key
    case NotFound(issuer, kid, called, started, at) =>
      called <= started <= at <= now
      && exists moment: nat :: started <= moment <= at && kid !in served(issuer, moment)
    case Failed(_, _, _) => true
  }

  ghost predicate Inv(served: Served, s: State) {
    && (forall issuer :: issuer in s.cache ==> Sourced(served, issuer, s.cache[issuer], s.now))
    && (forall id :: id in s.calls ==> CallOk(served, s.calls[id], s.now))
  }

  lemma ServedLater(served: Served, issuer: string, keys: Keys, from: nat, to: nat, later: nat)
    requires ServedBetween(served, issuer, keys, from, to) && to <= later
    ensures ServedBetween(served, issuer, keys, from, later)
  {
  }

  lemma CallOkLater(served: Served, call: Call, now: nat, later: nat)
    requires CallOk(served, call, now) && now <= later
    ensures CallOk(served, call, later)
  {
    if call.Storing? { ServedLater(served, call.issuer, call.keys, call.started, now, later); }
  }

  lemma StepKeepsInv(served: Served, s: State, step: Step)
    requires Inv(served, s) && Next(served, s, step).Some?
    ensures Inv(served, Next(served, s, step).value)
  {
    match step
    case Tick(ticks) =>
      forall id | id in s.calls ensures CallOk(served, s.calls[id], s.now + ticks) {
        CallOkLater(served, s.calls[id], s.now, s.now + ticks);
      }
    case Respond(id) =>
      var c := s.calls[id];
      assert ServedBetween(served, c.issuer, served(c.issuer, s.now), c.started, s.now);
    case Store(id) =>
      var c := s.calls[id];
      assert CallOk(served, c, s.now);
      var moment: nat :| c.started <= moment <= s.now && served(c.issuer, moment) == c.keys;
    case _ =>
  }

  lemma {:induction false} RunKeepsInv(served: Served, s: State, steps: seq<Step>)
    requires Inv(served, s) && Run(served, s, steps).Some?
    ensures Inv(served, Run(served, s, steps).value)
    decreases |steps|
  {
    if steps != [] {
      StepKeepsInv(served, s, steps[0]);
      RunKeepsInv(served, Next(served, s, steps[0]).value, steps[1..]);
    }
  }

  /**
   * Whatever the interleaving, a returned key was in a document the call's own issuer served less than an hour plus the
   * length of the fetch that brought it before the key was handed out.
   */
  lemma ReturnedKeyIsRecent(served: Served, steps: seq<Step>, id: nat) returns (moment: nat)
    requires Run(served, INITIAL, steps).Some?
    requires Get(Run(served, INITIAL, steps).value, id).Some?
    requires Get(Run(served, INITIAL, steps).value, id).value.Returned?
    ensures var c := Get(Run(served, INITIAL, steps).value, id).value;
            && c.kid in served(c.issuer, moment) && served(c.issuer, moment)[c.kid] == c.key
            && c.entry.Some? && c.entry.value.started <= moment <= c.at
            && c.at - moment < 3_600_000_000_000 + (c.entry.value.fetched - c.entry.value.started)
  {
    RunKeepsInv(served, INITIAL, steps);
    var s := Run(served, INITIAL, steps).value;
    assert CallOk(served, s.calls[id], s.now);
    var entry := s.calls[id].entry.value;
    moment :| entry.started <= moment <= entry.fetched && served(s.calls[id].issuer, moment) == entry.keys;
  }

  /** "Not found" is never said from the cache: the kid is missing from a document served during this very call. */
  lemma NotFoundIsFresh(served: Served, steps: seq<Step>, id: nat) returns (moment: nat)
    requires Run(served, INITIAL, steps).Some?
    requires Get(Run(served, INITIAL, steps).value, id).Some?
    requires Get(Run(served, INITIAL, steps).value, id).value.NotFound?
    ensures var c := Get(Run(served, INITIAL, steps).value, id).value;
            c.called <= moment <= c.at && c.kid !in served(c.issuer, moment)
  {
    RunKeepsInv(served, INITIAL, steps);
    var s := Run(served, INITIAL, steps).value;
    assert CallOk(served, s.calls[id], s.now);
    var c := s.calls[id];
    moment :| c.started <= moment <= c.at && c.kid !in served(c.issuer, moment);
  }

  lemma RunStep(served: Served, s: State, steps: seq<Step>, next: State)
    requires steps != [] && Next(served, s, steps[0]) == Some(next)
    ensures Run(served, s, steps) == Run(served, next, steps[1..])
  {
  }

  /** A key withdrawn after moment 0. */
  function Withdrawn(issuer: string, moment: nat): Keys {
    if moment == 0 then map["k" := 7] else map[]
  }

  /**
   * Call 1 fetches at 0 but stores late, over the newer document call 2 has stored; call 3 reads what call 1 stored.
   */
  function SlowFetch(d: nat): seq<Step> {
    [Begin(1, "r", "k"), Lookup(1), Check(1), Respond(1), Tick(1),
     Begin(2, "r", "k"), Lookup(2), Check(2), Respond(2), Store(2)] + LateStore(d)
  }

  function LateStore(d: nat): seq<Step> {
    [Tick(d), Store(1), Begin(3, "r", "k"), Lookup(3), Tick(HOUR - 1), Check(3)]
  }

  lemma SlowFetchHead(d: nat) returns (s: State)
    ensures Run(Withdrawn, INITIAL, SlowFetch(d)) == Run(Withdrawn, s, LateStore(d))
    ensures s.now == 1 && s.cache == map["r" := Entry(map[], 1, 1)]
    ensures Get(s, 1) == Some(Storing("r", "k", 0, 0, map["k" := 7])) && 3 !in s.calls
  {
    var steps := SlowFetch(d);
    s := INITIAL;
    for i := 0 to 10
      invariant Run(Withdrawn, INITIAL, steps) == Run(Withdrawn, s, steps[i..])
      invariant 3 !in s.calls && s.now == if i < 5 then 0 else 1
      invariant s.cache == if i < 10 then map[] else map["r" := Entry(map[], 1, 1)]
      invariant Get(s, 1) == if i == 0 then None
                             else if i == 1 then Some(Looking("r", "k", 0))
                             else if i == 2 then Some(Checking("r", "k", 0, None))
                             else if i == 3 then Some(Fetching("r", "k", 0, 0))
                             else Some(Storing("r", "k", 0, 0, map["k" := 7]))
      invariant Get(s, 2) == if i < 6 then None
                             else if i == 6 then Some(Looking("r", "k", 1))
                             else if i == 7 then Some(Checking("r", "k", 1, None))
                             else if i == 8 then Some(Fetching("r", "k", 1, 1))
                             else if i == 9 then Some(Storing("r", "k", 1, 1, map[]))
                             else Some(NotFound("r", "k", 1, 1, 1))
    {
      assert steps[i..][0] == steps[i] && steps[i..][1..] == steps[i + 1..];
      var next := Next(Withdrawn, s, steps[i]).value;
      RunStep(Withdrawn, s, steps[i..], next);
      s := next;
    }
    assert steps[10..] == LateStore(d);
  }

  /** A run told state by state. */
  lemma {:induction false} RunTold(served: Served, states: seq<State>, steps: seq<Step>)
    requires |states| == |steps| + 1
    requires forall i :: 0 <= i < |steps| ==> Next(served, states[i], steps[i]) == Some(states[i + 1])
    ensures Run(served, states[0], steps) == Some(states[|steps|])
    decreases |steps|
  {
    if steps != [] {
      assert Next(served, states[0], steps[0]) == Some(states[1]);
      RunTold(served, states[1..], steps[1..]);
    }
  }

  /** From a state in which call 1 is about to store a key served at 0. */
  lemma LateStoreRuns(s: State, d: nat, issuer: string, kid: string, keys: Keys)
    requires issuer == "r" && kid == "k" && kid in keys && s.now == 1 && 3 !in s.calls
    requires Get(s, 1) == Some(Storing(issuer, kid, 0, 0, keys))
    ensures Run(Withdrawn, s, LateStore(d)).Some?
    ensures var call := Get(Run(Withdrawn, s, LateStore(d)).value, 3);
            call.Some? && call.value.Returned? && call.value.key == keys[kid] && call.value.at == d + 3_600_000_000_000
  {
    var entry := Entry(keys, d + 1, 0);
    var s1 := s.(now := d + 1);
    var s2 := Put(s1.(cache := s1.cache[issuer := entry]), 1, Returned(issuer, kid, 0, keys[kid], d + 1, Some(entry)));
    var s3 := Put(s2, 3, Looking(issuer, kid, d + 1));
    var s4 := Put(s3, 3, Checking(issuer, kid, d + 1, Some(entry)));
    var s5 := s4.(now := d + HOUR);
    var s6 := Put(s5, 3, Returned(issuer, kid, d + 1, keys[kid], d + HOUR, Some(entry)));
    RunTold(Withdrawn, [s, s1, s2, s3, s4, s5, s6], LateStore(d));
  }

  /**
   * An hour alone is not a bound: the older fetch wins over the newer, and its key is handed out d + HOUR ticks after
   * the realm last served it, d being how long that fetch was held up.
   */
  lemma HourAloneIsNoBound(d: nat)
    ensures Run(Withdrawn, INITIAL, SlowFetch(d)).Some?
    ensures var call := Get(Run(Withdrawn, INITIAL, SlowFetch(d)).value, 3);
            call.Some? && call.value.Returned? && call.value.key == 7 && call.value.at == d + 3_600_000_000_000
    ensures forall moment: nat :: "k" in Withdrawn("r", moment) ==> moment == 0
  {
    var s := SlowFetchHead(d);
    LateStoreRuns(s, d, "r", "k", map["k" := 7]);
  }
}
