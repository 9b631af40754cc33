/** `Resolver.EnsureRandom` (internal/secrets/secrets.go): concurrent callers against a write-once parameter store. */
module Secrets {
  import opened Text
  import opened Sampler

  /** `base64.RawURLEncoding.EncodedLen`. */
  function EncodedLen(nbytes: nat): nat {
    (nbytes * 8 + 5) / 6
  }

  /** Requests for fewer than sixteen bytes are raised to sixteen. */
  function SecretLen(nbytes: int): nat {
    EncodedLen(if nbytes < 16 then 16 else nbytes)
  }

  /** Where one call stands; `name` is the reference with `{env}` expanded. */
  datatype Call =
    | Reading(name: string, nbytes: int)
    | Generating(name: string, nbytes: int)
    | Writing(name: string, nbytes: int, text: string)
    | Returned(name: string, nbytes: int, value: string)
    | Failed(name: string, nbytes: int)

  datatype State = State(store: map<string, string>, calls: map<nat, Call>)

  /**
   * Get, generate, put. Any request may fail, and a put may take effect although its answer is lost. `random` is what
   * the random source yields; None is a failed read.
   */
  datatype Step =
    | Begin(call: nat, name: string, nbytes: int)
    | Read(call: nat)
    | ReadFails(call: nat)
    | Generate(call: nat, random: Option<seq<Byte>>)
    | Write(call: nat)
    | WriteFails(call: nat, applied: bool)

  function Get(s: State, call: nat): Option<Call> {
    if call in s.calls then Some(s.calls[call]) else None
  }

  function Put(s: State, call: nat, to: Call): State {
    s.(calls := s.calls[call := to])
  }

  /** `Overwrite: false`: a name that is there keeps its value. */
  function PutParameter(store: map<string, string>, name: string, text: string): map<string, string> {
    if name in store then store else store[name := text]
  }

  function Next(s: State, step: Step): Option<State> {
    match step
    case Begin(id, name, nbytes) => if id in s.calls then None else Some(Put(s, id, Reading(name, nbytes)))
    case Read(id) =>
      (match Get(s, id)
       case Some(Reading(name, nbytes)) =>
         Some(Put(s, id, if name in s.store then Returned(name, nbytes, s.store[name]) else Generating(name, nbytes)))
       case _ => None)
    case ReadFails(id) =>
      (match Get(s, id)
       case Some(Reading(name, nbytes)) => Some(Put(s, id, Failed(name, nbytes)))
       case _ => None)
    case Generate(id, random) =>
      (match Get(s, id)
       case Some(Generating(name, nbytes)) =>
         if random.None? then Some(Put(s, id, Failed(name, nbytes)))
         else if |Accepted(random.value)| < SecretLen(nbytes) then None
         else Some(Put(s, id, Writing(name, nbytes, Accepted(random.value)[..SecretLen(nbytes)])))
       case _ => None)
    case Write(id) =>
      (match Get(s, id)
       case Some(Writing(name, nbytes, text)) =>
         if name in s.store then Some(Put(s, id, Failed(name, nbytes)))
         else Some(Put(s.(store := s.store[name := text]), id, Returned(name, nbytes, text)))
       case _ => None)
    case WriteFails(id, applied) =>
      (match Get(s, id)
       case Some(Writing(name, nbytes, text)) =>
         var store := if applied then PutParameter(s.store, name, text) else s.store;
         Some(Put(s.(store := store), id, Failed(name, nbytes)))
       case _ => None)
  }

  function Run(s: State, steps: seq<Step>): Option<State>
    decreases |steps|
  {
    if steps == [] then Some(s)
    else
      var next := Next(s, steps[0]);
      if next.None? then None else Run(next.value, steps[1..])
  }

  /** No call under way, whatever the store holds. */
  predicate IsStart(s: State) {
    s.calls == map[]
  }

  /**
   * Letters and digits, the fewest that six bits each make up the bytes asked for, of which there are at least sixteen.
   */
  ghost predicate IsGenerated(text: string, nbytes: int) {
    var bytes := if nbytes < 16 then 16 else nbytes;
    InAlphabet(text) && 6 * (|text| - 1) < 8 * bytes <= 6 * |text|
  }

  lemma SecretIsGenerated(text: string, nbytes: int)
    requires InAlphabet(text) && |text| == SecretLen(nbytes)
    ensures IsGenerated(text, nbytes)
  {
  }

  /** Some call for the name asked for as many bytes as the text stands for. */
  ghost predicate IsMade(calls: map<nat, Call>, name: string, text: string) {
    exists id :: id in calls && calls[id].name == name && IsGenerated(text, calls[id].nbytes)
  }

  ghost predicate Inv(first: map<string, string>, s: State) {
    && (forall name :: name in first ==> name in s.store && s.store[name] == first[name])
    && (forall name :: name in s.store && name !in first ==> IsMade(s.calls, name, s.store[name]))
    && forall id :: id in s.calls ==> CallOk(s.store, s.calls[id])
  }

  ghost predicate CallOk(store: map<string, string>, call: Call) {
    match call
    case Writing(_, nbytes, text) => IsGenerated(text, nbytes)
    case Returned(name, _, value) => name in store && store[name] == value
    case _ => true
  }

  /** A store only ever gains names. */
  predicate Grows(before: map<string, string>, after: map<string, string>) {
    forall name :: name in before ==> name in after && after[name] == before[name]
  }

  lemma CallOkGrows(before: map<string, string>, after: map<string, string>, call: Call)
    requires Grows(before, after) && CallOk(before, call)
    ensures CallOk(after, call)
  {
  }

  lemma TakenLetters(random: seq<Byte>, n: nat)
    requires n <= |Accepted(random)|
    ensures InAlphabet(Accepted(random)[..n])
  {
    AcceptedInAlphabet(random);
    var text := Accepted(random);
    assert forall k :: 0 <= k < n ==> text[..n][k] == text[k];
  }

  lemma StepGrows(s: State, step: Step)
    requires Next(s, step).Some?
    ensures Grows(s.store, Next(s, step).value.store)
  {
  }

  /** A call keeps the name and the size it began with. */
  lemma MadeStays(s: State, step: Step, name: string, text: string)
    requires Next(s, step).Some? && IsMade(s.calls, name, text)
    ensures IsMade(Next(s, step).value.calls, name, text)
  {
    var id :| id in s.calls && s.calls[id].name == name && IsGenerated(text, s.calls[id].nbytes);
    var next := Next(s, step).value;
    assert id in next.calls && next.calls[id].name == name && next.calls[id].nbytes == s.calls[id].nbytes;
  }

  lemma StepKeepsInv(first: map<string, string>, s: State, step: Step)
    requires Inv(first, s) && Next(s, step).Some?
    ensures Inv(first, Next(s, step).value)
  {
    var next := Next(s, step).value;
    StepGrows(s, step);
    if step.Generate? && step.random.Some? {
      var nbytes := s.calls[step.call].nbytes;
      TakenLetters(step.random.value, SecretLen(nbytes));
      SecretIsGenerated(Accepted(step.random.value)[..SecretLen(nbytes)], nbytes);
    }
    forall name | name in next.store && name !in first ensures IsMade(next.calls, name, next.store[name]) {
      if name in s.store {
        MadeStays(s, step, name, s.store[name]);
      } else {
        assert next.calls[step.call].name == name && IsGenerated(next.store[name], next.calls[step.call].nbytes);
      }
    }
    forall id | id in next.calls ensures CallOk(next.store, next.calls[id]) {
      if id in s.calls {
        CallOkGrows(s.store, next.store, s.calls[id]);
      }
    }
  }

  lemma {:induction false} RunKeepsInv(first: map<string, string>, s: State, steps: seq<Step>)
    requires Inv(first, s) && Run(s, steps).Some?
    ensures Inv(first, Run(s, steps).value)
    ensures Grows(s.store, Run(s, steps).value.store)
    decreases |steps|
  {
    if steps != [] {
      StepKeepsInv(first, s, steps[0]);
      StepGrows(s, steps[0]);
      RunKeepsInv(first, Next(s, steps[0]).value, steps[1..]);
    }
  }

  /**
   * Over every interleaving and every failure: all the calls for a name that succeed return one value, the stored one;
   * it is the value the store began with, or one as long as some call for the name asked.
   */
  lemma AllCallersAgree(start: State, steps: seq<Step>, a: nat, b: nat)
    requires IsStart(start) && Run(start, steps).Some?
    requires a in Run(start, steps).value.calls && b in Run(start, steps).value.calls
    requires Run(start, steps).value.calls[a].Returned? && Run(start, steps).value.calls[b].Returned?
    requires Run(start, steps).value.calls[a].name == Run(start, steps).value.calls[b].name
    ensures var end := Run(start, steps).value;
            var name := end.calls[a].name;
            && name in end.store && end.calls[a].value == end.calls[b].value == end.store[name]
            && if name in start.store then end.store[name] == start.store[name]
               else IsMade(end.calls, name, end.store[name])
  {
    RunKeepsInv(start.store, start, steps);
  }

  /** A name that holds a value holds it for good. */
  lemma StoredValueStays(start: State, steps: seq<Step>, more: seq<Step>, name: string)
    requires IsStart(start) && Run(start, steps).Some? && Run(Run(start, steps).value, more).Some?
    requires name in Run(start, steps).value.store
    ensures name in Run(Run(start, steps).value, more).value.store
    ensures Run(Run(start, steps).value, more).value.store[name] == Run(start, steps).value.store[name]
  {
    RunKeepsInv(start.store, start, steps);
    RunKeepsInv(start.store, Run(start, steps).value, more);
  }

  /**
   * A failed call is no verdict on the store: its put may have landed, or another call's, and then the next call to
   * read returns that value.
   */
  lemma FailedCallMayHaveStored(name: string, nbytes: int, random: seq<Byte>)
    requires |Accepted(random)| >= SecretLen(nbytes)
    ensures var start := State(map[], map[]);
            var text := Accepted(random)[..SecretLen(nbytes)];
            var end := Run(start, [Begin(0, name, nbytes), Read(0), Generate(0, Some(random)), WriteFails(0, true),
                                   Begin(1, name, nbytes), Read(1)]);
            && end.Some? && Get(end.value, 0) == Some(Failed(name, nbytes))
            && Get(end.value, 1) == Some(Returned(name, nbytes, text))
  {
    var steps := [Begin(0, name, nbytes), Read(0), Generate(0, Some(random)), WriteFails(0, true),
                  Begin(1, name, nbytes), Read(1)];
    var s0 := State(map[], map[]);
    var s1 := Next(s0, steps[0]).value;
    var s2 := Next(s1, steps[1]).value;
    var s3 := Next(s2, steps[2]).value;
    var s4 := Next(s3, steps[3]).value;
    var s5 := Next(s4, steps[4]).value;
    var s6 := Next(s5, steps[5]).value;
    assert Run(s6, steps[6..]) == Some(s6);
    assert steps[5..][1..] == steps[6..] && Run(s5, steps[5..]) == Some(s6);
    assert steps[4..][1..] == steps[5..] && Run(s4, steps[4..]) == Some(s6);
    assert steps[3..][1..] == steps[4..] && Run(s3, steps[3..]) == Some(s6);
    assert steps[2..][1..] == steps[3..] && Run(s2, steps[2..]) == Some(s6);
    assert steps[1..][1..] == steps[2..] && Run(s1, steps[1..]) == Some(s6);
  }
}
