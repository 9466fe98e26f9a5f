/**
 * The parts of assets/scripts/utils.js with a contract: the `get` trap of
 * `createInitProxy`, a two-state lifecycle (not initiated, initiated) driven by property
 * reads, and `getRandomChoice`, whose random index is a nondeterministic choice in range.
 */
module Utils {
  import opened Wrappers

  datatype ProxyError = CannotReinitialize | MustInitiate(initProp: string)

  /** The effect of one property read: the flag afterwards and whether the read throws. */
  datatype Step = Step(initiated: bool, outcome: Outcome<ProxyError>)

  /** The `get` trap as a transition of the `initiated` flag. */
  function Trap(initiated: bool, prop: string, initProp: string, allowReinitialization: bool): (r: Step)
    ensures initiated ==> r.initiated
    ensures r.outcome.Pass? ==> r.initiated
    ensures r.outcome.Fail? ==> r.initiated == initiated
    ensures !initiated && prop != initProp ==> r == Step(false, Fail(MustInitiate(initProp)))
    ensures !initiated && prop == initProp ==> r == Step(true, Pass)
    ensures initiated && prop == initProp ==> (r.outcome.Pass? <==> allowReinitialization)
    ensures initiated && prop != initProp ==> r == Step(true, Pass)
  {
    if !allowReinitialization && initiated && prop == initProp then Step(initiated, Fail(CannotReinitialize))
    else if !initiated && prop != initProp then Step(initiated, Fail(MustInitiate(initProp)))
    else Step(true, Pass)
  }

  /** The flag after a series of reads, and whether each read threw. */
  function Replay(initiated: bool, props: seq<string>, initProp: string, allowReinitialization: bool): (r: (bool, seq<Outcome<ProxyError>>))
    ensures |r.1| == |props|
    decreases |props|
  {
    if props == [] then (initiated, [])
    else
      var step := Trap(initiated, props[0], initProp, allowReinitialization);
      var rest := Replay(step.initiated, props[1..], initProp, allowReinitialization);
      (rest.0, [step.outcome] + rest.1)
  }

  /** Once initiated, the object stays initiated and every read of another property succeeds. */
  lemma {:induction false} InitiatedIsFinal(props: seq<string>, initProp: string, allowReinitialization: bool)
    ensures Replay(true, props, initProp, allowReinitialization).0
    ensures forall i :: 0 <= i < |props| && props[i] != initProp ==>
              Replay(true, props, initProp, allowReinitialization).1[i] == Pass
    ensures forall i :: 0 <= i < |props| && props[i] == initProp ==>
              (Replay(true, props, initProp, allowReinitialization).1[i] == Pass <==> allowReinitialization)
    decreases |props|
  {
    if props != [] {
      InitiatedIsFinal(props[1..], initProp, allowReinitialization);
    }
  }

  /** Until initProp is read, every read throws and the object stays uninitiated. */
  lemma {:induction false} GuardedUntilInit(props: seq<string>, initProp: string, allowReinitialization: bool)
    requires forall i :: 0 <= i < |props| ==> props[i] != initProp
    ensures !Replay(false, props, initProp, allowReinitialization).0
    ensures forall i :: 0 <= i < |props| ==>
              Replay(false, props, initProp, allowReinitialization).1[i] == Fail(MustInitiate(initProp))
    decreases |props|
  {
    if props != [] {
      GuardedUntilInit(props[1..], initProp, allowReinitialization);
    }
  }

  /** The object returned by `createInitProxy(wrappee, initProp, allowReinitialization)`. */
  class InitProxy<V> {
    const target: map<string, V>
    const initProp: string
    const allowReinitialization: bool
    var initiated: bool

    constructor (wrappee: map<string, V>, initProp: string, allowReinitialization: bool)
      ensures target == wrappee && this.initProp == initProp
      ensures this.allowReinitialization == allowReinitialization && !initiated
    {
      target := wrappee;
      this.initProp := initProp;
      this.allowReinitialization := allowReinitialization;
      initiated := false;
    }

    /** A property read: throws per `Trap`, otherwise the wrapped value (None for undefined). */
    method Get(prop: string) returns (r: Result<Option<V>, ProxyError>)
      modifies this
      ensures var step := Trap(old(initiated), prop, initProp, allowReinitialization);
              initiated == step.initiated &&
              (step.outcome.Fail? ==> r == Err(step.outcome.error)) &&
              (step.outcome.Pass? ==> r == Ok(if prop in target then Some(target[prop]) else None))
    {
      if !allowReinitialization && initiated && prop == initProp {
        return Err(CannotReinitialize);
      } else if !initiated && prop != initProp {
        return Err(MustInitiate(initProp));
      }
      initiated := true;
      r := Ok(if prop in target then Some(target[prop]) else None);
    }
  }

  /** A JavaScript argument: a plain value or an array of values. */
  datatype JsValue<T> = Scalar(value: T) | List(items: seq<JsValue<T>>)

  /** The options `getRandomChoice` draws from: an array given first is unwrapped. */
  function ChoiceOptions<T>(args: seq<JsValue<T>>): (options: seq<JsValue<T>>)
    ensures |args| > 0 && args[0].List? ==> options == args[0].items
    ensures !(|args| > 0 && args[0].List?) ==> options == args
  {
    if |args| > 0 && args[0].List? then args[0].items else args
  }

  /** `getRandomChoice(...options)`: null for no options, else one of them. */
  method GetRandomChoice<T>(args: seq<JsValue<T>>) returns (r: Option<JsValue<T>>)
    ensures r.None? <==> |ChoiceOptions(args)| == 0
    ensures r.Some? ==> r.value in ChoiceOptions(args)
  {
    var options := ChoiceOptions(args);
    if |options| == 0 {
      return None;
    }
    var randomIndex :| 0 <= randomIndex <= |options| - 1;
    return Some(options[randomIndex]);
  }
}
