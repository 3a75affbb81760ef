/**
 * The sandboxed virtual machine, seen only at its interface: it runs a probe,
 * calls every registered before-call hook just before each call the probe
 * makes, and ends by returning, by a hook's abort signal, by an interpreted
 * exception or by some other fault. What the bootstrap code does in between is
 * an oracle (`Behaviour`), not modelled.
 */
module Sandbox {
  import opened Wrappers
  import opened Bytecode

  /** The class and descriptor of the lookup call the hook waits for. */
  const LOOKUP_OWNER := "java/lang/invoke/MethodHandles$Lookup"
  const LOOKUP_DESC := "(Ljava/lang/Class;Ljava/lang/String;Ljava/lang/invoke/MethodType;)Ljava/lang/invoke/MethodHandle;"

  /** A value inside the sandbox, as far as resolution can read it. */
  datatype Value =
    | ClassMirror(mirrored: ClassNode)
    | StringValue(s: string)
    | MethodTypeValue(signature: string)
    | NullValue
    | OtherValue(tag: int)

  /**
   * One call the probe is about to make: the callee's class and method, the
   * class of the calling frame (top of the sandbox's stack), and the arguments.
   */
  datatype CallInfo = CallInfo(owner: string, name: string, desc: string, caller: ClassNode, params: seq<Value>)

  /** How a run ends when no hook aborts it. */
  datatype Ending = Returned | ThrewVMException | Faulted

  /** Everything one execution of a probe would do, absent any abort. */
  datatype Run = Run(calls: seq<CallInfo>, ending: Ending)

  /** What `execute` yields: an abort by a hook with the captured arguments, or one of the ends of a run. */
  datatype Outcome = Aborted(captured: seq<Value>) | VMExc | OtherFault | Completed

  /**
   * The oracle: the run of the `n`-th execution (the index stands for the
   * sandbox's state so far) of the probe with the given name and body on a class.
   */
  type Behaviour = (nat, ClassNode, string, seq<Insn>) -> Run

  /** The `data` list a hook appends the captured arguments to. */
  class CaptureBuffer {
    var items: seq<Value>

    constructor ()
      ensures items == []
    {
      items := [];
    }
  }

  /** The before-call hook registered for one site: the class under analysis and its capture list. */
  datatype Hook = LookupHook(analysed: ClassNode, data: CaptureBuffer)

  /**
   * The hook's test: the callee is the lookup class with the lookup descriptor,
   * and the calling frame belongs to the class under analysis (by identity).
   */
  predicate Fires(call: CallInfo, analysed: ClassNode) {
    && call.owner == LOOKUP_OWNER
    && call.desc == LOOKUP_DESC
    && call.caller == analysed
  }

  /** Some hook, registered for one of `targets`, fires on `call`. */
  predicate AnyFires(call: CallInfo, targets: seq<ClassNode>) {
    exists k :: 0 <= k < |targets| && Fires(call, targets[k])
  }

  /** The classes the registered hooks watch for. */
  function Targets(hooks: seq<Hook>): (ts: seq<ClassNode>)
    ensures |ts| == |hooks|
    ensures forall k :: 0 <= k < |hooks| ==> ts[k] == hooks[k].analysed
  {
    seq(|hooks|, k requires 0 <= k < |hooks| => hooks[k].analysed)
  }

  /** The index of the first call on which a hook fires, if any. */
  function FirstHookedCall(calls: seq<CallInfo>, targets: seq<ClassNode>): (r: Option<nat>)
    ensures r.Some? ==> r.value < |calls| && AnyFires(calls[r.value], targets)
    ensures r.Some? ==> forall j :: 0 <= j < r.value ==> !AnyFires(calls[j], targets)
    ensures r.None? ==> forall j :: 0 <= j < |calls| ==> !AnyFires(calls[j], targets)
  {
    if |calls| == 0 then None
    else if AnyFires(calls[0], targets) then Some(0)
    else
      match FirstHookedCall(calls[1..], targets)
      case None => None
      case Some(i) => Some(i + 1)
  }

  /** The index of the first hook in the list that fires on `call`. */
  function FirstFiringHook(call: CallInfo, hooks: seq<Hook>): (k: nat)
    requires AnyFires(call, Targets(hooks))
    ensures k < |hooks| && Fires(call, hooks[k].analysed)
    ensures forall j :: 0 <= j < k ==> !Fires(call, hooks[j].analysed)
  {
    if Fires(call, hooks[0].analysed) then 0
    else
      assert AnyFires(call, Targets(hooks[1..])) by {
        var k :| 0 <= k < |hooks| && Fires(call, Targets(hooks)[k]);
        assert k != 0 && Targets(hooks[1..])[k - 1] == hooks[k].analysed;
      }
      1 + FirstFiringHook(call, hooks[1..])
  }

  /**
   * The outcome of a run with hooks watching `targets`: the first call on which
   * a hook fires aborts the run with that call's arguments; otherwise the run
   * ends on its own.
   */
  function RunOutcome(run: Run, targets: seq<ClassNode>): Outcome
  {
    match FirstHookedCall(run.calls, targets)
    case Some(i) => Aborted(run.calls[i].params)
    case None =>
      match run.ending
      case Returned => Completed
      case ThrewVMException => VMExc
      case Faulted => OtherFault
  }

  /**
   * A run is aborted exactly when some call fires a hook, and then with the
   * arguments of the first such call; otherwise its own ending decides.
   */
  lemma RunOutcomeMeaning(run: Run, targets: seq<ClassNode>)
    ensures var o := RunOutcome(run, targets);
            && (o.Aborted? <==> exists i :: 0 <= i < |run.calls| && AnyFires(run.calls[i], targets))
            && (o.Aborted? ==> exists i :: && 0 <= i < |run.calls| && AnyFires(run.calls[i], targets)
                                           && o.captured == run.calls[i].params
                                           && forall j :: 0 <= j < i ==> !AnyFires(run.calls[j], targets))
    ensures var o := RunOutcome(run, targets);
            var quiet := forall i :: 0 <= i < |run.calls| ==> !AnyFires(run.calls[i], targets);
            && (o.Completed? <==> quiet && run.ending == Returned)
            && (o.VMExc? <==> quiet && run.ending == ThrewVMException)
            && (o.OtherFault? <==> quiet && run.ending == Faulted)
  {
  }

  /** What a run appends to capture list `b`: the aborting call's arguments, if the hook that fired owns `b`. */
  function Captures(b: CaptureBuffer, run: Run, hooks: seq<Hook>): seq<Value> {
    match FirstHookedCall(run.calls, Targets(hooks))
    case None => []
    case Some(i) =>
      if hooks[FirstFiringHook(run.calls[i], hooks)].data == b then run.calls[i].params else []
  }

  /** The sandbox: its oracle, how many probes it has run, and its before-call hook list. */
  class VirtualMachine {
    const behaviour: Behaviour
    var executions: nat
    var beforeCallHooks: seq<Hook>

    constructor (behaviour: Behaviour)
      ensures this.behaviour == behaviour
      ensures executions == 0 && beforeCallHooks == []
    {
      this.behaviour := behaviour;
      executions := 0;
      beforeCallHooks := [];
    }

    /**
     * `execute(classNode, probe)`: runs the probe; the first hook that fires
     * appends the call's arguments to its capture list and aborts the run.
     */
    method Execute(cls: ClassNode, probe: MethodNode) returns (outcome: Outcome)
      modifies this`executions, set h | h in beforeCallHooks :: h.data
      ensures executions == old(executions) + 1
      ensures outcome == RunOutcome(behaviour(old(executions), cls, probe.name, probe.instructions), Targets(beforeCallHooks))
      ensures forall h :: h in beforeCallHooks ==>
                h.data.items == old(h.data.items) + Captures(h.data, behaviour(old(executions), cls, probe.name, probe.instructions), beforeCallHooks)
    {
      var run := behaviour(executions, cls, probe.name, probe.instructions);
      executions := executions + 1;
      match FirstHookedCall(run.calls, Targets(beforeCallHooks))
      case Some(i) =>
        var k := FirstFiringHook(run.calls[i], beforeCallHooks);
        var buffer := beforeCallHooks[k].data;
        buffer.items := buffer.items + run.calls[i].params;
        outcome := Aborted(run.calls[i].params);
      case None =>
        match run.ending
        case Returned => outcome := Completed;
        case ThrewVMException => outcome := VMExc;
        case Faulted => outcome := OtherFault;
    }
  }
}
