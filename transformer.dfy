/**
 * The transformer's driving loops and per-site session, as the state changes
 * they make: the probe is attached to and detached from the class's method
 * table, one hook is registered and then cleared on the sandbox, the capture
 * list is filled by the hook, and replacements are queued in an instruction
 * modifier and applied once per method.
 */
module Invokedynamic2Transformer {
  import opened Wrappers
  import opened Bytecode
  import opened Sandbox
  import opened Decryption

  /** A method's instruction list with the queued replacements, keyed by position, put in. */
  function Patched(s: seq<Insn>, replacements: map<nat, Insn>): seq<Insn> {
    seq(|s|, i requires 0 <= i < |s| => if i in replacements then replacements[i] else s[i])
  }

  /** The pending patch set of one method. */
  class InstructionModifier {
    var replacements: map<nat, Insn>

    constructor ()
      ensures replacements == map[]
    {
      replacements := map[];
    }

    /** Queues `call` in place of the instruction at `index`. */
    method Replace(index: nat, call: Insn)
      modifies this
      ensures replacements == old(replacements)[index := call]
    {
      replacements := replacements[index := call];
    }

    /** Applies every queued replacement to the method in one step. */
    method Apply(m: MethodNode)
      modifies m`instructions
      ensures m.instructions == Patched(old(m.instructions), replacements)
    {
      m.instructions := Patched(m.instructions, replacements);
    }
  }

  /** Builds the throwaway probe method for one site. */
  method BuildProbe(site: Insn, count: nat) returns (probe: MethodNode)
    requires site.InvokeDynamic?
    ensures fresh(probe)
    ensures probe.access == PROBE_ACCESS && probe.name == ProbeName(count) && probe.desc == PROBE_DESC
    ensures probe.instructions == ProbeBody(site)
  {
    probe := new MethodNode(PROBE_ACCESS, ProbeName(count), PROBE_DESC);
    var argTypes := site.argTypes;
    for k := 0 to |argTypes|
      invariant |probe.instructions| == k
      invariant forall j :: 0 <= j < k ==> probe.instructions[j] == Zero(argTypes[j])
    {
      probe.instructions := probe.instructions + [Zero(argTypes[k])];
    }
    probe.instructions := probe.instructions + [site, Simple(RETURN)];
  }

  /**
   * One site's session: build the probe, register the hook with a fresh
   * capture list, attach the probe, execute it; then, on every outcome, detach
   * the probe and clear the hooks; finally gate on the capture length and resolve.
   */
  method TrySite(vm: VirtualMachine, cls: ClassNode, site: Insn, count: nat, table: MethodTable)
    returns (replacement: Option<Insn>)
    requires IsCandidate(site, cls.name)
    requires vm.beforeCallHooks == []
    modifies cls`methods, vm`executions, vm`beforeCallHooks
    ensures cls.methods == old(cls.methods)
    ensures vm.beforeCallHooks == []
    ensures vm.executions == old(vm.executions) + 1
    ensures replacement == SiteReplacement(vm.behaviour, old(vm.executions), cls, site, count, table)
  {
    var probe := BuildProbe(site, count);
    var data := new CaptureBuffer();
    var hook := LookupHook(cls, data);
    vm.beforeCallHooks := vm.beforeCallHooks + [hook];
    assert Targets(vm.beforeCallHooks) == [cls];
    ghost var run := vm.behaviour(vm.executions, cls, probe.name, probe.instructions);

    cls.methods := cls.methods + [probe];
    var outcome := vm.Execute(cls, probe);
    assert outcome == RunOutcome(run, [cls]);
    assert data.items == CapturedBy(outcome) by {
      assert hook in vm.beforeCallHooks;
    }

    // The cleanup that runs on every exit path.
    RemoveFirstAppended(old(cls.methods), probe);
    cls.methods := RemoveFirst(cls.methods, probe);
    vm.beforeCallHooks := [];

    if outcome.VMExc? || outcome.OtherFault? {
      return None;
    }
    if |data.items| != 3 {
      return None;
    }
    replacement := Resolve(data.items, table);
  }

  /**
   * Tries every qualifying site of a method in order, counting probes from 0,
   * and applies the queued replacements once at the end.
   */
  method ProcessMethod(vm: VirtualMachine, cls: ClassNode, m: MethodNode, table: MethodTable)
    requires vm.beforeCallHooks == []
    modifies m`instructions, cls`methods, vm`executions, vm`beforeCallHooks
    ensures cls.methods == old(cls.methods)
    ensures vm.beforeCallHooks == []
    ensures vm.executions == old(vm.executions) + CandidateCount(old(m.instructions), cls.name)
    ensures m.instructions == RewriteMethod(old(m.instructions), vm.behaviour, old(vm.executions), cls, table)
  {
    var modifier := new InstructionModifier();
    var count := 0;
    ghost var first := vm.executions;
    var code := m.instructions;
    var i := 0;
    while i < |code|
      invariant ScanProgress(code, i, count, modifier.replacements, vm.behaviour, first, cls, table)
      invariant m.instructions == code
      invariant vm.executions == first + count
      invariant cls.methods == old(cls.methods)
      invariant vm.beforeCallHooks == []
    {
      var insn := code[i];
      ghost var queued := modifier.replacements;
      if IsCandidate(insn, cls.name) {
        ghost var run := vm.executions;
        var r := TrySite(vm, cls, insn, count, table);
        if r.Some? {
          modifier.Replace(i, r.value);
        }
        ScanAdvance(code, i, count, run, r, queued, modifier.replacements, vm.behaviour, first, cls, table);
        count := count + 1;
      } else {
        ScanSkip(code, i, count, queued, vm.behaviour, first, cls, table);
      }
      i := i + 1;
    }
    assert code[..i] == code;
    PatchedIsRewrite(code, modifier.replacements, vm.behaviour, first, cls, table);
    modifier.Apply(m);
  }

  /**
   * The state of a method's scan after `i` instructions: `count` probes have
   * been built, only positions already scanned are queued, and the queue
   * agrees with `RewriteMethod` on every scanned position.
   */
  predicate ScanProgress(code: seq<Insn>, i: nat, count: nat, queue: map<nat, Insn>,
                         behaviour: Behaviour, first: nat, cls: ClassNode, table: MethodTable)
  {
    && i <= |code|
    && count == CandidateCount(code[..i], cls.name)
    && (forall j :: j in queue ==> j < i)
    && forall j {:trigger RewrittenAt(code, j, behaviour, first, cls, table)} :: 0 <= j < i ==>
         RewrittenAt(code, j, behaviour, first, cls, table) == if j in queue then queue[j] else code[j]
  }

  /** Scanning a qualifying site: its session's replacement, if any, is queued at its position. */
  lemma ScanAdvance(code: seq<Insn>, i: nat, count: nat, run: nat, r: Option<Insn>, queued: map<nat, Insn>, next: map<nat, Insn>,
                    behaviour: Behaviour, first: nat, cls: ClassNode, table: MethodTable)
    requires ScanProgress(code, i, count, queued, behaviour, first, cls, table) && i < |code|
    requires IsCandidate(code[i], cls.name) && run == first + count
    requires r == SiteReplacement(behaviour, run, cls, code[i], count, table)
    requires next == if r.Some? then queued[i := r.value] else queued
    ensures ScanProgress(code, i + 1, count + 1, next, behaviour, first, cls, table)
  {
    CandidateCountStep(code, cls.name, i);
    RewrittenAtSite(code, i, count, run, behaviour, first, cls, table, r);
    QueuedStep(code, i, queued, next, behaviour, first, cls, table);
  }

  /** Scanning any other instruction changes nothing but the position. */
  lemma ScanSkip(code: seq<Insn>, i: nat, count: nat, queued: map<nat, Insn>,
                 behaviour: Behaviour, first: nat, cls: ClassNode, table: MethodTable)
    requires ScanProgress(code, i, count, queued, behaviour, first, cls, table) && i < |code|
    requires !IsCandidate(code[i], cls.name)
    ensures ScanProgress(code, i + 1, count, queued, behaviour, first, cls, table)
  {
    CandidateCountStep(code, cls.name, i);
    QueuedStep(code, i, queued, queued, behaviour, first, cls, table);
  }

  /** A qualifying site ends up as its session's replacement, or as it was. */
  lemma RewrittenAtSite(s: seq<Insn>, i: nat, count: nat, run: nat, behaviour: Behaviour, first: nat, cls: ClassNode, table: MethodTable, r: Option<Insn>)
    requires i < |s| && IsCandidate(s[i], cls.name)
    requires count == CandidateCount(s[..i], cls.name) && run == first + count
    requires r == SiteReplacement(behaviour, run, cls, s[i], count, table)
    ensures RewrittenAt(s, i, behaviour, first, cls, table) == if r.Some? then r.value else s[i]
  {
  }

  /** Extending the agreement between the queue and the rewrite by one position. */
  lemma QueuedStep(s: seq<Insn>, i: nat, queued: map<nat, Insn>, next: map<nat, Insn>,
                   behaviour: Behaviour, first: nat, cls: ClassNode, table: MethodTable)
    requires i < |s|
    requires forall j :: 0 <= j < i ==>
               RewrittenAt(s, j, behaviour, first, cls, table) == if j in queued then queued[j] else s[j]
    requires RewrittenAt(s, i, behaviour, first, cls, table) == if i in next then next[i] else s[i]
    requires forall j :: j in next && j != i ==> j in queued && next[j] == queued[j]
    requires forall j :: j in queued ==> j in next && j != i
    ensures forall j :: 0 <= j <= i ==>
              RewrittenAt(s, j, behaviour, first, cls, table) == if j in next then next[j] else s[j]
  {
  }

  lemma PatchedIsRewrite(s: seq<Insn>, r: map<nat, Insn>, behaviour: Behaviour, first: nat, cls: ClassNode, table: MethodTable)
    requires forall j :: 0 <= j < |s| ==>
               RewrittenAt(s, j, behaviour, first, cls, table) == if j in r then r[j] else s[j]
    ensures Patched(s, r) == RewriteMethod(s, behaviour, first, cls, table)
  {
  }

  /** `ms[k]` occurs nowhere else in `ms`. */
  predicate OccursOnce(ms: seq<MethodNode>, k: nat)
    requires k < |ms|
  {
    ms[k] !in ms[..k] && ms[k] !in ms[k + 1..]
  }

  /** Each method's turn starts where the previous one's qualifying sites left the run counter. */
  predicate RunsChain(runs: seq<nat>, befores: seq<seq<Insn>>, className: string) {
    && |runs| == |befores| + 1
    && forall j {:trigger befores[j]} :: 0 <= j < |befores| ==>
         runs[j + 1] == runs[j] + CandidateCount(befores[j], className)
  }

  lemma RunsChainExtend(runs: seq<nat>, befores: seq<seq<Insn>>, className: string, before: seq<Insn>, next: nat)
    requires RunsChain(runs, befores, className)
    requires next == runs[|befores|] + CandidateCount(before, className)
    ensures RunsChain(runs + [next], befores + [before], className)
  {
    var r, b := runs + [next], befores + [before];
    forall j | 0 <= j < |b|
      ensures r[j + 1] == r[j] + CandidateCount(b[j], className)
    {
      if j < |befores| {
        assert b[j] == befores[j] && r[j] == runs[j] && r[j + 1] == runs[j + 1];
      }
    }
  }

  /**
   * The state of a class's method loop after `k` turns, over the snapshot `ms`:
   * `olds` and `now` are the instruction lists of the snapshot's entries at the
   * start and now, consistent across entries naming the same method node. A
   * method not reached yet is untouched, a method listed once and already
   * processed is `RewriteMethod` of its original instructions, and every entry
   * only has qualifying sites replaced.
   */
  ghost predicate ClassProgress(ms: seq<MethodNode>, k: nat, olds: seq<seq<Insn>>, now: seq<seq<Insn>>,
                                runs: seq<nat>, befores: seq<seq<Insn>>,
                                behaviour: Behaviour, cls: ClassNode, table: MethodTable)
  {
    && k <= |ms| && |olds| == |ms| && |now| == |ms| && |befores| == k
    && RunsChain(runs, befores, cls.name)
    && (forall i, j :: 0 <= i < |ms| && 0 <= j < |ms| && ms[i] == ms[j] ==> olds[i] == olds[j] && now[i] == now[j])
    && (forall j :: k <= j < |ms| && ms[j] !in ms[..k] ==> now[j] == olds[j])
    && (forall j :: 0 <= j < k && OccursOnce(ms, j) ==>
          befores[j] == olds[j] && now[j] == RewriteMethod(befores[j], behaviour, runs[j], cls, table))
    && (forall j :: 0 <= j < |ms| ==> RewrittenFor(olds[j], now[j], cls.name))
  }

  /** One turn of the loop: the `k`-th entry is processed, and every entry naming the same node sees the result. */
  lemma ProgressStep(ms: seq<MethodNode>, k: nat, olds: seq<seq<Insn>>, now: seq<seq<Insn>>, now': seq<seq<Insn>>,
                     runs: seq<nat>, befores: seq<seq<Insn>>,
                     behaviour: Behaviour, cls: ClassNode, table: MethodTable, after: seq<Insn>, next: nat)
    requires ClassProgress(ms, k, olds, now, runs, befores, behaviour, cls, table) && k < |ms|
    requires after == RewriteMethod(now[k], behaviour, runs[k], cls, table)
    requires next == runs[k] + CandidateCount(now[k], cls.name)
    requires |now'| == |ms| && forall j :: 0 <= j < |ms| ==> now'[j] == if ms[j] == ms[k] then after else now[j]
    ensures ClassProgress(ms, k + 1, olds, now', runs + [next], befores + [now[k]], behaviour, cls, table)
  {
    RunsChainExtend(runs, befores, cls.name, now[k], next);
    RewriteMethodIsRewrite(now[k], behaviour, runs[k], cls, table);
    StepRewritten(ms, k, olds, now, now', after, cls.name);
    StepUntouched(ms, k, olds, now, now', after);
    StepProcessed(ms, k, olds, now, now', runs, befores, behaviour, cls, table, after, next);
  }

  lemma StepRewritten(ms: seq<MethodNode>, k: nat, olds: seq<seq<Insn>>, now: seq<seq<Insn>>, now': seq<seq<Insn>>,
                      after: seq<Insn>, owner: string)
    requires k < |ms| == |olds| == |now| == |now'|
    requires forall j :: 0 <= j < |ms| ==> RewrittenFor(olds[j], now[j], owner)
    requires forall i, j :: 0 <= i < |ms| && 0 <= j < |ms| && ms[i] == ms[j] ==> now[i] == now[j]
    requires RewrittenFor(now[k], after, owner)
    requires forall j :: 0 <= j < |ms| ==> now'[j] == if ms[j] == ms[k] then after else now[j]
    ensures forall j :: 0 <= j < |ms| ==> RewrittenFor(olds[j], now'[j], owner)
  {
    forall j | 0 <= j < |ms| && ms[j] == ms[k]
      ensures RewrittenFor(olds[j], now'[j], owner)
    {
      RewrittenForTransitive(olds[j], now[j], after, owner);
    }
  }

  lemma StepUntouched(ms: seq<MethodNode>, k: nat, olds: seq<seq<Insn>>, now: seq<seq<Insn>>, now': seq<seq<Insn>>,
                      after: seq<Insn>)
    requires k < |ms| == |olds| == |now| == |now'|
    requires forall j :: k <= j < |ms| && ms[j] !in ms[..k] ==> now[j] == olds[j]
    requires forall i, j :: 0 <= i < |ms| && 0 <= j < |ms| && ms[i] == ms[j] ==> olds[i] == olds[j] && now[i] == now[j]
    requires forall j :: 0 <= j < |ms| ==> now'[j] == if ms[j] == ms[k] then after else now[j]
    ensures forall j :: k + 1 <= j < |ms| && ms[j] !in ms[..k + 1] ==> now'[j] == olds[j]
    ensures forall i, j :: 0 <= i < |ms| && 0 <= j < |ms| && ms[i] == ms[j] ==> olds[i] == olds[j] && now'[i] == now'[j]
  {
    assert ms[..k + 1] == ms[..k] + [ms[k]];
  }

  lemma StepProcessed(ms: seq<MethodNode>, k: nat, olds: seq<seq<Insn>>, now: seq<seq<Insn>>, now': seq<seq<Insn>>,
                      runs: seq<nat>, befores: seq<seq<Insn>>,
                      behaviour: Behaviour, cls: ClassNode, table: MethodTable, after: seq<Insn>, next: nat)
    requires k < |ms| == |olds| == |now| == |now'| && |befores| == k && |runs| == k + 1
    requires forall j :: k <= j < |ms| && ms[j] !in ms[..k] ==> now[j] == olds[j]
    requires forall j :: 0 <= j < k && OccursOnce(ms, j) ==>
               befores[j] == olds[j] && now[j] == RewriteMethod(befores[j], behaviour, runs[j], cls, table)
    requires after == RewriteMethod(now[k], behaviour, runs[k], cls, table)
    requires forall j :: 0 <= j < |ms| ==> now'[j] == if ms[j] == ms[k] then after else now[j]
    ensures var runs', befores' := runs + [next], befores + [now[k]];
            forall j :: 0 <= j < k + 1 && OccursOnce(ms, j) ==>
              befores'[j] == olds[j] && now'[j] == RewriteMethod(befores'[j], behaviour, runs'[j], cls, table)
  {
    var runs', befores' := runs + [next], befores + [now[k]];
    forall j | 0 <= j < k + 1 && OccursOnce(ms, j)
      ensures befores'[j] == olds[j] && now'[j] == RewriteMethod(befores'[j], behaviour, runs'[j], cls, table)
    {
      if j < k {
        assert ms[k] == ms[j + 1..][k - j - 1];
        assert befores'[j] == befores[j] && runs'[j] == runs[j];
      } else {
        assert ms[k] !in ms[..k];
      }
    }
  }

  /**
   * Processes every method of a class, iterating over a copy of its method
   * table. `runs[k]` is the sandbox's run number when method `k`'s turn came
   * and `befores[k]` its instructions then: each method's qualifying sites cost
   * one run each, and a method listed once ends as `RewriteMethod` of its
   * original instructions.
   */
  method ProcessClass(vm: VirtualMachine, cls: ClassNode, table: MethodTable)
    returns (ghost runs: seq<nat>, ghost befores: seq<seq<Insn>>)
    requires vm.beforeCallHooks == []
    modifies cls`methods, vm`executions, vm`beforeCallHooks, cls.methods
    ensures cls.methods == old(cls.methods)
    ensures vm.beforeCallHooks == []
    ensures RunsChain(runs, befores, cls.name) && |befores| == |cls.methods|
    ensures runs[0] == old(vm.executions) && runs[|befores|] == vm.executions
    ensures forall k :: 0 <= k < |cls.methods| && OccursOnce(cls.methods, k) ==>
              && befores[k] == old(cls.methods[k].instructions)
              && cls.methods[k].instructions == RewriteMethod(befores[k], vm.behaviour, runs[k], cls, table)
    ensures forall m :: m in cls.methods ==> RewrittenFor(old(m.instructions), m.instructions, cls.name)
  {
    var snapshot := cls.methods;
    ghost var olds := seq(|snapshot|, j requires 0 <= j < |snapshot| reads snapshot => snapshot[j].instructions);
    ghost var now := olds;
    runs, befores := [vm.executions], [];
    for k := 0 to |snapshot|
      invariant ClassProgress(snapshot, k, olds, now, runs, befores, vm.behaviour, cls, table)
      invariant cls.methods == snapshot
      invariant vm.beforeCallHooks == []
      invariant runs[0] == old(vm.executions) && runs[k] == vm.executions
      invariant forall j :: 0 <= j < |snapshot| ==> olds[j] == old(snapshot[j].instructions)
      invariant forall j :: 0 <= j < |snapshot| ==> snapshot[j].instructions == now[j]
    {
      var m := snapshot[k];
      ProcessMethod(vm, cls, m, table);
      ghost var now' := seq(|snapshot|, j requires 0 <= j < |snapshot| reads snapshot =>
                              if snapshot[j] == m then m.instructions else now[j]);
      ProgressStep(snapshot, k, olds, now, now', runs, befores, vm.behaviour, cls, table, m.instructions, vm.executions);
      runs, befores, now := runs + [vm.executions], befores + [now[k]], now';
    }
  }

  /**
   * The transformer's entry point: a fresh sandbox, then every method of every
   * class; the class tables end as they began, and each method only has
   * qualifying sites replaced by direct calls. It always reports `false`.
   */
  method Transform(classes: seq<ClassNode>, behaviour: Behaviour, table: MethodTable) returns (changed: bool)
    modifies classes, set c, m | c in classes && m in c.methods :: m
    ensures !changed
    ensures forall c :: c in classes ==> c.methods == old(c.methods)
    ensures forall c, m :: c in classes && m in c.methods ==> Rewritten(old(m.instructions), m.instructions)
  {
    ghost var nodes := set c, m | c in classes && m in c.methods :: m;
    var vm := new VirtualMachine(behaviour);
    for k := 0 to |classes|
      invariant fresh(vm) && vm.beforeCallHooks == []
      invariant forall c :: c in classes ==> c.methods == old(c.methods)
      invariant forall c, m :: c in classes && m in c.methods ==> Rewritten(old(m.instructions), m.instructions)
      modifies classes, nodes, vm
    {
      var cls := classes[k];
      assert forall m :: m in cls.methods ==> m in nodes;
      ghost var before := map m | m in cls.methods :: m.instructions;
      ghost var runs, befores := ProcessClass(vm, cls, table);
      forall m | m in cls.methods
        ensures Rewritten(old(m.instructions), m.instructions)
      {
        RewrittenForIsRewritten(before[m], m.instructions, cls.name);
        RewrittenTransitive(old(m.instructions), before[m], m.instructions);
      }
    }
    changed := false;
  }
}
