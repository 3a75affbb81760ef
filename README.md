# Invokedynamic2Transformer — a verified model

Stringer's second invokedynamic mode replaces direct method calls with
`invokedynamic` instructions. Each of those instructions has a bootstrap
method in the same class, with the descriptor
`(Ljava/lang/Object;Ljava/lang/String;Ljava/lang/invoke/MethodType;)Ljava/lang/Object;`.
At run time the bootstrap decrypts the real target and looks it up with
`MethodHandles$Lookup`. The deobfuscator's `Invokedynamic2Transformer`
reverses this. It scans every method of every class for such sites. For each
site it does the following:

1. It builds a throwaway static probe method `Decrypt<n>`. The probe pushes a
   zero value per argument, repeats the site and returns.
2. It attaches the probe to the class and runs it in a sandboxed JVM.
3. A hook in the sandbox aborts the run at the first lookup call that the
   class itself makes. The hook keeps that call's (owner, name, type)
   arguments.
4. The probe is detached and the hook cleared on every path.
5. If exactly three values were captured and they name a member the lookup
   finds, the site is queued for replacement by a direct call. The call uses
   `INVOKESTATIC`, `INVOKEINTERFACE` or `INVOKEVIRTUAL`.
6. The queued replacements of a method are applied together.

The model has four modules:

- `Bytecode` (`bytecode.dfy`) has instructions, access flags and opcodes. It
  also has the mutable method and class nodes, and the removal of a method by
  identity from a class's method list.
- `Sandbox` (`sandbox.dfy`) is the sandboxed JVM. What a run does is a
  parameter, `Behaviour`. For an execution index, a class, a probe name and a
  probe body, it gives the calls the interpreter makes, in order, and how the
  run ends. The class `VirtualMachine` holds the registered hooks and the
  execution counter. `Execute` fills the capture buffer of the hook that
  fires first.
- `Decryption` (`decryption.dfy`) holds the pure decisions:
  - which sites qualify;
  - the probe's name and body;
  - how a captured triple resolves to a direct call;
  - the instruction list a whole method ends up with (`RewriteMethod`).
- `Invokedynamic2Transformer` (`transformer.dfy`) holds the state changes:
  - the per-site session (`TrySite`);
  - the instruction modifier;
  - the loops over methods (`ProcessMethod`, over a snapshot of the method
    list in `ProcessClass`) and over classes (`Transform`).

  Each method is proved against the functions in `Decryption`.

The source's `continue` in the exception handlers runs through the `finally`
block. So the model removes the probe and clears the hooks on every outcome,
before it decides anything. A site whose run completes without the hook
firing leaves an empty capture list. That fails the length gate, as in the
source. Three behaviours of the code worth noting:

- A patched site never qualifies again, but a site the pass could not
  resolve stays as it was and is tried again on a later pass
  (`PatchedSitesStable`).
- The hook appends every argument of the lookup call to the capture list.
  Only afterwards does the code require exactly three entries.
- The cleanup clears the whole hook list, not only the hook added for the
  site.

## Model

| member | source | states |
|---|---|---|
| Bytecode.MethodNode.constructor | src/main/java/com/javadeobfuscator/deobfuscator/transformers/stringer/invokedynamic/Invokedynamic2Transformer.java:70 | A new method node has the given access, name and descriptor, and an empty instruction list. |
| Bytecode.IsStatic | src/main/java/com/javadeobfuscator/deobfuscator/transformers/stringer/invokedynamic/Invokedynamic2Transformer.java:123 | Defines the static test as the `ACC_STATIC` bit of the access flags. |
| Bytecode.IsInterface | src/main/java/com/javadeobfuscator/deobfuscator/transformers/stringer/invokedynamic/Invokedynamic2Transformer.java:126 | Defines the interface test as the `ACC_INTERFACE` bit of the access flags. |
| Bytecode.IndexOf | src/main/java/com/javadeobfuscator/deobfuscator/transformers/stringer/invokedynamic/Invokedynamic2Transformer.java:103 | The position of the first element equal to the one removed: it holds that element, and no earlier position does. |
| Bytecode.RemoveFirst | src/main/java/com/javadeobfuscator/deobfuscator/transformers/stringer/invokedynamic/Invokedynamic2Transformer.java:103 | Removing a method from a method list drops exactly the first occurrence of it and keeps the other elements in order. As a multiset, one copy is gone. When the method is absent, nothing changes. |
| Bytecode.RemoveFirstAppended | src/main/java/com/javadeobfuscator/deobfuscator/transformers/stringer/invokedynamic/Invokedynamic2Transformer.java:91-105 | Attaching a probe that is not yet in the method list and then removing it gives back the original list, in its original order. |
| Sandbox.CaptureBuffer.constructor | src/main/java/com/javadeobfuscator/deobfuscator/transformers/stringer/invokedynamic/Invokedynamic2Transformer.java:79 | Each site starts with an empty capture list. |
| Sandbox.Fires | src/main/java/com/javadeobfuscator/deobfuscator/transformers/stringer/invokedynamic/Invokedynamic2Transformer.java:82-85 | Defines the hook's test: the callee's class is `java/lang/invoke/MethodHandles$Lookup`, the callee's descriptor is the lookup descriptor, and the calling frame's class is the class under analysis, by identity. |
| Sandbox.FirstHookedCall | src/main/java/com/javadeobfuscator/deobfuscator/transformers/stringer/invokedynamic/Invokedynamic2Transformer.java:81-89 | A run aborts at the first call that is a `MethodHandles$Lookup` find with the lookup descriptor, made from a watched class. The result is that call's index, and no earlier call qualifies. It is None exactly when no call qualifies. |
| Sandbox.FirstFiringHook | src/main/java/com/javadeobfuscator/deobfuscator/transformers/stringer/invokedynamic/Invokedynamic2Transformer.java:81-89 | When some hook fires on a call, the result is the first hook in registration order that fires. |
| Sandbox.RunOutcome | src/main/java/com/javadeobfuscator/deobfuscator/transformers/stringer/invokedynamic/Invokedynamic2Transformer.java:93-101 | Defines a run's outcome under the registered hooks: the first call the hook fires on aborts the run with that call's arguments; otherwise the run's ending gives completion, an interpreted exception or another fault. Its meaning is stated by `RunOutcomeMeaning`. |
| Sandbox.RunOutcomeMeaning | src/main/java/com/javadeobfuscator/deobfuscator/transformers/stringer/invokedynamic/Invokedynamic2Transformer.java:81-101 | A run is aborted, with the arguments of the first qualifying call, iff some call qualifies. Otherwise the run's own ending decides: it completed, or threw an interpreted exception, or failed some other way. Each of the three holds iff no call qualifies and the run ended that way. |
| Sandbox.VirtualMachine.constructor | src/main/java/com/javadeobfuscator/deobfuscator/transformers/stringer/invokedynamic/Invokedynamic2Transformer.java:52 | A new sandbox has no hooks and has run nothing yet. |
| Sandbox.VirtualMachine.Execute | src/main/java/com/javadeobfuscator/deobfuscator/transformers/stringer/invokedynamic/Invokedynamic2Transformer.java:81-94 | Running the probe advances the execution counter by one. The outcome is the run's outcome under the current hooks. Only the capture list of the hook that fires first grows, by the aborting call's arguments. |
| Decryption.IsCandidate | src/main/java/com/javadeobfuscator/deobfuscator/transformers/stringer/invokedynamic/Invokedynamic2Transformer.java:64-68 | Defines a qualifying site: an invokedynamic whose bootstrap handle's owner is the class being processed and whose bootstrap descriptor is the mode's descriptor. |
| Decryption.CandidateCount | src/main/java/com/javadeobfuscator/deobfuscator/transformers/stringer/invokedynamic/Invokedynamic2Transformer.java:61-70 | Defines the probe counter's value at a point of the method as the number of qualifying sites before it, which never exceeds the number of instructions. |
| Decryption.CandidateCountZero | src/main/java/com/javadeobfuscator/deobfuscator/transformers/stringer/invokedynamic/Invokedynamic2Transformer.java:61-70 | No probe is built for a method exactly when none of its instructions qualifies. |
| Decryption.CandidateCountStep | src/main/java/com/javadeobfuscator/deobfuscator/transformers/stringer/invokedynamic/Invokedynamic2Transformer.java:61-70 | The probe counter moves on by one exactly at a qualifying site: an invokedynamic whose bootstrap is owned by the class and has the mode's descriptor. |
| Decryption.CandidateCountGrows | src/main/java/com/javadeobfuscator/deobfuscator/transformers/stringer/invokedynamic/Invokedynamic2Transformer.java:61-70 | A later site in the same method sees a strictly larger counter than an earlier qualifying site. |
| Decryption.NatToString | src/main/java/com/javadeobfuscator/deobfuscator/transformers/stringer/invokedynamic/Invokedynamic2Transformer.java:70 | The decimal rendering of the counter is non-empty and all digits. |
| Decryption.NatToStringInjective | src/main/java/com/javadeobfuscator/deobfuscator/transformers/stringer/invokedynamic/Invokedynamic2Transformer.java:70 | Different counter values render differently. |
| Decryption.ProbeName | src/main/java/com/javadeobfuscator/deobfuscator/transformers/stringer/invokedynamic/Invokedynamic2Transformer.java:70 | Defines the probe's name as `Decrypt` followed by the decimal counter. |
| Decryption.ProbeNameInjective | src/main/java/com/javadeobfuscator/deobfuscator/transformers/stringer/invokedynamic/Invokedynamic2Transformer.java:70 | `Decrypt<n>` names differ for different counter values. |
| Decryption.ProbeNamesDistinct | src/main/java/com/javadeobfuscator/deobfuscator/transformers/stringer/invokedynamic/Invokedynamic2Transformer.java:61-70 | Two different qualifying sites of one method get probes with different names. |
| Decryption.ProbeBody | src/main/java/com/javadeobfuscator/deobfuscator/transformers/stringer/invokedynamic/Invokedynamic2Transformer.java:72-77 | The probe body is one zero value per argument type of the site, in order, then the site itself, then `RETURN`, and nothing else. |
| Decryption.DispatchOpcode | src/main/java/com/javadeobfuscator/deobfuscator/transformers/stringer/invokedynamic/Invokedynamic2Transformer.java:122-130 | The opcode is one of the three invoke opcodes. It is `INVOKESTATIC` iff the member is static. It is `INVOKEINTERFACE` iff the member is not static and the owner is an interface. It is `INVOKEVIRTUAL` iff neither holds. |
| Decryption.Resolve | src/main/java/com/javadeobfuscator/deobfuscator/transformers/stringer/invokedynamic/Invokedynamic2Transformer.java:112-132 | A captured triple yields a call iff it reads as (class, string, method type) and the lookup finds the member. The call is well formed: the interface flag is set iff it is `INVOKEINTERFACE`. It names the owner class, and the found member's name and descriptor. Its opcode follows the dispatch rule. |
| Decryption.SiteResult | src/main/java/com/javadeobfuscator/deobfuscator/transformers/stringer/invokedynamic/Invokedynamic2Transformer.java:94-132 | A session yields a replacement only when the run was aborted with exactly three captured values that decode and resolve. Interpreted exceptions and other faults abandon the site. An abort with three values gives the resolution of those values. |
| Decryption.SiteNeedsLookupCall | src/main/java/com/javadeobfuscator/deobfuscator/transformers/stringer/invokedynamic/Invokedynamic2Transformer.java:81-120 | A site is patched only if the probe's run made a `MethodHandles$Lookup` find call with the lookup descriptor, from the analysed class itself, with three arguments. |
| Decryption.SitePatchedByFirstLookup | src/main/java/com/javadeobfuscator/deobfuscator/transformers/stringer/invokedynamic/Invokedynamic2Transformer.java:81-132 | The first such call decides the site. If its three arguments decode and name a member the lookup finds, the site is patched with exactly the call they resolve to. |
| Decryption.RewrittenAt | src/main/java/com/javadeobfuscator/deobfuscator/transformers/stringer/invokedynamic/Invokedynamic2Transformer.java:63-137 | Defines one instruction after a method is processed. A qualifying site becomes its session's replacement, if there is one. The session's probe is named after the number of earlier qualifying sites and uses the sandbox run that many after the method's first. Every other instruction stays. |
| Decryption.RewriteMethod | src/main/java/com/javadeobfuscator/deobfuscator/transformers/stringer/invokedynamic/Invokedynamic2Transformer.java:63-137 | Defines a method's instruction list after processing as `RewrittenAt` at every position. |
| Decryption.RewriteMethodIsRewrite | src/main/java/com/javadeobfuscator/deobfuscator/transformers/stringer/invokedynamic/Invokedynamic2Transformer.java:63-68 | Processing a method keeps its length. It changes only qualifying sites of the class, each into a well-formed direct call. |
| Decryption.FaultedSiteUnchanged | src/main/java/com/javadeobfuscator/deobfuscator/transformers/stringer/invokedynamic/Invokedynamic2Transformer.java:92-101 | A site is left as it was when its run throws an interpreted exception, faults otherwise, or completes without a lookup. |
| Decryption.PatchedSitesStable | src/main/java/com/javadeobfuscator/deobfuscator/transformers/stringer/invokedynamic/Invokedynamic2Transformer.java:63-68 | Running the pass again over its own output leaves every patched site alone, whatever the sandbox does. |
| Decryption.RewrittenForTransitive | src/main/java/com/javadeobfuscator/deobfuscator/transformers/stringer/invokedynamic/Invokedynamic2Transformer.java:63-68 | Two rounds of patching the qualifying sites of a class amount to one round of the same kind. |
| Invokedynamic2Transformer.Patched | src/main/java/com/javadeobfuscator/deobfuscator/transformers/stringer/invokedynamic/Invokedynamic2Transformer.java:137 | Defines an instruction list with the queued replacements, keyed by position, put in. |
| Invokedynamic2Transformer.InstructionModifier.constructor | src/main/java/com/javadeobfuscator/deobfuscator/transformers/stringer/invokedynamic/Invokedynamic2Transformer.java:59 | Each method starts with no queued replacements. |
| Invokedynamic2Transformer.InstructionModifier.Replace | src/main/java/com/javadeobfuscator/deobfuscator/transformers/stringer/invokedynamic/Invokedynamic2Transformer.java:132 | Queues the call for the site's position and keeps the other queued entries. |
| Invokedynamic2Transformer.InstructionModifier.Apply | src/main/java/com/javadeobfuscator/deobfuscator/transformers/stringer/invokedynamic/Invokedynamic2Transformer.java:137 | After applying, each queued position holds its replacement and every other instruction is unchanged. |
| Invokedynamic2Transformer.BuildProbe | src/main/java/com/javadeobfuscator/deobfuscator/transformers/stringer/invokedynamic/Invokedynamic2Transformer.java:70-77 | Builds a fresh `public static` method named `Decrypt<count>`, with descriptor `()Ljava/lang/`, whose body is the probe body of the site. |
| Invokedynamic2Transformer.TrySite | src/main/java/com/javadeobfuscator/deobfuscator/transformers/stringer/invokedynamic/Invokedynamic2Transformer.java:70-132 | One session, on every path: the class's method list ends as it began, the hooks end cleared, the sandbox has run once, and the result is the site's replacement as `SiteResult` decides it for this run. |
| Invokedynamic2Transformer.ProcessMethod | src/main/java/com/javadeobfuscator/deobfuscator/transformers/stringer/invokedynamic/Invokedynamic2Transformer.java:59-137 | The method's instructions become `RewriteMethod` of the old ones. The k-th qualifying site is probed by the sandbox's run number first+k under the name `Decrypt<k>`. One run is made per qualifying site, and the class's methods and the hooks are restored. |
| Invokedynamic2Transformer.ProcessClass | src/main/java/com/javadeobfuscator/deobfuscator/transformers/stringer/invokedynamic/Invokedynamic2Transformer.java:57-138 | Iterates over a snapshot of the method list, which ends as it began. `runs[k]` is the sandbox's run number when method k's turn comes. `befores[k]` is that method's instruction list at that moment. The runs start at the old counter and end at the new one. Each method consumes one run per qualifying site in `befores[k]`. A method listed once ends as exactly `RewriteMethod` of its original instructions, from run `runs[k]`. Every method ends with only qualifying sites of the class replaced by direct calls. |
| Invokedynamic2Transformer.Transform | src/main/java/com/javadeobfuscator/deobfuscator/transformers/stringer/invokedynamic/Invokedynamic2Transformer.java:50-142 | Returns `false`. Every class's method list ends as it began. Every method ends with only bootstrap sites of this mode replaced, each by a well-formed direct call. |

## Left out

- The marking of every class as initialised before any probe runs (lines 54-55) is not modelled. The sandbox's behaviour parameter is taken to include its effect.
- How the sandbox is built (line 52) and its shutdown (line 140) are not modelled. The model starts from a sandbox with no hooks and discards it at the end.
- The sandbox's interpreter is a parameter, not a model. A run is given as the calls it makes and how it ends. A run that never terminates is not represented.
- Logging (lines 96-97, 100 and 134) and the `oops` reports (lines 108 and 118) are left out. They only print.
- `Type.getArgumentTypes` is not modelled: a site carries its argument types directly. `TransformerHelper.zero` is an abstract `Zero(type)` instruction.
- Decryption.Resolve: the source converts the captured values with `getJavaClass`, `convertJavaObjectToString` and `asSignature`. These are outside the `try`, so a captured value of the wrong kind makes them throw out of the transformer. The model instead abandons that site.
- Member lookup (`findMethodNode` with superclass search) is a finite map from (owner, name, descriptor) to the member found.
- Instructions are identified by their position in the method. The source uses the identity of the instruction node. Both select the same instruction, because nothing else changes the list during a method's scan.
- The stack-frame check on line 85 is modelled as reference equality of the caller's class node with the analysed class.
- Decryption.ProbeNamesDistinct: the probe counter is an unbounded natural number. The source's Java `int` would wrap after 2^31 probes in one method.
- The probe's descriptor `()Ljava/lang/` is kept as written and not checked for well-formedness. The probe is only ever run in the sandbox.
- Invokedynamic2Transformer.ProcessClass: for a method node listed more than once in a class's method list, only the `RewrittenFor` relation is stated. The source processes such a node once per occurrence.
- Invokedynamic2Transformer.Transform: states, across classes, only that each method is rewritten at bootstrap sites of this mode. The exact per-method result, which depends on the sandbox's run numbers, is the contract of `ProcessMethod`.
- Concurrency and the sandbox's state other than its hooks and run counter are not modelled. The run counter stands in for everything earlier runs may have changed.
