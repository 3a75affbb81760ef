/**
 * The pure decisions of the invokedynamic decryptor (Stringer's second
 * invokedynamic mode): which sites qualify, what the probe for a site looks
 * like and how it is named, how a captured (owner, name, type) triple turns
 * into a direct call, and what a whole method's instruction list becomes.
 */
module Decryption {
  import opened Wrappers
  import opened Bytecode
  import opened Sandbox

  /** The one bootstrap descriptor this mode generates. */
  const BSM_DESC := "(Ljava/lang/Object;Ljava/lang/String;Ljava/lang/invoke/MethodType;)Ljava/lang/Object;"

  /** The probe's name prefix, descriptor literal and access flags. */
  const PROBE_PREFIX := "Decrypt"
  const PROBE_DESC := "()Ljava/lang/"
  const PROBE_ACCESS: Access := ACC_PUBLIC | ACC_STATIC

  // ---------------------------------------------------------------- site filter

  /** A site is processed only if it is an invokedynamic whose bootstrap lives in the class and has `BSM_DESC`. */
  predicate IsCandidate(insn: Insn, className: string) {
    && insn.InvokeDynamic?
    && insn.bsm.owner == className
    && insn.bsm.desc == BSM_DESC
  }

  /** The number of qualifying sites in `s`: also the probe counter's value when the next site is reached. */
  function CandidateCount(s: seq<Insn>, className: string): (n: nat)
    ensures n <= |s|
  {
    if s == [] then 0
    else CandidateCount(s[..|s| - 1], className) + (if IsCandidate(s[|s| - 1], className) then 1 else 0)
  }

  /** No probe is built for a method exactly when none of its instructions qualifies. */
  lemma {:induction false} CandidateCountZero(s: seq<Insn>, className: string)
    ensures CandidateCount(s, className) == 0 <==> forall i :: 0 <= i < |s| ==> !IsCandidate(s[i], className)
  {
    if s != [] {
      CandidateCountZero(s[..|s| - 1], className);
      assert forall i :: 0 <= i < |s| - 1 ==> s[..|s| - 1][i] == s[i];
    }
  }

  /** Extending the scanned prefix by one instruction moves the count on by one exactly when it qualifies. */
  lemma CandidateCountStep(s: seq<Insn>, className: string, i: nat)
    requires i < |s|
    ensures CandidateCount(s[..i + 1], className) == CandidateCount(s[..i], className) + if IsCandidate(s[i], className) then 1 else 0
  {
    assert s[..i + 1][..i] == s[..i];
  }

  /** Each qualifying site moves the counter on, so a later site sees a strictly larger value. */
  lemma {:induction false} CandidateCountGrows(s: seq<Insn>, className: string, i: nat, j: nat)
    requires i < j <= |s|
    requires IsCandidate(s[i], className)
    ensures CandidateCount(s[..i], className) < CandidateCount(s[..j], className)
  {
    assert s[..j][..j - 1] == s[..j - 1];
    if j - 1 == i {
      assert s[..j][j - 1] == s[i];
    } else {
      CandidateCountGrows(s, className, i, j - 1);
    }
  }

  // ---------------------------------------------------------------- probe

  function DigitChar(d: nat): char
    requires d < 10
  {
    ('0' as int + d) as char
  }

  /** The decimal form of a counter, as string concatenation renders it. */
  function NatToString(n: nat): (s: string)
    ensures 1 <= |s|
    ensures forall k :: 0 <= k < |s| ==> '0' <= s[k] <= '9'
  {
    if n < 10 then [DigitChar(n)] else NatToString(n / 10) + [DigitChar(n % 10)]
  }

  lemma {:induction false} NatToStringInjective(a: nat, b: nat)
    requires NatToString(a) == NatToString(b)
    ensures a == b
  {
    var sa, sb := NatToString(a), NatToString(b);
    assert DigitChar(a % 10) == sa[|sa| - 1] == sb[|sb| - 1] == DigitChar(b % 10);
    if a >= 10 && b >= 10 {
      assert sa[..|sa| - 1] == NatToString(a / 10);
      assert sb[..|sb| - 1] == NatToString(b / 10);
      NatToStringInjective(a / 10, b / 10);
    }
  }

  /** The name of the probe built for the `count`-th qualifying site of a method. */
  function ProbeName(count: nat): string {
    PROBE_PREFIX + NatToString(count)
  }

  /** Different counter values give different probe names. */
  lemma {:induction false} ProbeNameInjective(a: nat, b: nat)
    requires ProbeName(a) == ProbeName(b)
    ensures a == b
  {
    assert ProbeName(a)[|PROBE_PREFIX|..] == NatToString(a);
    assert ProbeName(b)[|PROBE_PREFIX|..] == NatToString(b);
    NatToStringInjective(a, b);
  }

  /** Within one method, no two qualifying sites get probes of the same name. */
  lemma ProbeNamesDistinct(s: seq<Insn>, className: string, i: nat, j: nat)
    requires i < j < |s|
    requires IsCandidate(s[i], className)
    ensures ProbeName(CandidateCount(s[..i], className)) != ProbeName(CandidateCount(s[..j], className))
  {
    CandidateCountGrows(s, className, i, j);
    if ProbeName(CandidateCount(s[..i], className)) == ProbeName(CandidateCount(s[..j], className)) {
      ProbeNameInjective(CandidateCount(s[..i], className), CandidateCount(s[..j], className));
    }
  }

  /** The probe body: a zero or null push per argument type, in order, then the site itself, then `RETURN`. */
  function ProbeBody(site: Insn): (body: seq<Insn>)
    requires site.InvokeDynamic?
    ensures |body| == |site.argTypes| + 2
    ensures forall k :: 0 <= k < |site.argTypes| ==> body[k] == Zero(site.argTypes[k])
    ensures body[|site.argTypes|] == site
    ensures body[|site.argTypes| + 1] == Simple(RETURN)
  {
    seq(|site.argTypes|, k requires 0 <= k < |site.argTypes| => Zero(site.argTypes[k])) + [site, Simple(RETURN)]
  }

  // ---------------------------------------------------------------- resolution

  /** The member a lookup on the owner finds: its access flags, name and descriptor. */
  datatype Member = Member(access: Access, name: string, desc: string)

  /** A lookup key: owner class name, member name, member descriptor. */
  datatype MemberKey = MemberKey(owner: string, name: string, desc: string)

  /** `findMethodNode` on every class the sandbox knows, as a partial map. */
  type MethodTable = map<MemberKey, Member>

  /**
   * The dispatch opcode for a found member: static members are called with
   * INVOKESTATIC, others with INVOKEINTERFACE when the owner is an interface and
   * INVOKEVIRTUAL otherwise.
   */
  function DispatchOpcode(memberAccess: Access, ownerAccess: Access): (op: int)
    ensures op == INVOKESTATIC || op == INVOKEINTERFACE || op == INVOKEVIRTUAL
    ensures op == INVOKESTATIC <==> IsStatic(memberAccess)
    ensures op == INVOKEINTERFACE <==> !IsStatic(memberAccess) && IsInterface(ownerAccess)
    ensures op == INVOKEVIRTUAL <==> !IsStatic(memberAccess) && !IsInterface(ownerAccess)
  {
    if IsStatic(memberAccess) then INVOKESTATIC
    else if IsInterface(ownerAccess) then INVOKEINTERFACE
    else INVOKEVIRTUAL
  }

  /** A direct call as the patcher emits it: one of the three opcodes, interface flag iff INVOKEINTERFACE. */
  predicate IsResolvedCall(insn: Insn) {
    && insn.MethodCall?
    && (insn.opcode == INVOKESTATIC || insn.opcode == INVOKEVIRTUAL || insn.opcode == INVOKEINTERFACE)
    && (insn.itf <==> insn.opcode == INVOKEINTERFACE)
  }

  /** The three captured entries read as a class, a string and a method type. */
  predicate Decodes(data: seq<Value>)
    requires |data| == 3
  {
    data[0].ClassMirror? && data[1].StringValue? && data[2].MethodTypeValue?
  }

  function KeyOf(data: seq<Value>): MemberKey
    requires |data| == 3 && Decodes(data)
  {
    MemberKey(data[0].mirrored.name, data[1].s, data[2].signature)
  }

  /**
   * Turns a captured (owner, name, type) triple into the direct call that
   * replaces the site, or nothing when the lookup finds no member.
   */
  function Resolve(data: seq<Value>, table: MethodTable): (r: Option<Insn>)
    requires |data| == 3
    ensures r.Some? <==> Decodes(data) && KeyOf(data) in table
    ensures r.Some? ==> IsResolvedCall(r.value)
    ensures r.Some? ==>
              var owner := data[0].mirrored;
              var m := table[KeyOf(data)];
              && r.value.owner == owner.name
              && r.value.name == m.name
              && r.value.desc == m.desc
              && (r.value.opcode == INVOKESTATIC <==> IsStatic(m.access))
              && (r.value.opcode == INVOKEINTERFACE <==> !IsStatic(m.access) && IsInterface(owner.access))
              && (r.value.itf <==> !IsStatic(m.access) && IsInterface(owner.access))
  {
    if !Decodes(data) then None
    else
      var owner := data[0].mirrored;
      var key := KeyOf(data);
      if key !in table then None
      else
        var m := table[key];
        var op := DispatchOpcode(m.access, owner.access);
        Some(MethodCall(op, owner.name, m.name, m.desc, op == INVOKEINTERFACE))
  }

  /** The capture list after a run: the aborting call's arguments, or empty when no hook fired. */
  function CapturedBy(o: Outcome): seq<Value> {
    if o.Aborted? then o.captured else []
  }

  /**
   * What one site's session yields: an interpreted exception or another fault
   * abandons the site; otherwise the capture list must hold exactly three
   * entries and resolve.
   */
  function SiteResult(o: Outcome, table: MethodTable): (r: Option<Insn>)
    ensures r.Some? ==> o.Aborted? && |o.captured| == 3 && Decodes(o.captured) && KeyOf(o.captured) in table
    ensures r.Some? ==> IsResolvedCall(r.value) && r.value.owner == o.captured[0].mirrored.name
    ensures o.Aborted? && |o.captured| == 3 ==> r == Resolve(o.captured, table)
  {
    if o.VMExc? || o.OtherFault? then None
    else
      var data := CapturedBy(o);
      if |data| != 3 then None else Resolve(data, table)
  }

  /**
   * A site is only ever patched when the probe's run made a lookup call from
   * the class under analysis itself, with exactly three arguments.
   */
  lemma SiteNeedsLookupCall(run: Run, cls: ClassNode, table: MethodTable)
    requires SiteResult(RunOutcome(run, [cls]), table).Some?
    ensures exists i :: && 0 <= i < |run.calls|
                        && run.calls[i].owner == LOOKUP_OWNER
                        && run.calls[i].desc == LOOKUP_DESC
                        && run.calls[i].caller == cls
                        && |run.calls[i].params| == 3
  {
    RunOutcomeMeaning(run, [cls]);
    var i :| && 0 <= i < |run.calls| && AnyFires(run.calls[i], [cls])
             && RunOutcome(run, [cls]).captured == run.calls[i].params;
    assert Fires(run.calls[i], cls);
  }

  /**
   * Conversely, the first lookup call made from the class under analysis
   * decides the site: if its three arguments name a member that the lookup
   * finds, the site is patched with the direct call they resolve to.
   */
  lemma SitePatchedByFirstLookup(run: Run, cls: ClassNode, table: MethodTable, i: nat)
    requires i < |run.calls| && Fires(run.calls[i], cls)
    requires forall j :: 0 <= j < i ==> !Fires(run.calls[j], cls)
    requires |run.calls[i].params| == 3 && Decodes(run.calls[i].params) && KeyOf(run.calls[i].params) in table
    ensures SiteResult(RunOutcome(run, [cls]), table) == Resolve(run.calls[i].params, table)
    ensures SiteResult(RunOutcome(run, [cls]), table).Some?
  {
    RunOutcomeMeaning(run, [cls]);
    assert Fires(run.calls[i], [cls][0]);
    var k :| && 0 <= k < |run.calls| && AnyFires(run.calls[k], [cls])
             && RunOutcome(run, [cls]).captured == run.calls[k].params
             && forall j :: 0 <= j < k ==> !AnyFires(run.calls[j], [cls]);
  }

  /**
   * The replacement for one qualifying site: the session's result when its probe,
   * named after `count`, is the `execution`-th run of the sandbox on `cls`.
   */
  function SiteReplacement(behaviour: Behaviour, execution: nat, cls: ClassNode, site: Insn, count: nat, table: MethodTable): Option<Insn>
    requires site.InvokeDynamic?
  {
    SiteResult(RunOutcome(behaviour(execution, cls, ProbeName(count), ProbeBody(site)), [cls]), table)
  }

  // ---------------------------------------------------------------- whole method

  /** The instruction at `i` after the method is processed, when its first probe is execution `first`. */
  function RewrittenAt(s: seq<Insn>, i: nat, behaviour: Behaviour, first: nat, cls: ClassNode, table: MethodTable): Insn
    requires i < |s|
  {
    if IsCandidate(s[i], cls.name) then
      var count := CandidateCount(s[..i], cls.name);
      match SiteReplacement(behaviour, first + count, cls, s[i], count, table)
      case Some(call) => call
      case None => s[i]
    else s[i]
  }

  /** The instruction list of a method after every qualifying site has been tried and the patches applied. */
  function RewriteMethod(s: seq<Insn>, behaviour: Behaviour, first: nat, cls: ClassNode, table: MethodTable): seq<Insn> {
    seq(|s|, i requires 0 <= i < |s| => RewrittenAt(s, i, behaviour, first, cls, table))
  }

  /**
   * `b` is `a` with some qualifying sites of class `owner` replaced by direct
   * calls and every other instruction left where it was.
   */
  predicate RewrittenFor(a: seq<Insn>, b: seq<Insn>, owner: string) {
    && |a| == |b|
    && forall i :: 0 <= i < |a| ==> b[i] == a[i] || (IsCandidate(a[i], owner) && IsResolvedCall(b[i]))
  }

  /**
   * As `RewrittenFor`, for a site of any class: the owner is dropped so that a
   * statement about every method of every class can be made at once.
   */
  predicate Rewritten(a: seq<Insn>, b: seq<Insn>) {
    && |a| == |b|
    && forall i :: 0 <= i < |a| ==> b[i] == a[i] || (IsBootstrapSite(a[i]) && IsResolvedCall(b[i]))
  }

  /** As `IsCandidate` without the owner test; used only to state `Rewritten`. */
  predicate IsBootstrapSite(insn: Insn) {
    insn.InvokeDynamic? && insn.bsm.desc == BSM_DESC
  }

  /** Processing a method only replaces qualifying sites, each by a well-formed direct call. */
  lemma RewriteMethodIsRewrite(s: seq<Insn>, behaviour: Behaviour, first: nat, cls: ClassNode, table: MethodTable)
    ensures RewrittenFor(s, RewriteMethod(s, behaviour, first, cls, table), cls.name)
  {
  }

  /** A site whose session ends in an interpreted exception or another fault is left as it was. */
  lemma FaultedSiteUnchanged(s: seq<Insn>, i: nat, behaviour: Behaviour, first: nat, cls: ClassNode, table: MethodTable)
    requires i < |s| && IsCandidate(s[i], cls.name)
    requires var count := CandidateCount(s[..i], cls.name);
             var o := RunOutcome(behaviour(first + count, cls, ProbeName(count), ProbeBody(s[i])), [cls]);
             o.VMExc? || o.OtherFault? || o.Completed?
    ensures RewriteMethod(s, behaviour, first, cls, table)[i] == s[i]
  {
  }

  /**
   * Running the pass again over its own output leaves every patched site
   * alone: a direct call never qualifies, whatever the sandbox does.
   */
  lemma PatchedSitesStable(a: seq<Insn>, b: seq<Insn>, behaviour: Behaviour, first: nat, cls: ClassNode, table: MethodTable)
    requires RewrittenFor(a, b, cls.name)
    ensures forall i :: 0 <= i < |b| && b[i] != a[i] ==> RewriteMethod(b, behaviour, first, cls, table)[i] == b[i]
  {
  }

  /** A replaced site is no longer an invokedynamic, so a second pass never touches it again. */
  lemma RewrittenForTransitive(a: seq<Insn>, b: seq<Insn>, c: seq<Insn>, owner: string)
    requires RewrittenFor(a, b, owner) && RewrittenFor(b, c, owner)
    ensures RewrittenFor(a, c, owner)
  {
  }

  lemma RewrittenTransitive(a: seq<Insn>, b: seq<Insn>, c: seq<Insn>)
    requires Rewritten(a, b) && Rewritten(b, c)
    ensures Rewritten(a, c)
  {
  }

  lemma RewrittenForIsRewritten(a: seq<Insn>, b: seq<Insn>, owner: string)
    requires RewrittenFor(a, b, owner)
    ensures Rewritten(a, b)
  {
  }
}
