/**
 * The slice of the class-file tree (ASM's tree API) that the transformer reads
 * and changes: instructions, methods with a mutable instruction list, and
 * classes with a mutable method list.
 */
module Bytecode {

  /** Access flags are 16-bit masks (section 4.6 of the JVM specification). */
  type Access = bv16

  const ACC_PUBLIC: Access := 0x0001
  const ACC_STATIC: Access := 0x0008
  const ACC_INTERFACE: Access := 0x0200

  // Opcodes, section 6.5 of the Java Virtual Machine Specification.
  const RETURN: int := 177
  const INVOKEVIRTUAL: int := 182
  const INVOKESTATIC: int := 184
  const INVOKEINTERFACE: int := 185

  /** `java.lang.reflect.Modifier.isStatic` */
  predicate IsStatic(access: Access) {
    (access & ACC_STATIC) != 0
  }

  /** `java.lang.reflect.Modifier.isInterface` */
  predicate IsInterface(access: Access) {
    (access & ACC_INTERFACE) != 0
  }

  /** A field type (section 4.3.2 of the JVM specification), named by its descriptor. */
  datatype JType = JType(descriptor: string)

  /** A method handle constant; here always the bootstrap method of a call site. */
  datatype Handle = Handle(tag: int, owner: string, name: string, desc: string)

  /**
   * An instruction. `InvokeDynamic.argTypes` is what parsing the site's method
   * descriptor (section 4.3.3 of the JVM specification) yields; `Zero(t)` is the zero or null constant
   * pushed for a value of type `t`.
   */
  datatype Insn =
    | InvokeDynamic(name: string, desc: string, argTypes: seq<JType>, bsm: Handle)
    | MethodCall(opcode: int, owner: string, name: string, desc: string, itf: bool)
    | Zero(t: JType)
    | Simple(opcode: int)

  /** A method of a class; its instruction list is updated in place. */
  class MethodNode {
    const access: Access
    const name: string
    const desc: string
    var instructions: seq<Insn>

    constructor (access: Access, name: string, desc: string)
      ensures this.access == access && this.name == name && this.desc == desc
      ensures instructions == []
    {
      this.access := access;
      this.name := name;
      this.desc := desc;
      instructions := [];
    }
  }

  /** A class under analysis; its method table is updated in place. */
  class ClassNode {
    const name: string
    const access: Access
    var methods: seq<MethodNode>
  }

  /** The position of the first element equal to `x`. */
  function IndexOf<T(==)>(s: seq<T>, x: T): (k: nat)
    requires x in s
    ensures k < |s| && s[k] == x && x !in s[..k]
  {
    if s[0] == x then 0 else 1 + IndexOf(s[1..], x)
  }

  /**
   * `List.remove(Object)`: drops the first element equal to `x`, if any, and
   * keeps the others in order. On method nodes equality is identity.
   */
  function RemoveFirst<T(==)>(s: seq<T>, x: T): (r: seq<T>)
    ensures x in s ==> r == s[..IndexOf(s, x)] + s[IndexOf(s, x) + 1..]
    ensures x in s ==> multiset(r) == multiset(s) - multiset{x}
    ensures x !in s ==> r == s
  {
    if s == [] then []
    else
      assert s == [s[0]] + s[1..];
      if s[0] == x then s[1..]
      else
        IndexOfTail(s, x);
        [s[0]] + RemoveFirst(s[1..], x)
  }

  /** Past a head that differs from `x`, the slices around `x` are the tail's slices with the head put back. */
  lemma IndexOfTail<T>(s: seq<T>, x: T)
    requires s != [] && s[0] != x
    ensures x in s ==>
              var k, t := IndexOf(s, x), IndexOf(s[1..], x);
              && s[..k] == [s[0]] + s[1..][..t]
              && s[k + 1..] == s[1..][t + 1..]
  {
    if x in s {
      var k, t := IndexOf(s, x), IndexOf(s[1..], x);
      assert k == t + 1;
      assert s[..k] == [s[0]] + s[1..][..t];
    }
  }

  /** Removing an element that was just appended, and was not there before, restores the list. */
  lemma {:induction false} RemoveFirstAppended<T>(s: seq<T>, x: T)
    requires x !in s
    ensures RemoveFirst(s + [x], x) == s
  {
    if s != [] {
      assert (s + [x])[0] == s[0];
      assert (s + [x])[1..] == s[1..] + [x];
      RemoveFirstAppended(s[1..], x);
    }
  }
}
