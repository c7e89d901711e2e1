/** The immutable configuration values of the HOCON engine.

    A value is one of the source's `AbstractConfigValue` classes.  Origins and comments are
    dropped.  Merge stacks and references are compared by content; a reference carries the
    number that tells it apart from every other reference node of the document, so that two
    `${a}` written in two places are two different nodes. */
module ConfigValues {

  datatype Option<+T> = None | Some(value: T)

  /** A path is a non-empty sequence of keys; the empty sequence stands for "no path". */
  type Path = seq<string>

  datatype Value =
    | Null
    | Bool(flag: bool)
    | Number(number: int, originalText: string)
    | Str(text: string)
    | List(items: seq<Value>)
    | Object(fields: map<string, Value>, ignoresFallbacks: bool)
    | Reference(node: nat, path: Path, optional: bool, prefixLength: nat)
    | Concatenation(pieces: seq<Value>)
      // ConfigDelayedMerge, or ConfigDelayedMergeObject when `objectHeaded`; earlier layers win.
    | DelayedMerge(objectHeaded: bool, stack: seq<Value>)

  /** `resolve_status() == RESOLVED`: no reference, concatenation or merge stack at any depth. */
  predicate Resolved(v: Value) {
    match v
    case List(items) => forall i | 0 <= i < |items| :: Resolved(items[i])
    case Object(fields, _) => forall k | k in fields :: Resolved(fields[k])
    case Reference(_, _, _, _) => false
    case Concatenation(_) => false
    case DelayedMerge(_, _) => false
    case _ => true
  }

  /** The values tagged `Unmergeable`. */
  predicate Unmergeable(v: Value) {
    v.Reference? || v.Concatenation? || v.DelayedMerge?
  }

  /** The values that are an `AbstractConfigObject`. */
  predicate IsObject(v: Value) {
    v.Object? || (v.DelayedMerge? && v.objectHeaded)
  }

  predicate IgnoresFallbacks(v: Value) {
    match v
    case Object(_, ignores) => ignores
    case List(_) => Resolved(v)
    case Reference(_, _, _, _) => false
    case Concatenation(_) => false
    case DelayedMerge(_, stack) => stack != [] && IgnoresFallbacks(stack[|stack| - 1])
    case _ => true
  }

  /** What the constructors of the source check: concatenations are flat, have two pieces and an
      unmergeable one; merge stacks are flat, have two layers, are headed by an object exactly
      when they are object stacks, and never consist of objects alone. */
  predicate WellFormed(v: Value) {
    match v
    case List(items) => forall i | 0 <= i < |items| :: WellFormed(items[i])
    case Object(fields, _) => forall k | k in fields :: WellFormed(fields[k])
    case Reference(_, path, _, prefixLength) => prefixLength < |path|
    case Concatenation(pieces) =>
      && |pieces| >= 2
      && (forall i | 0 <= i < |pieces| :: !pieces[i].Concatenation? && WellFormed(pieces[i]))
      && (exists i | 0 <= i < |pieces| :: Unmergeable(pieces[i]))
    case DelayedMerge(objectHeaded, stack) =>
      && |stack| >= 2
      && (objectHeaded <==> stack[0].Object?)
      && (forall i | 0 <= i < |stack| :: !stack[i].DelayedMerge? && WellFormed(stack[i]))
      && (exists i | 0 <= i < |stack| :: !stack[i].Object?)
    case _ => true
  }

  lemma ResolvedIsWellFormed(v: Value)
    requires Resolved(v)
    ensures WellFormed(v)
  {
  }
}
