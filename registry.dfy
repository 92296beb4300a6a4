/**
 * The value lookup that every enumeration of python_snoo/containers.py relies on:
 * calling an Enum class with a raw value returns the member whose value is exactly
 * that raw value, and raises ValueError naming the class and the value otherwise.
 * The model searches the members in declaration order; since no two members share a
 * value, which member is found does not depend on that order. No case folding, no
 * fuzzy match.
 */
module Registry {
  import opened Wrappers

  /** A raw wire value: the string enums take text, the int enum takes a number. */
  datatype Raw = Text(s: string) | Number(n: int)

  /** The construction errors of the containers (both are a ValueError in the source). */
  datatype Error =
    | InvalidEnumValue(enumName: string, raw: Raw)  // `'x' is not a valid <Enum>`
    | EmptyDiaperTypes                               // `DiaperData.types cannot be empty or None`

  /** The first member (in declaration order) whose wire code is `raw`, if any. */
  function Lookup<T, C(==)>(members: seq<T>, code: T -> C, raw: C): (r: Option<T>)
    ensures r.Some? ==> r.value in members && code(r.value) == raw
    ensures r.None? <==> forall m :: m in members ==> code(m) != raw
  {
    if |members| == 0 then None
    else if code(members[0]) == raw then Some(members[0])
    else Lookup(members[1..], code, raw)
  }

  /** No two members share a wire code. */
  ghost predicate Injective<T, C>(members: seq<T>, code: T -> C)
  {
    forall a, b :: a in members && b in members && code(a) == code(b) ==> a == b
  }

  /**
   * With distinct wire codes, looking up a member's own code finds that member:
   * whatever the lookup finds carries the same code, so it is that member.
   */
  lemma LookupMember<T, C>(members: seq<T>, code: T -> C, m: T)
    requires m in members
    requires Injective(members, code)
    ensures Lookup(members, code, code(m)) == Some(m)
  {
  }

  /** A lookup succeeds exactly when some member carries the raw code. */
  lemma LookupFinds<T, C>(members: seq<T>, code: T -> C, raw: C, m: T)
    requires m in members && code(m) == raw
    ensures Lookup(members, code, raw).Some?
  {
  }
}
