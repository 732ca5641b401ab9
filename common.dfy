/** Values shared by every layer: optional fields, the error a service throws,
    JavaScript truthiness of an optional string, and Prisma's `contains`. */
module Common {

  datatype Option<+T> = None | Some(value: T)

  /** What a service throws. A zod schema failure is turned into status 400 by
      the error middleware; every other failure is a `ResponseError`. */
  datatype Failure =
    | ValidationFailed
    | ResponseError(status: int, message: string)

  datatype Result<+T> = Ok(value: T) | Err(error: Failure)

  /** `if (x)` on an optional string: present and not the empty string. */
  predicate Filled(o: Option<string>) {
    o.Some? && o.value != ""
  }

  /** The falsy-guarded assignment `if (patch) field = patch` on a required field. */
  function Overwrite(current: string, patch: Option<string>): (r: string)
    ensures Filled(patch) ==> r == patch.value
    ensures !Filled(patch) ==> r == current
  {
    if Filled(patch) then patch.value else current
  }

  /** The same guarded assignment on a nullable field. */
  function OverwriteOpt(current: Option<string>, patch: Option<string>): (r: Option<string>)
    ensures Filled(patch) ==> r == patch
    ensures !Filled(patch) ==> r == current
  {
    if Filled(patch) then patch else current
  }

  /** Prisma's `contains` filter, as a plain (case-sensitive) substring test. */
  predicate Contains(s: string, sub: string) {
    exists i | 0 <= i <= |s| - |sub| :: OccursAt(s, sub, i)
  }

  predicate OccursAt(s: string, sub: string, i: int)
    requires 0 <= i <= |s| - |sub|
  {
    s[i..i + |sub|] == sub
  }

  /** A stored value is found by a filter on the whole value. */
  lemma ContainsItself(s: string)
    ensures Contains(s, s)
  {
    assert OccursAt(s, s, 0);
  }

  /** zod's `z.string().min(1).max(max)`. */
  predicate Sized(s: string, max: nat) {
    1 <= |s| <= max
  }

  /** zod's `z.string().min(1).max(max).optional()`: absent, or present and sized. */
  predicate OptSized(o: Option<string>, max: nat) {
    o.Some? ==> Sized(o.value, max)
  }

  /** Once an optional field has passed its schema, the falsy guard of a
      partial patch is the same as a presence test. */
  lemma FilledIffPresent(o: Option<string>, max: nat)
    requires OptSized(o, max)
    ensures Filled(o) <==> o.Some?
  {
  }
}
