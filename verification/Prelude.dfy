/** Small types and arithmetic shared by every module. */
module Prelude {

  datatype Option<+T> = None | Some(value: T)

  datatype Result<+T, +E> = Ok(value: T) | Err(error: E)

  function Min(a: nat, b: nat): nat { if a <= b then a else b }

  function Max(a: nat, b: nat): nat { if a >= b then a else b }

  function Later(a: real, b: real): real { if a >= b then a else b }

  /** The text of a nullable column as evidence keys store it: `''` for NULL. */
  function OrEmpty(s: Option<string>): string {
    if s.Some? then s.value else ""
  }

  // ---- taking concatenations apart ----

  /** Two texts that agree as far as both go split at the same place when the heads are equally long. */
  lemma {:induction false} Cut(a: string, x: string, b: string, y: string)
    requires a + x == b + y && |a| == |b|
    ensures a == b && x == y
  {
    assert (a + x)[..|a|] == a && (b + y)[..|b|] == b;
    assert (a + x)[|a|..] == x && (b + y)[|b|..] == y;
  }

  lemma {:induction false} Unprefix(p: string, s: string, t: string)
    requires p + s == p + t
    ensures s == t
  {
    Cut(p, s, p, t);
  }

  lemma {:induction false} Unsuffix(s: string, t: string, p: string)
    requires s + p == t + p
    ensures s == t
  {
    assert |s + p| == |t + p|;
    Cut(s, p, t, p);
  }
}
