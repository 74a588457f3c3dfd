/**
 * Argument vectors as C hands them around: a sequence of string pointers
 * closed by a NULL entry.
 */
module Argv {

  import opened Wrappers

  /** A `const char **` vector; `None` is a NULL entry. */
  type Vector = seq<Option<string>>

  /** Some entry of the vector is the NULL terminator. */
  predicate NullTerminated(argv: Vector)
  {
    exists k :: 0 <= k < |argv| && argv[k].None?
  }

  /**
   * `count_arguments`: steps an index until it reaches the first NULL
   * entry, and returns that index, i.e. the number of strings before the
   * terminator.
   */
  method CountArguments(argv: Vector) returns (n: nat)
    requires NullTerminated(argv)
    ensures n < |argv| && argv[n].None?
    ensures forall j :: 0 <= j < n ==> argv[j].Some?
  {
    n := 0;
    while argv[n].Some?
      invariant n < |argv|
      invariant forall j :: 0 <= j < n ==> argv[j].Some?
      decreases |argv| - n
    {
      n := n + 1;
    }
  }
}
