/**
 * The action table of `lttng metadata` and the scan that looks an action
 * name up in it.
 */
module Actions {

  import opened Wrappers

  /** The handlers a table entry may point to; this command has one. */
  datatype Handler = Regenerate

  /** `struct cmd_struct`: a name and a handler, either of which may be NULL. */
  datatype CmdStruct = CmdStruct(name: Option<string>, func: Option<Handler>)

  /** The closing `{ NULL, NULL }` entry. */
  const SENTINEL: CmdStruct := CmdStruct(None, None)

  /** The `actions` table: one entry, then the sentinel. */
  const ACTIONS: seq<CmdStruct> := [CmdStruct(Some("regenerate"), Some(Regenerate)), SENTINEL]

  /**
   * A table the scan can walk: its last entry has no handler, and every
   * entry before it has both a name and a handler.
   */
  predicate WellFormed(t: seq<CmdStruct>)
  {
    && |t| > 0
    && t[|t| - 1].func.None?
    && forall j :: 0 <= j < |t| - 1 ==> t[j].func.Some? && t[j].name.Some?
  }

  /** The entries before the sentinel. */
  function Entries(t: seq<CmdStruct>): seq<CmdStruct>
    requires WellFormed(t)
  {
    t[..|t| - 1]
  }

  /** Some entry before the sentinel carries exactly this name. */
  predicate InTable(t: seq<CmdStruct>, name: string)
    requires WellFormed(t)
  {
    exists j :: 0 <= j < |t| - 1 && t[j].name == Some(name)
  }

  /**
   * Plain front-to-back lookup by exact name: the reference the scan below
   * is measured against. It finds the first entry carrying the name, and
   * finds nothing only when no entry carries it.
   */
  function FirstMatch(entries: seq<CmdStruct>, name: string): (r: Option<nat>)
    ensures r.Some? ==> r.value < |entries| && entries[r.value].name == Some(name)
    ensures r.Some? ==> forall j :: 0 <= j < r.value ==> entries[j].name != Some(name)
    ensures r.None? ==> forall j :: 0 <= j < |entries| ==> entries[j].name != Some(name)
  {
    if entries == [] then None
    else if entries[0].name == Some(name) then Some(0)
    else
      match FirstMatch(entries[1..], name)
      case None => None
      case Some(k) => Some(k + 1)
  }

  /**
   * The entry compared at the `c`-th comparison of the scan below. The
   * post-increment in `cmd = &actions[i++]` makes the scan compare entry 0
   * twice before it moves on: 0, 0, 1, 2, ...
   */
  function Visited(c: nat): nat
  {
    if c == 0 then 0 else c - 1
  }

  /**
   * The lookup loop of `handle_command`, with its index bookkeeping as
   * written: `cmd` starts at `actions[0]` and each miss sets
   * `cmd = &actions[i++]`. The loop stops at the first entry without a
   * handler. `compared` lists the entries compared, in order.
   *
   * Despite the revisit, the scan finds the same entry as plain lookup,
   * and on a miss it has compared every entry before the sentinel, at the
   * cost of exactly one extra comparison.
   */
  method FindCommand(actions: seq<CmdStruct>, name: string) returns (found: Option<nat>, compared: seq<nat>)
    requires WellFormed(actions)
    ensures found == FirstMatch(Entries(actions), name)
    ensures found.Some? <==> InTable(actions, name)
    ensures forall c :: 0 <= c < |compared| ==> compared[c] == Visited(c)
    ensures found.Some? ==> |compared| > 0 && compared[|compared| - 1] == found.value
    ensures found.None? ==> forall j :: 0 <= j < |actions| - 1 ==> j in compared
    ensures found.None? ==> |compared| == if |actions| == 1 then 0 else |actions|
  {
    var i := 0;
    var cmd := i;
    found := None;
    compared := [];
    while actions[cmd].func.Some?
      invariant 0 <= cmd < |actions|
      invariant cmd == Visited(i)
      invariant i > 0 ==> actions[0].func.Some?
      invariant forall j :: 0 <= j < cmd ==> actions[j].name != Some(name)
      invariant |compared| == i
      invariant forall c :: 0 <= c < i ==> compared[c] == Visited(c)
      decreases 2 * |actions| - cmd - i
    {
      compared := compared + [cmd];
      if actions[cmd].name == Some(name) {
        found := Some(cmd);
        break;
      }
      cmd := i;
      i := i + 1;
    }
    if found.None? {
      assert cmd == |actions| - 1;
      forall j | 0 <= j < |actions| - 1
        ensures j in compared
      {
        assert compared[j + 1] == j;
      }
    }
  }
}
