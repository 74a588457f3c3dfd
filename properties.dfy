/**
 * What one run of `lttng metadata` guarantees, stated over the model of a
 * single invocation.
 */
module MetadataProperties {

  import opened Wrappers
  import opened Status
  import opened Argv
  import opened Actions
  import opened Metadata

  /** A help or listing request. */
  predicate IsListing(e: OptEvent)
  {
    e.Help? || e.ListOptions? || e.ListCommands?
  }

  /** Every event is a `-s NAME`. */
  predicate AllSessions(events: seq<OptEvent>)
  {
    forall i :: 0 <= i < |events| ==> events[i].Session?
  }

  /** Some event is a `-s NAME`. */
  predicate SomeSession(events: seq<OptEvent>)
  {
    exists i :: 0 <= i < |events| && events[i].Session?
  }

  /** The only action name in the table is "regenerate". */
  lemma OnlyRegenerate(name: string)
    ensures InTable(ACTIONS, name) <==> name == "regenerate"
    ensures FirstMatch(Entries(ACTIONS), name) == if name == "regenerate" then Some(0) else None
  {
    assert Entries(ACTIONS) == [CmdStruct(Some("regenerate"), Some(Regenerate))];
    if name == "regenerate" {
      assert ACTIONS[0].name == Some(name);
    }
  }

  /** Leading `-s` options only set the name; the loop then goes on as if from the rest. */
  lemma {:induction false} ParseOptionsAfterSessions(pre: seq<OptEvent>, rest: seq<OptEvent>, opt: Option<string>)
    requires AllSessions(pre)
    ensures ParseOptions(pre + rest, opt) == ParseOptions(rest, if pre == [] then opt else Some(pre[|pre| - 1].name))
    decreases |pre|
  {
    if pre == [] {
      assert pre + rest == rest;
    } else {
      assert (pre + rest)[0] == pre[0];
      assert (pre + rest)[1..] == pre[1..] + rest;
      assert pre[0].Session?;
      assert ParseOptions(pre + rest, opt) == ParseOptions(pre[1..] + rest, Some(pre[0].name));
      ParseOptionsAfterSessions(pre[1..], rest, Some(pre[0].name));
      assert pre[1..] != [] ==> pre[1..][|pre[1..]| - 1] == pre[|pre| - 1];
    }
  }

  /**
   * Help, --list-options or --list-commands, reached after any number of
   * `-s`, ends the command with success whatever follows: no session is
   * resolved, nothing is released, no action runs.
   */
  lemma ListingShortCircuits(
    argc: int, pre: seq<OptEvent>, e: OptEvent, post: seq<OptEvent>,
    leftover: Option<Vector>, ambient: Option<string>, service: string -> int)
    requires argc >= 1 && AllSessions(pre) && IsListing(e) && LeftoverOk(leftover)
    ensures var o := Invocation(argc, Popt(pre + [e] + post, leftover), ambient, service);
      && o.status == CMD_SUCCESS
      && o.after.sessionName.None? && o.after.released == 0
      && o.after.serviceCalls == [] && o.after.confirmations == [] && o.after.diagnostics == []
  {
    assert pre + [e] + post == pre + ([e] + post);
    ParseOptionsAfterSessions(pre, [e] + post, None);
  }

  /**
   * An option the parser rejects, reached after any number of `-s`, ends
   * the command as undefined whatever follows, with no session resolved
   * and no action run.
   */
  lemma UnrecognizedOptionIsUndefined(
    argc: int, pre: seq<OptEvent>, post: seq<OptEvent>,
    leftover: Option<Vector>, ambient: Option<string>, service: string -> int)
    requires argc >= 1 && AllSessions(pre) && LeftoverOk(leftover)
    ensures var o := Invocation(argc, Popt(pre + [Unrecognized] + post, leftover), ambient, service);
      && o.status == CMD_UNDEFINED
      && o.after.sessionName.None? && o.after.released == 0
      && o.after.serviceCalls == [] && o.after.confirmations == []
  {
    assert pre + [Unrecognized] + post == pre + ([Unrecognized] + post);
    ParseOptionsAfterSessions(pre, [Unrecognized] + post, None);
  }

  /**
   * Without `-s` and without an ambient session no action runs and nothing
   * is released; when no option stopped the command first, it fails with
   * an error.
   */
  lemma NoSessionAborts(argc: int, popt: Popt, service: string -> int)
    requires argc >= 1 && LeftoverOk(popt.leftover)
    requires !SomeSession(popt.events)
    ensures var o := Invocation(argc, popt, None, service);
      && o.after.serviceCalls == [] && o.after.released == 0
      && (popt.events == [] ==> o.status == CMD_ERROR)
  {
  }

  /**
   * The session name is released exactly once when it came from the
   * ambient lookup, which happens only when the options were all consumed
   * and none was `-s`; a name supplied by `-s` is never released.
   */
  lemma OwnershipRule(argc: int, popt: Popt, ambient: Option<string>, service: string -> int)
    requires LeftoverOk(popt.leftover)
    ensures var o := Invocation(argc, popt, ambient, service);
      o.after.released == if argc >= 1 && popt.events == [] && ambient.Some? then 1 else 0
    ensures SomeSession(popt.events) ==> Invocation(argc, popt, ambient, service).after.released == 0
  {
  }

  /**
   * Once a session is resolved, the command's status is the dispatcher's
   * status, whatever was pending; a non-zero one is also reported.
   */
  lemma DispatchStatusWins(argc: int, popt: Popt, ambient: Option<string>, service: string -> int)
    requires argc >= 1 && LeftoverOk(popt.leftover)
    requires AllSessions(popt.events)
    requires popt.events != [] || ambient.Some?
    ensures var session := if popt.events == [] then ambient.value else popt.events[|popt.events| - 1].name;
      var d := Dispatch(ACTIONS, popt.leftover, session, service);
      var o := Invocation(argc, popt, ambient, service);
      && o.status == d.status
      && o.after.sessionName == Some(session)
      && o.after.serviceCalls == d.serviceCalls
      && o.after.diagnostics == if d.status == CMD_SUCCESS then [] else [d.status]
  {
  }

  /**
   * `-s NAME regenerate ...`: one daemon call for NAME, whose status is
   * the command's status; a zero status is confirmed naming the session,
   * any other is reported, and `-s`'s name is not released.
   */
  lemma RegenerateWithSession(argc: int, name: string, rest: Vector, ambient: Option<string>, service: string -> int)
    requires argc >= 1
    requires NullTerminated([Some("regenerate")] + rest)
    ensures var o := Invocation(argc, Popt([Session(name)], Some([Some("regenerate")] + rest)), ambient, service);
      && o.status == service(name)
      && o.after.serviceCalls == [name]
      && o.after.confirmations == (if service(name) == 0 then [name] else [])
      && o.after.diagnostics == (if service(name) == 0 then [] else [service(name)])
      && o.after.released == 0
  {
  }

  /**
   * An action name not in the table gives the undefined-command status,
   * never a daemon status, and no action runs; an ambient name is still
   * released.
   */
  lemma UnknownActionIsUndefined(argc: int, popt: Popt, ambient: Option<string>, service: string -> int)
    requires argc >= 1 && LeftoverOk(popt.leftover)
    requires AllSessions(popt.events)
    requires popt.events != [] || ambient.Some?
    requires popt.leftover.Some? && popt.leftover.value[0] != Some("regenerate")
    ensures var o := Invocation(argc, popt, ambient, service);
      && o.status == CMD_UNDEFINED
      && o.after.serviceCalls == [] && o.after.confirmations == []
      && o.after.released == (if popt.events == [] then 1 else 0)
  {
  }

  /** No leftover arguments after a resolved session: an error, and no action runs. */
  lemma MissingActionIsError(argc: int, events: seq<OptEvent>, ambient: Option<string>, service: string -> int)
    requires argc >= 1
    requires AllSessions(events)
    requires events != [] || ambient.Some?
    ensures var o := Invocation(argc, Popt(events, None), ambient, service);
      o.status == CMD_ERROR && o.after.serviceCalls == []
  {
  }
}
