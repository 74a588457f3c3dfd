/**
 * `lttng metadata`: option handling, session-name resolution, dispatch to
 * the action table, the status that comes out, and the release of the
 * session name.
 *
 * The option library is abstracted into the outcome of its parse: the
 * option events it reports in order and the leftover arguments. The
 * session daemon call and the ambient session lookup are given as a
 * function and a value. `free` becomes a counter of released strings,
 * and the confirmation and diagnostic lines become lists of what they name.
 */
module Metadata {

  import opened Wrappers
  import opened Status
  import opened Argv
  import opened Actions

  /**
   * What the option parser reports, in order. `Session` is a `-s NAME` /
   * `--session NAME`, whose argument the parser stores into
   * `opt_session_name` by itself; `Unrecognized` is any error it returns
   * (an unknown option, a missing argument). The end of the options is
   * the end of the list, not an event.
   */
  datatype OptEvent =
    | Help
    | ListOptions
    | ListCommands
    | Session(name: string)
    | Unrecognized

  /** The parse: its events, then what `poptGetArgs` returns (NULL when nothing is left). */
  datatype Popt = Popt(events: seq<OptEvent>, leftover: Option<Vector>)

  /** A leftover vector is NULL, or NULL-terminated with a first argument. */
  predicate LeftoverOk(leftover: Option<Vector>)
  {
    leftover.Some? ==>
      var v := leftover.value;
      |v| > 0 && v[0].Some? && NullTerminated(v)
  }

  /**
   * Where the option loop ends: `exit` is the status of an early `goto end`
   * (none if every event was consumed), `opt` is `opt_session_name` then.
   */
  datatype OptScan = OptScan(exit: Option<int>, opt: Option<string>)

  /**
   * The option loop of `cmd_metadata`. Help and both listings end the
   * command with success, any error ends it as undefined, and `-s`
   * only records its name, the last one winning.
   */
  function ParseOptions(events: seq<OptEvent>, opt: Option<string>): (r: OptScan)
    ensures r.exit.Some? <==> exists i :: 0 <= i < |events| && !events[i].Session?
    ensures r.exit.Some? ==> r.exit.value == CMD_SUCCESS || r.exit.value == CMD_UNDEFINED
    ensures r.exit.None? ==> r.opt == if events == [] then opt else Some(events[|events| - 1].name)
    decreases |events|
  {
    if events == [] then OptScan(None, opt)
    else
      match events[0]
      case Help => OptScan(Some(CMD_SUCCESS), opt)
      case ListOptions => OptScan(Some(CMD_SUCCESS), opt)
      case ListCommands => OptScan(Some(CMD_SUCCESS), opt)
      case Unrecognized => OptScan(Some(CMD_UNDEFINED), opt)
      case Session(name) => ParseOptions(events[1..], Some(name))
  }

  /** What running a handler or the dispatcher does: its status and the lines it caused. */
  datatype Effect = Effect(status: int, serviceCalls: seq<string>, confirmations: seq<string>)

  /**
   * A handler run against `session`. `metadata_regenerate` makes one call
   * to the session daemon and confirms only a zero status.
   */
  function HandlerEffect(h: Handler, session: string, service: string -> int): Effect
  {
    match h
    case Regenerate =>
      var status := service(session);
      Effect(status, [session], if status == 0 then [session] else [])
  }

  /**
   * `handle_command` on a table: a NULL vector is an error and a name found
   * nowhere is undefined, and in neither case does a handler run; a name in
   * the table runs the first entry carrying it, whose status is returned
   * as it is.
   */
  function Dispatch(t: seq<CmdStruct>, argv: Option<Vector>, session: string, service: string -> int): (e: Effect)
    requires WellFormed(t)
    requires LeftoverOk(argv)
    ensures argv.None? ==> e == Effect(CMD_ERROR, [], [])
    ensures argv.Some? && !InTable(t, argv.value[0].value) ==> e == Effect(CMD_UNDEFINED, [], [])
    ensures argv.Some? && InTable(t, argv.value[0].value) ==>
      var k := FirstMatch(Entries(t), argv.value[0].value).value;
      && k < |t| - 1 && t[k].name == argv.value[0]
      && e == HandlerEffect(t[k].func.value, session, service)
  {
    if argv.None? then Effect(CMD_ERROR, [], [])
    else
      match FirstMatch(Entries(t), argv.value[0].value)
      case None => Effect(Overwrite(CMD_SUCCESS, CMD_UNDEFINED), [], [])
      case Some(k) =>
        var h := HandlerEffect(t[k].func.value, session, service);
        Effect(Overwrite(h.status, CMD_SUCCESS), h.serviceCalls, h.confirmations)
  }

  /**
   * The state one invocation leaves behind: the two file-level session
   * names, how many strings were freed, the sessions passed to the
   * daemon, the sessions confirmed on stdout, and the statuses reported
   * on stderr.
   */
  datatype Observation = Observation(
    optSessionName: Option<string>,
    sessionName: Option<string>,
    released: nat,
    serviceCalls: seq<string>,
    confirmations: seq<string>,
    diagnostics: seq<int>)

  /** The state of a fresh process: both names NULL, nothing done. */
  const INITIAL: Observation := Observation(None, None, 0, [], [], [])

  datatype Outcome = Outcome(status: int, after: Observation)

  /**
   * One run of `cmd_metadata` from a fresh process. At most one string is
   * released and the daemon is called at most once, always with the
   * session name the command settled on.
   */
  function Invocation(argc: int, popt: Popt, ambient: Option<string>, service: string -> int): (o: Outcome)
    requires LeftoverOk(popt.leftover)
    ensures argc < 1 ==> o == Outcome(CMD_ERROR, INITIAL)
    ensures o.after.released <= 1 && |o.after.serviceCalls| <= 1
    ensures o.after.serviceCalls != [] ==> o.after.sessionName == Some(o.after.serviceCalls[0])
    ensures o.after.diagnostics != [] ==> o.after.diagnostics == [o.status] && o.status != CMD_SUCCESS
  {
    if argc < 1 then Outcome(CMD_ERROR, INITIAL)
    else
      var scan := ParseOptions(popt.events, None);
      if scan.exit.Some? then Outcome(scan.exit.value, INITIAL.(optSessionName := scan.opt))
      else
        var session := if scan.opt.Some? then scan.opt else ambient;
        if session.None? then Outcome(CMD_ERROR, INITIAL)
        else
          var d := Dispatch(ACTIONS, popt.leftover, session.value, service);
          Outcome(
            Overwrite(d.status, CMD_SUCCESS),
            Observation(
              scan.opt, session,
              if scan.opt.None? then 1 else 0,
              d.serviceCalls, d.confirmations,
              if d.status != CMD_SUCCESS then [d.status] else []))
  }

  /**
   * One process running the command: the file-level statics
   * `opt_session_name` and `session_name` as fields, and what the command
   * does to the world as counters and lists.
   */
  class Command {
    var optSessionName: Option<string>
    var sessionName: Option<string>
    var released: nat
    var serviceCalls: seq<string>
    var confirmations: seq<string>
    var diagnostics: seq<int>

    /** What `get_session_name()` returns. */
    const ambient: Option<string>
    /** The status `lttng_metadata_regenerate` returns for a session. */
    const service: string -> int

    function Observed(): Observation
      reads this
    {
      Observation(optSessionName, sessionName, released, serviceCalls, confirmations, diagnostics)
    }

    constructor (ambient: Option<string>, service: string -> int)
      ensures Observed() == INITIAL
      ensures this.ambient == ambient && this.service == service
    {
      optSessionName := None;
      sessionName := None;
      released := 0;
      serviceCalls := [];
      confirmations := [];
      diagnostics := [];
      this.ambient := ambient;
      this.service := service;
    }

    /** `free(p)`: releases a string, and does nothing for NULL. */
    method Free(p: Option<string>)
      modifies this`released
      ensures released == old(released) + if p.Some? then 1 else 0
    {
      if p.Some? {
        released := released + 1;
      }
    }

    /**
     * `metadata_regenerate`: one daemon call for `session_name`, whose
     * status is returned unchanged; the confirmation is printed only for a
     * zero status.
     */
    method MetadataRegenerate(argc: nat, argv: Vector) returns (ret: int)
      requires sessionName.Some?
      modifies this`serviceCalls, this`confirmations
      ensures ret == service(sessionName.value)
      ensures serviceCalls == old(serviceCalls) + [sessionName.value]
      ensures confirmations == old(confirmations) + if ret == 0 then [sessionName.value] else []
    {
      ret := service(sessionName.value);
      serviceCalls := serviceCalls + [sessionName.value];
      if ret == 0 {
        confirmations := confirmations + [sessionName.value];
      }
    }

    /** `cmd->func(argc, argv)`: the call through a table entry. */
    method CallHandler(h: Handler, argc: nat, argv: Vector) returns (ret: int)
      requires sessionName.Some?
      modifies this`serviceCalls, this`confirmations
      ensures var e := HandlerEffect(h, sessionName.value, service);
        && ret == e.status
        && serviceCalls == old(serviceCalls) + e.serviceCalls
        && confirmations == old(confirmations) + e.confirmations
    {
      match h
      case Regenerate =>
        ret := MetadataRegenerate(argc, argv);
    }

    /**
     * `handle_command`: count the arguments, scan the `actions` table for
     * the first one, and run the handler found; the handler's status
     * overwrites the pending one.
     */
    method HandleCommand(argv: Option<Vector>) returns (ret: int)
      requires sessionName.Some?
      requires LeftoverOk(argv)
      modifies this`serviceCalls, this`confirmations
      ensures var e := Dispatch(ACTIONS, argv, sessionName.value, service);
        && ret == e.status
        && serviceCalls == old(serviceCalls) + e.serviceCalls
        && confirmations == old(confirmations) + e.confirmations
    {
      ret := CMD_SUCCESS;
      var commandRet := CMD_SUCCESS;
      if argv.None? {
        commandRet := CMD_ERROR;
      } else {
        var argc := CountArguments(argv.value);
        var found, _ := FindCommand(ACTIONS, argv.value[0].value);
        if found.Some? {
          commandRet := CallHandler(ACTIONS[found.value].func.value, argc, argv.value);
        } else {
          ret := CMD_UNDEFINED;
        }
      }
      ret := Overwrite(commandRet, ret);
    }

    /**
     * `cmd_metadata`, run once in a fresh process. Every path reaches the
     * common end, which frees `session_name` unless `-s` supplied it and
     * lets a non-zero dispatch status overwrite the pending one.
     */
    method Run(argc: int, popt: Popt) returns (ret: int)
      requires Observed() == INITIAL
      requires LeftoverOk(popt.leftover)
      modifies this
      ensures Outcome(ret, Observed()) == Invocation(argc, popt, ambient, service)
    {
      ret := CMD_SUCCESS;
      var commandRet := CMD_SUCCESS;
      if argc < 1 {
        ret := CMD_ERROR;
      } else {
        var i := 0;
        var stopped := false;
        while i < |popt.events|
          invariant 0 <= i <= |popt.events|
          invariant ParseOptions(popt.events[i..], optSessionName) == ParseOptions(popt.events, None)
          invariant ret == CMD_SUCCESS && !stopped
          invariant Observed() == INITIAL.(optSessionName := optSessionName)
        {
          match popt.events[i] {
            case Session(name) =>
              optSessionName := Some(name);
            case Unrecognized =>
              ret := CMD_UNDEFINED;
              stopped := true;
              break;
            case _ =>
              stopped := true;
              break;
          }
          i := i + 1;
        }
        if !stopped {
          var resolved := true;
          if optSessionName.None? {
            sessionName := ambient;
            if sessionName.None? {
              ret := CMD_ERROR;
              resolved := false;
            }
          } else {
            sessionName := optSessionName;
          }
          if resolved {
            commandRet := HandleCommand(popt.leftover);
            if commandRet != CMD_SUCCESS {
              diagnostics := diagnostics + [commandRet];
            }
          }
        }
      }
      if optSessionName.None? {
        Free(sessionName);
      }
      ret := Overwrite(commandRet, ret);
    }
  }
}
