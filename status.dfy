/**
 * The command status codes shared by the lttng client commands, and the
 * rule by which a pending status is overwritten by a later one.
 *
 * The header that declares them is not part of this model. Only three
 * facts are used: success is 0 (every `command_ret ? command_ret : ret`
 * relies on it), and the error and undefined-command codes are distinct
 * and non-zero. The values 1 and 2 follow the order of that enumeration.
 */
module Status {

  const CMD_SUCCESS: int := 0
  const CMD_ERROR: int := 1
  const CMD_UNDEFINED: int := 2

  /**
   * `command_ret ? command_ret : ret`: a non-zero status coming from a
   * later stage wins over the status pending so far; the combination is a
   * success only when both are.
   */
  function Overwrite(commandRet: int, ret: int): (r: int)
    ensures r == commandRet || r == ret
    ensures commandRet != CMD_SUCCESS ==> r == commandRet
    ensures r == CMD_SUCCESS <==> commandRet == CMD_SUCCESS && ret == CMD_SUCCESS
  {
    if commandRet != 0 then commandRet else ret
  }
}
