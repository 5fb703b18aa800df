/** Running a wrapped user command with hooks (internal/process/subprocess.go). */
module Subprocess {
  import opened Wrappers

  datatype Command = Command(entrypoint: string, args: seq<string>)

  datatype CommandError = NoUserCommand

  /** Fails exactly on the empty vector; otherwise nothing of the vector is lost or reordered. */
  method BuildUserCommand(userCmd: seq<string>) returns (r: Result<Command, CommandError>)
    ensures r.Err? <==> userCmd == []
    ensures r.Ok? ==> [r.value.entrypoint] + r.value.args == userCmd
  {
    if |userCmd| == 0 {
      return Err(NoUserCommand);
    }
    var entrypoint, args := userCmd[0], userCmd[1..];
    return Ok(Command(entrypoint, args));
  }

  datatype Event = PreStart | Started | StartFailed | Ended | PostStop

  /** How waiting for the child ends. */
  datatype Wait = Exited(code: int) | Signaled(signal: int) | Broken

  /** Everything that happens, in order. The post-stop hook is deferred: it runs last, exactly once,
      on every way out, and the command is not started before the pre-start hook has returned. */
  method HookCommand(preStart: bool, postStop: bool, startOk: bool, wait: Wait)
    returns (exitCode: int, failed: bool, events: seq<Event>)
    ensures PostStop in events <==> postStop
    ensures postStop ==> events[|events| - 1] == PostStop && PostStop !in events[..|events| - 1]
    ensures events != [] && (preStart ==> events[0] == PreStart)
    ensures PreStart in events <==> preStart
    ensures StartFailed in events <==> !startOk
    ensures Started in events <==> startOk
    ensures Started in events ==> Ended in events
    ensures forall i, j ::
      0 <= i < |events| && 0 <= j < |events| && events[i] == Ended && events[j] == PostStop ==> i < j
    ensures failed <==> !startOk || wait.Broken?
    ensures failed ==> exitCode == -1
    ensures !failed ==> exitCode == (if wait.Signaled? then 128 + wait.signal else wait.code)
  {
    events := [];
    if preStart {
      events := events + [PreStart];
    }
    var deferred: seq<Event> := [];
    if postStop {
      deferred := [PostStop];
    }
    if !startOk {
      events := events + [StartFailed];
      events := events + deferred;
      return -1, true, events;
    }
    events := events + [Started];
    events := events + [Ended];
    exitCode, failed := 0, false;
    match wait {
      case Exited(code) => exitCode := code;
      case Signaled(signal) => exitCode := 128 + signal;
      case Broken => exitCode, failed := -1, true;
    }
    events := events + deferred;
  }
}
