// The daemon's session table and its table of child processes, which every request and every
// reap has to keep in agreement (crates/wroid-daemon/src/{lib,process,ipc}.rs). Profiles,
// credentials, spawning, signals and waiting appear as outcomes.

module Sessions {
  import opened Wrappers

  datatype SessionId = SessionId(text: string)

  const DETAIL_CHARS := 4096
  const WORKER_GENERATION := 1
  const SIGTERM := 15

  // validated_session_id
  predicate ValidId(id: SessionId) {
    1 <= |id.text| <= 128 && forall i | 0 <= i < |id.text| :: IdChar(id.text[i])
  }

  predicate IdChar(c: char) {
    'a' <= c <= 'z' || 'A' <= c <= 'Z' || '0' <= c <= '9' || c == '-' || c == '_' || c == '.'
  }

  // In ASCII codes: at least one and at most 128 of letters, digits, dash, underscore and dot.
  lemma ValidIdMeans(id: SessionId)
    ensures ValidId(id) <==>
              0 < |id.text| < 129 && forall i | 0 <= i < |id.text| ::
                var code := id.text[i] as int;
                97 <= code <= 122 || 65 <= code <= 90 || 48 <= code <= 57 || code == 45 || code == 95 || code == 46
  {
  }

  datatype State = Preparing | Running | Stopping | Stopped | Failed

  datatype Session = Session(state: State, launchPackage: bool, processId: Option<nat>, detail: Option<string>)

  datatype Problem =
    | InvalidId
    | BadRequest
    | InvalidProfile
    | AlreadyExists(id: SessionId)
    | NotFound(id: SessionId)
    | InvalidTransition(id: SessionId, from: State, to: State)
    | AlreadyActive
    | LaunchFailed
    | SignalFailed
    | WaitFailed

  function Bounded(detail: string): (r: string)
    ensures r <= detail && |r| <= 4096 && (r != detail ==> |r| == 4096)
  {
    if |detail| <= DETAIL_CHARS then detail else detail[..DETAIL_CHARS]
  }

  // ---------------------------------------------------------------------------------------
  // DaemonSessionManager

  class DaemonSessionManager {
    var sessions: map<SessionId, Session>

    constructor ()
      ensures sessions == map[]
    {
      sessions := map[];
    }

    // prepare_profile_v2
    method Prepare(id: SessionId, profileOk: bool, launchPackage: bool) returns (r: Result<(), Problem>)
      modifies this
      ensures r.Ok? <==> id !in old(sessions) && profileOk
      ensures sessions == if r.Ok? then old(sessions)[id := Session(Preparing, launchPackage, None, None)]
              else old(sessions)
      ensures r.Err? ==> r.error == if id in sessions then AlreadyExists(id) else InvalidProfile
    {
      if id in sessions {
        return Err(AlreadyExists(id));
      }
      if !profileOk {
        return Err(InvalidProfile);
      }
      sessions := sessions[id := Session(Preparing, launchPackage, None, None)];
      return Ok(());
    }

    // The guard every transition shares.
    function Refusal(id: SessionId, allowed: set<State>, to: State): (r: Option<Problem>)
      reads this
      ensures r.None? <==> id in sessions && sessions[id].state in allowed
      ensures r.Some? ==> r.value == NotFound(id) || (r.value.InvalidTransition? && r.value.id == id)
    {
      if id !in sessions then Some(NotFound(id))
      else if sessions[id].state !in allowed then Some(InvalidTransition(id, sessions[id].state, to))
      else None
    }

    method MarkRunning(id: SessionId, pid: nat) returns (r: Result<(), Problem>)
      modifies this
      ensures r.Ok? <==> old(Refusal(id, {Preparing}, Running)).None?
      ensures r.Ok? ==> sessions == old(sessions)[id := old(sessions)[id].(state := Running, processId := Some(pid),
                                                                           detail := None)]
      ensures r.Err? ==> sessions == old(sessions) && Some(r.error) == old(Refusal(id, {Preparing}, Running))
    {
      var refusal := Refusal(id, {Preparing}, Running);
      if refusal.Some? {
        return Err(refusal.value);
      }
      sessions := sessions[id := sessions[id].(state := Running, processId := Some(pid), detail := None)];
      return Ok(());
    }

    method MarkStopping(id: SessionId) returns (r: Result<(), Problem>)
      modifies this
      ensures r.Ok? <==> old(Refusal(id, {Running}, Stopping)).None?
      ensures r.Ok? ==> sessions == old(sessions)[id := old(sessions)[id].(state := Stopping)]
      ensures r.Err? ==> sessions == old(sessions) && Some(r.error) == old(Refusal(id, {Running}, Stopping))
    {
      var refusal := Refusal(id, {Running}, Stopping);
      if refusal.Some? {
        return Err(refusal.value);
      }
      sessions := sessions[id := sessions[id].(state := Stopping)];
      return Ok(());
    }

    method MarkExited(id: SessionId, success: bool, detail: string) returns (r: Result<(), Problem>)
      modifies this
      ensures r.Ok? <==> old(Refusal(id, {Running, Stopping}, if success then Stopped else Failed)).None?
      ensures r.Ok? ==>
                sessions == old(sessions)[id := old(sessions)[id].(state := if success then Stopped else Failed,
                                                                   processId := None, detail := Some(Bounded(detail)))]
      ensures r.Err? ==>
                && sessions == old(sessions)
                && Some(r.error) == old(Refusal(id, {Running, Stopping}, if success then Stopped else Failed))
    {
      var target := if success then Stopped else Failed;
      var refusal := Refusal(id, {Running, Stopping}, target);
      if refusal.Some? {
        return Err(refusal.value);
      }
      sessions := sessions[id := sessions[id].(state := target, processId := None, detail := Some(Bounded(detail)))];
      return Ok(());
    }

    method MarkFailed(id: SessionId, detail: string) returns (r: Result<(), Problem>)
      modifies this
      ensures r.Ok? <==> old(Refusal(id, {Preparing}, Failed)).None?
      ensures r.Ok? ==>
                sessions == old(sessions)[id := old(sessions)[id].(state := Failed, processId := None,
                                                                   detail := Some(Bounded(detail)))]
      ensures r.Err? ==> sessions == old(sessions) && Some(r.error) == old(Refusal(id, {Preparing}, Failed))
    {
      var refusal := Refusal(id, {Preparing}, Failed);
      if refusal.Some? {
        return Err(refusal.value);
      }
      sessions := sessions[id := sessions[id].(state := Failed, processId := None, detail := Some(Bounded(detail)))];
      return Ok(());
    }

    // start: a prepared session without a process of its own.
    method Start(id: SessionId) returns (r: Result<(), Problem>)
      modifies this
      ensures r.Ok? <==> old(Refusal(id, {Preparing}, Running)).None?
      ensures r.Ok? ==> sessions == old(sessions)[id := old(sessions)[id].(state := Running)]
      ensures r.Err? ==> sessions == old(sessions) && Some(r.error) == old(Refusal(id, {Preparing}, Running))
    {
      var refusal := Refusal(id, {Preparing}, Running);
      if refusal.Some? {
        return Err(refusal.value);
      }
      sessions := sessions[id := sessions[id].(state := Running)];
      return Ok(());
    }

    // stop: for sessions no process belongs to; it may be repeated.
    method Stop(id: SessionId) returns (r: Result<(), Problem>)
      modifies this
      ensures r.Ok? <==> old(Refusal(id, {Preparing, Running, Failed, Stopped}, Stopped)).None?
      ensures r.Ok? ==> sessions == old(sessions)[id := old(sessions)[id].(state := Stopped)]
      ensures r.Err? ==>
                && sessions == old(sessions)
                && r.error == if id !in sessions then NotFound(id) else InvalidTransition(id, Stopping, Stopped)
    {
      if id !in sessions {
        return Err(NotFound(id));
      }
      match sessions[id].state
      case Stopping => return Err(InvalidTransition(id, Stopping, Stopped));
      case Stopped =>
        assert sessions[id := sessions[id].(state := Stopped)] == sessions;
        return Ok(());
      case _ =>
        sessions := sessions[id := sessions[id].(state := Stopping)];
        sessions := sessions[id := sessions[id].(state := Stopped)];
        assert sessions == old(sessions)[id := old(sessions)[id].(state := Stopped)];
        return Ok(());
    }
  }

  // ---------------------------------------------------------------------------------------
  // ManagedProcesses

  datatype Child = Child(pid: nat, stopRequested: bool)

  datatype ExitStatus = ExitCode(code: int) | Killed(signal: nat)

  datatype Exit = Exit(status: ExitStatus, brokerOk: bool, detail: string)

  datatype Reaped = Reaped(id: SessionId, success: bool, detail: string)

  // combine_reaped_detail: a requested stop that ended in SIGTERM is a success, and a broker that
  // failed to clean up never is.
  function Succeeded(exit: Exit, stopRequested: bool): bool {
    exit.brokerOk && (exit.status == ExitCode(0) || (stopRequested && exit.status == Killed(SIGTERM)))
  }

  class ManagedProcesses {
    var children: map<SessionId, Child>

    constructor ()
      ensures children == map[]
    {
      children := map[];
    }

    // launch: one child at a time; every later step may fail and leaves the table alone. `spawned` is the
    // process, if all of them work.
    method Launch(id: SessionId, generation: nat, spawned: Option<nat>) returns (r: Result<nat, Problem>)
      modifies this
      ensures children == if r.Ok? then old(children)[id := Child(r.value, false)] else old(children)
      ensures r == if old(children) != map[] then Err(AlreadyActive)
              else if generation == 1 && spawned.Some? then Ok(spawned.value)
              else Err(LaunchFailed)
    {
      if children != map[] {
        return Err(AlreadyActive);
      }
      if generation != WORKER_GENERATION {
        return Err(LaunchFailed);
      }
      if spawned.None? {
        return Err(LaunchFailed);
      }
      children := children[id := Child(spawned.value, false)];
      return Ok(spawned.value);
    }

    // A process that is already gone counts as signalled.
    method RequestStop(id: SessionId, signalled: bool) returns (r: Result<bool, Problem>)
      modifies this
      ensures r == if id !in old(children) then Ok(false) else if signalled then Ok(true) else Err(SignalFailed)
      ensures children == if r == Ok(true) then old(children)[id := old(children)[id].(stopRequested := true)]
              else old(children)
    {
      if id !in children {
        return Ok(false);
      }
      if !signalled {
        return Err(SignalFailed);
      }
      children := children[id := children[id].(stopRequested := true)];
      return Ok(true);
    }

    // reap: `waited` says which children turned out to have exited. A failing wait changes nothing.
    method Reap(waited: Option<map<SessionId, Exit>>) returns (r: Result<seq<Reaped>, Problem>)
      modifies this
      ensures waited.None? ==> r == Err(WaitFailed) && children == old(children)
      ensures waited.Some? ==>
                r.Ok? && children == old(children) - waited.value.Keys && Reports(old(children), waited.value, r.value)
    {
      hide ReportsOnly, Succeeded;
      if waited.None? {
        return Err(WaitFailed);
      }
      var exits := waited.value;
      var exited := children.Keys * exits.Keys;
      var completed: seq<Reaped> := [];
      ghost var done: set<SessionId> := {};
      NothingReported(children, exits);
      while exited != {}
        invariant done !! exited && done + exited == old(children.Keys) * exits.Keys
        invariant children == old(children) - done
        invariant ReportsOnly(old(children), exits, completed, done)
        decreases exited
      {
        var id :| id in exited;
        var exit := exits[id];
        ReportOne(old(children), exits, completed, done, id);
        RemoveOne(old(children), done, id);
        completed := completed + [Reaped(id, Succeeded(exit, children[id].stopRequested), exit.detail)];
        children := children - {id};
        exited := exited - {id};
        done := done + {id};
      }
      RemoveAll(old(children), done, exits.Keys);
      return Ok(completed);
    }
  }

  ghost predicate ReportsOnly(children: map<SessionId, Child>, exits: map<SessionId, Exit>, completed: seq<Reaped>,
                              done: set<SessionId>) {
    && (forall k | 0 <= k < |completed| ::
          && completed[k].id in children && completed[k].id in exits && completed[k].id in done
          && completed[k].success == Succeeded(exits[completed[k].id], children[completed[k].id].stopRequested)
          && completed[k].detail == exits[completed[k].id].detail)
    && (forall j, k | 0 <= j < k < |completed| :: completed[j].id != completed[k].id)
    && (forall id | id in children && id in exits && id in done :: exists k ::
          0 <= k < |completed| && completed[k].id == id)
  }

  lemma RemoveOne(children: map<SessionId, Child>, done: set<SessionId>, id: SessionId)
    ensures children - done - {id} == children - (done + {id})
    ensures id in children && id !in done ==> id in children - done && (children - done)[id] == children[id]
  {
  }

  lemma RemoveAll(children: map<SessionId, Child>, done: set<SessionId>, gone: set<SessionId>)
    requires done == children.Keys * gone
    ensures children - done == children - gone
  {
  }

  lemma NothingReported(children: map<SessionId, Child>, exits: map<SessionId, Exit>)
    ensures ReportsOnly(children, exits, [], {})
  {
  }

  lemma ReportOne(children: map<SessionId, Child>, exits: map<SessionId, Exit>, completed: seq<Reaped>,
                  done: set<SessionId>, id: SessionId)
    requires ReportsOnly(children, exits, completed, done)
    requires id in children && id in exits && id !in done
    ensures ReportsOnly(children, exits,
                        completed + [Reaped(id, Succeeded(exits[id], children[id].stopRequested), exits[id].detail)],
                            done + {id})
  {
    var report := Reaped(id, Succeeded(exits[id], children[id].stopRequested), exits[id].detail);
    var all := completed + [report];
    assert all[|completed|] == report;
    forall other | other in children && other in exits && other in done + {id}
      ensures exists k :: 0 <= k < |all| && all[k].id == other
    {
      if other in done {
        var k :| 0 <= k < |completed| && completed[k].id == other;
        assert all[k].id == other;
      }
    }
  }

  // One report for every child that exited, with its verdict.
  ghost predicate Reports(children: map<SessionId, Child>, exits: map<SessionId, Exit>, completed: seq<Reaped>) {
    ReportsOnly(children, exits, completed, children.Keys * exits.Keys)
  }

  // ---------------------------------------------------------------------------------------
  // The two tables together

  ghost predicate Matches(session: Session, child: Child) {
    session.processId == Some(child.pid) && session.state == (if child.stopRequested then Stopping else Running)
  }

  // The children are exactly the sessions with a process, those are running, or stopping once
  // they were asked to, and there is at most one.
  ghost predicate Agree(sessions: map<SessionId, Session>, children: map<SessionId, Child>) {
    && (forall id | id in children :: id in sessions && Matches(sessions[id], children[id]))
    && (forall id | id in sessions && id !in children :: sessions[id].processId.None? && sessions[id].state != Stopping)
    && (forall one, other | one in children && other in children :: one == other)
  }

  datatype Tables = Tables(sessions: map<SessionId, Session>, children: map<SessionId, Child>)

  // What reaping does: a session whose child exited ends as the exit says, and its child is gone.
  ghost predicate ReapedTo(before: Tables, exits: map<SessionId, Exit>, after: Tables) {
    && after.children == before.children - exits.Keys
    && after.sessions.Keys == before.sessions.Keys
    && (forall id | id in before.sessions && !(id in before.children && id in exits) ::
          after.sessions[id] == before.sessions[id])
    && (forall id | id in before.sessions && id in before.children && id in exits ::
          EndedAs(before.sessions[id], before.children[id].stopRequested, exits[id], after.sessions[id]))
  }

  // Stopped if it ended with 0, or with the signal it was sent, and the broker cleaned up; else failed.
  ghost predicate EndedAs(before: Session, stopRequested: bool, exit: Exit, after: Session) {
    && (after.state == Stopped <==>
          exit.brokerOk && (match exit.status
                            case ExitCode(code) => code == 0
                            case Killed(signal) => stopRequested && signal == 15))
    && (after.state == Stopped || after.state == Failed)
    && after.launchPackage == before.launchPackage && after.processId.None? && after.detail.Some?
    && after.detail.value <= exit.detail
    && |after.detail.value| == if |exit.detail| < 4096 then |exit.detail| else 4096
  }

  // What a request does and is told, kind by kind.
  ghost predicate Served(before: Tables, request: Request, r: Result<(), Problem>, after: Tables) {
    match request
    case Ping => r.Ok? && after == before
    case List => r.Ok? && after == before
    case GetState(id) =>
      if !ValidId(id) then r == Err(InvalidId) && after == before
      else if id !in before.sessions then r == Err(NotFound(id)) && after == before
      else r.Ok? && after == before
    case PrepareProfile(id, dimensionsOk, profileOk, launchPackage) =>
      if !ValidId(id) then r == Err(InvalidId) && after == before
      else if !dimensionsOk then r == Err(BadRequest) && after == before
      else if id in before.sessions then r == Err(AlreadyExists(id)) && after == before
      else if !profileOk then r == Err(InvalidProfile) && after == before
      else
        && r.Ok? && after.children == before.children
        && after.sessions == before.sessions[id := Session(Preparing, launchPackage, None, None)]
    case LaunchProfile(id, generation, dimensionsOk, profileOk, launchPackage, spawned) =>
      if !ValidId(id) then r == Err(InvalidId) && after == before
      else if generation != 1 || !dimensionsOk then r == Err(BadRequest) && after == before
      else if id in before.sessions then r == Err(AlreadyExists(id)) && after == before
      else if !profileOk then r == Err(InvalidProfile) && after == before
      else LaunchedAs(before, id, launchPackage, spawned, r, after)
    case StartSession(id) =>
      if !ValidId(id) then r == Err(InvalidId) && after == before
      else if id !in before.sessions then r == Err(NotFound(id)) && after == before
      else if before.sessions[id].state != Preparing then
        r == Err(InvalidTransition(id, before.sessions[id].state, Running)) && after == before
      else
        && r.Ok? && after.children == before.children
        && after.sessions == before.sessions[id := before.sessions[id].(state := Running)]
    case StopSession(id, signalled) =>
      if !ValidId(id) then r == Err(InvalidId) && after == before
      else if id in before.children then StopAsked(before, id, signalled, r, after)
      else if id !in before.sessions then r == Err(NotFound(id)) && after == before
      else
        && r.Ok? && after.children == before.children
        && after.sessions == before.sessions[id := before.sessions[id].(state := Stopped)]
  }

  // A new session runs with a child of its own, or has failed; it fails for good if there is a child already.
  ghost predicate LaunchedAs(before: Tables, id: SessionId, launchPackage: bool, spawned: Option<nat>,
                             r: Result<(), Problem>, after: Tables) {
    && (r.Ok? <==> before.children == map[] && spawned.Some?)
    && after.sessions.Keys == before.sessions.Keys + {id}
    && (forall other | other in before.sessions :: after.sessions[other] == before.sessions[other])
    && match r
       case Ok(_) =>
         && after.children == map[id := Child(spawned.value, false)]
         && after.sessions[id] == Session(Running, launchPackage, spawned, None)
       case Err(problem) =>
         && problem == (if before.children != map[] then AlreadyActive else LaunchFailed)
         && after.children == before.children
         && after.sessions[id].state == Failed && after.sessions[id].launchPackage == launchPackage
         && after.sessions[id].processId.None? && after.sessions[id].detail.Some?
  }

  // A child is asked to stop once; asked again, the session only says that it is stopping.
  ghost predicate StopAsked(before: Tables, id: SessionId, signalled: bool, r: Result<(), Problem>, after: Tables)
    requires id in before.children
  {
    if !signalled then r == Err(SignalFailed) && after == before
    else if before.children[id].stopRequested then
      r == Err(InvalidTransition(id, Stopping, Stopping)) && after == before
    else
      && r.Ok? && id in before.sessions
      && after.children == before.children[id := before.children[id].(stopRequested := true)]
      && after.sessions == before.sessions[id := before.sessions[id].(state := Stopping)]
  }

  // What one turn of serve_once finds: the children that exited, unless waiting fails, and a request.
  datatype Round = Round(waited: Option<map<SessionId, Exit>>, request: Request)

  // One turn of serve_once after another: what is reaped, then what is answered.
  ghost predicate Follows(trail: seq<Tables>, replies: seq<Result<(), Problem>>, script: seq<Round>) {
    && |trail| == |replies| + 1 && |replies| <= |script|
    && forall k | 0 <= k < |replies| ::
         && script[k].waited.Some?
         && OneTurn(trail[k], script[k].waited.value, script[k].request, replies[k], trail[k + 1])
  }

  ghost predicate OneTurn(before: Tables, exits: map<SessionId, Exit>, request: Request, r: Result<(), Problem>,
                          after: Tables) {
    exists between :: ReapedTo(before, exits, between) && Served(between, request, r, after)
  }

  // How far a session has come.
  function Progress(state: State): nat {
    match state
    case Preparing => 0
    case Running => 1
    case Stopping => 2
    case Failed => 3
    case Stopped => 4
  }

  ghost predicate Forward(before: Tables, after: Tables) {
    forall id | id in before.sessions ::
      && id in after.sessions
      && Progress(before.sessions[id].state) <= Progress(after.sessions[id].state)
      && after.sessions[id].launchPackage == before.sessions[id].launchPackage
  }

  lemma ReapIsForward(before: Tables, exits: map<SessionId, Exit>, after: Tables)
    requires Agree(before.sessions, before.children) && ReapedTo(before, exits, after)
    ensures Forward(before, after)
  {
    forall id | id in before.sessions
      ensures Progress(before.sessions[id].state) <= Progress(after.sessions[id].state)
      ensures after.sessions[id].launchPackage == before.sessions[id].launchPackage
    {
      if id in before.children && id in exits {
        assert Matches(before.sessions[id], before.children[id]);
      }
    }
  }

  lemma ServiceIsForward(before: Tables, request: Request, r: Result<(), Problem>, after: Tables)
    requires Served(before, request, r, after)
    requires request.StopSession? && request.id in before.children ==>
               request.id in before.sessions && Matches(before.sessions[request.id], before.children[request.id])
    ensures Forward(before, after)
  {
  }

  lemma TurnIsForward(before: Tables, exits: map<SessionId, Exit>, request: Request, r: Result<(), Problem>,
                      after: Tables)
    requires Agree(before.sessions, before.children) && OneTurn(before, exits, request, r, after)
    ensures Forward(before, after)
  {
    hide Served, ReapedTo;
    var between :| ReapedTo(before, exits, between) && Served(between, request, r, after);
    ReapIsForward(before, exits, between);
    ReapAgrees(before, exits, between);
    ServiceIsForward(between, request, r, after);
  }

  lemma ReapAgrees(before: Tables, exits: map<SessionId, Exit>, after: Tables)
    requires Agree(before.sessions, before.children) && ReapedTo(before, exits, after)
    ensures Agree(after.sessions, after.children)
  {
  }

  // Whatever is asked and whoever exits, no session is forgotten or goes back: what has ended stays ended.
  lemma {:induction false} OnlyForward(trail: seq<Tables>, replies: seq<Result<(), Problem>>,
                                       script: seq<Round>, i: nat, j: nat)
    requires Follows(trail, replies, script) && i <= j < |trail|
    requires forall k | 0 <= k < |trail| :: Agree(trail[k].sessions, trail[k].children)
    ensures Forward(trail[i], trail[j])
    decreases j
  {
    hide Agree, OneTurn;
    if i < j {
      OnlyForward(trail, replies, script, i, j - 1);
      TurnIsForward(trail[j - 1], script[j - 1].waited.value, script[j - 1].request, replies[j - 1], trail[j]);
    }
  }

  datatype Request =
    | Ping
    | PrepareProfile(id: SessionId, dimensionsOk: bool, profileOk: bool, launchPackage: bool)
    | LaunchProfile(id: SessionId, generation: nat, dimensionsOk: bool, profileOk: bool, launchPackage: bool,
                    spawned: Option<nat>)
    | StartSession(id: SessionId)
    | GetState(id: SessionId)
    | StopSession(id: SessionId, signalled: bool)
    | List

  class DaemonServer {
    const manager: DaemonSessionManager
    const processes: ManagedProcesses

    ghost predicate Valid()
      reads this, manager, processes
    {
      Agree(manager.sessions, processes.children)
    }

    ghost function Now(): Tables
      reads this, manager, processes
    {
      Tables(manager.sessions, processes.children)
    }

    constructor ()
      ensures Valid() && fresh(manager) && fresh(processes)
      ensures manager.sessions == map[] && processes.children == map[]
    {
      manager := new DaemonSessionManager();
      processes := new ManagedProcesses();
    }

    // A launch that fails after the session was prepared leaves it failed, not preparing, and
    // marking it so cannot itself fail.
    method Launch(request: Request) returns (r: Result<(), Problem>)
      requires Valid() && request.LaunchProfile?
      modifies manager, processes
      ensures Valid()
      ensures r.Ok? ==>
                && old(processes.children) == map[] && request.id !in old(manager.sessions) && ValidId(request.id)
                && processes.children.Keys == {request.id}
                && manager.sessions.Keys == old(manager.sessions.Keys) + {request.id}
                && manager.sessions[request.id].state == Running
      ensures r.Err? ==>
                processes.children == old(processes.children) && !r.error.InvalidTransition? && !r.error.NotFound?
      ensures forall id | id in old(manager.sessions) ::
                id in manager.sessions && manager.sessions[id] == old(manager.sessions)[id]
      ensures old(processes.children) != map[] ==> r.Err?
      ensures r.Err? && (r.error.AlreadyActive? || r.error.LaunchFailed?) ==>
                request.id in manager.sessions && manager.sessions[request.id].state == Failed
      ensures Served(old(Now()), request, r, Now())
    {
      if !ValidId(request.id) {
        return Err(InvalidId);
      }
      if request.generation != WORKER_GENERATION || !request.dimensionsOk {
        return Err(BadRequest);
      }
      var prepared := manager.Prepare(request.id, request.profileOk, request.launchPackage);
      if prepared.Err? {
        return prepared;
      }
      var launched := processes.Launch(request.id, request.generation, request.spawned);
      if launched.Err? {
        var marked := manager.MarkFailed(request.id, "");
        assert marked.Ok?;
        return Err(launched.error);
      }
      var marked := manager.MarkRunning(request.id, launched.value);
      assert marked.Ok?;
      return Ok(());
    }

    // A session with a child is only asked to stop; one without is stopped on the spot.
    method StopOne(id: SessionId, signalled: bool) returns (r: Result<(), Problem>)
      requires Valid()
      modifies manager, processes
      ensures Valid()
      ensures processes.children.Keys == old(processes.children.Keys)
              && manager.sessions.Keys == old(manager.sessions.Keys)
      ensures r.Ok? && id in old(processes.children) ==>
              manager.sessions[id].state == Stopping && processes.children[id].stopRequested
      ensures r.Ok? && id !in old(processes.children) ==>
              id in manager.sessions && manager.sessions[id].state == Stopped
      ensures ValidId(id) && id in old(manager.sessions) && id !in old(processes.children) ==> r.Ok?
      ensures Served(old(Now()), StopSession(id, signalled), r, Now())
    {
      if !ValidId(id) {
        return Err(InvalidId);
      }
      var asked := processes.RequestStop(id, signalled);
      if asked.Err? {
        return Err(asked.error);
      }
      if asked.value {
        r := manager.MarkStopping(id);
        return;
      }
      r := manager.Stop(id);
    }

    // Every request, accepted or refused, keeps the tables in agreement.
    method Dispatch(request: Request) returns (r: Result<(), Problem>)
      requires Valid()
      modifies manager, processes
      ensures Valid() && Served(old(Now()), request, r, Now())
      ensures manager.sessions.Keys >= old(manager.sessions.Keys)
    {
      match request {
        case Ping => r := Ok(());
        case List => r := Ok(());
        case GetState(id) =>
          r := if !ValidId(id) then Err(InvalidId) else if id in manager.sessions then Ok(()) else Err(NotFound(id));
        case PrepareProfile(id, dimensionsOk, profileOk, launchPackage) =>
          if !ValidId(id) {
            r := Err(InvalidId);
          } else if !dimensionsOk {
            r := Err(BadRequest);
          } else {
            r := manager.Prepare(id, profileOk, launchPackage);
          }
        case LaunchProfile(_, _, _, _, _, _) => r := Launch(request);
        case StartSession(id) =>
          if !ValidId(id) {
            r := Err(InvalidId);
          } else {
            r := manager.Start(id);
          }
        case StopSession(id, signalled) => r := StopOne(id, signalled);
      }
    }

    // reap_managed_processes. Only a failing wait can make it fail: the manager accepts every
    // report, since the tables agree.
    method ReapManaged(waited: Option<map<SessionId, Exit>>) returns (r: Result<(), Problem>)
      requires Valid()
      modifies manager, processes
      ensures Valid()
      ensures if waited.None? then r == Err(WaitFailed) && Now() == old(Now())
              else r.Ok? && ReapedTo(old(Now()), waited.value, Now())
    {
      hide Agree, Reports, MarkedExited, ReapedTo;
      var before := processes.children;
      var reaped := processes.Reap(waited);
      if reaped.Err? {
        return Err(reaped.error);
      }
      var exits := waited.value;
      MarkReaped(reaped.value, before, exits);
      ReapedAgree(old(manager.sessions), before, exits, reaped.value, manager.sessions, processes.children);
      return Ok(());
    }

    method MarkReaped(completed: seq<Reaped>, ghost before: map<SessionId, Child>, ghost exits: map<SessionId, Exit>)
      requires Agree(manager.sessions, before) && Reports(before, exits, completed)
      modifies manager
      ensures manager.sessions.Keys == old(manager.sessions.Keys)
      ensures forall k | 0 <= k < |completed| :: MarkedExited(old(manager.sessions), manager.sessions, completed[k])
      ensures forall id | id in old(manager.sessions) && !(id in before && id in exits) ::
                manager.sessions[id] == old(manager.sessions)[id]
    {
      var k := 0;
      while k < |completed|
        invariant 0 <= k <= |completed|
        invariant manager.sessions.Keys == old(manager.sessions.Keys)
        invariant forall j | 0 <= j < k :: MarkedExited(old(manager.sessions), manager.sessions, completed[j])
        invariant forall j | k <= j < |completed| ::
                    completed[j].id in manager.sessions
                        && manager.sessions[completed[j].id] == old(manager.sessions)[completed[j].id]
        invariant forall id | id in old(manager.sessions) && !(id in before && id in exits) ::
                    manager.sessions[id] == old(manager.sessions)[id]
      {
        var report := completed[k];
        assert Matches(old(manager.sessions)[report.id], before[report.id]);
        var marked := manager.MarkExited(report.id, report.success, report.detail);
        assert marked.Ok?;
        k := k + 1;
      }
    }

    // serve_once: reap, then serve. A run of these never takes the tables apart, answers every request by the
    // tables it finds, and never brings a session back.
    method Serve(script: seq<Round>)
      returns (r: Result<(), Problem>, ghost trail: seq<Tables>, ghost replies: seq<Result<(), Problem>>)
      requires Valid()
      modifies manager, processes
      ensures Valid()
      ensures Follows(trail, replies, script) && trail[0] == old(Now()) && trail[|replies|] == Now()
      ensures if |replies| == |script| then r.Ok? else r == Err(WaitFailed) && script[|replies|].waited.None?
      ensures forall k | 0 <= k < |trail| :: Agree(trail[k].sessions, trail[k].children)
      ensures forall i, j | 0 <= i <= j < |trail| :: Forward(trail[i], trail[j])
    {
      hide Agree, ReapedTo, Served, Forward;
      trail, replies := [Now()], [];
      var k := 0;
      while k < |script|
        invariant 0 <= k == |replies| <= |script| && Valid()
        invariant Follows(trail, replies, script) && trail[0] == old(Now()) && trail[k] == Now()
        invariant forall j | 0 <= j < |trail| :: Agree(trail[j].sessions, trail[j].children)
      {
        var reaped := ReapManaged(script[k].waited);
        if reaped.Err? {
          TrailIsForward(trail, replies, script);
          return reaped, trail, replies;
        }
        ghost var between := Now();
        var reply := Dispatch(script[k].request);
        assert OneTurn(trail[k], script[k].waited.value, script[k].request, reply, Now());
        trail, replies := trail + [Now()], replies + [reply];
        k := k + 1;
      }
      TrailIsForward(trail, replies, script);
      return Ok(()), trail, replies;
    }
  }

  lemma TrailIsForward(trail: seq<Tables>, replies: seq<Result<(), Problem>>,
                       script: seq<Round>)
    requires Follows(trail, replies, script)
    requires forall k | 0 <= k < |trail| :: Agree(trail[k].sessions, trail[k].children)
    ensures forall i, j | 0 <= i <= j < |trail| :: Forward(trail[i], trail[j])
  {
    hide Agree, Forward, Follows;
    forall i, j | 0 <= i <= j < |trail| ensures Forward(trail[i], trail[j]) {
      OnlyForward(trail, replies, script, i, j);
    }
  }

  ghost predicate MarkedExited(before: map<SessionId, Session>, sessions: map<SessionId, Session>, report: Reaped) {
    && report.id in before && report.id in sessions
    && sessions[report.id] == before[report.id].(state := if report.success then Stopped else Failed, processId := None,
                                                 detail := Some(Bounded(report.detail)))
  }

  lemma ReapedAgree(sessions: map<SessionId, Session>, children: map<SessionId, Child>, exits: map<SessionId, Exit>,
                    completed: seq<Reaped>, sessions': map<SessionId, Session>, children': map<SessionId, Child>)
    requires Agree(sessions, children) && Reports(children, exits, completed)
    requires children' == children - exits.Keys && sessions'.Keys == sessions.Keys
    requires forall k | 0 <= k < |completed| :: MarkedExited(sessions, sessions', completed[k])
    requires forall id | id in sessions && !(id in children && id in exits) :: sessions'[id] == sessions[id]
    ensures Agree(sessions', children')
    ensures ReapedTo(Tables(sessions, children), exits, Tables(sessions', children'))
  {
  }
}
