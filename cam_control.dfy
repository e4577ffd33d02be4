/** The camera command state machine: the program and status a client
    command asks for are matched against the loaded camera program and its
    status through the board operations open, start, stop and close. */
module CamControl {
  import opened CamCommand

  /** The externally visible effects, in the order they happen. */
  datatype Action =
    | StopBoards        // halt circular acquisition on both boards
    | CloseBoards       // clean up, free the buffers and close both boards
    | OpenBoards        // open both boards with the current buffer counts
    | Signal(msg: string)
    | CreateThreads     // create, without starting, both acquisition threads
    | StartBoards       // start circular acquisition on both boards
    | WriteStream       // write the streamed frames to disk
    | WriteAvgImages    // write the last individual averaging frames to disk

  /** The C boolean constants of the platform. */
  const TRUE := 1
  const FALSE := 0

  /** The globals the command logic reads and writes. */
  datatype CamState = CamState(
    program: Program, status: Status,
    desiredProgram: Program, desiredStatus: Status,
    numBuffers0: int, numBuffers1: int,
    keepRunningCam: bool,
    numIntegrations: int, qIndxStart: int, doAvgImageDump: int,
    timeStamp: int, timeStampX: int, timeStampY: int,
    actions: seq<Action>)

  /** The values the globals hold when the server starts. */
  function Initial(): (s: CamState)
    ensures s.program == NoProgram && s.status == Closed && s.keepRunningCam
    ensures s.numIntegrations == 512 && s.qIndxStart == 0 && s.doAvgImageDump == FALSE && s.actions == []
  {
    CamState(NoProgram, Closed, NoProgram, Closed, 10, 10, true, 512, 0, FALSE, 0, 0, 0, [])
  }

  /** The integers sscanf assigned, each kept when it was not read. */
  function StoreInts(s: CamState, ints: seq<int>): CamState {
    s.(numIntegrations := if |ints| >= 1 then ints[0] else s.numIntegrations,
       qIndxStart := if |ints| >= 2 then ints[1] else s.qIndxStart,
       doAvgImageDump := if |ints| >= 3 then ints[2] else s.doAvgImageDump)
  }

  /** The desired status, and the defaults a "start" with fewer than three
      items loads. */
  function ApplyVerb(s: CamState, c: Request): CamState {
    var t := s.(desiredStatus := c.status);
    if c.status == Running && c.count < 3 then t.(numIntegrations := 512, qIndxStart := 0, doAvgImageDump := FALSE)
    else if c.status == Running && c.count == 3 then t.(doAvgImageDump := FALSE)
    else t
  }

  /** The start of each command: the desired program and status, and the
      integers it carries. */
  function AfterRead(s: CamState, c: Request): CamState {
    ApplyVerb(StoreInts(s.(desiredProgram := c.program), c.ints), c)
  }

  // ---------------------------------------------------------------------
  // The board operations, reduced to their effect on the globals

  function BoardStop(s: CamState): CamState {
    s.(status := Stopped, actions := s.actions + [StopBoards])
  }

  function BoardClose(s: CamState): CamState {
    s.(program := NoProgram, status := Closed, actions := s.actions + [CloseBoards])
  }

  function BoardStart(s: CamState): CamState {
    s.(status := Running, actions := s.actions + [StartBoards])
  }

  /** Loading program p (STREAM or AVGING) into boards that are closed. */
  function Load(s: CamState, p: Program, now: int): CamState
    requires p != NoProgram
  {
    var o := BoardsOpen(s, p);
    if s.desiredStatus == Running then BoardStart(o.(timeStamp := now)) else o
  }

  /** The boards opened for p, with its buffer count, before any start. */
  function BoardsOpen(s: CamState, p: Program): CamState
    requires p != NoProgram
  {
    var nb := if p == Stream then 1984 else 1032;
    s.(numBuffers0 := nb, numBuffers1 := nb,
       keepRunningCam := if p == Avging then true else s.keepRunningCam,
       program := p, status := Opened,
       actions := s.actions + [OpenBoards, Signal(ReadyMessage(p)), CreateThreads])
  }

  /** The message sent to the client once the boards are open. */
  function ReadyMessage(p: Program): string {
    if p == Stream then "cam ready stream" else "cam ready avging"
  }

  /** Log b continues log a: every action already taken stays, in order. */
  predicate Extends(a: seq<Action>, b: seq<Action>) {
    |a| <= |b| && b[..|a|] == a
  }

  /** A new program is asked for: whatever is loaded is stopped and closed,
      then the new one is loaded. */
  function ChangeProgram(s: CamState, now: int): (r: CamState)
    ensures r.program == s.desiredProgram && r.desiredProgram == s.desiredProgram
    ensures Extends(s.actions, r.actions)
  {
    var c := if s.program != NoProgram then BoardClose(BoardStop(s)) else s;
    if s.desiredProgram == NoProgram then c else Load(c, s.desiredProgram, now)
  }

  /** The loaded program is the one asked for; only its status is matched. */
  function MatchStatus(s: CamState, now: int): (r: CamState)
    ensures r.program == s.program && r.desiredProgram == s.desiredProgram
    ensures Extends(s.actions, r.actions)
    ensures s.desiredStatus == Running ==> r.status == Running && r.keepRunningCam
    ensures s.desiredStatus == Stopped ==> r.status == Stopped && !r.keepRunningCam
    ensures s.desiredStatus == GentleStop ==> r.desiredStatus == Stopped && !r.keepRunningCam
    ensures s.desiredStatus !in {Running, Stopped, GentleStop} ==> r == s
  {
    match s.desiredStatus
    case Running =>
      var r := BoardStart(s.(keepRunningCam := true, timeStamp := now));
      r.(timeStampX := now, timeStampY := now)
    case Stopped =>
      var r := BoardStop(s).(keepRunningCam := false);
      var w := if s.program == Stream then r.(actions := r.actions + [WriteStream]) else r;
      if s.program == Avging && s.doAvgImageDump == TRUE then w.(actions := w.actions + [WriteAvgImages]) else w
    case GentleStop =>
      var g := s.(keepRunningCam := false, desiredStatus := Stopped);
      if s.program == Stream then
        var r := BoardStop(g);
        r.(actions := r.actions + [WriteStream])
      else g
    case _ => s
  }

  /** One command, from the globals before to the globals after: the
      program the command names is always the one loaded afterwards, and
      the actions already taken stay in the log. */
  function Step(s: CamState, c: Request, now: int): (r: CamState)
    ensures r.program == c.program && r.desiredProgram == c.program
    ensures Extends(s.actions, r.actions)
  {
    var p := AfterRead(s, c);
    if p.desiredProgram != p.program then ChangeProgram(p, now)
    else if p.status != p.desiredStatus then MatchStatus(p, now)
    else p
  }

  // ---------------------------------------------------------------------
  // Properties of one command

  /** Reading the request touches only the desired program and status and
      the three integers. */
  lemma AfterReadFields(s: CamState, c: Request)
    ensures var p := AfterRead(s, c);
      p.program == s.program && p.status == s.status &&
      p.desiredProgram == c.program && p.desiredStatus == c.status &&
      p.numBuffers0 == s.numBuffers0 && p.numBuffers1 == s.numBuffers1 && p.keepRunningCam == s.keepRunningCam &&
      p.timeStamp == s.timeStamp && p.timeStampX == s.timeStampX && p.timeStampY == s.timeStampY &&
      p.actions == s.actions
  {
  }

  /** A verb beginning with "start" and fewer than three items loads the
      defaults; exactly three keeps N and q but clears the dump flag; for
      any other verb the integers read are stored as they are. */
  lemma StartDefaults(s: CamState, c: Request)
    requires |c.ints| == (if c.count == 0 then 0 else c.count - 1)
    ensures var p := AfterRead(s, c);
      (c.status == Running && c.count < 3 ==>
         p.numIntegrations == 512 && p.qIndxStart == 0 && p.doAvgImageDump == FALSE) &&
      (c.status == Running && c.count == 3 ==>
         p.numIntegrations == c.ints[0] && p.qIndxStart == c.ints[1] && p.doAvgImageDump == FALSE) &&
      (c.status != Running ==>
         p.numIntegrations == (if c.count >= 2 then c.ints[0] else s.numIntegrations) &&
         p.qIndxStart == (if c.count >= 3 then c.ints[1] else s.qIndxStart) &&
         p.doAvgImageDump == (if c.count >= 4 then c.ints[2] else s.doAvgImageDump))
  {
  }

  /** Asking for a different program stops and closes what is loaded
      before anything else happens; asking for none ends at NONE/CLOSED,
      so an unrecognised command closes the boards. */
  lemma ChangeStopsFirst(s: CamState, c: Request, now: int)
    requires c.program != s.program && s.program != NoProgram
    ensures var r := Step(s, c, now);
      |r.actions| >= |s.actions| + 2 && r.actions[..|s.actions| + 2] == s.actions + [StopBoards, CloseBoards]
    ensures c.program == NoProgram ==>
      var r := Step(s, c, now);
      r.program == NoProgram && r.status == Closed && r.actions == s.actions + [StopBoards, CloseBoards]
  {
    AfterReadFields(s, c);
    var p := AfterRead(s, c);
    var q := BoardClose(BoardStop(p));
    assert q.actions == s.actions + [StopBoards, CloseBoards];
    if p.desiredProgram != NoProgram {
      var r := Load(q, p.desiredProgram, now);
      assert r.actions[..|s.actions| + 2] == q.actions;
    }
  }

  /** A new STREAM or AVGING program gets its buffer count, is opened, and
      runs only if "start" was asked; AVGING also lets the averaging threads run. */
  lemma NewProgram(s: CamState, c: Request, now: int)
    requires c.program != s.program && c.program != NoProgram
    ensures var r := Step(s, c, now);
      r.program == c.program &&
      r.numBuffers0 == r.numBuffers1 == (if r.program == Stream then 1984 else 1032) &&
      (r.program == Avging ==> r.keepRunningCam) &&
      (r.status == Running <==> c.status == Running) &&
      (r.status == Opened <==> c.status != Running) &&
      (c.status == Running ==> r.timeStamp == now)
  {
    AfterReadFields(s, c);
  }

  /** With the loaded program asked for again, "start" starts it and
      refreshes both buffer time stamps. */
  lemma SameProgramStart(s: CamState, c: Request, now: int)
    requires c.program == s.program && c.status == Running && s.status != Running
    ensures var r := Step(s, c, now);
      r.status == Running && r.keepRunningCam && r.timeStamp == now && r.timeStampX == now && r.timeStampY == now &&
      r.program == s.program && r.actions == s.actions + [StartBoards]
  {
    AfterReadFields(s, c);
  }

  /** "stop" stops the boards at once and ends the averaging threads;
      stream data is written out, and averaging frames only when the dump
      flag is TRUE. */
  lemma SameProgramStop(s: CamState, c: Request, now: int)
    requires c.program == s.program && c.status == Stopped && s.status != Stopped
    ensures var r, dump := Step(s, c, now), AfterRead(s, c).doAvgImageDump;
      r.status == Stopped && !r.keepRunningCam && r.program == s.program &&
      r.actions == s.actions + [StopBoards] +
        (if s.program == Stream then [WriteStream] else []) +
        (if s.program == Avging && dump == TRUE then [WriteAvgImages] else [])
  {
    AfterReadFields(s, c);
  }

  /** A gentle stop lets the averaging threads finish their average: only
      STREAM is stopped here, and the desired status becomes STOPPED. */
  lemma SameProgramGentleStop(s: CamState, c: Request, now: int)
    requires c.program == s.program && c.status == GentleStop && s.status != GentleStop
    ensures var r := Step(s, c, now);
      !r.keepRunningCam && r.desiredStatus == Stopped && r.program == s.program &&
      (s.program == Stream ==> r.status == Stopped && r.actions == s.actions + [StopBoards, WriteStream]) &&
      (s.program != Stream ==> r.status == s.status && r.actions == s.actions)
  {
    AfterReadFields(s, c);
  }

  /** When program and status already match, only the command's own
      globals (desired program and status, integers read) change. */
  lemma NothingToDo(s: CamState, c: Request, now: int)
    requires c.program == s.program && c.status == s.status
    ensures Step(s, c, now) == AfterRead(s, c)
    ensures var r := Step(s, c, now);
      r.program == s.program && r.status == s.status && r.numBuffers0 == s.numBuffers0 &&
      r.numBuffers1 == s.numBuffers1 && r.keepRunningCam == s.keepRunningCam && r.timeStamp == s.timeStamp &&
      r.timeStampX == s.timeStampX && r.timeStampY == s.timeStampY && r.actions == s.actions
  {
    AfterReadFields(s, c);
  }

  /** With nothing loaded, a command that names no program but asks to
      start still starts the boards: the status becomes RUNNING with
      program NONE (the board calls are taken to succeed). */
  lemma StartWithoutProgram(c: Request, now: int)
    requires c.program == NoProgram && c.status == Running
    ensures var r := Step(Initial(), c, now);
      r.program == NoProgram && r.status == Running && r.actions == [StartBoards]
  {
    AfterReadFields(Initial(), c);
  }

  /** The states the globals can be in between commands: GENTLESTOP is
      never a board status, a loaded program never has closed boards, and
      each program runs with its own buffer count. */
  predicate Consistent(s: CamState) {
    s.status != GentleStop &&
    (s.program != NoProgram ==> s.status != Closed) &&
    (s.program == Stream ==> s.numBuffers0 == 1984 && s.numBuffers1 == 1984) &&
    (s.program == Avging ==> s.numBuffers0 == 1032 && s.numBuffers1 == 1032)
  }

  lemma InitialConsistent()
    ensures Consistent(Initial())
  {
  }

  /** Every command keeps the globals consistent. */
  lemma StepConsistent(s: CamState, c: Request, now: int)
    requires Consistent(s)
    ensures Consistent(Step(s, c, now))
  {
    AfterReadFields(s, c);
    var p := AfterRead(s, c);
    if p.desiredProgram != p.program {
      ChangeConsistent(p, now);
    } else if p.status != p.desiredStatus {
      MatchConsistent(p, now);
    }
  }

  lemma ChangeConsistent(s: CamState, now: int)
    requires Consistent(s) && s.desiredProgram != s.program
    ensures Consistent(ChangeProgram(s, now))
  {
  }

  lemma MatchConsistent(s: CamState, now: int)
    requires Consistent(s)
    ensures Consistent(MatchStatus(s, now))
  {
  }

  // ---------------------------------------------------------------------
  // The server's globals and the command logic that updates them

  class SocketCam {
    var program: Program
    var status: Status
    var desiredProgram: Program
    var desiredStatus: Status
    var numBuffers0: int
    var numBuffers1: int
    var keepRunningCam: bool
    var numIntegrations: int
    var qIndxStart: int
    var doAvgImageDump: int
    var timeStamp: int
    var timeStampX: int
    var timeStampY: int
    var actions: seq<Action>

    function State(): CamState
      reads this
    {
      CamState(program, status, desiredProgram, desiredStatus, numBuffers0, numBuffers1, keepRunningCam,
               numIntegrations, qIndxStart, doAvgImageDump, timeStamp, timeStampX, timeStampY, actions)
    }

    constructor ()
      ensures State() == Initial()
    {
      program, status := NoProgram, Closed;
      desiredProgram, desiredStatus := NoProgram, Closed;
      numBuffers0, numBuffers1 := 10, 10;
      keepRunningCam := true;
      numIntegrations, qIndxStart, doAvgImageDump := 512, 0, FALSE;
      timeStamp, timeStampX, timeStampY := 0, 0, 0;
      actions := [];
    }

    method BrdStop()
      modifies this
      ensures State() == BoardStop(old(State()))
    {
      actions := actions + [StopBoards];
      status := Stopped;
    }

    method BrdClse()
      modifies this
      ensures State() == BoardClose(old(State()))
    {
      actions := actions + [CloseBoards];
      program := NoProgram;
      status := Closed;
    }

    method BrdStrt()
      modifies this
      ensures State() == BoardStart(old(State()))
    {
      actions := actions + [StartBoards];
      status := Running;
    }

    /** Reads one command and acts on it; now is the value time() returns. */
    method ParseLogic(cmd: string, now: int)
      modifies this
      ensures State() == Step(old(State()), ReadRequest(cmd), now)
    {
      ReadCommand(cmd);

      if desiredProgram != program {
        ChangeProgramNow(now);
      } else if status != desiredStatus {
        MatchStatusNow(now);
      }
    }

    /** The globals the command sets before any board is touched. */
    method ReadCommand(cmd: string)
      modifies this
      ensures State() == AfterRead(old(State()), ReadRequest(cmd))
    {
      desiredProgram := NoProgram;
      desiredStatus := Closed;
      if StartsWith(cmd, "stream") {
        desiredProgram := Stream;
      }
      if StartsWith(cmd, "avging") {
        desiredProgram := Avging;
      }
      var sc := Scan(cmd);
      ScanInto(sc.ints);
      ReadVerb(sc);
      assert ReadRequest(cmd) == Request(DesiredProgram(cmd), DesiredStatus(sc), sc.count, sc.ints);
    }

    /** The %d conversions store straight into the globals. */
    method ScanInto(ints: seq<int>)
      modifies this
      ensures State() == StoreInts(old(State()), ints)
    {
      if |ints| >= 1 { numIntegrations := ints[0]; }
      if |ints| >= 2 { qIndxStart := ints[1]; }
      if |ints| >= 3 { doAvgImageDump := ints[2]; }
    }

    method ReadVerb(sc: Scanned)
      requires desiredStatus == Closed
      modifies this
      ensures State() == ApplyVerb(old(State()), Request(desiredProgram, DesiredStatus(sc), sc.count, sc.ints))
    {
      if sc.count >= 1 {
        if StartsWith(sc.verb, "start") {
          desiredStatus := Running;
          if sc.count < 3 {
            numIntegrations, qIndxStart, doAvgImageDump := 512, 0, FALSE;
          }
          if sc.count == 3 {
            doAvgImageDump := FALSE;
          }
        } else {
          if StartsWith(sc.verb, "stop") {
            desiredStatus := Stopped;
          }
          if StartsWith(sc.verb, "gent") {
            desiredStatus := GentleStop;
          }
        }
      }
    }

    method ChangeProgramNow(now: int)
      requires desiredProgram != program
      modifies this
      ensures State() == ChangeProgram(old(State()), now)
    {
      if program != NoProgram {
        BrdStop();
        BrdClse();
      }
      match desiredProgram {
        case Stream => LoadStream(now);
        case Avging => LoadAvging(now);
        case NoProgram =>
      }
    }

    method LoadStream(now: int)
      modifies this
      ensures State() == Load(old(State()), Stream, now)
    {
      OpenBoardsFor(Stream);
      if desiredStatus == Running {
        StartAt(now);
      }
    }

    method LoadAvging(now: int)
      modifies this
      ensures State() == Load(old(State()), Avging, now)
    {
      OpenBoardsFor(Avging);
      if desiredStatus == Running {
        StartAt(now);
      }
    }

    /** Opening the boards for p: buffer counts, the ready message and the
        threads; AVGING also sets keep_running_cam. */
    method OpenBoardsFor(p: Program)
      requires p != NoProgram
      modifies this
      ensures State() == BoardsOpen(old(State()), p)
    {
      if p == Stream {
        numBuffers0, numBuffers1 := 1984, 1984;
        actions := actions + [OpenBoards, Signal(ReadyMessage(Stream)), CreateThreads];
      } else {
        numBuffers0, numBuffers1 := 1032, 1032;
        actions := actions + [OpenBoards, Signal(ReadyMessage(Avging))];
        keepRunningCam := true;
        actions := actions + [CreateThreads];
      }
      program, status := p, Opened;
    }

    /** The time stamp is taken, then the boards are started. */
    method StartAt(now: int)
      modifies this
      ensures State() == BoardStart(old(State()).(timeStamp := now))
    {
      timeStamp := now;
      BrdStrt();
    }

    method MatchStatusNow(now: int)
      modifies this
      ensures State() == MatchStatus(old(State()), now)
    {
      match desiredStatus {
        case Running =>
          keepRunningCam := true;
          timeStamp := now;
          BrdStrt();
          timeStampX, timeStampY := timeStamp, timeStamp;
        case Stopped =>
          BrdStop();
          keepRunningCam := false;
          if program == Stream {
            actions := actions + [WriteStream];
          }
          if program == Avging && doAvgImageDump == TRUE {
            actions := actions + [WriteAvgImages];
          }
        case GentleStop =>
          keepRunningCam := false;
          desiredStatus := Stopped;
          if program == Stream {
            BrdStop();
            actions := actions + [WriteStream];
          }
        case _ =>
      }
    }
  }
}
