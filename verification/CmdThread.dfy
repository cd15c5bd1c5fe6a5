/**
 * The command thread and its submitters (rtw_cmd.c) as a step relation.
 * One step is one lock-protected region or one access to shared memory; any number of commands may be submitted.
 */
module CmdThread {
  import opened Bytes
  import opened Options

  /** Where the submitter of a command stands. */
  datatype Sub = Fresh | Passed | Inserted | Waiting | Woken | InMutex | Leaving | Returned | Rejected
  {
    /** The command went into the queue. */
    predicate Posted() {
      Inserted? || Waiting? || Woken? || InMutex? || Leaving? || Returned?
    }

    /** The submitter may still withdraw its completion record. */
    predicate Early() {
      Fresh? || Passed? || Inserted? || Waiting? || Woken? || InMutex?
    }

    /** The submitter's stack frame, which holds the completion record, is gone. */
    predicate Over() {
      Returned? || Rejected?
    }
  }

  /** A command object, its payload, and the completion record (`sctx`) on its submitter's stack. */
  datatype Cmd = Cmd(
    sub: Sub,
    waits: bool,        // submitted with RTW_CMDF_WAIT_ACK
    sctx: bool,         // cmd_obj->sctx is not NULL
    submitted: bool,    // sctx.status is RTW_SCTX_SUBMITTED
    live: bool,         // the cmd_obj is allocated
    extra: bool,        // _Set_Drv_Extra with a payload of non-zero size
    payload: bool,      // that payload is allocated
    chPlan: bool,       // cmdcode is _SetChannelPlan
    noIo: bool,         // cmd_obj->no_io
    big: bool,          // cmdsz > MAX_CMDSZ
    handler: bool,      // the cmdcode has a handler
    keeps: bool         // its callback frees the object on success only
  )

  /** A command object as its submitter hands it to `rtw_enqueue_cmd`. */
  predicate New(c: Cmd) {
    c.sub == Fresh && c.sctx == c.waits && c.submitted && c.live && c.payload == c.extra && (c.extra ==> c.handler && !c.chPlan)
  }

  /** The handler's verdict, and whether the thread is draining the queue on its way out. */
  datatype Verdict = Verdict(ok: bool, drain: bool)

  /** What the thread is about to do with the command it holds. */
  datatype Work =
    | Dispatch | Execute | Drop
    | Post(v: Verdict) | Locked(v: Verdict) | Wrote(v: Verdict) | Completed(v: Verdict) | Cleared(v: Verdict)
    | Finish(v: Verdict)
  {
    /** The payload has been dealt with. */
    predicate Served() {
      !Dispatch? && !Execute? && !Drop?
    }

    predicate InSection() {
      Locked? || Wrote? || Completed? || Cleared?
    }

    predicate Draining() {
      Drop? || (Served() && v.drain)
    }
  }

  datatype Pc = Start | Down | Check | Peek | Next | Take | Stopping | Drain | Dead | Busy(c: nat, work: Work)
  {
    predicate Has(i: nat) {
      Busy? && c == i
    }

    /** The command the thread holds between taking it off the queue and letting go of it. */
    function Holds(): seq<nat> {
      if Busy? then [c] else []
    }

    predicate InSection() {
      Busy? && work.InSection()
    }

    predicate Stopped() {
      Drain? || Dead? || (Busy? && work.Draining())
    }
  }

  datatype Owner = Nobody | Thread | Submitter(i: nat)

  datatype State = State(
    cmds: seq<Cmd>,
    queue: seq<nat>,
    sema: nat,          // cmd_queue_sema
    running: bool,      // cmdthd_running
    cannotRun: bool,    // RTW_CANNOT_RUN
    hwUp: bool,         // hw_init_completed
    lclk: bool,         // built with CONFIG_LPS_LCLK
    mutex: Owner,       // sctx_mutex
    pc: Pc,
    inserted: seq<nat>, // history: commands in the order they were put on the queue
    handled: seq<nat>,  // history: commands in the order the thread let go of them
    late: set<nat>      // history: commands between filter and insert when the thread cleared cmdthd_running
  )

  /** What the environment decides for a step of the thread. */
  datatype Choice = Plain | Interrupted | Requeue | Result(ok: bool)

  /** `Raise` is an up of the semaphore from elsewhere: the stopping driver, or power save leaving its sleep state. */
  datatype Action =
    | Submit(c: Cmd)
    | Filter(i: nat) | Insert(i: nat) | Up(i: nat) | Wake(i: nat) | Enter(i: nat) | Withdraw(i: nat) | Leave(i: nat)
    | Raise | SetHw(up: bool) | SetCannotRun
    | Run(choice: Choice)

  predicate Init(s: State) {
    s.cmds == [] && s.queue == [] && s.sema == 0 && !s.running && s.mutex == Nobody && s.pc == Start
    && s.inserted == [] && s.handled == [] && s.late == {}
  }

  /** `rtw_cmd_filter`. */
  predicate Allowed(s: State, c: Cmd) {
    (s.hwUp || c.chPlan || c.noIo) && s.running
  }

  function Put(s: State, i: nat, c: Cmd): State
    requires i < |s.cmds|
  {
    s.(cmds := s.cmds[i := c])
  }

  /** The submitter of `i` is at `at`. */
  predicate SubAt(s: State, i: nat, at: Sub) {
    i < |s.cmds| && s.cmds[i].sub == at
  }

  predicate Enabled(s: State, a: Action) {
    match a
    case Submit(c) => New(c)
    case Filter(i) => SubAt(s, i, Fresh)
    case Insert(i) => SubAt(s, i, Passed)
    case Up(i) => SubAt(s, i, Inserted)
    case Wake(i) => SubAt(s, i, Waiting)
    case Enter(i) => SubAt(s, i, Woken) && s.mutex == Nobody
    case Withdraw(i) => SubAt(s, i, InMutex)
    case Leave(i) => SubAt(s, i, Leaving)
    case Raise => true
    case SetHw(_) => true
    case SetCannotRun => true
    case Run(ch) => CanRun(s, ch)
  }

  predicate CanRun(s: State, ch: Choice) {
    match s.pc
    case Dead => false
    case Down => ch == Interrupted || (ch == Plain && s.sema > 0)
    case Take => ch == Plain && (forall i :: i in s.queue ==> i < |s.cmds|)
    case Drain => ch == Plain && (forall i :: i in s.queue ==> i < |s.cmds|)
    case Busy(i, work) =>
      i < |s.cmds| &&
      (match work
       case Execute => ch.Result? || (ch == Requeue && s.lclk && !s.cmds[i].noIo)
       case Post(_) => ch == Plain && s.mutex == Nobody
       case _ => ch == Plain)
    case _ => ch == Plain
  }

  /** The filter turns the command away. */
  predicate Rejects(c: Cmd, a: Action, allowed: bool) {
    a.Filter? && (!allowed || c.big)
  }

  /** Where the submitter stands after its step. */
  function NextSub(c: Cmd, a: Action, allowed: bool): Sub
    requires IsSub(a)
  {
    match a
    case Filter(_) => if Rejects(c, a, allowed) then Rejected else Passed
    case Insert(_) => Inserted
    case Up(_) => if c.waits then Waiting else Returned
    case Wake(_) => Woken
    case Enter(_) => InMutex
    case Withdraw(_) => Leaving
    case Leave(_) => Returned
  }

  /** What a submitter does to its command: filter or reject, insert, wait, and withdraw a record never completed. */
  function SubCmd(c: Cmd, a: Action, allowed: bool): Cmd
    requires IsSub(a)
  {
    c.(sub := NextSub(c, a, allowed),
       payload := c.payload && !Rejects(c, a, allowed),
       live := c.live && !Rejects(c, a, allowed),
       sctx := c.sctx && !(a.Withdraw? && c.submitted))
  }

  /** One step of a submitter of command `i`: `rtw_enqueue_cmd`, then the wait in `rtw_createbss_cmd`. */
  function SubStep(s: State, a: Action): State
    requires Enabled(s, a) && IsSub(a)
  {
    Put(s, a.i, SubCmd(s.cmds[a.i], a, Allowed(s, s.cmds[a.i])))
      .(queue := if a.Insert? then s.queue + [a.i] else s.queue,
        inserted := if a.Insert? then s.inserted + [a.i] else s.inserted,
        sema := if a.Up? then s.sema + 1 else s.sema,
        mutex := if a.Enter? then Submitter(a.i) else if a.Leave? then Nobody else s.mutex)
  }

  /** The commands whose submitter is between filter and insert. */
  function Between(cmds: seq<Cmd>): set<nat> {
    set i: nat | i < |cmds| && cmds[i].sub == Passed
  }

  /** The thread takes the head of the queue. */
  predicate Takes(s: State) {
    (s.pc.Take? || s.pc.Drain?) && s.queue != []
  }

  function FetchPc(s: State, ch: Choice): Pc
    requires CanRun(s, ch) && !s.pc.Busy?
  {
    match s.pc
    case Start => Down
    case Down => if ch == Interrupted then Stopping else Check
    case Check => if s.cannotRun then Stopping else Peek
    case Peek => if s.queue == [] then Down else Next
    case Next => if s.cannotRun then Stopping else Take
    case Take => if s.queue == [] then Down else Busy(s.queue[0], Dispatch)
    case Stopping => Drain
    case Drain => if s.queue == [] then Dead else Busy(s.queue[0], Drop)
  }

  /** Steps of the thread that hold no command: waiting, looking at the queue, taking from it, stopping. */
  function Fetch(s: State, ch: Choice): State
    requires CanRun(s, ch) && !s.pc.Busy?
  {
    s.(pc := FetchPc(s, ch),
       queue := if Takes(s) then s.queue[1..] else s.queue,
       sema := if s.pc.Down? && ch != Interrupted then s.sema - 1 else s.sema,
       running := s.pc.Start? || (s.running && !s.pc.Stopping?),
       late := if s.pc.Stopping? then Between(s.cmds) else s.late)
  }

  /** The dispatch tests on a command find a fault in it. */
  predicate Faulty(c: Cmd) {
    c.big || !c.handler
  }

  /** What serving does to the command: a dropped or executed one has its payload freed. */
  function ServedCmd(c: Cmd, work: Work, allowed: bool): Cmd {
    if work.Dispatch? && (Faulty(c) || allowed) then c else c.(payload := false)
  }

  /** What the thread does next with a command it has served. */
  function ServedWork(c: Cmd, work: Work, allowed: bool, ch: Choice): Work {
    match work
    case Dispatch => if !Faulty(c) && allowed then Execute else Post(Verdict(false, false))
    case Execute => Post(Verdict(ch == Result(true), false))
    case _ => Post(Verdict(false, true))
  }

  /** Steps that serve the command: test and drop it, put it back, run its handler, or drop it while draining. */
  function Serve(s: State, ch: Choice): State
    requires CanRun(s, ch) && s.pc.Busy? && !s.pc.work.Served()
  {
    if ch == Requeue then s.(queue := [s.pc.c] + s.queue, pc := Down)
    else
      Put(s, s.pc.c, ServedCmd(s.cmds[s.pc.c], s.pc.work, Allowed(s, s.cmds[s.pc.c])))
        .(pc := Busy(s.pc.c, ServedWork(s.cmds[s.pc.c], s.pc.work, Allowed(s, s.cmds[s.pc.c]), ch)))
  }

  /** What settling does to the command: final status, then the pointer to the record, in the end the object. */
  function SettledCmd(c: Cmd, work: Work): Cmd
    requires work.Served()
  {
    match work
    case Locked(_) => c.(submitted := c.submitted && !c.sctx)
    case Completed(_) => c.(sctx := false)
    case Finish(v) => c.(live := c.keeps && !v.ok && !v.drain)
    case _ => c
  }

  function SettledWork(c: Cmd, work: Work): Work
    requires work.Served() && !work.Finish?
  {
    match work
    case Post(v) => Locked(v)
    case Locked(v) => if c.sctx then Wrote(v) else Cleared(v)
    case Wrote(v) => Completed(v)
    case Completed(v) => Cleared(v)
    case Cleared(v) => Finish(v)
  }

  /** Steps that settle the command: complete its record under the mutex, then hand the object to its callback. */
  function Settle(s: State): State
    requires CanRun(s, Plain) && s.pc.Busy? && s.pc.work.Served()
  {
    if s.pc.work.Finish? then
      Put(s, s.pc.c, SettledCmd(s.cmds[s.pc.c], s.pc.work))
        .(handled := s.handled + [s.pc.c], pc := if s.pc.work.v.drain then Drain else Next)
    else
      Put(s, s.pc.c, SettledCmd(s.cmds[s.pc.c], s.pc.work))
        .(mutex := if s.pc.work.Post? then Thread else if s.pc.work.Cleared? then Nobody else s.mutex,
          pc := Busy(s.pc.c, SettledWork(s.cmds[s.pc.c], s.pc.work)))
  }

  /** One step of the thread: `rtw_cmd_thread`. */
  function ThreadStep(s: State, ch: Choice): State
    requires CanRun(s, ch)
  {
    if !s.pc.Busy? then Fetch(s, ch) else if s.pc.work.Served() then Settle(s) else Serve(s, ch)
  }

  function Step(s: State, a: Action): State
    requires Enabled(s, a)
  {
    match a
    case Submit(c) => s.(cmds := s.cmds + [c])
    case Raise => s.(sema := s.sema + 1)
    case SetHw(up) => s.(hwUp := up)
    case SetCannotRun => s.(cannotRun := true)
    case Run(ch) => ThreadStep(s, ch)
    case _ => SubStep(s, a)
  }

  /** Memory of others that a step reads, writes or frees. */
  datatype Loc = Sctx(i: nat) | Object(i: nat) | Payload(i: nat)

  /** What the thread touches besides the object it holds. */
  function WorkAccesses(c: Cmd, i: nat, work: Work, ch: Choice, allowed: bool): set<Loc> {
    match work
    case Dispatch => if !c.big && c.handler && !allowed && c.extra then {Payload(i)} else {}
    case Execute => if ch.Result? && c.extra then {Payload(i)} else {}
    case Drop => if c.extra then {Payload(i)} else {}
    case Locked(_) => if c.sctx then {Sctx(i)} else {}
    case Wrote(_) => {Sctx(i)}
    case _ => {}
  }

  /** What a step reads, writes or frees for the sake of its own command, or of the one it takes. */
  function Touched(s: State, a: Action): set<Loc>
    requires Enabled(s, a)
  {
    match a
    case Filter(i) =>
      {Object(i)} + if (!Allowed(s, s.cmds[i]) || s.cmds[i].big) && s.cmds[i].extra then {Payload(i)} else {}
    case Insert(i) => {Object(i)}
    case Withdraw(i) => if s.cmds[i].submitted then {Object(i)} else {}
    case Run(ch) =>
      (match s.pc
       case Take => set i | i in s.queue :: Object(i)
       case Drain => set i | i in s.queue :: Object(i)
       case Busy(i, work) => {Object(i)} + WorkAccesses(s.cmds[i], i, work, ch, Allowed(s, s.cmds[i]))
       case _ => {})
    case _ => {}
  }

  /** The queued command whose list node is written when one is put beside it, at the tail or at the head. */
  function Neighbour(s: State, a: Action): set<Loc> {
    if s.queue == [] then {}
    else if a.Insert? then {Object(s.queue[|s.queue| - 1])}
    else if a == Run(Requeue) then {Object(s.queue[0])}
    else {}
  }

  function Accesses(s: State, a: Action): set<Loc>
    requires Enabled(s, a)
  {
    Touched(s, a) + Neighbour(s, a)
  }

  predicate Alive(s: State, l: Loc) {
    l.i < |s.cmds| &&
    match l
    case Sctx(i) => s.cmds[i].waits && !s.cmds[i].sub.Over()
    case Object(i) => s.cmds[i].live
    case Payload(i) => s.cmds[i].payload
  }

  // ----- The invariant -----

  /** Where a command is, as far as the thread and the queue are concerned. */
  datatype Spot = Own | Queued | AtThread(work: Work) | Gone

  function SpotOf(s: State, i: nat): Spot {
    if s.pc.Has(i) then AtThread(s.pc.work)
    else if i in s.queue then Queued
    else if i in s.handled then Gone
    else Own
  }

  /** What is known about one command, given where it is and whether its submitter owns the mutex. */
  predicate CmdOk(c: Cmd, spot: Spot, owns: bool) {
    && (owns <==> c.sub.InMutex? || c.sub.Leaving?)
    && (c.sub.Leaving? ==> !c.sctx)
    && (c.sub.Waiting? || c.sub.Woken? || c.sub.InMutex? || c.sub.Leaving? ==> c.waits)
    && (c.extra ==> c.handler)
    && match spot
       case Own =>
         && (c.sub == Fresh || c.sub == Rejected || (c.sub == Passed && !c.big))
         && (if c.sub == Rejected then !c.live && !c.payload else c.live && c.payload == c.extra && Pending(c))
       case Queued => c.sub.Posted() && !c.big && c.live && c.payload == c.extra && Pending(c)
       case AtThread(work) =>
         && c.sub.Posted() && !c.big && c.live
         && c.payload == (c.extra && !work.Served())
         && (match work
             case Locked(_) => Pending(c) && !owns
             case Wrote(_) => c.waits && c.sctx && !c.submitted && !owns && !c.sub.Over()
             case Completed(_) => c.waits && c.sctx && !c.submitted && !owns
             case Cleared(_) => Settled(c) && !owns
             case Finish(_) => Settled(c)
             case _ => Pending(c))
       case Gone => c.sub.Posted() && !c.big && !c.payload && Settled(c) && (c.live ==> c.keeps)
  }

  /** The thread has not touched the completion record; the object points at it as long as the submitter waits. */
  predicate Pending(c: Cmd) {
    c.submitted && (c.sctx <==> c.waits && c.sub.Early())
  }

  /** The object no longer points at the record, and a submitter that still looks will see a final status. */
  predicate Settled(c: Cmd) {
    !c.sctx && (c.waits && c.sub.Early() ==> !c.submitted)
  }

  predicate NoDup(q: seq<nat>) {
    forall i, j :: 0 <= i < j < |q| ==> q[i] != q[j]
  }

  /** What was inserted was inserted once, by a submitter that passed the filter. */
  predicate Listed(cmds: seq<Cmd>, inserted: seq<nat>) {
    NoDup(inserted) && forall i :: i in inserted ==> i < |cmds| && cmds[i].sub.Posted()
  }

  /** The thread lets commands go in the order in which they were inserted, and each command is in one place. */
  predicate InOrder(s: State) {
    s.inserted == s.handled + s.pc.Holds() + s.queue && Listed(s.cmds, s.inserted)
  }

  predicate Owned(s: State) {
    && (s.pc.InSection() <==> s.mutex == Thread)
    && (s.mutex.Submitter? ==> s.mutex.i < |s.cmds|)
  }

  predicate Halted(s: State) {
    && (s.pc.Stopped() ==> !s.running && Between(s.cmds) <= s.late)
    && (s.pc.Dead? ==> forall i :: i in s.queue ==> i in s.late)
    && (s.pc.Stopped() ==> forall i :: i in s.late ==> i < |s.cmds|)
  }

  predicate OkAt(s: State, i: nat)
    requires i < |s.cmds|
  {
    CmdOk(s.cmds[i], SpotOf(s, i), s.mutex == Submitter(i))
  }

  predicate CmdsOk(s: State) {
    forall i :: 0 <= i < |s.cmds| ==> OkAt(s, i)
  }

  predicate Inv(s: State) {
    InOrder(s) && Owned(s) && CmdsOk(s) && Halted(s)
  }

  predicate IsSub(a: Action) {
    !a.Run? && !a.Submit? && !a.Raise? && !a.SetHw? && !a.SetCannotRun?
  }

  lemma OwnedSub(s: State, a: Action)
    requires Owned(s) && Enabled(s, a) && IsSub(a)
    requires s.mutex == Submitter(a.i) <==> s.cmds[a.i].sub.InMutex? || s.cmds[a.i].sub.Leaving?
    ensures Owned(SubStep(s, a))
  {
  }

  lemma OwnedFetch(s: State, ch: Choice)
    requires CanRun(s, ch) && !s.pc.Busy? && Owned(s)
    ensures Owned(Fetch(s, ch))
  {
    hide Between;
  }

  lemma OwnedServe(s: State, ch: Choice)
    requires CanRun(s, ch) && s.pc.Busy? && !s.pc.work.Served() && Owned(s)
    ensures Owned(Serve(s, ch))
  {
    hide Allowed, ServedCmd;
  }

  lemma OwnedSettle(s: State)
    requires CanRun(s, Plain) && s.pc.Busy? && s.pc.work.Served() && Owned(s)
    ensures Owned(Settle(s))
  {
    hide SettledCmd;
  }

  /** A step that changes neither the list of what was inserted nor a submitter keeps the list valid. */
  lemma ListedPut(cmds: seq<Cmd>, inserted: seq<nat>, i: nat, c: Cmd)
    requires i < |cmds| && Listed(cmds, inserted) && (cmds[i].sub.Posted() ==> c.sub.Posted())
    ensures Listed(cmds[i := c], inserted)
  {
  }

  lemma ListedInsert(cmds: seq<Cmd>, inserted: seq<nat>, i: nat, c: Cmd)
    requires i < |cmds| && Listed(cmds, inserted) && !cmds[i].sub.Posted() && c.sub.Posted()
    ensures Listed(cmds[i := c], inserted + [i])
  {
  }

  lemma InOrderSub(s: State, a: Action)
    requires InOrder(s) && Enabled(s, a) && IsSub(a)
    ensures InOrder(SubStep(s, a))
  {
    hide Allowed, Listed;
    var c := SubStep(s, a).cmds[a.i];
    if a.Insert? {
      ListedInsert(s.cmds, s.inserted, a.i, c);
      Assoc(s.handled + s.pc.Holds(), s.queue, [a.i]);
    } else {
      ListedPut(s.cmds, s.inserted, a.i, c);
    }
  }

  lemma InOrderFetch(s: State, ch: Choice)
    requires CanRun(s, ch) && !s.pc.Busy? && InOrder(s)
    ensures InOrder(Fetch(s, ch))
  {
    hide Listed, Between;
    if s.queue != [] {
      Uncons(s.queue);
      Assoc(s.handled, [s.queue[0]], s.queue[1..]);
    }
    assert s.handled + [] == s.handled;
  }

  lemma InOrderServe(s: State, ch: Choice)
    requires CanRun(s, ch) && s.pc.Busy? && !s.pc.work.Served() && InOrder(s)
    ensures InOrder(Serve(s, ch))
  {
    hide Listed, Allowed, ServedWork;
    var i := s.pc.c;
    ListedPut(s.cmds, s.inserted, i, ServedCmd(s.cmds[i], s.pc.work, Allowed(s, s.cmds[i])));
    Assoc(s.handled, [i], s.queue);
    assert s.handled + [] == s.handled;
  }

  lemma InOrderSettle(s: State)
    requires CanRun(s, Plain) && s.pc.Busy? && s.pc.work.Served() && InOrder(s)
    ensures InOrder(Settle(s))
  {
    hide Listed, SettledWork, SettledCmd;
    var i := s.pc.c;
    SameSub(s.cmds[i], s.pc.work);
    ListedPut(s.cmds, s.inserted, i, SettledCmd(s.cmds[i], s.pc.work));
    if s.pc.work.Finish? {
      assert s.handled + [i] + [] == s.handled + [i];
    }
  }

  lemma HaltedSub(s: State, a: Action)
    requires Halted(s) && Enabled(s, a) && IsSub(a)
    ensures Halted(SubStep(s, a))
  {
  }

  lemma HaltedFetch(s: State, ch: Choice)
    requires CanRun(s, ch) && !s.pc.Busy? && Halted(s)
    ensures Halted(Fetch(s, ch))
  {
  }

  /** A step of the thread on its command leaves the submitters where they are. */
  lemma BetweenPut(cmds: seq<Cmd>, i: nat, c: Cmd)
    requires i < |cmds| && c.sub == cmds[i].sub
    ensures Between(cmds[i := c]) == Between(cmds)
  {
  }

  lemma HaltedServe(s: State, ch: Choice)
    requires CanRun(s, ch) && s.pc.Busy? && !s.pc.work.Served() && Halted(s)
    ensures Halted(Serve(s, ch))
  {
    hide Allowed, Between;
    var i := s.pc.c;
    BetweenPut(s.cmds, i, ServedCmd(s.cmds[i], s.pc.work, Allowed(s, s.cmds[i])));
  }

  /** Settling goes on with the same verdict. */
  lemma SameVerdict(c: Cmd, work: Work)
    requires work.Served() && !work.Finish?
    ensures SettledWork(c, work).Served() && SettledWork(c, work).v == work.v
  {
  }

  lemma HaltedSettle(s: State)
    requires CanRun(s, Plain) && s.pc.Busy? && s.pc.work.Served() && Halted(s)
    ensures Halted(Settle(s))
  {
    hide Between, SettledCmd, SettledWork;
    var i, work := s.pc.c, s.pc.work;
    SameSub(s.cmds[i], work);
    BetweenPut(s.cmds, i, SettledCmd(s.cmds[i], work));
    if !work.Finish? {
      SameVerdict(s.cmds[i], work);
    }
  }

  // ----- What a step does to one command -----

  /** A command the step leaves alone stays as it was. */
  lemma OkKept(s: State, n: State, j: nat)
    requires j < |s.cmds| == |n.cmds| && OkAt(s, j) && n.cmds[j] == s.cmds[j]
    requires !s.pc.Has(j) && !n.pc.Has(j)
    requires (j in n.queue <==> j in s.queue) && (j in n.handled <==> j in s.handled)
    requires n.mutex == Submitter(j) <==> s.mutex == Submitter(j)
    ensures OkAt(n, j)
  {
    hide CmdOk;
  }

  lemma OthersSub(s: State, a: Action, j: nat)
    requires Enabled(s, a) && IsSub(a) && j < |s.cmds| && j != a.i && (a.Leave? ==> s.mutex == Submitter(a.i))
    requires OkAt(s, j)
    ensures OkAt(SubStep(s, a), j)
  {
    hide Allowed, CmdOk;
  }

  /** A command not yet inserted is nowhere. */
  lemma NotInserted(s: State, i: nat)
    requires InOrder(s) && i < |s.cmds| && !s.cmds[i].sub.Posted()
    ensures SpotOf(s, i) == Own && i !in s.queue && i !in s.handled && !s.pc.Has(i)
  {
    assert i in s.handled + s.pc.Holds() + s.queue ==> i in s.inserted;
  }

  /** The submitter's part in the life of its command, before and after it is in the queue. */
  lemma Filtering(c: Cmd, spot: Spot, i: nat, allowed: bool, owns: bool)
    requires c.sub.Fresh? && CmdOk(c, spot, owns)
    ensures CmdOk(SubCmd(c, Filter(i), allowed), spot, owns)
  {
  }

  lemma Inserting(c: Cmd, spot: Spot, i: nat, allowed: bool, owns: bool)
    requires c.sub.Passed? && CmdOk(c, spot, owns)
    ensures CmdOk(SubCmd(c, Insert(i), allowed), Queued, owns)
  {
  }

  lemma Posting(c: Cmd, spot: Spot, i: nat, allowed: bool, owns: bool)
    requires c.sub.Inserted? && CmdOk(c, spot, owns)
    ensures CmdOk(SubCmd(c, Up(i), allowed), spot, owns)
  {
  }

  lemma Waking(c: Cmd, spot: Spot, i: nat, allowed: bool, owns: bool)
    requires c.sub.Waiting? && CmdOk(c, spot, owns)
    ensures CmdOk(SubCmd(c, Wake(i), allowed), spot, owns)
  {
  }

  lemma Entering(c: Cmd, spot: Spot, i: nat, allowed: bool, owns: bool)
    requires c.sub.Woken? && CmdOk(c, spot, owns) && !owns && (spot.AtThread? ==> !spot.work.InSection())
    ensures CmdOk(SubCmd(c, Enter(i), allowed), spot, true)
  {
  }

  lemma Withdrawing(c: Cmd, spot: Spot, i: nat, allowed: bool, owns: bool)
    requires c.sub.InMutex? && CmdOk(c, spot, owns)
    ensures CmdOk(SubCmd(c, Withdraw(i), allowed), spot, owns)
  {
  }

  lemma Returning(c: Cmd, spot: Spot, i: nat, allowed: bool, owns: bool)
    requires c.sub.Leaving? && CmdOk(c, spot, owns)
    ensures CmdOk(SubCmd(c, Leave(i), allowed), spot, false)
  {
  }

  /** The command is where the submitter's action expects it. */
  predicate Ready(c: Cmd, a: Action) {
    match a
    case Filter(_) => c.sub.Fresh?
    case Insert(_) => c.sub.Passed?
    case Up(_) => c.sub.Inserted?
    case Wake(_) => c.sub.Waiting?
    case Enter(_) => c.sub.Woken?
    case Withdraw(_) => c.sub.InMutex?
    case Leave(_) => c.sub.Leaving?
    case _ => false
  }

  lemma SubOk(c: Cmd, spot: Spot, a: Action, allowed: bool, owns: bool)
    requires IsSub(a) && Ready(c, a) && CmdOk(c, spot, owns)
    requires a.Enter? ==> !owns && (spot.AtThread? ==> !spot.work.InSection())
    ensures CmdOk(SubCmd(c, a, allowed), if a.Insert? then Queued else spot, if a.Enter? then true else if a.Leave? then false else owns)
  {
    hide CmdOk, SubCmd;
    match a {
      case Filter(i) => Filtering(c, spot, i, allowed, owns);
      case Insert(i) => Inserting(c, spot, i, allowed, owns);
      case Up(i) => Posting(c, spot, i, allowed, owns);
      case Wake(i) => Waking(c, spot, i, allowed, owns);
      case Enter(i) => Entering(c, spot, i, allowed, owns);
      case Withdraw(i) => Withdrawing(c, spot, i, allowed, owns);
      case Leave(i) => Returning(c, spot, i, allowed, owns);
    }
  }

  lemma SelfSub(s: State, a: Action)
    requires Enabled(s, a) && IsSub(a) && InOrder(s) && Owned(s) && OkAt(s, a.i)
    ensures OkAt(SubStep(s, a), a.i)
  {
    if a.Insert? {
      NotInserted(s, a.i);
    }
    assert Ready(s.cmds[a.i], a);
    hide Allowed, InOrder, CmdOk, SubCmd;
    SubOk(s.cmds[a.i], SpotOf(s, a.i), a, Allowed(s, s.cmds[a.i]), s.mutex == Submitter(a.i));
  }

  lemma OthersFetch(s: State, ch: Choice, j: nat)
    requires CanRun(s, ch) && !s.pc.Busy? && j < |s.cmds| && OkAt(s, j)
    requires Takes(s) ==> j != s.queue[0]
    ensures OkAt(Fetch(s, ch), j)
  {
    hide OkAt, Between;
    if s.queue != [] {
      Uncons(s.queue);
    }
    OkKept(s, Fetch(s, ch), j);
  }

  lemma SelfFetch(s: State, ch: Choice)
    requires CanRun(s, ch) && Takes(s) && s.queue[0] < |s.cmds| && OkAt(s, s.queue[0])
    ensures OkAt(Fetch(s, ch), s.queue[0])
  {
  }

  lemma OthersServe(s: State, ch: Choice, j: nat)
    requires CanRun(s, ch) && s.pc.Busy? && !s.pc.work.Served() && j < |s.cmds| && j != s.pc.c && OkAt(s, j)
    ensures OkAt(Serve(s, ch), j)
  {
    hide Allowed, OkAt, ServedCmd, ServedWork;
    OkKept(s, Serve(s, ch), j);
  }

  /** The thread's part before the mutex: serving frees the payload, once. */
  lemma Serving(c: Cmd, work: Work, allowed: bool, ch: Choice, owns: bool)
    requires !work.Served() && CmdOk(c, AtThread(work), owns)
    ensures CmdOk(ServedCmd(c, work, allowed), AtThread(ServedWork(c, work, allowed, ch)), owns)
  {
    var n := ServedWork(c, work, allowed, ch);
    assert n.Execute? || n.Post?;
    assert n.Execute? ==> ServedCmd(c, work, allowed) == c;
    assert n.Post? ==> ServedCmd(c, work, allowed) == c.(payload := false);
  }

  /** Put back, the command is as it was in the queue. */
  lemma PutBack(c: Cmd, work: Work, owns: bool)
    requires !work.Served() && CmdOk(c, AtThread(work), owns)
    ensures CmdOk(c, Queued, owns)
  {
  }

  lemma SelfServe(s: State, ch: Choice)
    requires CanRun(s, ch) && s.pc.Busy? && !s.pc.work.Served() && OkAt(s, s.pc.c)
    ensures OkAt(Serve(s, ch), s.pc.c)
  {
    hide Allowed, CmdOk, ServedCmd, ServedWork;
    PutBack(s.cmds[s.pc.c], s.pc.work, s.mutex == Submitter(s.pc.c));
    Serving(s.cmds[s.pc.c], s.pc.work, Allowed(s, s.cmds[s.pc.c]), ch, s.mutex == Submitter(s.pc.c));
  }

  lemma OthersSettle(s: State, j: nat)
    requires CanRun(s, Plain) && s.pc.Busy? && s.pc.work.Served() && j < |s.cmds| && j != s.pc.c && Owned(s) && OkAt(s, j)
    ensures OkAt(Settle(s), j)
  {
    hide OkAt, SettledCmd, SettledWork;
    OkKept(s, Settle(s), j);
  }

  /** The command the thread holds is not in the queue. */
  lemma HeldOnce(s: State)
    requires InOrder(s) && s.pc.Busy?
    ensures s.pc.c !in s.queue
  {
    var k, x := |s.handled|, s.handled + s.pc.Holds() + s.queue;
    assert x[k] == s.pc.c;
    forall i | 0 <= i < |s.queue| ensures s.queue[i] != s.pc.c {
      assert x[k + 1 + i] == s.queue[i];
    }
  }

  /** The thread's part under the mutex and behind it. */
  lemma Settling(c: Cmd, work: Work, owns: bool)
    requires work.Served() && CmdOk(c, AtThread(work), owns) && (work.Post? ==> !owns)
    ensures work.Finish? ==> CmdOk(SettledCmd(c, work), Gone, owns)
    ensures !work.Finish? ==> !owns && CmdOk(SettledCmd(c, work), AtThread(SettledWork(c, work)), false)
  {
  }

  lemma SelfSettle(s: State)
    requires CanRun(s, Plain) && s.pc.Busy? && s.pc.work.Served() && InOrder(s) && OkAt(s, s.pc.c)
    ensures OkAt(Settle(s), s.pc.c)
  {
    HeldOnce(s);
    Settling(s.cmds[s.pc.c], s.pc.work, s.mutex == Submitter(s.pc.c));
    hide InOrder, CmdOk, SettledCmd, SettledWork;
  }

  // ----- Every step keeps the invariant -----

  lemma KeepsSub(s: State, a: Action)
    requires Inv(s) && Enabled(s, a) && IsSub(a)
    ensures Inv(SubStep(s, a))
  {
    var n := SubStep(s, a);
    assert OkAt(s, a.i);
    assert a.Leave? ==> s.mutex == Submitter(a.i);
    OwnedSub(s, a);
    hide Owned, InOrder, Halted, OkAt, Allowed;
    InOrderSub(s, a);
    HaltedSub(s, a);
    SelfSub(s, a);
    forall j | 0 <= j < |n.cmds| ensures OkAt(n, j) {
      if j != a.i {
        OthersSub(s, a, j);
      }
    }
  }

  lemma KeepsFetch(s: State, ch: Choice)
    requires Inv(s) && CanRun(s, ch) && !s.pc.Busy?
    ensures Inv(Fetch(s, ch))
  {
    hide Owned, InOrder, Halted, OkAt, Between;
    var n := Fetch(s, ch);
    OwnedFetch(s, ch);
    InOrderFetch(s, ch);
    HaltedFetch(s, ch);
    forall j | 0 <= j < |n.cmds| ensures OkAt(n, j) {
      if Takes(s) && j == s.queue[0] {
        SelfFetch(s, ch);
      } else {
        OthersFetch(s, ch, j);
      }
    }
  }

  lemma KeepsServe(s: State, ch: Choice)
    requires Inv(s) && CanRun(s, ch) && s.pc.Busy? && !s.pc.work.Served()
    ensures Inv(Serve(s, ch))
  {
    hide Owned, InOrder, Halted, OkAt, Allowed, ServedCmd, ServedWork;
    var n := Serve(s, ch);
    OwnedServe(s, ch);
    InOrderServe(s, ch);
    HaltedServe(s, ch);
    forall j | 0 <= j < |n.cmds| ensures OkAt(n, j) {
      if j == s.pc.c {
        SelfServe(s, ch);
      } else {
        OthersServe(s, ch, j);
      }
    }
  }

  lemma KeepsSettle(s: State)
    requires Inv(s) && CanRun(s, Plain) && s.pc.Busy? && s.pc.work.Served()
    ensures Inv(Settle(s))
  {
    hide Owned, InOrder, Halted, OkAt, SettledCmd, SettledWork;
    var n := Settle(s);
    OwnedSettle(s);
    InOrderSettle(s);
    HaltedSettle(s);
    forall j | 0 <= j < |n.cmds| ensures OkAt(n, j) {
      if j == s.pc.c {
        SelfSettle(s);
      } else {
        OthersSettle(s, j);
      }
    }
  }

  lemma KeepsSubmit(s: State, c: Cmd)
    requires Inv(s) && New(c)
    ensures Inv(s.(cmds := s.cmds + [c]))
  {
    var n := s.(cmds := s.cmds + [c]);
    NotListed(s, |s.cmds|);
    assert Between(n.cmds) == Between(s.cmds);
    forall j | 0 <= j < |n.cmds| ensures OkAt(n, j) {
      assert j < |s.cmds| ==> OkAt(s, j);
      assert SpotOf(n, j) == SpotOf(s, j);
    }
  }

  /** A number beyond the commands submitted so far is nowhere. */
  lemma NotListed(s: State, i: nat)
    requires InOrder(s) && i >= |s.cmds|
    ensures SpotOf(s, i) == Own
  {
    assert i in s.handled + s.pc.Holds() + s.queue ==> i in s.inserted;
  }

  lemma KeepsInv(s: State, a: Action)
    requires Inv(s) && Enabled(s, a)
    ensures Inv(Step(s, a))
  {
    hide Inv, SubStep, Fetch, Serve, Settle;
    match a
    case Submit(c) => KeepsSubmit(s, c);
    case Run(ch) =>
      if !s.pc.Busy? {
        KeepsFetch(s, ch);
      } else if s.pc.work.Served() {
        KeepsSettle(s);
      } else {
        KeepsServe(s, ch);
      }
    case Raise => KeepsOutside(s, s.(sema := s.sema + 1));
    case SetHw(up) => KeepsOutside(s, s.(hwUp := up));
    case SetCannotRun => KeepsOutside(s, s.(cannotRun := true));
    case _ => KeepsSub(s, a);
  }

  /** The semaphore and the flags of the environment play no part in the invariant. */
  lemma KeepsOutside(s: State, n: State)
    requires Inv(s) && n == s.(sema := n.sema, hwUp := n.hwUp, cannotRun := n.cannotRun)
    ensures Inv(n)
  {
    assert forall i :: 0 <= i < |s.cmds| ==> OkAt(s, i) && SpotOf(n, i) == SpotOf(s, i);
  }

  // ----- Runs -----

  /** The state after the actions, if each of them is enabled when its turn comes. */
  function After(s: State, acts: seq<Action>): Option<State>
    decreases |acts|
  {
    if acts == [] then Some(s)
    else if Enabled(s, acts[0]) then After(Step(s, acts[0]), acts[1..])
    else None
  }

  lemma {:induction false} RunKeeps(s: State, acts: seq<Action>, n: State)
    requires Inv(s) && After(s, acts) == Some(n)
    ensures Inv(n)
    decreases |acts|
  {
    if acts != [] {
      hide Inv, Step, Enabled;
      KeepsInv(s, acts[0]);
      RunKeeps(Step(s, acts[0]), acts[1..], n);
    }
  }

  lemma RunInv(s0: State, acts: seq<Action>, s: State)
    requires Init(s0) && After(s0, acts) == Some(s)
    ensures Inv(s)
  {
    RunKeeps(s0, acts, s);
  }

  /**
   * In every run, no step touches memory that is gone: the thread never writes a completion record whose submitter
   * has returned, no submitter touches a freed command object, and nothing is used or freed after it was freed.
   */
  lemma NoStaleAccess(s0: State, acts: seq<Action>, s: State, a: Action)
    requires Init(s0) && After(s0, acts) == Some(s) && Enabled(s, a)
    ensures forall l :: l in Accesses(s, a) ==> Alive(s, l)
  {
    hide *;
    RunInv(s0, acts, s);
    AccessesAre(s, a);
    forall l | l in Accesses(s, a) ensures Alive(s, l) {
      if l in Touched(s, a) {
        TouchedAlive(s, a, l);
      } else {
        NeighbourAlive(s, a, l);
      }
    }
  }

  lemma AccessesAre(s: State, a: Action)
    requires Enabled(s, a)
    ensures Accesses(s, a) == Touched(s, a) + Neighbour(s, a)
  {
  }

  lemma TouchedAlive(s: State, a: Action, l: Loc)
    requires Inv(s) && Enabled(s, a) && l in Touched(s, a)
    ensures Alive(s, l)
  {
    assert l.i < |s.cmds|;
    assert OkAt(s, l.i);
  }

  lemma NeighbourAlive(s: State, a: Action, l: Loc)
    requires Inv(s) && l in Neighbour(s, a)
    ensures Alive(s, l)
  {
    assert l.Object? && l.i in s.queue;
    QueuedAlive(s, l.i);
  }

  /** A queued command has not been freed. */
  lemma QueuedAlive(s: State, i: nat)
    requires Inv(s) && i in s.queue
    ensures i < |s.cmds| && s.cmds[i].live
  {
    hide CmdOk, Halted, Owned;
    assert i in s.inserted;
    HeldElsewhere(s, i);
    assert OkAt(s, i);
    LiveQueued(s.cmds[i], s.mutex == Submitter(i));
  }

  lemma LiveQueued(c: Cmd, owns: bool)
    requires CmdOk(c, Queued, owns)
    ensures c.live
  {
  }

  lemma HeldElsewhere(s: State, i: nat)
    requires InOrder(s) && i in s.queue
    ensures SpotOf(s, i) == Queued
  {
    if s.pc.Busy? {
      HeldOnce(s);
    }
  }

  /** In every run, commands leave the thread in the order of insertion, re-queued or not. */
  lemma FirstInFirstOut(s0: State, acts: seq<Action>, s: State)
    requires Init(s0) && After(s0, acts) == Some(s)
    ensures s.handled + s.pc.Holds() + s.queue == s.inserted && NoDup(s.inserted)
  {
    RunInv(s0, acts, s);
  }

  /** The size test at dispatch never fires: what is too big was rejected at the queue. */
  lemma NeverTooBig(s0: State, acts: seq<Action>, s: State)
    requires Init(s0) && After(s0, acts) == Some(s) && s.pc.Busy?
    ensures s.pc.c < |s.cmds| && !s.cmds[s.pc.c].big
  {
    RunInv(s0, acts, s);
    assert s.pc.c in s.handled + s.pc.Holds() + s.queue;
    assert OkAt(s, s.pc.c);
  }

  /** The command is put on the queue by one of the actions, at a time when the thread is gone. */
  predicate InsertedDead(s: State, acts: seq<Action>, i: nat)
    decreases |acts|
  {
    && acts != [] && Enabled(s, acts[0])
    && ((acts[0] == Insert(i) && s.pc == Dead) || InsertedDead(Step(s, acts[0]), acts[1..], i))
  }

  /** What one step does to the queue of a thread that is gone. */
  lemma QueueDead(s: State, a: Action, i: nat)
    requires Enabled(s, a)
    ensures Step(s, a).pc == Dead && i in Step(s, a).queue <==>
      s.pc == Dead && (i in s.queue || a == Insert(i))
  {
    if a.Run? && s.pc.Busy? {
      hide Allowed, ServedCmd, ServedWork, SettledCmd, SettledWork;
    }
  }

  lemma {:induction false} QueuedIffDead(s: State, acts: seq<Action>, n: State, i: nat)
    requires After(s, acts) == Some(n) && n.pc == Dead
    ensures i in n.queue <==> (s.pc == Dead && i in s.queue) || InsertedDead(s, acts, i)
    decreases |acts|
  {
    if acts != [] {
      hide Step, Enabled;
      QueueDead(s, acts[0], i);
      QueuedIffDead(Step(s, acts[0]), acts[1..], n, i);
    }
  }

  /**
   * Once the thread is gone, the payload of a command whose submitter is through is freed unless the command is still
   * queued. It is queued exactly if it was inserted when the thread was gone already, and then its submitter had
   * passed the filter before the thread stopped.
   */
  lemma PayloadsAtExit(s0: State, acts: seq<Action>, s: State, i: nat)
    requires Init(s0) && After(s0, acts) == Some(s) && s.pc == Dead
    requires i < |s.cmds| && s.cmds[i].extra && (s.cmds[i].sub.Posted() || s.cmds[i].sub.Rejected?)
    ensures s.cmds[i].payload <==> i in s.queue
    ensures i in s.queue <==> InsertedDead(s0, acts, i)
    ensures i in s.queue ==> i in s.late
  {
    QueuedIffDead(s0, acts, s, i);
    RunInv(s0, acts, s);
    assert OkAt(s, i);
  }

  /** The step hands the command to its callback after a failure that is not the drain of the queue. */
  predicate FailsNow(s: State, a: Action, i: nat) {
    a.Run? && s.pc == Busy(i, Finish(Verdict(false, false)))
  }

  /** One of the actions does. */
  predicate Failed(s: State, acts: seq<Action>, i: nat)
    decreases |acts|
  {
    && acts != [] && Enabled(s, acts[0])
    && (FailsNow(s, acts[0], i) || Failed(Step(s, acts[0]), acts[1..], i))
  }

  /** The thread has let go of the command, and its object is still there. */
  predicate Remains(s: State, i: nat) {
    i < |s.cmds| && i in s.handled && s.cmds[i].live
  }

  /** What one step does to the objects that remain. */
  lemma RemainsOn(s: State, a: Action, i: nat)
    requires Inv(s) && Enabled(s, a)
    ensures Remains(Step(s, a), i) <==> Remains(s, i) || (FailsNow(s, a, i) && s.pc.c < |s.cmds| && s.cmds[i].keeps)
  {
    hide Inv, Remains, ThreadStep, SubStep;
    match a
    case Submit(c) => RemainsNew(s, c, i);
    case Run(ch) => RemainsThread(s, ch, i);
    case Raise => RemainsOutside(s, Step(s, a), i);
    case SetHw(_) => RemainsOutside(s, Step(s, a), i);
    case SetCannotRun => RemainsOutside(s, Step(s, a), i);
    case _ => RemainsSub(s, a, i);
  }

  lemma RemainsOutside(s: State, n: State, i: nat)
    requires n.cmds == s.cmds && n.handled == s.handled
    ensures Remains(n, i) == Remains(s, i)
  {
  }

  lemma RemainsNew(s: State, c: Cmd, i: nat)
    requires Inv(s)
    ensures Remains(s.(cmds := s.cmds + [c]), i) == Remains(s, i)
  {
    hide CmdsOk, Owned, Halted;
    if i >= |s.cmds| {
      NotListed(s, i);
    }
  }

  lemma RemainsSub(s: State, a: Action, i: nat)
    requires Inv(s) && Enabled(s, a) && IsSub(a)
    ensures Remains(SubStep(s, a), i) == Remains(s, i)
  {
    hide CmdsOk, Owned, Halted, Allowed, SubCmd;
    SubObject(s.cmds[a.i], a, Allowed(s, s.cmds[a.i]));
    if a.Filter? {
      NotInserted(s, a.i);
    }
  }

  /** A submitter frees its object only before it is inserted, and never changes what its callback does. */
  lemma SubObject(c: Cmd, a: Action, allowed: bool)
    requires IsSub(a)
    ensures SubCmd(c, a, allowed).keeps == c.keeps && (!a.Filter? ==> SubCmd(c, a, allowed).live == c.live)
  {
    hide NextSub;
  }

  lemma RemainsThread(s: State, ch: Choice, i: nat)
    requires Inv(s) && CanRun(s, ch)
    ensures Remains(ThreadStep(s, ch), i) <==>
      Remains(s, i) || (s.pc == Busy(i, Finish(Verdict(false, false))) && i < |s.cmds| && s.cmds[i].keeps)
  {
    hide Inv, Fetch, Serve, Settle, Remains;
    if !s.pc.Busy? {
      RemainsFetch(s, ch, i);
    } else {
      HeldNotHandled(s);
      SameObject(s.cmds[s.pc.c], s.pc.work, Allowed(s, s.cmds[s.pc.c]));
      if s.pc.work.Served() {
        RemainsSettle(s, i);
      } else {
        RemainsServe(s, ch, i);
      }
    }
  }

  lemma RemainsFetch(s: State, ch: Choice, i: nat)
    requires CanRun(s, ch) && !s.pc.Busy?
    ensures Remains(Fetch(s, ch), i) <==> Remains(s, i)
  {
    hide FetchPc, Between;
  }

  lemma RemainsServe(s: State, ch: Choice, i: nat)
    requires CanRun(s, ch) && s.pc.Busy? && !s.pc.work.Served()
    requires ServedCmd(s.cmds[s.pc.c], s.pc.work, Allowed(s, s.cmds[s.pc.c])).live == s.cmds[s.pc.c].live
    ensures Remains(Serve(s, ch), i) <==> Remains(s, i)
  {
    hide Allowed, ServedCmd, ServedWork;
  }

  lemma RemainsSettle(s: State, i: nat)
    requires CanRun(s, Plain) && s.pc.Busy? && s.pc.work.Served() && s.pc.c !in s.handled
    requires SettledCmd(s.cmds[s.pc.c], s.pc.work).live ==
      if s.pc.work.Finish? then s.cmds[s.pc.c].keeps && s.pc.work == Finish(Verdict(false, false)) else s.cmds[s.pc.c].live
    ensures Remains(Settle(s), i) <==>
      Remains(s, i) || (s.pc == Busy(i, Finish(Verdict(false, false))) && s.cmds[s.pc.c].keeps)
  {
    hide SettledCmd, SettledWork;
  }

  /** Serving and settling keep the object until the command is handed to its callback. */
  lemma SameObject(c: Cmd, work: Work, allowed: bool)
    ensures ServedCmd(c, work, allowed).live == c.live
    ensures work.Served() ==>
      SettledCmd(c, work).live == if work.Finish? then c.keeps && work == Finish(Verdict(false, false)) else c.live
  {
  }

  /** The thread has not let go of the command it holds. */
  lemma HeldNotHandled(s: State)
    requires Inv(s) && s.pc.Busy?
    ensures s.pc.c !in s.handled
  {
    hide CmdsOk, Owned, Halted;
    var k, x := |s.handled|, s.handled + s.pc.Holds() + s.queue;
    assert x[k] == s.pc.c;
    forall j | 0 <= j < |s.handled| ensures s.handled[j] != s.pc.c {
      assert x[j] == s.handled[j];
    }
  }

  /** A command says from its start whether its callback frees the object on success only. */
  lemma KeepsConstant(s: State, a: Action, i: nat)
    requires Enabled(s, a) && i < |s.cmds|
    ensures |Step(s, a).cmds| >= |s.cmds| && Step(s, a).cmds[i].keeps == s.cmds[i].keeps
  {
    hide ThreadStep, SubStep;
    match a
    case Submit(c) =>
    case Raise =>
    case SetHw(_) =>
    case SetCannotRun =>
    case Run(ch) => KeepsThread(s, ch, i);
    case _ =>
      SubObject(s.cmds[a.i], a, Allowed(s, s.cmds[a.i]));
      SubStepKeeps(s, a, i);
  }

  lemma KeepsThread(s: State, ch: Choice, i: nat)
    requires CanRun(s, ch) && i < |s.cmds|
    ensures |ThreadStep(s, ch).cmds| == |s.cmds| && ThreadStep(s, ch).cmds[i].keeps == s.cmds[i].keeps
  {
    hide Allowed, ServedCmd, SettledCmd, ServedWork, SettledWork, FetchPc, Between;
    if s.pc.Busy? {
      SameCallback(s.cmds[s.pc.c], s.pc.work, Allowed(s, s.cmds[s.pc.c]));
    }
  }

  lemma SubStepKeeps(s: State, a: Action, i: nat)
    requires Enabled(s, a) && IsSub(a) && i < |s.cmds|
    requires SubCmd(s.cmds[a.i], a, Allowed(s, s.cmds[a.i])).keeps == s.cmds[a.i].keeps
    ensures |SubStep(s, a).cmds| == |s.cmds| && SubStep(s, a).cmds[i].keeps == s.cmds[i].keeps
  {
    hide Allowed, SubCmd;
  }

  lemma SameCallback(c: Cmd, work: Work, allowed: bool)
    ensures ServedCmd(c, work, allowed).keeps == c.keeps
    ensures work.Served() ==> SettledCmd(c, work).keeps == c.keeps
  {
  }

  lemma {:induction false} RemainsIff(s: State, acts: seq<Action>, n: State, i: nat)
    requires Inv(s) && After(s, acts) == Some(n)
    ensures i < |s.cmds| ==> i < |n.cmds| && n.cmds[i].keeps == s.cmds[i].keeps
    ensures Remains(n, i) <==> Remains(s, i) || (i < |n.cmds| && n.cmds[i].keeps && Failed(s, acts, i))
    decreases |acts|
  {
    if acts != [] {
      hide Inv, Step, Enabled, Remains;
      KeepsInv(s, acts[0]);
      RemainsOn(s, acts[0], i);
      RemainsIff(Step(s, acts[0]), acts[1..], n, i);
      if i < |s.cmds| {
        KeepsConstant(s, acts[0], i);
      } else if FailsNow(s, acts[0], i) {
        HeldThere(s, acts[0]);
      }
    }
  }

  lemma HeldThere(s: State, a: Action)
    requires Enabled(s, a) && a.Run? && s.pc.Busy?
    ensures s.pc.c < |s.cmds|
  {
  }

  /**
   * If no submitter was between filter and insert when the thread stopped, every payload is freed, and exactly those
   * objects are left whose callback keeps them on failure and got one, outside the drain of the queue.
   */
  lemma NothingLeft(s0: State, acts: seq<Action>, s: State, i: nat)
    requires Init(s0) && After(s0, acts) == Some(s) && s.pc == Dead && s.late == {}
    requires i < |s.cmds| && (s.cmds[i].sub.Posted() || s.cmds[i].sub.Rejected?)
    ensures !s.cmds[i].payload
    ensures s.cmds[i].live <==> s.cmds[i].keeps && Failed(s0, acts, i)
  {
    hide *;
    RunInv(s0, acts, s);
    StartsEmpty(s0, i);
    RemainsIff(s0, acts, s, i);
    EndsEmpty(s, i);
  }

  lemma StartsEmpty(s: State, i: nat)
    requires Init(s)
    ensures Inv(s) && !Remains(s, i)
  {
  }

  lemma EndsEmpty(s: State, i: nat)
    requires Inv(s) && s.pc == Dead && s.late == {}
    requires i < |s.cmds| && (s.cmds[i].sub.Posted() || s.cmds[i].sub.Rejected?)
    ensures !s.cmds[i].payload && (s.cmds[i].live <==> Remains(s, i))
  {
    assert OkAt(s, i);
  }

  // ----- Who gets through -----

  /** The thread counts as running from its first step until it stops taking commands. */
  predicate RunsRightly(s: State) {
    s.running <==> !s.pc.Start? && !s.pc.Drain? && !s.pc.Dead? && !(s.pc.Busy? && s.pc.work.Draining())
  }

  lemma RunningOn(s: State, a: Action)
    requires RunsRightly(s) && Enabled(s, a)
    ensures RunsRightly(Step(s, a))
  {
    if a.Run? {
      hide Allowed, ServedCmd, SettledCmd, Between;
      if s.pc.Busy? && s.pc.work.Served() && !s.pc.work.Finish? {
        SameVerdict(s.cmds[s.pc.c], s.pc.work);
        hide SettledWork;
      }
    }
  }

  lemma {:induction false} RunRunning(s: State, acts: seq<Action>, n: State)
    requires RunsRightly(s) && After(s, acts) == Some(n)
    ensures RunsRightly(n)
    decreases |acts|
  {
    if acts != [] {
      hide RunsRightly, Step, Enabled;
      RunningOn(s, acts[0]);
      RunRunning(Step(s, acts[0]), acts[1..], n);
    }
  }

  /** In every run: the thread counts as running exactly between its first step and the one with which it stops. */
  lemma RunningIff(s0: State, acts: seq<Action>, s: State)
    requires Init(s0) && After(s0, acts) == Some(s)
    ensures s.running <==>
      match s.pc
      case Start => false
      case Drain => false
      case Dead => false
      case Busy(_, work) => work == Dispatch || work == Execute || (work != Drop && !work.v.drain)
      case _ => true
  {
    RunRunning(s0, acts, s);
  }

  /**
   * In every run, a submitter's command is turned away exactly if it is too big, the thread is not running, or the
   * hardware is down and the command neither sets the channel plan nor does without I/O; then object and payload are
   * freed. Otherwise it is as it was, and on its way into the queue.
   */
  lemma FilterIff(s0: State, acts: seq<Action>, s: State, i: nat)
    requires Init(s0) && After(s0, acts) == Some(s) && Enabled(s, Filter(i))
    ensures i < |s.cmds| && |Step(s, Filter(i)).cmds| == |s.cmds| && s.cmds[i].live && s.cmds[i].payload == s.cmds[i].extra
    ensures var c, n := s.cmds[i], Step(s, Filter(i)).cmds[i];
      if c.big || !s.running || (!s.hwUp && !c.chPlan && !c.noIo) then n == c.(sub := Rejected, payload := false, live := false)
      else n == c.(sub := Passed)
  {
    RunInv(s0, acts, s);
    assert OkAt(s, i);
    NotInserted(s, i);
    hide Inv;
  }

  /**
   * In every run, the thread executes the command it has taken exactly if there is a handler for it, the thread is
   * running, and the hardware is up or the command sets the channel plan or does without I/O; a command that is not
   * executed is reported as failed and has lost its payload.
   */
  lemma DispatchIff(s0: State, acts: seq<Action>, s: State, i: nat)
    requires Init(s0) && After(s0, acts) == Some(s) && s.pc == Busy(i, Dispatch) && Enabled(s, Run(Plain))
    ensures i < |s.cmds| && !s.cmds[i].big
    ensures var c, n := s.cmds[i], Step(s, Run(Plain));
      && |n.cmds| == |s.cmds|
      && if c.handler && s.running && (s.hwUp || c.chPlan || c.noIo) then n.pc == Busy(i, Execute) && n.cmds[i] == c
         else n.pc == Busy(i, Post(Verdict(false, false))) && !n.cmds[i].payload
  {
    NeverTooBig(s0, acts, s);
    RunInv(s0, acts, s);
    assert OkAt(s, i);
    hide Inv;
  }

  /** Execution ends with the handler's verdict and without the payload, or the command goes back to the head of the queue. */
  lemma ExecuteEnds(s: State, i: nat, ch: Choice)
    requires s.pc == Busy(i, Execute) && Enabled(s, Run(ch))
    ensures i < |s.cmds| && (ch == Requeue || ch == Result(true) || ch == Result(false))
    ensures ch == Requeue ==>
      s.lclk && !s.cmds[i].noIo && Step(s, Run(ch)) == s.(queue := [i] + s.queue, pc := Down)
    ensures ch != Requeue ==>
      && Step(s, Run(ch)).pc == Busy(i, Post(Verdict(ch == Result(true), false)))
      && |Step(s, Run(ch)).cmds| == |s.cmds| && !Step(s, Run(ch)).cmds[i].payload
    ensures Enabled(s, Run(Requeue)) <==> s.lclk && !s.cmds[i].noIo
  {
  }

  /** A thread whose driver cannot run stops at its next test, and counts as stopped with the step behind that. */
  lemma StopsAtTests(s: State)
    requires s.pc == Check || s.pc == Next || s.pc == Stopping
    ensures Enabled(s, Run(Plain))
    ensures s.pc == Stopping ==> Step(s, Run(Plain)).pc == Drain && !Step(s, Run(Plain)).running
    ensures s.pc != Stopping ==>
      (Step(s, Run(Plain)).pc == Stopping <==> s.cannotRun) && Step(s, Run(Plain)).running == s.running
  {
    hide Between;
  }

  /** An interrupted wait stops the thread; a wait that ends otherwise takes one count. */
  lemma WaitEnds(s: State)
    requires s.pc == Down
    ensures Enabled(s, Run(Interrupted)) && Step(s, Run(Interrupted)) == s.(pc := Stopping)
    ensures Enabled(s, Run(Plain)) <==> s.sema > 0
    ensures s.sema > 0 ==> Step(s, Run(Plain)) == s.(pc := Check, sema := s.sema - 1)
  {
  }

  /** The change to command `i` is covered by the accesses. */
  predicate Explained(c: Cmd, n: Cmd, i: nat, acc: set<Loc>) {
    && (n.sctx != c.sctx || n.live != c.live ==> Object(i) in acc)
    && (n.payload != c.payload ==> Payload(i) in acc)
    && (n.submitted != c.submitted ==> Sctx(i) in acc)
  }

  lemma SubExplained(s: State, a: Action)
    requires Enabled(s, a) && IsSub(a) && (s.cmds[a.i].payload ==> s.cmds[a.i].extra)
    ensures Explained(s.cmds[a.i], SubCmd(s.cmds[a.i], a, Allowed(s, s.cmds[a.i])), a.i, Touched(s, a))
  {
    hide Allowed;
  }

  lemma ServeExplained(s: State, ch: Choice)
    requires CanRun(s, ch) && s.pc.Busy? && !s.pc.work.Served() && ch != Requeue
    requires s.cmds[s.pc.c].payload ==> s.cmds[s.pc.c].extra
    ensures var c, allowed := s.cmds[s.pc.c], Allowed(s, s.cmds[s.pc.c]);
      Explained(c, ServedCmd(c, s.pc.work, allowed), s.pc.c, {Object(s.pc.c)} + WorkAccesses(c, s.pc.c, s.pc.work, ch, allowed))
  {
    hide Allowed;
  }

  lemma SettleExplained(c: Cmd, i: nat, work: Work, allowed: bool)
    requires work.Served()
    ensures Explained(c, SettledCmd(c, work), i, {Object(i)} + WorkAccesses(c, i, work, Plain, allowed))
  {
    match work {
      case Locked(_) => case Completed(_) => case Finish(_) => case _ =>
    }
  }

  lemma BusyTouches(s: State, ch: Choice)
    requires CanRun(s, ch) && s.pc.Busy?
    ensures var i := s.pc.c;
      && i < |s.cmds| && Touched(s, Run(ch)) == {Object(i)} + WorkAccesses(s.cmds[i], i, s.pc.work, ch, Allowed(s, s.cmds[i]))
      && (s.pc.work.Served() ==> ch == Plain)
  {
    hide WorkAccesses, Allowed;
  }

  lemma StepCmds(s: State, a: Action, i: nat)
    requires Enabled(s, a) && i < |s.cmds|
    ensures a.Run? ==> CanRun(s, a.choice) && Step(s, a) == ThreadStep(s, a.choice)
    ensures !a.Run? ==> i < |Step(s, a).cmds|
    ensures !a.Run? && !(IsSub(a) && a.i == i) ==> Step(s, a).cmds[i] == s.cmds[i]
    ensures IsSub(a) && a.i == i ==> Step(s, a).cmds[i] == SubCmd(s.cmds[i], a, Allowed(s, s.cmds[i]))
  {
    hide ThreadStep, SubCmd, Allowed, CanRun;
  }

  lemma ExplainedIs(c: Cmd, n: Cmd, i: nat, acc: set<Loc>)
    ensures Explained(c, n, i, acc) <==>
      && (n.sctx != c.sctx || n.live != c.live ==> Object(i) in acc)
      && (n.payload != c.payload ==> Payload(i) in acc)
      && (n.submitted != c.submitted ==> Sctx(i) in acc)
  {
  }

  lemma Unchanged(c: Cmd, i: nat, acc: set<Loc>)
    ensures Explained(c, c, i, acc)
  {
  }

  /** A step of the thread changes no command but the one it holds. */
  lemma ThreadCmds(s: State, ch: Choice)
    requires CanRun(s, ch)
    ensures var n := ThreadStep(s, ch).cmds;
      if !s.pc.Busy? || (ch == Requeue && !s.pc.work.Served()) then n == s.cmds
      else
        var i := s.pc.c;
        i < |s.cmds| && n == s.cmds[i := if s.pc.work.Served() then SettledCmd(s.cmds[i], s.pc.work)
                                         else ServedCmd(s.cmds[i], s.pc.work, Allowed(s, s.cmds[i]))]
  {
    hide Allowed, ServedCmd, ServedWork, SettledCmd, SettledWork, FetchPc, Takes, Between;
  }

  lemma ThreadExplained(s: State, ch: Choice, i: nat)
    requires CanRun(s, ch) && i < |s.cmds| && (s.cmds[i].payload ==> s.cmds[i].extra)
    ensures i < |ThreadStep(s, ch).cmds|
    ensures Explained(s.cmds[i], ThreadStep(s, ch).cmds[i], i, Touched(s, Run(ch)))
  {
    assert Enabled(s, Run(ch));
    hide *;
    ThreadCmds(s, ch);
    Unchanged(s.cmds[i], i, Touched(s, Run(ch)));
    if s.pc.Busy? && s.pc.c == i {
      BusyTouches(s, ch);
      if s.pc.work.Served() {
        SettleExplained(s.cmds[i], i, s.pc.work, Allowed(s, s.cmds[i]));
      } else if ch != Requeue {
        ServeExplained(s, ch);
      }
    }
  }

  /**
   * What a step is said to access is all that it changes: a pointer to a record, or the life of an object, only if it
   * accesses that object, a payload only if it accesses that payload, and a record only if it accesses that record.
   */
  lemma ChangesAccessed(s: State, a: Action, i: nat)
    requires Enabled(s, a) && i < |s.cmds| && (s.cmds[i].payload ==> s.cmds[i].extra)
    ensures i < |Step(s, a).cmds|
    ensures var c, n := s.cmds[i], Step(s, a).cmds[i];
      && (n.sctx != c.sctx || n.live != c.live ==> Object(i) in Accesses(s, a))
      && (n.payload != c.payload ==> Payload(i) in Accesses(s, a))
      && (n.submitted != c.submitted ==> Sctx(i) in Accesses(s, a))
  {
    var own := IsSub(a) && a.i == i;
    hide *;
    StepCmds(s, a, i);
    AccessesAre(s, a);
    Unchanged(s.cmds[i], i, Touched(s, a));
    if a.Run? {
      ThreadExplained(s, a.choice, i);
    } else if own {
      SubExplained(s, a);
    }
    ExplainedIs(s.cmds[i], Step(s, a).cmds[i], i, Touched(s, a));
  }

  /** In every run, a payload that is allocated belongs to a command that came with one. */
  lemma PayloadsAreExtra(s0: State, acts: seq<Action>, s: State, i: nat)
    requires Init(s0) && After(s0, acts) == Some(s) && i < |s.cmds| && s.cmds[i].payload
    ensures s.cmds[i].extra
  {
    RunInv(s0, acts, s);
    assert OkAt(s, i);
    hide Inv;
  }

  /** A command found in the queue of a thread that stops is dropped, reported as failed, and its object freed. */
  lemma DrainDrops(s: State, i: nat, rest: seq<nat>)
    requires s.pc == Drain && s.queue == [i] + rest && Enabled(s, Run(Plain)) && i < |s.cmds|
    ensures var n := Step(s, Run(Plain));
      && n == s.(pc := Busy(i, Drop), queue := rest)
      && Enabled(n, Run(Plain)) && Step(n, Run(Plain)).pc == Busy(i, Post(Verdict(false, true)))
      && Step(n, Run(Plain)).cmds == s.cmds[i := s.cmds[i].(payload := false)]
  {
    hide Between;
    assert ([i] + rest)[1..] == rest;
  }

  // ----- Wake-ups -----

  /** Submitters that have inserted their command and not yet raised the semaphore. */
  function Raising(cmds: seq<Cmd>): nat {
    if cmds == [] then 0 else (if cmds[0].sub.Inserted? then 1 else 0) + Raising(cmds[1..])
  }

  lemma {:induction false} RaisingPut(cmds: seq<Cmd>, i: nat, c: Cmd)
    requires i < |cmds|
    ensures Raising(cmds[i := c]) + (if cmds[i].sub.Inserted? then 1 else 0) == Raising(cmds) + (if c.sub.Inserted? then 1 else 0)
  {
    if i == 0 {
      assert cmds[0 := c][1..] == cmds[1..];
    } else {
      RaisingPut(cmds[1..], i - 1, c);
      assert cmds[i := c][1..] == cmds[1..][i - 1 := c];
    }
  }

  lemma {:induction false} RaisingNew(cmds: seq<Cmd>, c: Cmd)
    requires c.sub.Fresh?
    ensures Raising(cmds + [c]) == Raising(cmds)
  {
    if cmds != [] {
      RaisingNew(cmds[1..], c);
      assert (cmds + [c])[1..] == cmds[1..] + [c];
    }
  }

  /** The thread has taken a count off the semaphore that it has not yet matched with a command. */
  predicate Credit(pc: Pc) {
    pc.Check? || pc.Peek? || pc.Next? || pc.Take?
  }

  /** A command that stays where its submitter is concerned counts as before. */
  lemma RaisingSame(cmds: seq<Cmd>, i: nat, c: Cmd)
    requires i < |cmds| && c.sub == cmds[i].sub
    ensures Raising(cmds[i := c]) == Raising(cmds)
  {
    hide Raising;
    RaisingPut(cmds, i, c);
  }

  /**
   * As long as the thread serves, every queued command but `slack` of them has a count, or a submitter about to raise
   * one.
   */
  predicate Covered(s: State, slack: nat) {
    s.pc.Stopping? || s.pc.Stopped() ||
    |s.queue| <= s.sema + Raising(s.cmds) + (if Credit(s.pc) then 1 else 0) + slack
  }

  lemma CoveredSub(s: State, a: Action, slack: nat)
    requires Covered(s, slack) && Enabled(s, a) && IsSub(a)
    ensures Covered(SubStep(s, a), slack)
  {
    hide Allowed, Raising;
    RaisingPut(s.cmds, a.i, SubStep(s, a).cmds[a.i]);
  }

  lemma CoveredFetch(s: State, ch: Choice, slack: nat)
    requires Covered(s, slack) && CanRun(s, ch) && !s.pc.Busy?
    ensures Covered(Fetch(s, ch), slack)
  {
    hide Raising, Between;
  }

  /** A command put back takes no count with it. */
  lemma CoveredRequeue(s: State, slack: nat)
    requires Covered(s, slack) && CanRun(s, Requeue) && s.pc.Busy? && !s.pc.work.Served()
    ensures Covered(Serve(s, Requeue), slack + 1)
  {
    hide Raising, Allowed;
  }

  lemma CoveredServe(s: State, ch: Choice, slack: nat)
    requires Covered(s, slack) && CanRun(s, ch) && s.pc.Busy? && !s.pc.work.Served() && ch != Requeue
    ensures Covered(Serve(s, ch), slack)
  {
    hide Raising, Allowed, ServedWork, Covered;
    var i := s.pc.c;
    var c := ServedCmd(s.cmds[i], s.pc.work, Allowed(s, s.cmds[i]));
    RaisingSame(s.cmds, i, c);
    ServedOn(s.cmds[i], s.pc.work, Allowed(s, s.cmds[i]), ch);
    hide ServedCmd;
    CoveredSame(s, Serve(s, ch), slack);
  }

  /** Serving goes on with a verdict about draining that fits the work, or with the execution. */
  lemma ServedOn(c: Cmd, work: Work, allowed: bool, ch: Choice)
    requires !work.Served()
    ensures Busy(0, work).Stopped() ==> Busy(0, ServedWork(c, work, allowed, ch)).Stopped()
  {
  }

  lemma CoveredSettle(s: State, slack: nat)
    requires Covered(s, slack) && CanRun(s, Plain) && s.pc.Busy? && s.pc.work.Served()
    ensures Covered(Settle(s), slack)
  {
    hide Raising, SettledCmd, SettledWork, Covered;
    SameSub(s.cmds[s.pc.c], s.pc.work);
    RaisingSame(s.cmds, s.pc.c, SettledCmd(s.cmds[s.pc.c], s.pc.work));
    if !s.pc.work.Finish? {
      SameVerdict(s.cmds[s.pc.c], s.pc.work);
    }
    CoveredSame(s, Settle(s), slack);
  }

  lemma SameSub(c: Cmd, work: Work)
    requires work.Served()
    ensures SettledCmd(c, work).sub == c.sub
  {
    match work {
      case Locked(_) => case Completed(_) => case Finish(_) => case _ =>
    }
  }

  lemma CoveredSame(s: State, n: State, slack: nat)
    requires Covered(s, slack) && n.queue == s.queue && n.sema == s.sema && Raising(n.cmds) == Raising(s.cmds)
    requires s.pc.Busy? && (s.pc.Stopped() ==> n.pc.Stopped())
    ensures Covered(n, slack)
  {
    hide Raising;
  }

  /** How often the thread puts a command back. */
  function Requeues(acts: seq<Action>): nat {
    if acts == [] then 0 else (if acts[0] == Run(Requeue) then 1 else 0) + Requeues(acts[1..])
  }

  lemma CoveredThread(s: State, ch: Choice, slack: nat)
    requires Covered(s, slack) && CanRun(s, ch)
    ensures Covered(ThreadStep(s, ch), if ch == Requeue then slack + 1 else slack)
  {
    hide Covered, Fetch, Serve, Settle;
    if !s.pc.Busy? {
      CoveredFetch(s, ch, slack);
      CoveredMore(ThreadStep(s, ch), slack);
    } else if s.pc.work.Served() {
      CoveredSettle(s, slack);
      CoveredMore(ThreadStep(s, ch), slack);
    } else if ch == Requeue {
      CoveredRequeue(s, slack);
    } else {
      CoveredServe(s, ch, slack);
    }
  }

  lemma CoveredMore(s: State, slack: nat)
    requires Covered(s, slack)
    ensures Covered(s, slack + 1)
  {
  }

  lemma CoveredOutside(s: State, n: State, slack: nat)
    requires Covered(s, slack) && Raising(n.cmds) == Raising(s.cmds) && n.sema >= s.sema
    requires n == s.(cmds := n.cmds, sema := n.sema, hwUp := n.hwUp, cannotRun := n.cannotRun)
    ensures Covered(n, slack)
  {
    hide Raising;
  }

  lemma CoveredStep(s: State, a: Action, slack: nat)
    requires Covered(s, slack) && Enabled(s, a)
    ensures Covered(Step(s, a), if a == Run(Requeue) then slack + 1 else slack)
  {
    hide Raising, Covered, ThreadStep, SubStep;
    match a
    case Submit(c) =>
      RaisingNew(s.cmds, c);
      CoveredOutside(s, Step(s, a), slack);
    case Run(ch) => CoveredThread(s, ch, slack);
    case Raise => CoveredOutside(s, Step(s, a), slack);
    case SetHw(_) => CoveredOutside(s, Step(s, a), slack);
    case SetCannotRun => CoveredOutside(s, Step(s, a), slack);
    case _ => CoveredSub(s, a, slack);
  }

  lemma {:induction false} RunCovered(s: State, acts: seq<Action>, n: State, slack: nat)
    requires Covered(s, slack) && After(s, acts) == Some(n)
    ensures Covered(n, slack + Requeues(acts))
    decreases |acts|
  {
    if acts != [] {
      hide Covered, Step, Enabled;
      CoveredStep(s, acts[0], slack);
      RunCovered(Step(s, acts[0]), acts[1..], n, if acts[0] == Run(Requeue) then slack + 1 else slack);
    }
  }

  /**
   * In every run, a thread blocked on the semaphore has at most as many commands waiting as the semaphore counts and
   * submitters are about to raise, and one more for each time it put a command back.
   */
  lemma WakeUpsMissing(s0: State, acts: seq<Action>, s: State)
    requires Init(s0) && After(s0, acts) == Some(s) && s.pc == Down
    ensures |s.queue| <= s.sema + Raising(s.cmds) + Requeues(acts)
  {
    RunCovered(s0, acts, s, 0);
  }

  /** How often the thread takes a count off the semaphore. */
  function Downs(s: State, acts: seq<Action>): nat
    decreases |acts|
  {
    if acts == [] || !Enabled(s, acts[0]) then 0
    else (if TakesCount(s, acts[0]) then 1 else 0) + Downs(Step(s, acts[0]), acts[1..])
  }

  predicate TakesCount(s: State, a: Action) {
    s.pc == Down && a == Run(Plain)
  }

  /** How often the semaphore is raised from elsewhere. */
  function Raises(acts: seq<Action>): nat {
    if acts == [] then 0 else (if acts[0] == Raise then 1 else 0) + Raises(acts[1..])
  }

  /** Counts there and about to come, less one for each command that was inserted. */
  function Balance(s: State): int {
    s.sema + Raising(s.cmds) - |s.inserted|
  }

  /** Only a down and an up from elsewhere change the balance. */
  lemma BalanceOn(s: State, a: Action)
    requires Enabled(s, a)
    ensures Balance(Step(s, a)) == Balance(s) + (if a == Raise then 1 else 0) - (if TakesCount(s, a) then 1 else 0)
  {
    hide Raising, Allowed, SubStep, ThreadStep;
    match a
    case Submit(c) => RaisingNew(s.cmds, c);
    case Run(ch) => BalanceThread(s, ch);
    case Raise =>
    case SetHw(_) =>
    case SetCannotRun =>
    case _ => BalanceSub(s, a);
  }

  lemma BalanceSub(s: State, a: Action)
    requires Enabled(s, a) && IsSub(a)
    ensures Balance(SubStep(s, a)) == Balance(s)
  {
    hide Raising, Allowed;
    RaisingPut(s.cmds, a.i, SubStep(s, a).cmds[a.i]);
  }

  lemma BalanceThread(s: State, ch: Choice)
    requires CanRun(s, ch)
    ensures Balance(ThreadStep(s, ch)) == Balance(s) - if TakesCount(s, Run(ch)) then 1 else 0
  {
    hide Raising, Allowed, ServedWork, SettledWork, SettledCmd, Between;
    if s.pc.Busy? {
      var i := s.pc.c;
      if s.pc.work.Served() {
        SameSub(s.cmds[i], s.pc.work);
        RaisingSame(s.cmds, i, SettledCmd(s.cmds[i], s.pc.work));
      } else {
        RaisingSame(s.cmds, i, ServedCmd(s.cmds[i], s.pc.work, Allowed(s, s.cmds[i])));
      }
    }
  }

  lemma {:induction false} RunBalance(s: State, acts: seq<Action>, n: State)
    requires After(s, acts) == Some(n)
    ensures Balance(n) == Balance(s) + Raises(acts) - Downs(s, acts)
    decreases |acts|
  {
    if acts != [] {
      hide Balance, Step, Enabled, TakesCount;
      BalanceOn(s, acts[0]);
      RunBalance(Step(s, acts[0]), acts[1..], n);
    }
  }

  /**
   * In every run of either build, what a thread blocked on the semaphore has waiting and what is there or about to come
   * for it differ by the counts it took less the commands it let go of and the ups from elsewhere. So every command
   * waiting is covered exactly if the thread has taken no more counts than it has let go of commands, ups from elsewhere
   * included.
   */
  lemma WakeUpIff(s0: State, acts: seq<Action>, s: State)
    requires Init(s0) && After(s0, acts) == Some(s) && s.pc == Down
    ensures |s.queue| - (s.sema + Raising(s.cmds)) == Downs(s0, acts) - |s.handled| - Raises(acts)
    ensures |s.queue| <= s.sema + Raising(s.cmds) <==> Downs(s0, acts) <= |s.handled| + Raises(acts)
  {
    RunInv(s0, acts, s);
    RunBalance(s0, acts, s);
    hide Raising, Downs, After;
    assert Raising(s0.cmds) == 0 by {
      NoneRaising(s0);
    }
  }

  lemma NoneRaising(s: State)
    requires Init(s)
    ensures Raising(s.cmds) == 0
  {
  }

  /** An up that finds the thread blocked and the queue empty is spent in three steps, and all is as it was. */
  lemma UpSpent(s: State)
    requires s.pc == Down && s.queue == [] && !s.cannotRun
    ensures After(s, [Raise, Run(Plain), Run(Plain), Run(Plain)]) == Some(s)
  {
    hide After;
    var s1 := s.(sema := s.sema + 1);
    var s2 := s.(pc := Check);
    var s3 := s.(pc := Peek);
    assert Enabled(s, Raise) && Step(s, Raise) == s1;
    assert Enabled(s1, Run(Plain)) && Step(s1, Run(Plain)) == s2;
    assert Enabled(s2, Run(Plain)) && Step(s2, Run(Plain)) == s3;
    assert Enabled(s3, Run(Plain)) && Step(s3, Run(Plain)) == s;
    EmptyRun(s);
    AfterCons(s3, Run(Plain), []);
    AfterCons(s2, Run(Plain), [Run(Plain)]);
    AfterCons(s1, Run(Plain), [Run(Plain), Run(Plain)]);
    AfterCons(s, Raise, [Run(Plain), Run(Plain), Run(Plain)]);
    assert [Run(Plain)] + [] == [Run(Plain)];
    assert [Run(Plain)] + [Run(Plain)] == [Run(Plain), Run(Plain)];
    assert [Run(Plain)] + [Run(Plain), Run(Plain)] == [Run(Plain), Run(Plain), Run(Plain)];
    assert [Raise] + [Run(Plain), Run(Plain), Run(Plain)] == [Raise, Run(Plain), Run(Plain), Run(Plain)];
  }

  lemma AfterCons(s: State, a: Action, acts: seq<Action>)
    requires Enabled(s, a)
    ensures After(s, [a] + acts) == After(Step(s, a), acts)
  {
    assert ([a] + acts)[1..] == acts;
  }

  /** An up that finds the thread blocked for want of one count leaves nothing uncovered. */
  lemma UpCovers(s0: State, acts: seq<Action>, s: State)
    requires Init(s0) && After(s0, acts) == Some(s) && s.pc == Down && Downs(s0, acts) == |s.handled| + Raises(acts) + 1
    ensures After(s0, acts + [Raise]) == Some(s.(sema := s.sema + 1))
    ensures |s.queue| == s.sema + 1 + Raising(s.cmds)
  {
    WakeUpIff(s0, acts, s);
    hide After, Downs, Raising;
    AfterAppend(s0, acts, s, Raise);
  }

  lemma {:induction false} NeverRequeued(acts: seq<Action>)
    requires Run(Requeue) !in acts
    ensures Requeues(acts) == 0
  {
    if acts != [] {
      NeverRequeued(acts[1..]);
    }
  }

  /** In a run that puts no command back, a thread blocked with commands waiting is about to be woken. */
  lemma NoLostWakeUp(s0: State, acts: seq<Action>, s: State)
    requires Init(s0) && After(s0, acts) == Some(s) && s.pc == Down && Run(Requeue) !in acts
    ensures |s.queue| <= s.sema + Raising(s.cmds)
  {
    WakeUpsMissing(s0, acts, s);
    NeverRequeued(acts);
  }

  // ----- Two runs -----

  /** A command with a payload, and nobody waiting for it. */
  const SAMPLE := Cmd(Fresh, false, false, true, true, true, true, false, false, false, true, false)

  function Fresh0(lclk: bool): State {
    State([], [], 0, false, false, true, lclk, Nobody, Start, [], [], {})
  }

  lemma {:induction false} AfterAppend(s: State, xs: seq<Action>, n: State, a: Action)
    requires After(s, xs) == Some(n) && Enabled(n, a)
    ensures After(s, xs + [a]) == Some(Step(n, a))
    decreases |xs|
  {
    if xs == [] {
      assert xs + [a] == [a] && [a][1..] == [];
    } else {
      hide Step, Enabled;
      assert (xs + [a])[1..] == xs[1..] + [a];
      AfterAppend(Step(s, xs[0]), xs[1..], n, a);
    }
  }

  lemma Go(s0: State, acts: seq<Action>, s: State, a: Action) returns (acts': seq<Action>, n: State)
    requires After(s0, acts) == Some(s) && Enabled(s, a)
    ensures After(s0, acts') == Some(n) && n == Step(s, a)
  {
    acts', n := acts + [a], Step(s, a);
    AfterAppend(s0, acts, s, a);
  }

  /** The thread waits; one submitter has passed the filter. */
  lemma PassedRun(lclk: bool) returns (acts: seq<Action>, s: State)
    ensures After(Fresh0(lclk), acts) == Some(s)
    ensures s == Fresh0(lclk).(cmds := [SAMPLE.(sub := Passed)], running := true, pc := Down)
  {
    hide After;
    var s0 := Fresh0(lclk);
    EmptyRun(s0);
    acts, s := Go(s0, [], s0, Submit(SAMPLE));
    acts, s := Go(s0, acts, s, Run(Plain));
    acts, s := Go(s0, acts, s, Filter(0));
  }

  /** The filter and the insertion are not one step: a submitter between them outlives the thread and its payload leaks. */
  lemma LeakyRun() returns (acts: seq<Action>, s: State)
    ensures After(Fresh0(false), acts) == Some(s) && s.pc == Dead
    ensures |s.cmds| == 1 && s.cmds[0].sub == Returned && s.cmds[0].payload && s.queue == [0]
  {
    hide After;
    var s0 := Fresh0(false);
    acts, s := PassedRun(false);
    acts, s := Go(s0, acts, s, Run(Interrupted));
    acts, s := Go(s0, acts, s, Run(Plain));
    acts, s := Go(s0, acts, s, Run(Plain));
    acts, s := Go(s0, acts, s, Insert(0));
    acts, s := Go(s0, acts, s, Up(0));
  }

  /** The thread has taken the only command there is, and the only count of the semaphore with it. */
  lemma TakenRun(lclk: bool) returns (acts: seq<Action>, s: State)
    ensures After(Fresh0(lclk), acts) == Some(s)
    ensures s == Fresh0(lclk).(cmds := [SAMPLE.(sub := Returned)], running := true, inserted := [0], pc := Busy(0, Dispatch))
  {
    hide After;
    var s0 := Fresh0(lclk);
    acts, s := QueuedRun(lclk);
    acts, s := Go(s0, acts, s, Run(Plain));
    acts, s := Go(s0, acts, s, Run(Plain));
    acts, s := Go(s0, acts, s, Run(Plain));
    acts, s := Go(s0, acts, s, Run(Plain));
    acts, s := Go(s0, acts, s, Run(Plain));
  }

  lemma QueuedRun(lclk: bool) returns (acts: seq<Action>, s: State)
    ensures After(Fresh0(lclk), acts) == Some(s)
    ensures s == Fresh0(lclk).(cmds := [SAMPLE.(sub := Returned)], running := true, pc := Down, queue := [0], inserted := [0], sema := 1)
  {
    hide After;
    acts, s := PassedRun(lclk);
    acts, s := Go(Fresh0(lclk), acts, s, Insert(0));
    acts, s := Go(Fresh0(lclk), acts, s, Up(0));
  }

  /** With re-queueing the thread goes back to the semaphore while the command it took a count for is queued again. */
  lemma LostWakeUpRun() returns (acts: seq<Action>, s: State)
    ensures After(Fresh0(true), acts) == Some(s) && s.pc == Down
    ensures |s.queue| > s.sema + Raising(s.cmds)
  {
    hide After;
    var s0 := Fresh0(true);
    acts, s := TakenRun(true);
    acts, s := Go(s0, acts, s, Run(Plain));
    acts, s := Go(s0, acts, s, Run(Requeue));
    assert Raising(s.cmds) == 0 by { assert s.cmds[1..] == []; }
  }

  lemma EmptyRun(s: State)
    ensures After(s, []) == Some(s)
  {
  }
}
