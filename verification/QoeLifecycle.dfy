/** What the lifecycle labels and the missing first frame say of the rows of a play so far. */
module QoeLifecycle {
  import opened Labels
  import opened TimeWindows
  import opened QoeConditions
  import opened QoeStep
  import opened QoeLaws
  import opened QoeHistory

  // ---------- what the marks remember ----------

  type Test = Row -> bool

  /** t is the time of the first row before k that passes p and has a time; 0 when there is none. */
  ghost predicate FirstOf(rows: seq<Row>, k: nat, p: Test, t: Time)
    requires k <= |rows|
  {
    if t == 0 then forall i :: 0 <= i < k && p(rows[i]) ==> rows[i].now == 0
    else exists i :: 0 <= i < k && IsFirst(rows, i, p) && rows[i].now == t
  }

  ghost predicate IsFirst(rows: seq<Row>, i: int, p: Test) {
    0 <= i < |rows| && p(rows[i]) && rows[i].now != 0 && forall j :: 0 <= j < i && p(rows[j]) ==> rows[j].now == 0
  }

  /** t is what f says of the last row before k that passes p; 0 when there is none. */
  ghost predicate LastOf(rows: seq<Row>, k: nat, p: Test, f: Row -> Time, t: Time)
    requires k <= |rows|
  {
    if t == 0 then forall i :: IsLast(rows, i, k, p) ==> f(rows[i]) == 0
    else exists i :: IsLast(rows, i, k, p) && f(rows[i]) == t
  }

  ghost predicate IsLast(rows: seq<Row>, i: int, k: nat, p: Test) {
    0 <= i < k <= |rows| && p(rows[i]) && forall j :: i < j < k ==> !p(rows[j])
  }

  lemma FirstNext(rows: seq<Row>, k: nat, p: Test, t: Time)
    requires k < |rows| && FirstOf(rows, k, p, t)
    ensures FirstOf(rows, k + 1, p, if t == 0 && p(rows[k]) then rows[k].now else t)
  {
    if t == 0 && p(rows[k]) && rows[k].now != 0 {
      assert IsFirst(rows, k, p);
    }
  }

  lemma LastNext(rows: seq<Row>, k: nat, p: Test, f: Row -> Time, t: Time)
    requires k < |rows| && LastOf(rows, k, p, f, t)
    ensures LastOf(rows, k + 1, p, f, if p(rows[k]) then f(rows[k]) else t)
  {
    if p(rows[k]) {
      assert IsLast(rows, k, k + 1, p);
    } else {
      forall i ensures IsLast(rows, i, k + 1, p) <==> IsLast(rows, i, k, p) {
      }
    }
  }

  // ---------- the marks of the labeller ----------

  predicate Shown(r: Row) {
    r.event == VideoFirstFrame || r.event == VideoStartTime || r.videoFirstFrameTimeS > 0.0 || r.videoStartTimeS > 0.0
  }

  function IsEvent(a: LastEvent, b: LastEvent): Test {
    (r: Row) => r.event == a || r.event == b
  }

  function TimeOf(start: LastEvent): Row -> Time {
    (r: Row) => if r.event == start then r.now else 0
  }

  function Alive(): Test {
    (r: Row) => !r.Terminal()
  }

  /** The marks after a row. */
  predicate MarksLaw(m: Marks, r: Row, n: Marks) {
    && n.firstFrame == (if m.firstFrame == 0 && Shown(r) then r.now else m.firstFrame)
    && n.lastTimejump == (if r.event == Jumped then r.now else m.lastTimejump)
    && n.stallStart == (if r.event == StallStart || r.event == StallEnd then TimeOf(StallStart)(r) else m.stallStart)
    && n.bufferingStart == (if r.event == BufferingStart || r.event == BufferingEnd then TimeOf(BufferingStart)(r) else m.bufferingStart)
    && n.openTime == (if m.openTime == 0 && !r.Terminal() then r.now else m.openTime)
  }

  lemma PairedMarks(m: Marks, r: Row)
    ensures MarksLaw(m, r, Paired(Signalled(m, r), r).(openTime := if m.openTime == 0 && !r.Terminal() then r.now else m.openTime))
    ensures Paired(Signalled(m, r), r).openTime == m.openTime
  {
  }

  lemma StepMarks(cfg: Thresholds, s: PlayState, r: Row, p: Marks)
    requires p == Paired(Signalled(s.marks, r), r)
    ensures var n := Step(cfg, s, r).state.marks;
            n == if Stray(s.(marks := p), r) then p else MarksAfter(p, r)
  {
  }

  lemma MarksHold(cfg: Thresholds, s: PlayState, r: Row)
    ensures MarksLaw(s.marks, r, Step(cfg, s, r).state.marks)
  {
    PairedMarks(s.marks, r);
    StepMarks(cfg, s, r, Paired(Signalled(s.marks, r), r));
  }

  lemma LifecycleHolds(cfg: Thresholds, s: PlayState, r: Row)
    ensures Step(cfg, s, r).lifecycle == LifecycleLabels(Signalled(s.marks, r), r)
  {
  }

  ghost predicate KeepsMarks(step: Stepper) {
    forall s: PlayState, r {:trigger MarksLaw(s.marks, r, step(s, r).state.marks)} :: MarksLaw(s.marks, r, step(s, r).state.marks)
  }

  lemma LabellerKeepsMarks(cfg: Thresholds, step: Stepper)
    requires IsLabeller(cfg, step)
    ensures KeepsMarks(step)
  {
    forall s: PlayState, r ensures MarksLaw(s.marks, r, step(s, r).state.marks) {
      assert JudgesBy(cfg, step, s, r);
      MarksHold(cfg, s, r);
    }
  }

  lemma MarksOn(step: Stepper, rows: seq<Row>, k: nat)
    requires KeepsMarks(step) && k < |rows|
    ensures MarksLaw(After(step, rows, k).marks, rows[k], After(step, rows, k + 1).marks)
  {
    assert MarksLaw(After(step, rows, k).marks, rows[k], step(After(step, rows, k), rows[k]).state.marks);
  }

  lemma SaidOn(cfg: Thresholds, step: Stepper, rows: seq<Row>, k: nat)
    requires IsLabeller(cfg, step) && k < |rows|
    ensures On(step, rows, k).lifecycle == LifecycleLabels(Signalled(After(step, rows, k).marks, rows[k]), rows[k])
  {
    assert JudgesBy(cfg, step, After(step, rows, k), rows[k]);
    LifecycleHolds(cfg, After(step, rows, k), rows[k]);
  }

  lemma {:induction false} FirstFrameFollows(step: Stepper, rows: seq<Row>, k: nat)
    requires KeepsMarks(step) && k <= |rows|
    ensures FirstOf(rows, k, Shown, After(step, rows, k).marks.firstFrame)
  {
    if k > 0 {
      FirstFrameFollows(step, rows, k - 1);
      MarksOn(step, rows, k - 1);
      FirstNext(rows, k - 1, Shown, After(step, rows, k - 1).marks.firstFrame);
    }
  }

  lemma {:induction false} OpenTimeFollows(step: Stepper, rows: seq<Row>, k: nat)
    requires KeepsMarks(step) && k <= |rows|
    ensures FirstOf(rows, k, Alive(), After(step, rows, k).marks.openTime)
  {
    if k > 0 {
      OpenTimeFollows(step, rows, k - 1);
      MarksOn(step, rows, k - 1);
      FirstNext(rows, k - 1, Alive(), After(step, rows, k - 1).marks.openTime);
    }
  }

  lemma {:induction false} JumpFollows(step: Stepper, rows: seq<Row>, k: nat)
    requires KeepsMarks(step) && k <= |rows|
    ensures LastOf(rows, k, IsEvent(Jumped, Jumped), TimeOf(Jumped), After(step, rows, k).marks.lastTimejump)
  {
    if k > 0 {
      JumpFollows(step, rows, k - 1);
      MarksOn(step, rows, k - 1);
      LastNext(rows, k - 1, IsEvent(Jumped, Jumped), TimeOf(Jumped), After(step, rows, k - 1).marks.lastTimejump);
    }
  }

  lemma {:induction false} StallStartFollows(step: Stepper, rows: seq<Row>, k: nat)
    requires KeepsMarks(step) && k <= |rows|
    ensures LastOf(rows, k, IsEvent(StallStart, StallEnd), TimeOf(StallStart), After(step, rows, k).marks.stallStart)
  {
    if k > 0 {
      StallStartFollows(step, rows, k - 1);
      MarksOn(step, rows, k - 1);
      LastNext(rows, k - 1, IsEvent(StallStart, StallEnd), TimeOf(StallStart), After(step, rows, k - 1).marks.stallStart);
    }
  }

  lemma {:induction false} BufferingStartFollows(step: Stepper, rows: seq<Row>, k: nat)
    requires KeepsMarks(step) && k <= |rows|
    ensures LastOf(rows, k, IsEvent(BufferingStart, BufferingEnd), TimeOf(BufferingStart), After(step, rows, k).marks.bufferingStart)
  {
    if k > 0 {
      BufferingStartFollows(step, rows, k - 1);
      MarksOn(step, rows, k - 1);
      LastNext(rows, k - 1, IsEvent(BufferingStart, BufferingEnd), TimeOf(BufferingStart),
               After(step, rows, k - 1).marks.bufferingStart);
    }
  }

  // ---------- stalls and rebuffering ----------

  /** Row k ends what row j started: no other start or end lies between. */
  ghost predicate Pairs(rows: seq<Row>, j: int, k: nat, start: LastEvent, end: LastEvent) {
    && 0 <= j < k < |rows| && rows[j].event == start && rows[j].now != 0
    && forall i :: j < i < k ==> rows[i].event != start && rows[i].event != end
  }

  /** How long the interruption that ends on row k lasted: as reported, or since the row that started it. */
  ghost predicate Lasted(rows: seq<Row>, k: nat, reportedMs: nat, start: LastEvent, end: LastEvent, d: int)
    requires k < |rows|
  {
    if reportedMs > 0 then d == reportedMs * 1_000_000
    else exists j :: Pairs(rows, j, k, start, end) && d == rows[k].now - rows[j].now
  }

  /** The first frame came at most ten seconds before row k, or on it. */
  ghost predicate JustStarted(rows: seq<Row>, k: nat)
    requires k < |rows|
  {
    exists i :: 0 <= i <= k && IsFirst(rows, i, Shown) && rows[k].now - rows[i].now <= 10_000_000_000
  }

  /** The last jump in time came at most three seconds before row k, or on it. */
  ghost predicate JustJumped(rows: seq<Row>, k: nat)
    requires k < |rows|
  {
    exists i :: 0 <= i <= k && rows[i].event == Jumped && rows[i].now != 0 && rows[k].now - rows[i].now <= 3_000_000_000
                && forall j :: i < j <= k ==> rows[j].event != Jumped
  }

  /** Under a second, under three, or longer. */
  function Grade3<T>(d: int, short: T, long: T, severe: T): T {
    if d < 1_000_000_000 then short else if d < 3_000_000_000 then long else severe
  }

  function StallOf(d: int, context: Context): Label {
    Label(Grade3(d, Info, Warning, Critical), Interrupted(Stall, Grade3(d, Short, Long, Severe), context))
  }

  function BufferingOf(d: int, context: Context): Label {
    Label(if context == Scrub then Grade3(d, Info, Info, Warning) else Grade3(d, Info, Warning, Critical),
          Interrupted(Buffering, Grade3(d, Short, Long, Severe), context))
  }

  lemma StartupContext(rows: seq<Row>, k: nat, m: Marks)
    requires k < |rows| && FirstOf(rows, k, Shown, m.firstFrame)
    ensures InStartup(Signalled(m, rows[k]), rows[k].now) <==> JustStarted(rows, k)
  {
    var t := Signalled(m, rows[k]).firstFrame;
    FirstNext(rows, k, Shown, m.firstFrame);
    assert FirstOf(rows, k + 1, Shown, t);
    if JustStarted(rows, k) {
      var i :| 0 <= i <= k && IsFirst(rows, i, Shown) && rows[k].now - rows[i].now <= 10_000_000_000;
      assert t != 0;
      var j :| 0 <= j < k + 1 && IsFirst(rows, j, Shown) && rows[j].now == t;
      assert i == j;
    }
  }

  lemma ScrubContext(rows: seq<Row>, k: nat, m: Marks)
    requires k < |rows| && LastOf(rows, k, IsEvent(Jumped, Jumped), TimeOf(Jumped), m.lastTimejump)
    ensures var n := Signalled(m, rows[k]);
            n.lastTimejump != 0 && rows[k].now - n.lastTimejump <= 3 * SECOND <==> JustJumped(rows, k)
  {
    var t := Signalled(m, rows[k]).lastTimejump;
    LastNext(rows, k, IsEvent(Jumped, Jumped), TimeOf(Jumped), m.lastTimejump);
    JumpIsLast(rows, k, t);
  }

  lemma JumpIsLast(rows: seq<Row>, k: nat, t: Time)
    requires k < |rows| && LastOf(rows, k + 1, IsEvent(Jumped, Jumped), TimeOf(Jumped), t)
    ensures t != 0 && rows[k].now - t <= 3_000_000_000 <==> JustJumped(rows, k)
  {
    var p := IsEvent(Jumped, Jumped);
    if JustJumped(rows, k) {
      var i :| 0 <= i <= k && rows[i].event == Jumped && rows[i].now != 0 && rows[k].now - rows[i].now <= 3_000_000_000
                && forall j :: i < j <= k ==> rows[j].event != Jumped;
      assert IsLast(rows, i, k + 1, p);
      MarkIsLast(rows, k + 1, p, TimeOf(Jumped), t, i);
    }
    if t != 0 {
      var j :| IsLast(rows, j, k + 1, p) && TimeOf(Jumped)(rows[j]) == t;
      assert forall i :: j < i <= k ==> !p(rows[i]);
    }
  }

  lemma MarkIsLast(rows: seq<Row>, k: nat, p: Test, f: Row -> Time, t: Time, i: int)
    requires k <= |rows| && LastOf(rows, k, p, f, t) && IsLast(rows, i, k, p)
    ensures t == f(rows[i])
  {
    if t != 0 {
      var j :| IsLast(rows, j, k, p) && f(rows[j]) == t;
      assert i == j;
    }
  }

  lemma PairIsLast(rows: seq<Row>, j: int, k: nat, start: LastEvent, end: LastEvent)
    requires k < |rows| && start != end
    ensures Pairs(rows, j, k, start, end) <==> IsLast(rows, j, k, IsEvent(start, end)) && TimeOf(start)(rows[j]) != 0
  {
    var p := IsEvent(start, end);
    if IsLast(rows, j, k, p) {
      assert forall i :: j < i < k ==> !p(rows[i]);
    }
  }

  lemma PairIsMark(rows: seq<Row>, k: nat, start: LastEvent, end: LastEvent, t: Time)
    requires k < |rows| && start != end && LastOf(rows, k, IsEvent(start, end), TimeOf(start), t)
    ensures forall j :: Pairs(rows, j, k, start, end) ==> rows[j].now == t
    ensures t != 0 ==> exists j :: Pairs(rows, j, k, start, end)
  {
    forall j | Pairs(rows, j, k, start, end) ensures rows[j].now == t {
      PairIsLast(rows, j, k, start, end);
      MarkIsLast(rows, k, IsEvent(start, end), TimeOf(start), t, j);
    }
    if t != 0 {
      var i :| IsLast(rows, i, k, IsEvent(start, end)) && TimeOf(start)(rows[i]) == t;
      PairIsLast(rows, i, k, start, end);
    }
  }

  lemma DurationMeans(rows: seq<Row>, k: nat, reportedMs: u32, start: LastEvent, end: LastEvent, t: Time, d: int)
    requires k < |rows| && start != end && LastOf(rows, k, IsEvent(start, end), TimeOf(start), t)
    requires d != 0
    ensures d == Duration(reportedMs, t, rows[k].now) <==> Lasted(rows, k, reportedMs, start, end, d)
  {
    PairIsMark(rows, k, start, end, t);
  }

  lemma LifecycleOn(cfg: Thresholds, step: Stepper, rows: seq<Row>, k: nat, l: Label)
    requires IsLabeller(cfg, step) && k < |rows| && !IsLevel(l.event) && !IsClosing(l.event)
    ensures l in On(step, rows, k).All() <==> l in LifecycleLabels(Signalled(After(step, rows, k).marks, rows[k]), rows[k])
  {
    SaidOn(cfg, step, rows, k);
    LabellerIsLawful(cfg, step);
    assert LevelLaw(On(step, rows, k));
  }

  /** A row that ends a stall of positive length carries the label of that length, and whether playback had just
      started; no other label of an interruption. */
  ghost predicate StallSaid(rows: seq<Row>, k: nat, l: Label)
    requires k < |rows|
  {
    exists d :: d > 0 && Lasted(rows, k, rows[k].stallDurationMs, StallStart, StallEnd, d)
                && l == StallOf(d, if JustStarted(rows, k) then Startup else Midplay)
  }

  lemma StallsMean(cfg: Thresholds, step: Stepper, rows: seq<Row>, k: nat, l: Label)
    requires IsLabeller(cfg, step) && k < |rows| && rows[k].event == StallEnd && l.event.Interrupted?
    ensures l in On(step, rows, k).All() <==> StallSaid(rows, k, l)
  {
    LifecycleOn(cfg, step, rows, k, l);
    LabellerKeepsMarks(cfg, step);
    FirstFrameFollows(step, rows, k);
    StallStartFollows(step, rows, k);
    StallSaidBy(rows, k, After(step, rows, k).marks, l);
  }

  lemma StallLabels(m: Marks, r: Row, d: int, context: Context)
    requires r.event == StallEnd && d == Duration(r.stallDurationMs, m.stallStart, r.now)
    requires context == if InStartup(m, r.now) then Startup else Midplay
    ensures LifecycleLabels(m, r) == if d > 0 then [StallOf(d, context)] else []
  {
  }

  lemma StallSaidBy(rows: seq<Row>, k: nat, m: Marks, l: Label)
    requires k < |rows| && rows[k].event == StallEnd && FirstOf(rows, k, Shown, m.firstFrame)
    requires LastOf(rows, k, IsEvent(StallStart, StallEnd), TimeOf(StallStart), m.stallStart)
    ensures l in LifecycleLabels(Signalled(m, rows[k]), rows[k]) <==> StallSaid(rows, k, l)
  {
    var r := rows[k];
    var d := Duration(r.stallDurationMs, m.stallStart, r.now);
    StartupContext(rows, k, m);
    StallLabels(Signalled(m, r), r, d, if JustStarted(rows, k) then Startup else Midplay);
    if d > 0 {
      DurationMeans(rows, k, r.stallDurationMs, StallStart, StallEnd, m.stallStart, d);
    }
    if StallSaid(rows, k, l) {
      var e :| e > 0 && Lasted(rows, k, r.stallDurationMs, StallStart, StallEnd, e)
               && l == StallOf(e, if JustStarted(rows, k) then Startup else Midplay);
      DurationMeans(rows, k, r.stallDurationMs, StallStart, StallEnd, m.stallStart, e);
    }
  }

  /** The same for rebuffering, which a recent jump excuses and which in the middle of play counts as a stall. */
  ghost predicate BufferingSaid(rows: seq<Row>, k: nat, l: Label)
    requires k < |rows|
  {
    exists d :: d > 0 && Lasted(rows, k, rows[k].bufferingDurationMs, BufferingStart, BufferingEnd, d)
                && l == if JustStarted(rows, k) then BufferingOf(d, Startup)
                        else if JustJumped(rows, k) then BufferingOf(d, Scrub) else StallOf(d, Midplay)
  }

  lemma BufferingMeans(cfg: Thresholds, step: Stepper, rows: seq<Row>, k: nat, l: Label)
    requires IsLabeller(cfg, step) && k < |rows| && rows[k].event == BufferingEnd && l.event.Interrupted?
    ensures l in On(step, rows, k).All() <==> BufferingSaid(rows, k, l)
  {
    LifecycleOn(cfg, step, rows, k, l);
    LabellerKeepsMarks(cfg, step);
    FirstFrameFollows(step, rows, k);
    JumpFollows(step, rows, k);
    BufferingStartFollows(step, rows, k);
    BufferingSaidBy(rows, k, After(step, rows, k).marks, l);
  }

  lemma BufferingLabels(m: Marks, r: Row, d: int, started: bool, jumped: bool)
    requires r.event == BufferingEnd && d == Duration(r.bufferingDurationMs, m.bufferingStart, r.now)
    requires started == InStartup(m, r.now)
    requires jumped == (m.lastTimejump != 0 && r.now - m.lastTimejump <= 3 * SECOND)
    ensures LifecycleLabels(m, r)
            == if d <= 0 then [] else if started then [BufferingOf(d, Startup)]
               else if jumped then [BufferingOf(d, Scrub)] else [StallOf(d, Midplay)]
  {
  }

  lemma BufferingSaidBy(rows: seq<Row>, k: nat, m: Marks, l: Label)
    requires k < |rows| && rows[k].event == BufferingEnd && FirstOf(rows, k, Shown, m.firstFrame)
    requires LastOf(rows, k, IsEvent(Jumped, Jumped), TimeOf(Jumped), m.lastTimejump)
    requires LastOf(rows, k, IsEvent(BufferingStart, BufferingEnd), TimeOf(BufferingStart), m.bufferingStart)
    ensures l in LifecycleLabels(Signalled(m, rows[k]), rows[k]) <==> BufferingSaid(rows, k, l)
  {
    var r := rows[k];
    var d := Duration(r.bufferingDurationMs, m.bufferingStart, r.now);
    StartupContext(rows, k, m);
    ScrubContext(rows, k, m);
    BufferingLabels(Signalled(m, r), r, d, JustStarted(rows, k), JustJumped(rows, k));
    if d > 0 {
      DurationMeans(rows, k, r.bufferingDurationMs, BufferingStart, BufferingEnd, m.bufferingStart, d);
    }
    if BufferingSaid(rows, k, l) {
      var e :| e > 0 && Lasted(rows, k, r.bufferingDurationMs, BufferingStart, BufferingEnd, e)
               && l == if JustStarted(rows, k) then BufferingOf(e, Startup)
                       else if JustJumped(rows, k) then BufferingOf(e, Scrub) else StallOf(e, Midplay);
      DurationMeans(rows, k, r.bufferingDurationMs, BufferingStart, BufferingEnd, m.bufferingStart, e);
    }
  }

  // ---------- the other signals ----------

  ghost predicate Says(step: Stepper, rows: seq<Row>, k: nat, sev: Severity, event: Event)
    requires k < |rows|
  {
    On(step, rows, k).lifecycle == [Label(sev, event)]
  }

  /** The one label of each signal, and its severity. */
  lemma SignalsMean(cfg: Thresholds, step: Stepper, rows: seq<Row>, k: nat)
    requires IsLabeller(cfg, step) && k < |rows|
    ensures rows[k].event == RateShiftUp ==> Says(step, rows, k, Info, Lifecycle(ShiftUp))
    ensures rows[k].event == RateShiftDown ==> Says(step, rows, k, Info, Lifecycle(ShiftDown))
    ensures rows[k].event == VideoFirstFrame ==> Says(step, rows, k, Info, Lifecycle(FirstFrame))
    ensures rows[k].event == PlayOpened ==> Says(step, rows, k, Info, Lifecycle(PlayStart))
    ensures rows[k].event == Jumped ==> Says(step, rows, k, Warning, Lifecycle(Timejump))
    ensures rows[k].event == SegmentStall ==> Says(step, rows, k, Warning, Lifecycle(StallSegment))
    ensures rows[k].event == LiveResynced ==> Says(step, rows, k, Warning, Lifecycle(LiveResync))
    ensures rows[k].event == Frozen ==> Says(step, rows, k, Critical, Lifecycle(StallFrozen))
    ensures rows[k].event == Marked ==> Says(step, rows, k, Critical, Lifecycle(UserMarked))
    ensures rows[k].event == Stuck ==> Says(step, rows, k, Error, Lifecycle(PlayerStuck))
    ensures rows[k].event == Wedged ==> Says(step, rows, k, Error, Lifecycle(WedgeDetected))
    ensures rows[k].event == Failed ==> Says(step, rows, k, Error, Lifecycle(PlayerError))
  {
    SaidOn(cfg, step, rows, k);
  }

  /** A restart is a warning when the user asked for it, harmless when it is a reload, and critical otherwise; the
      other rows have no lifecycle label. */
  lemma RestartsMean(cfg: Thresholds, step: Stepper, rows: seq<Row>, k: nat)
    requires IsLabeller(cfg, step) && k < |rows|
    ensures rows[k].event == Restart(UserRetry) ==> Says(step, rows, k, Warning, Restarted(UserRetry))
    ensures rows[k].event == Restart(Reload) ==> Says(step, rows, k, Info, Restarted(Reload))
    ensures forall reason :: rows[k].event == Restart(reason) && reason != UserRetry && reason != Reload ==>
              Says(step, rows, k, Critical, Restarted(reason))
    ensures rows[k].event in {VideoStartTime, StallStart, BufferingStart, SessionEnd, PlayEnd, OtherEvent} ==>
              On(step, rows, k).lifecycle == []
  {
    SaidOn(cfg, step, rows, k);
  }
}
