/** Waiting for generated files and killing the command: a poller goroutine, the main
    goroutine and a timer meet over an unbuffered channel. The protocol is a state
    machine over atomic steps; theorems hold for every interleaving. */
module KillAfterFiles {

  /** What a stat call reported: another error than "not found" is not counted as missing. */
  datatype Stat = Present | Missing | OtherError

  datatype Poller = Asleep | Polling | Sending | Exited

  datatype Main = Waiting | GotOk | TimedOut | Killed(ok: bool) | Returned(ok: bool)

  datatype State = State(
    files: set<string>,     // files on disk
    poller: Poller,
    reports: seq<Stat>,     // stat results of the current or last poll, in file order
    removed: set<string>,   // files removed, and not created again, since that poll began
    main: Main,
    timerFired: bool,
    cancelled: bool,
    kills: nat,
    handovers: nat)

  datatype Step =
    | CreateFile(name: string) | RemoveFile(name: string)   // the command and its surroundings
    | Wake | StatNext(report: Stat) | EndPoll               // the poller
    | Handover                                              // the channel
    | TimerFires | TakeTimeout | Kill | Return              // the timer and the main goroutine; returning cancels

  predicate AllExist(reports: seq<Stat>) { Missing !in reports }

  function Init(files: set<string>): (s: State) {
    State(files, Asleep, [], {}, Waiting, false, false, 0, 0)
  }

  predicate Enabled(check: seq<string>, s: State, step: Step) {
    match step
    case CreateFile(_) => true
    case RemoveFile(_) => true
    case Wake => s.poller == Asleep
    case StatNext(report) =>
      && s.poller == Polling && |s.reports| < |check|
      && (report == Present ==> check[|s.reports|] in s.files)
      && (report == Missing ==> check[|s.reports|] !in s.files)
    case EndPoll => s.poller == Polling && |s.reports| == |check|
    case Handover => s.poller == Sending && s.main == Waiting
    case TimerFires => !s.timerFired
    case TakeTimeout => s.timerFired && s.main == Waiting
    case Kill => s.main in {GotOk, TimedOut}
    case Return => s.main.Killed?
  }

  function Apply(check: seq<string>, s: State, step: Step): (s': State)
    requires Enabled(check, s, step)
  {
    match step
    case CreateFile(name) => s.(files := s.files + {name}, removed := s.removed - {name})
    case RemoveFile(name) => s.(files := s.files - {name}, removed := s.removed + {name})
    case Wake => if s.cancelled then s.(poller := Exited) else s.(poller := Polling, reports := [], removed := {})
    case StatNext(report) => s.(reports := s.reports + [report])
    case EndPoll => s.(poller := if AllExist(s.reports) then Sending else Asleep)
    case Handover => s.(poller := Exited, main := GotOk, handovers := s.handovers + 1)
    case TimerFires => s.(timerFired := true)
    case TakeTimeout => s.(main := TimedOut)
    case Kill => s.(main := Killed(s.main == GotOk), kills := s.kills + 1)
    case Return => s.(main := Returned(s.main.ok), cancelled := true)
  }

  /** The steps can be taken one after the other from s. */
  ghost predicate Runs(check: seq<string>, s: State, steps: seq<Step>)
    decreases |steps|
  {
    steps == [] || (Enabled(check, s, steps[0]) && Runs(check, Apply(check, s, steps[0]), steps[1..]))
  }

  ghost function Final(check: seq<string>, s: State, steps: seq<Step>): (s': State)
    requires Runs(check, s, steps)
    decreases |steps|
  {
    if steps == [] then s else Final(check, Apply(check, s, steps[0]), steps[1..])
  }

  predicate SawOk(m: Main) { m == GotOk || ((m.Killed? || m.Returned?) && m.ok) }
  predicate AfterKill(m: Main) { m.Killed? || m.Returned? }

  ghost predicate Inv(check: seq<string>, s: State) {
    && |s.reports| <= |check|
    && (s.poller == Sending ==> |s.reports| == |check| && AllExist(s.reports))
    && s.kills == (if AfterKill(s.main) then 1 else 0)
    && s.handovers == (if SawOk(s.main) then 1 else 0)
    && (SawOk(s.main) ==> s.poller == Exited && |s.reports| == |check| && AllExist(s.reports))
    && (s.main == TimedOut || (AfterKill(s.main) && !SawOk(s.main)) ==> s.timerFired)
    && (s.cancelled <==> s.main.Returned?)
  }

  lemma {:induction false} InvHolds(check: seq<string>, s: State, steps: seq<Step>)
    requires Inv(check, s) && Runs(check, s, steps)
    ensures Inv(check, Final(check, s, steps))
    decreases |steps|
  {
    if steps != [] {
      var next := Apply(check, s, steps[0]);
      assert Inv(check, next);
      InvHolds(check, next, steps[1..]);
    }
  }

  /** On every interleaving: success is returned only after one complete poll in which no
      file was reported missing; the command is killed exactly once before either return;
      at most one ok is handed over, and none on timeout. */
  lemma ReturnsAreJustified(check: seq<string>, files: set<string>, steps: seq<Step>)
    requires Runs(check, Init(files), steps)
    ensures var s := Final(check, Init(files), steps);
            && s.kills <= 1 && s.handovers <= 1
            && (s.main == Returned(true) ==>
                  s.kills == 1 && s.handovers == 1 && |s.reports| == |check| && AllExist(s.reports))
            && (s.main == Returned(false) ==> s.kills == 1 && s.handovers == 0 && s.timerFired)
            && (s.main in {Waiting, GotOk, TimedOut} ==> s.kills == 0)
  {
    InvHolds(check, Init(files), steps);
  }

  /** A file reported present by the current or last poll is there unless it was removed since. */
  ghost predicate Backed(check: seq<string>, s: State) {
    && Inv(check, s)
    && (forall i :: 0 <= i < |s.reports| && s.reports[i] == Present && check[i] !in s.removed ==> check[i] in s.files)
  }

  lemma {:induction false} BackedHolds(check: seq<string>, s: State, steps: seq<Step>)
    requires Backed(check, s) && Runs(check, s, steps)
    ensures Backed(check, Final(check, s, steps))
    decreases |steps|
  {
    if steps != [] {
      var next := Apply(check, s, steps[0]);
      InvHolds(check, s, [steps[0]]);
      assert Final(check, s, [steps[0]]) == next;
      assert Backed(check, next);
      BackedHolds(check, next, steps[1..]);
    }
  }

  /** The last poll did not vouch for this file: stat failed for another reason than "not found", or
      the file was removed after the poll began. */
  predicate Unvouched(check: seq<string>, s: State, i: nat) {
    i < |check| && i < |s.reports| && (s.reports[i] == OtherError || check[i] in s.removed)
  }

  /** On every run, from the moment the ok arrives on and in particular at the kill: all files exist if
      and only if those exist for which the last poll did not vouch. */
  lemma FilesExistAtKillIff(check: seq<string>, files: set<string>, steps: seq<Step>)
    requires Runs(check, Init(files), steps)
    ensures var s := Final(check, Init(files), steps);
            SawOk(s.main) ==>
              ((forall f :: f in check ==> f in s.files) <==>
               (forall i :: 0 <= i < |check| && Unvouched(check, s, i) ==> check[i] in s.files))
  {
    BackedHolds(check, Init(files), steps);
    var s := Final(check, Init(files), steps);
    if SawOk(s.main) && (forall i :: 0 <= i < |check| && Unvouched(check, s, i) ==> check[i] in s.files) {
      forall f | f in check ensures f in s.files {
        var i :| 0 <= i < |check| && check[i] == f;
        assert s.reports[i] in s.reports;
        assert s.reports[i] == Present || Unvouched(check, s, i);
      }
    }
  }

  lemma {:induction false} NothingRemoved(check: seq<string>, s: State, steps: seq<Step>)
    requires Runs(check, s, steps) && s.removed == {} && forall i :: 0 <= i < |steps| ==> !steps[i].RemoveFile?
    ensures Final(check, s, steps).removed == {}
    decreases |steps|
  {
    if steps != [] {
      assert forall i :: 0 <= i < |steps| - 1 ==> steps[1..][i] == steps[i + 1];
      NothingRemoved(check, Apply(check, s, steps[0]), steps[1..]);
    }
  }

  /** Without removals only the stat errors of the last poll matter; earlier polls may fail as they like. */
  lemma FilesExistWithoutRemovalsIff(check: seq<string>, files: set<string>, steps: seq<Step>)
    requires Runs(check, Init(files), steps) && forall i :: 0 <= i < |steps| ==> !steps[i].RemoveFile?
    ensures var s := Final(check, Init(files), steps);
            && (SawOk(s.main) ==> |s.reports| == |check|)
            && (SawOk(s.main) ==>
                  ((forall f :: f in check ==> f in s.files) <==>
                   (forall i :: 0 <= i < |check| && s.reports[i] == OtherError ==> check[i] in s.files)))
  {
    InvHolds(check, Init(files), steps);
    NothingRemoved(check, Init(files), steps);
    FilesExistAtKillIff(check, files, steps);
    var s := Final(check, Init(files), steps);
    assert SawOk(s.main) ==> forall i :: 0 <= i < |check| ==> (Unvouched(check, s, i) <==> s.reports[i] == OtherError);
  }

  lemma FirstStep(check: seq<string>, s: State, step: Step, rest: seq<Step>)
    requires Enabled(check, s, step) && Runs(check, Apply(check, s, step), rest)
    ensures Runs(check, s, [step] + rest)
    ensures Final(check, s, [step] + rest) == Final(check, Apply(check, s, step), rest)
  {
    assert ([step] + rest)[1..] == rest;
  }

  /** From a poller that has one ok report the run can go through to success. */
  lemma OkGoesThrough(s: State) returns (steps: seq<Step>)
    requires s.poller == Polling && |s.reports| == 1 && s.reports[0] != Missing && s.main == Waiting
    ensures Runs(["f"], s, steps)
    ensures Final(["f"], s, steps).main == Returned(true) && Final(["f"], s, steps).files == s.files
    ensures steps == [EndPoll, Handover, Kill, Return]
  {
    var s1 := Apply(["f"], s, EndPoll);
    var s2 := Apply(["f"], s1, Handover);
    var s3 := Apply(["f"], s2, Kill);
    FirstStep(["f"], s3, Return, []);
    FirstStep(["f"], s2, Kill, [Return]);
    FirstStep(["f"], s1, Handover, [Kill, Return]);
    FirstStep(["f"], s, EndPoll, [Handover, Kill, Return]);
    assert [Return] + [] == [Return] && [Kill] + [Return] == [Kill, Return];
    assert [Handover] + [Kill, Return] == [Handover, Kill, Return];
    steps := [EndPoll] + [Handover, Kill, Return];
    assert steps == [EndPoll, Handover, Kill, Return];
  }

  /** A removal between the poll and the kill is enough: a run without any other stat error that returns
      success although the only file is gone. */
  lemma SuccessAfterRemoval() returns (steps: seq<Step>)
    ensures Runs(["f"], Init({"f"}), steps) && forall i :: 0 <= i < |steps| ==> steps[i] != StatNext(OtherError)
    ensures Final(["f"], Init({"f"}), steps).main == Returned(true) && Final(["f"], Init({"f"}), steps).files == {}
  {
    var check := ["f"];
    var s0 := Init({"f"});
    var s1 := Apply(check, s0, Wake);
    var s2 := Apply(check, s1, StatNext(Present));
    var s3 := Apply(check, s2, RemoveFile("f"));
    var rest := OkGoesThrough(s3);
    FirstStep(check, s2, RemoveFile("f"), rest);
    FirstStep(check, s1, StatNext(Present), [RemoveFile("f")] + rest);
    FirstStep(check, s0, Wake, [StatNext(Present)] + ([RemoveFile("f")] + rest));
    steps := [Wake] + ([StatNext(Present)] + ([RemoveFile("f")] + rest));
  }

  /** A stat call that fails for another reason is enough: a run without any removal that returns success
      although the only file never existed. */
  lemma SuccessAfterStatError() returns (steps: seq<Step>)
    ensures Runs(["f"], Init({}), steps)
    ensures forall i :: 0 <= i < |steps| ==> !steps[i].RemoveFile? && !steps[i].CreateFile?
    ensures Final(["f"], Init({}), steps).main == Returned(true) && Final(["f"], Init({}), steps).files == {}
  {
    var check := ["f"];
    var s0 := Init({});
    var s1 := Apply(check, s0, Wake);
    var s2 := Apply(check, s1, StatNext(OtherError));
    var rest := OkGoesThrough(s2);
    FirstStep(check, s1, StatNext(OtherError), rest);
    FirstStep(check, s0, Wake, [StatNext(OtherError)] + rest);
    steps := [Wake] + ([StatNext(OtherError)] + rest);
  }

  /** After a timeout a poller that is already sending stays blocked on the channel for good,
      and no ok is ever taken from it. */
  lemma {:induction false} LateSenderBlocksForever(check: seq<string>, s: State, steps: seq<Step>)
    requires s.poller == Sending && s.main != Waiting && Runs(check, s, steps)
    ensures Final(check, s, steps).poller == Sending && Final(check, s, steps).handovers == s.handovers
    decreases |steps|
  {
    if steps != [] { LateSenderBlocksForever(check, Apply(check, s, steps[0]), steps[1..]); }
  }

  // ---- Progress ----

  lemma {:induction false} OneStep(check: seq<string>, s: State, steps: seq<Step>, step: Step)
    requires Runs(check, s, steps) && Enabled(check, Final(check, s, steps), step)
    ensures Runs(check, s, steps + [step])
    ensures Final(check, s, steps + [step]) == Apply(check, Final(check, s, steps), step)
    decreases |steps|
  {
    if steps == [] {
      assert steps + [step] == [step] && [step][1..] == [];
      assert Runs(check, Apply(check, s, step), []);
    } else {
      assert (steps + [step])[1..] == steps[1..] + [step] && (steps + [step])[0] == steps[0];
      OneStep(check, Apply(check, s, steps[0]), steps[1..], step);
    }
  }

  lemma CanTakeTimeout(check: seq<string>, init: State, steps: seq<Step>) returns (more: seq<Step>)
    requires Runs(check, init, steps) && Final(check, init, steps).main == Waiting
    ensures forall step :: step in more ==> step in {TimerFires, TakeTimeout}
    ensures Runs(check, init, steps + more) && Final(check, init, steps + more).main == TimedOut
  {
    var run := steps;
    if !Final(check, init, steps).timerFired {
      OneStep(check, init, steps, TimerFires);
      run := steps + [TimerFires];
    }
    OneStep(check, init, run, TakeTimeout);
    more := if run == steps then [TakeTimeout] else [TimerFires, TakeTimeout];
    assert steps + more == run + [TakeTimeout];
  }

  lemma CanReturn(check: seq<string>, init: State, steps: seq<Step>) returns (more: seq<Step>)
    requires Runs(check, init, steps) && Final(check, init, steps).main != Waiting
    ensures forall step :: step in more ==> step in {Kill, Return}
    ensures Runs(check, init, steps + more)
    ensures Final(check, init, steps + more).main == Returned(SawOk(Final(check, init, steps).main))
  {
    var main := Final(check, init, steps).main;
    if main.Returned? {
      more := [];
      assert steps + more == steps;
    } else if main.Killed? {
      more := [Return];
      OneStep(check, init, steps, Return);
    } else {
      more := [Kill, Return];
      OneStep(check, init, steps, Kill);
      OneStep(check, init, steps + [Kill], Return);
      assert steps + more == steps + [Kill] + [Return];
    }
  }

  /** The waiter is never stuck: whatever has happened and whatever the poller does, timer and main goroutine
      alone can bring it to a return, with failure unless the ok had arrived. */
  lemma CanAlwaysReturn(check: seq<string>, files: set<string>, steps: seq<Step>) returns (more: seq<Step>)
    requires Runs(check, Init(files), steps)
    ensures forall step :: step in more ==> step in {TimerFires, TakeTimeout, Kill, Return}
    ensures Runs(check, Init(files), steps + more)
    ensures Final(check, Init(files), steps + more).main == Returned(SawOk(Final(check, Init(files), steps).main))
  {
    var init := Init(files);
    if Final(check, init, steps).main == Waiting {
      var first := CanTakeTimeout(check, init, steps);
      var rest := CanReturn(check, init, steps + first);
      more := first + rest;
      assert steps + more == steps + first + rest;
    } else {
      more := CanReturn(check, init, steps);
    }
  }

  lemma {:induction false} StatAll(check: seq<string>, init: State, steps: seq<Step>) returns (run: seq<Step>)
    requires Runs(check, init, steps) && TimerFires !in steps
    requires var s := Final(check, init, steps);
             && s.poller == Polling && |s.reports| <= |check| && AllExist(s.reports) && s.main == Waiting
             && forall f :: f in check ==> f in s.files
    ensures Runs(check, init, run) && TimerFires !in run
    ensures var t := Final(check, init, run);
            t.poller == Polling && |t.reports| == |check| && AllExist(t.reports) && t.main == Waiting
    decreases |check| - |Final(check, init, steps).reports|
  {
    run := steps;
    if |Final(check, init, steps).reports| < |check| {
      OneStep(check, init, steps, StatNext(Present));
      run := StatAll(check, init, steps + [StatNext(Present)]);
    }
  }

  /** Success needs no timeout: with all files there, poller and main goroutine can bring it about. */
  lemma SuccessIsReachable(check: seq<string>, files: set<string>) returns (run: seq<Step>)
    requires forall f :: f in check ==> f in files
    ensures Runs(check, Init(files), run) && TimerFires !in run
    ensures Final(check, Init(files), run).main == Returned(true)
  {
    var init := Init(files);
    OneStep(check, init, [], Wake);
    run := StatAll(check, init, [] + [Wake]);
    OneStep(check, init, run, EndPoll);
    run := run + [EndPoll];
    OneStep(check, init, run, Handover);
    run := run + [Handover];
    OneStep(check, init, run, Kill);
    run := run + [Kill];
    OneStep(check, init, run, Return);
    run := run + [Return];
  }

  /** A poll with a missing file hands nothing over: the poller sleeps and polls again, until the return is
      noticed and it exits. */
  lemma MissingFileMeansAnotherPoll(check: seq<string>, s: State)
    requires s.poller == Polling && |s.reports| == |check| && Missing in s.reports
    ensures var t := Apply(check, s, EndPoll);
            && t.poller == Asleep && t.main == s.main
            && Apply(check, t, Wake).poller == if s.cancelled then Exited else Polling
  {
  }
}
