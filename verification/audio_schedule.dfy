/**
 The thread ids that the audio server has reported to the resource scheduler, kept so that they can
 be reported again when the scheduler service restarts after a crash.
 */
module AudioSchedule {

  const AUDIO_QOS_LEVEL := 7
  const DEFAULT_QOS_LEVEL := -1

  /** One report to the scheduler service about a thread of the audio server. */
  datatype Report = Report(pid: nat, tid: nat, qosLevel: int)

  /** The threads that the service boosts after it received a report. */
  function Receive(boosted: set<nat>, r: Report): set<nat> {
    if r.qosLevel == AUDIO_QOS_LEVEL then boosted + {r.tid} else boosted - {r.tid}
  }

  function ReceiveAll(boosted: set<nat>, rs: seq<Report>): set<nat> {
    if rs == [] then boosted else Receive(ReceiveAll(boosted, rs[..|rs| - 1]), rs[|rs| - 1])
  }

  /** Reports that boost each thread of a set once, in any order. */
  ghost predicate Replays(rs: seq<Report>, pid: nat, tids: set<nat>) {
    && (forall i | 0 <= i < |rs| :: rs[i] == Report(pid, rs[i].tid, AUDIO_QOS_LEVEL) && rs[i].tid in tids)
    && (forall i, j | 0 <= i < j < |rs| :: rs[i].tid != rs[j].tid)
    && (forall t | t in tids :: Report(pid, t, AUDIO_QOS_LEVEL) in rs)
  }

  lemma {:induction false} ReceiveBoosts(boosted: set<nat>, rs: seq<Report>)
    requires forall i | 0 <= i < |rs| :: rs[i].qosLevel == AUDIO_QOS_LEVEL
    ensures ReceiveAll(boosted, rs) == boosted + set i | 0 <= i < |rs| :: rs[i].tid
  {
    if rs != [] {
      ReceiveBoosts(boosted, rs[..|rs| - 1]);
    }
  }

  lemma ReplayBoosts(boosted: set<nat>, rs: seq<Report>, pid: nat, tids: set<nat>)
    requires Replays(rs, pid, tids)
    ensures ReceiveAll(boosted, rs) == boosted + tids
  {
    ReceiveBoosts(boosted, rs);
    forall t | t in tids ensures t in set i | 0 <= i < |rs| :: rs[i].tid {
      var i :| 0 <= i < |rs| && rs[i] == Report(pid, t, AUDIO_QOS_LEVEL);
    }
  }

  class ThreadReporter {
    var tidToReport: set<nat>
    ghost var reports: seq<Report>

    constructor ()
      ensures tidToReport == {} && reports == []
    {
      tidToReport, reports := {}, [];
    }

    method ReportData(pid: nat, tid: nat, qosLevel: int)
      modifies this`reports
      ensures reports == old(reports) + [Report(pid, tid, qosLevel)]
    {
      reports := reports + [Report(pid, tid, qosLevel)];
    }

    method UnscheduleThreadInServer(pid: nat, tid: nat)
      modifies this
      ensures tidToReport == old(tidToReport) - {tid}
      ensures reports == old(reports) + [Report(pid, tid, DEFAULT_QOS_LEVEL)]
    {
      if tid in tidToReport {
        tidToReport := tidToReport - {tid};
      }
      ReportData(pid, tid, DEFAULT_QOS_LEVEL);
    }

    method ScheduleThreadInServer(pid: nat, tid: nat)
      modifies this
      ensures tidToReport == old(tidToReport) + {tid}
      ensures reports == old(reports) + [Report(pid, tid, AUDIO_QOS_LEVEL)]
    {
      if tid !in tidToReport {
        tidToReport := tidToReport + {tid};
      }
      ReportData(pid, tid, AUDIO_QOS_LEVEL);
    }

    method OnAddResSchedService(audioServerPid: nat)
      modifies this`reports
      ensures old(reports) <= reports
      ensures Replays(reports[|old(reports)|..], audioServerPid, tidToReport)
    {
      ghost var replayed: seq<Report> := [];
      var rest := tidToReport;
      while rest != {}
        invariant rest <= tidToReport
        invariant reports == old(reports) + replayed
        invariant Replays(replayed, audioServerPid, tidToReport - rest)
        decreases rest
      {
        var tid :| tid in rest;
        ReportData(audioServerPid, tid, AUDIO_QOS_LEVEL);
        replayed := replayed + [Report(audioServerPid, tid, AUDIO_QOS_LEVEL)];
        rest := rest - {tid};
      }
      assert tidToReport - rest == tidToReport;
    }
  }

  /* Runs with crashes. */

  datatype Action = Schedule(tid: nat) | Unschedule(tid: nat) | Crash | ServiceAdded

  /** What the server keeps, and what the service boosts. */
  datatype State = State(tids: set<nat>, boosted: set<nat>)

  function Next(s: State, a: Action): State {
    match a
    case Schedule(t) => State(s.tids + {t}, Receive(s.boosted, Report(0, t, AUDIO_QOS_LEVEL)))
    case Unschedule(t) => State(s.tids - {t}, Receive(s.boosted, Report(0, t, DEFAULT_QOS_LEVEL)))
    case Crash => State(s.tids, {})
    case ServiceAdded => State(s.tids, s.boosted + s.tids)
  }

  function After(run: seq<Action>): State {
    if run == [] then State({}, {}) else Next(After(run[..|run| - 1]), run[|run| - 1])
  }

  /** The latest call for a thread scheduled it. */
  ghost predicate Wanted(run: seq<Action>, t: nat) {
    exists j :: 0 <= j < |run| && run[j] == Schedule(t) && forall i | j < i < |run| :: run[i] != Unschedule(t)
  }

  /** No crash, or the service was added again since the last one. */
  predicate Recovered(run: seq<Action>) {
    run == [] || run[|run| - 1].ServiceAdded? ||
    (!run[|run| - 1].Crash? && Recovered(run[..|run| - 1]))
  }

  lemma {:induction false} KeptIffWanted(run: seq<Action>, t: nat)
    ensures t in After(run).tids <==> Wanted(run, t)
  {
    if run != [] {
      var n := |run| - 1;
      var before := run[..n];
      KeptIffWanted(before, t);
      if Wanted(before, t) && run[n] != Unschedule(t) {
        var j :| 0 <= j < n && before[j] == Schedule(t) && forall i | j < i < n :: before[i] != Unschedule(t);
        assert run[j] == Schedule(t);
      }
      if j :| 0 <= j < |run| && run[j] == Schedule(t) && forall i | j < i < |run| :: run[i] != Unschedule(t) {
        assert j < n ==> before[j] == Schedule(t);
      }
    }
  }

  /**
   Recovery. Whenever the service was added again since its last crash, it boosts exactly the threads
   whose latest call was to schedule them; at no time does it boost any other thread, and right after a
   crash it boosts none.
   */
  lemma {:induction false} BoostedIffWanted(run: seq<Action>, t: nat)
    ensures Recovered(run) ==> (t in After(run).boosted <==> Wanted(run, t))
    ensures t in After(run).boosted ==> Wanted(run, t)
    ensures run != [] && run[|run| - 1].Crash? ==> t !in After(run).boosted
  {
    KeptIffWanted(run, t);
    if run != [] {
      BoostedIffWanted(run[..|run| - 1], t);
      KeptIffWanted(run[..|run| - 1], t);
    }
  }

  /** A step of a run is what the reports of the corresponding call make of the service's threads. */
  lemma ReportsMakeStep(s: State, a: Action, pid: nat, rs: seq<Report>)
    requires a.Schedule? ==> rs == [Report(pid, a.tid, AUDIO_QOS_LEVEL)]
    requires a.Unschedule? ==> rs == [Report(pid, a.tid, DEFAULT_QOS_LEVEL)]
    requires a.ServiceAdded? ==> Replays(rs, pid, s.tids)
    requires a != Crash
    ensures ReceiveAll(s.boosted, rs) == Next(s, a).boosted
  {
    if a.ServiceAdded? {
      ReplayBoosts(s.boosted, rs, pid, s.tids);
    } else {
      assert rs[..0] == [];
      assert ReceiveAll(s.boosted, rs) == Receive(ReceiveAll(s.boosted, rs[..0]), rs[0]);
    }
  }
}
