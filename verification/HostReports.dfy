/** What the block layer is told: over whole runs, every ended request is reported once, with the
    status the device answered to its own command or as timed out. */
module HostReports {
  import opened Ring
  import opened HostProtocol
  import opened HostRuns

  /** The answers on record after a step: the device answers the oldest command it has not done. */
  function Noted(s: Host, step: Step, answers: map<nat, int>): map<nat, int> {
    if step.Execute? && |s.hist.done| < |s.reqs| then answers[s.reqs[|s.hist.done|] := step.status] else answers
  }

  /** What the device answered during a run, by request. */
  function Answers(s: Host, steps: seq<Step>, answers: map<nat, int>): map<nat, int>
    requires Legal(s, steps)
    decreases |steps|
  {
    if steps == [] then answers else Answers(Next(s, steps[0]), steps[1..], Noted(s, steps[0], answers))
  }

  /** Published commands belong to different requests, and those done to the answers on record. */
  ghost predicate OnRecord(reqs: seq<nat>, done: seq<Cqe>, accepted: set<nat>, answers: map<nat, int>) {
    && |done| <= |reqs|
    && (forall i, j :: 0 <= i < j < |reqs| ==> reqs[i] != reqs[j])
    && (forall i :: 0 <= i < |reqs| ==> reqs[i] in accepted)
    && (forall q :: q in answers ==> q in accepted)
    && (forall i :: 0 <= i < |done| ==> reqs[i] in answers && answers[reqs[i]] == done[i].status)
    && (forall i :: |done| <= i < |reqs| ==> reqs[i] !in answers)
  }

  lemma SubmitOnRecord(reqs: seq<nat>, done: seq<Cqe>, accepted: set<nat>, answers: map<nat, int>, q: nat)
    requires OnRecord(reqs, done, accepted, answers) && q !in accepted
    ensures OnRecord(reqs + [q], done, accepted + {q}, answers)
  {
  }

  lemma ExecuteOnRecord(reqs: seq<nat>, done: seq<Cqe>, accepted: set<nat>, answers: map<nat, int>, cqe: Cqe)
    requires OnRecord(reqs, done, accepted, answers) && |done| < |reqs|
    ensures OnRecord(reqs, done + [cqe], accepted, answers[reqs[|done|] := cqe.status])
  {
  }

  /** Ended requests are the reported ones, each with an answer on record or as timed out. */
  ghost predicate Told(reports: map<nat, BlkStatus>, ended: multiset<nat>, answers: map<nat, int>) {
    && (forall q :: q in reports <==> q in ended)
    && forall q :: q in reports ==> reports[q] == StsTimeout || (q in answers && reports[q] == BlkStatusOf(answers[q]))
  }

  lemma ToldEnd(reports: map<nat, BlkStatus>, ended: multiset<nat>, answers: map<nat, int>, q: nat, report: BlkStatus)
    requires Told(reports, ended, answers) && (report == StsTimeout || (q in answers && report == BlkStatusOf(answers[q])))
    ensures Told(reports[q := report], ended + multiset{q}, answers)
  {
  }

  lemma ToldAnswer(reports: map<nat, BlkStatus>, ended: multiset<nat>, answers: map<nat, int>, q: nat, status: int)
    requires Told(reports, ended, answers) && q !in answers
    ensures Told(reports, ended, answers[q := status])
  {
  }

  ghost predicate ReportsOk(s: Host, answers: map<nat, int>) {
    OnRecord(s.reqs, s.hist.done, s.accepted, answers) && Told(s.reports, s.ended, answers)
  }

  lemma SubmitReports(s: Host, step: Step, answers: map<nat, int>)
    requires Shape(s) && Enabled(s, step) && step.Submit? && ReportsOk(s, answers)
    ensures ReportsOk(Next(s, step), answers)
  {
    SubmitOnRecord(s.reqs, s.hist.done, s.accepted, answers, step.rq);
  }

  lemma ExecuteReports(s: Host, status: int, answers: map<nat, int>)
    requires Shape(s) && Enabled(s, Execute(status)) && |s.reqs| == |s.hist.cmds| && ReportsOk(s, answers)
    ensures ReportsOk(Next(s, Execute(status)), Noted(s, Execute(status), answers))
  {
    ExecuteOnRecord(s.reqs, s.hist.done, s.accepted, answers, NextCqe(s.hist, status, s.Depth()));
    ToldAnswer(s.reports, s.ended, answers, s.reqs[|s.hist.done|], status);
  }

  lemma FinishReports(s: Host, answers: map<nat, int>)
    requires Shape(s) && Enabled(s, Finish) && TagsOk(s) && OwnersOk(s) && ReportsOk(s, answers)
    ensures ReportsOk(Next(s, Finish), answers)
  {
    assert s.reqs[s.hist.read] == s.drain.rq && s.hist.done[s.hist.read].status == s.drain.status;
    ToldEnd(s.reports, s.ended, answers, s.drain.rq, BlkStatusOf(s.drain.status));
  }

  lemma SweepReports(s: Host, answers: map<nat, int>)
    requires Shape(s) && Enabled(s, SweepFinish) && ReportsOk(s, answers)
    ensures ReportsOk(Next(s, SweepFinish), answers)
  {
    ToldEnd(s.reports, s.ended, answers, s.sweep.rq, StsTimeout);
  }

  lemma OtherReports(s: Host, step: Step, answers: map<nat, int>)
    requires Shape(s) && Enabled(s, step) && !step.Submit? && !step.Execute? && !step.Finish? && !step.SweepFinish?
    requires ReportsOk(s, answers)
    ensures ReportsOk(Next(s, step), answers)
  {
  }

  lemma StepReports(s: Host, step: Step, answers: map<nat, int>)
    requires HostOk(s) && Enabled(s, step) && ReportsOk(s, answers)
    ensures ReportsOk(Next(s, step), Noted(s, step, answers))
  {
    match step
    case Submit(_, _, _, _) => SubmitReports(s, step, answers);
    case Execute(status) => ExecuteReports(s, status, answers);
    case Finish => FinishReports(s, answers);
    case SweepFinish => SweepReports(s, answers);
    case _ => OtherReports(s, step, answers);
  }

  lemma {:induction false} RunKeepsReports(s: Host, steps: seq<Step>, answers: map<nat, int>)
    requires HostOk(s) && Legal(s, steps) && ReportsOk(s, answers)
    ensures ReportsOk(After(s, steps), Answers(s, steps, answers))
    decreases |steps|
  {
    if steps != [] {
      StepKeeps(s, steps[0]);
      StepReports(s, steps[0], answers);
      RunKeepsReports(Next(s, steps[0]), steps[1..], Noted(s, steps[0], answers));
    }
  }

  lemma FreshReports(depth: nat)
    requires depth >= 2
    ensures ReportsOk(FreshHost(depth), map[])
  {
  }

  lemma ToldMeans(reports: map<nat, BlkStatus>, ended: multiset<nat>, answers: map<nat, int>)
    requires Told(reports, ended, answers)
    ensures forall q :: q in reports && reports[q] != StsTimeout ==> q in answers && reports[q] == BlkStatusOf(answers[q])
    ensures forall q :: q in reports && reports[q] == StsOk ==> q in answers && answers[q] == 0
  {
  }

  /** In every run from a fresh queue, resets included: the ended requests are exactly the reported
      ones; each report is a timeout or the block status of what the device answered to that
      request's command; success is reported only if the device answered success. */
  lemma RunReports(depth: nat, steps: seq<Step>)
    requires depth >= 2 && Legal(FreshHost(depth), steps)
    ensures var s, answers := After(FreshHost(depth), steps), Answers(FreshHost(depth), steps, map[]);
            && (forall q :: q in s.reports <==> q in s.ended)
            && (forall q :: q in s.reports && s.reports[q] != StsTimeout ==> q in answers && s.reports[q] == BlkStatusOf(answers[q]))
            && (forall q :: q in s.reports && s.reports[q] == StsOk ==> q in answers && answers[q] == 0)
  {
    FreshHostOk(depth);
    FreshReports(depth);
    RunKeepsReports(FreshHost(depth), steps, map[]);
    var s, answers := After(FreshHost(depth), steps), Answers(FreshHost(depth), steps, map[]);
    ToldMeans(s.reports, s.ended, answers);
  }

  /** Counted once, a request that has ended is in nobody's hand. */
  lemma EndedOnce(accepted: set<nat>, held: multiset<nat>, hand: multiset<nat>, ended: multiset<nat>, q: nat)
    requires multiset(accepted) == held + hand + ended && q in ended
    ensures q !in hand
  {
    assert multiset(accepted)[q] <= 1;
  }

  lemma EndsInHand(s: Host, step: Step, q: nat)
    requires Shape(s) && Enabled(s, step) && q in s.reports && q !in InHand(s)
    ensures q in Next(s, step).reports && Next(s, step).reports[q] == s.reports[q]
  {
  }

  /** A report is final. */
  lemma ReportFinal(s: Host, step: Step, answers: map<nat, int>, q: nat)
    requires HostOk(s) && Enabled(s, step) && ReportsOk(s, answers) && q in s.reports
    ensures q in Next(s, step).reports && Next(s, step).reports[q] == s.reports[q]
  {
    EndedOnce(s.accepted, Tally(s.slots, Held), InHand(s), s.ended, q);
    EndsInHand(s, step, q);
  }
}
