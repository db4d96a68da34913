/** The alarm for a plan that has stopped getting anywhere, fed by the polls of the status page. */
module StallAlarm {
  import opened Wrappers

  /** What one poll sees: the collected events, the time, and whether the engine is RUNNING. */
  datatype Poll = Poll(total: int, now: real, running: bool)

  datatype State = State(lastCollected: int, lastProgressAt: real, announced: bool)

  /** What a poll reports; `quietFor` only while running. */
  datatype Report = Report(total: int, quietFor: Option<real>, stalled: bool, warned: bool)

  function Initial(now: real): State {
    State(0, now, false)
  }

  function Looked(s: State, p: Poll): State {
    if p.total != s.lastCollected || !p.running then State(p.total, p.now, false) else s
  }

  function ReportOn(s: State, p: Poll, stallAfter: real): Report {
    var t := Looked(s, p);
    var quiet := p.now - t.lastProgressAt;
    var stalled := p.running && quiet >= stallAfter;
    Report(p.total, if p.running then Some(quiet) else None, stalled, stalled && !t.announced)
  }

  function Next(s: State, p: Poll, stallAfter: real): State {
    var t := Looked(s, p);
    t.(announced := t.announced || ReportOn(s, p, stallAfter).warned)
  }

  // ---- a sequence of polls ------------------------------------------------------------------------

  /** The alarm, built at `start`, after the first n polls. */
  function At(ps: seq<Poll>, n: nat, start: real, stallAfter: real): State
    requires n <= |ps|
  {
    if n == 0 then Initial(start) else Next(At(ps, n - 1, start, stallAfter), ps[n - 1], stallAfter)
  }

  function ReportAt(ps: seq<Poll>, i: nat, start: real, stallAfter: real): Report
    requires i < |ps|
  {
    ReportOn(At(ps, i, start, stallAfter), ps[i], stallAfter)
  }

  /** Time and total of poll r; -1 stands for the construction of the alarm. */
  function TimeOf(ps: seq<Poll>, r: int, start: real): real
    requires -1 <= r < |ps|
  {
    if r < 0 then start else ps[r].now
  }

  function TotalOf(ps: seq<Poll>, r: int): int
    requires -1 <= r < |ps|
  {
    if r < 0 then 0 else ps[r].total
  }

  ghost predicate Monotone(ps: seq<Poll>, start: real) {
    forall i, j :: -1 <= i <= j < |ps| ==> TimeOf(ps, i, start) <= TimeOf(ps, j, start)
  }

  /** At every poll after r and up to i a plan was running, and nothing was collected since r. */
  ghost predicate NoProgress(ps: seq<Poll>, r: int, i: int)
    requires -1 <= r <= i < |ps|
  {
    forall k :: r < k <= i ==> ps[k].running && ps[k].total == TotalOf(ps, r)
  }

  /** The last poll up to i with progress or without a running plan, or the construction. */
  function Reference(ps: seq<Poll>, i: int): (r: int)
    requires -1 <= i < |ps|
    ensures -1 <= r <= i
    decreases i + 1
  {
    if i < 0 then -1
    else if ps[i].total != TotalOf(ps, i - 1) || !ps[i].running then i
    else Reference(ps, i - 1)
  }

  lemma {:induction false} StateAfter(ps: seq<Poll>, n: nat, start: real, stallAfter: real)
    requires n <= |ps|
    ensures var s := At(ps, n, start, stallAfter); var r := Reference(ps, n - 1);
      s.lastCollected == TotalOf(ps, n - 1) && s.lastProgressAt == TimeOf(ps, r, start)
  {
    if n > 0 {
      StateAfter(ps, n - 1, start, stallAfter);
    }
  }

  /** The reference is the earliest point since which there was no progress. */
  lemma {:induction false} ReferenceIsEarliest(ps: seq<Poll>, i: nat, r: int)
    requires -1 <= r <= i < |ps|
    ensures NoProgress(ps, r, i) <==> Reference(ps, i) <= r
    decreases i
  {
    if r == i {
    } else if i == 0 || r == i - 1 {
      assert TotalOf(ps, r) == TotalOf(ps, i - 1);
    } else {
      ReferenceIsEarliest(ps, i - 1, r);
      if NoProgress(ps, r, i - 1) {
        assert TotalOf(ps, r) == TotalOf(ps, i - 1);
        assert NoProgress(ps, r, i) <==> ps[i].running && ps[i].total == TotalOf(ps, r);
      }
    }
  }

  /** What a poll reports beside the alarm: the total it sees, and for a running plan how long ago the
      reference was. */
  lemma ReportsQuiet(ps: seq<Poll>, i: nat, start: real, stallAfter: real)
    requires i < |ps|
    ensures var r := ReportAt(ps, i, start, stallAfter);
      && r.total == ps[i].total
      && r.quietFor == if ps[i].running then Some(ps[i].now - TimeOf(ps, Reference(ps, i), start)) else None
  {
    StateAfter(ps, i, start, stallAfter);
    StateAfter(ps, i + 1, start, stallAfter);
  }

  /** Whatever the clock does: a poll finds the plan stalled exactly when one is running and the
      reference is at least `stallAfter` old by the clock. */
  lemma StalledByReference(ps: seq<Poll>, i: nat, start: real, stallAfter: real)
    requires i < |ps|
    ensures ReportAt(ps, i, start, stallAfter).stalled <==>
      ps[i].running && ps[i].now - TimeOf(ps, Reference(ps, i), start) >= stallAfter
  {
    StateAfter(ps, i, start, stallAfter);
    StateAfter(ps, i + 1, start, stallAfter);
  }

  /** A poll finds the plan stalled exactly when at every poll since some point at least
      `stallAfter` ago a plan was running and the total was still that of this point. */
  lemma StalledExactlyWhen(ps: seq<Poll>, i: nat, start: real, stallAfter: real)
    requires i < |ps| && Monotone(ps, start) && stallAfter > 0.0
    ensures ReportAt(ps, i, start, stallAfter).stalled <==>
      exists r :: -1 <= r < i && NoProgress(ps, r, i) && ps[i].now - TimeOf(ps, r, start) >= stallAfter
  {
    StalledByReference(ps, i, start, stallAfter);
    var q := Reference(ps, i);
    ReferenceIsEarliest(ps, i, q);
    forall r | -1 <= r < i && NoProgress(ps, r, i)
      ensures q <= r && ps[i].running && TimeOf(ps, q, start) <= TimeOf(ps, r, start)
    {
      ReferenceIsEarliest(ps, i, r);
    }
  }

  /** Whether poll k found the plan stalled. */
  predicate StalledAt(ps: seq<Poll>, k: nat, start: real, stallAfter: real)
    requires k < |ps|
  {
    ReportAt(ps, k, start, stallAfter).stalled
  }

  /** Whatever the clock does: the announcement stands exactly when some poll since the reference, the
      reference included, found the plan stalled. */
  lemma {:induction false} AnnouncedExactlyWhenStalledSince(ps: seq<Poll>, i: nat, start: real, stallAfter: real)
    requires i < |ps|
    ensures At(ps, i + 1, start, stallAfter).announced <==>
      exists k :: Reference(ps, i) <= k <= i && 0 <= k && StalledAt(ps, k, start, stallAfter)
  {
    StateAfter(ps, i, start, stallAfter);
    assert StalledAt(ps, i, start, stallAfter) <==> ReportAt(ps, i, start, stallAfter).stalled;
    if i > 0 && Reference(ps, i) != i {
      AnnouncedExactlyWhenStalledSince(ps, i - 1, start, stallAfter);
      assert Reference(ps, i) == Reference(ps, i - 1);
      if At(ps, i, start, stallAfter).announced {
        var k :| Reference(ps, i) <= k <= i - 1 && 0 <= k && StalledAt(ps, k, start, stallAfter);
      }
    }
  }

  /** A poll warns exactly when it finds the plan stalled and no poll before it, since the reference,
      did; no assumption on the clock or the threshold. */
  lemma WarnsExactlyWhen(ps: seq<Poll>, i: nat, start: real, stallAfter: real)
    requires i < |ps|
    ensures ReportAt(ps, i, start, stallAfter).warned <==>
      && StalledAt(ps, i, start, stallAfter)
      && forall k :: Reference(ps, i) <= k < i && 0 <= k ==> !StalledAt(ps, k, start, stallAfter)
  {
    WarnsUnlessAnnounced(ps, i, start, stallAfter);
    if i > 0 && Reference(ps, i) != i {
      AnnouncedBefore(ps, i, start, stallAfter);
    }
  }

  /** Unless the reference moves, the announcement that stands at a poll is that of an earlier one. */
  lemma AnnouncedBefore(ps: seq<Poll>, i: nat, start: real, stallAfter: real)
    requires 0 < i < |ps| && Reference(ps, i) != i
    ensures At(ps, i, start, stallAfter).announced <==>
      exists k :: Reference(ps, i) <= k < i && 0 <= k && StalledAt(ps, k, start, stallAfter)
  {
    AnnouncedExactlyWhenStalledSince(ps, i - 1, start, stallAfter);
    assert Reference(ps, i) == Reference(ps, i - 1);
  }

  /** A poll warns exactly when it finds the plan stalled and no announcement stands from before. */
  lemma WarnsUnlessAnnounced(ps: seq<Poll>, i: nat, start: real, stallAfter: real)
    requires i < |ps|
    ensures ReportAt(ps, i, start, stallAfter).warned <==>
      && StalledAt(ps, i, start, stallAfter)
      && (i == 0 || Reference(ps, i) == i || !At(ps, i, start, stallAfter).announced)
  {
    StateAfter(ps, i, start, stallAfter);
  }

  lemma {:induction false} ReferenceHolds(ps: seq<Poll>, k: nat, i: nat)
    requires k <= i < |ps| && Reference(ps, i) <= k
    ensures Reference(ps, k) == Reference(ps, i)
    decreases i
  {
    if k < i {
      ReferenceHolds(ps, k, i - 1);
    }
  }

  /** With a monotone clock, once stalled a plan is stalled until the reference moves. */
  lemma StalledGoesOn(ps: seq<Poll>, k: nat, i: nat, start: real, stallAfter: real)
    requires k <= i < |ps| && Reference(ps, i) <= k && Monotone(ps, start) && stallAfter > 0.0
    requires StalledAt(ps, k, start, stallAfter)
    ensures StalledAt(ps, i, start, stallAfter)
  {
    StalledByReference(ps, k, start, stallAfter);
    StalledByReference(ps, i, start, stallAfter);
    ReferenceHolds(ps, k, i);
    assert TimeOf(ps, k, start) <= TimeOf(ps, i, start);
    ReferenceIsEarliest(ps, i, Reference(ps, i));
  }

  /** With a monotone clock and a positive threshold an announcement stands exactly as long as polls
      find the plan stalled. */
  lemma AnnouncedExactlyWhenStalled(ps: seq<Poll>, i: nat, start: real, stallAfter: real)
    requires i < |ps| && Monotone(ps, start) && stallAfter > 0.0
    ensures At(ps, i + 1, start, stallAfter).announced <==> StalledAt(ps, i, start, stallAfter)
  {
    AnnouncedExactlyWhenStalledSince(ps, i, start, stallAfter);
    if At(ps, i + 1, start, stallAfter).announced {
      var k :| Reference(ps, i) <= k <= i && 0 <= k && StalledAt(ps, k, start, stallAfter);
      StalledGoesOn(ps, k, i, start, stallAfter);
    }
  }

  /** With a monotone clock and a positive threshold a poll warns exactly when it finds the plan stalled
      and the poll before did not. */
  lemma WarnsExactlyOncePerStall(ps: seq<Poll>, i: nat, start: real, stallAfter: real)
    requires i < |ps| && Monotone(ps, start) && stallAfter > 0.0
    ensures ReportAt(ps, i, start, stallAfter).warned <==>
      && StalledAt(ps, i, start, stallAfter)
      && (i == 0 || !StalledAt(ps, i - 1, start, stallAfter))
  {
    WarnsExactlyWhen(ps, i, start, stallAfter);
    StateAfter(ps, i, start, stallAfter);
    if i > 0 && StalledAt(ps, i, start, stallAfter) {
      assert Reference(ps, i) < i;
      ReferenceHolds(ps, i - 1, i);
      if !StalledAt(ps, i - 1, start, stallAfter) {
        forall k | Reference(ps, i) <= k < i && 0 <= k
          ensures !StalledAt(ps, k, start, stallAfter)
        {
          if StalledAt(ps, k, start, stallAfter) {
            StalledGoesOn(ps, k, i - 1, start, stallAfter);
          }
        }
      }
    }
  }

  /** With a clock set back the alarm is silent for a plan that stalls: here polls 0 and 2 find the
      plan stalled and poll 1 does not, but only poll 0 warns. */
  lemma ClockSetBackIsSilent()
    ensures var ps := [Poll(0, 5.0, true), Poll(0, 1.0, true), Poll(0, 5.0, true)];
      && ReportAt(ps, 0, 0.0, 2.0).warned
      && !ReportAt(ps, 1, 0.0, 2.0).stalled
      && ReportAt(ps, 2, 0.0, 2.0).stalled && !ReportAt(ps, 2, 0.0, 2.0).warned
  {
    var ps := [Poll(0, 5.0, true), Poll(0, 1.0, true), Poll(0, 5.0, true)];
    assert At(ps, 1, 0.0, 2.0) == State(0, 0.0, true);
    assert At(ps, 2, 0.0, 2.0) == State(0, 0.0, true);
  }

  class StatusReporter {
    const stallAfter: real
    var lastProgressAt: real
    var lastCollected: int
    var stallAnnounced: bool

    ghost function Current(): State
      reads this
    {
      State(lastCollected, lastProgressAt, stallAnnounced)
    }

    constructor (stallAfter: real, now: real)
      ensures Current() == Initial(now) && this.stallAfter == stallAfter
    {
      this.stallAfter := stallAfter;
      lastProgressAt, lastCollected, stallAnnounced := now, 0, false;
    }

    /** `_progress_and_stall`. */
    method ProgressAndStall(p: Poll) returns (report: Report)
      modifies this
      ensures Current() == Next(old(Current()), p, stallAfter)
      ensures report == ReportOn(old(Current()), p, stallAfter)
    {
      if p.total != lastCollected || !p.running {
        lastCollected := p.total;
        lastProgressAt := p.now;
        stallAnnounced := false;
      }
      var quietFor := p.now - lastProgressAt;
      var stalled := p.running && quietFor >= stallAfter;
      var warned := false;
      if stalled && !stallAnnounced {
        stallAnnounced := true;
        warned := true;
      }
      report := Report(p.total, if p.running then Some(quietFor) else None, stalled, warned);
    }
  }
}
