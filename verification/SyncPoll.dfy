/** Polling in batches: a prefix of the log is processed, event by event, and the cursor says exactly how far. */
module SyncPoll {
  import opened Wrappers
  import opened SyncState
  import opened SyncPlan
  import opened SyncCrash
  import opened SyncConvergence

  /** The state after a batch, and how many of its events were committed before one was refused. */
  function Polled(w: World, d: Durable, events: seq<Event>): Moment
    decreases |events|
  {
    if events == [] then Moment(d, 0)
    else if !Commits(w, d, events[0]) then Moment(Final(w, d, events[0]), 0)
    else Later(Polled(w, Final(w, d, events[0]), events[1..]), 1)
  }

  function Later(m: Moment, n: nat): Moment { Moment(m.state, m.passed + n) }

  lemma FullAttempt(w: World, log: seq<Event>, m: Moment)
    requires m.passed < |log|
    ensures Attempt(w, log, m, |EventPlan(w, m.state, log[m.passed]).writes|)
         == Moment(Final(w, m.state, log[m.passed]), if Commits(w, m.state, log[m.passed]) then m.passed + 1
                   else m.passed)
  {
    var ws := EventPlan(w, m.state, log[m.passed]).writes;
    assert ws[..|ws|] == ws;
  }

  /** An event refused once is refused again. */
  lemma RefusedAgain(w: World, log: seq<Event>, start: Durable, m: Moment, next: Moment)
    requires m.passed < |log| && OnTrack(w, log, start, m) && OnTrack(w, log, start, next) && next.passed == m.passed
    ensures Commits(w, m.state, log[m.passed]) <==> Commits(w, next.state, log[m.passed])
  {}

  /** Where polling the events from `lo` up to `hi` may leave things. */
  ghost predicate PolledTo(w: World, log: seq<Event>, start: Durable, lo: nat, hi: nat, at: Moment)
    requires hi <= |log|
  {
    && at.passed <= hi
    && OnTrack(w, log, start, at)
    && (at.passed < hi ==> !Commits(w, at.state, log[at.passed]))
    && (lo < at.passed == hi ==> Fold(w, start, log, hi) == Some(at.state))
  }

  lemma PolledOne(w: World, log: seq<Event>, start: Durable, lo: nat, hi: nat, next: Moment, at: Moment)
    requires lo < hi <= |log| && next.passed == lo + 1
    requires Fold(w, start, log, lo + 1) == Some(next.state) && PolledTo(w, log, start, lo + 1, hi, at)
    requires hi == lo + 1 ==> at == next
    ensures PolledTo(w, log, start, lo, hi, at)
  {}

  lemma Advances(w: World, log: seq<Event>, start: Durable, m: Moment) returns (end: Durable)
    requires Ascending(log) && m.passed < |log| && ResolvesDistinct(w, log[m.passed]) && OnTrack(w, log, start, m)
    ensures end == Final(w, m.state, log[m.passed])
    ensures Commits(w, m.state, log[m.passed]) ==>
      OnTrack(w, log, start, Moment(end, m.passed + 1)) && Fold(w, start, log, m.passed + 1) == Some(end)
    ensures !Commits(w, m.state, log[m.passed]) ==>
      OnTrack(w, log, start, Moment(end, m.passed)) && !Commits(w, end, log[m.passed])
  {
    end := Final(w, m.state, log[m.passed]);
    AttemptOnTrack(w, log, start, m, |EventPlan(w, m.state, log[m.passed]).writes|);
    FullAttempt(w, log, m);
    if !Commits(w, m.state, log[m.passed]) { RefusedAgain(w, log, start, m, Moment(end, m.passed)); }
  }

  /** A poll of the events up to `hi`, in terms of the log. */
  function PolledUpTo(w: World, log: seq<Event>, m: Moment, hi: nat): Moment
    requires m.passed <= hi <= |log|
    decreases hi - m.passed
  {
    if m.passed == hi then m
    else
      var end := Final(w, m.state, log[m.passed]);
      if Commits(w, m.state, log[m.passed]) then
        PolledUpTo(w, log, Moment(end, m.passed + 1), hi) else Moment(end, m.passed)
  }

  lemma {:induction false} PolledInLog(w: World, log: seq<Event>, m: Moment, hi: nat)
    requires m.passed <= hi <= |log|
    ensures Later(Polled(w, m.state, log[m.passed..hi]), m.passed) == PolledUpTo(w, log, m, hi)
    decreases hi - m.passed
  {
    var events := log[m.passed..hi];
    if m.passed < hi {
      assert events[0] == log[m.passed] && events[1..] == log[m.passed + 1..hi];
      if Commits(w, m.state, log[m.passed]) {
        PolledInLog(w, log, Moment(Final(w, m.state, log[m.passed]), m.passed + 1), hi);
      }
    }
  }

  lemma UpToStep(w: World, log: seq<Event>, m: Moment, hi: nat, end: Durable)
    requires m.passed < hi <= |log| && end == Final(w, m.state, log[m.passed])
    ensures Commits(w, m.state, log[m.passed]) ==>
      PolledUpTo(w, log, m, hi) == PolledUpTo(w, log, Moment(end, m.passed + 1), hi)
    ensures !Commits(w, m.state, log[m.passed]) ==> PolledUpTo(w, log, m, hi) == Moment(end, m.passed)
  {}

  lemma {:induction false} PolledOnTrack(w: World, log: seq<Event>, start: Durable, m: Moment, hi: nat, at: Moment)
    requires Ascending(log) && (forall k :: 0 <= k < |log| ==> ResolvesDistinct(w, log[k]))
    requires OnTrack(w, log, start, m) && m.passed <= hi <= |log| && at == PolledUpTo(w, log, m, hi)
    ensures PolledTo(w, log, start, m.passed, hi, at)
    decreases hi - m.passed
  {
    if m.passed < hi {
      var end := Advances(w, log, start, m);
      UpToStep(w, log, m, hi, end);
      if Commits(w, m.state, log[m.passed]) {
        var next := Moment(end, m.passed + 1);
        PolledOnTrack(w, log, start, next, hi, at);
        PolledOne(w, log, start, m.passed, hi, next, at);
      }
    }
  }

  /**
   * No event is skipped or repeated: polling a run of events right after the cursor leaves the cursor exactly behind
   * the committed ones, on the same track as the uninterrupted engine; short of the whole batch, the next event
   * was refused.
   */
  lemma PollStaysOnTrack(w: World, log: seq<Event>, start: Durable, m: Moment, hi: nat)
    requires Ascending(log) && (forall k :: 0 <= k < |log| ==> ResolvesDistinct(w, log[k]))
    requires OnTrack(w, log, start, m) && m.passed <= hi <= |log|
    ensures PolledTo(w, log, start, m.passed, hi, Later(Polled(w, m.state, log[m.passed..hi]), m.passed))
  {
    PolledInLog(w, log, m, hi);
    PolledOnTrack(w, log, start, m, hi, PolledUpTo(w, log, m, hi));
  }

  /** Polling to the end, one page after another, is the uninterrupted run: the page and batch sizes do not matter. */
  lemma {:induction false} PollSplits(w: World, d: Durable, a: seq<Event>, b: seq<Event>)
    requires Polled(w, d, a).passed == |a|
    ensures Polled(w, d, a + b) == Later(Polled(w, Polled(w, d, a).state, b), |a|)
    decreases |a|
  {
    if a == [] {
      assert a + b == b;
    } else {
      assert (a + b)[0] == a[0] && (a + b)[1..] == a[1..] + b;
      PolledBound(w, d, a);
      PollSplits(w, Final(w, d, a[0]), a[1..], b);
    }
  }

  lemma {:induction false} PolledBound(w: World, d: Durable, events: seq<Event>)
    ensures Polled(w, d, events).passed <= |events|
    ensures Polled(w, d, events).passed == |events| > 0 ==> Commits(w, d, events[0])
    decreases |events|
  {
    if events != [] && Commits(w, d, events[0]) { PolledBound(w, Final(w, d, events[0]), events[1..]); }
  }

  // ---------------------------------------------------------- the fence

  function Indexed(d: Durable, id: string): nat { LoadEntity(d.rows, id).indexedRevision }

  /**
    An edit is applied only as the direct successor of the indexed revision, and
    is otherwise without effect on the fence.
   */
  lemma EditFollowsChain(w: World, d: Durable, event: Event)
    requires event.change.Edit? && !Regresses(d.cursor, event.position)
    ensures var edit := event.change;
      var now := Indexed(d, edit.id);
      var next := Indexed(Final(w, d, event), edit.id);
      var ending := EventPlan(w, d, event).ending;
      && (ending.Applied? ==> now < edit.revision == next && (now == 0 || edit.oldRevision == now))
      && (!ending.Applied? ==> next == now)
      && (ending.Ignored? <==> 1 <= edit.revision <= now)
      && (ending == Stopped("REVISION_GAP") <==> now != 0 && edit.revision > now && edit.oldRevision != now)
  {
    var edit := event.change;
    var row := LoadEntity(d.rows, edit.id);
    var body := BodyPlan(w, d, event);
    IndexPlanShape(w, d, edit.id, row, edit.revision);
    IndexCodes(w, d, edit.id, row, edit.revision);
    if Commits(w, d, event) {
      CommitAfter(w, d, event);
      if body.ending.Applied? { AppliedRow(d, body.writes, edit.id, body.ending.row); }
    } else if Observe(row.indexedRevision, edit.revision, edit.oldRevision).Advance? {
      RowKept(d, body.writes, edit.id);
    } else if body.writes != [] {
      assert body.writes == [body.writes[0]];
      assert ApplyAll(d, body.writes) == Apply(d, body.writes[0]) by { assert body.writes[1..] == []; }
    }
  }

  lemma IndexCodes(w: World, d: Durable, id: string, row: Row, revision: nat)
    ensures IndexPlan(w, d, id, row, revision).ending != Stopped("REVISION_GAP")
  {}
}
