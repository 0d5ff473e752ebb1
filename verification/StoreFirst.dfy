/** Nothing is done for a Ready before its own store call succeeded. */
module StoreFirst {
  import opened RaftTypes
  import opened Driver
  import MemoryLog
  import DriverRuns
  import ItemRuns

  /** Every event of a Ready comes after the store call of that Ready, which succeeded and is the only one. */
  ghost predicate AfterOwnStore(trace: seq<Event>) {
    && (forall p | 0 <= p < |trace| && !trace[p].StoreCalled? ::
          exists q :: 0 <= q < p && trace[q] == StoreCalled(trace[p].n, true))
    && (forall p, q | 0 <= p < q < |trace| && trace[p].StoreCalled? && trace[q].StoreCalled? ::
          trace[p].n < trace[q].n)
  }

  ghost predicate StoreOrder(d: State) {
    && AfterOwnStore(d.trace)
    && (forall p | 0 <= p < |d.trace| ::
          d.trace[p].n < if d.phase.Storing? && d.readies > 0 then d.readies - 1 else d.readies)
    && (d.phase.Sending? || d.phase.Applying? ==> StoreCalled(Current(d), true) in d.trace)
  }

  lemma MoreEvents(trace: seq<Event>, n: nat, events: seq<Event>)
    requires AfterOwnStore(trace) && StoreCalled(n, true) in trace
    requires forall k | 0 <= k < |events| :: events[k].n == n && !events[k].StoreCalled?
    ensures AfterOwnStore(trace + events)
  {
    var t := trace + events;
    forall p | 0 <= p < |t| && !t[p].StoreCalled?
      ensures exists q :: 0 <= q < p && t[q] == StoreCalled(t[p].n, true)
    {
      if p < |trace| {
        var q :| 0 <= q < p && trace[q] == StoreCalled(trace[p].n, true);
        assert t[q] == StoreCalled(t[p].n, true);
      } else {
        assert t[p] == events[p - |trace|];
        var q :| 0 <= q < |trace| && trace[q] == StoreCalled(n, true);
        assert t[q] == StoreCalled(t[p].n, true);
      }
    }
  }

  lemma MoreStore(trace: seq<Event>, n: nat, ok: bool)
    requires AfterOwnStore(trace) && forall p | 0 <= p < |trace| :: trace[p].n < n
    ensures AfterOwnStore(trace + [StoreCalled(n, ok)])
  {
    var t := trace + [StoreCalled(n, ok)];
    forall p | 0 <= p < |t| && !t[p].StoreCalled?
      ensures exists q :: 0 <= q < p && t[q] == StoreCalled(t[p].n, true)
    {
      assert t[p] == trace[p];
      var q :| 0 <= q < p && trace[q] == StoreCalled(trace[p].n, true);
      assert t[q] == StoreCalled(t[p].n, true);
    }
  }

  lemma OrderAfterEntry(s: Setup, d: State, a: Result, r: Ready, applied: nat, events: seq<Event>)
    requires DriverRuns.Sound(d) && StoreOrder(d) && d.phase == Applying(r, applied) && applied < |r.committed|
    requires DriverRuns.SameRun(d, a.after) && a.after.trace == d.trace + events
    requires forall k | 0 <= k < |events| :: events[k].n == Current(d) && !events[k].StoreCalled?
    ensures StoreOrder(AfterEntry(a, r, applied))
  {
    MoreEvents(d.trace, Current(d), events);
  }

  lemma EntryEvents(s: Setup, d: State, e: Entry, o: EntryOutcome) returns (events: seq<Event>)
    ensures ApplyEntry(s, d, e, o).after.trace == d.trace + events
    ensures forall k | 0 <= k < |events| :: events[k].n == Current(d) && !events[k].StoreCalled?
  {
    match e.kind {
      case Normal => events := ItemRuns.AddEntryEvents(s, d, e, o);
      case Conf => events := ItemRuns.ConfChangeEvents(s, d, e, o);
      case OtherKind => events := [];
    }
  }

  lemma EntryKeepsOrder(s: Setup, d: State, o: EntryOutcome)
    requires DriverRuns.Sound(d) && StoreOrder(d) && d.phase.Applying?
    ensures StoreOrder(Step(s, d, ApplyOne(o)))
  {
    var r, applied := d.phase.r, d.phase.applied;
    if applied < |r.committed| && |o.attempts| == s.retries {
      var events := EntryEvents(s, d, r.committed[applied], o);
      DriverRuns.ApplyEntryFrame(s, d, r.committed[applied], o);
      OrderAfterEntry(s, d, ApplyEntry(s, d, r.committed[applied], o), r, applied, events);
    }
  }

  lemma StoreKeepsOrder(s: Setup, d: State, o: StoreOutcome)
    requires DriverRuns.Sound(d) && StoreOrder(d) && d.phase.Storing?
    ensures StoreOrder(Step(s, d, StoreReturns(o)))
  {
    MoreStore(d.trace, Current(d), RunStore(d.storage, d.phase.r, o).ok);
  }

  lemma SendKeepsOrder(s: Setup, d: State, ok: bool)
    requires DriverRuns.Sound(d) && StoreOrder(d) && d.phase.Sending?
    ensures StoreOrder(Step(s, d, SendOne(ok)))
  {
    if d.phase.sent < |d.phase.r.messages| {
      MoreEvents(d.trace, Current(d),
        SendEvents(s.id, d.phase.peers, Current(d), d.phase.r.messages[d.phase.sent], ok));
    }
  }

  lemma AdvanceKeepsOrder(s: Setup, d: State)
    requires DriverRuns.Sound(d) && StoreOrder(d) && d.phase.Applying?
    ensures StoreOrder(Step(s, d, Advance))
  {
    MoreEvents(d.trace, Current(d), [AdvanceCalled(Current(d))]);
  }

  lemma StepKeepsOrder(s: Setup, d: State, c: Choice)
    requires DriverRuns.Sound(d) && StoreOrder(d)
    ensures StoreOrder(Step(s, d, c))
  {
    if d.phase.Storing? && c.StoreReturns? {
      StoreKeepsOrder(s, d, c.store);
    } else if d.phase.Sending? && c.SendOne? {
      SendKeepsOrder(s, d, c.ok);
    } else if d.phase.Applying? && c.ApplyOne? {
      EntryKeepsOrder(s, d, c.outcome);
    } else if d.phase.Applying? && c.Advance? {
      AdvanceKeepsOrder(s, d);
    }
  }

  /** A store of the application's own leaves what it likes, and its error ends the Ready there. */
  lemma CustomStore(s: Setup, d: State, ok: bool, contents: MemoryLog.Contents)
    requires d.phase.Storing?
    ensures var d' := Step(s, d, StoreReturns(CustomRan(ok, contents)));
      && (d.storage.Memory? ==> d'.storage == Memory(contents))
      && (if ok then d'.phase.Sending? && d'.failed == d.failed else d'.phase.Idle? && d'.failed)
      && d'.items == d.items && d'.view == d.view && d'.raft == d.raft && d'.done == d.done
  {
  }

  /** No message is sent, no entry applied and no Advance called before the Ready's own store call succeeded. */
  lemma {:induction false} StoreComesFirst(s: Setup, storage: Storage, cs: seq<Choice>)
    ensures DriverRuns.Sound(Exec(s, Initial(s, storage), cs)) && StoreOrder(Exec(s, Initial(s, storage), cs))
  {
    if cs != [] {
      StoreComesFirst(s, storage, cs[..|cs| - 1]);
      StepKeepsOrder(s, Exec(s, Initial(s, storage), cs[..|cs| - 1]), cs[|cs| - 1]);
      DriverRuns.StepKeepsSound(s, Exec(s, Initial(s, storage), cs[..|cs| - 1]), cs[|cs| - 1]);
    }
  }
}
