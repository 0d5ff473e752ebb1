/** The map and the callback over whole runs of the ready driver. */
module ItemRuns {
  import opened Common
  import opened RaftTypes
  import ItemCodec
  import ItemMaps
  import opened Driver
  import DriverRuns

  /** The item an entry puts into the map, if any. */
  function ItemOf(decode: string -> Option<ItemCodec.Item>, e: Entry): (items: seq<ItemCodec.Item>) {
    if e.kind.Normal? && e.data.Some? && decode(e.data.value).Some? then [decode(e.data.value).value] else []
  }

  function ItemsOf(decode: string -> Option<ItemCodec.Item>, entries: seq<Entry>): (items: seq<ItemCodec.Item>) {
    if entries == [] then []
    else ItemsOf(decode, entries[..|entries| - 1]) + ItemOf(decode, entries[|entries| - 1])
  }

  lemma ItemsOfOneMore(decode: string -> Option<ItemCodec.Item>, entries: seq<Entry>, e: Entry)
    ensures ItemsOf(decode, entries + [e]) == ItemsOf(decode, entries) + ItemOf(decode, e)
  {
    assert (entries + [e])[..|entries + [e]| - 1] == entries;
  }

  /** The map is what the processed entries add up to. */
  ghost predicate Mirrors(s: Setup, d: State) {
    d.items == ItemMaps.PutAll(s.md5, ItemsOf(s.decode, d.done))
  }

  ghost predicate Good(s: Setup, d: State) {
    DriverRuns.Sound(d) && Mirrors(s, d)
  }

  /** A normal entry puts exactly its item, if nothing fails. */
  lemma AddEntryPuts(s: Setup, d: State, e: Entry, o: EntryOutcome)
    requires e.kind.Normal?
    requires Mirrors(s, d)
    ensures var a := AddEntry(s, d, e, o);
      a.after.items == ItemMaps.PutAll(s.md5, ItemsOf(s.decode, if a.ok then d.done + [e] else d.done))
  {
    if ItemOf(s.decode, e) == [] {
      NoItemPuts(s, d, e, o);
    } else {
      ItemPuts(s, d, e, o);
    }
  }

  /** An entry without data, or whose data is no item. */
  lemma NoItemPuts(s: Setup, d: State, e: Entry, o: EntryOutcome)
    requires e.kind.Normal? && ItemOf(s.decode, e) == []
    ensures AddEntry(s, d, e, o).after == d
    ensures ItemsOf(s.decode, d.done + [e]) == ItemsOf(s.decode, d.done)
  {
    ItemsOfOneMore(s.decode, d.done, e);
    assert ItemsOf(s.decode, d.done) + [] == ItemsOf(s.decode, d.done);
  }

  /** An entry with an item: it is stored, unless the callback refuses it. */
  lemma ItemPuts(s: Setup, d: State, e: Entry, o: EntryOutcome)
    requires e.kind.Normal? && ItemOf(s.decode, e) != [] && Mirrors(s, d)
    ensures var a := AddEntry(s, d, e, o);
      a.after.items == ItemMaps.PutAll(s.md5, ItemsOf(s.decode, if a.ok then d.done + [e] else d.done))
  {
    ItemsOfOneMore(s.decode, d.done, e);
    ItemMaps.PutAllOneMore(s.md5, ItemsOf(s.decode, d.done), s.decode(e.data.value).value);
  }

  lemma ApplyEntryPuts(s: Setup, d: State, e: Entry, o: EntryOutcome)
    requires Mirrors(s, d)
    ensures var a := ApplyEntry(s, d, e, o);
      a.after.items == ItemMaps.PutAll(s.md5, ItemsOf(s.decode, if a.ok then d.done + [e] else d.done))
  {
    match e.kind
    case Normal => AddEntryPuts(s, d, e, o);
    case Conf =>
      DriverRuns.AddConfChangeFrame(s, d, e, o);
      ItemsOfOneMore(s.decode, d.done, e);
      assert ItemsOf(s.decode, d.done) + [] == ItemsOf(s.decode, d.done);
    case OtherKind =>
  }

  lemma ApplyOneMirrors(s: Setup, d: State, o: EntryOutcome)
    requires Mirrors(s, d) && d.phase.Applying?
    ensures Mirrors(s, Step(s, d, ApplyOne(o)))
  {
    ApplyOneIs(s, d, o);
    if d.phase.applied < |d.phase.r.committed| {
      var e := d.phase.r.committed[d.phase.applied];
      ApplyEntryPuts(s, d, e, o);
      DriverRuns.ApplyEntryFrame(s, d, e, o);
      AfterEntryMirrors(s, d, ApplyEntry(s, d, e, o), d.phase.r, d.phase.applied);
    }
  }

  lemma AfterEntryMirrors(s: Setup, d: State, a: Result, r: Ready, applied: nat)
    requires applied < |r.committed| && a.after.done == d.done
    requires a.after.items
          == ItemMaps.PutAll(s.md5, ItemsOf(s.decode, if a.ok then d.done + [r.committed[applied]] else d.done))
    ensures Mirrors(s, AfterEntry(a, r, applied))
  {
  }

  /** Nothing but an entry touches the map. */
  lemma OtherStepsLeaveItems(s: Setup, d: State, c: Choice)
    requires !c.ApplyOne? || !d.phase.Applying?
    ensures Step(s, d, c).items == d.items && Step(s, d, c).done == d.done
  {
  }

  lemma StepMirrors(s: Setup, d: State, c: Choice)
    requires Mirrors(s, d)
    ensures Mirrors(s, Step(s, d, c))
  {
    if c.ApplyOne? && d.phase.Applying? {
      ApplyOneMirrors(s, d, c.outcome);
    } else {
      OtherStepsLeaveItems(s, d, c);
    }
  }

  lemma StepKeepsGood(s: Setup, d: State, c: Choice)
    requires Good(s, d)
    ensures Good(s, Step(s, d, c))
  {
    DriverRuns.StepKeepsSound(s, d, c);
    StepMirrors(s, d, c);
  }

  lemma {:induction false} RunsAreGood(s: Setup, storage: Storage, cs: seq<Choice>)
    ensures Good(s, Exec(s, Initial(s, storage), cs))
  {
    if cs != [] {
      RunsAreGood(s, storage, cs[..|cs| - 1]);
      StepKeepsGood(s, Exec(s, Initial(s, storage), cs[..|cs| - 1]), cs[|cs| - 1]);
    }
  }

  function PutsOf(trace: seq<Event>): (items: seq<ItemCodec.Item>) {
    if trace == [] then []
    else
      var last := trace[|trace| - 1];
      PutsOf(trace[..|trace| - 1]) + if last.Put? then [last.item] else []
  }

  function CallsOf(trace: seq<Event>): (items: seq<ItemCodec.Item>) {
    if trace == [] then []
    else
      var last := trace[|trace| - 1];
      CallsOf(trace[..|trace| - 1]) + if last.Called? then [last.item] else []
  }

  lemma {:induction false} ProjectionsConcat(a: seq<Event>, b: seq<Event>)
    ensures PutsOf(a + b) == PutsOf(a) + PutsOf(b) && CallsOf(a + b) == CallsOf(a) + CallsOf(b)
  {
    if b == [] {
      assert a + b == a;
    } else {
      assert (a + b)[..|a + b| - 1] == a + b[..|b| - 1];
      ProjectionsConcat(a, b[..|b| - 1]);
    }
  }

  lemma {:induction false} ProjectNothing(events: seq<Event>)
    requires forall k | 0 <= k < |events| :: !events[k].Put? && !events[k].Called?
    ensures PutsOf(events) == [] && CallsOf(events) == []
  {
    if events != [] {
      ProjectNothing(events[..|events| - 1]);
    }
  }

  /** Whether the run ends in a callback that returned an error. */
  ghost predicate CallbackFailed(d: State) {
    d.failed && d.trace != [] && var last := d.trace[|d.trace| - 1]; last.Called? && !last.ok
  }

  ghost predicate CallsMatchPuts(s: Setup, d: State) {
    && (!d.failed && d.trace != [] ==> !d.trace[|d.trace| - 1].Called?)
    && PutsOf(d.trace) == ItemsOf(s.decode, d.done)
    && (!s.hasCallback ==> CallsOf(d.trace) == [])
    && (s.hasCallback && !CallbackFailed(d) ==> CallsOf(d.trace) == PutsOf(d.trace))
    && (s.hasCallback && CallbackFailed(d) ==>
          CallsOf(d.trace) == PutsOf(d.trace) + [d.trace[|d.trace| - 1].item])
  }

  /** Events that say nothing of items leave both projections alone. */
  lemma SilentEvents(trace: seq<Event>, events: seq<Event>)
    requires forall k | 0 <= k < |events| :: !events[k].Put? && !events[k].Called?
    ensures PutsOf(trace + events) == PutsOf(trace) && CallsOf(trace + events) == CallsOf(trace)
  {
    ProjectionsConcat(trace, events);
    ProjectNothing(events);
  }

  /** The events of a conf change: at most a step against the leader, then the call on raft. */
  lemma ConfChangeEvents(s: Setup, d: State, e: Entry, o: EntryOutcome) returns (events: seq<Event>)
    ensures AddConfChange(s, d, e, o).after.trace == d.trace + events
    ensures forall k | 0 <= k < |events| ::
      events[k].n == Current(d) && (events[k].RaftStopped? || events[k].Campaigned? || events[k].ConfApplied?)
  {
    events := [];
    if e.data.Some? && s.decodeConf(e.data.value).Some? {
      var cc := s.decodeConf(e.data.value).value;
      var changed := ChangePeers(s, d, cc, o).after;
      if changed.trace != d.trace {
        events := [changed.trace[|d.trace|]];
      }
      events := events + [ConfApplied(Current(d), cc)];
    }
  }

  /** The events of a normal entry: the callback if there is one, then, unless it failed, the put. */
  lemma {:induction false} AddEntryEvents(s: Setup, d: State, e: Entry, o: EntryOutcome) returns (events: seq<Event>)
    requires e.kind.Normal?
    ensures AddEntry(s, d, e, o).after.trace == d.trace + events
    ensures forall k | 0 <= k < |events| :: events[k].n == Current(d) && (events[k].Called? || events[k].Put?)
    ensures AddEntry(s, d, e, o).ok && events != [] ==> events[|events| - 1].Put?
    ensures AddEntry(s, d, e, o).ok ==> PutsOf(events) == ItemOf(s.decode, e)
    ensures AddEntry(s, d, e, o).ok ==> CallsOf(events) == if s.hasCallback then PutsOf(events) else []
    ensures !AddEntry(s, d, e, o).ok && events != [] ==>
      s.hasCallback && |events| == 1 && events[0].Called? && !events[0].ok
    ensures !AddEntry(s, d, e, o).ok && events != [] ==> PutsOf(events) == [] && CallsOf(events) == [events[0].item]
  {
    events := [];
    if e.data.Some? && s.decode(e.data.value).Some? {
      var item := s.decode(e.data.value).value;
      var called, put := [Called(Current(d), item, o.callbackOk)], [Put(Current(d), item)];
      ProjectionsConcat(called, put);
      assert called[..0] == [] && put[..0] == [];
      if s.hasCallback {
        events := if o.callbackOk then called + put else called;
      } else {
        events := put;
      }
    }
  }

  lemma AddEntryMatches(s: Setup, d: State, o: EntryOutcome)
    requires !d.failed && CallsMatchPuts(s, d) && d.phase.Applying? && d.phase.applied < |d.phase.r.committed|
    requires d.phase.r.committed[d.phase.applied].kind.Normal?
    ensures var e := d.phase.r.committed[d.phase.applied];
      CallsMatchPuts(s, AfterEntry(AddEntry(s, d, e, o), d.phase.r, d.phase.applied))
  {
    var e := d.phase.r.committed[d.phase.applied];
    var events := AddEntryEvents(s, d, e, o);
    DriverRuns.AddEntryFrame(s, d, e, o);
    var d' := AfterEntry(AddEntry(s, d, e, o), d.phase.r, d.phase.applied);
    if AddEntry(s, d, e, o).ok {
      AcceptedMatches(s, d, d', e, events);
    } else {
      RefusedMatches(s, d, d', events);
    }
  }

  /** An entry processed: what it put is its item, and the callback, if there is one, saw the same. */
  lemma AcceptedMatches(s: Setup, d: State, d': State, e: Entry, events: seq<Event>)
    requires !d.failed && CallsMatchPuts(s, d)
    requires !d'.failed && d'.done == d.done + [e] && d'.trace == d.trace + events
    requires PutsOf(events) == ItemOf(s.decode, e) && CallsOf(events) == if s.hasCallback then PutsOf(events) else []
    requires events != [] ==> events[|events| - 1].Put?
    ensures CallsMatchPuts(s, d')
  {
    ItemsOfOneMore(s.decode, d.done, e);
    if events == [] {
      assert d'.trace == d.trace;
      assert ItemsOf(s.decode, d.done) + [] == ItemsOf(s.decode, d.done);
    } else {
      ProjectionsConcat(d.trace, events);
      assert d'.trace[|d'.trace| - 1] == events[|events| - 1];
    }
  }

  /** An entry that fails: nothing was put, and at most the callback that refused it was called. */
  lemma RefusedMatches(s: Setup, d: State, d': State, events: seq<Event>)
    requires !d.failed && CallsMatchPuts(s, d)
    requires d'.failed && d'.done == d.done && d'.trace == d.trace + events
    requires events != [] ==> s.hasCallback && |events| == 1 && events[0].Called? && !events[0].ok
    requires events != [] ==> PutsOf(events) == [] && CallsOf(events) == [events[0].item]
    ensures CallsMatchPuts(s, d')
  {
    if events == [] {
      assert d.trace + events == d.trace;
    } else {
      ProjectionsConcat(d.trace, events);
    }
  }

  lemma ConfChangeMatches(s: Setup, d: State, o: EntryOutcome)
    requires !d.failed && CallsMatchPuts(s, d) && d.phase.Applying? && d.phase.applied < |d.phase.r.committed|
    requires d.phase.r.committed[d.phase.applied].kind.Conf?
    ensures var e := d.phase.r.committed[d.phase.applied];
      CallsMatchPuts(s, AfterEntry(AddConfChange(s, d, e, o), d.phase.r, d.phase.applied))
  {
    var e := d.phase.r.committed[d.phase.applied];
    var events := ConfChangeEvents(s, d, e, o);
    DriverRuns.AddConfChangeFrame(s, d, e, o);
    SilentEvents(d.trace, events);
    ItemsOfOneMore(s.decode, d.done, e);
    assert ItemsOf(s.decode, d.done) + [] == ItemsOf(s.decode, d.done);
  }

  lemma ApplyOneMatches(s: Setup, d: State, o: EntryOutcome)
    requires !d.failed && CallsMatchPuts(s, d) && d.phase.Applying?
    ensures CallsMatchPuts(s, Step(s, d, ApplyOne(o)))
  {
    ApplyOneIs(s, d, o);
    if d.phase.applied < |d.phase.r.committed| {
      EntryMatches(s, d, o);
    }
  }

  lemma EntryMatches(s: Setup, d: State, o: EntryOutcome)
    requires !d.failed && CallsMatchPuts(s, d) && d.phase.Applying? && d.phase.applied < |d.phase.r.committed|
    ensures var e := d.phase.r.committed[d.phase.applied];
      CallsMatchPuts(s, AfterEntry(ApplyEntry(s, d, e, o), d.phase.r, d.phase.applied))
  {
    match d.phase.r.committed[d.phase.applied].kind
    case Normal => AddEntryMatches(s, d, o);
    case Conf => ConfChangeMatches(s, d, o);
    case OtherKind => OtherMatches(s, d);
  }

  /** An entry of another type fails and records nothing. */
  lemma OtherMatches(s: Setup, d: State)
    requires !d.failed && CallsMatchPuts(s, d)
    ensures CallsMatchPuts(s, Fail(d))
  {
  }

  /** A step that records only silent events and processes no entry. */
  lemma SilentStep(s: Setup, d: State, d': State, events: seq<Event>)
    requires CallsMatchPuts(s, d) && !d.failed
    requires d'.done == d.done && d'.trace == d.trace + events
    requires forall k | 0 <= k < |events| :: !events[k].Put? && !events[k].Called?
    ensures CallsMatchPuts(s, d')
  {
    SilentEvents(d.trace, events);
  }

  lemma SendMatches(s: Setup, d: State, ok: bool)
    requires !d.failed && CallsMatchPuts(s, d) && d.phase.Sending?
    ensures CallsMatchPuts(s, Step(s, d, SendOne(ok)))
  {
    if d.phase.sent < |d.phase.r.messages| {
      SilentStep(s, d, Step(s, d, SendOne(ok)),
        SendEvents(s.id, d.phase.peers, Current(d), d.phase.r.messages[d.phase.sent], ok));
    }
  }

  lemma StoreMatches(s: Setup, d: State, o: StoreOutcome)
    requires !d.failed && CallsMatchPuts(s, d) && d.phase.Storing?
    ensures CallsMatchPuts(s, Step(s, d, StoreReturns(o)))
  {
    SilentStep(s, d, Step(s, d, StoreReturns(o)), [StoreCalled(Current(d), RunStore(d.storage, d.phase.r, o).ok)]);
  }

  lemma AdvanceMatches(s: Setup, d: State)
    requires !d.failed && CallsMatchPuts(s, d) && d.phase.Applying?
    ensures CallsMatchPuts(s, Step(s, d, Advance))
  {
    if d.phase.applied >= |d.phase.r.committed| {
      SilentStep(s, d, Step(s, d, Advance), [AdvanceCalled(Current(d))]);
    }
  }

  lemma StepMatches(s: Setup, d: State, c: Choice)
    requires DriverRuns.Sound(d) && CallsMatchPuts(s, d)
    ensures CallsMatchPuts(s, Step(s, d, c))
  {
    if d.phase.Storing? && c.StoreReturns? {
      StoreMatches(s, d, c.store);
    } else if d.phase.Sending? && c.SendOne? {
      SendMatches(s, d, c.ok);
    } else if d.phase.Applying? && c.ApplyOne? {
      ApplyOneMatches(s, d, c.outcome);
    } else if d.phase.Applying? && c.Advance? {
      AdvanceMatches(s, d);
    }
  }

  lemma {:induction false} RunsMatch(s: Setup, storage: Storage, cs: seq<Choice>)
    ensures Good(s, Exec(s, Initial(s, storage), cs)) && CallsMatchPuts(s, Exec(s, Initial(s, storage), cs))
  {
    if cs != [] {
      RunsMatch(s, storage, cs[..|cs| - 1]);
      StepMatches(s, Exec(s, Initial(s, storage), cs[..|cs| - 1]), cs[|cs| - 1]);
      StepKeepsGood(s, Exec(s, Initial(s, storage), cs[..|cs| - 1]), cs[|cs| - 1]);
    }
  }

  /**
   * The items put into the map are those of the entries processed, in order, and the map is what they add up
   * to. A callback sees the same items; only when it fails has it seen one more, which was not put.
   */
  lemma {:induction false} CallbackMapAgreement(s: Setup, storage: Storage, cs: seq<Choice>)
    ensures var d := Exec(s, Initial(s, storage), cs);
      && PutsOf(d.trace) == ItemsOf(s.decode, d.done)
      && d.items == ItemMaps.PutAll(s.md5, PutsOf(d.trace))
      && (!s.hasCallback ==> CallsOf(d.trace) == [])
      && (s.hasCallback && !CallbackFailed(d) ==> CallsOf(d.trace) == PutsOf(d.trace))
      && (s.hasCallback && CallbackFailed(d) ==>
            CallsOf(d.trace) == PutsOf(d.trace) + [d.trace[|d.trace| - 1].item])
  {
    RunsMatch(s, storage, cs);
  }
}
