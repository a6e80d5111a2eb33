/** The `report-sections` view: pages of a disposable cache file that starts with the
    fingerprint of the summary it was built from.  The locked region (check the header, rebuild
    when it differs, read one page) is one step; the stat of the summary happens before it.

    A rebuild reads the summary as it is inside the locked region, but labels the result with
    the generation that was stat-ed before it. */
module SectionCache {
  import opened Options
  import opened Paging

  datatype Cache = Cache(header: nat, payload: Bytes)

  datatype Reader = Reader(offset: nat, known: Option<nat>, data: Bytes, request: Option<nat>, status: Status)

  datatype Status = Unfinished | Finished | Stopped

  /** sections[g] is the encoding of the sections of generation g; the last one is current. */
  datatype Host = Host(sections: seq<Bytes>, cache: Option<Cache>, reader: Reader)

  datatype Event =
    | Publish(encoded: Bytes)
    | Stat
    | OurPage
    | OtherPage(generation: nat)

  function Rebuilt(h: Host, generation: nat): Cache
    requires h.sections != []
  {
    if h.cache.Some? && h.cache.value.header == generation then h.cache.value
    else Cache(generation, h.sections[|h.sections| - 1])
  }

  function AfterPage(reader: Reader, generation: nat, payload: Bytes): Reader {
    if reader.offset > |payload| then reader.(request := None, status := Stopped)
    else
      var chunk := Take(payload, reader.offset, PAGE);
      Reader(reader.offset + |chunk|, Some(generation), reader.data + chunk, None,
             if reader.offset + |chunk| == |payload| then Finished else Unfinished)
  }

  predicate Possible(h: Host, e: Event) {
    match e
    case Publish(_) => true
    case Stat => h.sections != [] && h.reader.status == Unfinished && h.reader.request.None?
    case OurPage => h.sections != [] && h.reader.status == Unfinished && h.reader.request.Some?
    case OtherPage(generation) => generation < |h.sections|
  }

  function Next(h: Host, e: Event): Host
    requires Possible(h, e)
  {
    match e
    case Publish(encoded) => h.(sections := h.sections + [encoded])
    case Stat =>
      var now := |h.sections| - 1;
      if h.reader.offset != 0 && h.reader.known != Some(now) then h.(reader := h.reader.(status := Stopped))
      else h.(reader := h.reader.(request := Some(now)))
    case OurPage =>
      var cache := Rebuilt(h, h.reader.request.value);
      h.(cache := Some(cache), reader := AfterPage(h.reader, h.reader.request.value, cache.payload))
    case OtherPage(generation) => h.(cache := Some(Rebuilt(h, generation)))
  }

  function Replay(h: Host, events: seq<Event>): Host {
    if events == [] then h
    else
      var g := Replay(h, events[..|events|-1]);
      var e := events[|events|-1];
      if Possible(g, e) then Next(g, e) else g
  }

  ghost predicate Start(h: Host) {
    h.sections != [] && h.cache.None? && h.reader == Reader(0, None, [], None, Unfinished)
  }

  /** What survives every stale rebuild: a cache labelled with the current generation is right,
      and so is what was read under the current generation or under a stat that found it current. */
  ghost predicate Sound(h: Host) {
    var now := |h.sections| - 1;
    && now >= 0
    && (h.cache.Some? ==> h.cache.value.header <= now)
    && (h.cache.Some? && h.cache.value.header == now ==> h.cache.value.payload == h.sections[now])
    && |h.reader.data| == h.reader.offset
    && (h.reader.known.Some? ==> h.reader.known.value <= now)
    && (h.reader.offset != 0 && h.reader.known == Some(now) ==> h.reader.data <= h.sections[now])
    && (h.reader.request.Some? ==>
          h.reader.request.value <= now && (h.reader.offset != 0 ==>
              h.reader.data <= h.sections[h.reader.request.value]))
  }

  lemma PageKeepsSound(h: Host)
    requires Sound(h) && Possible(h, OurPage)
    ensures Sound(Next(h, OurPage))
  {
    var generation := h.reader.request.value;
    var payload := Rebuilt(h, generation).payload;
    if h.reader.offset <= |payload| && generation == |h.sections| - 1 {
      var chunk := Take(payload, h.reader.offset, PAGE);
      assert chunk == Take(payload, h.reader.offset, |chunk|);
      assert h.reader.offset == 0 ==> h.reader.data == [];
      PageExtends(payload, h.reader.data, chunk);
    }
  }

  lemma {:induction false} ReplayIsSound(h: Host, events: seq<Event>)
    requires Start(h)
    ensures Sound(Replay(h, events))
  {
    if events != [] {
      var n := |events| - 1;
      ReplayIsSound(h, events[..n]);
      var g := Replay(h, events[..n]);
      if events[n].OurPage? && Possible(g, OurPage) {
        PageKeepsSound(g);
      }
    }
  }

  /** The page about to be served holds, from the offset of the reader on, what the generation found
      by the stat encodes to. */
  predicate RightRest(h: Host, generation: nat)
    requires generation < |h.sections|
  {
    var payload := Rebuilt(h, generation).payload;
    && h.reader.offset <= |h.sections[generation]| && h.reader.offset <= |payload|
    && payload[h.reader.offset..] == h.sections[generation][h.reader.offset..]
  }

  /** After any events whatever, the page that finishes a read completes the encoding of the
      generation its stat found exactly when the rest of the cache it is served from, rebuilt or
      not, is the rest of that encoding. */
  lemma FinishedReadIff(h: Host, events: seq<Event>)
    requires Start(h) && Possible(Replay(h, events), OurPage)
    ensures var g := Replay(h, events);
      var r := Next(g, OurPage).reader;
      && g.reader.request.value < |g.sections|
      && (r.status == Finished ==> r.known == g.reader.request)
      && (r.status == Stopped <==> g.reader.offset > |Rebuilt(g, g.reader.request.value).payload|)
      && (r.status == Finished ==> (r.data == g.sections[g.reader.request.value] <==>
          RightRest(g, g.reader.request.value)))
  {
    ReplayIsSound(h, events);
    var g := Replay(h, events);
    var generation := g.reader.request.value;
    var payload := Rebuilt(g, generation).payload;
    if g.reader.offset <= |payload| {
      var chunk := Take(payload, g.reader.offset, PAGE);
      assert chunk == payload[g.reader.offset..g.reader.offset + |chunk|];
      if g.reader.offset + |chunk| == |payload| {
        assert chunk == payload[g.reader.offset..];
        assert g.reader.offset == 0 ==> g.reader.data == [];
      }
    }
  }

  /** So a read is right whenever no summary was published between its last stat and its last
      page, whatever other readers rebuilt before or in between. */
  lemma UnpublishedReadsAreRight(h: Host, events: seq<Event>)
    requires Start(h) && Possible(Replay(h, events), OurPage)
    requires var g := Replay(h, events); g.reader.request == Some(|g.sections| - 1)
    ensures var g := Replay(h, events);
      var r := Next(g, OurPage).reader;
      r.status == Finished ==> r.data == g.sections[|g.sections| - 1]
  {
    ReplayIsSound(h, events);
    FinishedReadIff(h, events);
  }

  // ----- reading while nothing is published -----

  /** The reader asks n times. */
  function Rounds(n: nat): seq<Event> { if n == 0 then [] else Rounds(n - 1) + [Stat, OurPage] }

  function Smaller(x: nat, y: nat): nat { if x < y then x else y }

  /** The reader after n rounds over one encoding. */
  ghost predicate AfterRounds(u: Host, encoded: Bytes, n: nat) {
    var r := u.reader;
    && u.sections != [] && u.sections[|u.sections| - 1] == encoded
    && r.request.None? && r.offset == Smaller(n * PAGE, |encoded|) && r.data == encoded[..r.offset]
    && (r.offset != 0 ==> r.known == Some(|u.sections| - 1))
    && r.status == if n >= PagesOf(|encoded|) then Finished else Unfinished
  }

  lemma RoundStep(u: Host, encoded: Bytes, n: nat)
    requires Sound(u) && AfterRounds(u, encoded, n) && n < PagesOf(|encoded|)
    ensures Sound(Round(u)) && AfterRounds(Round(u), encoded, n + 1)
  {
    var asked, now := Next(u, Stat), |u.sections| - 1;
    assert asked.reader == u.reader.(request := Some(now)) && Sound(asked);
    PageKeepsSound(asked);
    assert Rebuilt(asked, now).payload == encoded;
    PagesReached(|encoded|, n);
    NextSlice(encoded, u.reader.offset);
    hide Sound, PagesOf, Take, Rebuilt;
    assert Round(u) == Next(asked, OurPage);
  }

  lemma NextSlice(encoded: Bytes, offset: nat)
    requires offset <= |encoded|
    ensures var chunk := Take(encoded, offset, PAGE);
      && |chunk| == Smaller(PAGE, |encoded| - offset)
      && encoded[..offset] + chunk == encoded[..offset + |chunk|]
  {}

  lemma PagesReached(size: nat, n: nat)
    ensures n < PagesOf(size) ==> n * PAGE < size || n == 0
    ensures n + 1 >= PagesOf(size) <==> (n + 1) * PAGE >= size
  {}

  lemma {:induction false} RoundsGo(u: Host, encoded: Bytes, n: nat)
    requires Sound(u) && AfterRounds(u, encoded, 0)
    ensures var v := Replay(u, Rounds(n)); Sound(v) && AfterRounds(v, encoded, n)
  {
    hide Sound, PagesOf, AfterRounds, Round, Replay;
    if n == 0 {
      NothingReplayed(u);
    } else {
      RoundsGo(u, encoded, n - 1);
      OneMoreRound(Replay(u, Rounds(n - 1)), encoded, n - 1);
      TwoMore(u, Rounds(n - 1));
    }
  }

  lemma NothingReplayed(u: Host)
    ensures Replay(u, []) == u
  {}

  lemma OneMoreRound(v: Host, encoded: Bytes, n: nat)
    requires Sound(v) && AfterRounds(v, encoded, n)
    ensures Sound(Round(v)) && AfterRounds(Round(v), encoded, n + 1)
  {
    hide Sound, PagesOf, AfterRounds, Round;
    if n < PagesOf(|encoded|) {
      RoundStep(v, encoded, n);
    } else {
      RoundsOver(v, encoded, n);
    }
  }

  lemma RoundsOver(v: Host, encoded: Bytes, n: nat)
    requires AfterRounds(v, encoded, n) && n >= PagesOf(|encoded|)
    ensures AfterRounds(v, encoded, n + 1) && Round(v) == v
  {
    PagesReached(|encoded|, n);
    PageCount(|encoded|, n);
  }

  lemma PageCount(size: nat, n: nat)
    ensures n >= PagesOf(size) ==> n * PAGE >= size
  {}

  /** One stat and one page, as far as they are possible. */
  function Round(v: Host): Host {
    var w := if Possible(v, Stat) then Next(v, Stat) else v;
    if Possible(w, OurPage) then Next(w, OurPage) else w
  }

  lemma TwoMore(u: Host, events: seq<Event>)
    ensures Replay(u, events + [Stat, OurPage]) == Round(Replay(u, events))
  {
    hide Next, Possible;
    var all := events + [Stat, OurPage];
    assert all[..|all| - 1] == events + [Stat];
    assert (events + [Stat])[..|events|] == events;
  }

  /** Whatever happened before, a read that begins while nothing more is published finishes with the
      current encoding after exactly max(1, ceil(size / PAGE)) pages, and holds whole pages until then. */
  lemma RoundsFinish(h: Host, events: seq<Event>, n: nat)
    requires Start(h)
    ensures var g := Replay(h, events);
      && g.sections != []
      && var encoded, r := g.sections[|g.sections| - 1], Replay(g, Rounds(n)).reader;
      g.reader == Reader(0, None, [], None, Unfinished) ==>
        && r.status == (if n >= PagesOf(|encoded|) then Finished else Unfinished)
        && r.data == encoded[..Smaller(n * PAGE, |encoded|)]
  {
    ReplayIsSound(h, events);
    var g := Replay(h, events);
    if g.reader == Reader(0, None, [], None, Unfinished) {
      RoundsGo(g, g.sections[|g.sections| - 1], n);
    }
    hide Sound, PagesOf, Replay;
  }

  /** No rebuild in this step, or the summary is still the one that was stat-ed. */
  predicate FreshRebuild(h: Host, e: Event)
    requires Possible(h, e)
  {
    match e
    case OurPage => h.cache == Some(Rebuilt(h, h.reader.request.value)) || h.reader.request.value + 1 == |h.sections|
    case OtherPage(generation) => h.cache == Some(Rebuilt(h, generation)) || generation + 1 == |h.sections|
    case _ => true
  }

  ghost predicate FreshThroughout(h: Host, events: seq<Event>) {
    forall k :: 0 <= k < |events| ==>
      var g := Replay(h, events[..k]); Possible(g, events[k]) ==> FreshRebuild(g, events[k])
  }

  ghost predicate Honest(h: Host) {
    && (h.cache.Some? ==>
        h.cache.value.header < |h.sections| && h.cache.value.payload == h.sections[h.cache.value.header])
    && (h.reader.request.Some? ==> h.reader.request.value < |h.sections|)
    && |h.reader.data| == h.reader.offset
    && (h.reader.request.Some? && h.reader.offset != 0 ==> h.reader.known == h.reader.request)
    && (h.reader.offset != 0 || h.reader.status == Finished ==>
          h.reader.known.Some? && h.reader.known.value < |h.sections| &&
              h.reader.data <= h.sections[h.reader.known.value])
    && (h.reader.status == Finished ==> h.reader.data == h.sections[h.reader.known.value])
  }

  lemma StepKeepsHonest(h: Host, e: Event)
    requires Honest(h) && Possible(h, e) && FreshRebuild(h, e)
    ensures Honest(Next(h, e))
  {
    if e.OurPage? {
      var payload := Rebuilt(h, h.reader.request.value).payload;
      if h.reader.offset <= |payload| {
        var chunk := Take(payload, h.reader.offset, PAGE);
        assert chunk == Take(payload, h.reader.offset, |chunk|);
        if h.reader.offset == 0 {
          assert h.reader.data == [];
        }
        PageExtends(payload, h.reader.data, chunk);
      }
    }
  }

  lemma {:induction false} ReplayKeepsHonest(h: Host, events: seq<Event>)
    requires Honest(h) && FreshThroughout(h, events)
    ensures Honest(Replay(h, events))
  {
    if events != [] {
      var n := |events| - 1;
      var prefix := events[..n];
      forall k | 0 <= k < n
        ensures var g := Replay(h, prefix[..k]); Possible(g, prefix[k]) ==> FreshRebuild(g, prefix[k])
      {
        assert prefix[..k] == events[..k];
      }
      ReplayKeepsHonest(h, prefix);
      if Possible(Replay(h, prefix), events[n]) {
        StepKeepsHonest(Replay(h, prefix), events[n]);
      }
    }
  }

  /** It holds in particular while every rebuild finds the summary unchanged since its stat: then
      a finished read is the encoding of one generation, published since or not. */
  lemma FreshRebuildsGiveSnapshots(h: Host, events: seq<Event>)
    requires Start(h) && FreshThroughout(h, events)
    ensures var r := Replay(h, events).reader;
      r.status == Finished ==>
        r.known.Some? && r.known.value < |Replay(h, events).sections| &&
            r.data == Replay(h, events).sections[r.known.value]
  {
    ReplayKeepsHonest(h, events);
  }

  /** From the start, the read finishes with bytes that no generation encodes to. */
  ghost predicate Mixes(h: Host, events: seq<Event>) {
    var g := Replay(h, events);
    && Start(h) && g.reader.status == Finished
    && forall k :: 0 <= k < |g.sections| ==> g.reader.data != g.sections[k]
  }

  /** Without it two generations can be mixed: the second page is stat-ed, the
      summary is replaced, another reader rebuilds the cache for the new generation, and the
      page then rebuilds it once more under the old label. */
  lemma GenerationsCanMix() returns (h: Host, events: seq<Event>)
    ensures Mixes(h, events)
  {
    var size := PAGE + 1;
    var first: Bytes, second: Bytes := seq(size, i => 0), seq(size, i => 1);
    h := Host([first], None, Reader(0, None, [], None, Unfinished));
    events := [Stat, OurPage, Stat, Publish(second), OtherPage(1), OurPage];
    var h1 := Next(h, Stat);
    var h2 := Next(h1, OurPage);
    var h3 := Next(h2, Stat);
    var h4 := Next(h3, Publish(second));
    var h5 := Next(h4, OtherPage(1));
    var h6 := Next(h5, OurPage);
    ReplaySix(h, events, h1, h2, h3, h4, h5, h6);
    assert h2.reader.data == first[..PAGE];
    assert h6.reader.data == first[..PAGE] + second[PAGE..];
    assert h6.reader.data[0] == 0 && h6.reader.data[PAGE] == 1;
    assert h6.sections == [first, second];
  }

  /** The event is possible and leads from one state to the other. */
  ghost predicate Leads(before: Host, e: Event, after: Host) { Possible(before, e) && after == Next(before, e) }

  lemma ReplaySix(h: Host, events: seq<Event>, h1: Host, h2: Host, h3: Host, h4: Host, h5: Host, h6: Host)
    requires |events| == 6
    ensures (&& Leads(h, events[0], h1) && Leads(h1, events[1], h2) && Leads(h2, events[2], h3)
             && Leads(h3, events[3], h4) && Leads(h4, events[4], h5) && Leads(h5, events[5], h6))
            ==> Replay(h, events) == h6
  {
    hide Leads;
    assert Replay(h, events[..0]) == h;
    ReplayStep(h, events, 0, h, h1);
    ReplayStep(h, events, 1, h1, h2);
    ReplayStep(h, events, 2, h2, h3);
    ReplayStep(h, events, 3, h3, h4);
    ReplayStep(h, events, 4, h4, h5);
    ReplayStep(h, events, 5, h5, h6);
    assert events[..6] == events;
  }

  lemma ReplayStep(h: Host, events: seq<Event>, k: nat, before: Host, after: Host)
    requires k < |events|
    ensures Replay(h, events[..k]) == before && Leads(before, events[k], after) ==> Replay(h, events[..k+1]) == after
  {
    assert events[..k+1][..k] == events[..k];
  }
}
