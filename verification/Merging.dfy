/** What a universe outputs, given everything that feeds it: the declarative side of the merge. */
module Merging {
  import opened Dmx

  datatype MergeMode = MergeHtp | MergeLtp

  /** One port or client feeding a universe, and whether it is the one whose data just changed. */
  datatype Feed = Feed(source: DmxSource, changed: bool)

  datatype Outcome = Outcome(priority: byte, accepted: bool, buffer: DmxBuffer)

  /** The highest priority of a live feed, or the minimum priority when none is live. */
  function TopPriority(feeds: seq<Feed>, now: nat): byte {
    if feeds == [] then SOURCE_PRIORITY_MIN
    else
      var rest := TopPriority(feeds[..|feeds| - 1], now);
      var last := feeds[|feeds| - 1].source;
      if last.IsLive(now) then Max(rest, last.priority) else rest
  }

  /** The live feeds of one priority, in order. */
  function AtPriority(feeds: seq<Feed>, now: nat, priority: byte): seq<Feed> {
    if feeds == [] then []
    else
      var rest := AtPriority(feeds[..|feeds| - 1], now, priority);
      var last := feeds[|feeds| - 1];
      if last.source.IsLive(now) && last.source.priority == priority then rest + [last] else rest
  }

  /** The feeds the merge keeps. */
  function Winners(feeds: seq<Feed>, now: nat): seq<Feed> {
    AtPriority(feeds, now, TopPriority(feeds, now))
  }

  function Sources(feeds: seq<Feed>): (r: seq<DmxSource>)
    ensures |r| == |feeds|
    ensures forall i :: 0 <= i < |feeds| ==> r[i] == feeds[i].source
  {
    seq(|feeds|, i requires 0 <= i < |feeds| => feeds[i].source)
  }

  /** Highest takes precedence over a list of sources. */
  function HtpAll(sources: seq<DmxSource>): DmxBuffer {
    if sources == [] then []
    else HtpMerge(HtpAll(sources[..|sources| - 1]), sources[|sources| - 1].data)
  }

  /** Whether some changed feed is among the winners. */
  ghost predicate ChangedWins(feeds: seq<Feed>, now: nat) {
    exists f :: f in Winners(feeds, now) && f.changed
  }

  /** No winner is newer than `s`. */
  ghost predicate IsNewest(s: DmxSource, winners: seq<Feed>) {
    forall f :: f in winners ==> f.source.timestamp <= s.timestamp
  }

  /** The result of a merge after the feed with source `changed` changed, starting from `buffer`. */
  ghost function Merge(mode: MergeMode, feeds: seq<Feed>, changed: DmxSource, now: nat, buffer: DmxBuffer): Outcome {
    var top := TopPriority(feeds, now);
    var winners := Winners(feeds, now);
    if !ChangedWins(feeds, now) then Outcome(top, false, buffer)
    else match mode
      case MergeHtp => Outcome(top, true, HtpAll(Sources(winners)))
      case MergeLtp => if IsNewest(changed, winners) then Outcome(top, true, changed.data) else Outcome(top, false, buffer)
  }

  // ---------- the top priority is a maximum ----------

  lemma {:induction false} TopIsMaximum(feeds: seq<Feed>, now: nat)
    ensures forall f :: f in feeds && f.source.IsLive(now) ==> f.source.priority <= TopPriority(feeds, now)
    ensures (exists f :: f in feeds && f.source.IsLive(now) && f.source.priority == TopPriority(feeds, now))
            || ((forall f :: f in feeds ==> !f.source.IsLive(now)) && TopPriority(feeds, now) == SOURCE_PRIORITY_MIN)
  {
    if feeds != [] {
      var init, last := feeds[..|feeds| - 1], feeds[|feeds| - 1];
      TopIsMaximum(init, now);
      assert feeds == init + [last];
      assert last in feeds;
      if exists f :: f in init && f.source.IsLive(now) && f.source.priority == TopPriority(init, now) {
        var g :| g in init && g.source.IsLive(now) && g.source.priority == TopPriority(init, now);
        assert g in feeds;
      }
    }
  }

  lemma {:induction false} AtPriorityIsFilter(feeds: seq<Feed>, now: nat, priority: byte)
    ensures forall f :: f in AtPriority(feeds, now, priority)
                        <==> f in feeds && f.source.IsLive(now) && f.source.priority == priority
  {
    if feeds != [] {
      var init, last := feeds[..|feeds| - 1], feeds[|feeds| - 1];
      AtPriorityIsFilter(init, now, priority);
      assert feeds == init + [last];
    }
  }

  lemma {:induction false} NoneAbove(feeds: seq<Feed>, now: nat, priority: byte)
    requires priority > TopPriority(feeds, now)
    ensures AtPriority(feeds, now, priority) == []
  {
    if feeds != [] {
      NoneAbove(feeds[..|feeds| - 1], now, priority);
    }
  }

  /** One step of the scan: what a further feed does to the priority and to the kept list. */
  lemma ScanStep(feeds: seq<Feed>, f: Feed, now: nat)
    ensures var top, next := TopPriority(feeds, now), feeds + [f];
      && (!f.source.IsLive(now) ==> TopPriority(next, now) == top && Winners(next, now) == Winners(feeds, now))
      && (f.source.IsLive(now) && f.source.priority < top ==> TopPriority(next, now) == top && Winners(next, now) == Winners(feeds, now))
      && (f.source.IsLive(now) && f.source.priority == top ==> TopPriority(next, now) == top && Winners(next, now) == Winners(feeds, now) + [f])
      && (f.source.IsLive(now) && f.source.priority > top ==> TopPriority(next, now) == f.source.priority && Winners(next, now) == [f])
  {
    var next := feeds + [f];
    assert next[..|next| - 1] == feeds;
    if f.source.IsLive(now) && f.source.priority > TopPriority(feeds, now) {
      NoneAbove(feeds, now, f.source.priority);
    }
  }

  /** The same step, as the scan sees it: the priority so far, the sources kept, and whether the changed one is kept. */
  lemma ScanEffect(feeds: seq<Feed>, f: Feed, now: nat)
    ensures var top, next := TopPriority(feeds, now), feeds + [f];
      var kept, p := Sources(Winners(feeds, now)), f.source.priority;
      && TopPriority(next, now) == (if f.source.IsLive(now) && p > top then p else top)
      && Sources(Winners(next, now)) ==
           (if !f.source.IsLive(now) || p < top then kept else if p == top then kept + [f.source] else [f.source])
      && (ChangedWins(next, now) <==>
            if !f.source.IsLive(now) || p < top then ChangedWins(feeds, now)
            else f.changed || (p == top && ChangedWins(feeds, now)))
  {
    ScanStep(feeds, f, now);
    hide Winners;
    hide TopPriority;
    var winners, winners' := Winners(feeds, now), Winners(feeds + [f], now);
    if f.source.IsLive(now) && f.source.priority >= TopPriority(feeds, now) {
      assert f in winners';
      assert Sources(winners + [f]) == Sources(winners) + [f.source];
      if ChangedWins(feeds, now) && f.source.priority == TopPriority(feeds, now) {
        var g :| g in winners && g.changed;
        assert g in winners';
      }
    }
  }

  // ---------- HTP is the channel-wise maximum ----------

  /** `b` is exactly as long as the longest source and holds, in each channel, the largest value supplied. */
  ghost predicate IsChannelMax(b: DmxBuffer, sources: seq<DmxSource>) {
    && (forall s :: s in sources ==> |s.data| <= |b|)
    && (|b| == 0 || exists s :: s in sources && |s.data| == |b|)
    && (forall s, i :: s in sources && 0 <= i < |s.data| && i < |b| ==> s.data[i] <= b[i])
    && (forall i :: 0 <= i < |b| ==> b[i] == 0 || exists s :: s in sources && i < |s.data| && s.data[i] == b[i])
  }

  lemma {:induction false} HtpIsChannelMax(sources: seq<DmxSource>)
    ensures IsChannelMax(HtpAll(sources), sources)
  {
    if sources != [] {
      var init, last := sources[..|sources| - 1], sources[|sources| - 1];
      HtpIsChannelMax(init);
      var a, b := HtpAll(init), HtpAll(sources);
      assert sources == init + [last];
      assert last in sources;
      forall i | 0 <= i < |b|
        ensures forall s :: s in sources && i < |s.data| ==> s.data[i] <= b[i]
        ensures b[i] == 0 || exists s :: s in sources && i < |s.data| && s.data[i] == b[i]
      {
        assert b[i] == Channel(b, i) == Max(Channel(a, i), Channel(last.data, i));
        if b[i] != 0 && b[i] != Channel(last.data, i) {
          var s :| s in init && i < |s.data| && s.data[i] == a[i];
          assert s in sources;
        }
      }
    }
  }

  /** There is only one channel-wise maximum, and it depends on the set of sources alone. */
  lemma ChannelMaxUnique(a: DmxBuffer, b: DmxBuffer, xs: seq<DmxSource>, ys: seq<DmxSource>)
    requires IsChannelMax(a, xs) && IsChannelMax(b, ys)
    requires forall s :: s in xs <==> s in ys
    ensures a == b
  {
    assert |a| == |b|;
    forall i | 0 <= i < |a|
      ensures a[i] == b[i]
    {
    }
  }

  // ---------- the order of the feeds does not matter ----------

  /**
   * A merge looks at the feeds as a set: whatever order the ports and the clients are stored in, and however
   * the container walks them, the priority, the verdict and the buffer are the same.
   */
  lemma OrderIsIrrelevant(mode: MergeMode, xs: seq<Feed>, ys: seq<Feed>, changed: DmxSource, now: nat, buffer: DmxBuffer)
    requires forall f :: f in xs <==> f in ys
    ensures Merge(mode, xs, changed, now, buffer) == Merge(mode, ys, changed, now, buffer)
  {
    SameWinners(xs, ys, now);
    SameHtp(Winners(xs, now), Winners(ys, now));
  }

  lemma SameWinners(xs: seq<Feed>, ys: seq<Feed>, now: nat)
    requires forall f :: f in xs <==> f in ys
    ensures TopPriority(xs, now) == TopPriority(ys, now)
    ensures forall f :: f in Winners(xs, now) <==> f in Winners(ys, now)
  {
    TopIsMaximum(xs, now);
    TopIsMaximum(ys, now);
    AtPriorityIsFilter(xs, now, TopPriority(xs, now));
    AtPriorityIsFilter(ys, now, TopPriority(ys, now));
  }

  lemma SameHtp(xs: seq<Feed>, ys: seq<Feed>)
    requires forall f :: f in xs <==> f in ys
    ensures HtpAll(Sources(xs)) == HtpAll(Sources(ys))
  {
    SourcesOf(xs);
    SourcesOf(ys);
    HtpIsChannelMax(Sources(xs));
    HtpIsChannelMax(Sources(ys));
    ChannelMaxUnique(HtpAll(Sources(xs)), HtpAll(Sources(ys)), Sources(xs), Sources(ys));
  }

  lemma SourcesOf(feeds: seq<Feed>)
    ensures forall s :: s in Sources(feeds) <==> exists f :: f in feeds && f.source == s
  {
    forall s | s in Sources(feeds)
      ensures exists f :: f in feeds && f.source == s
    {
      var i :| 0 <= i < |feeds| && Sources(feeds)[i] == s;
      assert feeds[i] in feeds;
    }
  }

  /** With one winner, and the changed feed among the winners, both modes give the changed data. */
  lemma SoleWinner(winners: seq<Feed>, changed: DmxSource)
    requires |winners| == 1
    requires exists f :: f in winners && f.changed
    requires forall f :: f in winners && f.changed ==> f.source == changed
    ensures Sources(winners) == [changed] && HtpAll(Sources(winners)) == changed.data && IsNewest(changed, winners)
  {
    var sources := Sources(winners);
    assert sources == [changed] && sources[..0] == [];
    assert HtpAll(sources) == HtpMerge([], changed.data) == changed.data by {
      var m := HtpMerge([], changed.data);
      forall i | 0 <= i < |m|
        ensures m[i] == changed.data[i]
      {
        assert Channel(m, i) == Channel(changed.data, i);
      }
    }
  }

  // ---------- what a caller sees ----------

  /**
   * The active priority, in plain numbers: the highest of all sources that have data, were ever heard of, and were heard
   * of less than 2.5 seconds ago, or zero if there is none.
   */
  lemma ActivePriority(mode: MergeMode, feeds: seq<Feed>, changed: DmxSource, now: nat, buffer: DmxBuffer)
    ensures var r := Merge(mode, feeds, changed, now, buffer);
      && (forall f :: f in feeds && 0 < f.source.timestamp && now - f.source.timestamp < 2_500_000 && f.source.data != [] ==>
            f.source.priority <= r.priority)
      && (r.priority == 0 || exists f :: f in feeds && 0 < f.source.timestamp && now - f.source.timestamp < 2_500_000
                                         && f.source.data != [] && f.source.priority == r.priority)
  {
    TopIsMaximum(feeds, now);
  }

  /** Feeds that were never heard of, not heard of for 2.5 seconds, or heard of without data, might as well not be there. */
  lemma OldFeedsDoNotCount(mode: MergeMode, feeds: seq<Feed>, fewer: seq<Feed>, changed: DmxSource, now: nat, buffer: DmxBuffer)
    requires forall f :: f in fewer ==> f in feeds
    requires forall f :: f in feeds && f !in fewer ==>
               f.source.timestamp == 0 || now - f.source.timestamp >= 2_500_000 || f.source.data == []
    ensures Merge(mode, feeds, changed, now, buffer) == Merge(mode, fewer, changed, now, buffer)
  {
    TopIsMaximum(feeds, now);
    TopIsMaximum(fewer, now);
    var top := TopPriority(feeds, now);
    AtPriorityIsFilter(feeds, now, top);
    AtPriorityIsFilter(fewer, now, top);
    assert TopPriority(fewer, now) == top;
    SameHtp(Winners(feeds, now), Winners(fewer, now));
  }

  /**
   * HTP: a change is accepted exactly if its source has data, is less than 2.5 seconds old and at the active priority. The
   * buffer is then as long as the longest of the sources of which the same can be said, and holds in each channel the
   * largest value of theirs; else it stays.
   */
  lemma HtpOutcome(feeds: seq<Feed>, changed: DmxSource, now: nat, buffer: DmxBuffer)
    requires forall f :: f in feeds && f.changed ==> f.source == changed
    requires exists f :: f in feeds && f.changed
    ensures var r := Merge(MergeHtp, feeds, changed, now, buffer);
      && (r.accepted <==> 0 < changed.timestamp && now - changed.timestamp < 2_500_000 && changed.data != [] && changed.priority == r.priority)
      && (r.accepted ==> exists sources: seq<DmxSource> ::
            && IsChannelMax(r.buffer, sources)
            && forall s: DmxSource :: s in sources <==>
                 && 0 < s.timestamp && now - s.timestamp < 2_500_000 && s.data != [] && s.priority == r.priority
                 && exists f :: f in feeds && f.source == s)
      && (!r.accepted ==> r.buffer == buffer)
  {
    var winners := Winners(feeds, now);
    AtPriorityIsFilter(feeds, now, TopPriority(feeds, now));
    HtpIsChannelMax(Sources(winners));
    SourcesOf(winners);
    var c :| c in feeds && c.changed;
    assert c in winners <==> c.source.IsLive(now) && c.source.priority == TopPriority(feeds, now);
    var sources := Sources(winners);
    assert IsChannelMax(HtpAll(sources), sources);
  }

  /**
   * LTP: a change takes effect exactly when the changed source has data, is less than 2.5 seconds old, and no other such
   * source has a higher priority, or the same and is newer; the buffer then holds its data.
   */
  lemma LtpOutcome(feeds: seq<Feed>, changed: DmxSource, now: nat, buffer: DmxBuffer)
    requires forall f :: f in feeds && f.changed ==> f.source == changed
    requires exists f :: f in feeds && f.changed
    ensures var r := Merge(MergeLtp, feeds, changed, now, buffer);
      && (r.accepted <==>
            && 0 < changed.timestamp && now - changed.timestamp < 2_500_000 && changed.data != []
            && forall f :: f in feeds && 0 < f.source.timestamp && now - f.source.timestamp < 2_500_000 && f.source.data != [] ==>
                 || f.source.priority < changed.priority
                 || (f.source.priority == changed.priority && f.source.timestamp <= changed.timestamp))
      && r.buffer == if r.accepted then changed.data else buffer
  {
    TopIsMaximum(feeds, now);
    var top := TopPriority(feeds, now);
    AtPriorityIsFilter(feeds, now, top);
    var c :| c in feeds && c.changed;
    if changed.IsLive(now) && forall f :: f in feeds && f.source.IsLive(now) ==> f.source.priority <= changed.priority {
      assert changed.priority == top;
      assert c in Winners(feeds, now);
    }
  }
}
