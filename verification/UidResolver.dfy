/** Looking up the labels of the UIDs on a universe, one RDM request at a time. */
module UidResolver {
  import opened Sequences
  import opened Discovery

  datatype Action = ResolveManufacturer | ResolveDevice

  datatype Lookup = Lookup(uid: Uid, action: Action)

  datatype Entry = Entry(manufacturer: string, device: string, active: bool)

  ghost predicate SameLabels(a: Entry, b: Entry) {
    a.manufacturer == b.manufacturer && a.device == b.device
  }

  /** The list `now` after the UIDs in `done` have been marked on the list `was`. */
  ghost predicate Marked(now: map<Uid, Entry>, was: map<Uid, Entry>, done: seq<Uid>) {
    && (forall u :: u in now <==> u in was || u in done)
    && (forall u :: u in now ==> (now[u].active <==> u in done))
    && (forall u :: u in now ==> SameLabels(now[u], if u in was then was[u] else Entry("", "", true)))
  }

  lemma MarkedMeans(now: map<Uid, Entry>, was: map<Uid, Entry>, done: seq<Uid>, u: Uid)
    requires Marked(now, was, done)
    ensures u in now <==> u in was || u in done
  {
  }

  lemma MarkedOneMore(now: map<Uid, Entry>, was: map<Uid, Entry>, done: seq<Uid>, u: Uid)
    requires Marked(now, was, done)
    ensures Marked(now[u := if u in now then now[u].(active := true) else Entry("", "", true)], was, done + [u])
  {
  }

  lemma NothingMarked(list: map<Uid, Entry>)
    requires forall u :: u in list ==> !list[u].active
    ensures Marked(list, list, [])
  {
  }

  /** `added` are the positions in `uids`, in order, of the UIDs that were not listed before. */
  ghost predicate AreNew(added: seq<nat>, uids: seq<Uid>, before: set<Uid>) {
    && (forall i, j :: 0 <= i < j < |added| ==> added[i] < added[j])
    && (forall i: nat :: i in added <==> i < |uids| && uids[i] !in before)
  }

  /** `queue` is the manufacturer and the device lookup of each UID that is new, in the order of the report. */
  ghost predicate LookupsOf(queue: seq<Lookup>, added: seq<nat>, uids: seq<Uid>) {
    && |queue| == 2 * |added|
    && forall i :: 0 <= i < |added| && added[i] < |uids| ==>
         && queue[2 * i] == Lookup(uids[added[i]], ResolveManufacturer)
         && queue[2 * i + 1] == Lookup(uids[added[i]], ResolveDevice)
  }

  /** The UIDs listed before are where they were in the queue, and the others were queued after its first `n` lookups. */
  ghost predicate AddedSince(now: set<Uid>, addedAt: map<Uid, nat>, before: set<Uid>, was: map<Uid, nat>, n: nat) {
    forall u :: u in now ==> u in addedAt && if u in before then u in was && addedAt[u] == was[u] else addedAt[u] >= n
  }

  lemma OneMoreAdded(now: set<Uid>, addedAt: map<Uid, nat>, before: set<Uid>, was: map<Uid, nat>, n: nat, u: Uid, at: nat)
    requires AddedSince(now, addedAt, before, was, n)
    ensures u !in before && at >= n ==> AddedSince(now + {u}, addedAt[u := at], before, was, n)
    ensures u in now ==> AddedSince(now + {u}, addedAt, before, was, n)
  {
  }

  lemma OneMoreReported(queue: seq<Lookup>, added: seq<nat>, uids: seq<Uid>, u: Uid, before: set<Uid>)
    requires AreNew(added, uids, before) && LookupsOf(queue, added, uids)
    ensures u in before ==> AreNew(added, uids + [u], before) && LookupsOf(queue, added, uids + [u])
    ensures u !in before ==>
              && AreNew(added + [|uids|], uids + [u], before)
              && LookupsOf(queue + [Lookup(u, ResolveManufacturer), Lookup(u, ResolveDevice)], added + [|uids|], uids + [u])
  {
    assert forall i :: 0 <= i < |added| ==> added[i] in added;
    if u !in before {
      forall i: nat
        ensures i in added + [|uids|] <==> i < |uids + [u]| && (uids + [u])[i] !in before
      {
        assert i in added + [|uids|] <==> i in added || i == |uids|;
      }
    }
  }

  /**
   * What can happen between two returns to the event loop. `accepts(k)` is the verdict of the RDM API on the k-th request
   * that it is handed before the next return.
   */
  datatype Event =
    | UidList(success: bool, uids: seq<Uid>, accepts: nat -> bool)
    | LookupDone(success: bool, text: string, accepts: nat -> bool)

  /** The resolution state of one universe. */
  class Resolution {
    var resolved: map<Uid, Entry>
    var pending: seq<Lookup>
    var running: bool
    /** The request that has been sent and not answered. */
    var outstanding: Option<Lookup>
    /** Every lookup ever queued, and every lookup ever handed to the RDM API, whether it was accepted or not. */
    ghost var queued: seq<Lookup>
    ghost var asked: seq<Lookup>
    /** Where in `queued` the lookups of a UID start that were queued when it was last added to the list. */
    ghost var addedAt: map<Uid, nat>

    constructor ()
      ensures Valid() && resolved == map[] && !running && queued == []
    {
      resolved, pending, running := map[], [], false;
      outstanding, queued, asked, addedAt := None, [], [], map[];
    }

    /** Lookups leave the queue for the RDM API, once each, in the order they were queued. */
    ghost predicate Fifo()
      reads this`queued, this`asked, this`pending
    {
      queued == asked + pending
    }

    /** Both lookups of every listed UID were queued, the manufacturer first, when it was last added. */
    ghost predicate Covered()
      reads this`resolved, this`addedAt, this`queued
    {
      forall u :: u in resolved ==>
        && u in addedAt && addedAt[u] + 1 < |queued|
        && queued[addedAt[u]] == Lookup(u, ResolveManufacturer) && queued[addedAt[u] + 1] == Lookup(u, ResolveDevice)
    }

    /** No request is in flight unless the state says so, and the queue never waits for nothing. */
    ghost predicate Awake()
      reads this
    {
      && (running <==> outstanding.Some?)
      && (!running ==> pending == [])
    }

    ghost predicate Valid()
      reads this
    {
      Fifo() && Covered() && Awake()
    }

    /** When nothing is in flight, the RDM API has been asked both labels of every listed UID since it was added. */
    lemma IdleMeansDone()
      requires Valid() && outstanding == None
      ensures pending == [] && asked == queued
      ensures forall u :: u in resolved ==>
                && u in addedAt && addedAt[u] + 1 < |asked|
                && asked[addedAt[u]] == Lookup(u, ResolveManufacturer) && asked[addedAt[u] + 1] == Lookup(u, ResolveDevice)
    {
      assert asked == queued;
    }

    /** The requests still to be answered or sent. */
    ghost function Work(): nat
      reads this
    {
      |pending| + if outstanding.Some? then 1 else 0
    }

    /** Hand the request to the RDM API, which may refuse it. Never while another request is in flight. */
    method Send(lookup: Lookup, accepted: bool) returns (sent: bool)
      requires outstanding == None
      modifies this`outstanding, this`asked
      ensures sent == accepted && asked == old(asked) + [lookup]
      ensures outstanding == if sent then Some(lookup) else None
    {
      asked := asked + [lookup];
      if accepted {
        outstanding := Some(lookup);
      }
      return accepted;
    }

    /** `queue` has been offered in order, after `before`, up to the first lookup that the API accepted, which is in flight. */
    ghost predicate Offered(queue: seq<Lookup>, before: seq<Lookup>, accepts: nat -> bool)
      reads this
    {
      || (&& (forall k :: 0 <= k < |queue| ==> !accepts(k))
          && outstanding == None && pending == [] && asked == before + queue)
      || exists k :: && 0 <= k < |queue| && accepts(k) && (forall j :: 0 <= j < k ==> !accepts(j))
                     && outstanding == Some(queue[k]) && pending == queue[k + 1..] && asked == before + queue[..k + 1]
    }

    /**
     * The request in flight afterwards is the first in the queue that the API accepts: it and all before it have been handed
     * over, and the rest stays queued. There is none exactly if the API accepts nothing, and then all have been handed over.
     */
    method ResolveNextUid(accepts: nat -> bool)
      requires Fifo() && Covered() && outstanding == None
      modifies this`pending, this`running, this`outstanding, this`asked
      ensures Valid() && Work() <= old(|pending|)
      ensures Offered(old(pending), old(asked), accepts)
      ensures outstanding == None <==> forall k :: 0 <= k < old(|pending|) ==> !accepts(k)
      ensures outstanding == None ==> pending == [] && asked == old(asked) + old(pending)
      ensures forall k :: 0 <= k < old(|pending|) && accepts(k) && (forall j :: 0 <= j < k ==> !accepts(j)) ==>
                && outstanding == Some(old(pending)[k])
                && pending == old(pending)[k + 1..] && asked == old(asked) + old(pending)[..k + 1]
    {
      hide Offered;
      hide Covered;
      var sentRequest := false;
      var requests := 0;
      while !sentRequest
        invariant Fifo() && Covered() && requests <= old(|pending|)
        invariant pending == old(pending)[requests..] && asked == old(asked) + old(pending)[..requests]
        invariant forall k :: 0 <= k < requests && (sentRequest ==> k < requests - 1) ==> !accepts(k)
        invariant if sentRequest then running && requests > 0 && accepts(requests - 1) && outstanding == Some(old(pending)[requests - 1])
                  else outstanding == None
        decreases |pending| + if sentRequest then 0 else 1
      {
        if pending == [] {
          running := false;
          OfferedSoFar(old(pending), old(asked), accepts, requests);
          return;
        }
        running := true;
        sentRequest := Send(pending[0], accepts(requests));
        pending := pending[1..];
        requests := requests + 1;
      }
      OfferedSoFar(old(pending), old(asked), accepts, requests);
    }

    lemma OfferedSoFar(queue: seq<Lookup>, before: seq<Lookup>, accepts: nat -> bool, requests: nat)
      requires requests <= |queue| && pending == queue[requests..] && asked == before + queue[..requests]
      requires forall k :: 0 <= k < requests && (outstanding.Some? ==> k < requests - 1) ==> !accepts(k)
      requires if outstanding.Some? then requests > 0 && accepts(requests - 1) && outstanding == Some(queue[requests - 1])
               else requests == |queue|
      ensures Offered(queue, before, accepts)
      ensures outstanding == None <==> forall k :: 0 <= k < |queue| ==> !accepts(k)
      ensures forall k :: 0 <= k < |queue| && accepts(k) && (forall j :: 0 <= j < k ==> !accepts(j)) ==>
                outstanding == Some(queue[k]) && pending == queue[k + 1..] && asked == before + queue[..k + 1]
    {
      if outstanding.Some? {
        assert pending == queue[requests - 1 + 1..] && asked == before + queue[..requests - 1 + 1];
        forall k | 0 <= k < |queue| && accepts(k) && (forall j :: 0 <= j < k ==> !accepts(j))
          ensures k == requests - 1
        {
        }
      }
    }

    /** The list after a report: exactly the reported UIDs, those already listed with the labels they had. */
    ghost predicate Listed(before: map<Uid, Entry>, uids: seq<Uid>)
      reads this`resolved
    {
      && (forall u :: u in resolved <==> u in uids)
      && forall u :: u in resolved ==>
           && resolved[u].manufacturer == (if u in before then before[u].manufacturer else "")
           && resolved[u].device == (if u in before then before[u].device else "")
    }

    /**
     * A report of the UIDs on the universe; a failed one changes nothing. The lookups of the UIDs that are new, and of no
     * others, join the queue; unless a request is in flight they are offered to the API at once.
     */
    method HandleUidList(success: bool, uids: seq<Uid>, accepts: nat -> bool) returns (ghost added: seq<nat>)
      requires Valid() && NoDup(uids)
      modifies this
      ensures Valid()
      ensures if success then Listed(old(resolved), uids) else unchanged(this)
      ensures success ==> AreNew(added, uids, old(resolved.Keys))
      ensures success ==> old(queued) <= queued && LookupsOf(queued[old(|queued|)..], added, uids)
      ensures success ==> AddedSince(resolved.Keys, addedAt, old(resolved.Keys), old(addedAt), old(|queued|))
      ensures old(running) ==> running && outstanding == old(outstanding) && asked == old(asked)
      ensures success && !old(running) ==> Offered(queued[old(|queued|)..], old(asked), accepts)
    {
      hide Covered;
      hide NoDup;
      hide Listed;
      hide AreNew;
      hide LookupsOf;
      hide Offered;
      added := [];
      if !success {
        return;
      }
      added := Relist(uids);
      if !running {
        assert pending == queued[old(|queued|)..];
        ResolveNextUid(accepts);
      }
    }

    /** Make the list what was reported. */
    method Relist(uids: seq<Uid>) returns (ghost added: seq<nat>)
      requires Fifo() && Covered() && NoDup(uids)
      modifies this`resolved, this`pending, this`queued, this`addedAt
      ensures Fifo() && Covered() && Listed(old(resolved), uids) && AreNew(added, uids, old(resolved.Keys))
      ensures old(queued) <= queued && LookupsOf(queued[old(|queued|)..], added, uids)
      ensures AddedSince(resolved.Keys, addedAt, old(resolved.Keys), old(addedAt), old(|queued|))
    {
      hide Fifo;
      hide NoDup;
      hide AreNew;
      hide LookupsOf;
      MarkAllInactive();
      assert resolved.Keys == old(resolved.Keys);
      added := MarkReported(uids);
      RemoveInactive();
    }

    /** List the next UID if it is new, and mark it; `added` are those so far. */
    method MarkOne(u: Uid, ghost was: map<Uid, Entry>, ghost done: seq<Uid>, ghost added: seq<nat>,
                   ghost placed: map<Uid, nat>, ghost front: seq<Lookup>)
        returns (ghost more: seq<nat>)
      requires Fifo() && Covered() && u !in done && AreNew(added, done, was.Keys) && Marked(resolved, was, done)
      requires front <= queued && LookupsOf(queued[|front|..], added, done)
      requires AddedSince(resolved.Keys, addedAt, was.Keys, placed, |front|)
      modifies this`resolved, this`pending, this`queued, this`addedAt
      ensures Fifo() && Covered() && AreNew(more, done + [u], was.Keys) && Marked(resolved, was, done + [u])
      ensures front <= queued && LookupsOf(queued[|front|..], more, done + [u])
      ensures AddedSince(resolved.Keys, addedAt, was.Keys, placed, |front|)
    {
      hide Fifo;
      hide Covered;
      hide Marked;
      hide AreNew;
      hide LookupsOf;
      hide AddedSince;
      MarkedMeans(resolved, was, done, u);
      MarkedOneMore(resolved, was, done, u);
      OneMoreReported(queued[|front|..], added, done, u, was.Keys);
      OneMoreAdded(resolved.Keys, addedAt, was.Keys, placed, |front|, u, |queued|);
      ghost var before, tail := resolved.Keys, queued[|front|..];
      if u !in resolved {
        Enqueue(u);
        assert queued[|front|..] == tail + [Lookup(u, ResolveManufacturer), Lookup(u, ResolveDevice)];
        more := added + [|done|];
      } else {
        Refresh(u);
        more := added;
      }
      assert resolved.Keys == before + {u};
    }

    lemma AddedBefore()
      requires Covered()
      ensures AddedSince(resolved.Keys, addedAt, resolved.Keys, addedAt, |queued|)
    {
    }

    /** List the UIDs that are new, and mark all that were reported. */
    method MarkReported(uids: seq<Uid>) returns (ghost added: seq<nat>)
      requires Fifo() && Covered() && NoDup(uids) && forall u :: u in resolved ==> !resolved[u].active
      modifies this`resolved, this`pending, this`queued, this`addedAt
      ensures Fifo() && Covered() && AreNew(added, uids, old(resolved.Keys)) && Marked(resolved, old(resolved), uids)
      ensures old(queued) <= queued && LookupsOf(queued[old(|queued|)..], added, uids)
      ensures AddedSince(resolved.Keys, addedAt, old(resolved.Keys), old(addedAt), old(|queued|))
    {
      hide Fifo;
      hide Covered;
      hide Marked;
      added := [];
      NothingMarked(resolved);
      assert AreNew(added, [], resolved.Keys) && LookupsOf([], added, []);
      AddedBefore();
      hide AddedSince;
      hide AreNew;
      hide LookupsOf;
      for i := 0 to |uids|
        invariant Fifo() && Covered() && AreNew(added, uids[..i], old(resolved.Keys)) && Marked(resolved, old(resolved), uids[..i])
        invariant old(queued) <= queued && LookupsOf(queued[old(|queued|)..], added, uids[..i])
        invariant AddedSince(resolved.Keys, addedAt, old(resolved.Keys), old(addedAt), old(|queued|))
      {
        assert uids[..i + 1] == uids[..i] + [uids[i]];
        added := MarkOne(uids[i], old(resolved), uids[..i], added, old(addedAt), old(queued));
      }
      assert uids[..|uids|] == uids;
    }

    method MarkAllInactive()
      requires Fifo() && Covered()
      modifies this`resolved
      ensures Fifo() && Covered()
      ensures resolved == map u | u in old(resolved) :: old(resolved)[u].(active := false)
    {
      var todo := resolved.Keys;
      while todo != {}
        invariant todo <= resolved.Keys == old(resolved).Keys
        invariant forall u :: u in resolved ==> resolved[u] == if u in todo then old(resolved)[u] else old(resolved)[u].(active := false)
      {
        var u :| u in todo;
        resolved := resolved[u := resolved[u].(active := false)];
        todo := todo - {u};
      }
    }

    /** A UID that is new to the list: queue both its lookups. */
    method Enqueue(u: Uid)
      requires Fifo() && Covered() && u !in resolved
      modifies this`resolved, this`pending, this`queued, this`addedAt
      ensures Fifo() && Covered()
      ensures resolved == old(resolved)[u := Entry("", "", true)]
      ensures queued == old(queued) + [Lookup(u, ResolveManufacturer), Lookup(u, ResolveDevice)]
      ensures addedAt == old(addedAt)[u := old(|queued|)]
    {
      pending := pending + [Lookup(u, ResolveManufacturer)];
      pending := pending + [Lookup(u, ResolveDevice)];
      addedAt := addedAt[u := |queued|];
      queued := queued + [Lookup(u, ResolveManufacturer), Lookup(u, ResolveDevice)];
      resolved := resolved[u := Entry("", "", true)];
    }

    method Refresh(u: Uid)
      requires Fifo() && Covered() && u in resolved
      modifies this`resolved
      ensures Fifo() && Covered()
      ensures resolved == old(resolved)[u := old(resolved)[u].(active := true)]
    {
      resolved := resolved[u := resolved[u].(active := true)];
    }

    method RemoveInactive()
      requires Fifo() && Covered()
      modifies this`resolved
      ensures Fifo() && Covered()
      ensures resolved == map u | u in old(resolved) && old(resolved)[u].active :: old(resolved)[u]
    {
      var todo := resolved.Keys;
      while todo != {}
        invariant todo <= resolved.Keys <= old(resolved).Keys
        invariant forall u :: u in old(resolved) ==> (u in resolved <==> u in todo || old(resolved)[u].active)
        invariant forall u :: u in resolved ==> resolved[u] == old(resolved)[u]
      {
        var u :| u in todo;
        if !resolved[u].active {
          resolved := map v | v in resolved && v != u :: resolved[v];
        }
        todo := todo - {u};
      }
    }

    /**
     * The callback of a manufacturer request. The label goes to the UID that was asked for, if it is still listed, and the
     * next lookups are offered to the API.
     */
    method UpdateUidManufacturerLabel(uid: Uid, success: bool, text: string, accepts: nat -> bool)
      requires Valid() && outstanding == Some(Lookup(uid, ResolveManufacturer))
      modifies this
      ensures Valid() && unchanged(this`queued, this`addedAt) && Work() < old(Work())
      ensures Offered(old(pending), old(asked), accepts)
      ensures resolved == if success && uid in old(resolved) then old(resolved)[uid := old(resolved)[uid].(manufacturer := text)] else old(resolved)
    {
      hide Offered;
      outstanding := None;
      if success && uid in resolved {
        resolved := resolved[uid := resolved[uid].(manufacturer := text)];
      }
      ResolveNextUid(accepts);
    }

    /** The callback of a device request. */
    method UpdateUidDeviceLabel(uid: Uid, success: bool, text: string, accepts: nat -> bool)
      requires Valid() && outstanding == Some(Lookup(uid, ResolveDevice))
      modifies this
      ensures Valid() && unchanged(this`queued, this`addedAt) && Work() < old(Work())
      ensures Offered(old(pending), old(asked), accepts)
      ensures resolved == if success && uid in old(resolved) then old(resolved)[uid := old(resolved)[uid].(device := text)] else old(resolved)
    {
      hide Offered;
      outstanding := None;
      if success && uid in resolved {
        resolved := resolved[uid := resolved[uid].(device := text)];
      }
      ResolveNextUid(accepts);
    }

    /** Any sequence of reports and replies. The list is always the last one reported. */
    method Run(events: seq<Event>)
      requires Valid()
      requires forall e :: e in events && e.UidList? ==> NoDup(e.uids)
      modifies this
      ensures Valid() && old(asked) <= asked && old(queued) <= queued
      ensures resolved.Keys == LastReported(old(resolved).Keys, events)
    {
      hide Fifo;
      hide Covered;
      for i := 0 to |events|
        invariant Valid() && old(asked) <= asked && old(queued) <= queued
        invariant resolved.Keys == LastReported(old(resolved).Keys, events[..i])
      {
        assert events[..i + 1][..i] == events[..i];
        match events[i] {
          case UidList(success, uids, accepts) =>
            ghost var _ := HandleUidList(success, uids, accepts);
            assert success ==> resolved.Keys == set u | u in uids;
          case LookupDone(success, text, accepts) => Reply(success, text, accepts);
        }
      }
      assert events[..|events|] == events;
    }

    /** The reply to the request in flight, if there is one. */
    method Reply(success: bool, text: string, accepts: nat -> bool)
      requires Valid()
      modifies this
      ensures Valid() && resolved.Keys == old(resolved).Keys && unchanged(this`queued, this`addedAt)
      ensures if old(outstanding).Some? then Work() < old(Work()) && Offered(old(pending), old(asked), accepts) else unchanged(this)
    {
      match outstanding {
        case None =>
        case Some(Lookup(uid, ResolveManufacturer)) => UpdateUidManufacturerLabel(uid, success, text, accepts);
        case Some(Lookup(uid, ResolveDevice)) => UpdateUidDeviceLabel(uid, success, text, accepts);
      }
    }

    /**
     * If replies keep coming, and no report, the RDM API is asked everything that was queued, in order, among it both labels
     * of every listed UID since it was added, and the resolver comes to rest.
     */
    method Drain()
      requires Valid()
      modifies this
      ensures Valid() && !running && outstanding == None && pending == []
      ensures unchanged(this`queued, this`addedAt) && asked == queued && resolved.Keys == old(resolved).Keys
      ensures forall u :: u in resolved ==>
                && u in addedAt && addedAt[u] + 1 < |asked|
                && asked[addedAt[u]] == Lookup(u, ResolveManufacturer) && asked[addedAt[u] + 1] == Lookup(u, ResolveDevice)
    {
      while running
        invariant Valid() && unchanged(this`queued, this`addedAt) && resolved.Keys == old(resolved).Keys
        decreases Work()
      {
        var success, text := *, *;
        var accepts: nat -> bool := *;
        Reply(success, text, accepts);
      }
      IdleMeansDone();
    }
  }

  /** The UIDs of the last successful report. */
  ghost function LastReported(first: set<Uid>, events: seq<Event>): set<Uid> {
    if events == [] then first
    else
      var last := events[|events| - 1];
      if last.UidList? && last.success then set u | u in last.uids else LastReported(first, events[..|events| - 1])
  }
}
