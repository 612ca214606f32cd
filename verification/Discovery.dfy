/** The index from responder UIDs to output ports, and how rounds of RDM discovery keep it. */
module Discovery {
  import opened Sequences

  type Uid = nat

  /** One port's answer in a discovery round. */
  datatype Report<P> = Report(port: P, uids: set<Uid>)

  type Owners<P> = map<Uid, P>

  /** Without the UIDs the reporting port owned and no longer reports. */
  function DropLost<P(==)>(owners: Owners<P>, r: Report<P>): Owners<P> {
    map u | u in owners && (owners[u] != r.port || u in r.uids) :: owners[u]
  }

  /** With the reported UIDs that nobody owns. */
  function AddFound<P(==)>(owners: Owners<P>, r: Report<P>): Owners<P> {
    map u | u in owners.Keys + r.uids :: if u in owners then owners[u] else r.port
  }

  /** The index after one port reports. */
  function NewUids<P(==)>(owners: Owners<P>, r: Report<P>): Owners<P> {
    AddFound(DropLost(owners, r), r)
  }

  /** The owner of `u` after one report. */
  function After<P(==)>(owner: Option<P>, u: Uid, r: Report<P>): Option<P> {
    if owner == Some(r.port) && u !in r.uids then None
    else if owner == None && u in r.uids then Some(r.port)
    else owner
  }

  /** The index after the reports of a round, in the order the ports complete. */
  function Round<P(==)>(owners: Owners<P>, reports: seq<Report<P>>): Owners<P>
    decreases |reports|
  {
    if reports == [] then owners else Round(NewUids(owners, reports[0]), reports[1..])
  }

  /** What is in the index then: what the port reports, and what others owned; and nobody has lost a UID to another port. */
  lemma OneReport<P>(owners: Owners<P>, port: P, found: set<Uid>)
    ensures var next := NewUids(owners, Report(port, found));
      && (forall u :: u in next <==> u in found || (u in owners && owners[u] != port))
      && forall u :: u in next ==> next[u] == if u in owners then owners[u] else port
  {
  }

  /** Owners stay within `bound` exactly when the reporting port is bound or reports no UID that is new. */
  lemma OwnersStayBound<P>(owners: Owners<P>, r: Report<P>, bound: seq<P>)
    requires forall u :: u in owners ==> owners[u] in bound
    ensures var next := NewUids(owners, r);
      (forall u :: u in next ==> next[u] in bound) <==> r.port in bound || r.uids <= owners.Keys
  {
    var next := NewUids(owners, r);
    if u :| u in r.uids && u !in owners {
      assert next[u] == r.port;
    }
  }

  function OwnerOf<P>(owners: Owners<P>, u: Uid): Option<P> {
    if u in owners then Some(owners[u]) else None
  }

  /** The owner of `u` through the reports of a round. */
  function Track<P(==)>(owner: Option<P>, u: Uid, reports: seq<Report<P>>): Option<P>
    decreases |reports|
  {
    if reports == [] then owner else Track(After(owner, u, reports[0]), u, reports[1..])
  }

  lemma {:induction false} RoundTracks<P>(owners: Owners<P>, reports: seq<Report<P>>, u: Uid)
    ensures OwnerOf(Round(owners, reports), u) == Track(OwnerOf(owners, u), u, reports)
    decreases |reports|
  {
    if reports != [] {
      RoundTracks(NewUids(owners, reports[0]), reports[1..], u);
    }
  }

  // ---------- what a round is ----------

  /** No port completes twice. */
  ghost predicate DistinctPorts<P>(reports: seq<Report<P>>) {
    forall i, j :: 0 <= i < j < |reports| ==> reports[i].port != reports[j].port
  }

  ghost predicate InRound<P>(port: P, reports: seq<Report<P>>) {
    exists r :: r in reports && r.port == port
  }

  ghost predicate Reports<P>(port: P, u: Uid, reports: seq<Report<P>>) {
    exists r :: r in reports && r.port == port && u in r.uids
  }

  ghost predicate Reported<P>(u: Uid, reports: seq<Report<P>>) {
    exists r :: r in reports && u in r.uids
  }

  /** A complete round: each port completes once, and every port that owns a UID is asked. */
  ghost predicate Complete<P>(owners: Owners<P>, reports: seq<Report<P>>) {
    && DistinctPorts(reports)
    && forall u :: u in owners ==> InRound(owners[u], reports)
  }

  /** Some port reports `u` after the owner has made its own report. */
  ghost predicate ReportedAfter<P>(owner: P, u: Uid, reports: seq<Report<P>>)
    decreases |reports|
  {
    reports != []
    && if reports[0].port == owner then Reported(u, reports[1..]) else ReportedAfter(owner, u, reports[1..])
  }

  // ---------- one UID through one round ----------

  lemma {:induction false} TrackUnowned<P>(u: Uid, reports: seq<Report<P>>)
    requires DistinctPorts(reports)
    ensures var o := Track(None, u, reports);
      if Reported(u, reports) then o.Some? && Reports(o.value, u, reports) else o == None
  {
    if reports != [] {
      var r, rest := reports[0], reports[1..];
      assert reports == [r] + rest;
      if u in r.uids {
        assert r in reports;
        TrackOwned(r.port, u, rest);
        assert Track(None, u, reports) == Some(r.port);
      } else {
        TrackUnowned(u, rest);
        InTail(r, rest, u);
      }
    }
  }

  /** A report that does not mention `u` adds nothing about `u`. */
  lemma InTail<P>(r: Report<P>, rest: seq<Report<P>>, u: Uid)
    requires u !in r.uids
    ensures Reported(u, [r] + rest) <==> Reported(u, rest)
    ensures forall p :: Reports(p, u, rest) <==> Reports(p, u, [r] + rest)
  {
  }

  /** A port whose own report is not among these, or mentions `u`, keeps `u`. */
  lemma {:induction false} TrackOwned<P>(owner: P, u: Uid, reports: seq<Report<P>>)
    requires forall r :: r in reports && r.port == owner ==> u in r.uids
    ensures Track(Some(owner), u, reports) == Some(owner)
  {
    if reports != [] {
      assert reports[0] in reports;
      TrackOwned(owner, u, reports[1..]);
    }
  }

  /** A port that does not report `u` loses it, and whoever reports `u` later gets it. */
  lemma {:induction false} TrackLost<P>(owner: P, u: Uid, reports: seq<Report<P>>)
    requires DistinctPorts(reports) && InRound(owner, reports) && !Reports(owner, u, reports)
    ensures var o := Track(Some(owner), u, reports);
      if ReportedAfter(owner, u, reports) then o.Some? && Reports(o.value, u, reports) else o == None
    decreases |reports|
  {
    var r, rest := reports[0], reports[1..];
    assert reports == [r] + rest;
    TailReports(r, rest, u);
    if r.port == owner {
      assert u !in r.uids;
      TrackUnowned(u, rest);
    } else {
      assert InRound(owner, rest);
      TrackLost(owner, u, rest);
    }
  }

  lemma TailReports<P>(r: Report<P>, rest: seq<Report<P>>, u: Uid)
    ensures forall p :: Reports(p, u, rest) ==> Reports(p, u, [r] + rest)
    ensures u in r.uids ==> Reports(r.port, u, [r] + rest)
  {
    assert r in [r] + rest;
  }

  // ---------- one round ----------

  /** What a complete round does to each UID: the exact condition under which it is in the index afterwards. */
  ghost predicate Survives<P>(owners: Owners<P>, u: Uid, reports: seq<Report<P>>) {
    if u !in owners then Reported(u, reports)
    else Reports(owners[u], u, reports) || ReportedAfter(owners[u], u, reports)
  }

  /**
   * After a complete round every UID in the index was reported by the port that owns it, and the UIDs in it are
   * exactly those nobody owned and someone reported, those whose owner reported them, and those reported by someone
   * after the owner reported without them. So one round gives the union of the reports exactly when no UID's owner
   * lost it after its new ports had all completed.
   */
  lemma CompleteRound<P>(owners: Owners<P>, reports: seq<Report<P>>, u: Uid)
    requires Complete(owners, reports)
    ensures var next := Round(owners, reports);
      && (u in next <==> Survives(owners, u, reports))
      && (u in next ==> Reports(next[u], u, reports))
  {
    RoundTracks(owners, reports, u);
    if u !in owners {
      TrackUnowned(u, reports);
    } else if Reports(owners[u], u, reports) {
      forall r | r in reports && r.port == owners[u]
        ensures u in r.uids
      {
        SameReport(reports, r, owners[u], u);
      }
      TrackOwned(owners[u], u, reports);
    } else {
      TrackLost(owners[u], u, reports);
    }
  }

  lemma SameReport<P>(reports: seq<Report<P>>, r: Report<P>, port: P, u: Uid)
    requires DistinctPorts(reports) && r in reports && r.port == port && Reports(port, u, reports)
    ensures u in r.uids
  {
  }

  /** One round is enough exactly when no reported UID is stuck with an owner that completes after all its reporters. */
  lemma OneRoundExact<P>(owners: Owners<P>, reports: seq<Report<P>>)
    requires Complete(owners, reports)
    ensures (forall u :: u in Round(owners, reports) <==> Reported(u, reports))
        <==> (forall u :: u in owners && Reported(u, reports) && !Reports(owners[u], u, reports) ==>
                ReportedAfter(owners[u], u, reports))
  {
    forall u
      ensures (u in Round(owners, reports) <==> Reported(u, reports))
          <==> (u in owners && Reported(u, reports) && !Reports(owners[u], u, reports) ==> ReportedAfter(owners[u], u, reports))
    {
      CompleteRound(owners, reports, u);
      if u in owners && ReportedAfter(owners[u], u, reports) {
        AfterIsReported(owners[u], u, reports);
      }
    }
  }

  lemma {:induction false} AfterIsReported<P>(owner: P, u: Uid, reports: seq<Report<P>>)
    requires ReportedAfter(owner, u, reports)
    ensures Reported(u, reports)
    decreases |reports|
  {
    if reports[0].port != owner {
      AfterIsReported(owner, u, reports[1..]);
    }
    assert exists r :: r in reports[1..] && u in r.uids;
  }

  /** A UID that moved from port 0 to port 1 is missing after a round in which port 1 completes first. */
  lemma OneRoundCanLoseAMovedUid(u: Uid)
    ensures var reports := [Report(1, {u}), Report(0, {})];
      Complete(map[u := 0], reports) && Reported(u, reports) && u !in Round(map[u := 0], reports)
  {
    var reports := [Report(1, {u}), Report(0, {})];
    assert reports[1].port == 0 && reports[0].uids == {u};
    assert Round(map[u := 0], reports) == Round(map[u := 0], reports[1..]);
  }

  // ---------- two rounds ----------

  /**
   * Two complete rounds with the same answers, each in any completion order, leave exactly the union of the reports in
   * the index, every UID owned by a port that reported it; a UID seen on several ports, or moved between ports, included.
   */
  lemma TwoRoundsConverge<P>(owners: Owners<P>, first: seq<Report<P>>, second: seq<Report<P>>, u: Uid)
    requires Complete(owners, first) && DistinctPorts(second)
    requires forall r :: r in first <==> r in second
    ensures var final := Round(Round(owners, first), second);
      && (u in final <==> Reported(u, second))
      && (u in final ==> Reports(final[u], u, second))
  {
    var middle := Round(owners, first);
    forall v | v in middle
      ensures InRound(middle[v], second)
    {
      CompleteRound(owners, first, v);
    }
    CompleteRound(owners, first, u);
    CompleteRound(middle, second, u);
    if u in middle {
      assert Reports(middle[u], u, second);
    }
  }

  /** And there it stays: once every owner reports its UIDs and nothing reported is missing, a round changes nothing. */
  lemma RoundsAreStable<P>(owners: Owners<P>, reports: seq<Report<P>>)
    requires DistinctPorts(reports)
    requires forall u :: u in owners ==> Reports(owners[u], u, reports)
    requires forall u :: Reported(u, reports) ==> u in owners
    ensures Round(owners, reports) == owners
  {
    forall u
      ensures OwnerOf(Round(owners, reports), u) == OwnerOf(owners, u)
    {
      RoundTracks(owners, reports, u);
      if u in owners {
        forall r | r in reports && r.port == owners[u]
          ensures u in r.uids
        {
          SameReport(reports, r, owners[u], u);
        }
        TrackOwned(owners[u], u, reports);
      } else {
        TrackUnowned(u, reports);
      }
    }
    assert forall u :: u in owners <==> OwnerOf(owners, u).Some?;
    assert forall u :: u in Round(owners, reports) <==> OwnerOf(Round(owners, reports), u).Some?;
  }
}
