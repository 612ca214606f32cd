/** The staleness flags of a universe's source clients, over any history of data, removals and sweeps. */
module SourceClients {

  /** What can happen to the source clients of one universe. */
  datatype Event<C> = Data(client: C) | Remove(client: C) | Sweep

  /** The client has been heard from: it is a source, and not stale. */
  function Heard<C(==)>(flags: map<C, bool>, c: C): map<C, bool> {
    flags[c := false]
  }

  function Removed<C(==)>(flags: map<C, bool>, c: C): map<C, bool> {
    map x | x in flags && x != c :: flags[x]
  }

  /** Drop the clients flagged stale, and flag the others. */
  function Swept<C(==)>(flags: map<C, bool>): map<C, bool> {
    map x | x in flags && !flags[x] :: true
  }

  function Apply<C(==)>(flags: map<C, bool>, e: Event<C>): map<C, bool> {
    match e
    case Data(c) => Heard(flags, c)
    case Remove(c) => Removed(flags, c)
    case Sweep => Swept(flags)
  }

  /** The flags after a whole history, from none. */
  function Replay<C(==)>(history: seq<Event<C>>): map<C, bool> {
    if history == [] then map[]
    else Apply(Replay(history[..|history| - 1]), history[|history| - 1])
  }

  lemma ReplayAppend<C>(history: seq<Event<C>>, e: Event<C>)
    ensures Replay(history + [e]) == Apply(Replay(history), e)
  {
    assert (history + [e])[..|history|] == history;
  }

  /** The number of sweeps in a history. */
  function Sweeps<C>(history: seq<Event<C>>): nat {
    if history == [] then 0
    else Sweeps(history[..|history| - 1]) + if history[|history| - 1].Sweep? then 1 else 0
  }

  /** At `i` the client sent data; it has not been removed since, and `n` sweeps have run since. */
  ghost predicate LastHeard<C>(history: seq<Event<C>>, c: C, i: nat, n: nat) {
    && i < |history| && history[i] == Data(c)
    && (forall j :: i < j < |history| ==> history[j] != Data(c) && history[j] != Remove(c))
    && Sweeps(history[i + 1..]) == n
  }

  lemma SweepsAppend<C>(history: seq<Event<C>>, e: Event<C>)
    ensures Sweeps(history + [e]) == Sweeps(history) + if e.Sweep? then 1 else 0
  {
    assert (history + [e])[..|history|] == history;
  }

  /** The last data of `c` after one more event. */
  lemma LastHeardStep<C>(history: seq<Event<C>>, e: Event<C>, c: C, i: nat, n: nat)
    requires LastHeard(history, c, i, n) && e != Data(c) && e != Remove(c)
    ensures LastHeard(history + [e], c, i, n + if e.Sweep? then 1 else 0)
  {
    assert (history + [e])[i + 1..] == history[i + 1..] + [e];
    SweepsAppend(history[i + 1..], e);
  }

  lemma LastHeardStepBack<C>(history: seq<Event<C>>, e: Event<C>, c: C, i: nat, n: nat)
    requires LastHeard(history + [e], c, i, n) && e != Data(c)
    ensures e != Remove(c) && i < |history|
    ensures (if e.Sweep? then n > 0 && LastHeard(history, c, i, n - 1) else LastHeard(history, c, i, n))
  {
    assert history + [e] != [] && (history + [e])[|history|] == e;
    assert (history + [e])[i + 1..] == history[i + 1..] + [e];
    SweepsAppend(history[i + 1..], e);
    forall j | i < j < |history|
      ensures history[j] != Data(c) && history[j] != Remove(c)
    {
      assert (history + [e])[j] == history[j];
    }
    assert (history + [e])[i] == history[i];
  }

  /** The claim below, for one history: `c` is a source iff it was heard at most one sweep ago, and stale iff one ago. */
  ghost predicate HeardIffSource<C>(history: seq<Event<C>>, c: C) {
    && (c in Replay(history) <==> exists i: nat, n: nat :: n <= 1 && LastHeard(history, c, i, n))
    && (c in Replay(history) ==> forall i: nat, n: nat :: LastHeard(history, c, i, n) ==> Replay(history)[c] == (n == 1))
  }

  /** An event other than data from `c` leaves `c` a source only if it was one, and not stale at a sweep. */
  lemma ReplayStep<C>(history: seq<Event<C>>, e: Event<C>, c: C)
    requires e != Data(c)
    ensures c in Replay(history + [e]) <==> c in Replay(history) && e != Remove(c) && (e.Sweep? ==> !Replay(history)[c])
    ensures c in Replay(history + [e]) ==> Replay(history + [e])[c] == (e.Sweep? || Replay(history)[c])
  {
    ReplayAppend(history, e);
  }

  lemma OtherEvent<C>(history: seq<Event<C>>, e: Event<C>, c: C)
    requires HeardIffSource(history, c) && e != Data(c)
    ensures HeardIffSource(history + [e], c)
  {
    ReplayStep(history, e, c);
    if c in Replay(history + [e]) {
      var i: nat, n: nat :| n <= 1 && LastHeard(history, c, i, n);
      LastHeardStep(history, e, c, i, n);
    }
    forall i: nat, n: nat | LastHeard(history + [e], c, i, n)
      ensures n <= 1 ==> c in Replay(history + [e])
      ensures c in Replay(history + [e]) ==> Replay(history + [e])[c] == (n == 1)
    {
      LastHeardStepBack(history, e, c, i, n);
    }
  }

  lemma DataEvent<C>(history: seq<Event<C>>, c: C)
    ensures HeardIffSource(history + [Data(c)], c)
  {
    var next := history + [Data(c)];
    assert next[..|history|] == history && next[|history| + 1..] == [];
    assert LastHeard(next, c, |history|, 0);
    forall i: nat, n: nat | LastHeard(next, c, i, n)
      ensures n == 0
    {
      assert i == |history|;
    }
  }

  /**
   * After any history a client is a source exactly when it has sent data, has not been removed since, and at most one
   * sweep has run since its last data; and it is flagged stale exactly when one has.
   */
  lemma {:induction false} SourceIffHeardRecently<C>(history: seq<Event<C>>, c: C)
    ensures HeardIffSource(history, c)
  {
    if history != [] {
      var init, e := history[..|history| - 1], history[|history| - 1];
      assert history == init + [e];
      SourceIffHeardRecently(init, c);
      if e == Data(c) {
        DataEvent(init, c);
      } else {
        OtherEvent(init, e, c);
      }
    }
  }
}
