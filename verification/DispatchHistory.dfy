/** Whole runs of the dispatch protocol: any interleaving of calls by any number of workers and
    users, from empty tables. */
module DispatchHistory {
  import opened Database
  import opened Dispatch
  import opened DispatchInvariants

  const EMPTY := Db(map[], map[])

  /** Every call of the run is one the database could make in the state it finds. */
  predicate Valid(es: seq<Event>)
    decreases |es|, 0
  {
    es == [] || (Valid(es[..|es| - 1]) && Enabled(Exec(es[..|es| - 1]), es[|es| - 1]))
  }

  /** The rows a run leaves behind. */
  function Exec(es: seq<Event>): Db
    requires Valid(es)
    decreases |es|, 1
  {
    if es == [] then EMPTY else Next(Exec(es[..|es| - 1]), es[|es| - 1])
  }

  /** The k-th state of a run and the call made in it. */
  lemma {:induction false} Prefix(es: seq<Event>, k: nat)
    requires Valid(es) && k <= |es|
    ensures Valid(es[..k])
    ensures k < |es| ==> Enabled(Exec(es[..k]), es[k])
    ensures k < |es| ==> Valid(es[..k + 1]) && Exec(es[..k + 1]) == Next(Exec(es[..k]), es[k])
  {
    if k == |es| {
      assert es[..k] == es;
    } else {
      var front := es[..|es| - 1];
      Prefix(front, k);
      assert front[..k] == es[..k];
      if k + 1 <= |front| {
        assert front[..k + 1] == es[..k + 1];
        if k < |front| {
          assert front[k] == es[k];
        }
      } else {
        assert front == es[..k];
        assert es[..k + 1] == es;
      }
    }
  }

  // ---- Slots and orphans ----

  /** Every reachable state is sound. */
  lemma {:induction false} ReachableSound(es: seq<Event>)
    requires Valid(es)
    ensures Sound(Exec(es))
  {
    if es != [] {
      var front := es[..|es| - 1];
      ReachableSound(front);
      SoundStep(Exec(front), es[|es| - 1]);
    }
  }

  /** The worker never registers again while it owns RUNNING tasks. */
  ghost predicate RegistersIdle(es: seq<Event>, w: string)
    requires Valid(es)
  {
    es == [] ||
    var front, e := es[..|es| - 1], es[|es| - 1];
    RegistersIdle(front, w) && (e.RegisterCall? && e.w == w ==> RunningOf(Exec(front), w) == {})
  }

  /** Along such a run the counter is exact, so the worker never runs more than its capacity. */
  lemma {:induction false} ExactSlots(es: seq<Event>, w: string)
    requires Valid(es) && w in Exec(es).workers && w != ""
    requires RegistersIdle(es, w)
    ensures Gap(Exec(es), w) == 0
    ensures |RunningOf(Exec(es), w)| <= AtLeastZero(Exec(es).workers[w].capacity)
  {
    ReachableSound(es);
    assert SlotsSound(Exec(es), w);
    var front, e := es[..|es| - 1], es[|es| - 1];
    ReachableSound(front);
    if w in Exec(front).workers {
      ExactSlots(front, w);
      GapStep(Exec(front), e, w);
    } else {
      LoadStep(Exec(front), e, w);
      assert RunningOf(Exec(front), w) == {};
    }
  }
}
