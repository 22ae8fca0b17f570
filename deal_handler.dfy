/**
 * The deal sink of the container's test fixture: every deal it receives is stored
 * in a map under a counter that starts at 0 and grows by one per deal.
 */
module DealSink {
  import opened Orders

  /** The deals of `log`, each stored under its position. */
  function Indexed(log: seq<Deal>): (m: map<nat, Deal>)
    decreases |log|
  {
    if log == [] then map[] else Indexed(log[..|log| - 1])[|log| - 1 := log[|log| - 1]]
  }

  /** `Indexed` holds exactly the keys 0 .. |log| - 1, each bound to the deal at that position. */
  lemma {:induction false} IndexedContents(log: seq<Deal>)
    ensures |Indexed(log)| == |log|
    ensures forall k :: k in Indexed(log) <==> 0 <= k < |log|
    ensures forall k :: 0 <= k < |log| ==> Indexed(log)[k] == log[k]
    decreases |log|
  {
    if log != [] {
      var init := log[..|log| - 1];
      IndexedContents(init);
      assert |log| - 1 !in Indexed(init);
      forall k | 0 <= k < |init| ensures Indexed(log)[k] == log[k] {
        assert init[k] == log[k];
      }
    }
  }

  class DealHandler {
    var deals: map<nat, Deal>
    var counter: nat
    /** The deals received, in order. */
    ghost var log: seq<Deal>

    ghost predicate Valid()
      reads this
    {
      && counter == |log|
      && deals == Indexed(log)
    }

    constructor ()
      ensures Valid() && log == [] && deals == map[] && counter == 0
    {
      deals := map[];
      counter := 0;
      log := [];
    }

    /** Stores the deal under the current counter and advances the counter. */
    method OnDeal(deal: Deal)
      requires Valid()
      modifies this
      ensures Valid()
      ensures log == old(log) + [deal]
      ensures deals == old(deals)[old(counter) := deal] && counter == old(counter) + 1
    {
      deals := deals[counter := deal];
      counter := counter + 1;
      log := log + [deal];
      assert log[..|log| - 1] == old(log);
    }

    /** Drops every stored deal and restarts the counter at 0. */
    method Reset()
      modifies this
      ensures Valid() && log == [] && deals == map[] && counter == 0
    {
      deals := map[];
      counter := 0;
      log := [];
    }

    /** The stored deals: one per deal received, under keys 0, 1, 2, ... in arrival order. */
    function GetDealContainer(): (m: map<nat, Deal>)
      reads this
      requires Valid()
      ensures |m| == |log|
      ensures forall k :: k in m <==> 0 <= k < |log|
      ensures forall k :: 0 <= k < |log| ==> m[k] == log[k]
    {
      IndexedContents(log);
      deals
    }
  }
}
