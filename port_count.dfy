/**
  The counting side of the firing rule of an asynchronous procedure.

  A port is seen here only through its two flags. A port *blocks* its
  procedure when it is active and not ready; the procedure keeps the number
  of blocking ports in a counter and fires when that number reaches zero.
  This module defines that number on a sequence of port flags (in the order
  the ports were registered) and proves the facts the procedure's
  bookkeeping relies on.
*/
module PortCount {

  /** The two flags of a port: `ready` (its condition holds) and `active`
      (it takes part in the firing rule). */
  datatype PortFlags = PortFlags(ready: bool, active: bool)

  /** A port holds its procedure back exactly when it is active and not ready. */
  predicate Blocking(f: PortFlags) {
    f.active && !f.ready
  }

  /** 1 for a blocking port, 0 otherwise. */
  function Weight(f: PortFlags): (w: nat)
    ensures w <= 1
    ensures w == 1 <==> Blocking(f)
  {
    if Blocking(f) then 1 else 0
  }

  /** The number of blocking ports; counted from the end so that registering
      a port (appending it) adds its weight on top. */
  function BlockedCount(fs: seq<PortFlags>): (n: nat)
    ensures n <= |fs|
  {
    if fs == [] then 0 else BlockedCount(fs[..|fs| - 1]) + Weight(fs[|fs| - 1])
  }

  /** The same number, as the cardinality of the set of blocking positions. */
  ghost function BlockingPositions(fs: seq<PortFlags>): set<nat> {
    set i: nat | i < |fs| && Blocking(fs[i])
  }

  /** The counter and the set of blocking positions agree: BlockedCount counts
      each blocking port once and nothing else. */
  lemma {:induction false} BlockedCountIsCardinality(fs: seq<PortFlags>)
    ensures BlockedCount(fs) == |BlockingPositions(fs)|
  {
    if fs != [] {
      var init := fs[..|fs| - 1];
      BlockedCountIsCardinality(init);
      var last := |fs| - 1;
      assert BlockingPositions(fs) ==
        BlockingPositions(init) + (if Blocking(fs[last]) then {last} else {});
    }
  }

  /** Registering a port adds exactly its own weight. This is the defining
      equation of BlockedCount applied to `fs + [f]`, stated for the port
      constructor; the independent cross-check of the count is
      BlockedCountIsCardinality. */
  lemma BlockedCountAppend(fs: seq<PortFlags>, f: PortFlags)
    ensures BlockedCount(fs + [f]) == BlockedCount(fs) + Weight(f)
  {
  }

  /** Changing the flags of one port changes the count by the difference of
      its old and new weights, and by nothing else. */
  lemma {:induction false} BlockedCountUpdate(fs: seq<PortFlags>, i: nat, f: PortFlags)
    requires i < |fs|
    ensures BlockedCount(fs[i := f]) == BlockedCount(fs) - Weight(fs[i]) + Weight(f)
  {
    var last := |fs| - 1;
    assert fs[i := f][..last] == if i == last then fs[..last] else fs[..last][i := f];
    if i < last {
      BlockedCountUpdate(fs[..last], i, f);
    }
  }

  /** The count is zero exactly when no port blocks. */
  lemma {:induction false} NoneBlocking(fs: seq<PortFlags>)
    ensures BlockedCount(fs) == 0 <==> forall i :: 0 <= i < |fs| ==> !Blocking(fs[i])
  {
    if fs != [] {
      var last := |fs| - 1;
      NoneBlocking(fs[..last]);
      assert forall i :: 0 <= i < last ==> fs[..last][i] == fs[i];
    }
  }

  /** If the count is one and port `c` blocks, then `c` is the only blocking
      port. */
  lemma SoleBlocker(fs: seq<PortFlags>, c: nat)
    requires c < |fs| && Blocking(fs[c])
    requires BlockedCount(fs) == 1
    ensures forall i :: 0 <= i < |fs| && i != c ==> !Blocking(fs[i])
  {
    var cleared := fs[c := PortFlags(true, fs[c].active)];
    BlockedCountUpdate(fs, c, cleared[c]);
    NoneBlocking(cleared);
    assert forall i :: 0 <= i < |fs| && i != c ==> cleared[i] == fs[i];
  }

  /** Switching a port's activity moves the count exactly as switching its
      readiness would: for a not-ready port, deactivating it counts like
      opening it and activating it like closing it; for a ready port, the
      activity makes no difference to the count. */
  lemma ActivityLikeReadiness(fs: seq<PortFlags>, i: nat)
    requires i < |fs|
    ensures BlockedCount(fs[i := PortFlags(false, false)]) == BlockedCount(fs[i := PortFlags(true, true)])
    ensures BlockedCount(fs[i := PortFlags(false, true)]) == BlockedCount(fs[i := PortFlags(true, true)]) + 1
    ensures BlockedCount(fs[i := PortFlags(true, false)]) == BlockedCount(fs[i := PortFlags(true, true)])
  {
    BlockedCountUpdate(fs, i, PortFlags(false, false));
    BlockedCountUpdate(fs, i, PortFlags(true, true));
    BlockedCountUpdate(fs, i, PortFlags(false, true));
    BlockedCountUpdate(fs, i, PortFlags(true, false));
  }

  /** What the consistency check at the firing moment demands of port `k`:
      an active port must be not ready if it is the control port (position 0)
      and ready otherwise. Inactive ports are skipped. */
  predicate Placed(fs: seq<PortFlags>, k: nat)
    requires k < |fs|
  {
    fs[k].active ==> (fs[k].ready <==> k != 0)
  }

  /** At the firing moment (the control port is the one blocking port) every
      port satisfies the consistency check. */
  lemma FiringPortsPlaced(fs: seq<PortFlags>)
    requires 0 < |fs| && Blocking(fs[0]) && BlockedCount(fs) == 1
    ensures forall k :: 0 <= k < |fs| ==> Placed(fs, k)
  {
    SoleBlocker(fs, 0);
  }
}
