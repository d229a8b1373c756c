/**
 The reference machine: every process owns its memory outright.  It has no frames, no page
 tables and no copy-on-write; fork copies all pages, a store to a mapped page always lands, and
 it decides by itself which operations it makes.
 */
module EagerCopy {
  import opened FlatCow
  import opened PageTree
  import opened PageWalk
  import opened ProgramImage

  /** What user programs make the kernel do to memory. */
  datatype Op =
    | Spawn(pid: Pid, segs: seq<Segment>)
    | Fork(parent: Pid, child: Pid)
    | Write(pid: Pid, address: nat, value: int)
    | Grow(pid: Pid, size: int)
    | Reap(pid: Pid)

  /** What each process sees at each page, and the VMA list of each process. */
  datatype Eager = Eager(view: View, lists: map<Pid, seq<Area>>)

  /** New pages have arbitrary contents: the `k`-th page added by an operation holds this. */
  function Fill(fill: seq<Page>, k: nat): Page {
    if k < |fill| then fill[k] else []
  }

  function Added(v: View, p: Pid, vpns: seq<nat>, fill: seq<Page>): View {
    if vpns == [] then v
    else
      var n := |vpns| - 1;
      Added(v, p, vpns[..n], fill)[Leaf(p, vpns[n]) := Fill(fill, n)]
  }

  ghost predicate MayGrow(e: Eager, p: Pid, n: int) {
    && p in e.lists && |e.lists[p]| >= 2
    && forall x <- PagesFrom(e.lists[p][1].end / 4096, HeapPages(n)) :: IsUser(x * 4096) && Leaf(p, x) !in e.view
  }

  /** The state after an operation, and whether the operation is made or refused. */
  ghost function EagerOp(e: Eager, op: Op, fill: seq<Page>): (Eager, bool) {
    match op
    case Spawn(p, segs) =>
      if p !in e.lists && GoodImage(segs)
      then (Eager(Added(e.view, p, Image(segs), fill), e.lists[p := FirstAreas(segs)]), true)
      else (e, false)
    case Fork(p, c) =>
      if p in e.lists && c !in e.lists
      then (Eager(ApplyEager(e.view, Forked(p, c)), e.lists[c := e.lists[p]]), true)
      else (e, false)
    case Write(p, a, x) =>
      if p in e.lists && LeafOf(p, a) in e.view then
        (e.(view := Written(e.view, LeafOf(p, a), a % 4096, x)), true)
      else if p in e.lists && InStack(e.lists[p], a) then
        (e.(view := Written(Added(e.view, p, [a / 4096], fill), LeafOf(p, a), a % 4096, x)), true)
      else (e, false)
    case Grow(p, n) =>
      if MayGrow(e, p, n) then
        var end := e.lists[p][1].end;
        (Eager(Added(e.view, p, PagesFrom(end / 4096, HeapPages(n)), fill),
               e.lists[p := SetEnd(e.lists[p], end + HeapPages(n) * 4096)]), true)
      else (e, false)
    case Reap(p) =>
      if p in e.lists then (Eager(ApplyEager(e.view, TornDown(p)), e.lists - {p}), true) else (e, false)
  }

  function Written(v: View, l: Leaf, offset: nat, x: int): View {
    if l in v && offset < |v[l]| then v[l := v[l][offset := x]] else v
  }

  /** A run of the reference machine; `fills` are the contents of the pages that each operation adds. */
  ghost function RunOpsEager(e: Eager, ops: seq<Op>, fills: seq<seq<Page>>): Eager
    requires |fills| == |ops|
  {
    if ops == [] then e
    else
      var n := |ops| - 1;
      EagerOp(RunOpsEager(e, ops[..n], fills[..n]), ops[n], fills[n]).0
  }

  /** The verdicts of that run. */
  ghost function Verdicts(e: Eager, ops: seq<Op>, fills: seq<seq<Page>>): seq<bool>
    requires |fills| == |ops|
  {
    if ops == [] then []
    else
      var n := |ops| - 1;
      Verdicts(e, ops[..n], fills[..n]) + [EagerOp(RunOpsEager(e, ops[..n], fills[..n]), ops[n], fills[n]).1]
  }

  lemma RunOneMore(e: Eager, ops: seq<Op>, fills: seq<seq<Page>>, op: Op, fill: seq<Page>)
    requires |fills| == |ops|
    ensures var r := EagerOp(RunOpsEager(e, ops, fills), op, fill);
            && RunOpsEager(e, ops + [op], fills + [fill]) == r.0
            && Verdicts(e, ops + [op], fills + [fill]) == Verdicts(e, ops, fills) + [r.1]
  {
    hide EagerOp;
    assert (ops + [op])[..|ops|] == ops && (fills + [fill])[..|ops|] == fills;
  }

  // ----- events and operations -----

  /** The events that add pages do what the reference machine does when it adds them. */
  lemma {:induction false} AddedByEvents(v: View, es: seq<Event>, p: Pid, vpns: seq<nat>, fill: seq<Page>)
    requires AddsPages(es, p, vpns) && |fill| >= |es| && forall k | 0 <= k < |es| :: fill[k] == es[k].stale
    ensures RunEager(v, es) == Added(v, p, vpns, fill)
    decreases |es|
  {
    if es != [] {
      var n := |es| - 1;
      AddedByEvents(v, es[..n], p, vpns[..n], fill);
    }
  }

  lemma AddedOne(v: View, p: Pid, x: nat, fill: seq<Page>)
    ensures Added(v, p, [x], fill) == v[Leaf(p, x) := Fill(fill, 0)]
  {
    assert [x][..0] == [];
  }

  ghost function Stales(es: seq<Event>): (fill: seq<Page>)
    ensures |fill| == |es| && forall k | 0 <= k < |es| && es[k].Grown? :: fill[k] == es[k].stale
  {
    seq(|es|, k requires 0 <= k < |es| => if es[k].Grown? then es[k].stale else [])
  }

  /** The events of a store do what the reference machine does with it. */
  lemma WrittenByEvents(s: Flat, p: Pid, a: nat, x: int, es: seq<Event>)
    requires FlatInv(s) && StoreEvents(s, LeafOf(p, a), a % 4096, x, es)
    ensures LeafOf(p, a) in s.leaves ==>
              RunEager(Seen(s), es) == Written(Seen(s), LeafOf(p, a), a % 4096, x)
    ensures LeafOf(p, a) !in s.leaves ==>
              RunEager(Seen(s), es) ==
              Written(Added(Seen(s), p, [a / 4096], Stales(es)), LeafOf(p, a), a % 4096, x)
  {
    var v, l := Seen(s), LeafOf(p, a);
    if l in s.leaves {
      assert es[..0] == [];
      assert RunEager(v, es) == ApplyEager(v, es[0]);
    } else {
      var g := es[..1];
      assert g[..0] == [] && g[0] == es[0];
      assert RunEager(v, g) == ApplyEager(v, es[0]);
      assert RunEager(v, es) == ApplyEager(RunEager(v, g), es[1]);
      AddedOne(v, p, a / 4096, Stales(es));
    }
  }
}
