/** Runs on well-behaved chains: every apply brings transactions with fresh ids
    that spend nothing already spent. Lookups are then complete, and a reorg at
    the end of any such run is confluent. */
module Reachable {
  import opened Types
  import opened Tables
  import opened Coupling
  import opened Lookups
  import opened Branches
  import opened Reorg
  import opened Confluence
  import opened Runs

  /** Each group not already marked is legal against the state it meets. */
  ghost predicate LegalGroups(d: Database, gs: seq<Group>, cx: Codec)
    decreases |gs|
  {
    gs != [] ==>
      var mid := Apply(d, gs[..|gs| - 1], cx);
      var g := gs[|gs| - 1];
      LegalGroups(d, gs[..|gs| - 1], cx) && (g.hash in mid.core.blocks.applied || Legal(mid.core.rows.tx, g.txs))
  }

  ghost predicate LegalEvent(d: Database, e: Event, cx: Codec) {
    e.Applied? ==> LegalGroups(d, e.groups, cx)
  }

  /** A run whose applies are all legal. */
  ghost predicate CleanRun(es: seq<Event>, cx: Codec) {
    forall k :: 0 <= k < |es| ==> LegalEvent(Run(es[..k], cx), es[k], cx)
  }

  lemma ApplyGroupSound(d: Database, g: Group, cx: Codec, log: Log)
    requires Sound(d, log) && (g.hash in d.core.blocks.applied || Legal(d.core.rows.tx, g.txs))
    ensures var d' := ApplyGroup(d, g, cx); Sound(d', LogAfter(log, d, d')) && Extends(d, d')
  {
    hide *;
    if g.hash in d.core.blocks.applied {
      UnfoldSoundInv(d, log);
      ApplyStaleIsNoOp(d, g, cx, log);
      UnfoldLog(log, d, d);
    } else {
      ApplyLegalGroup(d, g, cx, log);
    }
  }

  lemma {:induction false} ApplySound(d: Database, gs: seq<Group>, cx: Codec, log: Log)
    requires Sound(d, log) && LegalGroups(d, gs, cx)
    ensures var d' := Apply(d, gs, cx); Sound(d', LogAfter(log, d, d')) && Extends(d, d')
    decreases |gs|
  {
    hide Sound, Extends, LogAfter, Legal, ApplyGroup, Apply;
    if gs == [] {
      ApplyNone(d, cx);
      ApplyBranchNone(d, log);
    } else {
      var k := |gs| - 1;
      var mid := Apply(d, gs[..k], cx);
      ApplySound(d, gs[..k], cx, log);
      ApplyGroupSound(mid, gs[k], cx, LogAfter(log, d, mid));
      ApplySnoc(d, gs, cx);
      LogJoin(d, mid, Apply(d, gs, cx), log);
    }
  }

  lemma UnwindComplete(c: Core, h: string)
    requires Complete(c.rows)
    ensures Complete(UnwindBlock(c, h).rows)
  {
    hide Complete, RemoveTxs, ForgetBlock;
    if h in c.blocks.acceptedBy {
      RemoveTxsKeepsComplete(c.rows, c.blocks.acceptedBy[h]);
    }
  }

  lemma ExpireComplete(d: Database, cutoff: nat)
    requires Complete(d.core.rows)
    ensures Complete(Expire(d, cutoff).core.rows)
  {
    hide Complete, DropTxs, DropBlocks, ExpireInference;
    DropKeepsComplete(d.core.rows, Expired(d.core.rows.tx, cutoff));
  }

  lemma StepSound(log: Log, d: Database, e: Event, cx: Codec)
    requires Sound(d, log) && LegalEvent(d, e, cx)
    ensures Sound(Step(d, e, cx), NextBooks(log, d, e, cx))
  {
    hide Inv, Complete, LegalGroups, Apply, Expire, UnwindBlock, Since, Undone;
    StepKeeps(log, d, e, cx);
    match e
    case Applied(gs) => ApplySound(d, gs, cx, log);
    case Unwound(h) => UnwindComplete(d.core, h);
    case Swept(c) => ExpireComplete(d, c);
  }

  lemma EmptySound()
    ensures Sound(EMPTY, map[])
  {
    hide Inv;
    EmptyInv();
  }

  lemma CleanPrefix(es: seq<Event>, cx: Codec)
    requires CleanRun(es, cx) && es != []
    ensures CleanRun(es[..|es| - 1], cx) && LegalEvent(Run(es[..|es| - 1], cx), es[|es| - 1], cx)
  {
    hide LegalEvent, Run;
    var pre := es[..|es| - 1];
    forall k | 0 <= k < |pre| ensures LegalEvent(Run(pre[..k], cx), pre[k], cx) {
      assert pre[..k] == es[..k] && pre[k] == es[k];
    }
  }

  /** Every state of a clean run is coupled and has complete lookups. */
  lemma {:induction false} RunSound(es: seq<Event>, cx: Codec)
    requires CleanRun(es, cx)
    ensures Sound(Run(es, cx), RunBooks(es, cx))
    decreases |es|
  {
    hide Sound, CleanRun, LegalEvent, Step, NextBooks;
    if es == [] {
      EmptySound();
    } else {
      var pre := es[..|es| - 1];
      CleanPrefix(es, cx);
      RunSound(pre, cx);
      StepSound(RunBooks(pre, cx), Run(pre, cx), es[|es| - 1], cx);
    }
  }

  /** On a clean run every stored transaction is found by its id and by each outpoint it
      spends; with `LookupsAreSound` the two indexes are exactly the stored transactions. */
  lemma LookupsAreComplete(es: seq<Event>, cx: Codec, n: nat)
    requires CleanRun(es, cx) && n in Run(es, cx).core.rows.tx
    ensures var r := Run(es, cx).core.rows;
      && TxById(r, r.tx[n].raw.txId) == Some(r.tx[n])
      && forall o :: Consumes(r.tx[n].raw, o) ==> SpendOf(r, o) == Some(r.tx[n])
  {
    hide *;
    RunSound(es, cx);
    UnfoldSound(Run(es, cx), RunBooks(es, cx));
    LookupAt(Run(es, cx).core.rows, n);
    forall o ensures o in SpentBy(Run(es, cx).core.rows.tx[n].raw) <==> Consumes(Run(es, cx).core.rows.tx[n].raw, o) {
      SpentByIff(Run(es, cx).core.rows.tx[n].raw, o);
    }
  }

  // --- reorgs at the end of a run ---

  /** The events of one reorg notification. */
  function ReorgEvents(gone: seq<Group>, added: seq<Group>): seq<Event> {
    Unwinds(HighToLow(gone)) + [Applied(added)]
  }

  function Unwinds(hs: seq<string>): seq<Event> {
    if hs == [] then [] else Unwinds(hs[..|hs| - 1]) + [Unwound(hs[|hs| - 1])]
  }

  lemma RunSnoc(es: seq<Event>, e: Event, cx: Codec)
    ensures Run(es + [e], cx) == Step(Run(es, cx), e, cx)
  {
    hide Step;
    assert (es + [e])[..|es|] == es;
  }

  lemma {:induction false} RunUnwinds(es: seq<Event>, hs: seq<string>, cx: Codec)
    ensures var d := Run(es, cx); Run(es + Unwinds(hs), cx) == d.(core := UnwindAll(d.core, hs))
    decreases |hs|
  {
    hide Run, UnwindBlock;
    if hs == [] {
      assert es + Unwinds(hs) == es;
    } else {
      var k := |hs| - 1;
      RunUnwinds(es, hs[..k], cx);
      assert es + Unwinds(hs) == es + Unwinds(hs[..k]) + [Unwound(hs[k])];
      RunSnoc(es + Unwinds(hs[..k]), Unwound(hs[k]), cx);
    }
  }

  /** At the end of any clean run, sweeps and earlier reorgs included: following `gone` and
      being reorganised to `added` reads like having followed `added` alone, the received
      amounts included if and only if every address survives `gone`. */
  lemma RunReorg(es: seq<Event>, gone: seq<Group>, added: seq<Group>, cx: Codec)
    requires CleanRun(es, cx) && added != []
    requires Branch(Run(es, cx), gone) && Branch(Run(es, cx), added)
    ensures var z, x := Run(es + [Applied(gone)] + ReorgEvents(gone, added), cx), Run(es + [Applied(added)], cx);
      SameIndexReads(z, x) && (SameReads(z, x) <==> forall a :: Survives(Run(es, cx), gone, a, cx.attr))
  {
    hide *;
    var d := Run(es, cx);
    RunReorgSteps(es, gone, added, cx);
    RunSnoc(es, Applied(gone), cx);
    RunSnoc(es, Applied(added), cx);
    AppliedStep(d, gone, cx);
    AppliedStep(d, added, cx);
    RunSound(es, cx);
    ReorgConfluence(d, gone, added, cx, RunBooks(es, cx));
  }

  lemma AppliedStep(d: Database, gs: seq<Group>, cx: Codec)
    ensures Step(d, Applied(gs), cx) == Apply(d, gs, cx)
  {
    hide Apply;
  }

  lemma RunReorgSteps(es: seq<Event>, gone: seq<Group>, added: seq<Group>, cx: Codec)
    ensures var e1 := es + [Applied(gone)];
      Run(e1 + ReorgEvents(gone, added), cx) == Reorganise(Run(e1, cx), gone, added, cx)
  {
    hide Run, Apply, UnwindAll, HighToLow, Unwinds;
    var e1, hs := es + [Applied(gone)], HighToLow(gone);
    RunUnwinds(e1, hs, cx);
    RunSnoc(e1 + Unwinds(hs), Applied(added), cx);
    assert e1 + ReorgEvents(gone, added) == e1 + Unwinds(hs) + [Applied(added)];
  }
}
