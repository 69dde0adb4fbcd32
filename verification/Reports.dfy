/** When the data memory reports how far data has spread, in every run (src/data_memory/mod.rs). */
module Reports {
  import opened Types
  import opened DataMemory
  import opened Completion
  import opened Retrieval
  import Distribution

  /** The reports on `known` shards, the sufficient spread before the full one if both are due. */
  function Said(cfg: Config, id: Vid, known: nat): Log {
    if known == K && known == cfg.code.Total() then [Emit(DistributionSufficient(id)), Emit(DistributionFull(id))]
    else if known == K then [Emit(DistributionSufficient(id))]
    else if known == cfg.code.Total() then [Emit(DistributionFull(id))]
    else []
  }

  /** One event reports exactly if it confirms a shard of `id` and so many are then known. */
  lemma StepReports(cfg: Config, s: State, ev: InEvent, id: Vid)
    requires cfg.Valid() && Fits(cfg, ev)
    ensures var e := Step(cfg, s, ev);
      var confirms := !s.stopped && ev.StoreConfirmed? && ev.full.id == id;
      && (Emit(DistributionSufficient(id)) in e.actions <==> confirms && |At(e.state.locations, id)| == K)
      && (Emit(DistributionFull(id)) in e.actions <==> confirms && |At(e.state.locations, id)| == cfg.code.Total())
      && (confirms ==> e.actions == Said(cfg, id, |At(e.state.locations, id)|))
  {
    if ev.StoreConfirmed? {
    } else if ev.RecollectRequest? {
      Distribution.RecollectedUntouched(cfg, s, ev.id, ev.order, id);
    } else if ev.AssignedShard? {
      Distribution.CollectedQuiet(cfg, s, ev.full, ev.shard, id);
    } else {
      OthersReportNothing(cfg, s, ev, id);
    }
  }

  lemma OthersReportNothing(cfg: Config, s: State, ev: InEvent, id: Vid)
    requires cfg.Valid() && Fits(cfg, ev) && !ev.StoreConfirmed? && !ev.RecollectRequest? && !ev.AssignedShard?
    ensures Distribution.Quiet(Step(cfg, s, ev).actions, id)
  {
  }

  /**
   In every run of the data memory, whatever was put, confirmed, announced by programs or confirmed
   beyond the code: event `k` brings the report that `id` has spread sufficiently or fully exactly
   when it confirms a shard of it and `K` or all shard ids have been told of, the event included.
   */
  lemma ReportedIff(cfg: Config, events: seq<InEvent>, k: nat, id: Vid)
    requires cfg.Valid() && AllFit(cfg, events) && k < |events|
    ensures AllFit(cfg, events[..k])
    ensures var actions := Step(cfg, Run(cfg, INITIAL, events[..k]).state, events[k]).actions;
      var confirms := AllAssigned(cfg, Received(events[..k])) && events[k].StoreConfirmed? && events[k].full.id == id;
      && (Emit(DistributionSufficient(id)) in actions <==> confirms && |Learned(cfg, events[..k + 1], id)| == K)
      && (Emit(DistributionFull(id)) in actions <==> confirms && |Learned(cfg, events[..k + 1], id)| == cfg.code.Total())
      && (confirms ==> actions == Said(cfg, id, |Learned(cfg, events[..k + 1], id)|))
  {
    assert AllFit(cfg, events[..k]) && AllFit(cfg, events[..k + 1]);
    var before := Run(cfg, INITIAL, events[..k]).state;
    StepReports(cfg, before, events[k], id);
    StopsOnUnassignedPeer(cfg, events[..k]);
    if !before.stopped && events[k].StoreConfirmed? {
      assert events[..k + 1][..k] == events[..k];
      StepStops(cfg, before, events[k]);
      KnownIsLearned(cfg, events[..k + 1], id);
      var known := At(Step(cfg, before, events[k]).state.locations, id);
      assert |known| == |known.Keys|;
    }
  }
}
