/** cmd/gt-mcp/protocol_catalog.go, catalogAggregator: the statistics as they are collected. */
module CatalogAggregator {
  import opened Seqs
  import opened ProtocolCatalog
  import opened CatalogBuild

  class Aggregator {
    const direction: string
    var totals: Totals
    var protocols: map<string, Protocol>
    var byId: map<string, Request>
    var refs: seq<Reference>
    var pairs: Pairs

    function Value(): State
      reads this
    {
      State(totals, protocols, byId, refs)
    }

    constructor (direction: string)
      ensures this.direction == direction && Value() == Init() && pairs == map[]
    {
      this.direction := direction;
      totals, protocols, byId, refs, pairs := Totals(0, 0, 0, 0, 0, 0), map[], map[], [], map[];
    }

    method Add(e: Event)
      modifies this`totals, this`protocols, this`byId, this`refs
      ensures Value() == Added(old(Value()), e, direction)
    {
      if direction != "" && e.dir != direction {
        return;
      }
      AddTotals(e);
      byId := byId[e.id := Request(e.dir, e.msgName, e.ts)];
      if e.msgName == "" {
        return;
      }
      if e.cause != "" {
        refs := refs + [Reference(e.cause, e.ts, Key(e.dir, e.msgName))];
      }
      var key := Key(e.dir, e.msgName);
      var p := if key in protocols then protocols[key] else NewProtocol(e);
      p := AddTo(p, e);
      protocols := protocols[key := p];
    }

    method AddTotals(e: Event)
      modifies this`totals
      ensures totals == WithTotals(old(totals), e)
    {
      totals := totals.(events := totals.events + 1);
      if totals.events == 1 || e.ts < totals.min {
        totals := totals.(min := e.ts);
      }
      if e.ts > totals.max {
        totals := totals.(max := e.ts);
      }
      if e.dir == TO_SERVER {
        totals := totals.(toServer := totals.toServer + 1);
      } else if e.dir == TO_CLIENT {
        totals := totals.(toClient := totals.toClient + 1);
      }
      if e.msgName == "" {
        totals := totals.(unnamed := totals.unnamed + 1);
      }
    }

    method AddTo(before: Protocol, e: Event) returns (p: Protocol)
      ensures p == WithEvent(before, e)
    {
      p := before.(count := before.count + 1);
      if p.count == 1 || e.ts < p.first {
        p := p.(first := e.ts);
      }
      if e.ts > p.last {
        p := p.(last := e.ts);
      }
      p := p.(semantic := p.semantic + e.semantic);
      if e.push == Some(true) {
        p := p.(pushTrue := true);
      } else if e.push == Some(false) {
        p := p.(pushFalse := true);
      }
      var fields := AddFields(p.fields, e.fields);
      p := p.(fields := fields, samples := p.samples + [Sample(e.ts, e.id)]);
    }

    /** A path is counted once per event. */
    method AddFields(before: map<string, nat>, paths: set<string>) returns (fields: map<string, nat>)
      ensures fields == Counted(before, paths)
    {
      fields := before;
      var rest := paths;
      while rest != {}
        invariant rest <= paths && fields == Counted(before, paths - rest)
        decreases |rest|
      {
        var path :| path in rest;
        fields := fields[path := (if path in fields then fields[path] else 0) + 1];
        rest := rest - {path};
      }
      assert paths - {} == paths;
    }

    /** Called once, after the last event. */
    method ResolvePairs()
      modifies this`pairs
      ensures pairs == ResolvedAll(old(pairs), byId, refs)
    {
      assert refs[..0] == [];
      for i := 0 to |refs|
        invariant pairs == ResolvedAll(old(pairs), byId, refs[..i])
      {
        assert Front(refs[..i + 1]) == refs[..i];
        var r := refs[i];
        if r.cause in byId && byId[r.cause].msgName != "" {
          var req := byId[r.cause];
          var k := (Key(req.dir, req.msgName), r.key);
          var p := if k in pairs then pairs[k] else Pair(0, {}, []);
          p := p.(count := p.count + 1, requests := p.requests + {r.cause});
          if r.ts - req.ts >= 0 {
            p := p.(latency := p.latency + [(r.ts - req.ts) / 1000000]);
          } else {
            assert p.latency + [] == p.latency;
          }
          pairs := pairs[k := p];
        }
      }
      assert refs[..|refs|] == refs;
    }
  }
}
