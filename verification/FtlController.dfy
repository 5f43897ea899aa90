/** The mutable FTL of src/openflash/ftl.py, proved against the functions of FtlSpec and
    FtlCheckpoint. Dictionaries are iterated in an arbitrary order. */
module FtlController {
  import opened Common
  import opened Geometry
  import opened FtlSpec
  import FtlCheckpoint

  class PageMappingFTL {
    const cfg: Config
    var mapping: map<int, PhysicalPage>
    var invalidPages: map<BlockKey, int>
    var validLpns: map<BlockKey, set<int>>
    var eraseCounts: map<BlockKey, int>
    var nextPage: int
    var reclaimed: seq<PhysicalPage>

    function State(): Ftl
      reads this
    {
      Ftl(cfg, mapping, invalidPages, validLpns, eraseCounts, nextPage, reclaimed)
    }

    constructor (cfg: Config)
      ensures State() == Fresh(cfg)
    {
      this.cfg := cfg;
      mapping, invalidPages, validLpns, eraseCounts := map[], map[], map[], map[];
      nextPage, reclaimed := 0, [];
    }

    constructor FromState(s: Ftl)
      ensures State() == s
    {
      cfg := s.cfg;
      mapping, invalidPages, validLpns, eraseCounts := s.mapping, s.invalid, s.valid, s.erase;
      nextPage, reclaimed := s.next, s.reclaimed;
    }

    /** Pop recycled pages, rotating those of `avoid` to the back, until one lies outside it. */
    method PopOutside(avoid: Option<BlockKey>) returns (found: Option<PhysicalPage>)
      modifies this`reclaimed
      ensures var q := old(reclaimed); var k := FirstOutside(q, avoid);
              if k < |q| then found == Some(q[k]) && reclaimed == q[k + 1..] + q[..k]
              else found == None && reclaimed == q
    {
      ghost var q := reclaimed;
      for i := 0 to |reclaimed|
        invariant reclaimed == q[i..] + q[..i]
        invariant forall k :: 0 <= k < i ==> !Outside(q[k], avoid)
      {
        RotateStep(q, i);
        var physical := reclaimed[0];
        reclaimed := reclaimed[1..];
        if avoid != Some(Key(physical)) {
          assert FirstOutside(q, avoid) == i;
          return Some(physical);
        }
        reclaimed := reclaimed + [physical];
      }
      assert FirstOutside(q, avoid) == |q|;
      return None;
    }

    method AllocatePage(avoid: Option<BlockKey>) returns (r: Result<PhysicalPage, FtlError>)
      requires cfg.Valid()
      modifies this`reclaimed, this`nextPage
      ensures Outcome(State(), r) == Allocate(old(State()), avoid)
    {
      var found := PopOutside(avoid);
      if found.Some? {
        return Ok(found.value);
      }
      if nextPage >= cfg.Capacity() {
        return Err(CapacityExhausted);
      }
      r := Ok(PhysicalFromLinear(cfg, nextPage));
      nextPage := nextPage + 1;
    }

    method PlacePage(lpn: int, avoid: Option<BlockKey>) returns (r: Result<PhysicalPage, FtlError>)
      requires cfg.Valid()
      modifies this`reclaimed, this`nextPage, this`mapping, this`validLpns
      ensures Outcome(State(), r) == Place(old(State()), lpn, avoid)
    {
      r := AllocatePage(avoid);
      if r.Ok? {
        mapping := mapping[lpn := r.value];
        var b := Key(r.value);
        validLpns := validLpns[b := (if b in validLpns then validLpns[b] else {}) + {lpn}];
      }
    }

    /** Raising leaves the invalidation of the old copy behind, as in the source. */
    method WritePage(lpn: int) returns (r: Result<PhysicalPage, FtlError>)
      requires cfg.Valid()
      modifies this
      ensures Outcome(State(), r) == Write(old(State()), lpn)
    {
      if lpn in mapping {
        var b := Key(mapping[lpn]);
        validLpns := validLpns[b := (if b in validLpns then validLpns[b] else {}) - {lpn}];
        invalidPages := invalidPages[b := (if b in invalidPages then invalidPages[b] else 0) + 1];
      }
      r := PlacePage(lpn, None);
    }

    /** The maximum over the candidates, visited in any order, is the victim of the specification. */
    method ChooseVictim(candidates: set<BlockKey>) returns (victim: BlockKey)
      requires candidates == Candidates(State()) && candidates != {}
      modifies this`eraseCounts
      ensures victim == Victim(old(State()))
      ensures eraseCounts == WithDefaults(old(eraseCounts), candidates)
    {
      ghost var s := State();
      victim := AnyOf(candidates);
      var rest := candidates - {victim};
      ReadErases(s.erase, {}, victim);
      FirstSeen(candidates, victim);
      while rest != {}
        invariant rest <= candidates && IsBestOf(s, victim, candidates - rest)
        invariant eraseCounts == WithDefaults(s.erase, candidates - rest)
        decreases |rest|
      {
        var b := AnyOf(rest);
        NextSeen(candidates, rest, b);
        victim := Better(s, candidates - rest, victim, b);
        rest := rest - {b};
      }
      assert candidates - rest == candidates;
      BestUnique(s, victim, Victim(s), candidates);
    }

    /** Compare one more candidate with the best so far. */
    method Better(ghost s: Ftl, ghost seen: set<BlockKey>, victim: BlockKey, b: BlockKey) returns (best: BlockKey)
      requires b !in seen && IsBestOf(s, victim, seen)
      requires State() == s.(erase := eraseCounts) && eraseCounts == WithDefaults(s.erase, seen)
      modifies this`eraseCounts
      ensures IsBestOf(s, best, seen + {b}) && eraseCounts == WithDefaults(s.erase, seen + {b})
    {
      ReadErases(s.erase, seen, b);
      PreferDefaults(s, seen + {b}, b, victim);
      BestExtends(s, victim, seen, b);
      return if Prefer(State(), b, victim) then b else victim;
    }

    /** Reading a default dictionary creates the entry. */
    method ReadErases(ghost m: map<BlockKey, int>, ghost seen: set<BlockKey>, b: BlockKey)
      requires eraseCounts == WithDefaults(m, seen) || (seen == {} && eraseCounts == m)
      modifies this`eraseCounts
      ensures eraseCounts == WithDefaults(m, seen + {b})
    {
      ReadDefault(m, seen, b);
      if b !in eraseCounts {
        eraseCounts := eraseCounts[b := 0];
      }
    }

    method RelocateLive(victim: BlockKey, live: seq<int>) returns (r: Result<(), FtlError>)
      requires cfg.Valid()
      modifies this`reclaimed, this`nextPage, this`mapping, this`validLpns
      ensures Outcome(State(), r) == Relocate(old(State()), victim, live)
    {
      assert live[0..] == live;
      for i := 0 to |live|
        invariant Relocate(State(), victim, live[i..]) == Relocate(old(State()), victim, live)
      {
        var placed := PlacePage(live[i], Some(victim));
        assert live[i..][1..] == live[i + 1..];
        if placed.Err? {
          return Err(placed.error);
        }
      }
      return Ok(());
    }

    method ReclaimBlock(victim: BlockKey)
      requires cfg.Valid()
      modifies this
      ensures State() == Reclaim(old(State()), victim)
    {
      ghost var before, all := reclaimed, BlockPageSeq(cfg, victim);
      validLpns := validLpns[victim := {}];
      invalidPages := invalidPages[victim := 0];
      eraseCounts := eraseCounts[victim := (if victim in eraseCounts then eraseCounts[victim] else 0) + 1];
      ghost var s := State();
      for page := 0 to cfg.pagesPerBlock
        invariant State() == s.(reclaimed := before + all[..page])
      {
        reclaimed := reclaimed + [PhysicalPage(victim.channel, victim.die, victim.block, page)];
        assert all[..page + 1] == all[..page] + [all[page]];
      }
      assert all[..cfg.pagesPerBlock] == all;
    }

    method MoveAndReclaim(victim: BlockKey, live: seq<int>) returns (r: Result<GcResult, FtlError>)
      requires cfg.Valid()
      modifies this
      ensures Outcome(State(), r) == CollectLive(old(State()), victim, live)
    {
      var moved := RelocateLive(victim, live);
      if moved.Err? {
        return Err(moved.error);
      }
      ReclaimBlock(victim);
      r := Ok(GcResult(victim, |live|, cfg.pagesPerBlock, eraseCounts[victim]));
    }

    method CollectChosen(victim: BlockKey, ghost s: Ftl) returns (r: Result<GcResult, FtlError>)
      requires cfg.Valid() && State() == s.(erase := WithDefaults(s.erase, Candidates(s)))
      modifies this
      ensures Outcome(State(), r) == CollectVictim(s, victim)
    {
      validLpns := validLpns[victim := if victim in validLpns then validLpns[victim] else {}];
      assert State() == Touch(s, victim);
      var live := SortedSet(validLpns[victim]);
      if cfg.Capacity() - nextPage + |reclaimed| < |live| {
        return Err(InsufficientWorkspace);
      }
      r := MoveAndReclaim(victim, live);
    }

    method GarbageCollect() returns (r: Result<GcResult, FtlError>)
      requires cfg.Valid()
      modifies this
      ensures Outcome(State(), r) == Collect(old(State()))
    {
      var candidates := set b | b in invalidPages && invalidPages[b] > 0;
      if candidates == {} {
        return Err(NoReclaimableBlock);
      }
      var victim := ChooseVictim(candidates);
      r := CollectChosen(victim, old(State()));
    }

    method MakeCheckpoint() returns (c: FtlCheckpoint.Checkpoint)
      ensures FtlCheckpoint.IsCheckpointOf(c, State())
    {
      var m := ListItems(mapping, FtlCheckpoint.IntToString, FtlCheckpoint.EncodePage);
      var i := ListItems(invalidPages, FtlCheckpoint.EncodeBlock, (n: int) => n);
      var v := ListItems(validLpns, FtlCheckpoint.EncodeBlock, SortedSet);
      var e := ListItems(eraseCounts, FtlCheckpoint.EncodeBlock, (n: int) => n);
      c := FtlCheckpoint.Checkpoint(nextPage, m, i, v, e, FtlCheckpoint.EncodePages(reclaimed));
    }

    static method RecoverFrom(cfg: Config, c: FtlCheckpoint.Checkpoint)
      returns (r: Result<PageMappingFTL, FtlCheckpoint.RecoveryError>)
      ensures match FtlCheckpoint.Recover(cfg, c)
              case Ok(s) => r.Ok? && fresh(r.value) && r.value.State() == s
              case Err(e) => r == Err(e)
    {
      var s := FtlCheckpoint.Recover(cfg, c);
      if s.Ok? {
        var ftl := new PageMappingFTL.FromState(s.value);
        r := Ok(ftl);
      } else {
        r := Err(s.error);
      }
    }
  }

  lemma RotateStep(q: seq<PhysicalPage>, i: nat)
    requires i < |q|
    ensures (q[i..] + q[..i])[0] == q[i]
    ensures (q[i..] + q[..i])[1..] == q[i + 1..] + q[..i]
    ensures (q[i..] + q[..i])[1..] + [q[i]] == q[i + 1..] + q[..i + 1]
  {
  }

  lemma FirstSeen(candidates: set<BlockKey>, v: BlockKey)
    requires v in candidates
    ensures candidates - (candidates - {v}) == {} + {v} == {v}
  {
  }

  lemma NextSeen(candidates: set<BlockKey>, rest: set<BlockKey>, b: BlockKey)
    requires b in rest && rest <= candidates
    ensures candidates - (rest - {b}) == candidates - rest + {b} && b !in candidates - rest
  {
  }

  lemma PreferDefaults(s: Ftl, keys: set<BlockKey>, a: BlockKey, b: BlockKey)
    ensures Prefer(s.(erase := WithDefaults(s.erase, keys)), a, b) == Prefer(s, a, b)
  {
  }

  lemma BestExtends(s: Ftl, v: BlockKey, seen: set<BlockKey>, b: BlockKey)
    requires IsBestOf(s, v, seen) && b !in seen
    ensures IsBestOf(s, if Prefer(s, b, v) then b else v, seen + {b})
  {
  }

  lemma ReadDefault(m: map<BlockKey, int>, seen: set<BlockKey>, b: BlockKey)
    ensures WithDefaults(m, {}) == m
    ensures var d := WithDefaults(m, seen); WithDefaults(m, seen + {b}) == if b in d then d else d[b := 0]
  {
  }

  /** The encoded items of a dictionary in iteration order. */
  method ListItems<K(!new,==), V, W(!new)>(m: map<K, V>, ek: K -> string, ev: V -> W) returns (entries: seq<(string, W)>)
    ensures FtlCheckpoint.Lists(entries, m, ek, ev)
  {
    entries := [];
    var rest := m.Keys;
    while rest != {}
      invariant rest <= m.Keys
      invariant forall k :: k in m && k !in rest ==> (ek(k), ev(m[k])) in entries
      invariant forall e :: e in entries ==> exists k :: k in m && e == (ek(k), ev(m[k]))
      decreases |rest|
    {
      var k := AnyOf(rest);
      entries := entries + [(ek(k), ev(m[k]))];
      rest := rest - {k};
    }
  }
}
